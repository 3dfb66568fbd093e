/**
 Compensated execution: apply steps in order and, when one fails, undo the
 completed ones in reverse. A step works on a state that may carry the outcome
 of every future operation, so quantifying over states covers all failures.
 */
module Rollback {
  import opened Options

  /** Both operations report success with their second result. */
  datatype Step<!S> = Step(name: string, apply: S -> (S, bool), undo: S -> (S, bool))

  /** A step as a caller hands it in; either function may be missing. */
  datatype Draft<!S> = Draft(name: string, apply: Option<S -> (S, bool)>, undo: Option<S -> (S, bool)>)

  predicate Complete<S>(d: Draft<S>) { d.name != "" && d.apply.Some? && d.undo.Some? }

  function StepOf<S>(d: Draft<S>): Step<S>
    requires Complete(d)
  {
    Step(d.name, d.apply.value, d.undo.value)
  }

  function Steps<S>(drafts: seq<Draft<S>>): seq<Step<S>>
    requires forall i :: 0 <= i < |drafts| ==> Complete(drafts[i])
  {
    seq(|drafts|, i requires 0 <= i < |drafts| => StepOf(drafts[i]))
  }

  /** `unfixed` lists the completed steps whose compensation failed, last first. */
  datatype Outcome = Done | Malformed(index: nat) | Failed(index: nat, unfixed: seq<nat>)

  function Unwind<S>(steps: seq<Step<S>>, s: S, k: nat): S
    requires k <= |steps|
  {
    if k == 0 then s else Unwind(steps, steps[k-1].undo(s).0, k - 1)
  }

  function Unfixed<S>(steps: seq<Step<S>>, s: S, k: nat): seq<nat>
    requires k <= |steps|
  {
    if k == 0 then []
    else (if steps[k-1].undo(s).1 then [] else [k-1]) + Unfixed(steps, steps[k-1].undo(s).0, k - 1)
  }

  /** Execution from step k on, the earlier ones having succeeded. */
  function Execute<S>(steps: seq<Step<S>>, s: S, k: nat): (S, Outcome)
    requires k <= |steps|
    decreases |steps| - k
  {
    if k == |steps| then (s, Done)
    else
      var (t, ok) := steps[k].apply(s);
      if ok then Execute(steps, t, k + 1)
      else (Unwind(steps, t, k), Failed(k, Unfixed(steps, t, k)))
  }

  lemma Associative(a: seq<nat>, b: seq<nat>, c: seq<nat>)
    ensures a + (b + c) == a + b + c && a + [] == a
  {
  }

  /** Undo the first k steps, last first, going on past failures. */
  method Compensate<S>(steps: seq<Step<S>>, s: S, k: nat) returns (t: S, unfixed: seq<nat>)
    requires k <= |steps|
    ensures t == Unwind(steps, s, k) && unfixed == Unfixed(steps, s, k)
  {
    t, unfixed := s, [];
    ghost var goal, failures := Unwind(steps, s, k), Unfixed(steps, s, k);
    var j := k;
    while j > 0
      invariant 0 <= j <= k
      invariant goal == Unwind(steps, t, j)
      invariant failures == unfixed + Unfixed(steps, t, j)
    {
      j := j - 1;
      var (undone, fixed) := steps[j].undo(t);
      Associative(unfixed, if fixed then [] else [j], Unfixed(steps, undone, j));
      if !fixed {
        unfixed := unfixed + [j];
      }
      t := undone;
    }
  }

  /** A list with an incomplete step does nothing. */
  method Run<S>(drafts: seq<Draft<S>>, s: S) returns (t: S, outcome: Outcome)
    ensures outcome.Malformed? <==> exists i :: 0 <= i < |drafts| && !Complete(drafts[i])
    ensures outcome.Malformed? ==>
              && t == s && outcome.index < |drafts| && !Complete(drafts[outcome.index])
              && forall j :: 0 <= j < outcome.index ==> Complete(drafts[j])
    ensures !outcome.Malformed? ==> (t, outcome) == Execute(Steps(drafts), s, 0)
  {
    t := s;
    for i := 0 to |drafts|
      invariant forall j :: 0 <= j < i ==> Complete(drafts[j])
    {
      if drafts[i].name == "" || drafts[i].apply.None? || drafts[i].undo.None? {
        return t, Malformed(i);
      }
    }
    var steps := Steps(drafts);
    var k := 0;
    while k < |steps|
      invariant 0 <= k <= |steps|
      invariant Execute(steps, s, 0) == Execute(steps, t, k)
    {
      var (next, ok) := steps[k].apply(t);
      t := next;
      if !ok {
        var unfixed;
        t, unfixed := Compensate(steps, t, k);
        return t, Failed(k, unfixed);
      }
      k := k + 1;
    }
    outcome := Done;
  }

  /** `reached(k, ·)` describes the states after k successful steps and
      `undoable(k, ·)` the states from which undoing the first k steps restores
      the beginning. */
  ghost predicate Compensates<S(!new)>(steps: seq<Step<S>>, reached: (nat, S) -> bool, undoable: (nat, S) -> bool) {
    && (forall k: nat, s :: k < |steps| && reached(k, s) && steps[k].apply(s).1 ==> reached(k + 1, steps[k].apply(s).0))
    && (forall k: nat, s :: k < |steps| && reached(k, s) && !steps[k].apply(s).1 ==> undoable(k, steps[k].apply(s).0))
    && (forall k: nat, s :: k < |steps| && undoable(k + 1, s) && steps[k].undo(s).1 ==> undoable(k, steps[k].undo(s).0))
  }

  lemma {:induction false} UnwindRestores<S(!new)>(
      steps: seq<Step<S>>, reached: (nat, S) -> bool, undoable: (nat, S) -> bool, s: S, k: nat)
    requires Compensates(steps, reached, undoable) && k <= |steps| && undoable(k, s) && Unfixed(steps, s, k) == []
    ensures undoable(0, Unwind(steps, s, k))
  {
    if k > 0 {
      assert undoable((k - 1) + 1, s);
      UnwindRestores(steps, reached, undoable, steps[k-1].undo(s).0, k - 1);
    }
  }

  /** All or nothing, for any number of compensating steps and any failure: the
      run ends with all steps done, or as if none had started, unless it reports
      a compensation that failed. */
  lemma {:induction false} AllOrNothing<S(!new)>(
      steps: seq<Step<S>>, reached: (nat, S) -> bool, undoable: (nat, S) -> bool, s: S, k: nat)
    requires Compensates(steps, reached, undoable) && k <= |steps| && reached(k, s)
    ensures var (t, outcome) := Execute(steps, s, k);
            match outcome
            case Done => reached(|steps|, t)
            case Failed(_, unfixed) => unfixed == [] ==> undoable(0, t)
            case Malformed(_) => false
    decreases |steps| - k
  {
    if k < |steps| {
      var (t, ok) := steps[k].apply(s);
      if ok {
        AllOrNothing(steps, reached, undoable, t, k + 1);
      } else if Unfixed(steps, t, k) == [] {
        UnwindRestores(steps, reached, undoable, t, k);
      }
    }
  }
}
