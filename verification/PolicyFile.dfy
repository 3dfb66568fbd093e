/**
 The policy-file transaction: write and validate a candidate, swap it in or
 remove the target, reload, and restore what was there when a step fails. Every
 operation that touches the system may work, fail without effect, or take
 effect and still report a failure.
 */
module PolicyFile {
  import opened ManagedBlock
  import opened Options
  import opened Rollback

  datatype Fate = Works | Refused | Unreported

  /** `target` and `candidate` are the contents of the two paths, absent when
      there is no file. `held` says that the transaction knows the candidate's
      path. `stray` and `unrestored` record a candidate writer that failed
      without cleaning up, and a failed swap whose restore failed too. */
  datatype World = World(
    target: Option<string>,
    candidate: Option<string>,
    held: bool,
    stray: bool,
    unrestored: bool,
    fates: seq<Fate>)

  function Fated(w: World): Fate { if w.fates == [] then Works else w.fates[0] }

  function Advance(w: World): World { if w.fates == [] then w else w.(fates := w.fates[1..]) }

  /** An operation with the given effect meets its fate. */
  function Attempt(w: World, effect: World -> World): (World, bool) {
    var v := Advance(w);
    match Fated(w)
    case Works => (effect(v), true)
    case Refused => (v, false)
    case Unreported => (effect(v), false)
  }

  function RemoveCandidate(w: World): (World, bool) {
    Attempt(w, (v: World) => v.(candidate := None))
  }

  /** Removal or rewriting of the target; both are atomic. */
  function SetTarget(w: World, content: Option<string>): (World, bool) {
    Attempt(w, (v: World) => v.(target := content))
  }

  // ---------------------------------------------------------------------
  // The five steps
  // ---------------------------------------------------------------------

  function WriteCandidate(desired: Option<string>): Step<World> {
    Step("write policy candidate",
         (w: World) =>
           var content := if desired.Some? then desired.value else "";
           var (v, ok) := Attempt(w, (v: World) => v.(candidate := Some(content)));
           (v.(held := ok, stray := !ok && v.candidate.Some?), ok),
         (w: World) => if w.held then RemoveCandidate(w) else (w, true))
  }

  function ValidateCandidate(): Step<World> {
    Step("validate policy candidate", (w: World) => Attempt(w, (v: World) => v), (w: World) => (w, true))
  }

  function DiscardCandidate(desired: Option<string>): Step<World> {
    Step("discard absence candidate",
         (w: World) =>
           if desired.Some? then (w, true)
           else var (v, ok) := RemoveCandidate(w); (if ok then v.(held := false) else v, ok),
         (w: World) => (w, true))
  }

  /** A swap that reports failure is compensated on the spot, because its effect
      is not known; the candidate's path is forgotten only on success. */
  function SwapIn(desired: Option<string>, current: Option<string>): Step<World> {
    Step("swap policy file",
         (w: World) =>
           var (v, ok) := if desired.None? then SetTarget(w, None)
                          else Attempt(w, (v: World) => v.(target := v.candidate, candidate := None));
           if ok then (v.(held := false), true)
           else var (r, restored) := SetTarget(v, current); (r.(unrestored := !restored), false),
         (w: World) => SetTarget(w, current))
  }

  function Reload(): Step<World> {
    Step("reload policy surface", (w: World) => Attempt(w, (v: World) => v), (w: World) => (w, true))
  }

  function Transaction(desired: Option<string>, current: Option<string>): seq<Step<World>> {
    [WriteCandidate(desired), ValidateCandidate(), DiscardCandidate(desired), SwapIn(desired, current), Reload()]
  }

  // ---------------------------------------------------------------------
  // What each prefix establishes
  // ---------------------------------------------------------------------

  predicate Reached(desired: Option<string>, current: Option<string>, k: nat, w: World) {
    && !w.stray && !w.unrestored
    && if k == 0 then w.target == current && w.candidate == None && !w.held
       else if k <= 2 || (k == 3 && desired.Some?) then
         w.target == current && w.held && w.candidate == Some(if desired.Some? then desired.value else "")
       else if k == 3 then w.target == current && w.candidate == None && !w.held
       else w.target == desired && w.candidate == None && !w.held
  }

  predicate Undoable(current: Option<string>, k: nat, w: World) {
    || w.unrestored
    || (&& (k < 4 ==> w.target == current)
        && (w.stray ==> k == 0 && w.candidate.Some?)
        && (w.candidate.Some? ==> w.stray || (k > 0 && w.held)))
  }

  lemma StepsCompensate(desired: Option<string>, current: Option<string>)
    ensures Compensates(Transaction(desired, current),
                        (k, w) => Reached(desired, current, k, w), (k, w) => Undoable(current, k, w))
  {
    var steps := Transaction(desired, current);
    forall k: nat, w | k < |steps| && Reached(desired, current, k, w)
      ensures steps[k].apply(w).1 ==> Reached(desired, current, k + 1, steps[k].apply(w).0)
      ensures !steps[k].apply(w).1 ==> Undoable(current, k, steps[k].apply(w).0)
    {
      ApplyEstablishes(desired, current, k, w);
    }
    forall k: nat, w | k < |steps| && Undoable(current, k + 1, w) && steps[k].undo(w).1
      ensures Undoable(current, k, steps[k].undo(w).0)
    {
      UndoEstablishes(desired, current, k, w);
    }
  }

  /** Success establishes the next prefix; failure leaves this one undoable. */
  predicate Establishes(desired: Option<string>, current: Option<string>, k: nat, result: (World, bool)) {
    if result.1 then Reached(desired, current, k + 1, result.0) else Undoable(current, k, result.0)
  }

  lemma WriteEstablishes(desired: Option<string>, current: Option<string>, w: World)
    requires Reached(desired, current, 0, w)
    ensures Establishes(desired, current, 0, WriteCandidate(desired).apply(w))
  {
  }

  lemma DiscardEstablishes(desired: Option<string>, current: Option<string>, w: World)
    requires Reached(desired, current, 2, w)
    ensures Establishes(desired, current, 2, DiscardCandidate(desired).apply(w))
  {
  }

  lemma SwapEstablishes(desired: Option<string>, current: Option<string>, w: World)
    requires Reached(desired, current, 3, w)
    ensures Establishes(desired, current, 3, SwapIn(desired, current).apply(w))
  {
  }

  lemma ApplyEstablishes(desired: Option<string>, current: Option<string>, k: nat, w: World)
    requires k < 5 && Reached(desired, current, k, w)
    ensures Establishes(desired, current, k, Transaction(desired, current)[k].apply(w))
  {
    match k
    case 0 => WriteEstablishes(desired, current, w);
    case 1 => assert Establishes(desired, current, 1, ValidateCandidate().apply(w));
    case 2 => DiscardEstablishes(desired, current, w);
    case 3 => SwapEstablishes(desired, current, w);
    case _ => assert Establishes(desired, current, 4, Reload().apply(w));
  }

  lemma UndoEstablishes(desired: Option<string>, current: Option<string>, k: nat, w: World)
    requires k < 5 && Undoable(current, k + 1, w) && Transaction(desired, current)[k].undo(w).1
    ensures Undoable(current, k, Transaction(desired, current)[k].undo(w).0)
  {
  }

  // ---------------------------------------------------------------------
  // All or nothing
  // ---------------------------------------------------------------------

  datatype Result = Unchanged | Changed | FailedWith(step: nat, unfixed: seq<nat>) | Invalid(error: Error)

  function Start(current: Option<string>, fates: seq<Fate>): World {
    World(current, None, false, false, false, fates)
  }

  function Drafts(steps: seq<Step<World>>): seq<Draft<World>> {
    seq(|steps|, i requires 0 <= i < |steps| => Draft(steps[i].name, Some(steps[i].apply), Some(steps[i].undo)))
  }

  lemma DraftsComplete(desired: Option<string>, current: Option<string>)
    ensures var drafts := Drafts(Transaction(desired, current));
            && (forall i :: 0 <= i < |drafts| ==> Complete(drafts[i]))
            && Steps(drafts) == Transaction(desired, current)
  {
    var steps := Transaction(desired, current);
    forall i | 0 <= i < |steps| ensures Complete(Drafts(steps)[i]) && StepOf(Drafts(steps)[i]) == steps[i] {
    }
  }

  /** For every fate of every operation: done means the desired state, and a
      failure whose compensations worked means the state that was read. */
  lemma TransactionOutcome(desired: Option<string>, current: Option<string>, fates: seq<Fate>)
    ensures var (w, outcome) := Execute(Transaction(desired, current), Start(current, fates), 0);
            match outcome
            case Done => Reached(desired, current, 5, w)
            case Failed(_, unfixed) => unfixed == [] ==> Undoable(current, 0, w)
            case Malformed(_) => false
  {
    StepsCompensate(desired, current);
    AllOrNothing(Transaction(desired, current), (k, w) => Reached(desired, current, k, w),
                 (k, w) => Undoable(current, k, w), Start(current, fates), 0);
  }

  function AsState(file: Option<string>): FileState {
    if file.Some? then FileState(Present, file.value, None) else FileState(Absent, "", None)
  }

  function AsFile(state: FileState): Option<string> {
    if state.presence == Present then Some(state.content) else None
  }

  /** The file is already what a request renders to. */
  predicate Settled(desired: FileState, file: Option<string>, v: Validator) {
    Render(desired, AsState(file), v) == Ok(AsState(file))
  }

  lemma RenderedSettles(desired: FileState, current: Option<string>, v: Validator)
    requires Render(desired, AsState(current), v).Ok?
    ensures var file := AsFile(Render(desired, AsState(current), v).state);
            Settled(desired, file, v) && (file == current <==> Settled(desired, current, v))
  {
    RenderIdempotent(desired, AsState(current), v);
  }

  /** One application to the file as it was read.  A request that cannot be rendered touches
      nothing.  Success leaves exactly what the request renders to, no candidate, and a file on
      which the same request changes nothing more.  A failure that reports no failed
      compensation leaves the target exactly as it was read, and a candidate exactly if its
      writer failed without cleaning up. */
  method ApplyPolicyFile(current: Option<string>, desired: FileState, v: Validator, fates: seq<Fate>)
    returns (w: World, result: Result)
    ensures match Render(desired, AsState(current), v)
            case Err(e) => result == Invalid(e)
            case Ok(_) => !result.Invalid?
    ensures result == Unchanged <==> Settled(desired, current, v)
    ensures result == Unchanged || result.Invalid? ==> w.target == current && w.candidate == None
    ensures result == Changed ==>
              && AsState(w.target) == Render(desired, AsState(current), v).state
              && Settled(desired, w.target, v) && w.candidate == None
    ensures result.FailedWith? && result.unfixed == [] && !w.unrestored ==>
              w.target == current && (w.candidate.Some? <==> w.stray)
  {
    w := Start(current, fates);
    var rendered := Render(desired, AsState(current), v);
    if rendered.Err? {
      return w, Invalid(rendered.error);
    }
    RenderedSettles(desired, current, v);
    w, result := Replace(current, AsFile(rendered.state), fates);
  }

  /** The transaction over what was read and what was rendered. */
  method Replace(current: Option<string>, desired: Option<string>, fates: seq<Fate>) returns (w: World, result: Result)
    ensures !result.Invalid? && (result == Unchanged <==> current == desired)
    ensures result == Unchanged || result == Changed ==> w.target == desired && w.candidate == None
    ensures result.FailedWith? && result.unfixed == [] && !w.unrestored ==>
              w.target == current && (w.candidate.Some? <==> w.stray)
  {
    w := Start(current, fates);
    if current == desired {
      return w, Unchanged;
    }
    var outcome;
    var drafts := Drafts(Transaction(desired, current));
    DraftsComplete(desired, current);
    w, outcome := Run(drafts, w);
    TransactionOutcome(desired, current, fates);
    result := if outcome.Failed? then FailedWith(outcome.index, outcome.unfixed) else Changed;
  }
}
