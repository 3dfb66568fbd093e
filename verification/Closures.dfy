/**
 Two graph closures of the architecture tests: the wire messages reachable from service
 methods, by depth-first search, and the packages linked into a binary, by a work queue.
 Both end, cycles included, with exactly the nodes a chain of edges leads to.
 */
module Closures {
  import opened Options
  import opened StringOrder

  type Name = string

  type Graph = map<Name, set<Name>>

  function Next(g: Graph, n: Name): set<Name> { if n in g then g[n] else {} }

  predicate Closed(g: Graph, s: set<Name>) {
    forall n :: n in s ==> Next(g, n) <= s
  }

  /** The least set that holds the roots and is closed. */
  ghost predicate IsClosure(g: Graph, roots: set<Name>, s: set<Name>) {
    && roots <= s && Closed(g, s)
    && forall t :: roots <= t && Closed(g, t) ==> s <= t
  }

  /** A chain of edges from a root to n. */
  predicate Chain(g: Graph, roots: set<Name>, path: seq<Name>, n: Name) {
    && path != [] && path[0] in roots && path[|path|-1] == n
    && forall i :: 0 < i < |path| ==> path[i] in Next(g, path[i - 1])
  }

  lemma {:induction false} ChainStays(g: Graph, roots: set<Name>, s: set<Name>, path: seq<Name>, n: Name)
    requires roots <= s && Closed(g, s) && Chain(g, roots, path, n)
    ensures n in s
  {
    if |path| > 1 {
      ChainStays(g, roots, s, path[..|path|-1], path[|path|-2]);
    }
  }

  lemma ChainExtends(g: Graph, roots: set<Name>, path: seq<Name>, n: Name, m: Name)
    requires Chain(g, roots, path, n) && m in Next(g, n)
    ensures Chain(g, roots, path + [m], m)
  {
  }

  /** The closure is what chains lead to. */
  lemma ClosureIsReachable(g: Graph, roots: set<Name>, s: set<Name>, n: Name)
    requires IsClosure(g, roots, s)
    ensures n in s <==> exists path :: Chain(g, roots, path, n)
  {
    if exists path :: Chain(g, roots, path, n) {
      var path :| Chain(g, roots, path, n);
      ChainStays(g, roots, s, path, n);
    }
    ChainsAreClosed(g, roots, s);
  }

  ghost function Reached(g: Graph, roots: set<Name>, within: set<Name>): set<Name> {
    set n | n in within && exists path :: Chain(g, roots, path, n)
  }

  lemma ChainsAreClosed(g: Graph, roots: set<Name>, within: set<Name>)
    requires roots <= within && Closed(g, within)
    ensures roots <= Reached(g, roots, within) && Closed(g, Reached(g, roots, within))
  {
    forall n | n in roots ensures n in Reached(g, roots, within) {
      assert Chain(g, roots, [n], n);
    }
    forall n, m | n in Reached(g, roots, within) && m in Next(g, n) ensures m in Reached(g, roots, within) {
      var path :| Chain(g, roots, path, n);
      ChainExtends(g, roots, path, n, m);
    }
  }

  // ---------------------------------------------------------------------
  // Messages: depth-first
  // ---------------------------------------------------------------------

  datatype Field = Scalar | Single(message: Name) | Map(value: Option<Name>)

  datatype Message = Message(file: string, fields: seq<Field>)

  datatype Rpc = Rpc(input: Name, output: Name)

  /** Every descriptor there is; each reference leads to one. */
  type Registry = map<Name, Message>

  function Target(f: Field): set<Name> {
    match f
    case Scalar => {}
    case Single(m) => {m}
    case Map(v) => if v.Some? then {v.value} else {}
  }

  function Targets(fields: seq<Field>): set<Name> {
    set f, m | f in fields && m in Target(f) :: m
  }

  predicate Complete(registry: Registry) {
    forall n, f, m :: n in registry && f in registry[n].fields && m in Target(f) ==> m in registry
  }

  predicate Audited(registry: Registry, audited: set<string>, n: Name) {
    n in registry && registry[n].file in audited
  }

  /** Field references between audited messages. */
  function MessageGraph(registry: Registry, audited: set<string>): Graph {
    map n | n in registry && Audited(registry, audited, n) ::
      set m | m in Targets(registry[n].fields) && Audited(registry, audited, m)
  }

  function MessageRoots(registry: Registry, audited: set<string>, rpcs: seq<Rpc>): set<Name> {
    set r, n | r in rpcs && n in {r.input, r.output} && Audited(registry, audited, n) :: n
  }

  /** What holds of the messages added since before. */
  ghost predicate Grown(g: Graph, roots: set<Name>, before: set<Name>, seen: set<Name>) {
    && before + roots <= seen
    && (forall n :: n in seen && n !in before ==> Next(g, n) <= seen)
    && forall t :: roots <= t && Closed(g, t) ==> seen <= before + t
  }

  class Walker {
    const registry: Registry
    const audited: set<string>
    var seen: set<Name>

    constructor (registry: Registry, audited: set<string>)
      ensures this.registry == registry && this.audited == audited && seen == {}
    {
      this.registry, this.audited, seen := registry, audited, {};
    }

    function Graph(): Graph { MessageGraph(registry, audited) }

    method Visit(n: Name)
      requires Complete(registry) && n in registry && seen <= registry.Keys
      modifies this
      ensures seen <= registry.Keys
      ensures Grown(Graph(), if Audited(registry, audited, n) then {n} else {}, old(seen), seen)
      decreases registry.Keys - seen, 0
    {
      if registry[n].file !in audited {
        return;
      }
      if n in seen {
        return;
      }
      seen := seen + {n};
      VisitFields(n, registry[n].fields);
    }

    method VisitField(f: Field)
      requires Complete(registry) && seen <= registry.Keys && Target(f) <= registry.Keys
      modifies this
      ensures seen <= registry.Keys
      ensures Grown(Graph(), AuditedTargets(registry, audited, [f]), old(seen), seen)
      decreases registry.Keys - seen, 1
    {
      OneTarget(registry, audited, f);
      match f {
        case Map(v) =>
          if v.Some? {
            Visit(v.value);
          }
        case Single(m) =>
          Visit(m);
        case Scalar =>
      }
    }

    method VisitFields(n: Name, fields: seq<Field>)
      requires Complete(registry) && n in registry && fields == registry[n].fields
      requires Audited(registry, audited, n) && n in seen && seen <= registry.Keys
      modifies this
      ensures seen <= registry.Keys
      ensures Grown(Graph(), Next(Graph(), n), old(seen), seen)
      decreases registry.Keys - seen, 2
    {
      for i := 0 to |fields|
        invariant old(seen) <= seen <= registry.Keys
        invariant Grown(Graph(), AuditedTargets(registry, audited, fields[..i]), old(seen), seen)
      {
        TargetsNext(registry, audited, fields, i);
        assert fields[i] in registry[n].fields;
        ghost var sofar := seen;
        VisitField(fields[i]);
        GrownThen(Graph(), AuditedTargets(registry, audited, fields[..i]),
                  AuditedTargets(registry, audited, [fields[i]]), old(seen), sofar, seen);
      }
      assert fields[..|fields|] == fields;
    }
  }

  function AuditedTargets(registry: Registry, audited: set<string>, fields: seq<Field>): set<Name> {
    set m | m in Targets(fields) && Audited(registry, audited, m)
  }

  lemma TargetsNext(registry: Registry, audited: set<string>, fields: seq<Field>, i: nat)
    requires i < |fields|
    ensures AuditedTargets(registry, audited, fields[..i + 1])
         == AuditedTargets(registry, audited, fields[..i]) + AuditedTargets(registry, audited, [fields[i]])
  {
    assert fields[..i + 1] == fields[..i] + [fields[i]];
  }

  lemma OneTarget(registry: Registry, audited: set<string>, f: Field)
    ensures AuditedTargets(registry, audited, [f]) == set m | m in Target(f) && Audited(registry, audited, m)
  {
    assert f in [f];
  }

  lemma GrownThen(g: Graph, first: set<Name>, second: set<Name>, a: set<Name>, b: set<Name>, c: set<Name>)
    requires Grown(g, first, a, b) && Grown(g, second, b, c)
    ensures Grown(g, first + second, a, c)
  {
  }

  lemma RpcNext(registry: Registry, audited: set<string>, rpcs: seq<Rpc>, i: nat)
    requires i < |rpcs|
    ensures MessageRoots(registry, audited, rpcs[..i + 1])
         == MessageRoots(registry, audited, rpcs[..i])
            + (if Audited(registry, audited, rpcs[i].input) then {rpcs[i].input} else {})
            + (if Audited(registry, audited, rpcs[i].output) then {rpcs[i].output} else {})
  {
    assert rpcs[..i + 1] == rpcs[..i] + [rpcs[i]];
  }

  /** rpcs are the methods of all services of the audited files. */
  method ReachableMessages(registry: Registry, audited: set<string>, rpcs: seq<Rpc>) returns (seen: set<Name>)
    requires Complete(registry)
    requires forall r :: r in rpcs ==> r.input in registry && r.output in registry
    ensures IsClosure(MessageGraph(registry, audited), MessageRoots(registry, audited, rpcs), seen)
  {
    var walker := new Walker(registry, audited);
    ghost var g := MessageGraph(registry, audited);
    for j := 0 to |rpcs|
      invariant walker.registry == registry && walker.audited == audited
      invariant walker.seen <= registry.Keys
      invariant Grown(g, MessageRoots(registry, audited, rpcs[..j]), {}, walker.seen)
    {
      RpcNext(registry, audited, rpcs, j);
      ghost var before := walker.seen;
      walker.Visit(rpcs[j].input);
      ghost var between := walker.seen;
      ghost var first := if Audited(registry, audited, rpcs[j].input) then {rpcs[j].input} else {};
      GrownThen(g, MessageRoots(registry, audited, rpcs[..j]), first, {}, before, between);
      walker.Visit(rpcs[j].output);
      ghost var second := if Audited(registry, audited, rpcs[j].output) then {rpcs[j].output} else {};
      GrownThen(g, MessageRoots(registry, audited, rpcs[..j]) + first, second, {}, between, walker.seen);
    }
    assert rpcs[..|rpcs|] == rpcs;
    return walker.seen;
  }

  // ---------------------------------------------------------------------
  // Packages: a work queue
  // ---------------------------------------------------------------------

  /** The readable package directories, each with the import paths of its files; a path that
      cannot be unquoted is absent. */
  type Packages = map<Name, seq<Option<string>>>

  /** Import paths inside the repository, relative to it. */
  function Imports(prefix: string, paths: seq<Option<string>>): set<Name> {
    set p | p in paths && p.Some? && prefix <= p.value :: p.value[|prefix|..]
  }

  function PackageGraph(packages: Packages, prefix: string): Graph {
    map d | d in packages :: Imports(prefix, packages[d])
  }

  lemma ImportsNext(prefix: string, paths: seq<Option<string>>, i: nat)
    requires i < |paths|
    ensures Imports(prefix, paths[..i + 1]) == Imports(prefix, paths[..i])
            + if paths[i].Some? && prefix <= paths[i].value then {paths[i].value[|prefix|..]} else {}
  {
    assert paths[..i + 1] == paths[..i] + [paths[i]];
  }

  /** The inner loop: new imports are marked and queued. */
  method Enqueue(prefix: string, paths: seq<Option<string>>, before: set<Name>, waiting: seq<Name>)
    returns (seen: set<Name>, queue: seq<Name>)
    ensures seen == before + Imports(prefix, paths)
    ensures waiting <= queue
    ensures forall d :: d in queue <==> d in waiting || d in seen - before
    ensures forall i, j :: |waiting| <= i < j < |queue| ==> queue[i] != queue[j]
    ensures forall i :: |waiting| <= i < |queue| ==> queue[i] in seen - before
    ensures seen == before ==> queue == waiting
  {
    seen, queue := before, waiting;
    for i := 0 to |paths|
      invariant seen == before + Imports(prefix, paths[..i])
      invariant waiting <= queue
      invariant forall d :: d in queue <==> d in waiting || d in seen - before
      invariant forall i, j :: |waiting| <= i < j < |queue| ==> queue[i] != queue[j]
      invariant forall i :: |waiting| <= i < |queue| ==> queue[i] in seen - before
      invariant seen == before ==> queue == waiting
    {
      ImportsNext(prefix, paths, i);
      if paths[i].None? || !(prefix <= paths[i].value) {
        continue;
      }
      var rel := paths[i].value[|prefix|..];
      if rel !in seen {
        seen := seen + {rel};
        queue := queue + [rel];
      }
    }
    assert paths[..|paths|] == paths;
  }

  /** Every import there is. */
  function AllImports(packages: Packages, prefix: string): set<Name> {
    set d, n | d in packages && n in Imports(prefix, packages[d]) :: n
  }

  /** seen is reached from the entry's imports, and what is not waiting is dealt with. */
  ghost predicate Working(packages: Packages, prefix: string, entry: Name, seen: set<Name>, queue: seq<Name>) {
    var g := PackageGraph(packages, prefix);
    && seen <= AllImports(packages, prefix)
    && (forall t :: Next(g, entry) <= t && Closed(g, t) ==> seen <= t)
    && (forall d :: d in queue ==> d == entry || d in seen)
    && (forall d :: d == entry || d in seen ==> d in queue || (d in packages && Next(g, d) <= seen))
  }

  lemma WorkingStep(packages: Packages, prefix: string, entry: Name, seen: set<Name>, queue: seq<Name>,
                    seen': set<Name>, queue': seq<Name>)
    requires Working(packages, prefix, entry, seen, queue)
    requires queue != [] && queue[0] in packages
    requires seen' == seen + Imports(prefix, packages[queue[0]])
    requires forall d :: d in queue' <==> d in queue[1..] || d in seen' - seen
    ensures Working(packages, prefix, entry, seen', queue')
  {
    var g := PackageGraph(packages, prefix);
    forall t | Next(g, entry) <= t && Closed(g, t) ensures seen' <= t {
      assert seen <= t;
      assert queue[0] in queue;
    }
    forall d | d == entry || d in seen' ensures d in queue' || (d in packages && Next(g, d) <= seen') {
      if d in queue && d != queue[0] {
        var i :| 0 <= i < |queue| && queue[i] == d;
        assert queue[1..][i - 1] == d;
      }
    }
  }

  /** The entry itself, or a package some chain of one or more imports leads to. */
  ghost predicate Linked(packages: Packages, prefix: string, entry: Name, d: Name) {
    var g := PackageGraph(packages, prefix);
    d == entry || exists path :: Chain(g, Next(g, entry), path, d)
  }

  lemma WaitingIsLinked(packages: Packages, prefix: string, entry: Name, seen: set<Name>, queue: seq<Name>)
    requires Working(packages, prefix, entry, seen, queue) && queue != []
    ensures Linked(packages, prefix, entry, queue[0])
  {
    var g, all := PackageGraph(packages, prefix), AllImports(packages, prefix);
    ChainsAreClosed(g, Next(g, entry), all);
    assert seen <= Reached(g, Next(g, entry), all);
    assert queue[0] in queue;
  }

  method Listing(s: set<Name>) returns (list: seq<Name>)
    ensures Sorted(list) && Distinct(list) && Elements(list) == s
  {
    list := [];
    var rest := s;
    while rest != {}
      invariant rest <= s && Elements(list) == s - rest && Distinct(list)
      decreases rest
    {
      var n :| n in rest;
      assert n !in Elements(list);
      assert Elements(list + [n]) == Elements(list) + {n};
      list := list + [n];
      rest := rest - {n};
    }
    SortSorted(list);
    SortElements(list);
    SortDistinct(list);
    list := Sort(list);
  }

  method ImportClosure(packages: Packages, prefix: string, entry: Name) returns (r: Option<seq<Name>>)
    ensures r.Some? ==>
              && Sorted(r.value) && Distinct(r.value)
              && IsClosure(PackageGraph(packages, prefix), Next(PackageGraph(packages, prefix), entry), Elements(r.value))
    ensures r.None? <==> exists d :: Linked(packages, prefix, entry, d) && d !in packages
  {
    ghost var g := PackageGraph(packages, prefix);
    var seen: set<Name> := {};
    var queue := [entry];
    while queue != []
      invariant Working(packages, prefix, entry, seen, queue)
      decreases AllImports(packages, prefix) - seen, |queue|
    {
      var dir := queue[0];
      if dir !in packages {
        WaitingIsLinked(packages, prefix, entry, seen, queue);
        return None;
      }
      var marked, rest := Enqueue(prefix, packages[dir], seen, queue[1..]);
      WorkingStep(packages, prefix, entry, seen, queue, marked, rest);
      assert seen < marked ==> AllImports(packages, prefix) - marked < AllImports(packages, prefix) - seen;
      seen, queue := marked, rest;
    }
    assert IsClosure(g, Next(g, entry), seen);
    forall d | Linked(packages, prefix, entry, d) ensures d in packages {
      if d != entry {
        ClosureIsReachable(g, Next(g, entry), seen, d);
      }
    }
    var closure := Listing(seen);
    return Some(closure);
  }
}
