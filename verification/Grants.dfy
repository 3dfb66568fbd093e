/**
 Effective access.  Grants are normalised, then folded one permission at a time into a map
 of reaches.  The map is the declarative union of what each grant contributes.
 */
module Grants {
  import opened Options
  import opened StringOrder
  import Ulid

  type Permission = string

  datatype Confinement = Confinable | GlobalOnly

  /** The known permissions and whether a grant may narrow them. */
  type Catalog = map<Permission, Confinement>

  datatype PrincipalType = User | UserGroup | OtherPrincipal(name: string)

  datatype Kind = Global | DeviceGroups | UserGroups | Self | OtherKind(name: string)

  datatype Scope = Scope(kind: Kind, ids: seq<string>)

  datatype Grant = Grant(id: string, principalType: PrincipalType, principalId: string, roleId: string,
                         permissions: seq<Permission>, scope: Scope)

  datatype Access = Access(grantId: string, active: seq<Permission>, stripped: seq<Permission>)

  datatype Reach = Reach(global: bool, deviceGroups: seq<string>, userGroups: seq<string>, self: bool)

  type Reaches = map<Permission, Reach>

  const NOTHING := Reach(false, [], [], false)

  const EVERYTHING := Reach(true, [], [], false)

  // ---------------------------------------------------------------------
  // Normalisation
  // ---------------------------------------------------------------------

  predicate PathId(id: string) { |id| == 26 && Ulid.Symbols(Ulid.Upper(id)) }

  function CanonicalIds(ids: seq<string>): seq<string> {
    seq(|ids|, i requires 0 <= i < |ids| => Ulid.Upper(ids[i]))
  }

  function NormalizeScope(scope: Scope): Option<Scope> {
    match scope.kind
    case Global => if scope.ids != [] then None else Some(Scope(Global, []))
    case Self => if scope.ids != [] then None else Some(Scope(Self, []))
    case OtherKind(_) => None
    case _ =>
      if |scope.ids| == 0 || |scope.ids| > 1000 then None
      else if exists i :: 0 <= i < |scope.ids| && !PathId(scope.ids[i]) then None
      else
        var ids := Sort(CanonicalIds(scope.ids));
        if exists i :: 0 < i < |ids| && ids[i] == ids[i - 1] then None else Some(Scope(scope.kind, ids))
  }

  function NormalizePermissions(catalog: Catalog, permissions: seq<Permission>): Option<seq<Permission>> {
    var sorted := Sort(permissions);
    if permissions == [] then None
    else if exists i :: 0 <= i < |sorted| && (sorted[i] !in catalog || (i > 0 && sorted[i] == sorted[i - 1])) then None
    else Some(sorted)
  }

  function NormalizeGrant(catalog: Catalog, g: Grant): Option<Grant> {
    var permissions := NormalizePermissions(catalog, g.permissions);
    var scope := NormalizeScope(g.scope);
    if !PathId(g.id) || g.principalType.OtherPrincipal? || !PathId(g.principalId) || !PathId(g.roleId)
       || permissions.None? || scope.None?
    then None
    else Some(Grant(Ulid.Upper(g.id), g.principalType, Ulid.Upper(g.principalId), Ulid.Upper(g.roleId),
                    permissions.value, scope.value))
  }

  predicate CanonicalIdList(ids: seq<string>) {
    && Sorted(ids) && Distinct(ids)
    && forall i :: 0 <= i < |ids| ==> |ids[i]| == 26 && Ulid.Symbols(ids[i])
  }

  /** What the rest of the resolution relies on. */
  predicate Normal(catalog: Catalog, g: Grant) {
    && (forall p :: p in g.permissions ==> p in catalog)
    && CanonicalIdList(g.scope.ids)
    && !g.scope.kind.OtherKind?
    && (g.scope.kind.DeviceGroups? || g.scope.kind.UserGroups? <==> g.scope.ids != [])
  }

  lemma {:induction false} NoNeighbours(s: seq<string>)
    requires Sorted(s) && forall i :: 0 < i < |s| ==> s[i] != s[i - 1]
    ensures Distinct(s)
  {
    forall i, j | 0 <= i < j < |s| ensures s[i] != s[j] {
      if i + 1 < j && s[i] == s[j] {
        assert Leq(s[i], s[i + 1]) && Leq(s[i + 1], s[j]);
        Antisymmetric(s[i], s[i + 1]);
      }
    }
  }

  lemma SortedFrom(s: seq<string>, i: nat)
    requires i < |Sort(s)|
    ensures Sort(s)[i] in s
  {
    assert Sort(s)[i] in multiset(Sort(s));
  }

  lemma SortLength(s: seq<string>)
    ensures |Sort(s)| == |s|
  {
    assert |multiset(Sort(s))| == |multiset(s)|;
  }

  lemma IdsNormal(ids: seq<string>)
    requires forall i :: 0 <= i < |ids| ==> PathId(ids[i])
    ensures var sorted := Sort(CanonicalIds(ids));
            (forall i :: 0 < i < |sorted| ==> sorted[i] != sorted[i - 1]) ==> CanonicalIdList(sorted)
  {
    var canonical := CanonicalIds(ids);
    var sorted := Sort(canonical);
    SortSorted(canonical);
    if forall i :: 0 < i < |sorted| ==> sorted[i] != sorted[i - 1] {
      NoNeighbours(sorted);
    }
    forall i | 0 <= i < |sorted| ensures |sorted[i]| == 26 && Ulid.Symbols(sorted[i]) {
      SortedFrom(canonical, i);
    }
  }

  lemma ScopeNormal(scope: Scope)
    requires NormalizeScope(scope).Some?
    ensures var n := NormalizeScope(scope).value;
            && CanonicalIdList(n.ids) && n.kind == scope.kind && !n.kind.OtherKind?
            && (n.kind.DeviceGroups? || n.kind.UserGroups? <==> n.ids != [])
  {
    if scope.kind.DeviceGroups? || scope.kind.UserGroups? {
      IdsNormal(scope.ids);
      SortLength(CanonicalIds(scope.ids));
    }
  }

  lemma GrantNormal(catalog: Catalog, g: Grant)
    requires NormalizeGrant(catalog, g).Some?
    ensures Normal(catalog, NormalizeGrant(catalog, g).value)
  {
    ScopeNormal(g.scope);
    var sorted := Sort(g.permissions);
    forall p | p in sorted ensures p in catalog {
      var i :| 0 <= i < |sorted| && sorted[i] == p;
    }
  }

  // ---------------------------------------------------------------------
  // The declarative union
  // ---------------------------------------------------------------------

  datatype Contribution = Contribution(permission: Permission, scope: Scope)

  /** A global-only permission is active only in a global grant. */
  predicate Active(catalog: Catalog, g: Grant, p: Permission) {
    p in g.permissions && p in catalog && (g.scope.kind.Global? || catalog[p] == Confinable)
  }

  function Contributions(catalog: Catalog, grants: seq<Grant>): set<Contribution> {
    set g, p | g in grants && p in g.permissions && Active(catalog, g, p) :: Contribution(p, g.scope)
  }

  ghost predicate Given(given: set<Contribution>, p: Permission) {
    exists c :: c in given && c.permission == p
  }

  ghost predicate HasKind(given: set<Contribution>, p: Permission, kind: Kind) {
    exists c :: c in given && c.permission == p && c.scope.kind == kind
  }

  function Ids(given: set<Contribution>, p: Permission, kind: Kind): set<string> {
    set c, id | c in given && c.permission == p && c.scope.kind == kind && id in c.scope.ids :: id
  }

  /** r is the union of everything given for p; a global grant absorbs all others. */
  ghost predicate Describes(r: Reach, given: set<Contribution>, p: Permission) {
    if HasKind(given, p, Global) then r == EVERYTHING
    else
      && !r.global
      && (r.self <==> HasKind(given, p, Self))
      && Elements(r.deviceGroups) == Ids(given, p, DeviceGroups) && Sorted(r.deviceGroups) && Distinct(r.deviceGroups)
      && Elements(r.userGroups) == Ids(given, p, UserGroups) && Sorted(r.userGroups) && Distinct(r.userGroups)
  }

  function Lookup(reaches: Reaches, p: Permission): Reach {
    if p in reaches then reaches[p] else NOTHING
  }

  ghost predicate Summarizes(reaches: Reaches, given: set<Contribution>) {
    forall p :: (p in reaches <==> Given(given, p)) && Describes(Lookup(reaches, p), given, p)
  }

  // ---------------------------------------------------------------------
  // One contribution at a time
  // ---------------------------------------------------------------------

  function UnionStrings(existing: seq<string>, additions: seq<string>): seq<string> {
    Compact(Sort(existing + additions))
  }

  lemma UnionIsUnion(a: seq<string>, b: seq<string>)
    ensures Sorted(UnionStrings(a, b)) && Distinct(UnionStrings(a, b))
    ensures Elements(UnionStrings(a, b)) == Elements(a) + Elements(b)
  {
    SortSorted(a + b);
    SortElements(a + b);
    CompactSorted(Sort(a + b));
    CompactElements(Sort(a + b));
    assert Elements(a + b) == Elements(a) + Elements(b);
  }

  function Extend(r: Reach, scope: Scope): Reach {
    match scope.kind
    case Global => EVERYTHING
    case DeviceGroups => if r.global then r else r.(deviceGroups := UnionStrings(r.deviceGroups, scope.ids))
    case UserGroups => if r.global then r else r.(userGroups := UnionStrings(r.userGroups, scope.ids))
    case Self => if r.global then r else r.(self := true)
    case OtherKind(_) => r
  }

  lemma KindAfter(given: set<Contribution>, c: Contribution, p: Permission, kind: Kind)
    ensures HasKind(given + {c}, p, kind) <==> HasKind(given, p, kind) || (c.permission == p && c.scope.kind == kind)
  {
    if c.permission == p && c.scope.kind == kind {
      assert c in given + {c};
    }
    if HasKind(given, p, kind) {
      var d :| d in given && d.permission == p && d.scope.kind == kind;
      assert d in given + {c};
    }
  }

  lemma IdsAfter(given: set<Contribution>, c: Contribution, p: Permission, kind: Kind)
    ensures Ids(given + {c}, p, kind)
         == Ids(given, p, kind) + if c.permission == p && c.scope.kind == kind then Elements(c.scope.ids) else {}
  {
  }

  lemma ExtendDescribes(r: Reach, given: set<Contribution>, c: Contribution)
    requires Describes(r, given, c.permission) && !c.scope.kind.OtherKind?
    ensures Describes(Extend(r, c.scope), given + {c}, c.permission)
  {
    var p := c.permission;
    KindAfter(given, c, p, Global);
    KindAfter(given, c, p, Self);
    IdsAfter(given, c, p, DeviceGroups);
    IdsAfter(given, c, p, UserGroups);
    UnionIsUnion(r.deviceGroups, c.scope.ids);
    UnionIsUnion(r.userGroups, c.scope.ids);
  }

  lemma OthersDescribed(r: Reach, given: set<Contribution>, c: Contribution, p: Permission)
    requires Describes(r, given, p) && c.permission != p
    ensures Describes(r, given + {c}, p)
  {
    KindAfter(given, c, p, Global);
    KindAfter(given, c, p, Self);
    IdsAfter(given, c, p, DeviceGroups);
    IdsAfter(given, c, p, UserGroups);
  }

  lemma SummarizesStep(reaches: Reaches, given: set<Contribution>, c: Contribution)
    requires Summarizes(reaches, given) && !c.scope.kind.OtherKind?
    ensures Summarizes(reaches[c.permission := Extend(Lookup(reaches, c.permission), c.scope)], given + {c})
  {
    var after := reaches[c.permission := Extend(Lookup(reaches, c.permission), c.scope)];
    forall p ensures (p in after <==> Given(given + {c}, p)) && Describes(Lookup(after, p), given + {c}, p) {
      GivenAfter(given, c, p);
      if p == c.permission {
        ExtendDescribes(Lookup(reaches, p), given, c);
      } else {
        OthersDescribed(Lookup(reaches, p), given, c, p);
      }
    }
  }

  lemma GivenAfter(given: set<Contribution>, c: Contribution, p: Permission)
    ensures Given(given + {c}, p) <==> Given(given, p) || c.permission == p
  {
    if Given(given, p) {
      var d :| d in given && d.permission == p;
      assert d in given + {c};
    }
    if c.permission == p {
      assert c in given + {c};
    }
  }

  // ---------------------------------------------------------------------
  // Resolution
  // ---------------------------------------------------------------------

  /** The grants in normal form, unless one of them is invalid. */
  function NormalizeAll(catalog: Catalog, grants: seq<Grant>): Option<seq<Grant>> {
    if grants == [] then Some([])
    else
      var init, last := NormalizeAll(catalog, grants[..|grants|-1]), NormalizeGrant(catalog, grants[|grants|-1]);
      if init.None? || last.None? then None else Some(init.value + [last.value])
  }

  lemma {:induction false} NormalizeAllNormal(catalog: Catalog, grants: seq<Grant>)
    requires NormalizeAll(catalog, grants).Some?
    ensures forall g :: g in NormalizeAll(catalog, grants).value ==> Normal(catalog, g)
  {
    if grants != [] {
      NormalizeAllNormal(catalog, grants[..|grants|-1]);
      GrantNormal(catalog, grants[|grants|-1]);
    }
  }

  /** One bad grant spoils the whole list. */
  lemma {:induction false} FirstErrorStops(catalog: Catalog, grants: seq<Grant>, k: nat)
    requires k <= |grants| && NormalizeAll(catalog, grants[..k]).None?
    ensures NormalizeAll(catalog, grants).None?
    decreases |grants|
  {
    if k < |grants| {
      var init := grants[..|grants|-1];
      assert init[..k] == grants[..k];
      FirstErrorStops(catalog, init, k);
    } else {
      assert grants[..k] == grants;
    }
  }

  predicate OrderedById(grants: seq<Grant>) {
    forall i, j :: 0 <= i < j < |grants| ==> Leq(grants[i].id, grants[j].id)
  }

  function InsertById(g: Grant, s: seq<Grant>): (r: seq<Grant>)
    ensures multiset(r) == multiset(s) + multiset{g}
  {
    if s == [] then [g]
    else
      assert s == [s[0]] + s[1..];
      if Leq(g.id, s[0].id) then [g] + s
      else [s[0]] + InsertById(g, s[1..])
  }

  function SortById(s: seq<Grant>): (r: seq<Grant>)
    ensures multiset(r) == multiset(s)
  {
    if s == [] then []
    else
      assert s == [s[0]] + s[1..];
      InsertById(s[0], SortById(s[1..]))
  }

  lemma {:induction false} InsertByIdOrdered(g: Grant, s: seq<Grant>)
    requires OrderedById(s)
    ensures OrderedById(InsertById(g, s))
  {
    if s != [] {
      Total(g.id, s[0].id);
      if Leq(g.id, s[0].id) {
        forall j | 0 <= j < |s| ensures Leq(g.id, s[j].id) {
          if j > 0 { Transitive(g.id, s[0].id, s[j].id); }
        }
      } else {
        InsertByIdOrdered(g, s[1..]);
        var r := InsertById(g, s[1..]);
        forall j | 0 <= j < |r| ensures Leq(s[0].id, r[j].id) {
          assert r[j] in multiset(r);
          assert r[j] == g || r[j] in s[1..];
        }
      }
    }
  }

  lemma {:induction false} SortByIdOrdered(s: seq<Grant>)
    ensures OrderedById(SortById(s))
  {
    if s != [] {
      SortByIdOrdered(s[1..]);
      InsertByIdOrdered(s[0], SortById(s[1..]));
    }
  }

  lemma SortByIdSameContributions(catalog: Catalog, s: seq<Grant>)
    ensures Contributions(catalog, SortById(s)) == Contributions(catalog, s)
  {
    forall g ensures g in SortById(s) <==> g in s {
      assert g in multiset(SortById(s)) <==> g in multiset(s);
    }
  }

  function Select(catalog: Catalog, g: Grant, permissions: seq<Permission>, active: bool): seq<Permission> {
    if permissions == [] then []
    else
      var p := permissions[|permissions|-1];
      Select(catalog, g, permissions[..|permissions|-1], active)
      + if Active(catalog, g, p) == active then [p] else []
  }

  function AccessOf(catalog: Catalog, g: Grant): Access {
    Access(g.id, Select(catalog, g, g.permissions, true), Select(catalog, g, g.permissions, false))
  }

  function Accesses(catalog: Catalog, grants: seq<Grant>): seq<Access> {
    seq(|grants|, i requires 0 <= i < |grants| => AccessOf(catalog, grants[i]))
  }

  /** The contributions of the first j permissions of g. */
  function Partly(catalog: Catalog, g: Grant, j: nat): set<Contribution>
    requires j <= |g.permissions|
  {
    set p | p in g.permissions[..j] && Active(catalog, g, p) :: Contribution(p, g.scope)
  }

  lemma PartlyNext(catalog: Catalog, g: Grant, j: nat)
    requires j < |g.permissions|
    ensures Partly(catalog, g, j + 1) == Partly(catalog, g, j)
            + if Active(catalog, g, g.permissions[j]) then {Contribution(g.permissions[j], g.scope)} else {}
  {
    assert g.permissions[..j + 1] == g.permissions[..j] + [g.permissions[j]];
  }

  lemma ContributionsNext(catalog: Catalog, grants: seq<Grant>, i: nat)
    requires i < |grants|
    ensures Contributions(catalog, grants[..i + 1])
         == Contributions(catalog, grants[..i]) + Partly(catalog, grants[i], |grants[i].permissions|)
  {
    var g := grants[i];
    assert grants[..i + 1] == grants[..i] + [g];
    assert g.permissions[..|g.permissions|] == g.permissions;
  }

  /** The inner loop: one grant's permissions, in order. */
  method ApplyGrant(catalog: Catalog, g: Grant, before: Reaches, ghost given: set<Contribution>)
    returns (access: Access, reaches: Reaches)
    requires Normal(catalog, g) && Summarizes(before, given)
    ensures access == AccessOf(catalog, g)
    ensures Summarizes(reaches, given + Partly(catalog, g, |g.permissions|))
  {
    access, reaches := Access(g.id, [], []), before;
    assert given + Partly(catalog, g, 0) == given;
    for j := 0 to |g.permissions|
      invariant access.grantId == g.id
      invariant access.active == Select(catalog, g, g.permissions[..j], true)
      invariant access.stripped == Select(catalog, g, g.permissions[..j], false)
      invariant Summarizes(reaches, given + Partly(catalog, g, j))
    {
      var p := g.permissions[j];
      PartlyNext(catalog, g, j);
      assert g.permissions[..j + 1][..j] == g.permissions[..j];
      assert p in g.permissions;
      if !g.scope.kind.Global? && catalog[p] == GlobalOnly {
        access := access.(stripped := access.stripped + [p]);
        assert given + Partly(catalog, g, j + 1) == given + Partly(catalog, g, j);
        continue;
      }
      access := access.(active := access.active + [p]);
      var c := Contribution(p, g.scope);
      SummarizesStep(reaches, given + Partly(catalog, g, j), c);
      assert given + Partly(catalog, g, j + 1) == given + Partly(catalog, g, j) + {c};
      reaches := reaches[p := Extend(Lookup(reaches, p), g.scope)];
    }
    assert g.permissions[..|g.permissions|] == g.permissions;
  }

  method NormalizeEach(catalog: Catalog, grants: seq<Grant>) returns (r: Option<seq<Grant>>)
    ensures r == NormalizeAll(catalog, grants)
  {
    var normalized := [];
    for i := 0 to |grants|
      invariant NormalizeAll(catalog, grants[..i]) == Some(normalized)
    {
      assert grants[..i + 1][..i] == grants[..i];
      var value := NormalizeGrant(catalog, grants[i]);
      if value.None? {
        FirstErrorStops(catalog, grants, i + 1);
        return None;
      }
      normalized := normalized + [value.value];
    }
    assert grants[..|grants|] == grants;
    return Some(normalized);
  }

  /** The outer loop. */
  method ApplyAll(catalog: Catalog, grants: seq<Grant>) returns (accesses: seq<Access>, reaches: Reaches)
    requires forall g :: g in grants ==> Normal(catalog, g)
    ensures accesses == Accesses(catalog, grants)
    ensures Summarizes(reaches, Contributions(catalog, grants))
  {
    accesses, reaches := [], map[];
    for i := 0 to |grants|
      invariant |accesses| == i && forall k :: 0 <= k < i ==> accesses[k] == AccessOf(catalog, grants[k])
      invariant Summarizes(reaches, Contributions(catalog, grants[..i]))
    {
      var access;
      ContributionsNext(catalog, grants, i);
      access, reaches := ApplyGrant(catalog, grants[i], reaches, Contributions(catalog, grants[..i]));
      accesses := accesses + [access];
    }
    assert grants[..|grants|] == grants;
  }

  /** Fails exactly on an invalid grant; otherwise the accesses are in the order of the grant
      identifiers and the map is the declarative union. */
  method Resolve(catalog: Catalog, grants: seq<Grant>) returns (r: Option<(seq<Access>, Reaches)>)
    ensures r.None? <==> NormalizeAll(catalog, grants).None?
    ensures r.Some? ==>
              var normalized := NormalizeAll(catalog, grants).value;
              && r.value.0 == Accesses(catalog, SortById(normalized)) && OrderedById(SortById(normalized))
              && Resolved(catalog, grants, r.value.1)
  {
    var normalized := NormalizeEach(catalog, grants);
    if normalized.None? {
      return None;
    }
    NormalizeAllNormal(catalog, grants);
    SortByIdOrdered(normalized.value);
    SortByIdSameContributions(catalog, normalized.value);
    var sorted := SortById(normalized.value);
    forall g | g in sorted ensures Normal(catalog, g) {
      assert g in multiset(sorted);
    }
    var accesses, reaches := ApplyAll(catalog, sorted);
    return Some((accesses, reaches));
  }

  // ---------------------------------------------------------------------
  // What the union promises
  // ---------------------------------------------------------------------

  /** A summary is unique. */
  lemma SummaryUnique(a: Reaches, b: Reaches, given: set<Contribution>)
    requires Summarizes(a, given) && Summarizes(b, given)
    ensures a == b
  {
    forall p ensures p in a <==> p in b {
    }
    forall p | p in a ensures a[p] == b[p] {
      assert Describes(Lookup(a, p), given, p) && Describes(Lookup(b, p), given, p);
      if !HasKind(given, p, Global) {
        DeterminedByElements(a[p].deviceGroups, b[p].deviceGroups);
        DeterminedByElements(a[p].userGroups, b[p].userGroups);
      }
    }
  }

  /** What Resolve makes of raw grants. */
  ghost predicate Resolved(catalog: Catalog, grants: seq<Grant>, reaches: Reaches) {
    && NormalizeAll(catalog, grants).Some?
    && Summarizes(reaches, Contributions(catalog, NormalizeAll(catalog, grants).value))
  }

  /** All images in order, unless one is missing. */
  function ImageAll(f: Grant -> Option<Grant>, s: seq<Grant>): Option<seq<Grant>> {
    if s == [] then Some([])
    else
      var init, last := ImageAll(f, s[..|s|-1]), f(s[|s|-1]);
      if init.None? || last.None? then None else Some(init.value + [last.value])
  }

  lemma {:induction false} ImageAllExactly(f: Grant -> Option<Grant>, s: seq<Grant>)
    ensures ImageAll(f, s).Some? <==> forall g :: g in s ==> f(g).Some?
    ensures ImageAll(f, s).Some? ==>
              forall n :: n in ImageAll(f, s).value <==> exists g :: g in s && f(g) == Some(n)
  {
    if s != [] {
      var init, last := s[..|s|-1], s[|s|-1];
      ImageAllExactly(f, init);
      assert s == init + [last];
    }
  }

  lemma {:induction false} NormalizeAllIsImage(catalog: Catalog, grants: seq<Grant>)
    ensures NormalizeAll(catalog, grants) == ImageAll(g => NormalizeGrant(catalog, g), grants)
  {
    if grants != [] {
      NormalizeAllIsImage(catalog, grants[..|grants|-1]);
    }
  }

  /** A list is accepted exactly if each of its grants is, and gives exactly their normal forms. */
  lemma NormalizeAllExactly(catalog: Catalog, grants: seq<Grant>)
    ensures NormalizeAll(catalog, grants).Some? <==> forall g :: g in grants ==> NormalizeGrant(catalog, g).Some?
    ensures NormalizeAll(catalog, grants).Some? ==>
              forall n :: n in NormalizeAll(catalog, grants).value <==>
                          exists g :: g in grants && NormalizeGrant(catalog, g) == Some(n)
  {
    NormalizeAllIsImage(catalog, grants);
    ImageAllExactly(g => NormalizeGrant(catalog, g), grants);
  }

  lemma NormalForms(catalog: Catalog, x: seq<Grant>, y: seq<Grant>)
    requires forall g :: g in x ==> g in y
    requires NormalizeAll(catalog, y).Some?
    ensures NormalizeAll(catalog, x).Some?
    ensures forall n :: n in NormalizeAll(catalog, x).value ==> n in NormalizeAll(catalog, y).value
  {
    NormalizeAllExactly(catalog, x);
    NormalizeAllExactly(catalog, y);
  }

  /** The order and the multiplicity of grants do not matter, for failure as for the result. */
  lemma OrderIndependent(catalog: Catalog, x: seq<Grant>, y: seq<Grant>)
    requires forall g :: g in x <==> g in y
    ensures NormalizeAll(catalog, x).None? <==> NormalizeAll(catalog, y).None?
    ensures forall a, b :: Resolved(catalog, x, a) && Resolved(catalog, y, b) ==> a == b
  {
    if NormalizeAll(catalog, y).Some? {
      NormalForms(catalog, x, y);
    }
    if NormalizeAll(catalog, x).Some? {
      NormalForms(catalog, y, x);
    }
    forall a, b | Resolved(catalog, x, a) && Resolved(catalog, y, b) ensures a == b {
      var m, n := NormalizeAll(catalog, x).value, NormalizeAll(catalog, y).value;
      assert Contributions(catalog, m) == Contributions(catalog, n);
      SummaryUnique(a, b, Contributions(catalog, m));
    }
  }

  /** wide reaches everything narrow does. */
  predicate Covers(wide: Reach, narrow: Reach) {
    || wide.global
    || (!narrow.global
        && Elements(narrow.deviceGroups) <= Elements(wide.deviceGroups)
        && Elements(narrow.userGroups) <= Elements(wide.userGroups)
        && (narrow.self ==> wide.self))
  }

  /** Another grant takes nothing away. */
  lemma MoreGrantsReachMore(catalog: Catalog, x: seq<Grant>, y: seq<Grant>, a: Reaches, b: Reaches, p: Permission)
    requires forall g :: g in x ==> g in y
    requires Resolved(catalog, x, a) && Resolved(catalog, y, b) && p in a
    ensures p in b && Covers(b[p], a[p])
  {
    NormalForms(catalog, x, y);
    var few := Contributions(catalog, NormalizeAll(catalog, x).value);
    var many := Contributions(catalog, NormalizeAll(catalog, y).value);
    assert few <= many;
    assert Given(few, p);
    assert Given(many, p) by {
      var c :| c in few && c.permission == p;
      assert c in many;
    }
    assert Describes(Lookup(a, p), few, p) && Describes(Lookup(b, p), many, p);
    KindGrows(few, many, p, Global);
    KindGrows(few, many, p, Self);
  }

  lemma KindGrows(few: set<Contribution>, many: set<Contribution>, p: Permission, kind: Kind)
    requires few <= many
    ensures HasKind(few, p, kind) ==> HasKind(many, p, kind)
    ensures Ids(few, p, DeviceGroups) <= Ids(many, p, DeviceGroups)
    ensures Ids(few, p, UserGroups) <= Ids(many, p, UserGroups)
  {
    if HasKind(few, p, kind) {
      var c :| c in few && c.permission == p && c.scope.kind == kind;
      assert c in many;
    }
  }

  lemma GlobalOnlyInSummary(catalog: Catalog, grants: seq<Grant>, reaches: Reaches, p: Permission)
    requires Summarizes(reaches, Contributions(catalog, grants))
    requires p in catalog && catalog[p] == GlobalOnly
    ensures p in reaches <==> exists g :: g in grants && g.scope.kind.Global? && p in g.permissions
    ensures p in reaches ==> reaches[p] == EVERYTHING
  {
    var given := Contributions(catalog, grants);
    assert p in reaches <==> Given(given, p);
    assert Describes(Lookup(reaches, p), given, p);
    if exists g :: g in grants && g.scope.kind.Global? && p in g.permissions {
      var g :| g in grants && g.scope.kind.Global? && p in g.permissions;
      assert Contribution(p, g.scope) in given;
    }
  }

  lemma NormalizeKeeps(catalog: Catalog, g: Grant)
    requires NormalizeGrant(catalog, g).Some?
    ensures NormalizeGrant(catalog, g).value.scope.kind == g.scope.kind
    ensures forall p :: p in NormalizeGrant(catalog, g).value.permissions <==> p in g.permissions
  {
    ScopeNormal(g.scope);
    SortElements(g.permissions);
    forall p ensures p in Sort(g.permissions) <==> p in g.permissions {
      assert p in Elements(Sort(g.permissions)) <==> p in Elements(g.permissions);
    }
  }

  /** A global-only permission is there exactly through a global grant, and then everywhere. */
  lemma GlobalOnlyThroughGlobal(catalog: Catalog, grants: seq<Grant>, reaches: Reaches, p: Permission)
    requires Resolved(catalog, grants, reaches) && p in catalog && catalog[p] == GlobalOnly
    ensures p in reaches <==> exists g :: g in grants && g.scope.kind.Global? && p in g.permissions
    ensures p in reaches ==> reaches[p] == EVERYTHING
  {
    var normalized := NormalizeAll(catalog, grants).value;
    NormalizeAllExactly(catalog, grants);
    GlobalOnlyInSummary(catalog, normalized, reaches, p);
    forall g | g in grants
      ensures NormalizeGrant(catalog, g).Some? && NormalizeGrant(catalog, g).value in normalized
      ensures NormalizeGrant(catalog, g).value.scope.kind == g.scope.kind
      ensures p in NormalizeGrant(catalog, g).value.permissions <==> p in g.permissions
    {
      NormalizeKeeps(catalog, g);
    }
  }

  // ---------------------------------------------------------------------
  // The gate accepts every reach
  // ---------------------------------------------------------------------

  predicate ValidReachIds(ids: seq<string>) {
    && Sorted(ids)
    && forall i :: 0 <= i < |ids| ==>
         PathId(ids[i]) && ids[i] == Ulid.Upper(ids[i]) && (i > 0 ==> ids[i] != ids[i - 1])
  }

  predicate ValidReach(catalog: Catalog, p: Permission, r: Reach) {
    && p in catalog
    && if r.global then !r.self && r.deviceGroups == [] && r.userGroups == []
       else
         && catalog[p] != GlobalOnly
         && (r.self || r.deviceGroups != [] || r.userGroups != [])
         && ValidReachIds(r.deviceGroups) && ValidReachIds(r.userGroups)
  }

  lemma IdsCanonical(catalog: Catalog, grants: seq<Grant>, p: Permission, kind: Kind, ids: seq<string>)
    requires forall g :: g in grants ==> Normal(catalog, g)
    requires Elements(ids) == Ids(Contributions(catalog, grants), p, kind) && Sorted(ids) && Distinct(ids)
    ensures ValidReachIds(ids)
  {
    forall i | 0 <= i < |ids| ensures PathId(ids[i]) && ids[i] == Ulid.Upper(ids[i]) {
      assert ids[i] in Elements(ids);
      var c :| c in Contributions(catalog, grants) && c.permission == p && c.scope.kind == kind && ids[i] in c.scope.ids;
      var g :| g in grants && c.scope == g.scope;
      var j :| 0 <= j < |g.scope.ids| && g.scope.ids[j] == ids[i];
      assert Ulid.Symbols(ids[i]);
    }
  }

  lemma ResolvedReachIsValid(catalog: Catalog, grants: seq<Grant>, reaches: Reaches, p: Permission)
    requires Resolved(catalog, grants, reaches) && p in reaches
    ensures ValidReach(catalog, p, reaches[p])
  {
    NormalizeAllNormal(catalog, grants);
    SummaryIsValid(catalog, NormalizeAll(catalog, grants).value, reaches, p);
  }

  lemma SummaryIsValid(catalog: Catalog, grants: seq<Grant>, reaches: Reaches, p: Permission)
    requires forall g :: g in grants ==> Normal(catalog, g)
    requires Summarizes(reaches, Contributions(catalog, grants)) && p in reaches
    ensures ValidReach(catalog, p, reaches[p])
  {
    var given := Contributions(catalog, grants);
    assert Given(given, p) && Describes(Lookup(reaches, p), given, p);
    var c :| c in given && c.permission == p;
    if catalog[p] == GlobalOnly {
      GlobalOnlyInSummary(catalog, grants, reaches, p);
    } else if !HasKind(given, p, Global) {
      IdsCanonical(catalog, grants, p, DeviceGroups, reaches[p].deviceGroups);
      IdsCanonical(catalog, grants, p, UserGroups, reaches[p].userGroups);
      NotEmpty(given, c, reaches[p], grants, catalog);
    }
  }

  lemma NotEmpty(given: set<Contribution>, c: Contribution, r: Reach, grants: seq<Grant>, catalog: Catalog)
    requires given == Contributions(catalog, grants) && forall g :: g in grants ==> Normal(catalog, g)
    requires c in given && Describes(r, given, c.permission) && !r.global
    ensures r.self || r.deviceGroups != [] || r.userGroups != []
  {
    var g :| g in grants && c.scope == g.scope;
    if c.scope.kind.DeviceGroups? || c.scope.kind.UserGroups? {
      var id := c.scope.ids[0];
      assert id in c.scope.ids;
      assert id in Ids(given, c.permission, c.scope.kind);
    } else {
      assert HasKind(given, c.permission, c.scope.kind);
    }
  }

  // ---------------------------------------------------------------------
  // Every reach goes back to a grant
  // ---------------------------------------------------------------------

  /** Grant g makes permission p active with this scope. */
  predicate Gives(catalog: Catalog, g: Grant, p: Permission, scope: Scope) {
    NormalizeGrant(catalog, g).Some?
    && Active(catalog, NormalizeGrant(catalog, g).value, p) && NormalizeGrant(catalog, g).value.scope == scope
  }

  lemma ContributionFromGrant(catalog: Catalog, grants: seq<Grant>, c: Contribution) returns (g: Grant)
    requires NormalizeAll(catalog, grants).Some?
    requires c in Contributions(catalog, NormalizeAll(catalog, grants).value)
    ensures g in grants && Gives(catalog, g, c.permission, c.scope)
  {
    NormalizeAllExactly(catalog, grants);
    var n :| n in NormalizeAll(catalog, grants).value && c.permission in n.permissions && Active(catalog, n, c.permission) && c.scope == n.scope;
    g :| g in grants && NormalizeGrant(catalog, g) == Some(n);
  }

  /** Global reach, a group or self is in the reach of a permission only through a grant. */
  lemma ReachFromGrant(catalog: Catalog, grants: seq<Grant>, reaches: Reaches, p: Permission, kind: Kind, id: string)
    returns (g: Grant, scope: Scope)
    requires Resolved(catalog, grants, reaches) && p in reaches
    requires match kind
             case Global => reaches[p].global
             case DeviceGroups => id in reaches[p].deviceGroups
             case UserGroups => id in reaches[p].userGroups
             case Self => reaches[p].self
             case OtherKind(_) => false
    ensures g in grants && Gives(catalog, g, p, scope) && scope.kind == kind
    ensures kind.DeviceGroups? || kind.UserGroups? ==> id in scope.ids
  {
    var given := Contributions(catalog, NormalizeAll(catalog, grants).value);
    assert Describes(Lookup(reaches, p), given, p);
    var c: Contribution;
    if kind.Global? || kind.Self? {
      c :| c in given && c.permission == p && c.scope.kind == kind;
    } else {
      assert id in Elements(if kind.DeviceGroups? then reaches[p].deviceGroups else reaches[p].userGroups);
      c :| c in given && c.permission == p && c.scope.kind == kind && id in c.scope.ids;
    }
    scope := c.scope;
    g := ContributionFromGrant(catalog, grants, c);
  }

  /** A permission is in the map exactly if some grant gives it. */
  lemma PermissionFromGrant(catalog: Catalog, grants: seq<Grant>, reaches: Reaches, p: Permission)
    requires Resolved(catalog, grants, reaches)
    ensures p in reaches <==> exists g, scope :: g in grants && Gives(catalog, g, p, scope)
  {
    var normalized := NormalizeAll(catalog, grants).value;
    var given := Contributions(catalog, normalized);
    assert p in reaches <==> Given(given, p);
    if p in reaches {
      var c :| c in given && c.permission == p;
      var g := ContributionFromGrant(catalog, grants, c);
      assert g in grants && Gives(catalog, g, p, c.scope);
    }
    if exists g, scope :: g in grants && Gives(catalog, g, p, scope) {
      var g, scope :| g in grants && Gives(catalog, g, p, scope);
      NormalizeAllExactly(catalog, grants);
      var n := NormalizeGrant(catalog, g).value;
      assert n in normalized && Contribution(p, n.scope) in given;
    }
  }

  // ---------------------------------------------------------------------
  // The resolved map as a value
  // ---------------------------------------------------------------------

  ghost function Summary(given: set<Contribution>): (reaches: Reaches)
    requires forall c :: c in given ==> !c.scope.kind.OtherKind?
    ensures Summarizes(reaches, given)
  {
    if given == {} then map[]
    else
      var c :| c in given;
      var rest := Summary(given - {c});
      SummarizesStep(rest, given - {c}, c);
      assert given - {c} + {c} == given;
      rest[c.permission := Extend(Lookup(rest, c.permission), c.scope)]
  }

  ghost function EffectiveReaches(catalog: Catalog, grants: seq<Grant>): (r: Option<Reaches>)
    ensures r.Some? <==> NormalizeAll(catalog, grants).Some?
    ensures r.Some? ==> Resolved(catalog, grants, r.value)
  {
    if NormalizeAll(catalog, grants).None? then None
    else
      NormalizeAllNormal(catalog, grants);
      Some(Summary(Contributions(catalog, NormalizeAll(catalog, grants).value)))
  }
}
