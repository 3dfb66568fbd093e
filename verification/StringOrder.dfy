/** Byte-wise string order, sorting, and sorted lists without repetition as sets. */
module StringOrder {
  predicate Leq(a: string, b: string) {
    a == "" || (b != "" && (a[0] < b[0] || (a[0] == b[0] && Leq(a[1..], b[1..]))))
  }

  lemma {:induction false} Total(a: string, b: string)
    ensures Leq(a, b) || Leq(b, a)
  {
    if a != "" && b != "" && a[0] == b[0] {
      Total(a[1..], b[1..]);
    }
  }

  lemma {:induction false} Transitive(a: string, b: string, c: string)
    requires Leq(a, b) && Leq(b, c)
    ensures Leq(a, c)
  {
    if a != "" && a[0] == b[0] == c[0] {
      Transitive(a[1..], b[1..], c[1..]);
    }
  }

  lemma {:induction false} Antisymmetric(a: string, b: string)
    requires Leq(a, b) && Leq(b, a)
    ensures a == b
  {
    if a != "" {
      Antisymmetric(a[1..], b[1..]);
      assert a == [a[0]] + a[1..] && b == [b[0]] + b[1..];
    }
  }

  predicate Sorted(s: seq<string>) {
    forall i, j :: 0 <= i < j < |s| ==> Leq(s[i], s[j])
  }

  predicate Distinct(s: seq<string>) {
    forall i, j :: 0 <= i < j < |s| ==> s[i] != s[j]
  }

  function Elements(s: seq<string>): set<string> { set x | x in s }

  // ---------------------------------------------------------------------
  // Sorting and dropping repetitions
  // ---------------------------------------------------------------------

  function Insert(x: string, s: seq<string>): (r: seq<string>)
    ensures multiset(r) == multiset(s) + multiset{x}
  {
    if s == [] then [x]
    else
      assert s == [s[0]] + s[1..];
      if Leq(x, s[0]) then [x] + s
      else [s[0]] + Insert(x, s[1..])
  }

  function Sort(s: seq<string>): (r: seq<string>)
    ensures multiset(r) == multiset(s)
  {
    if s == [] then []
    else
      assert s == [s[0]] + s[1..];
      Insert(s[0], Sort(s[1..]))
  }

  lemma {:induction false} InsertSorted(x: string, s: seq<string>)
    requires Sorted(s)
    ensures Sorted(Insert(x, s))
  {
    if s != [] {
      Total(x, s[0]);
      if Leq(x, s[0]) {
        forall j | 0 <= j < |s| ensures Leq(x, s[j]) {
          if j > 0 { Transitive(x, s[0], s[j]); }
        }
      } else {
        InsertSorted(x, s[1..]);
        var r := Insert(x, s[1..]);
        forall j | 0 <= j < |r| ensures Leq(s[0], r[j]) {
          assert r[j] in multiset(r);
          assert r[j] == x || r[j] in s[1..];
        }
      }
    }
  }

  lemma {:induction false} SortSorted(s: seq<string>)
    ensures Sorted(Sort(s))
  {
    if s != [] {
      SortSorted(s[1..]);
      InsertSorted(s[0], Sort(s[1..]));
    }
  }

  lemma SortElements(s: seq<string>)
    ensures Elements(Sort(s)) == Elements(s)
  {
    forall x ensures x in Sort(s) <==> x in s {
      assert x in multiset(Sort(s)) <==> x in multiset(s);
    }
  }

  lemma {:induction false} DistinctCounts(s: seq<string>, x: string)
    requires Distinct(s)
    ensures multiset(s)[x] <= 1
  {
    if s != [] {
      DistinctCounts(s[1..], x);
      assert s == [s[0]] + s[1..];
      assert s[0] !in s[1..];
    }
  }

  lemma TwiceCounts(r: seq<string>, i: nat, j: nat)
    requires i < j < |r| && r[i] == r[j]
    ensures multiset(r)[r[i]] >= 2
  {
    assert r == r[..j] + r[j..];
    assert multiset(r) == multiset(r[..j]) + multiset(r[j..]);
    assert r[i] in r[..j] && r[j] in r[j..];
  }

  lemma SortDistinct(s: seq<string>)
    requires Distinct(s)
    ensures Distinct(Sort(s))
  {
    var r := Sort(s);
    forall i, j | 0 <= i < j < |r| ensures r[i] != r[j] {
      DistinctCounts(s, r[i]);
      if r[i] == r[j] {
        TwiceCounts(r, i, j);
      }
    }
  }

  /** One of each run of equal neighbours. */
  function Compact(s: seq<string>): seq<string> {
    if |s| < 2 then s
    else if s[0] == s[1] then Compact(s[1..])
    else [s[0]] + Compact(s[1..])
  }

  lemma {:induction false} CompactElements(s: seq<string>)
    ensures Elements(Compact(s)) == Elements(s)
  {
    if |s| >= 2 {
      CompactElements(s[1..]);
      var r := Compact(s[1..]);
      assert s == [s[0]] + s[1..];
      forall x ensures x in r <==> x in s[1..] {
        assert x in Elements(r) <==> x in Elements(s[1..]);
      }
      assert s[1] == s[1..][0];
    }
  }

  lemma {:induction false} CompactSorted(s: seq<string>)
    requires Sorted(s)
    ensures Sorted(Compact(s)) && Distinct(Compact(s))
  {
    if |s| >= 2 {
      CompactSorted(s[1..]);
      CompactElements(s[1..]);
      var r := Compact(s[1..]);
      forall j | 0 <= j < |r| ensures Leq(s[0], r[j]) && (s[0] != s[1] ==> s[0] != r[j]) {
        assert r[j] in Elements(r);
        var k :| 0 <= k < |s| - 1 && s[1..][k] == r[j];
        assert s[k + 1] == r[j] && Leq(s[0], s[k + 1]);
        if k > 0 { assert Leq(s[1], s[k + 1]); }
        if s[0] == r[j] {
          Reflexive(s[1]);
          Antisymmetric(s[0], s[1]);
        }
      }
    }
  }

  lemma {:induction false} Reflexive(a: string)
    ensures Leq(a, a)
  {
    Total(a, a);
  }

  /** A sorted list without repetition is determined by its elements. */
  lemma {:induction false} DeterminedByElements(a: seq<string>, b: seq<string>)
    requires Sorted(a) && Distinct(a) && Sorted(b) && Distinct(b)
    requires Elements(a) == Elements(b)
    ensures a == b
  {
    if a == [] {
      HasElement(b);
    } else {
      assert a[0] in Elements(b) && b != [];
      assert b[0] in Elements(a);
      Least(a, b[0]);
      Least(b, a[0]);
      Antisymmetric(a[0], b[0]);
      TailElements(a);
      TailElements(b);
      DeterminedByElements(a[1..], b[1..]);
      assert a == [a[0]] + a[1..] && b == [b[0]] + b[1..];
    }
  }

  lemma HasElement(s: seq<string>)
    ensures s != [] ==> Elements(s) != {}
  {
    if s != [] {
      assert s[0] in Elements(s);
    }
  }

  lemma Least(s: seq<string>, x: string)
    requires Sorted(s) && x in s
    ensures Leq(s[0], x)
  {
    var i :| 0 <= i < |s| && s[i] == x;
    Reflexive(s[0]);
  }

  lemma TailElements(s: seq<string>)
    requires s != [] && Distinct(s)
    ensures Elements(s[1..]) == Elements(s) - {s[0]}
  {
    forall x ensures x in s[1..] <==> x in s && x != s[0] {
      if x in s && x != s[0] {
        var i :| 0 <= i < |s| && s[i] == x;
        assert s[1..][i - 1] == x;
      }
    }
  }
}
