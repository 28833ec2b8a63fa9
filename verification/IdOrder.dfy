/** The order Shutdown visits runs in: sort.Slice by run id, ids compared character
    by character. */
module IdOrder {

  predicate Before(a: string, b: string) {
    b != [] && (a == [] || a[0] < b[0] || (a[0] == b[0] && Before(a[1..], b[1..])))
  }

  /** They differ first at `n`: there `a` has ended or has the smaller character. */
  predicate DifferAt(a: string, b: string, n: nat) {
    && n <= |a| && n < |b| && a[..n] == b[..n]
    && (n == |a| || a[n] < b[n])
  }

  lemma {:induction false} BeforeIff(a: string, b: string)
    ensures Before(a, b) <==> exists n: nat :: DifferAt(a, b, n)
  {
    if b != [] && (a == [] || a[0] < b[0]) {
      assert DifferAt(a, b, 0);
    } else if b != [] && a[0] == b[0] {
      BeforeIff(a[1..], b[1..]);
      if n: nat :| DifferAt(a[1..], b[1..], n) {
        assert a[..n + 1] == [a[0]] + a[1..][..n] && b[..n + 1] == [b[0]] + b[1..][..n];
        assert DifferAt(a, b, n + 1);
      }
      if n: nat :| DifferAt(a, b, n) {
        assert n > 0 && a[1..][..n - 1] == a[..n][1..] && b[1..][..n - 1] == b[..n][1..];
        assert DifferAt(a[1..], b[1..], n - 1);
      }
    } else {
      forall n: nat ensures !DifferAt(a, b, n) {
        if 0 < n <= |a| && n < |b| { assert a[..n][0] == a[0] && b[..n][0] == b[0]; }
      }
    }
  }

  lemma {:induction false} BeforeTotal(a: string, b: string)
    ensures Before(a, b) || a == b || Before(b, a)
    ensures !(Before(a, b) && Before(b, a)) && !Before(a, a)
  {
    if a != [] && b != [] {
      BeforeTotal(a[1..], b[1..]);
      if a[0] == b[0] && a[1..] == b[1..] { assert a == [a[0]] + a[1..] == b; }
    }
    if a != [] { BeforeTotal(a[1..], a[1..]); }
  }

  lemma {:induction false} BeforeTransitive(a: string, b: string, c: string)
    requires Before(a, b) && Before(b, c)
    ensures Before(a, c)
  {
    if a != [] && a[0] == b[0] == c[0] { BeforeTransitive(a[1..], b[1..], c[1..]); }
  }

  ghost predicate Ascending(s: seq<string>) {
    forall i, j :: 0 <= i < j < |s| ==> Before(s[i], s[j])
  }

  function InsertId(x: string, s: seq<string>): seq<string> {
    if s == [] || Before(x, s[0]) then [x] + s else [s[0]] + InsertId(x, s[1..])
  }

  function SortIds(s: seq<string>): seq<string> {
    if s == [] then [] else InsertId(s[|s| - 1], SortIds(s[..|s| - 1]))
  }

  lemma {:induction false} InsertIdAscending(x: string, s: seq<string>)
    requires Ascending(s) && x !in s
    ensures Ascending(InsertId(x, s)) && |InsertId(x, s)| == |s| + 1
    ensures forall r :: r in InsertId(x, s) <==> r == x || r in s
  {
    if s == [] {
    } else if Before(x, s[0]) {
      forall j | 0 <= j < |s| ensures Before(x, s[j]) {
        if j > 0 { BeforeTransitive(x, s[0], s[j]); }
      }
    } else {
      BeforeTotal(x, s[0]);
      InsertIdAscending(x, s[1..]);
      var rest := InsertId(x, s[1..]);
      forall r <- rest ensures Before(s[0], r) {
        assert r == x || r in s[1..];
      }
      assert forall r :: r in InsertId(x, s) <==> r == s[0] || r in rest;
      assert forall r :: r in s <==> r == s[0] || r in s[1..];
    }
  }

  /** Sorting distinct ids keeps exactly these ids, each once, in ascending order. */
  lemma {:induction false} SortIdsAscending(s: seq<string>)
    requires forall i, j :: 0 <= i < j < |s| ==> s[i] != s[j]
    ensures Ascending(SortIds(s)) && |SortIds(s)| == |s| && forall r :: r in SortIds(s) <==> r in s
  {
    if s != [] {
      var init, last := s[..|s| - 1], s[|s| - 1];
      SortIdsAscending(init);
      InsertIdAscending(last, SortIds(init));
      assert forall r :: r in s <==> r in init || r == last;
    }
  }

  lemma AscendingFirst(a: seq<string>, b: seq<string>)
    requires Ascending(a) && Ascending(b) && a != [] && b != [] && a[0] in b && b[0] in a
    ensures a[0] == b[0]
  {
    BeforeTotal(a[0], b[0]);
  }

  /** Two ascending sequences of the same ids are equal: Shutdown's order does not
      depend on the order of the map. */
  lemma {:induction false} AscendingUnique(a: seq<string>, b: seq<string>)
    requires Ascending(a) && Ascending(b) && forall r :: r in a <==> r in b
    ensures a == b
  {
    assert a == [] || a[0] in a;
    assert b == [] || b[0] in b;
    if a != [] && b != [] {
      assert a[0] in b && b[0] in a;
      AscendingFirst(a, b);
      BeforeTotal(a[0], a[0]);
      forall r ensures r in a[1..] <==> r in b[1..] {
        assert r in a <==> r == a[0] || r in a[1..];
        assert r in b <==> r == b[0] || r in b[1..];
        assert r in a[1..] ==> Before(a[0], r);
        assert r in b[1..] ==> Before(a[0], r);
      }
      AscendingUnique(a[1..], b[1..]);
    }
  }
}
