/** Small datatypes and sequence facts shared by the other modules. */
module Basics {

  datatype Option<+T> = None | Some(value: T)

  /** Flattens one level of nesting, in order. */
  function Concat<T>(parts: seq<seq<T>>): seq<T> {
    if parts == [] then [] else parts[0] + Concat(parts[1..])
  }

  /** The first of a concatenation and the others. */
  lemma Others<T>(a: seq<T>, b: seq<T>)
    requires a != []
    ensures (a + b)[0] == a[0] && (a + b)[1..] == a[1..] + b
  {}

  lemma PrefixOfSnoc<T>(s: seq<T>, x: T, i: nat)
    requires i <= |s|
    ensures (s + [x])[..i] == s[..i] && (i < |s| ==> (s + [x])[i] == s[i]) && (s + [x])[|s|] == x
  {}

  /** A prefix is the first element and a prefix of the others. */
  lemma FirstOfPrefix<T>(s: seq<T>, k: nat)
    requires k < |s|
    ensures s[..k + 1] == [s[0]] + s[1..][..k]
  {}

  lemma {:induction false} ConcatAppend<T>(a: seq<seq<T>>, b: seq<seq<T>>)
    ensures Concat(a + b) == Concat(a) + Concat(b)
  {
    if a == [] {
      assert a + b == b;
    } else {
      Others(a, b);
      ConcatAppend(a[1..], b);
    }
  }

  /** Decimal digits of a natural number, as `%d` prints them. */
  function Decimal(n: nat): string {
    if n < 10 then [Digit(n)] else Decimal(n / 10) + [Digit(n % 10)]
  }

  function Digit(d: nat): char
    requires d < 10
  {
    "0123456789"[d]
  }

  /** `n` copies of `x`. */
  function Repeat<T>(x: T, n: nat): (r: seq<T>)
    ensures |r| == n && forall i :: 0 <= i < n ==> r[i] == x
  {
    seq(n, i => x)
  }

  lemma Associative<T>(a: seq<T>, b: seq<T>, c: seq<T>)
    ensures (a + b) + c == a + (b + c)
  {}

  /** One more element counts on either side of a partition. */
  lemma Either<T>(whole: multiset<T>, a: multiset<T>, b: multiset<T>, x: multiset<T>)
    requires whole == a + b
    ensures whole + x == (a + x) + b == a + (b + x)
  {}

  lemma Both<T>(whole: multiset<T>, a: multiset<T>, b: multiset<T>, x: multiset<T>, y: multiset<T>)
    requires whole == a + b
    ensures whole + (x + y) == (a + x) + (b + y)
  {}
}
