/** The parts of SQLite's semantics that the inventory queries rely on:
    NULL, text comparison under the default BINARY collation, and ORDER BY. */
module Sqlite {

  /** A nullable column value: None is SQL NULL. */
  datatype Option<T> = None | Some(value: T)

  /** Text order under the BINARY collation, the default for a column with no
      COLLATE clause. SQLite compares the encoded bytes of the two strings with
      memcmp, a proper prefix sorting first; in a UTF-8 database that is
      code-point order, so this is the lexicographic order on characters. */
  predicate TextLeq(a: string, b: string): (r: bool)
    ensures r <==> a <= b || exists k :: SmallerAt(a, b, k)
  {
    if a == [] then true
    else if b == [] then false
    else if a[0] != b[0] then
      assert a[0] < b[0] ==> SmallerAt(a, b, 0);
      assert forall k :: SmallerAt(a, b, k) ==> k == 0 by {
        forall k | SmallerAt(a, b, k) ensures k == 0 {
          if k > 0 { assert false; }
        }
      }
      a[0] < b[0]
    else
      SmallerAtShift(a, b);
      TextLeq(a[1..], b[1..])
  }

  /** a and b agree before position k, where a has the smaller character. */
  ghost predicate SmallerAt(a: string, b: string, k: int)
  {
    0 <= k < |a| && k < |b| && a[..k] == b[..k] && a[k] < b[k]
  }

  lemma SmallerAtShift(a: string, b: string)
    requires a != [] && b != [] && a[0] == b[0]
    ensures (a <= b) == (a[1..] <= b[1..])
    ensures (exists k :: SmallerAt(a, b, k)) <==> (exists k :: SmallerAt(a[1..], b[1..], k))
  {
    assert a == [a[0]] + a[1..] && b == [b[0]] + b[1..];
    if k :| SmallerAt(a, b, k) {
      assert k > 0;
      assert a[1..][..k - 1] == a[..k][1..] && b[1..][..k - 1] == b[..k][1..];
      assert SmallerAt(a[1..], b[1..], k - 1);
    }
    if k :| SmallerAt(a[1..], b[1..], k) {
      assert a[..k + 1] == [a[0]] + a[1..][..k] && b[..k + 1] == [b[0]] + b[1..][..k];
      assert SmallerAt(a, b, k + 1);
    }
  }

  lemma {:induction false} TextLeqTotal(a: string, b: string)
    ensures TextLeq(a, b) || TextLeq(b, a)
  {
    if a != [] && b != [] && a[0] == b[0] {
      TextLeqTotal(a[1..], b[1..]);
    }
  }

  lemma {:induction false} TextLeqTransitive(a: string, b: string, c: string)
    requires TextLeq(a, b) && TextLeq(b, c)
    ensures TextLeq(a, c)
  {
    if a != [] && b != [] && c != [] && a[0] == b[0] && b[0] == c[0] {
      TextLeqTransitive(a[1..], b[1..], c[1..]);
    }
  }

  lemma {:induction false} TextLeqAntisymmetric(a: string, b: string)
    requires TextLeq(a, b) && TextLeq(b, a)
    ensures a == b
  {
    if a != [] && b != [] {
      TextLeqAntisymmetric(a[1..], b[1..]);
      assert a == [a[0]] + a[1..] && b == [b[0]] + b[1..];
    }
  }

  /** ORDER BY on a nullable text column, ascending: SQLite puts NULL first. */
  predicate NullableLeq(a: Option<string>, b: Option<string>)
  {
    a.None? || (b.Some? && TextLeq(a.value, b.value))
  }

  lemma NullableLeqTotalOrder(a: Option<string>, b: Option<string>, c: Option<string>)
    ensures NullableLeq(a, b) || NullableLeq(b, a)
    ensures NullableLeq(a, b) && NullableLeq(b, c) ==> NullableLeq(a, c)
    ensures NullableLeq(a, b) && NullableLeq(b, a) ==> a == b
  {
    if a.Some? && b.Some? {
      TextLeqTotal(a.value, b.value);
      if TextLeq(a.value, b.value) && TextLeq(b.value, a.value) {
        TextLeqAntisymmetric(a.value, b.value);
      }
      if c.Some? && TextLeq(a.value, b.value) && TextLeq(b.value, c.value) {
        TextLeqTransitive(a.value, b.value, c.value);
      }
    }
  }

  /** An ORDER BY clause as a comparison: total and transitive. Ties (rows
      equal under the clause) are allowed. */
  ghost predicate TotalPreorder<T(!new)>(leq: (T, T) -> bool)
  {
    && (forall a, b :: leq(a, b) || leq(b, a))
    && (forall a, b, c :: leq(a, b) && leq(b, c) ==> leq(a, c))
  }

  ghost predicate SortedBy<T>(s: seq<T>, leq: (T, T) -> bool)
  {
    forall i, j :: 0 <= i < j < |s| ==> leq(s[i], s[j])
  }

  /** Puts x in front of the first element of s that it sorts no later than. */
  function InsertBy<T>(x: T, s: seq<T>, leq: (T, T) -> bool): (r: seq<T>)
    ensures multiset(r) == multiset(s) + multiset{x}
  {
    if s == [] || leq(x, s[0]) then [x] + s
    else
      assert s == [s[0]] + s[1..];
      [s[0]] + InsertBy(x, s[1..], leq)
  }

  lemma {:induction false} InsertBySorted<T(!new)>(x: T, s: seq<T>, leq: (T, T) -> bool)
    requires TotalPreorder(leq) && SortedBy(s, leq)
    ensures SortedBy(InsertBy(x, s, leq), leq)
  {
    if s != [] && !leq(x, s[0]) {
      var t := InsertBy(x, s[1..], leq);
      InsertBySorted(x, s[1..], leq);
      assert leq(s[0], x);
      forall j | 0 <= j < |t|
        ensures leq(s[0], t[j])
      {
        assert t[j] in multiset(t);
        if t[j] != x {
          assert t[j] in multiset(s[1..]);
          var k :| 0 <= k < |s[1..]| && s[1..][k] == t[j];
          assert leq(s[0], s[k + 1]);
        }
      }
      assert InsertBy(x, s, leq) == [s[0]] + t;
    }
  }

  /** The rows of s in the order an ORDER BY clause with comparison leq gives. */
  function SortBy<T(!new)>(s: seq<T>, leq: (T, T) -> bool): (r: seq<T>)
    requires TotalPreorder(leq)
    ensures multiset(r) == multiset(s)
    ensures SortedBy(r, leq)
  {
    if s == [] then []
    else
      var rest := SortBy(s[1..], leq);
      InsertBySorted(s[0], rest, leq);
      assert s == [s[0]] + s[1..];
      InsertBy(s[0], rest, leq)
  }

  /** A permutation of the input has the same rows as it. */
  lemma SameRows<T>(r: seq<T>, s: seq<T>)
    requires multiset(r) == multiset(s)
    ensures forall x :: x in r <==> x in s
  {
    forall x
      ensures x in r <==> x in s
    {
      assert x in r <==> x in multiset(r);
      assert x in s <==> x in multiset(s);
    }
  }
}
