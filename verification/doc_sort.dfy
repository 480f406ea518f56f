/**
 * The sort step of the executor: a stable sort of documents by one field,
 * with the comparator `executeSort` passes to `Array.prototype.sort`. Stable
 * insertion sort stands for the host's stable sort; on a consistent
 * comparator the two produce the same sequence.
 */
module DocSort {
  import opened Maybe
  import opened Json

  /**
   * The comparator of `executeSort`: -order when a's value is below b's, +order when
   * above, 0 otherwise; order is -1 for descending and 1 for ascending.
   */
  function Compare(field: string, desc: bool, a: Doc, b: Doc): int {
    var order := if desc then -1 else 1;
    var x := Lookup(a, field);
    var y := Lookup(b, field);
    if Less(x, y) then -1 * order
    else if Less(y, x) then 1 * order
    else 0
  }

  /** `a` must come before `b`: the comparator is negative. */
  predicate Precedes(field: string, desc: bool, a: Doc, b: Doc) {
    Compare(field, desc, a, b) < 0
  }

  /** `a` may stand before `b` in the requested order. */
  predicate NotAfter(field: string, desc: bool, a: Doc, b: Doc) {
    if desc then LessEq(Lookup(b, field), Lookup(a, field))
    else LessEq(Lookup(a, field), Lookup(b, field))
  }

  /** Ascending, or descending, by the field. */
  predicate InOrder(field: string, desc: bool, s: seq<Doc>) {
    forall i, j :: 0 <= i < j < |s| ==> NotAfter(field, desc, s[i], s[j])
  }

  /** Every pair of documents in `s` has comparable values under the field. */
  predicate AllComparable(field: string, s: seq<Doc>) {
    forall a, b :: a in s && b in s ==> Comparable(Lookup(a, field), Lookup(b, field))
  }

  /** Insert `x` before the first element it must precede, after all others. */
  function Insert(field: string, desc: bool, x: Doc, s: seq<Doc>): (r: seq<Doc>)
    ensures multiset(r) == multiset(s) + multiset{x}
  {
    if |s| == 0 then [x]
    else if Precedes(field, desc, x, s[0]) then [x] + s
    else
      assert s == [s[0]] + s[1..];
      [s[0]] + Insert(field, desc, x, s[1..])
  }

  /** Stable insertion sort: each element in turn goes after every element it does not precede. */
  function SortBy(field: string, desc: bool, s: seq<Doc>): (r: seq<Doc>)
    ensures multiset(r) == multiset(s)
    decreases |s|
  {
    if |s| == 0 then []
    else
      assert s == s[..|s| - 1] + [s[|s| - 1]];
      Insert(field, desc, s[|s| - 1], SortBy(field, desc, s[..|s| - 1]))
  }

  /** An element that precedes none of `s` goes at the end. */
  lemma {:induction false} InsertAfterAll(field: string, desc: bool, x: Doc, s: seq<Doc>)
    requires forall i :: 0 <= i < |s| ==> !Precedes(field, desc, x, s[i])
    ensures Insert(field, desc, x, s) == s + [x]
  {
    if |s| > 0 {
      InsertAfterAll(field, desc, x, s[1..]);
      assert [s[0]] + (s[1..] + [x]) == s + [x];
    }
  }

  /** No two field values in `s` are comparable: all `null`, all missing, all booleans, objects or arrays. */
  predicate NoneComparable(field: string, s: seq<Doc>) {
    forall i, j :: 0 <= i < |s| && 0 <= j < |s| ==> !Comparable(Lookup(s[i], field), Lookup(s[j], field))
  }

  lemma NoneComparableInit(field: string, s: seq<Doc>)
    requires |s| > 0 && NoneComparable(field, s)
    ensures NoneComparable(field, s[..|s| - 1])
  {
    var init := s[..|s| - 1];
    forall i, j | 0 <= i < |init| && 0 <= j < |init|
      ensures !Comparable(Lookup(init[i], field), Lookup(init[j], field))
    {
      assert init[i] == s[i] && init[j] == s[j];
    }
  }

  lemma LastPrecedesNone(field: string, desc: bool, s: seq<Doc>, init: seq<Doc>, x: Doc)
    requires |s| > 0 && NoneComparable(field, s)
    requires init == s[..|s| - 1] && x == s[|s| - 1]
    ensures forall i :: 0 <= i < |init| ==> !Precedes(field, desc, x, init[i])
  {
    forall i | 0 <= i < |init|
      ensures !Precedes(field, desc, x, init[i])
    {
      assert init[i] == s[i];
      assert !Comparable(Lookup(x, field), Lookup(s[i], field));
      assert !Comparable(Lookup(s[i], field), Lookup(x, field));
    }
  }

  /** When no two field values are comparable, every pair is a tie and the sort keeps the input order. */
  lemma {:induction false} TiesKeepOrder(field: string, desc: bool, s: seq<Doc>)
    requires NoneComparable(field, s)
    ensures SortBy(field, desc, s) == s
    decreases |s|
  {
    if |s| > 0 {
      var init, x := s[..|s| - 1], s[|s| - 1];
      assert SortBy(field, desc, s) == Insert(field, desc, x, SortBy(field, desc, init));
      NoneComparableInit(field, s);
      TiesKeepOrder(field, desc, init);
      LastPrecedesNone(field, desc, s, init, x);
      InsertAfterAll(field, desc, x, init);
      assert init + [x] == s;
    }
  }

  /** The documents of `s` whose field holds exactly `k`, in their order in `s`. */
  function WithKey(field: string, k: Option<Value>, s: seq<Doc>): seq<Doc>
    decreases |s|
  {
    if |s| == 0 then []
    else (if Lookup(s[0], field) == k then [s[0]] else []) + WithKey(field, k, s[1..])
  }

  // ---------------------------------------------------------------------
  // The comparator on comparable values
  // ---------------------------------------------------------------------

  lemma PrecedesIsStrictOrder(field: string, desc: bool, a: Doc, b: Doc)
    ensures Precedes(field, desc, a, b) <==>
      (if desc then Less(Lookup(b, field), Lookup(a, field)) else Less(Lookup(a, field), Lookup(b, field)))
  {
    if Less(Lookup(a, field), Lookup(b, field)) {
      LessAsymmetric(Lookup(a, field), Lookup(b, field));
    }
  }

  lemma PrecedesThenNotAfter(field: string, desc: bool, x: Doc, y: Doc, z: Doc)
    requires Precedes(field, desc, x, y) && NotAfter(field, desc, y, z)
    ensures Precedes(field, desc, x, z)
  {
    PrecedesIsStrictOrder(field, desc, x, y);
    PrecedesIsStrictOrder(field, desc, x, z);
    if desc {
      LessEqLessTransitive(Lookup(z, field), Lookup(y, field), Lookup(x, field));
    } else {
      LessLessEqTransitive(Lookup(x, field), Lookup(y, field), Lookup(z, field));
    }
  }

  lemma NotPrecedesMeansNotAfter(field: string, desc: bool, x: Doc, y: Doc)
    requires Comparable(Lookup(x, field), Lookup(y, field))
    requires !Precedes(field, desc, x, y)
    ensures NotAfter(field, desc, y, x)
  {
    PrecedesIsStrictOrder(field, desc, x, y);
  }

  lemma PrecedesImpliesNotAfter(field: string, desc: bool, x: Doc, y: Doc)
    requires Precedes(field, desc, x, y)
    ensures NotAfter(field, desc, x, y)
  {
    PrecedesIsStrictOrder(field, desc, x, y);
    if desc {
      LessAsymmetric(Lookup(y, field), Lookup(x, field));
    } else {
      LessAsymmetric(Lookup(x, field), Lookup(y, field));
    }
  }

  lemma PrecedesDifferentKeys(field: string, desc: bool, x: Doc, y: Doc)
    requires Precedes(field, desc, x, y)
    ensures Lookup(x, field) != Lookup(y, field)
  {
    PrecedesIsStrictOrder(field, desc, x, y);
    LessIrreflexive(Lookup(x, field));
  }

  // ---------------------------------------------------------------------
  // Sortedness
  // ---------------------------------------------------------------------

  lemma {:induction false} InsertInOrder(field: string, desc: bool, x: Doc, s: seq<Doc>)
    requires InOrder(field, desc, s)
    requires AllComparable(field, s + [x])
    ensures InOrder(field, desc, Insert(field, desc, x, s))
    decreases |s|
  {
    if |s| == 0 {
    } else if Precedes(field, desc, x, s[0]) {
      InsertInOrderFront(field, desc, x, s);
    } else {
      var tail := s[1..];
      assert AllComparable(field, tail + [x]) by {
        forall a | a in tail + [x] ensures a in s + [x] {}
      }
      assert InOrder(field, desc, tail) by {
        forall i, j | 0 <= i < j < |tail| ensures NotAfter(field, desc, tail[i], tail[j]) {
          assert tail[i] == s[i + 1] && tail[j] == s[j + 1];
        }
      }
      InsertInOrder(field, desc, x, tail);
      assert s[0] in s + [x] && x in s + [x];
      InsertInOrderPast(field, desc, x, s);
    }
  }

  /** `x` precedes the first element, so it precedes them all and goes in front. */
  lemma InsertInOrderFront(field: string, desc: bool, x: Doc, s: seq<Doc>)
    requires InOrder(field, desc, s)
    requires |s| > 0 && Precedes(field, desc, x, s[0])
    ensures InOrder(field, desc, Insert(field, desc, x, s))
  {
    var r := [x] + s;
    assert Insert(field, desc, x, s) == r;
    forall i, j | 0 <= i < j < |r|
      ensures NotAfter(field, desc, r[i], r[j])
    {
      if i == 0 {
        if j > 1 {
          PrecedesThenNotAfter(field, desc, x, s[0], s[j - 1]);
        }
        PrecedesImpliesNotAfter(field, desc, x, s[j - 1]);
      } else {
        assert r[i] == s[i - 1] && r[j] == s[j - 1];
      }
    }
  }

  /** `x` goes after the first element, which may stand before everything inserted behind it. */
  lemma InsertInOrderPast(field: string, desc: bool, x: Doc, s: seq<Doc>)
    requires InOrder(field, desc, s)
    requires |s| > 0 && !Precedes(field, desc, x, s[0])
    requires Comparable(Lookup(x, field), Lookup(s[0], field))
    requires InOrder(field, desc, Insert(field, desc, x, s[1..]))
    ensures InOrder(field, desc, Insert(field, desc, x, s))
  {
    var tail := s[1..];
    var ins := Insert(field, desc, x, tail);
    InsertPast(field, desc, x, s);
    NotPrecedesMeansNotAfter(field, desc, x, s[0]);
    forall y | y in ins ensures NotAfter(field, desc, s[0], y) {
      assert y in multiset(ins);
      if y != x {
        assert y in tail;
        var k :| 0 <= k < |tail| && tail[k] == y;
        assert s[k + 1] == y;
      }
    }
    ConsInOrder(field, desc, s[0], ins);
  }

  /** A document that may stand before every element of an ordered list may lead it. */
  lemma ConsInOrder(field: string, desc: bool, d: Doc, t: seq<Doc>)
    requires InOrder(field, desc, t)
    requires forall y :: y in t ==> NotAfter(field, desc, d, y)
    ensures InOrder(field, desc, [d] + t)
  {
    var r := [d] + t;
    forall i, j | 0 <= i < j < |r|
      ensures NotAfter(field, desc, r[i], r[j])
    {
      assert r[j] == t[j - 1];
      if i > 0 {
        assert r[i] == t[i - 1];
      }
    }
  }

  /** The result of `SortBy` is ascending (descending) by the field when the values are comparable. */
  lemma {:induction false} SortByInOrder(field: string, desc: bool, s: seq<Doc>)
    requires AllComparable(field, s)
    ensures InOrder(field, desc, SortBy(field, desc, s))
    decreases |s|
  {
    if |s| > 0 {
      var init := s[..|s| - 1];
      var last := s[|s| - 1];
      AllComparablePrefix(field, s);
      SortByInOrder(field, desc, init);
      SortedStaysComparable(field, desc, s);
      InsertInOrder(field, desc, last, SortBy(field, desc, init));
    }
  }

  /** Sorting all but the last element keeps every pair comparable once the last is added back. */
  lemma SortedStaysComparable(field: string, desc: bool, s: seq<Doc>)
    requires |s| > 0 && AllComparable(field, s)
    ensures AllComparable(field, SortBy(field, desc, s[..|s| - 1]) + [s[|s| - 1]])
  {
    var init := s[..|s| - 1];
    var sorted := SortBy(field, desc, init);
    forall a | a in sorted + [s[|s| - 1]] ensures a in s {
      if a in sorted {
        assert a in multiset(sorted);
        assert a in init;
      }
    }
  }

  // ---------------------------------------------------------------------
  // Stability
  // ---------------------------------------------------------------------

  lemma {:induction false} WithKeyAppend(field: string, k: Option<Value>, a: seq<Doc>, b: seq<Doc>)
    ensures WithKey(field, k, a + b) == WithKey(field, k, a) + WithKey(field, k, b)
    decreases |a|
  {
    if |a| == 0 {
      assert a + b == b;
    } else {
      assert (a + b)[0] == a[0];
      assert (a + b)[1..] == a[1..] + b;
      WithKeyAppend(field, k, a[1..], b);
    }
  }

  lemma {:induction false} WithKeyNone(field: string, k: Option<Value>, s: seq<Doc>)
    requires forall i :: 0 <= i < |s| ==> Lookup(s[i], field) != k
    ensures WithKey(field, k, s) == []
    decreases |s|
  {
    if |s| > 0 {
      WithKeyNone(field, k, s[1..]);
    }
  }

  lemma {:induction false} InsertStable(field: string, desc: bool, x: Doc, s: seq<Doc>, k: Option<Value>)
    requires InOrder(field, desc, s)
    ensures WithKey(field, k, Insert(field, desc, x, s))
         == WithKey(field, k, s) + (if Lookup(x, field) == k then [x] else [])
    decreases |s|
  {
    if |s| == 0 {
      assert Insert(field, desc, x, s) == [x];
      assert WithKey(field, k, [x]) == (if Lookup(x, field) == k then [x] else []) + WithKey(field, k, []);
    } else if Precedes(field, desc, x, s[0]) {
      InsertStableFront(field, desc, x, s, k);
    } else {
      var rest := s[1..];
      assert InOrder(field, desc, rest) by {
        forall i, j | 0 <= i < j < |rest| ensures NotAfter(field, desc, rest[i], rest[j]) {
          assert rest[i] == s[i + 1] && rest[j] == s[j + 1];
        }
      }
      InsertStable(field, desc, x, rest, k);
      InsertPast(field, desc, x, s);
      WithKeyPrepend(field, k, s[0], Insert(field, desc, x, rest), rest,
                     if Lookup(x, field) == k then [x] else []);
      assert [s[0]] + rest == s;
    }
  }

  /** `x` goes to the front: no element of `s` shares its value, so it also ends its group. */
  lemma InsertStableFront(field: string, desc: bool, x: Doc, s: seq<Doc>, k: Option<Value>)
    requires InOrder(field, desc, s)
    requires |s| > 0 && Precedes(field, desc, x, s[0])
    ensures WithKey(field, k, Insert(field, desc, x, s))
         == WithKey(field, k, s) + (if Lookup(x, field) == k then [x] else [])
  {
    var r := [x] + s;
    assert Insert(field, desc, x, s) == r;
    assert r[0] == x && r[1..] == s;
    assert WithKey(field, k, r) == (if Lookup(x, field) == k then [x] else []) + WithKey(field, k, s);
    if Lookup(x, field) == k {
      forall i | 0 <= i < |s| ensures Lookup(s[i], field) != k {
        if i > 0 {
          assert NotAfter(field, desc, s[0], s[i]);
          PrecedesThenNotAfter(field, desc, x, s[0], s[i]);
        }
        PrecedesDifferentKeys(field, desc, x, s[i]);
      }
      WithKeyNone(field, k, s);
    }
  }

  /** Putting the same document in front of two lists adds the same front to their groups. */
  lemma WithKeyPrepend(field: string, k: Option<Value>, d: Doc, a: seq<Doc>, b: seq<Doc>, extra: seq<Doc>)
    requires WithKey(field, k, a) == WithKey(field, k, b) + extra
    ensures WithKey(field, k, [d] + a) == WithKey(field, k, [d] + b) + extra
  {
    WithKeyCons(field, k, d, a);
    WithKeyCons(field, k, d, b);
  }

  lemma InsertPast(field: string, desc: bool, x: Doc, s: seq<Doc>)
    requires |s| > 0 && !Precedes(field, desc, x, s[0])
    ensures Insert(field, desc, x, s) == [s[0]] + Insert(field, desc, x, s[1..])
  {
  }

  lemma WithKeyCons(field: string, k: Option<Value>, d: Doc, t: seq<Doc>)
    ensures WithKey(field, k, [d] + t) == (if Lookup(d, field) == k then [d] else []) + WithKey(field, k, t)
  {
    assert ([d] + t)[0] == d && ([d] + t)[1..] == t;
  }

  /**
   * `SortBy` is stable: the documents sharing any one value of the field
   * appear in the result in the same order as in the input.
   */
  lemma {:induction false} SortByStable(field: string, desc: bool, s: seq<Doc>, k: Option<Value>)
    requires AllComparable(field, s)
    ensures WithKey(field, k, SortBy(field, desc, s)) == WithKey(field, k, s)
    decreases |s|
  {
    if |s| > 0 {
      var init := s[..|s| - 1];
      var last := s[|s| - 1];
      AllComparablePrefix(field, s);
      SortByStable(field, desc, init, k);
      SortByInOrder(field, desc, init);
      InsertStable(field, desc, last, SortBy(field, desc, init), k);
      WithKeySnoc(field, k, s);
    }
  }

  lemma AllComparablePrefix(field: string, s: seq<Doc>)
    requires |s| > 0 && AllComparable(field, s)
    ensures AllComparable(field, s[..|s| - 1])
  {
    forall a | a in s[..|s| - 1] ensures a in s {}
  }

  lemma WithKeySnoc(field: string, k: Option<Value>, s: seq<Doc>)
    requires |s| > 0
    ensures WithKey(field, k, s)
         == WithKey(field, k, s[..|s| - 1]) + (if Lookup(s[|s| - 1], field) == k then [s[|s| - 1]] else [])
  {
    var last := s[|s| - 1];
    assert s == s[..|s| - 1] + [last];
    WithKeyAppend(field, k, s[..|s| - 1], [last]);
    assert WithKey(field, k, [last]) == (if Lookup(last, field) == k then [last] else []) + WithKey(field, k, []);
  }
}
