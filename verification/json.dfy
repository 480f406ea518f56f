/**
 * Documents and their field values.
 *
 * A document is an open mapping from field name to a JSON-shaped value; the
 * field "_id" holds its identifier. A field that a document lacks reads as
 * JavaScript's `undefined`, written `None` here. Numbers are integers in this
 * model.
 */
module Json {
  import opened Maybe

  datatype Value =
    | Null
    | Bool(b: bool)
    | Num(n: int)
    | Str(s: string)
    | Arr(items: seq<Value>)
    | Obj(fields: map<string, Value>)

  type Doc = map<string, Value>

  /** The identifier field every stored document carries. */
  const IdField: string := "_id"

  /** `doc[field]`: the value, or `undefined` when the field is absent. */
  function Lookup(doc: Doc, field: string): (r: Option<Value>)
    ensures r.Some? <==> field in doc
    ensures r.Some? ==> r.value == doc[field]
  {
    if field in doc then Some(doc[field]) else None
  }

  predicate IsScalar(v: Value) {
    !v.Arr? && !v.Obj?
  }

  /**
   * JavaScript `===`. Scalars compare by value; arrays and objects compare by
   * reference, and a value from a query never shares a reference with a stored
   * document, so a container is never strictly equal to anything here.
   */
  predicate StrictEquals(x: Option<Value>, y: Option<Value>) {
    match (x, y)
    case (None, None) => true
    case (Some(a), Some(b)) => IsScalar(a) && a == b
    case _ => false
  }

  /** Lexicographic order on strings, character by character. */
  predicate StrLess(a: string, b: string)
    decreases |a|
  {
    if |a| == 0 then |b| > 0
    else if |b| == 0 then false
    else a[0] < b[0] || (a[0] == b[0] && StrLess(a[1..], b[1..]))
  }

  /** Two values the relational operators order: both numbers or both strings. */
  predicate Comparable(x: Option<Value>, y: Option<Value>) {
    (x.Some? && y.Some?) &&
    ((x.value.Num? && y.value.Num?) || (x.value.Str? && y.value.Str?))
  }

  /**
   * JavaScript `x < y` restricted to comparable values: numeric order for
   * numbers, lexicographic order for strings, false for any other pairing.
   */
  predicate Less(x: Option<Value>, y: Option<Value>) {
    Comparable(x, y) &&
    (if x.value.Num? then x.value.n < y.value.n else StrLess(x.value.s, y.value.s))
  }

  /** JavaScript `x <= y` under the same restriction. */
  predicate LessEq(x: Option<Value>, y: Option<Value>) {
    Comparable(x, y) && !Less(y, x)
  }

  lemma {:induction false} StrLessIrreflexive(a: string)
    ensures !StrLess(a, a)
    decreases |a|
  {
    if |a| > 0 {
      StrLessIrreflexive(a[1..]);
    }
  }

  lemma {:induction false} StrLessTransitive(a: string, b: string, c: string)
    requires StrLess(a, b) && StrLess(b, c)
    ensures StrLess(a, c)
    decreases |a|
  {
    if |a| > 0 && a[0] == b[0] && b[0] == c[0] {
      StrLessTransitive(a[1..], b[1..], c[1..]);
    }
  }

  lemma {:induction false} StrLessTotal(a: string, b: string)
    requires a != b
    ensures StrLess(a, b) || StrLess(b, a)
    decreases |a|
  {
    if |a| > 0 && |b| > 0 && a[0] == b[0] {
      assert a == [a[0]] + a[1..] && b == [b[0]] + b[1..];
      StrLessTotal(a[1..], b[1..]);
    }
  }

  /** On comparable values `Less` is a strict total order. */
  lemma LessIrreflexive(x: Option<Value>)
    ensures !Less(x, x)
  {
    if Comparable(x, x) && x.value.Str? {
      StrLessIrreflexive(x.value.s);
    }
  }

  lemma LessTransitive(x: Option<Value>, y: Option<Value>, z: Option<Value>)
    requires Less(x, y) && Less(y, z)
    ensures Less(x, z)
  {
    if x.value.Str? {
      StrLessTransitive(x.value.s, y.value.s, z.value.s);
    }
  }

  lemma LessTotal(x: Option<Value>, y: Option<Value>)
    requires Comparable(x, y) && x != y
    ensures Less(x, y) || Less(y, x)
  {
    if x.value.Str? {
      StrLessTotal(x.value.s, y.value.s);
    }
  }

  lemma LessAsymmetric(x: Option<Value>, y: Option<Value>)
    requires Less(x, y)
    ensures !Less(y, x)
  {
    if Less(y, x) {
      LessTransitive(x, y, x);
      LessIrreflexive(x);
    }
  }

  /** On comparable values, `x <= y` is `x < y` or `x == y`. */
  lemma LessEqSplit(x: Option<Value>, y: Option<Value>)
    requires Comparable(x, y)
    ensures LessEq(x, y) <==> Less(x, y) || x == y
  {
    if x == y {
      LessIrreflexive(x);
    } else {
      LessTotal(x, y);
      if Less(x, y) {
        LessAsymmetric(x, y);
      }
    }
  }

  lemma LessLessEqTransitive(x: Option<Value>, y: Option<Value>, z: Option<Value>)
    requires Less(x, y) && LessEq(y, z)
    ensures Less(x, z)
  {
    LessEqSplit(y, z);
    if y != z {
      LessTransitive(x, y, z);
    }
  }

  lemma LessEqLessTransitive(x: Option<Value>, y: Option<Value>, z: Option<Value>)
    requires LessEq(x, y) && Less(y, z)
    ensures Less(x, z)
  {
    LessEqSplit(x, y);
    if x != y {
      LessTransitive(x, y, z);
    }
  }

  // ---------------------------------------------------------------------
  // String(v): JavaScript's string conversion, used by `contains` and by
  // index lookups.
  // ---------------------------------------------------------------------

  function DigitChar(d: nat): char
    requires d < 10
  {
    "0123456789"[d]
  }

  function NatToDecimal(n: nat): (r: string)
    ensures |r| > 0
    decreases n
  {
    if n < 10 then [DigitChar(n)] else NatToDecimal(n / 10) + [DigitChar(n % 10)]
  }

  function IntToDecimal(i: int): string {
    if i < 0 then "-" + NatToDecimal(-i) else NatToDecimal(i)
  }

  /** `Array.prototype.join(",")`. */
  function JoinWithCommas(parts: seq<string>): string {
    if |parts| == 0 then ""
    else if |parts| == 1 then parts[0]
    else JoinWithCommas(parts[..|parts| - 1]) + "," + parts[|parts| - 1]
  }

  /** String(v) for a present value; array elements that are null render empty. */
  function ValueString(v: Value): string
    decreases v
  {
    match v
    case Null => "null"
    case Bool(b) => if b then "true" else "false"
    case Num(n) => IntToDecimal(n)
    case Str(s) => s
    case Arr(items) =>
      JoinWithCommas(seq(|items|, i requires 0 <= i < |items| =>
        if items[i].Null? then "" else ValueString(items[i])))
    case Obj(_) => "[object Object]"
  }

  /** String(x), where `undefined` renders as "undefined". */
  function ToJsString(x: Option<Value>): string {
    match x
    case None => "undefined"
    case Some(v) => ValueString(v)
  }

  predicate IsPrefix(p: string, s: string) {
    |p| <= |s| && s[..|p|] == p
  }

  /** `hay.includes(needle)`: needle occurs somewhere in hay. */
  predicate Includes(hay: string, needle: string)
    decreases |hay|
  {
    IsPrefix(needle, hay) || (|hay| > 0 && Includes(hay[1..], needle))
  }

  /** `Includes` holds exactly when the needle starts at some position of the hay. */
  lemma {:induction false} IncludesAt(hay: string, needle: string)
    ensures Includes(hay, needle) <==> exists i :: 0 <= i <= |hay| && IsPrefix(needle, hay[i..])
    decreases |hay|
  {
    assert hay[0..] == hay;
    if |hay| > 0 {
      IncludesAt(hay[1..], needle);
      if Includes(hay[1..], needle) {
        var i :| 0 <= i <= |hay[1..]| && IsPrefix(needle, hay[1..][i..]);
        assert hay[1..][i..] == hay[i + 1..];
      }
      if exists i :: 0 <= i <= |hay| && IsPrefix(needle, hay[i..]) {
        var i :| 0 <= i <= |hay| && IsPrefix(needle, hay[i..]);
        if i > 0 {
          assert hay[1..][i - 1..] == hay[i..];
        }
      }
    } else {
      if exists i :: 0 <= i <= |hay| && IsPrefix(needle, hay[i..]) {
        var i :| 0 <= i <= |hay| && IsPrefix(needle, hay[i..]);
        assert hay[i..] == hay;
      }
    }
  }
}
