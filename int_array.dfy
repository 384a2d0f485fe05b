/**
 * `IntArray`, the column type of generated content's concept ids: `Value`
 * writes it for the database and `Scan` reads it back. A nil array is SQL
 * NULL; any other array travels as its JSON text. Reading that text is
 * `encoding/json` decoding into `[]int`, written out here for that target
 * type: `null`, or an array of integers (a `null` element reads as 0) in the
 * signed 64-bit range, with JSON white space between tokens.
 */
module IntArrays {

  import opened Wrappers
  import opened Decimal
  import opened Models

  const Int64Min: int := -0x8000_0000_0000_0000
  const Int64Max: int := 0x7FFF_FFFF_FFFF_FFFF

  predicate InInt64(x: int) { Int64Min <= x <= Int64Max }

  predicate AllInInt64(xs: seq<int>) {
    forall i :: 0 <= i < |xs| ==> InInt64(xs[i])
  }

  /** What the database driver hands to `Scan`, and what `Value` hands to it. */
  datatype SqlValue = SqlNull | SqlBytes(data: string) | SqlText(text: string) | SqlInteger(n: int)

  datatype ScanError = NotBytes | InvalidJson

  // ---------------------------------------------------------------------------
  // Writing
  // ---------------------------------------------------------------------------

  /** The elements of a non-empty array, as `json.Marshal` separates them. */
  function Elements(xs: seq<int>): string
    requires xs != []
  {
    if |xs| == 1 then IntToString(xs[0]) else IntToString(xs[0]) + "," + Elements(xs[1..])
  }

  /** `json.Marshal` of a non-nil `[]int`. */
  function Encode(xs: seq<int>): (s: string)
    ensures |s| >= 2 && s[0] == '[' && s[|s| - 1] == ']'
  {
    "[" + (if xs == [] then "" else Elements(xs)) + "]"
  }

  /** `IntArray.Value`: NULL for the nil array, the JSON text otherwise. */
  function Value(a: IntArray): (v: SqlValue)
    ensures v == SqlNull <==> a.None?
    ensures a.Some? ==> v == SqlBytes(Encode(a.value))
  {
    match a
    case None => SqlNull
    case Some(xs) => SqlBytes(Encode(xs))
  }

  // ---------------------------------------------------------------------------
  // Reading
  // ---------------------------------------------------------------------------

  predicate IsJsonSpace(c: char) { c == ' ' || c == '\t' || c == '\n' || c == '\r' }

  function SkipSpace(s: string): (r: string)
    ensures |r| <= |s|
    ensures r == [] || !IsJsonSpace(r[0])
  {
    if s != [] && IsJsonSpace(s[0]) then SkipSpace(s[1..]) else s
  }

  predicate StartsWithNull(s: string) {
    |s| >= 4 && s[..4] == "null"
  }

  /** A JSON integer at the start of `s` and what follows it; a fraction or an exponent is left unread. */
  function ParseNumber(s: string): (r: Option<(int, string)>)
    ensures r.Some? ==> |r.value.1| < |s|
  {
    var negative := s != [] && s[0] == '-';
    var t := if negative then s[1..] else s;
    var k := DigitRun(t);
    if k == 0 || (t[0] == '0' && k > 1) then None
    else
      var magnitude: int := DigitsValue(t[..k]);
      var x := if negative then -magnitude else magnitude;
      if InInt64(x) then Some((x, t[k..])) else None
  }

  /** One element: `null`, which reads as 0, or an integer. */
  function ParseElement(s: string): (r: Option<(int, string)>)
    ensures r.Some? ==> |r.value.1| < |s|
  {
    if StartsWithNull(s) then Some((0, s[4..])) else ParseNumber(s)
  }

  /** The elements of a non-empty array up to and including its closing bracket. */
  function ParseElements(s: string): (r: Option<(seq<int>, string)>)
    ensures r.Some? ==> |r.value.1| < |s| && r.value.0 != []
    decreases |s|, 1
  {
    match ParseElement(s)
    case None => None
    case Some((x, t)) => ParseRest(x, t)
  }

  /** What follows element `x`: `]` closes the array, `,` starts the next element. */
  function ParseRest(x: int, t: string): (r: Option<(seq<int>, string)>)
    ensures r.Some? ==> |r.value.1| < |t| && r.value.0 != []
    decreases |t|, 0
  {
    var u := SkipSpace(t);
    if u != [] && u[0] == ']' then Some(([x], u[1..]))
    else if u != [] && u[0] == ',' then
      match ParseElements(SkipSpace(u[1..]))
      case None => None
      case Some((xs, w)) => Some(([x] + xs, w))
    else None
  }

  /** `json.Unmarshal` into `*IntArray`: `null` gives the nil array, an array its integers. */
  function Decode(s: string): (r: Option<IntArray>)
    ensures r.Some? ==> var t := SkipSpace(s); StartsWithNull(t) || (t != [] && t[0] == '[')
    ensures r == Some(None) ==> StartsWithNull(SkipSpace(s))
  {
    var t := SkipSpace(s);
    if StartsWithNull(t) then
      if SkipSpace(t[4..]) == [] then Some(None) else None
    else if t != [] && t[0] == '[' then
      var u := SkipSpace(t[1..]);
      if u != [] && u[0] == ']' then
        if SkipSpace(u[1..]) == [] then Some(Some([])) else None
      else
        match ParseElements(u)
        case None => None
        case Some((xs, w)) => if SkipSpace(w) == [] then Some(Some(xs)) else None
    else None
  }

  /** `IntArray.Scan`: NULL gives the nil array; bytes are decoded; anything else is an error. */
  function Scan(v: SqlValue): (r: Result<IntArray, ScanError>)
    ensures v == SqlNull ==> r == Success(None)
    ensures !v.SqlNull? && !v.SqlBytes? ==> r == Failure(NotBytes)
    ensures v.SqlBytes? ==> (r.Success? <==> Decode(v.data).Some?)
  {
    match v
    case SqlNull => Success(None)
    case SqlBytes(data) =>
      (match Decode(data)
       case Some(a) => Success(a)
       case None => Failure(InvalidJson))
    case _ => Failure(NotBytes)
  }

  // ---------------------------------------------------------------------------
  // The round trip
  // ---------------------------------------------------------------------------

  /** An integer as `%d` writes it, followed by a non-digit, reads back as itself. */
  lemma NumberOfIntToString(x: int, rest: string)
    requires InInt64(x)
    requires rest == [] || !IsDigit(rest[0])
    ensures ParseNumber(IntToString(x) + rest) == Some((x, rest))
  {
    var n: nat := if x < 0 then -x else x;
    var digits := NatToString(n);
    DigitsOfNat(n, rest);
    if x < 0 {
      SignedDigits(x, digits + rest, digits, rest);
      MinusRegroup(digits, rest);
    } else {
      UnsignedDigits(x, digits + rest, digits, rest);
    }
  }

  lemma MinusRegroup(digits: string, rest: string)
    ensures "-" + digits + rest == "-" + (digits + rest)
  {
  }

  /** The digits `%d` writes for `n`, followed by a non-digit: one run, worth `n`. */
  lemma DigitsOfNat(n: nat, rest: string)
    requires rest == [] || !IsDigit(rest[0])
    ensures var t := NatToString(n) + rest; var k := |NatToString(n)|;
      DigitRun(t) == k && t[..k] == NatToString(n) && t[k..] == rest
    ensures DigitsValue(NatToString(n)) == n
  {
    DigitRunOfNatToString(n, rest);
    DigitsValueOfNatToString(n);
    assert (NatToString(n) + rest)[|NatToString(n)|..] == rest;
  }

  /** A run of digits without a superfluous leading zero, worth `x`, reads as `x`. */
  lemma UnsignedDigits(x: int, t: string, digits: string, rest: string)
    requires 0 <= x && InInt64(x)
    requires digits != [] && AllDigits(digits) && DigitsValue(digits) == x
    requires digits[0] == '0' ==> |digits| == 1
    requires DigitRun(t) == |digits| && t[..|digits|] == digits && t[|digits|..] == rest
    ensures ParseNumber(t) == Some((x, rest))
  {
    assert t[0] == digits[0];
  }

  /** A minus sign in front of such a run, worth `-x`, reads as `x`. */
  lemma SignedDigits(x: int, t: string, digits: string, rest: string)
    requires x < 0 && InInt64(x)
    requires digits != [] && AllDigits(digits) && DigitsValue(digits) == -x
    requires digits[0] == '0' ==> |digits| == 1
    requires DigitRun(t) == |digits| && t[..|digits|] == digits && t[|digits|..] == rest
    ensures ParseNumber("-" + t) == Some((x, rest))
  {
    assert ("-" + t)[1..] == t;
    assert t[0] == digits[0];
  }

  /** `%d` output starts with a minus sign or a digit. */
  lemma IntToStringStart(x: int)
    ensures IntToString(x)[0] == '-' || IsDigit(IntToString(x)[0])
  {
  }

  /** One integer written by `%d`, then a separator or the closing bracket, reads back as itself. */
  lemma ElementOf(x: int, tail: string)
    requires InInt64(x) && tail != [] && (tail[0] == ',' || tail[0] == ']')
    ensures ParseElement(IntToString(x) + tail) == Some((x, tail))
  {
    NumberOfIntToString(x, tail);
    IntToStringStart(x);
    assert (IntToString(x) + tail)[0] == IntToString(x)[0];
  }

  lemma ParseElementsOfElement(s: string, x: int, t: string)
    requires ParseElement(s) == Some((x, t))
    ensures ParseElements(s) == ParseRest(x, t)
  {
  }

  lemma ParseElementsClose(s: string, x: int, rest: string)
    requires ParseElement(s) == Some((x, "]" + rest))
    ensures ParseElements(s) == Some(([x], rest))
  {
    ParseElementsOfElement(s, x, "]" + rest);
    assert ("]" + rest)[1..] == rest;
  }

  lemma ParseRestNext(x: int, more: string, xs: seq<int>, rest: string)
    requires more == [] || !IsJsonSpace(more[0])
    requires ParseElements(more) == Some((xs, rest))
    ensures ParseRest(x, "," + more) == Some(([x] + xs, rest))
  {
    var t := "," + more;
    assert t[0] == ',';
    assert SkipSpace(t) == t;
    assert t[1..] == more;
    assert SkipSpace(more) == more;
  }

  lemma ParseElementsNext(s: string, x: int, more: string, xs: seq<int>, rest: string)
    requires ParseElement(s) == Some((x, "," + more))
    requires more == [] || !IsJsonSpace(more[0])
    requires ParseElements(more) == Some((xs, rest))
    ensures ParseElements(s) == Some(([x] + xs, rest))
  {
    ParseElementsOfElement(s, x, "," + more);
    ParseRestNext(x, more, xs, rest);
  }

  lemma ElementsHead(xs: seq<int>, rest: string)
    requires |xs| > 1
    ensures Elements(xs) + "]" + rest == IntToString(xs[0]) + ("," + (Elements(xs[1..]) + "]" + rest))
  {
    ElementsUnfold(xs);
    Regroup(IntToString(xs[0]), Elements(xs[1..]), rest);
  }

  lemma ElementsUnfold(xs: seq<int>)
    requires |xs| > 1
    ensures Elements(xs) == IntToString(xs[0]) + "," + Elements(xs[1..])
  {
  }

  lemma Regroup(a: string, e: string, rest: string)
    ensures a + "," + e + "]" + rest == a + ("," + (e + "]" + rest))
  {
  }

  lemma ElementsStart(xs: seq<int>, rest: string)
    requires xs != []
    ensures (Elements(xs) + "]" + rest)[0] == IntToString(xs[0])[0]
  {
  }

  lemma LastElementRoundTrip(x: int, rest: string)
    requires InInt64(x)
    ensures ParseElements(Elements([x]) + "]" + rest) == Some(([x], rest))
  {
    var s := Elements([x]) + "]" + rest;
    assert s == IntToString(x) + ("]" + rest);
    ElementOf(x, "]" + rest);
    ParseElementsClose(s, x, rest);
  }

  /** One element followed by a comma and a list that parses on its own. */
  lemma ElementsNextStep(s: string, x: int, more: string, xs: seq<int>, rest: string)
    requires InInt64(x) && s == IntToString(x) + ("," + more)
    requires more != [] && (more[0] == '-' || IsDigit(more[0]))
    requires ParseElements(more) == Some((xs, rest))
    ensures ParseElements(s) == Some(([x] + xs, rest))
  {
    ElementOf(x, "," + more);
    ParseElementsNext(s, x, more, xs, rest);
  }

  /** The element list `Elements` writes, closed by `]`, parses back to the same integers. */
  lemma {:induction false} ElementsRoundTrip(xs: seq<int>, rest: string)
    requires xs != [] && AllInInt64(xs)
    ensures ParseElements(Elements(xs) + "]" + rest) == Some((xs, rest))
    decreases |xs|
  {
    if |xs| == 1 {
      LastElementRoundTrip(xs[0], rest);
      assert [xs[0]] == xs;
    } else {
      ElementsRoundTrip(xs[1..], rest);
      ElementsConsRoundTrip(xs, rest);
    }
  }

  /** The inductive step: the head element in front of a list that round-trips. */
  lemma ElementsConsRoundTrip(xs: seq<int>, rest: string)
    requires |xs| > 1 && InInt64(xs[0])
    requires ParseElements(Elements(xs[1..]) + "]" + rest) == Some((xs[1..], rest))
    ensures ParseElements(Elements(xs) + "]" + rest) == Some((xs, rest))
  {
    var s := Elements(xs) + "]" + rest;
    var more := Elements(xs[1..]) + "]" + rest;
    ElementsHead(xs, rest);
    ElementsStart(xs[1..], rest);
    IntToStringStart(xs[1]);
    ElementsNextStep(s, xs[0], more, xs[1..], rest);
    assert [xs[0]] + xs[1..] == xs;
  }

  /** An opening bracket followed directly by a closed, non-empty element list. */
  lemma DecodeArray(s: string, xs: seq<int>)
    requires s != [] && s[0] == '['
    requires s[1..] != [] && s[1..][0] != ']' && !IsJsonSpace(s[1..][0])
    requires ParseElements(s[1..]) == Some((xs, ""))
    ensures Decode(s) == Some(Some(xs))
  {
    assert SkipSpace(s) == s;
    assert !StartsWithNull(s);
  }

  /** Decoding what `Encode` wrote. */
  lemma DecodeEncode(xs: seq<int>)
    requires AllInInt64(xs)
    ensures Decode(Encode(xs)) == Some(Some(xs))
  {
    var s := Encode(xs);
    if xs == [] {
      assert s == "[]";
      assert SkipSpace(s) == s;
      assert s[1..] == "]";
    } else {
      assert s[1..] == Elements(xs) + "]" + "";
      ElementsRoundTrip(xs, "");
      ElementsStart(xs, "");
      IntToStringStart(xs[0]);
      DecodeArray(s, xs);
    }
  }

  /** `Scan` reads back what `Value` wrote, for every array of 64-bit integers, nil included. */
  lemma ScanValueRoundTrip(a: IntArray)
    requires a.Some? ==> AllInInt64(a.value)
    ensures Scan(Value(a)) == Success(a)
  {
    if a.Some? {
      DecodeEncode(a.value);
    }
  }

  /** The JSON text `null` scans as the nil array, as SQL NULL does. */
  lemma ScanJsonNull()
    ensures Scan(SqlBytes("null")) == Success(None)
  {
    assert SkipSpace("null") == "null";
    assert "null"[4..] == [];
  }
}
