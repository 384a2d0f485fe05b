/**
 * The part of Go's `strings` package that the core relies on, stated over
 * `string` (a sequence of characters). Each function carries the contract the
 * callers in the other modules reason with.
 */
module Strings {

  /** Go's `unicode.IsSpace`: the characters `strings.TrimSpace` removes. */
  predicate IsSpace(c: char) {
    || c == ' ' || c == '\t' || c == '\n' || c == '\U{000B}' || c == '\U{000C}' || c == '\r'
    || c == '\U{0085}' || c == '\U{00A0}' || c == '\U{1680}'
    || ('\U{2000}' <= c <= '\U{200A}')
    || c == '\U{2028}' || c == '\U{2029}' || c == '\U{202F}' || c == '\U{205F}' || c == '\U{3000}'
  }

  predicate AllSpace(s: string) {
    forall i :: 0 <= i < |s| ==> IsSpace(s[i])
  }

  /** `strings.TrimLeftFunc(s, unicode.IsSpace)`. */
  function TrimLeft(s: string): (r: string)
    ensures |r| <= |s| && r == s[|s| - |r|..]
    ensures r == [] || !IsSpace(r[0])
    ensures AllSpace(s[..|s| - |r|])
  {
    if s != [] && IsSpace(s[0]) then TrimLeft(s[1..]) else s
  }

  /** `strings.TrimRightFunc(s, unicode.IsSpace)`. */
  function TrimRight(s: string): (r: string)
    ensures |r| <= |s| && r == s[..|r|]
    ensures r == [] || !IsSpace(r[|r| - 1])
    ensures AllSpace(s[|r|..])
  {
    if s != [] && IsSpace(s[|s| - 1]) then TrimRight(s[..|s| - 1]) else s
  }

  /** Neither starts nor ends with white space. */
  predicate Trimmed(s: string) {
    s == [] || (!IsSpace(s[0]) && !IsSpace(s[|s| - 1]))
  }

  /** `strings.TrimSpace`: the result neither starts nor ends with white space. */
  function TrimSpace(s: string): (r: string)
    ensures |r| <= |s|
    ensures Trimmed(r)
  {
    TrimRight(TrimLeft(s))
  }

  /** `strings.TrimSpace` leaves a trimmed string as it is. */
  lemma TrimSpaceOfTrimmed(s: string)
    requires Trimmed(s)
    ensures TrimSpace(s) == s
  {
  }

  lemma {:induction false} TrimLeftAppend(s: string, t: string)
    requires !AllSpace(s)
    ensures TrimLeft(s + t) == TrimLeft(s) + t
  {
    if IsSpace(s[0]) {
      assert (s + t)[1..] == s[1..] + t;
      assert !AllSpace(s[1..]) by {
        var k :| 0 <= k < |s| && !IsSpace(s[k]);
        assert s[1..][k - 1] == s[k];
      }
      TrimLeftAppend(s[1..], t);
    }
  }

  lemma {:induction false} TrimLeftSpacePrefix(s: string, t: string)
    requires AllSpace(s)
    ensures TrimLeft(s + t) == TrimLeft(t)
  {
    if s != [] {
      assert (s + t)[1..] == s[1..] + t;
      assert AllSpace(s[1..]) by {
        forall k | 0 <= k < |s| - 1 ensures IsSpace(s[1..][k]) { assert s[1..][k] == s[k + 1]; }
      }
      TrimLeftSpacePrefix(s[1..], t);
    } else {
      assert s + t == t;
    }
  }

  /** Appending one white-space character does not change what `TrimSpace` keeps. */
  lemma TrimSpaceAppendSpace(s: string, c: char)
    requires IsSpace(c)
    ensures TrimSpace(s + [c]) == TrimSpace(s)
  {
    var x := TrimLeft(s + [c]);
    if AllSpace(s) {
      TrimLeftSpacePrefix(s, [c]);
      assert TrimLeft([c]) == [];
      assert TrimLeft(s) == [];
    } else {
      TrimLeftAppend(s, [c]);
      assert x[..|x| - 1] == TrimLeft(s);
    }
  }

  /** `strings.HasPrefix`. */
  predicate HasPrefix(s: string, prefix: string) {
    |prefix| <= |s| && s[..|prefix|] == prefix
  }

  /** `strings.HasSuffix`. */
  predicate HasSuffix(s: string, suffix: string) {
    |suffix| <= |s| && s[|s| - |suffix|..] == suffix
  }

  /** `sub` occurs in `s` starting at index `k`. */
  predicate OccursAt(s: string, sub: string, k: int) {
    0 <= k && k + |sub| <= |s| && s[k..k + |sub|] == sub
  }

  /** No occurrence of `sub` in `s` starts before index `n`. */
  predicate NoOccurrenceBefore(s: string, sub: string, n: int) {
    forall k :: 0 <= k < n ==> !OccursAt(s, sub, k)
  }

  /** `strings.Contains`. */
  predicate Contains(s: string, sub: string) {
    exists k :: 0 <= k <= |s| - |sub| && OccursAt(s, sub, k)
  }

  function IndexFrom(s: string, sub: string, from: nat): (r: int)
    requires from <= |s| + 1
    ensures r == -1 || (from <= r && OccursAt(s, sub, r))
    decreases |s| + 1 - from
  {
    if from + |sub| > |s| then -1
    else if s[from..from + |sub|] == sub then from
    else IndexFrom(s, sub, from + 1)
  }

  lemma {:induction false} IndexFromFirst(s: string, sub: string, from: nat)
    requires from <= |s| + 1 && NoOccurrenceBefore(s, sub, from)
    ensures var r := IndexFrom(s, sub, from); NoOccurrenceBefore(s, sub, if r == -1 then |s| + 1 else r)
    decreases |s| + 1 - from
  {
    if from + |sub| > |s| {
      assert forall k :: from <= k ==> !OccursAt(s, sub, k);
    } else if s[from..from + |sub|] != sub {
      IndexFromFirst(s, sub, from + 1);
    }
  }

  /** `strings.Index`: the first occurrence of `sub` in `s`, or -1. */
  function IndexOf(s: string, sub: string): (r: int)
    ensures r == -1 || OccursAt(s, sub, r)
  {
    IndexFrom(s, sub, 0)
  }

  /** `strings.Index` finds the first occurrence, and reports -1 exactly when there is none. */
  lemma IndexOfFirst(s: string, sub: string)
    ensures NoOccurrenceBefore(s, sub, if IndexOf(s, sub) == -1 then |s| + 1 else IndexOf(s, sub))
    ensures IndexOf(s, sub) == -1 <==> !Contains(s, sub)
  {
    IndexFromFirst(s, sub, 0);
  }

  /** When `sub` first occurs at `i`, that is what `strings.Index` reports. */
  lemma IndexOfAt(s: string, sub: string, i: int)
    requires OccursAt(s, sub, i) && NoOccurrenceBefore(s, sub, i)
    ensures IndexOf(s, sub) == i
  {
    IndexOfFirst(s, sub);
    assert Contains(s, sub);
  }

  /** `strings.Join`. */
  function Join(parts: seq<string>, sep: string): string {
    if |parts| == 0 then ""
    else if |parts| == 1 then parts[0]
    else parts[0] + sep + Join(parts[1..], sep)
  }

  /** Joining one more part adds the separator and that part at the end. */
  lemma {:induction false} JoinAppend(parts: seq<string>, x: string, sep: string)
    requires |parts| >= 1
    ensures Join(parts + [x], sep) == Join(parts, sep) + sep + x
  {
    if |parts| > 1 {
      assert (parts + [x])[1..] == parts[1..] + [x];
      JoinAppend(parts[1..], x, sep);
    }
  }

  /** A text contains every piece it is built around. */
  lemma ContainsInfix(a: string, sub: string, b: string)
    ensures Contains(a + sub + b, sub)
  {
    assert OccursAt(a + sub + b, sub, |a|) by {
      assert (a + sub + b)[|a|..|a| + |sub|] == sub;
    }
  }

  /** A one-character pattern is contained exactly when the character occurs. */
  lemma ContainsChar(s: string, c: char)
    ensures Contains(s, [c]) <==> c in s
  {
    forall k | 0 <= k < |s| ensures OccursAt(s, [c], k) <==> s[k] == c {
      assert s[k..k + 1] == [s[k]];
    }
    if c in s {
      var k :| 0 <= k < |s| && s[k] == c;
      assert OccursAt(s, [c], k);
    }
  }

  lemma NoOccurrenceInPrefix(s: string, sub: string, i: int)
    requires sub != [] && 0 <= i <= |s|
    requires NoOccurrenceBefore(s, sub, i)
    ensures !Contains(s[..i], sub)
  {
    forall k | 0 <= k <= i - |sub| ensures !OccursAt(s[..i], sub, k) {
      assert k < i && !OccursAt(s, sub, k);
      assert s[..i][k..k + |sub|] == s[k..k + |sub|];
    }
  }

  /**
   * `strings.Split` for a non-empty separator: the pieces between the
   * successive leftmost occurrences of `sep`.
   */
  function Split(s: string, sep: string): (parts: seq<string>)
    requires sep != []
    ensures |parts| >= 1
    decreases |s|
  {
    var i := IndexOf(s, sep);
    if i < 0 then [s] else [s[..i]] + Split(s[i + |sep|..], sep)
  }

  /** Joining the pieces back gives the string, and no piece holds the separator. */
  lemma {:induction false} SplitJoin(s: string, sep: string)
    requires sep != []
    ensures Join(Split(s, sep), sep) == s
    ensures forall j :: 0 <= j < |Split(s, sep)| ==> !Contains(Split(s, sep)[j], sep)
    decreases |s|
  {
    var i := IndexOf(s, sep);
    IndexOfFirst(s, sep);
    if i >= 0 {
      var head := s[..i];
      var tail := s[i + |sep|..];
      var rest := Split(tail, sep);
      assert Split(s, sep) == [head] + rest;
      assert !Contains(head, sep) by {
        NoOccurrenceInPrefix(s, sep, i);
      }
      SplitJoin(tail, sep);
      assert Join([head] + rest, sep) == head + sep + Join(rest, sep) by {
        assert ([head] + rest)[1..] == rest;
      }
      assert s == head + sep + tail;
    }
  }

  lemma {:induction false} SplitJoinChar(parts: seq<string>, c: char)
    requires |parts| >= 1
    requires forall i :: 0 <= i < |parts| ==> c !in parts[i]
    ensures Split(Join(parts, [c]), [c]) == parts
  {
    var s := Join(parts, [c]);
    var p0 := parts[0];
    assert c !in p0;
    if |parts| == 1 {
      assert !Contains(s, [c]) by {
        ContainsChar(s, c);
      }
      IndexOfFirst(s, [c]);
    } else {
      var rest := Join(parts[1..], [c]);
      assert s == p0 + [c] + rest;
      SplitAtFirstChar(p0, c, rest);
      assert forall i :: 0 <= i < |parts| - 1 ==> parts[1..][i] == parts[i + 1];
      SplitJoinChar(parts[1..], c);
      assert parts == [p0] + parts[1..];
    }
  }

  /** Splitting at a one-character separator cuts at its first occurrence. */
  lemma SplitAtFirstChar(p0: string, c: char, rest: string)
    requires c !in p0
    ensures Split(p0 + [c] + rest, [c]) == [p0] + Split(rest, [c])
  {
    var s := p0 + [c] + rest;
    assert s[..|p0|] == p0 && s[|p0| + 1..] == rest;
    assert OccursAt(s, [c], |p0|) by {
      assert s[|p0|..|p0| + 1] == [c];
    }
    assert NoOccurrenceBefore(s, [c], |p0|) by {
      forall k | 0 <= k < |p0| ensures !OccursAt(s, [c], k) {
        assert s[k..k + 1] == [p0[k]];
        assert p0[k] in p0;
      }
    }
    IndexOfAt(s, [c], |p0|);
  }

  /**
   * `strings.ReplaceAll` for a non-empty pattern: every leftmost,
   * non-overlapping occurrence of `pattern` is replaced by `replacement`.
   */
  function ReplaceAll(s: string, pattern: string, replacement: string): (r: string)
    requires pattern != []
    ensures !Contains(s, pattern) ==> r == s
    decreases |s|
  {
    var i := IndexOf(s, pattern);
    if i < 0 then s else s[..i] + replacement + ReplaceAll(s[i + |pattern|..], pattern, replacement)
  }

  /** A text that does not contain `sub` does not start with it. */
  lemma NotContainsNoPrefix(s: string, sub: string)
    requires !Contains(s, sub)
    ensures !HasPrefix(s, sub)
  {
    assert !OccursAt(s, sub, 0);
  }

  /** A text that does not contain `sub` has no tail that does. */
  lemma NotContainsTail(s: string, sub: string)
    requires s != [] && !Contains(s, sub)
    ensures !Contains(s[1..], sub)
  {
    forall k | 0 <= k <= |s| - 1 - |sub| ensures !OccursAt(s[1..], sub, k) {
      assert !OccursAt(s, sub, k + 1);
      assert s[1..][k..k + |sub|] == s[k + 1..k + 1 + |sub|];
    }
  }

  /** A text that contains `sub` contains its first character. */
  lemma NotContainsSuffix(s: string, sub: string, i: int)
    requires 0 <= i <= |s| && !Contains(s, sub)
    ensures !Contains(s[i..], sub)
  {
    forall k | 0 <= k <= |s| - i - |sub| ensures !OccursAt(s[i..], sub, k) {
      assert s[i..][k..k + |sub|] == s[i + k..i + k + |sub|];
      assert !OccursAt(s, sub, i + k);
    }
  }

  /** Appending text keeps every occurrence. */
  lemma ContainsExtend(s: string, t: string, sub: string)
    requires Contains(s, sub)
    ensures Contains(s + t, sub)
  {
    var k :| 0 <= k <= |s| - |sub| && OccursAt(s, sub, k);
    assert (s + t)[k..k + |sub|] == s[k..k + |sub|];
    assert OccursAt(s + t, sub, k);
  }

  lemma ContainsFirstChar(s: string, sub: string)
    requires sub != [] && Contains(s, sub)
    ensures sub[0] in s
  {
    var k :| 0 <= k <= |s| - |sub| && OccursAt(s, sub, k);
    assert s[k..k + |sub|][0] == s[k];
  }

  /**
   * When the first occurrence of `pattern` is at `i` and no occurrence
   * follows it, `strings.ReplaceAll` replaces just that one.
   */
  lemma ReplaceAllOnce(s: string, pattern: string, replacement: string, i: int)
    requires pattern != []
    requires OccursAt(s, pattern, i) && NoOccurrenceBefore(s, pattern, i)
    requires !Contains(s[i + |pattern|..], pattern)
    ensures ReplaceAll(s, pattern, replacement) == s[..i] + replacement + s[i + |pattern|..]
  {
    IndexOfAt(s, pattern, i);
  }

  predicate IsLowerAscii(c: char) { 'a' <= c <= 'z' }

  /** `strings.ToUpper`, restricted to the ASCII letters. */
  function ToUpper(s: string): (r: string)
    ensures |r| == |s|
    ensures forall i :: 0 <= i < |s| && !IsLowerAscii(s[i]) ==> r[i] == s[i]
    ensures forall i :: 0 <= i < |r| ==> !IsLowerAscii(r[i])
  {
    if s == [] then []
    else [if IsLowerAscii(s[0]) then (s[0] as int - 32) as char else s[0]] + ToUpper(s[1..])
  }
}
