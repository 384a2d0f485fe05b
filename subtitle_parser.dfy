/**
 * The caption decoders of the YouTube client (`SubtitleParser`): JSON3
 * events/segments, SubRip and a loose WebVTT reader, and the cleaner applied
 * to what they produce.
 *
 * Each decoder appends pieces followed by one space to a builder and trims the
 * result at the end. The decoders are methods with exactly those loops; each is
 * proved equal to a specification function over the whole input, and the
 * properties of the output are proved about those functions.
 */
module SubtitleParser {
  import opened Wrappers
  import opened Strings
  import opened JsonValue
  import opened Decimal

  // ---------------------------------------------------------------------------
  // The builder: every piece followed by one space
  // ---------------------------------------------------------------------------

  /** What a builder holds after writing each piece and then a space. */
  function Spaced(pieces: seq<string>): string {
    if pieces == [] then "" else Spaced(pieces[..|pieces| - 1]) + pieces[|pieces| - 1] + " "
  }

  /** Trimming the builder's text is trimming the pieces joined by single spaces. */
  lemma {:induction false} TrimSpacedIsTrimJoin(pieces: seq<string>)
    ensures TrimSpace(Spaced(pieces)) == TrimSpace(Join(pieces, " "))
  {
    if pieces != [] {
      SpacedIsJoinPlusSpace(pieces);
      TrimSpaceAppendSpace(Join(pieces, " "), ' ');
    }
  }

  lemma {:induction false} SpacedIsJoinPlusSpace(pieces: seq<string>)
    requires pieces != []
    ensures Spaced(pieces) == Join(pieces, " ") + " "
  {
    var n := |pieces|;
    if n > 1 {
      SpacedIsJoinPlusSpace(pieces[..n - 1]);
      JoinAppend(pieces[..n - 1], pieces[n - 1], " ");
      assert pieces[..n - 1] + [pieces[n - 1]] == pieces;
    }
  }

  lemma SpacedSnoc(pieces: seq<string>, x: string)
    ensures Spaced(pieces + [x]) == Spaced(pieces) + x + " "
  {
    assert (pieces + [x])[..|pieces|] == pieces;
  }

  lemma SpacedAppend(pieces: seq<string>, more: seq<string>, x: string)
    ensures Spaced(pieces + more + [x]) == Spaced(pieces + more) + x + " "
  {
    assert (pieces + more + [x])[..|pieces + more|] == pieces + more;
  }

  // ---------------------------------------------------------------------------
  // JSON3
  // ---------------------------------------------------------------------------

  /** Decodes every element with `f`; fails when any element fails. */
  function MapOption<A, B>(xs: seq<A>, f: A -> Option<B>): (r: Option<seq<B>>)
    ensures r.Some? <==> forall i :: 0 <= i < |xs| ==> f(xs[i]).Some?
    ensures r.Some? ==> |r.value| == |xs| && forall i :: 0 <= i < |xs| ==> r.value[i] == f(xs[i]).value
  {
    if xs == [] then Some([])
    else
      var head := f(xs[0]);
      var tail := MapOption(xs[1..], f);
      assert forall i :: 0 <= i < |xs| - 1 ==> xs[1..][i] == xs[i + 1];
      if head.Some? && tail.Some? then Some([head.value] + tail.value) else None
  }

  /** The results of `f` that are present, in the order of `xs`. */
  function FilterMap<A, B>(xs: seq<A>, f: A -> Option<B>): seq<B> {
    if xs == [] then []
    else FilterMap(xs[..|xs| - 1], f) + (if f(xs[|xs| - 1]).Some? then [f(xs[|xs| - 1]).value] else [])
  }

  lemma FilterMapSnoc<A, B>(xs: seq<A>, x: A, f: A -> Option<B>)
    ensures FilterMap(xs + [x], f) == if f(x).Some? then FilterMap(xs, f) + [f(x).value] else FilterMap(xs, f)
  {
    assert (xs + [x])[..|xs|] == xs;
  }

  /** `FilterMap` keeps exactly the results `f` gives. */
  lemma {:induction false} FilterMapMember<A, B>(xs: seq<A>, f: A -> Option<B>, y: B)
    ensures y in FilterMap(xs, f) <==> exists x :: x in xs && f(x) == Some(y)
    decreases |xs|
  {
    if xs != [] {
      var init := xs[..|xs| - 1];
      FilterMapMember(init, f, y);
      if exists x :: x in xs && f(x) == Some(y) {
        var x :| x in xs && f(x) == Some(y);
        var i :| 0 <= i < |xs| && xs[i] == x;
        if i < |xs| - 1 {
          assert init[i] == x;
        }
      }
      if exists x :: x in init && f(x) == Some(y) {
        var x :| x in init && f(x) == Some(y);
        var i :| 0 <= i < |init| && init[i] == x;
        assert xs[i] == x;
      }
    }
  }

  /** When `f` gives a result for every element, `FilterMap` is those results in order. */
  lemma {:induction false} FilterMapAllSome<A, B>(xs: seq<A>, ys: seq<B>, f: A -> Option<B>)
    requires |xs| == |ys|
    requires forall i :: 0 <= i < |xs| ==> f(xs[i]) == Some(ys[i])
    ensures FilterMap(xs, f) == ys
  {
    if xs != [] {
      var n := |xs|;
      assert forall i :: 0 <= i < n - 1 ==> xs[..n - 1][i] == xs[i];
      FilterMapAllSome(xs[..n - 1], ys[..n - 1], f);
      assert ys == ys[..n - 1] + [ys[n - 1]];
    }
  }

  /**
   * A segment decoded into `struct{ UTF8 string }`: `null` (for the segment
   * or for its `utf8`) leaves the empty string, other fields are ignored and a
   * value of the wrong type is an error.
   */
  function DecodeSegment(j: Json): Option<string> {
    match j
    case JNull => Some("")
    case JObject(_) =>
      (match Field(j, "utf8")
       case JNull => Some("")
       case JString(t) => Some(t)
       case _ => None)
    case _ => None
  }

  /** An event decoded into `struct{ Segs []... }`: its segments' texts. */
  function DecodeEvent(j: Json): Option<seq<string>> {
    match j
    case JNull => Some([])
    case JObject(_) =>
      (match Field(j, "segs")
       case JNull => Some([])
       case JArray(items) => MapOption(items, DecodeSegment)
       case _ => None)
    case _ => None
  }

  /** The whole JSON3 document: for each event, the texts of its segments. */
  function DecodeJson3(doc: Json): Option<seq<seq<string>>> {
    match doc
    case JNull => Some([])
    case JObject(_) =>
      (match Field(doc, "events")
       case JNull => Some([])
       case JArray(items) => MapOption(items, DecodeEvent)
       case _ => None)
    case _ => None
  }

  predicate KeepSegment(t: string) { t != "" && t != "\n" }

  /** The segment texts of one event that the decoder writes, in order. */
  function KeptTexts(segs: seq<string>): seq<string> {
    if segs == [] then []
    else KeptTexts(segs[..|segs| - 1]) + (if KeepSegment(segs[|segs| - 1]) then [segs[|segs| - 1]] else [])
  }

  /** The segment texts of all events that the decoder writes, event by event. */
  function KeptSegments(events: seq<seq<string>>): seq<string> {
    if events == [] then [] else KeptSegments(events[..|events| - 1]) + KeptTexts(events[|events| - 1])
  }

  /** A text is written for an event exactly when it is one of its segments and is kept. */
  lemma {:induction false} KeptTextsMembers(segs: seq<string>)
    ensures forall t :: t in KeptTexts(segs) <==> t in segs && KeepSegment(t)
  {
    if segs != [] {
      var n := |segs|;
      KeptTextsMembers(segs[..n - 1]);
      assert segs == segs[..n - 1] + [segs[n - 1]];
    }
  }

  /**
   * A text is written for a document exactly when it is a kept segment of one
   * of its events: nothing but `""` and `"\n"` is dropped.
   */
  lemma {:induction false} KeptSegmentsMembers(events: seq<seq<string>>)
    ensures forall t :: t in KeptSegments(events) <==> KeepSegment(t) && exists e :: e in events && t in e
  {
    if events != [] {
      var n := |events|;
      KeptSegmentsMembers(events[..n - 1]);
      KeptTextsMembers(events[n - 1]);
      assert events == events[..n - 1] + [events[n - 1]];
    }
  }

  lemma KeptTextsStep(segs: seq<string>, j: nat)
    requires j < |segs|
    ensures KeptTexts(segs[..j + 1]) == KeptTexts(segs[..j]) + (if KeepSegment(segs[j]) then [segs[j]] else [])
  {
    assert segs[..j + 1][..j] == segs[..j];
  }

  /** Writing segment `j` (or skipping it) keeps the builder in step with the specification. */
  lemma WriteSegmentStep(before: seq<string>, segs: seq<string>, j: nat)
    requires j < |segs|
    ensures Spaced(before + KeptTexts(segs[..j + 1]))
         == if KeepSegment(segs[j]) then Spaced(before + KeptTexts(segs[..j])) + segs[j] + " "
            else Spaced(before + KeptTexts(segs[..j]))
  {
    KeptTextsStep(segs, j);
    if KeepSegment(segs[j]) {
      SpacedAppend(before, KeptTexts(segs[..j]), segs[j]);
      assert before + KeptTexts(segs[..j + 1]) == before + KeptTexts(segs[..j]) + [segs[j]];
    } else {
      assert KeptTexts(segs[..j + 1]) == KeptTexts(segs[..j]);
    }
  }

  lemma KeptSegmentsStep(events: seq<seq<string>>, i: nat)
    requires i < |events|
    ensures KeptSegments(events[..i + 1]) == KeptSegments(events[..i]) + KeptTexts(events[i])
  {
    assert events[..i + 1][..i] == events[..i];
  }

  /** What `ParseJSON3` makes of a document, or `None` where it fails. */
  function Json3Transcript(data: Option<Json>): Option<string> {
    if data.Some? && DecodeJson3(data.value).Some? then Some(TrimSpace(Join(KeptSegments(DecodeJson3(data.value).value), " ")))
    else None
  }

  /**
   * `ParseJSON3`. `data` is the document as decoded JSON, or `None` when the
   * bytes are not JSON at all. It fails exactly when the bytes do not decode
   * as the events/segments structure; otherwise the kept segment texts are
   * joined by single spaces and trimmed.
   */
  method ParseJSON3(data: Option<Json>) returns (r: Result<string, string>)
    ensures r.Failure? <==> data.None? || DecodeJson3(data.value).None?
    ensures r.Success? ==> r.value == TrimSpace(Join(KeptSegments(DecodeJson3(data.value).value), " "))
    ensures r.Success? <==> Json3Transcript(data).Some?
    ensures r.Success? ==> r.value == Json3Transcript(data).value
  {
    if data.None? {
      return Failure("failed to parse JSON3: invalid JSON");
    }
    var decoded := DecodeJson3(data.value);
    if decoded.None? {
      return Failure("failed to parse JSON3: type mismatch");
    }
    var events := decoded.value;
    var text := "";
    for i := 0 to |events|
      invariant text == Spaced(KeptSegments(events[..i]))
    {
      var segs := events[i];
      ghost var before := KeptSegments(events[..i]);
      assert before + KeptTexts(segs[..0]) == before;
      for j := 0 to |segs|
        invariant text == Spaced(before + KeptTexts(segs[..j]))
      {
        WriteSegmentStep(before, segs, j);
        if KeepSegment(segs[j]) {
          text := text + segs[j] + " ";
        }
      }
      assert segs[..|segs|] == segs;
      KeptSegmentsStep(events, i);
    }
    assert events[..|events|] == events;
    TrimSpacedIsTrimJoin(KeptSegments(events));
    return Success(TrimSpace(text));
  }

  // ---------------------------------------------------------------------------
  // SubRip
  // ---------------------------------------------------------------------------

  /**
   * The text of one SubRip block: the block is trimmed and cut into lines; a
   * block of at least three lines gives its lines after the sequence number
   * and the timing line, joined by single spaces, and a shorter one gives
   * nothing.
   */
  function SrtBlockText(block: string): Option<string> {
    var lines := Split(TrimSpace(block), "\n");
    if |lines| >= 3 then Some(Join(lines[2..], " ")) else None
  }

  /** The texts the blocks contribute, in order. */
  function SrtTexts(blocks: seq<string>): seq<string> {
    FilterMap(blocks, SrtBlockText)
  }

  /** What `ParseSRT` makes of a whole document. */
  function SrtTranscript(data: string): string {
    TrimSpace(Join(SrtTexts(Split(data, "\n\n")), " "))
  }

  /** Writing block `b`'s text lines (or nothing) keeps the builder in step with `SrtTexts`. */
  lemma WriteSrtBlockStep(blocks: seq<string>, b: nat)
    requires b < |blocks|
    ensures var lines := Split(TrimSpace(blocks[b]), "\n");
      Spaced(SrtTexts(blocks[..b + 1]))
      == if |lines| >= 3 then Spaced(SrtTexts(blocks[..b])) + Join(lines[2..], " ") + " " else Spaced(SrtTexts(blocks[..b]))
  {
    assert blocks[..b + 1] == blocks[..b] + [blocks[b]];
    FilterMapSnoc(blocks[..b], blocks[b], SrtBlockText);
    var t := SrtBlockText(blocks[b]);
    if t.Some? {
      SpacedSnoc(SrtTexts(blocks[..b]), t.value);
    }
  }

  /**
   * `ParseSRT`: the document is cut into blocks at blank lines and each block
   * contributes its text lines. It never fails and its text is trimmed.
   */
  method ParseSRT(data: string) returns (r: Result<string, string>)
    ensures r == Success(SrtTranscript(data))
    ensures r.Success? && Trimmed(r.value)
  {
    var blocks := Split(data, "\n\n");
    var text := "";
    for b := 0 to |blocks|
      invariant text == Spaced(SrtTexts(blocks[..b]))
    {
      WriteSrtBlockStep(blocks, b);
      var lines := Split(TrimSpace(blocks[b]), "\n");
      if |lines| >= 3 {
        var subtitleText := Join(lines[2..], " ");
        text := text + subtitleText + " ";
      }
    }
    assert blocks[..|blocks|] == blocks;
    TrimSpacedIsTrimJoin(SrtTexts(blocks));
    return Success(TrimSpace(text));
  }

  // A well-formed SubRip document, and what the decoder makes of it.

  /** A line holding something, with no line break and no white space at its ends. */
  predicate IsTextLine(l: string) {
    l != [] && '\n' !in l && Trimmed(l)
  }

  /** Each cue written as its lines separated by line breaks. */
  function CueBlocks(cues: seq<seq<string>>): (r: seq<string>)
    ensures |r| == |cues| && forall i :: 0 <= i < |cues| ==> r[i] == Join(cues[i], "\n")
  {
    if cues == [] then [] else CueBlocks(cues[..|cues| - 1]) + [Join(cues[|cues| - 1], "\n")]
  }

  /** Each cue's text lines (all but the first two) joined by single spaces. */
  function CueTexts(cues: seq<seq<string>>): (r: seq<string>)
    requires forall i :: 0 <= i < |cues| ==> |cues[i]| >= 2
    ensures |r| == |cues| && forall i :: 0 <= i < |cues| ==> r[i] == Join(cues[i][2..], " ")
  {
    if cues == [] then [] else CueTexts(cues[..|cues| - 1]) + [Join(cues[|cues| - 1][2..], " ")]
  }

  /** No blank line: no line break is followed by another. */
  predicate NoBlankLine(s: string) {
    forall k :: 0 <= k < |s| - 1 ==> !(s[k] == '\n' && s[k + 1] == '\n')
  }

  lemma NoBlankLineJoin(a: string, b: string)
    requires NoBlankLine(a) && NoBlankLine(b)
    requires a != [] && a[|a| - 1] != '\n' && b != [] && b[0] != '\n'
    ensures NoBlankLine(a + "\n" + b)
  {
    var s := a + "\n" + b;
    forall k | 0 <= k < |s| - 1 ensures !(s[k] == '\n' && s[k + 1] == '\n') {
      if k < |a| - 1 {
        assert s[k] == a[k] && s[k + 1] == a[k + 1];
      } else if k == |a| - 1 {
        assert s[k] == a[k];
      } else if k == |a| {
        assert s[k + 1] == b[0];
      } else {
        assert s[k] == b[k - |a| - 1] && s[k + 1] == b[k - |a|];
      }
    }
  }

  /** Lines joined by single line breaks hold no blank line and keep their ends. */
  lemma {:induction false} JoinLinesShape(lines: seq<string>)
    requires |lines| >= 1 && forall i :: 0 <= i < |lines| ==> IsTextLine(lines[i])
    requires lines[0] != [] && lines[|lines| - 1] != []
    ensures Join(lines, "\n") != [] && Join(lines, "\n")[0] == lines[0][0]
    ensures Join(lines, "\n")[|Join(lines, "\n")| - 1] == lines[|lines| - 1][|lines[|lines| - 1]| - 1]
    ensures NoBlankLine(Join(lines, "\n"))
    decreases |lines|
  {
    var l0 := lines[0];
    assert IsTextLine(l0) && IsTextLine(lines[|lines| - 1]);
    if |lines| == 1 {
      forall k | 0 <= k < |l0| - 1 ensures !(l0[k] == '\n' && l0[k + 1] == '\n') {
        assert l0[k] in l0;
      }
    } else {
      assert lines[1..][|lines[1..]| - 1] == lines[|lines| - 1];
      assert forall i :: 0 <= i < |lines| - 1 ==> lines[1..][i] == lines[i + 1];
      JoinLinesShape(lines[1..]);
      JoinLinesShape([l0]);
      assert IsTextLine(lines[1..][0]);
      NoBlankLineJoin(l0, Join(lines[1..], "\n"));
    }
  }

  /** Occurrences of a blank line are exactly the places where two line breaks meet. */
  lemma NoBlankLineNotContains(s: string)
    requires NoBlankLine(s)
    ensures !Contains(s, "\n\n")
  {
    forall k | 0 <= k <= |s| - 2 ensures !OccursAt(s, "\n\n", k) {
      assert s[k..k + 2][0] == s[k] && s[k..k + 2][1] == s[k + 1];
    }
  }

  /** Blocks with no blank line inside, joined by blank lines, split back into those blocks. */
  lemma {:induction false} SplitJoinBlankLine(blocks: seq<string>)
    requires |blocks| >= 1
    requires forall i :: 0 <= i < |blocks| ==> NoBlankLine(blocks[i])
    requires forall i :: 0 <= i < |blocks| - 1 ==> blocks[i] != [] && blocks[i][|blocks[i]| - 1] != '\n'
    ensures Split(Join(blocks, "\n\n"), "\n\n") == blocks
  {
    var s := Join(blocks, "\n\n");
    var b0 := blocks[0];
    if |blocks| == 1 {
      NoBlankLineNotContains(b0);
      IndexOfFirst(s, "\n\n");
    } else {
      var rest := Join(blocks[1..], "\n\n");
      assert s == b0 + "\n\n" + rest;
      SplitAtFirstBlankLine(b0, rest);
      assert forall i :: 0 <= i < |blocks| - 1 ==> blocks[1..][i] == blocks[i + 1];
      SplitJoinBlankLine(blocks[1..]);
      assert blocks == [b0] + blocks[1..];
    }
  }

  /** Splitting at blank lines cuts after a first block that holds none and does not end a line. */
  lemma SplitAtFirstBlankLine(b0: string, rest: string)
    requires NoBlankLine(b0) && b0 != [] && b0[|b0| - 1] != '\n'
    ensures Split(b0 + "\n\n" + rest, "\n\n") == [b0] + Split(rest, "\n\n")
  {
    var s := b0 + "\n\n" + rest;
    assert s[..|b0|] == b0 && s[|b0| + 2..] == rest;
    assert OccursAt(s, "\n\n", |b0|) by {
      assert s[|b0|..|b0| + 2] == "\n\n";
    }
    assert NoOccurrenceBefore(s, "\n\n", |b0|) by {
      forall k | 0 <= k < |b0| ensures !OccursAt(s, "\n\n", k) {
        assert s[k..k + 2][0] == s[k] && s[k..k + 2][1] == s[k + 1];
        assert s[k] == b0[k];
        if k < |b0| - 1 {
          assert s[k + 1] == b0[k + 1];
        }
      }
    }
    IndexOfAt(s, "\n\n", |b0|);
  }

  /** A block whose trimmed form is the given lines contributes the lines after the second. */
  lemma SrtBlockTextOfLines(block: string, lines: seq<string>)
    requires |lines| >= 3 && forall i :: 0 <= i < |lines| ==> '\n' !in lines[i]
    requires TrimSpace(block) == Join(lines, "\n")
    ensures SrtBlockText(block) == Some(Join(lines[2..], " "))
  {
    SplitJoinChar(lines, '\n');
  }

  /** The block of a well-formed cue is already trimmed, and so is it with a line break after it. */
  lemma CueBlockTrimmed(lines: seq<string>)
    requires |lines| >= 1 && forall i :: 0 <= i < |lines| ==> IsTextLine(lines[i])
    ensures TrimSpace(Join(lines, "\n")) == Join(lines, "\n")
    ensures TrimSpace(Join(lines, "\n") + "\n") == Join(lines, "\n")
  {
    JoinLinesShape(lines);
    TrimSpaceOfTrimmed(Join(lines, "\n"));
    TrimSpaceAppendSpace(Join(lines, "\n"), '\n');
  }

  /** The text a well-formed cue contributes, with or without a line break after it. */
  lemma SrtBlockTextOfCue(lines: seq<string>)
    requires |lines| >= 3 && forall i :: 0 <= i < |lines| ==> IsTextLine(lines[i])
    ensures SrtBlockText(Join(lines, "\n")) == Some(Join(lines[2..], " "))
    ensures SrtBlockText(Join(lines, "\n") + "\n") == Some(Join(lines[2..], " "))
  {
    CueBlockTrimmed(lines);
    SrtBlockTextOfLines(Join(lines, "\n"), lines);
    SrtBlockTextOfLines(Join(lines, "\n") + "\n", lines);
  }

  /** A document of well-formed cues splits at blank lines into the cues' blocks. */
  lemma CueDocumentSplits(cues: seq<seq<string>>, tail: string)
    requires |cues| >= 1 && (forall i :: 0 <= i < |cues| ==> |cues[i]| >= 3)
    requires forall i, j :: 0 <= i < |cues| && 0 <= j < |cues[i]| ==> IsTextLine(cues[i][j])
    requires tail == "" || tail == "\n"
    ensures var full := CueBlocks(cues);
      Split(Join(full, "\n\n") + tail, "\n\n") == full[..|cues| - 1] + [full[|cues| - 1] + tail]
  {
    var n := |cues|;
    var full := CueBlocks(cues);
    var blocks := full[..n - 1] + [full[n - 1] + tail];
    forall i | 0 <= i < n ensures NoBlankLine(full[i]) && full[i] != [] && full[i][|full[i]| - 1] != '\n' {
      JoinLinesShape(cues[i]);
    }
    forall i | 0 <= i < n ensures NoBlankLine(blocks[i]) {
      if i == n - 1 {
        var b := full[n - 1];
        assert blocks[i] == b + tail;
        forall k | 0 <= k < |b + tail| - 1 ensures !((b + tail)[k] == '\n' && (b + tail)[k + 1] == '\n') {
          if k < |b| - 1 {
            assert (b + tail)[k] == b[k] && (b + tail)[k + 1] == b[k + 1];
          } else {
            assert (b + tail)[k] == b[k];
          }
        }
      }
    }
    SplitJoinBlankLine(blocks);
    JoinLastExtended(full, tail, "\n\n");
  }

  /**
   * A well-formed SubRip document (cues separated by blank lines, optionally
   * ending in a line break) decodes to the cues' text lines, all joined by
   * single spaces: sequence numbers and timing lines are dropped, and the lines
   * of a multi-line cue are joined with spaces.
   */
  lemma SrtOfCues(cues: seq<seq<string>>, newlineAtEnd: bool)
    requires |cues| >= 1 && (forall i :: 0 <= i < |cues| ==> |cues[i]| >= 3)
    requires forall i, j :: 0 <= i < |cues| && 0 <= j < |cues[i]| ==> IsTextLine(cues[i][j])
    ensures SrtTranscript(Join(CueBlocks(cues), "\n\n") + (if newlineAtEnd then "\n" else ""))
         == TrimSpace(Join(CueTexts(cues), " "))
  {
    var n := |cues|;
    var tail := if newlineAtEnd then "\n" else "";
    var full := CueBlocks(cues);
    var blocks := full[..n - 1] + [full[n - 1] + tail];
    assert Split(Join(full, "\n\n") + tail, "\n\n") == blocks by {
      CueDocumentSplits(cues, tail);
    }
    assert SrtTexts(blocks) == CueTexts(cues) by {
      forall i | 0 <= i < n ensures SrtBlockText(blocks[i]) == Some(CueTexts(cues)[i]) {
        SrtBlockTextOfCue(cues[i]);
        if i == n - 1 && !newlineAtEnd {
          assert blocks[i] == full[i];
        }
      }
      FilterMapAllSome(blocks, CueTexts(cues), SrtBlockText);
    }
  }

  lemma {:induction false} JoinLastExtended(parts: seq<string>, tail: string, sep: string)
    requires |parts| >= 1
    ensures Join(parts[..|parts| - 1] + [parts[|parts| - 1] + tail], sep) == Join(parts, sep) + tail
  {
    if |parts| > 1 {
      var n := |parts|;
      assert (parts[..n - 1] + [parts[n - 1] + tail])[1..] == parts[1..][..n - 2] + [parts[1..][n - 2] + tail];
      JoinLastExtended(parts[1..], tail, sep);
    }
  }

  // ---------------------------------------------------------------------------
  // WebVTT
  // ---------------------------------------------------------------------------

  /** `(?i)WEBVTT`: the six characters spell WEBVTT in any mix of cases. */
  predicate IsWebVttWord(w: string) {
    |w| == 6 && ToUpper(w) == "WEBVTT"
  }

  /**
   * Where a match of `(?i)^WEBVTT[^\n]*\n` ends: the pattern is anchored at the
   * start of the text only, and runs to the first line break.
   */
  function HeaderEnd(s: string): (e: Option<nat>)
    ensures e.Some? <==> |s| >= 6 && IsWebVttWord(s[..6]) && '\n' in s[6..]
    ensures e.Some? ==> 7 <= e.value <= |s| && s[e.value - 1] == '\n' && '\n' !in s[6..e.value - 1]
  {
    if |s| >= 6 && IsWebVttWord(s[..6]) then
      var k := IndexOf(s[6..], "\n");
      IndexOfFirst(s[6..], "\n");
      ContainsChar(s[6..], '\n');
      if k < 0 then None
      else
        assert s[6..][k..k + 1] == "\n";
        assert '\n' !in s[6..][..k] by {
          forall j | 0 <= j < k ensures s[6..][j] != '\n' {
            assert !OccursAt(s[6..], "\n", j);
            assert s[6..][j..j + 1] == [s[6..][j]];
          }
        }
        assert s[6..6 + k] == s[6..][..k];
        Some(6 + k + 1)
    else None
  }

  /** Removing the header line. */
  function StripHeader(s: string): string {
    match HeaderEnd(s)
    case Some(e) => s[e..]
    case None => s
  }

  /** A header line in any case, with anything after `WEBVTT` on its line, is removed and nothing else is. */
  lemma StripHeaderLine(w: string, rest: string, body: string)
    requires IsWebVttWord(w) && '\n' !in rest
    ensures StripHeader(w + rest + "\n" + body) == body
  {
    var s := w + rest + "\n" + body;
    var t := s[6..];
    assert s[..6] == w;
    assert t == rest + "\n" + body;
    assert OccursAt(t, "\n", |rest|) by {
      assert t[|rest|..|rest| + 1] == [t[|rest|]];
    }
    assert NoOccurrenceBefore(t, "\n", |rest|) by {
      forall k | 0 <= k < |rest| ensures !OccursAt(t, "\n", k) {
        assert t[k..k + 1] == [rest[k]];
      }
    }
    IndexOfAt(t, "\n", |rest|);
    assert s[6 + |rest| + 1..] == body;
  }

  /** Only a header at the very start is removed: text before `WEBVTT` keeps it. */
  lemma StripHeaderOnlyAtStart(s: string)
    requires s != [] && s[0] != 'W' && s[0] != 'w'
    ensures StripHeader(s) == s
  {
    if |s| >= 6 {
      assert ToUpper(s[..6])[0] != 'W';
    }
  }

  /** `(?m)^NOTE.*$` blanks a line that starts with `NOTE`, up to its line break. */
  function BlankNote(line: string): string {
    if HasPrefix(line, "NOTE") then "" else line
  }

  /** Every line blanked or kept by `BlankNote`, line breaks kept. */
  function BlankNoteLines(s: string): string {
    var lines := Split(s, "\n");
    Join(seq(|lines|, i requires 0 <= i < |lines| => BlankNote(lines[i])), "\n")
  }

  /**
   * The text keeps its lines: line `i` is empty when the original line `i`
   * starts with `NOTE`, and is the original line otherwise.
   */
  lemma BlankNoteLinesLines(s: string)
    ensures var before := Split(s, "\n");
      var after := Split(BlankNoteLines(s), "\n");
      |after| == |before| &&
      forall i :: 0 <= i < |before| ==> after[i] == (if HasPrefix(before[i], "NOTE") then "" else before[i])
  {
    var lines := Split(s, "\n");
    var blanked := seq(|lines|, i requires 0 <= i < |lines| => BlankNote(lines[i]));
    SplitJoin(s, "\n");
    forall i | 0 <= i < |blanked| ensures '\n' !in blanked[i] {
      ContainsChar(lines[i], '\n');
    }
    SplitJoinChar(blanked, '\n');
  }

  /** RE2's `\s`: tab, line feed, form feed, carriage return and space. */
  predicate IsReSpace(c: char) {
    c == '\t' || c == '\n' || c == '\U{000C}' || c == '\r' || c == ' '
  }

  /** The length of the longest prefix of `s` made of `\s` characters. */
  function ReSpaceRun(s: string): (k: nat)
    ensures k <= |s|
    ensures forall i :: 0 <= i < k ==> IsReSpace(s[i])
    ensures k == |s| || !IsReSpace(s[k])
  {
    if s == [] || !IsReSpace(s[0]) then 0 else 1 + ReSpaceRun(s[1..])
  }

  /**
   * Trying `STYLE\s*\n.*?\n\n` at the start of `s` with `\s*` taking `l`
   * characters, then fewer: the first choice for which a line feed follows
   * and a blank line comes later wins, and `.*?` stops at the first blank line.
   */
  function StyleTry(s: string, l: nat): (e: Option<nat>)
    requires 5 + l <= |s|
    ensures e.Some? ==> 8 <= e.value <= |s|
    decreases l
  {
    if 5 + l < |s| && s[5 + l] == '\n' && IndexOf(s[5 + l + 1..], "\n\n") >= 0 then
      Some(5 + l + 1 + IndexOf(s[5 + l + 1..], "\n\n") + 2)
    else if l == 0 then None
    else StyleTry(s, l - 1)
  }

  /** Where a match of `(?s)STYLE\s*\n.*?\n\n` starting at the beginning of `s` ends, if there is one. */
  function StyleMatch(s: string): (e: Option<nat>)
    ensures e.Some? ==> HasPrefix(s, "STYLE") && 8 <= e.value <= |s|
  {
    if HasPrefix(s, "STYLE") then StyleTry(s, ReSpaceRun(s[5..])) else None
  }

  /** Removes every match of `(?s)STYLE\s*\n.*?\n\n`, scanning left to right. */
  function StripStyleBlocks(s: string): string
    decreases |s|
  {
    if s == [] then []
    else match StyleMatch(s)
      case Some(e) => StripStyleBlocks(s[e..])
      case None => [s[0]] + StripStyleBlocks(s[1..])
  }

  /** Text without the word `STYLE` passes through unchanged. */
  lemma {:induction false} StripStyleBlocksNoStyle(s: string)
    requires !Contains(s, "STYLE")
    ensures StripStyleBlocks(s) == s
    decreases |s|
  {
    if s != [] {
      NotContainsNoPrefix(s, "STYLE");
      NotContainsTail(s, "STYLE");
      StripStyleBlocksNoStyle(s[1..]);
    }
  }

  /**
   * A style block `STYLE`, a line feed, a body and a blank line is removed
   * with its blank line, when the body does not start with white space and
   * holds no blank line of its own.
   */
  lemma StyleBlockRemoved(body: string, rest: string)
    requires body != [] && !IsReSpace(body[0])
    requires !Contains(body + "\n", "\n\n")
    ensures StripStyleBlocks("STYLE\n" + body + "\n\n" + rest) == StripStyleBlocks(rest)
  {
    var s := "STYLE\n" + body + "\n\n" + rest;
    var t := body + "\n\n" + rest;
    assert s[..5] == "STYLE";
    assert s[5..] == "\n" + t;
    assert ReSpaceRun(s[5..]) == 1 by {
      assert s[5..][1..] == t;
    }
    assert s[6..] == t;
    assert OccursAt(t, "\n\n", |body|) by {
      assert t[|body|..|body| + 2] == "\n\n";
    }
    assert NoOccurrenceBefore(t, "\n\n", |body|) by {
      forall k | 0 <= k < |body| ensures !OccursAt(t, "\n\n", k) {
        assert !OccursAt(body + "\n", "\n\n", k);
        assert t[k..k + 2] == (body + "\n")[k..k + 2];
      }
    }
    IndexOfAt(t, "\n\n", |body|);
    assert s[|body| + 8..] == rest;
  }

  /**
   * No `<` is followed by a `>` later on unless the very next character is
   * `>`: the text holds no match of `<[^>]+>`.
   */
  ghost predicate NoTag(s: string) {
    forall i, j :: 0 <= i < |s| && j == i + 1 && s[i] == '<' ==> (j < |s| && s[j] == '>') || '>' !in s[j..]
  }

  /**
   * Removes every match of `<[^>]+>` left to right: a `<` followed, after at
   * least one other character, by a `>` starts a tag that runs to the first
   * such `>`.
   */
  function StripTags(s: string): (r: string)
    ensures |r| <= |s|
    ensures s != [] && s[0] != '<' ==> r != [] && r[0] == s[0]
    decreases |s|
  {
    if s == [] then []
    else
      var j := IndexOf(s[1..], ">");
      if s[0] == '<' && j >= 1 then StripTags(s[j + 2..]) else [s[0]] + StripTags(s[1..])
  }

  /** A character put in front of tag-free text keeps it tag-free unless it opens a tag. */
  lemma NoTagCons(c: char, rest: string)
    requires NoTag(rest)
    requires c == '<' ==> (rest != [] && rest[0] == '>') || '>' !in rest
    ensures NoTag([c] + rest)
  {
    var t := [c] + rest;
    forall i, j | 0 <= i < |t| && j == i + 1 && t[i] == '<' ensures (j < |t| && t[j] == '>') || '>' !in t[j..] {
      assert t[j..] == rest[i..];
      if i > 0 {
        assert rest[i - 1] == '<';
        assert j < |t| ==> t[j] == rest[i];
      }
    }
  }

  /** Removing tags never brings in a `>`. */
  lemma {:induction false} StripTagsNoNewGt(s: string)
    ensures '>' in StripTags(s) ==> '>' in s
    decreases |s|
  {
    if s != [] {
      var j := IndexOf(s[1..], ">");
      if s[0] == '<' && j >= 1 {
        StripTagsNoNewGt(s[j + 2..]);
        assert '>' in s[j + 2..] ==> '>' in s;
      } else {
        StripTagsNoNewGt(s[1..]);
        assert StripTags(s) == [s[0]] + StripTags(s[1..]);
        assert '>' in s[1..] ==> '>' in s;
      }
    }
  }

  /** What is left holds no tag. */
  lemma {:induction false} StripTagsLeavesNoTag(s: string)
    ensures NoTag(StripTags(s))
    decreases |s|
  {
    if s != [] {
      var j := IndexOf(s[1..], ">");
      if s[0] == '<' && j >= 1 {
        StripTagsLeavesNoTag(s[j + 2..]);
      } else {
        var rest := StripTags(s[1..]);
        StripTagsLeavesNoTag(s[1..]);
        assert s[0] == '<' ==> (rest != [] && rest[0] == '>') || '>' !in rest by {
          StripTagsNoNewGt(s[1..]);
          IndexOfFirst(s[1..], ">");
          ContainsChar(s[1..], '>');
          if s[0] == '<' && j == 0 {
            assert s[1..][0..1] == ">";
          }
        }
        NoTagCons(s[0], rest);
      }
    }
  }

  /** Text without tags is left as it is; in particular stripping tags twice is stripping them once. */
  lemma {:induction false} StripTagsNoTag(s: string)
    requires NoTag(s)
    ensures StripTags(s) == s
    decreases |s|
  {
    if s != [] {
      if s[0] == '<' {
        assert (1 < |s| && s[1] == '>') || '>' !in s[1..];
        if |s| > 1 && s[1] == '>' {
          assert OccursAt(s[1..], ">", 0) by { assert s[1..][0..1] == [s[1]]; }
          IndexOfAt(s[1..], ">", 0);
        } else {
          assert s[0 + 1..] == s[1..];
          IndexOfFirst(s[1..], ">");
          ContainsChar(s[1..], '>');
        }
      }
      assert NoTag(s[1..]) by {
        var t := s[1..];
        forall i, j | 0 <= i < |t| && j == i + 1 && t[i] == '<'
          ensures (j < |t| && t[j] == '>') || '>' !in t[j..]
        {
          assert s[i + 1] == '<';
          assert t[j..] == s[j + 1..];
        }
      }
      StripTagsNoTag(s[1..]);
    }
  }

  lemma StripTagsIdempotent(s: string)
    ensures StripTags(StripTags(s)) == StripTags(s)
  {
    StripTagsLeavesNoTag(s);
    StripTagsNoTag(StripTags(s));
  }

  /** A line without `<` keeps all of its text. */
  lemma StripTagsNoAngle(s: string)
    requires '<' !in s
    ensures StripTags(s) == s
  {
    StripTagsNoTag(s);
  }

  /** A line of a block is written when it holds no `-->` and is not blank. */
  predicate KeepsVttLine(line: string) {
    !Contains(line, "-->") && TrimSpace(line) != ""
  }

  /**
   * The texts the lines of one block contribute, in order: each kept line
   * with its tags removed, trimmed. The `-->` test looks at the line before
   * its tags are removed.
   */
  function VttLineTexts(lines: seq<string>): seq<string> {
    FilterMap(lines, VttLine)
  }

  /** A kept line's text, its tags removed and then trimmed; nothing for any other line. */
  function VttLine(line: string): Option<string> {
    if KeepsVttLine(line) then Some(TrimSpace(StripTags(line))) else None
  }

  /** The texts one block contributes: its lines once the block is trimmed. */
  function VttBlockTexts(block: string): seq<string> {
    VttLineTexts(Split(TrimSpace(block), "\n"))
  }

  /** The texts all blocks contribute, block by block. */
  function VttTexts(blocks: seq<string>): seq<string> {
    if blocks == [] then [] else VttTexts(blocks[..|blocks| - 1]) + VttBlockTexts(blocks[|blocks| - 1])
  }

  /** The document once the header, the `NOTE` lines and the style blocks are gone. */
  function VttContent(data: string): string {
    StripStyleBlocks(BlankNoteLines(StripHeader(data)))
  }

  /** What `ParseVTT` makes of a whole document. */
  function VttTranscript(data: string): string {
    TrimSpace(Join(VttTexts(Split(VttContent(data), "\n\n")), " "))
  }

  lemma VttTextsStep(blocks: seq<string>, b: nat)
    requires b < |blocks|
    ensures VttTexts(blocks[..b + 1]) == VttTexts(blocks[..b]) + VttBlockTexts(blocks[b])
  {
    assert blocks[..b + 1][..b] == blocks[..b];
  }

  lemma VttLineTextsStep(lines: seq<string>, j: nat)
    requires j < |lines|
    ensures VttLineTexts(lines[..j + 1])
         == VttLineTexts(lines[..j]) + (if KeepsVttLine(lines[j]) then [TrimSpace(StripTags(lines[j]))] else [])
  {
    assert lines[..j + 1][..j] == lines[..j];
  }

  /** Writing line `j` of a block (or nothing) keeps the builder in step with the specification. */
  lemma WriteVttLineStep(before: seq<string>, lines: seq<string>, j: nat)
    requires j < |lines|
    ensures Spaced(before + VttLineTexts(lines[..j + 1]))
         == if KeepsVttLine(lines[j]) then Spaced(before + VttLineTexts(lines[..j])) + TrimSpace(StripTags(lines[j])) + " "
            else Spaced(before + VttLineTexts(lines[..j]))
  {
    VttLineTextsStep(lines, j);
    var keep := KeepsVttLine(lines[j]);
    var t := TrimSpace(StripTags(lines[j]));
    SpacedStep(before, VttLineTexts(lines[..j]), VttLineTexts(lines[..j + 1]), keep, t);
  }

  /** Appending at most one text to the pieces appends at most one spaced text to the builder. */
  lemma SpacedStep(before: seq<string>, done: seq<string>, next: seq<string>, keep: bool, t: string)
    requires next == done + (if keep then [t] else [])
    ensures Spaced(before + next) == if keep then Spaced(before + done) + t + " " else Spaced(before + done)
  {
    if keep {
      assert before + next == (before + done) + [t];
      SpacedSnoc(before + done, t);
    } else {
      assert before + next == before + done;
    }
  }

  /**
   * The block loop of `ParseVTT`: every line of every trimmed block that
   * holds text and no `-->` is written with its tags removed, trimmed, and
   * followed by a space.
   */
  method WriteVttBlocks(blocks: seq<string>) returns (text: string)
    ensures text == Spaced(VttTexts(blocks))
  {
    text := "";
    for b := 0 to |blocks|
      invariant text == Spaced(VttTexts(blocks[..b]))
    {
      var lines := Split(TrimSpace(blocks[b]), "\n");
      text := WriteVttLines(text, VttTexts(blocks[..b]), lines);
      VttTextsStep(blocks, b);
    }
    assert blocks[..|blocks|] == blocks;
  }

  /** The line loop of `ParseVTT` over one block, appending to what earlier blocks wrote. */
  method WriteVttLines(text0: string, ghost before: seq<string>, lines: seq<string>) returns (text: string)
    requires text0 == Spaced(before)
    ensures text == Spaced(before + VttLineTexts(lines))
  {
    text := text0;
    assert before + VttLineTexts(lines[..0]) == before;
    for j := 0 to |lines|
      invariant text == Spaced(before + VttLineTexts(lines[..j]))
    {
      WriteVttLineStep(before, lines, j);
      var line := lines[j];
      if KeepsVttLine(line) {
        line := StripTags(line);
        text := text + TrimSpace(line) + " ";
      }
    }
    assert lines[..|lines|] == lines;
  }

  /**
   * `ParseVTT`: the header, `NOTE` lines and style blocks are removed, the
   * rest is cut into blocks at blank lines and every remaining line of every
   * block contributes its text. It never fails and its text is trimmed.
   */
  method ParseVTT(data: string) returns (r: Result<string, string>)
    ensures r == Success(VttTranscript(data))
    ensures r.Success? && Trimmed(r.value)
  {
    var content := StripHeader(data);
    content := BlankNoteLines(content);
    content := StripStyleBlocks(content);
    var blocks := Split(content, "\n\n");
    var text := WriteVttBlocks(blocks);
    TrimSpacedIsTrimJoin(VttTexts(blocks));
    return Success(TrimSpace(text));
  }

  /**
   * A block contributes exactly its kept lines, each with its tags removed
   * and trimmed: timing lines and blank lines are dropped, nothing else is.
   */
  lemma VttLineTextsMembers(lines: seq<string>)
    ensures forall t :: t in VttLineTexts(lines) <==> exists l :: l in lines && KeepsVttLine(l) && t == TrimSpace(StripTags(l))
  {
    forall t
      ensures t in VttLineTexts(lines) <==> exists l :: l in lines && KeepsVttLine(l) && t == TrimSpace(StripTags(l))
    {
      FilterMapMember(lines, VttLine, t);
    }
  }

  /** A line of plain text (no tag, no `-->`, nothing to trim) is kept word for word. */
  lemma PlainVttLine(line: string)
    requires line != [] && Trimmed(line)
    requires '<' !in line && !Contains(line, "-->")
    ensures KeepsVttLine(line) && TrimSpace(StripTags(line)) == line
  {
    TrimSpaceOfTrimmed(line);
    StripTagsNoAngle(line);
  }

  /** A numeric cue identifier is not recognised as such: it is kept as text. */
  lemma CueIdentifierKept(n: nat)
    ensures KeepsVttLine(NatToString(n)) && TrimSpace(StripTags(NatToString(n))) == NatToString(n)
  {
    var id := NatToString(n);
    assert !Contains(id, "-->") by {
      forall k | 0 <= k <= |id| - 3 ensures !OccursAt(id, "-->", k) {
        assert id[k..k + 3][0] == id[k];
      }
    }
    assert '<' !in id;
    PlainVttLine(id);
  }

  /** A line `--<x>>` holds no `-->` when `x` holds no `-`. */
  lemma ArrowLineKept(x: string)
    requires x != [] && '-' !in x
    ensures KeepsVttLine("--<" + x + ">>")
  {
    var line := "--<" + x + ">>";
    assert !Contains(line, "-->") by {
      forall k | 0 <= k <= |line| - 3 ensures !OccursAt(line, "-->", k) {
        var w := line[k..k + 3];
        assert w[0] == line[k] && w[1] == line[k + 1] && w[2] == line[k + 2];
        if k < 3 {
          assert line[2] == '<';
        } else {
          assert line[k] == x[k - 3];
        }
      }
    }
    assert Trimmed(line);
    TrimSpaceOfTrimmed(line);
  }

  /** Removing the tag `<x>` from `--<x>>` leaves `-->`. */
  lemma ArrowLineStripped(x: string)
    requires x != [] && '>' !in x
    ensures StripTags("--<" + x + ">>") == "-->"
  {
    var line := "--<" + x + ">>";
    var tag := line[2..];
    assert tag == "<" + x + ">>";
    assert tag[1..] == x + ">>";
    assert OccursAt(x + ">>", ">", |x|) by {
      assert (x + ">>")[|x|..|x| + 1] == ">";
    }
    assert NoOccurrenceBefore(x + ">>", ">", |x|) by {
      forall k | 0 <= k < |x| ensures !OccursAt(x + ">>", ">", k) {
        assert (x + ">>")[k..k + 1] == [x[k]];
      }
    }
    IndexOfAt(x + ">>", ">", |x|);
    assert tag[|x| + 2..] == ">";
    assert StripTags(tag) == StripTags(">");
    assert StripTags(line) == [line[0]] + StripTags(line[1..]);
    assert line[1..][1..] == tag;
    assert StripTags(line[1..]) == [line[1]] + StripTags(tag);
  }

  /**
   * The `-->` test runs before the tags are removed, so a line such as
   * `--<b>>` passes it and still comes out as `-->`.
   */
  lemma ArrowSurvivesTagRemoval(x: string)
    requires x != [] && '>' !in x && '-' !in x
    ensures KeepsVttLine("--<" + x + ">>")
    ensures TrimSpace(StripTags("--<" + x + ">>")) == "-->"
  {
    ArrowLineKept(x);
    ArrowLineStripped(x);
    TrimSpaceOfTrimmed("-->");
  }

  // ---------------------------------------------------------------------------
  // CleanTranscript
  // ---------------------------------------------------------------------------

  /** `\s+` replaced by one space: every run of `\s` characters becomes `" "`. */
  function CollapseSpace(s: string): (r: string)
    ensures s == [] <==> r == []
    ensures s != [] && !IsReSpace(s[0]) ==> r[0] == s[0]
    decreases |s|
  {
    if s == [] then []
    else if IsReSpace(s[0]) then " " + CollapseSpace(s[ReSpaceRun(s)..])
    else [s[0]] + CollapseSpace(s[1..])
  }

  /** The only `\s` character is the space, and no two of them are next to each other. */
  ghost predicate Collapsed(s: string) {
    && (forall i :: 0 <= i < |s| && IsReSpace(s[i]) ==> s[i] == ' ')
    && (forall i, j :: 0 <= i < j < |s| && j == i + 1 ==> !(IsReSpace(s[i]) && IsReSpace(s[j])))
  }

  /** A character put in front of collapsed text keeps it collapsed, unless it makes a second space. */
  lemma CollapsedCons(c: char, rest: string)
    requires Collapsed(rest)
    requires IsReSpace(c) ==> c == ' ' && (rest == [] || !IsReSpace(rest[0]))
    ensures Collapsed([c] + rest)
  {
    var t := [c] + rest;
    forall i | 0 <= i < |t| && IsReSpace(t[i]) ensures t[i] == ' ' {
      if i > 0 {
        assert t[i] == rest[i - 1];
      }
    }
    forall i, j | 0 <= i < j < |t| && j == i + 1 ensures !(IsReSpace(t[i]) && IsReSpace(t[j])) {
      assert t[j] == rest[i];
      if i > 0 {
        assert t[i] == rest[i - 1];
      }
    }
  }

  lemma {:induction false} CollapseSpaceCollapsed(s: string)
    ensures Collapsed(CollapseSpace(s))
    decreases |s|
  {
    if s != [] {
      if IsReSpace(s[0]) {
        CollapseSpaceCollapsed(s[ReSpaceRun(s)..]);
        CollapsedCons(' ', CollapseSpace(s[ReSpaceRun(s)..]));
      } else {
        CollapseSpaceCollapsed(s[1..]);
        CollapsedCons(s[0], CollapseSpace(s[1..]));
      }
    }
  }

  /** Collapsed text is left as it is, so collapsing twice is collapsing once. */
  lemma {:induction false} CollapseSpaceFixed(s: string)
    requires Collapsed(s)
    ensures CollapseSpace(s) == s
    decreases |s|
  {
    if s != [] {
      assert Collapsed(s[1..]) by {
        var t := s[1..];
        forall i | 0 <= i < |t| && IsReSpace(t[i]) ensures t[i] == ' ' {
          assert t[i] == s[i + 1];
        }
        forall i, j | 0 <= i < j < |t| && j == i + 1 ensures !(IsReSpace(t[i]) && IsReSpace(t[j])) {
          assert t[i] == s[i + 1] && t[j] == s[j + 1];
        }
      }
      if IsReSpace(s[0]) {
        assert ReSpaceRun(s) == 1 by {
          assert |s| > 1 ==> !IsReSpace(s[1]);
        }
        assert [s[0]] == " ";
      }
      CollapseSpaceFixed(s[1..]);
    }
  }

  lemma CollapseSpaceIdempotent(s: string)
    ensures CollapseSpace(CollapseSpace(s)) == CollapseSpace(s)
  {
    CollapseSpaceCollapsed(s);
    CollapseSpaceFixed(CollapseSpace(s));
  }

  /** The characters of a text other than `\s` characters, in order. */
  function Visible(s: string): string {
    if s == [] then []
    else Visible(s[..|s| - 1]) + (if IsReSpace(s[|s| - 1]) then [] else [s[|s| - 1]])
  }

  lemma {:induction false} VisibleAppend(a: string, b: string)
    ensures Visible(a + b) == Visible(a) + Visible(b)
    decreases |b|
  {
    if b == [] {
      assert a + b == a;
    } else {
      VisibleAppend(a, b[..|b| - 1]);
      assert (a + b)[..|a + b| - 1] == a + b[..|b| - 1];
    }
  }

  lemma {:induction false} VisibleAllSpace(s: string)
    requires forall i :: 0 <= i < |s| ==> IsReSpace(s[i])
    ensures Visible(s) == []
  {
    if s != [] {
      VisibleAllSpace(s[..|s| - 1]);
    }
  }

  /** Collapsing white space changes no other character and the order of none. */
  lemma {:induction false} CollapseSpaceVisible(s: string)
    ensures Visible(CollapseSpace(s)) == Visible(s)
    decreases |s|
  {
    if s != [] {
      if IsReSpace(s[0]) {
        var k := ReSpaceRun(s);
        CollapseSpaceVisible(s[k..]);
        VisibleAppend(" ", CollapseSpace(s[k..]));
        assert Visible(" ") == [];
        assert s == s[..k] + s[k..];
        VisibleAppend(s[..k], s[k..]);
        VisibleAllSpace(s[..k]);
      } else {
        CollapseSpaceVisible(s[1..]);
        VisibleAppend([s[0]], CollapseSpace(s[1..]));
        assert s == [s[0]] + s[1..];
        VisibleAppend([s[0]], s[1..]);
        assert Visible([s[0]]) == [s[0]] by {
          assert [s[0]][..0] == [];
        }
      }
    }
  }

  /**
   * `CleanTranscript`: white-space runs become one space, then the
   * `[Music]`, `[Applause]` and `[Laughter]` markers are deleted, then the
   * text is trimmed. The result is trimmed.
   */
  function CleanTranscript(text: string): (r: string)
    ensures Trimmed(r)
  {
    TrimSpace(DeleteMarkers(CollapseSpace(text)))
  }

  /** Every `[Music]`, then every `[Applause]`, then every `[Laughter]` deleted. */
  function DeleteMarkers(s: string): string {
    var noMusic := ReplaceAll(s, "[Music]", "");
    var noApplause := ReplaceAll(noMusic, "[Applause]", "");
    ReplaceAll(noApplause, "[Laughter]", "")
  }

  /** A text without `[` holds none of the three markers, so their deletion leaves it alone. */
  lemma DeleteMarkersNoBracket(s: string)
    requires '[' !in s
    ensures DeleteMarkers(s) == s
  {
    if Contains(s, "[Music]") { ContainsFirstChar(s, "[Music]"); }
    if Contains(s, "[Applause]") { ContainsFirstChar(s, "[Applause]"); }
    if Contains(s, "[Laughter]") { ContainsFirstChar(s, "[Laughter]"); }
  }

  /** Text that is already collapsed, trimmed and free of `[` comes out of the cleaner unchanged. */
  lemma CleanTranscriptOfClean(text: string)
    requires Collapsed(text) && Trimmed(text) && '[' !in text
    ensures CleanTranscript(text) == text
  {
    CollapseSpaceFixed(text);
    DeleteMarkersNoBracket(text);
    TrimSpaceOfTrimmed(text);
  }

  /** A word: not empty, no `\s` character and no `[`, and no white space at either end. */
  predicate IsWord(w: string) {
    && w != [] && !IsSpace(w[0]) && !IsSpace(w[|w| - 1])
    && forall i :: 0 <= i < |w| ==> !IsReSpace(w[i]) && w[i] != '['
  }

  lemma {:induction false} CollapseSpaceWordPrefix(w: string, rest: string)
    requires forall i :: 0 <= i < |w| ==> !IsReSpace(w[i])
    ensures CollapseSpace(w + rest) == w + CollapseSpace(rest)
    decreases |w|
  {
    if w == [] {
      assert w + rest == rest;
    } else {
      var t := w + rest;
      assert t[0] == w[0] && t[1..] == w[1..] + rest;
      assert CollapseSpace(t) == [w[0]] + CollapseSpace(t[1..]);
      assert forall i :: 0 <= i < |w| - 1 ==> w[1..][i] == w[i + 1];
      CollapseSpaceWordPrefix(w[1..], rest);
      assert [w[0]] + (w[1..] + CollapseSpace(rest)) == w + CollapseSpace(rest);
    }
  }

  /** The three facts `ReSpaceRun` ensures single out its result. */
  lemma {:induction false} ReSpaceRunUnique(s: string, k: nat)
    requires k <= |s| && forall i :: 0 <= i < k ==> IsReSpace(s[i])
    requires k == |s| || !IsReSpace(s[k])
    ensures ReSpaceRun(s) == k
    decreases k
  {
    if k > 0 {
      assert s[1..][k - 1..] == s[k..];
      ReSpaceRunUnique(s[1..], k - 1);
    }
  }

  /** A run of white space in front of text that starts with something else becomes one space. */
  lemma CollapseSpaceRun(sp: string, rest: string)
    requires sp != [] && forall i :: 0 <= i < |sp| ==> IsReSpace(sp[i])
    requires rest == [] || !IsReSpace(rest[0])
    ensures CollapseSpace(sp + rest) == " " + CollapseSpace(rest)
  {
    var t := sp + rest;
    ReSpaceRunUnique(t, |sp|);
    assert t[|sp|..] == rest;
  }

  /** A word is collapsed text. */
  lemma WordCollapsed(w: string)
    requires IsWord(w)
    ensures Collapsed(w) && CollapseSpace(w) == w
  {
    CollapseSpaceWordPrefix(w, []);
    assert w + [] == w;
  }

  /** A marker: a `[` followed by anything but `\s` characters. */
  predicate IsMarker(m: string) {
    m != [] && m[0] == '[' && forall i :: 0 <= i < |m| ==> !IsReSpace(m[i])
  }

  /** One space in front of collapsed text that starts with something else stays as it is. */
  lemma SpaceBeforeCollapsed(x: string)
    requires x != [] && !IsReSpace(x[0]) && CollapseSpace(x) == x
    ensures CollapseSpace(" " + x) == " " + x
  {
    CollapseSpaceRun(" ", x);
  }

  lemma LineShape(a: string, m: string, b: string)
    ensures a + " " + m + " " + b == a + (" " + (m + (" " + b)))
  {
  }

  /** Collapsing leaves a marker between single spaces and words as it is. */
  lemma MarkerLineCollapsed(a: string, m: string, b: string)
    requires IsWord(a) && IsMarker(m) && IsWord(b)
    ensures CollapseSpace(a + " " + m + " " + b) == a + " " + m + " " + b
  {
    var sb := " " + b;
    var msb := m + sb;
    assert CollapseSpace(sb) == sb by {
      WordCollapsed(b);
      SpaceBeforeCollapsed(b);
    }
    assert CollapseSpace(msb) == msb && msb[0] == '[' by {
      CollapseSpaceWordPrefix(m, sb);
    }
    assert CollapseSpace(a + (" " + msb)) == a + (" " + msb) by {
      SpaceBeforeCollapsed(msb);
      CollapseSpaceWordPrefix(a, " " + msb);
    }
    LineShape(a, m, b);
  }

  /** A text opening with `[` cannot occur where the text holds no `[`. */
  lemma NoMarkerBefore(t: string, m: string, i: int)
    requires m != [] && m[0] == '[' && 0 <= i <= |t| && '[' !in t[..i]
    ensures NoOccurrenceBefore(t, m, i)
  {
    forall k | 0 <= k < i ensures !OccursAt(t, m, k) {
      assert t[..i][k] == t[k];
      if k + |m| <= |t| {
        assert t[k..k + |m|][0] == t[k];
      }
    }
  }

  /** Deleting the marker from between two spaces leaves both spaces. */
  lemma MarkerDeleted(a: string, m: string, b: string)
    requires IsWord(a) && IsMarker(m) && IsWord(b)
    ensures ReplaceAll(a + " " + m + " " + b, m, "") == a + "  " + b
  {
    var t := a + " " + m + " " + b;
    var i := |a| + 1;
    assert t[..i] == a + " " && t[i..i + |m|] == m && t[i + |m|..] == " " + b;
    assert '[' !in a + " " by {
      assert forall k :: 0 <= k < |a| ==> (a + " ")[k] == a[k];
    }
    NoMarkerBefore(t, m, i);
    MarkerNotAfter(m, b);
    ReplaceAllOnce(t, m, "", i);
  }

  /** A space and a word hold no marker. */
  lemma MarkerNotAfter(m: string, b: string)
    requires IsWord(b) && IsMarker(m)
    ensures !Contains(" " + b, m)
  {
    assert forall k :: 1 <= k < |b| + 1 ==> (" " + b)[k] == b[k - 1];
    if Contains(" " + b, m) { ContainsFirstChar(" " + b, m); }
  }

  /** A marker cannot be deleted from a text without `[`. */
  lemma MarkerAbsent(s: string, m: string)
    requires m != [] && m[0] == '[' && '[' !in s
    ensures ReplaceAll(s, m, "") == s
  {
    if Contains(s, m) { ContainsFirstChar(s, m); }
  }

  lemma MusicIsMarker()
    ensures IsMarker("[Music]")
  {
  }

  /**
   * Deleting a marker between two spaces leaves both spaces: the white
   * space was collapsed before the deletion.
   */
  lemma MarkerLeavesDoubleSpace(a: string, b: string)
    requires IsWord(a) && IsWord(b)
    ensures CleanTranscript(a + " " + "[Music]" + " " + b) == a + "  " + b
  {
    var u := a + "  " + b;
    MarkerLineCollapsed(a, "[Music]", b);
    MusicLineDeleted(a, b);
    WordsTrimmed(a, b);
    TrimSpaceOfTrimmed(u);
  }

  /** Two words around two spaces hold no `[`. */
  lemma WordsNoBracket(a: string, b: string)
    requires IsWord(a) && IsWord(b)
    ensures '[' !in a + "  " + b
  {
    var u := a + "  " + b;
    assert forall k :: 0 <= k < |a| ==> u[k] == a[k];
    assert forall k :: 0 <= k < |b| ==> u[|a| + 2 + k] == b[k];
  }

  /** Two words around white space make a trimmed text. */
  lemma WordsTrimmed(a: string, b: string)
    requires IsWord(a) && IsWord(b)
    ensures Trimmed(a + "  " + b)
  {
    var u := a + "  " + b;
    assert u[0] == a[0] && u[|u| - 1] == b[|b| - 1];
  }

  /** The marker deletion removes `[Music]` and nothing else from such a line. */
  lemma MusicLineDeleted(a: string, b: string)
    requires IsWord(a) && IsWord(b)
    ensures DeleteMarkers(a + " " + "[Music]" + " " + b) == a + "  " + b
  {
    var u := a + "  " + b;
    MusicIsMarker();
    MarkerDeleted(a, "[Music]", b);
    WordsNoBracket(a, b);
    MarkerAbsent(u, "[Applause]");
    MarkerAbsent(u, "[Laughter]");
  }

  /** Two spaces between words become one. */
  lemma DoubleSpaceCollapses(a: string, b: string)
    requires IsWord(a) && IsWord(b)
    ensures CleanTranscript(a + "  " + b) == a + " " + b
  {
    DoubleSpaceRun(a, b);
    OneSpaceWords(a, b);
    CleanOfCollapsed(a + "  " + b, a + " " + b);
  }

  lemma DoubleSpaceRun(a: string, b: string)
    requires IsWord(a) && IsWord(b)
    ensures CollapseSpace(a + "  " + b) == a + " " + b
  {
    WordCollapsed(b);
    CollapseSpaceRun("  ", b);
    CollapseSpaceWordPrefix(a, "  " + b);
    assert a + "  " + b == a + ("  " + b);
    assert a + (" " + b) == a + " " + b;
  }

  /** Two words around one space hold no `[` and are trimmed. */
  lemma OneSpaceWords(a: string, b: string)
    requires IsWord(a) && IsWord(b)
    ensures '[' !in a + " " + b && Trimmed(a + " " + b)
  {
    var u := a + " " + b;
    assert forall k :: 0 <= k < |a| ==> u[k] == a[k];
    assert forall k :: 0 <= k < |b| ==> u[|a| + 1 + k] == b[k];
    assert u[0] == a[0] && u[|u| - 1] == b[|b| - 1];
  }

  /** Text whose collapsed form is trimmed and bracket-free cleans to that form. */
  lemma CleanOfCollapsed(s: string, u: string)
    requires CollapseSpace(s) == u && '[' !in u && Trimmed(u)
    ensures CleanTranscript(s) == u
  {
    DeleteMarkersNoBracket(u);
    TrimSpaceOfTrimmed(u);
  }

  /**
   * Cleaning is not idempotent: a deleted marker leaves two spaces, which a
   * second cleaning collapses.
   */
  lemma CleanTranscriptNotIdempotent(a: string, b: string)
    requires IsWord(a) && IsWord(b)
    ensures var once := CleanTranscript(a + " " + "[Music]" + " " + b);
      CleanTranscript(once) != once
  {
    MarkerLeavesDoubleSpace(a, b);
    DoubleSpaceCollapses(a, b);
    assert |a + " " + b| != |a + "  " + b|;
  }

  /** In `[Mu[Music]sic]` the first `[Music]` starts at index 3 and none follows it. */
  lemma NestedMarkerAt(s: string, m: string)
    requires s == "[Mu[Music]sic]" && m == "[Music]"
    ensures ReplaceAll(s, m, "") == m
  {
    assert s[0..7][3] != m[3] && s[1..8][0] != m[0] && s[2..9][0] != m[0];
    assert OccursAt(s, m, 3);
    assert s[..3] + s[10..] == m;
    assert !Contains(s[10..], m);
    ReplaceAllOnce(s, m, "", 3);
  }

  lemma NestedMarkerCleaned(s: string, m: string)
    requires s == "[Mu[Music]sic]" && m == "[Music]"
    ensures CleanTranscript(s) == m
  {
    NestedMarkerCollapsed(s);
    NestedMarkerAt(s, m);
    MusicMarkerText(m);
  }

  lemma NestedMarkerCollapsed(s: string)
    requires s == "[Mu[Music]sic]"
    ensures CollapseSpace(s) == s
  {
    assert Collapsed(s);
    CollapseSpaceFixed(s);
  }

  /** `[Music]` on its own holds no other marker and is trimmed. */
  lemma MusicMarkerText(m: string)
    requires m == "[Music]"
    ensures !Contains(m, "[Applause]") && !Contains(m, "[Laughter]")
    ensures Trimmed(m) && TrimSpace(m) == m
  {
    assert !Contains(m, "[Applause]") && !Contains(m, "[Laughter]");
    assert Trimmed(m);
    TrimSpaceOfTrimmed(m);
  }

  /** Deletion is a single pass: deleting the inner marker of `[Mu[Music]sic]` leaves a new `[Music]`. */
  lemma NestedMarkerSurvives()
    ensures CleanTranscript("[Mu[Music]sic]") == "[Music]"
  {
    NestedMarkerCleaned("[Mu[Music]sic]", "[Music]");
  }
}
