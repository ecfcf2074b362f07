/**
 * The calendar export: escaping, folding and assembling content lines, and the RFC 5545 reader that
 * undoes each of them. Text is a sequence of UTF-16 code units, which is what the source counts.
 */
module ICalExport {
  import opened Prelude

  type CodeUnit = u: int | 0 <= u < 0x1_0000

  type Text = seq<CodeUnit>

  const TAB: CodeUnit := 9
  const LF: CodeUnit := 10
  const CR: CodeUnit := 13
  const SPACE: CodeUnit := 32
  const COMMA: CodeUnit := 44
  const COLON: CodeUnit := 58
  const SEMICOLON: CodeUnit := 59
  const UPPER_N: CodeUnit := 78
  const BACKSLASH: CodeUnit := 92
  const LOWER_N: CodeUnit := 110

  const CRLF: Text := [CR, LF]
  const FOLD_LIMIT := 75

  /** A literal's code units; the literals here are printable ASCII. */
  function Ascii(s: string): (t: Text)
    ensures |t| == |s|
  {
    seq(|s|, i requires 0 <= i < |s| => UnitOf(s[i]))
  }

  function UnitOf(c: char): CodeUnit {
    if ' ' <= c <= '~' then c as int else 0xFFFD
  }

  predicate StartsCrlf(s: Text) { |s| >= 2 && s[0] == CR && s[1] == LF }

  predicate StartsBlank(s: Text) { s != [] && (s[0] == SPACE || s[0] == TAB) }

  /** No CRLF anywhere. */
  predicate NoCrlf(s: Text) {
    s == [] || (!StartsCrlf(s) && NoCrlf(s[1..]))
  }

  lemma {:induction false} NoCrlfParts(a: Text, b: Text)
    requires NoCrlf(a + b)
    ensures NoCrlf(a) && NoCrlf(b)
  {
    if a == [] {
      assert a + b == b;
    } else {
      assert (a + b)[1..] == a[1..] + b;
      NoCrlfParts(a[1..], b);
      assert StartsCrlf(a) ==> StartsCrlf(a + b);
    }
  }

  lemma {:induction false} NoCrlfAfter(a: Text, b: Text)
    requires CR !in a
    ensures NoCrlf(a + b) <==> NoCrlf(b)
  {
    if a == [] {
      assert a + b == b;
    } else {
      assert (a + b)[1..] == a[1..] + b && a[0] in a;
      NoCrlfAfter(a[1..], b);
    }
  }

  lemma {:induction false} NoCrlfBefore(a: Text, b: Text)
    requires LF !in b
    ensures NoCrlf(a + b) <==> NoCrlf(a)
  {
    if a == [] {
      assert a + b == b;
      NoFeedNoCrlf(b);
    } else {
      assert (a + b)[1..] == a[1..] + b;
      NoCrlfBefore(a[1..], b);
      if |a| == 1 && b != [] {
        assert b[0] in b && (a + b)[1] == b[0];
      }
      assert StartsCrlf(a + b) <==> StartsCrlf(a);
    }
  }

  lemma {:induction false} NoFeedNoCrlf(s: Text)
    requires LF !in s
    ensures NoCrlf(s)
  {
    if s != [] {
      assert |s| >= 2 ==> s[1] in s;
      NoFeedNoCrlf(s[1..]);
    }
  }

  // ---- Escaping (section 3.3.11 of RFC 5545) ----

  /** `s.replace(/u/g, instead)` */
  function ReplaceUnit(s: Text, u: CodeUnit, instead: Text): Text {
    if s == [] then [] else (if s[0] == u then instead else [s[0]]) + ReplaceUnit(s[1..], u, instead)
  }

  /** `s.replace(/\r?\n/g, "\\n")` */
  function ReplaceBreaks(s: Text): Text {
    if s == [] then []
    else if s[0] == LF then [BACKSLASH, LOWER_N] + ReplaceBreaks(s[1..])
    else if StartsCrlf(s) then [BACKSLASH, LOWER_N] + ReplaceBreaks(s[2..])
    else [s[0]] + ReplaceBreaks(s[1..])
  }

  function EscapeMarks(value: Text): Text {
    ReplaceUnit(
      ReplaceUnit(
        ReplaceUnit(value, BACKSLASH, [BACKSLASH, BACKSLASH]), SEMICOLON, [BACKSLASH, SEMICOLON]), COMMA,
            [BACKSLASH, COMMA])
  }

  function EscapeText(value: Text): Text {
    ReplaceBreaks(EscapeMarks(value))
  }

  /** The RFC's reading of a TEXT value; a backslash that escapes nothing stands for itself. */
  function Unescape(s: Text): Text {
    if s == [] then []
    else if s[0] == BACKSLASH && |s| >= 2 && (s[1] == LOWER_N || s[1] == UPPER_N) then [LF] + Unescape(s[2..])
    else if s[0] == BACKSLASH && |s| >= 2
      && (s[1] == BACKSLASH || s[1] == SEMICOLON || s[1] == COMMA) then [s[1]] + Unescape(s[2..])
    else [s[0]] + Unescape(s[1..])
  }

  /** Each CRLF as a lone LF. */
  function Normalised(s: Text): Text {
    if s == [] then []
    else if StartsCrlf(s) then [LF] + Normalised(s[2..])
    else [s[0]] + Normalised(s[1..])
  }

  predicate IsMark(u: CodeUnit) { u == BACKSLASH || u == SEMICOLON || u == COMMA }

  lemma {:induction false} ReplaceUnitAppend(a: Text, b: Text, u: CodeUnit, instead: Text)
    ensures ReplaceUnit(a + b, u, instead) == ReplaceUnit(a, u, instead) + ReplaceUnit(b, u, instead)
  {
    if a == [] {
      assert a + b == b;
    } else {
      assert (a + b)[1..] == a[1..] + b;
      ReplaceUnitAppend(a[1..], b, u, instead);
    }
  }

  lemma ReplaceUnitPair(a: CodeUnit, b: CodeUnit, u: CodeUnit, instead: Text)
    requires a != u && b != u
    ensures ReplaceUnit([a, b], u, instead) == [a, b]
  {
    assert [a, b][1..] == [b] && [b][1..] == [];
    assert ReplaceUnit([b], u, instead) == [b] + ReplaceUnit([], u, instead) == [b];
  }

  /** The three single-character passes act on each character on its own. */
  lemma EscapeMarksHead(s: Text)
    requires s != []
    ensures EscapeMarks(s) == (if IsMark(s[0]) then [BACKSLASH, s[0]] else [s[0]]) + EscapeMarks(s[1..])
  {
    var u, rest := s[0], s[1..];
    var one := ReplaceUnit(rest, BACKSLASH, [BACKSLASH, BACKSLASH]);
    var two := ReplaceUnit(one, SEMICOLON, [BACKSLASH, SEMICOLON]);
    if u == BACKSLASH {
      ReplaceUnitAppend([u, u], one, SEMICOLON, [BACKSLASH, SEMICOLON]);
      ReplaceUnitPair(u, u, SEMICOLON, [BACKSLASH, SEMICOLON]);
      ReplaceUnitAppend([u, u], two, COMMA, [BACKSLASH, COMMA]);
      ReplaceUnitPair(u, u, COMMA, [BACKSLASH, COMMA]);
    } else {
      assert ([u] + one)[1..] == one;
      if u == SEMICOLON {
        ReplaceUnitAppend([BACKSLASH, u], two, COMMA, [BACKSLASH, COMMA]);
        ReplaceUnitPair(BACKSLASH, u, COMMA, [BACKSLASH, COMMA]);
      } else {
        assert ([u] + two)[1..] == two;
      }
    }
  }

  /** A break is a break after the marks are escaped. */
  lemma EscapeMarksKeepsHead(s: Text)
    ensures EscapeMarks(s) == [] <==> s == []
    ensures s != [] && !IsMark(s[0]) ==> EscapeMarks(s)[0] == s[0]
    ensures s != [] && IsMark(s[0]) ==> EscapeMarks(s)[0] == BACKSLASH
  {
    if s != [] {
      EscapeMarksHead(s);
    }
  }

  lemma BreaksPast(u: CodeUnit, rest: Text)
    requires u != LF && (u == CR && rest != [] ==> rest[0] != LF)
    ensures ReplaceBreaks([u] + rest) == [u] + ReplaceBreaks(rest)
  {
    assert ([u] + rest)[1..] == rest;
  }

  lemma EscapeTextHead(s: Text)
    requires s != []
    ensures EscapeText(s) ==
            if StartsCrlf(s) then [BACKSLASH, LOWER_N] + EscapeText(s[2..])
            else if s[0] == LF then [BACKSLASH, LOWER_N] + EscapeText(s[1..])
            else if IsMark(s[0]) then [BACKSLASH, s[0]] + EscapeText(s[1..])
            else [s[0]] + EscapeText(s[1..])
  {
    hide EscapeMarks;
    EscapeMarksHead(s);
    var rest := EscapeMarks(s[1..]);
    EscapeMarksKeepsHead(s[1..]);
    if IsMark(s[0]) {
      BreaksPast(BACKSLASH, [s[0]] + rest);
      BreaksPast(s[0], rest);
      assert [BACKSLASH, s[0]] + rest == [BACKSLASH] + ([s[0]] + rest);
      assert [BACKSLASH, s[0]] + ReplaceBreaks(rest) == [BACKSLASH] + ([s[0]] + ReplaceBreaks(rest));
    } else if StartsCrlf(s) {
      EscapeMarksHead(s[1..]);
      assert s[1..][1..] == s[2..];
      assert ([s[0]] + rest)[2..] == EscapeMarks(s[2..]);
    } else if s[0] == LF {
      assert ([s[0]] + rest)[1..] == rest;
    } else {
      assert s[0] == CR && rest != [] ==> rest[0] != LF;
      BreaksPast(s[0], rest);
    }
  }

  /** Reading an escaped text back gives the text, with CRLF as LF. */
  lemma {:induction false} UnescapeUndoesEscape(value: Text)
    ensures Unescape(EscapeText(value)) == Normalised(value)
  {
    hide EscapeText;
    if value == [] {
      EscapeNothing();
    } else {
      EscapeTextHead(value);
      var n := if StartsCrlf(value) then 2 else 1;
      UnescapeUndoesEscape(value[n..]);
      var tail := EscapeText(value[n..]);
      if StartsCrlf(value) || value[0] == LF {
        assert ([BACKSLASH, LOWER_N] + tail)[2..] == tail;
      } else if IsMark(value[0]) {
        assert ([BACKSLASH, value[0]] + tail)[2..] == tail;
      } else {
        assert ([value[0]] + tail)[1..] == tail;
      }
    }
  }

  lemma EscapeNothing()
    ensures EscapeText([]) == []
  {
  }

  /** No text, however it breaks its lines, escapes to one with a line feed in it. */
  lemma {:induction false} EscapedHasNoLineFeed(value: Text)
    ensures LF !in EscapeText(value)
  {
    hide EscapeText;
    if value == [] {
      EscapeNothing();
    } else {
      EscapeTextHead(value);
      EscapedHasNoLineFeed(value[if StartsCrlf(value) then 2 else 1..]);
    }
  }

  // ---- Folding (section 3.1 of RFC 5545) ----

  function Continuations(rest: Text): seq<Text>
    decreases |rest|
  {
    if rest == [] then []
    else if |rest| <= FOLD_LIMIT - 1 then [[SPACE] + rest]
    else [[SPACE] + rest[..FOLD_LIMIT - 1]] + Continuations(rest[FOLD_LIMIT - 1..])
  }

  function Segments(line: Text): seq<Text> {
    if |line| <= FOLD_LIMIT then [line] else [line[..FOLD_LIMIT]] + Continuations(line[FOLD_LIMIT..])
  }

  function Fold(line: Text): Text {
    Join(Segments(line), CRLF)
  }

  method FoldLine(line: Text) returns (folded: Text)
    ensures folded == Fold(line)
  {
    if |line| <= FOLD_LIMIT {
      return line;
    }
    hide Join, Continuations;
    var segments: seq<Text> := [];
    var rest, isFirst := line, true;
    while rest != []
      invariant isFirst ==> segments == [] && rest == line
      invariant !isFirst ==> segments + Continuations(rest) == Segments(line)
      decreases |rest|
    {
      var limit := if isFirst then FOLD_LIMIT else FOLD_LIMIT - 1;
      var cut := if limit <= |rest| then limit else |rest|;
      var segment := (if isFirst then [] else [SPACE]) + rest[..cut];
      if isFirst {
        assert segment == line[..FOLD_LIMIT];
        assert segments + [segment] == [segment];
      } else {
        FirstContinuation(rest, cut);
        Regrouped(segments, segment, Continuations(rest[cut..]));
      }
      segments := segments + [segment];
      rest := rest[cut..];
      isFirst := false;
    }
    NoContinuation();
    assert segments + [] == segments;
    return Join(segments, CRLF);
  }

  lemma Regrouped(before: seq<Text>, segment: Text, more: seq<Text>)
    ensures before + ([segment] + more) == before + [segment] + more
  {
  }

  lemma NoContinuation()
    ensures Continuations([]) == []
  {
  }

  lemma FirstContinuation(rest: Text, cut: nat)
    requires rest != [] && cut == if FOLD_LIMIT - 1 <= |rest| then FOLD_LIMIT - 1 else |rest|
    ensures Continuations(rest) == [[SPACE] + rest[..cut]] + Continuations(rest[cut..])
  {
    if |rest| <= FOLD_LIMIT - 1 {
      assert rest[..cut] == rest && rest[cut..] == [];
    }
  }

  /** `u` put in front of the first of `lines`. */
  function InFront(u: CodeUnit, lines: seq<Text>): seq<Text> {
    if lines == [] then [[u]] else [[u] + lines[0]] + lines[1..]
  }

  /** Reading lines: each ends at a CRLF, the last perhaps at the end. */
  function ReadLines(s: Text): seq<Text> {
    if s == [] then []
    else if StartsCrlf(s) then [[]] + ReadLines(s[2..])
    else InFront(s[0], ReadLines(s[1..]))
  }

  /** Unfolding: a CRLF and the single blank after it go. */
  function Unfold(s: Text): Text {
    if s == [] then []
    else if StartsCrlf(s) && StartsBlank(s[2..]) then Unfold(s[3..])
    else [s[0]] + Unfold(s[1..])
  }

  lemma ReadBreak(rest: Text)
    ensures ReadLines(CRLF + rest) == [[]] + ReadLines(rest)
  {
    assert (CRLF + rest)[2..] == rest;
  }

  lemma ReadPast(u: CodeUnit, rest: Text)
    requires u == CR && rest != [] ==> rest[0] != LF
    ensures ReadLines([u] + rest) == InFront(u, ReadLines(rest))
  {
    assert ([u] + rest)[1..] == rest;
  }

  lemma {:induction false} ReadAcross(x: Text, rest: Text)
    ensures ReadLines(x + CRLF + rest) == ReadLines(x + CRLF) + ReadLines(rest)
    ensures ReadLines(x + CRLF) != []
    ensures forall l <- ReadLines(x + CRLF) :: |l| <= |x|
  {
    hide ReadLines;
    if x == [] {
      assert x + CRLF + rest == CRLF + rest && x + CRLF == CRLF + [];
      ReadBreak(rest);
      ReadBreak([]);
      ReadNothing();
    } else if StartsCrlf(x) {
      ReadAcross(x[2..], rest);
      ReadAcrossBreak(x, rest);
    } else {
      ReadAcross(x[1..], rest);
      ReadAcrossUnit(x, rest);
    }
  }

  lemma ReadAcrossBreak(x: Text, rest: Text)
    requires StartsCrlf(x)
    ensures ReadLines(x + CRLF + rest) == [[]] + ReadLines(x[2..] + CRLF + rest)
    ensures ReadLines(x + CRLF) == [[]] + ReadLines(x[2..] + CRLF)
  {
    var y := x[2..];
    assert x + CRLF + rest == CRLF + (y + CRLF + rest) && x + CRLF == CRLF + (y + CRLF);
    ReadBreak(y + CRLF + rest);
    ReadBreak(y + CRLF);
  }

  lemma ReadAcrossUnit(x: Text, rest: Text)
    requires x != [] && !StartsCrlf(x)
    ensures ReadLines(x + CRLF + rest) == InFront(x[0], ReadLines(x[1..] + CRLF + rest))
    ensures ReadLines(x + CRLF) == InFront(x[0], ReadLines(x[1..] + CRLF))
  {
    hide ReadLines;
    var u, y := x[0], x[1..];
    assert x + CRLF + rest == [u] + (y + CRLF + rest) && x + CRLF == [u] + (y + CRLF);
    ReadPast(u, y + CRLF + rest);
    ReadPast(u, y + CRLF);
  }

  lemma {:induction false} ReadOne(line: Text, rest: Text)
    requires NoCrlf(line)
    ensures ReadLines(line + CRLF + rest) == [line] + ReadLines(rest)
  {
    hide ReadLines;
    if line == [] {
      assert line + CRLF + rest == CRLF + rest;
      ReadBreak(rest);
    } else {
      var u, more := line[0], line[1..];
      assert line + CRLF + rest == [u] + (more + CRLF + rest);
      ReadPast(u, more + CRLF + rest);
      ReadOne(more, rest);
      assert line == [u] + more;
    }
  }

  /** A line that was read holds no line break. */
  lemma {:induction false} ReadLinesHaveNoCrlf(s: Text)
    ensures forall l <- ReadLines(s) :: NoCrlf(l)
    ensures ReadLines(s) != [] && ReadLines(s)[0] != [] ==> s != [] && ReadLines(s)[0][0] == s[0]
  {
    if s == [] {
    } else if StartsCrlf(s) {
      ReadLinesHaveNoCrlf(s[2..]);
    } else {
      ReadLinesHaveNoCrlf(s[1..]);
      var rest := ReadLines(s[1..]);
      var first := ReadLines(s)[0];
      assert first[1..] == if rest == [] then [] else rest[0];
      assert rest != [] ==> rest[0] in rest;
      assert NoCrlf(first[1..]);
      assert !StartsCrlf(first);
    }
  }

  lemma {:induction false} ContinuationsAreShort(rest: Text)
    ensures forall seg <- Continuations(rest) :: |seg| <= FOLD_LIMIT
    decreases |rest|
  {
    if |rest| > FOLD_LIMIT - 1 {
      ContinuationsAreShort(rest[FOLD_LIMIT - 1..]);
    }
  }

  lemma {:induction false} ReadJoined(segments: seq<Text>, rest: Text, bound: nat)
    requires segments != [] && forall seg <- segments :: |seg| <= bound
    ensures ReadLines(Join(segments, CRLF) + CRLF + rest) ==
            ReadLines(Join(segments, CRLF) + CRLF) + ReadLines(rest)
    ensures forall l <- ReadLines(Join(segments, CRLF) + CRLF) :: |l| <= bound
  {
    hide ReadLines;
    ReadAcross(Join(segments, CRLF), rest);
    if |segments| == 1 {
      assert segments[0] in segments;
      assert Join(segments, CRLF) == segments[0];
    } else {
      var more := Join(segments[1..], CRLF) + CRLF;
      assert segments[0] in segments;
      assert Join(segments, CRLF) + CRLF == segments[0] + CRLF + more;
      ReadAcross(segments[0], more);
      ReadJoined(segments[1..], [], bound);
    }
  }

  /** The text of a file: every content line folded, every physical line ended. */
  function Body(lines: seq<Text>): Text {
    if lines == [] then [] else Fold(lines[0]) + CRLF + Body(lines[1..])
  }

  lemma SegmentsAreShort(line: Text)
    ensures Segments(line) != [] && forall seg <- Segments(line) :: |seg| <= FOLD_LIMIT
  {
    if |line| > FOLD_LIMIT {
      ContinuationsAreShort(line[FOLD_LIMIT..]);
    }
  }

  /** `first` says whether the line's first physical line is among `segments`. */
  ghost predicate Full(segments: seq<Text>, first: bool) {
    && segments != []
    && (forall k | 0 <= k < |segments| - 1 :: |segments[k]| == 75)
    && (forall k | (if first then 1 else 0) <= k < |segments| :: |segments[k]| > 1 && segments[k][0] == 32)
  }

  lemma {:induction false} ContinuationsAreFull(rest: Text)
    requires rest != []
    ensures Full(Continuations(rest), false)
    decreases |rest|
  {
    if |rest| > FOLD_LIMIT - 1 {
      var tail := rest[FOLD_LIMIT - 1..];
      ContinuationsAreFull(tail);
      assert forall k | 0 < k < |Continuations(rest)| :: Continuations(rest)[k] == Continuations(tail)[k - 1];
    }
  }

  /**
   * A line of at most 75 code units is left alone; of a longer one every physical line but the last has
   * exactly 75, and every one but the first is a blank and more.
   */
  lemma FoldsAreFull(line: Text)
    ensures |line| <= 75 ==> Fold(line) == line
    ensures |line| > 75 ==> Full(Segments(line), true) && |Segments(line)| > 1
  {
    if |line| > 75 {
      var tail := line[75..];
      ContinuationsAreFull(tail);
      assert forall k | 0 < k < |Segments(line)| :: Segments(line)[k] == Continuations(tail)[k - 1];
    }
  }

  /** No physical line is longer than the limit, whatever the content lines hold. */
  lemma {:induction false} PhysicalLinesAreShort(lines: seq<Text>)
    ensures forall l <- ReadLines(Body(lines)) :: |l| <= 75
  {
    hide ReadLines, Segments, Join;
    if lines == [] {
      ReadNothing();
    } else {
      SegmentsAreShort(lines[0]);
      ReadJoined(Segments(lines[0]), Body(lines[1..]), FOLD_LIMIT);
      PhysicalLinesAreShort(lines[1..]);
    }
  }

  lemma ReadNothing()
    ensures ReadLines([]) == [] && Unfold([]) == []
  {
  }

  lemma UnfoldPast(u: CodeUnit, rest: Text)
    requires u == CR && rest != [] ==> rest[0] != LF
    ensures Unfold([u] + rest) == [u] + Unfold(rest)
  {
    assert ([u] + rest)[1..] == rest;
  }

  lemma {:induction false} UnfoldAcross(line: Text, rest: Text)
    requires NoCrlf(line)
    ensures Unfold(line + CRLF + rest) == line + Unfold(CRLF + rest)
  {
    hide Unfold;
    if line == [] {
      assert line + CRLF + rest == CRLF + rest;
    } else {
      var u, more := line[0], line[1..];
      assert line + CRLF + rest == [u] + (more + CRLF + rest);
      UnfoldPast(u, more + CRLF + rest);
      UnfoldAcross(more, rest);
      assert line == [u] + more;
    }
  }

  lemma UnfoldJoin(all: Text)
    requires StartsCrlf(all) && StartsBlank(all[2..])
    ensures Unfold(all) == Unfold(all[3..])
  {
  }

  lemma UnfoldKeep(all: Text)
    requires all != [] && !(StartsCrlf(all) && StartsBlank(all[2..]))
    ensures Unfold(all) == [all[0]] + Unfold(all[1..])
  {
  }

  lemma UnfoldBreak(rest: Text)
    ensures StartsBlank(rest) ==> Unfold(CRLF + rest) == Unfold(rest[1..])
    ensures !StartsBlank(rest) ==> Unfold(CRLF + rest) == CRLF + Unfold(rest)
  {
    hide Unfold;
    var all := CRLF + rest;
    assert all[2..] == rest;
    if StartsBlank(rest) {
      UnfoldJoin(all);
      assert all[3..] == rest[1..];
    } else {
      UnfoldKeep(all);
      assert all[1..] == [LF] + rest;
      UnfoldPast(LF, rest);
      assert [CR] + ([LF] + Unfold(rest)) == CRLF + Unfold(rest);
    }
  }

  lemma Regroup(head: Text, sep: Text, more: Text, rest: Text)
    ensures head + sep + more + sep + rest == head + sep + (more + sep + rest)
    ensures sep + (more + sep + rest) == sep + more + sep + rest
  {
  }

  lemma Associates(a: Text, b: Text, c: Text)
    ensures a + (b + c) == a + b + c
  {
  }

  lemma UnfoldBlank(line: Text, rest: Text)
    requires NoCrlf(line)
    ensures Unfold(CRLF + ([SPACE] + line) + CRLF + rest) == line + Unfold(CRLF + rest)
  {
    hide Unfold, NoCrlf;
    var after := [SPACE] + line + CRLF + rest;
    assert CRLF + ([SPACE] + line) + CRLF + rest == CRLF + after;
    UnfoldBreak(after);
    assert after[1..] == line + CRLF + rest;
    UnfoldAcross(line, rest);
  }

  lemma JoinMore(first: Text, more: seq<Text>)
    requires more != []
    ensures Join([first] + more, CRLF) == first + CRLF + Join(more, CRLF)
  {
    assert ([first] + more)[1..] == more;
  }

  lemma {:induction false} UnfoldContinuations(line: Text, rest: Text)
    requires line != [] && NoCrlf(line)
    ensures Unfold(CRLF + Join(Continuations(line), CRLF) + CRLF + rest) == line + Unfold(CRLF + rest)
    decreases |line|
  {
    if |line| <= FOLD_LIMIT - 1 {
      assert Join(Continuations(line), CRLF) == [SPACE] + line;
      UnfoldBlank(line, rest);
    } else {
      hide Unfold, NoCrlf, StartsCrlf, Join;
      var head, tail := line[..FOLD_LIMIT - 1], line[FOLD_LIMIT - 1..];
      assert line == head + tail;
      NoCrlfParts(head, tail);
      var more, x := Join(Continuations(tail), CRLF), Unfold(CRLF + rest);
      JoinMore([SPACE] + head, Continuations(tail));
      hide Continuations;
      Regroup([SPACE] + head, CRLF, more, rest);
      UnfoldBlankBefore(head, more, rest);
      UnfoldContinuations(tail, rest);
      Associates(head, tail, x);
    }
  }

  lemma UnfoldBlankBefore(head: Text, more: Text, rest: Text)
    requires NoCrlf(head)
    ensures Unfold(CRLF + ([SPACE] + head + CRLF + more) + CRLF + rest) == head + Unfold(CRLF + more + CRLF + rest)
  {
    hide Unfold, NoCrlf;
    var tail := more + CRLF + rest;
    assert CRLF + ([SPACE] + head + CRLF + more) + CRLF + rest == CRLF + ([SPACE] + head) + CRLF + tail;
    UnfoldBlank(head, tail);
    Regroup([], CRLF, more, rest);
  }

  lemma FoldLong(line: Text)
    requires |line| > FOLD_LIMIT
    ensures Fold(line) == line[..FOLD_LIMIT] + CRLF + Join(Continuations(line[FOLD_LIMIT..]), CRLF)
  {
    assert Segments(line)[1..] == Continuations(line[FOLD_LIMIT..]);
  }

  /** Unfolding a folded line gives the line. */
  lemma UnfoldUndoesFold(line: Text, rest: Text)
    requires NoCrlf(line)
    ensures Unfold(Fold(line) + CRLF + rest) == line + Unfold(CRLF + rest)
  {
    hide Unfold, NoCrlf, Continuations, Join;
    if |line| <= FOLD_LIMIT {
      FoldShort(line);
      UnfoldAcross(line, rest);
    } else {
      hide Fold;
      var head, tail := line[..FOLD_LIMIT], line[FOLD_LIMIT..];
      assert line == head + tail;
      NoCrlfParts(head, tail);
      FoldLong(line);
      var more := Join(Continuations(tail), CRLF);
      Regroup(head, CRLF, more, rest);
      UnfoldAcross(head, more + CRLF + rest);
      UnfoldContinuations(tail, rest);
      Associates(head, tail, Unfold(CRLF + rest));
    }
  }

  lemma FoldShort(line: Text)
    requires |line| <= FOLD_LIMIT
    ensures Fold(line) == line
  {
  }

  lemma FoldKeepsStart(line: Text, rest: Text)
    ensures StartsBlank(Fold(line) + CRLF + rest) == StartsBlank(line)
  {
    var segments := Segments(line);
    assert Fold(line)[..|segments[0]|] == segments[0];
    if line != [] {
      assert segments[0][0] == line[0];
    }
  }

  function Plain(lines: seq<Text>): Text {
    if lines == [] then [] else lines[0] + CRLF + Plain(lines[1..])
  }

  lemma {:induction false} UnfoldBody(lines: seq<Text>)
    requires forall l <- lines :: NoCrlf(l)
    requires forall i | 1 <= i < |lines| :: !StartsBlank(lines[i])
    ensures Unfold(Body(lines)) == Plain(lines)
  {
    hide Unfold, Fold;
    if lines == [] {
      ReadNothing();
    } else {
      var rest := lines[1..];
      assert forall l <- rest :: l in lines;
      assert forall i | 0 <= i < |rest| :: rest[i] == lines[i + 1];
      UnfoldUndoesFold(lines[0], Body(rest));
      UnfoldBody(rest);
      if rest != [] {
        FoldKeepsStart(rest[0], Body(rest[1..]));
      }
      UnfoldBreak(Body(rest));
      assert lines[0] + (CRLF + Plain(rest)) == lines[0] + CRLF + Plain(rest);
    }
  }

  lemma {:induction false} ReadPlain(lines: seq<Text>)
    requires forall l <- lines :: NoCrlf(l)
    ensures ReadLines(Plain(lines)) == lines
  {
    hide ReadLines;
    if lines == [] {
      ReadNothing();
    } else {
      assert forall l <- lines[1..] :: l in lines;
      ReadOne(lines[0], Plain(lines[1..]));
      ReadPlain(lines[1..]);
    }
  }

  // ---- Assembling a calendar ----

  /** An event, its dates already formatted; no `url` is the empty text. */
  datatype IcsEvent = IcsEvent(
    uid: Text,
    stamp: DateText,
    allDay: bool,
    start: DateText,
    end: DateText,
    summary: Text,
    description: Text,
    url: Text)

  /** A formatted date: digits, `T` and `Z`. */
  type DateText = t: Text | forall u <- t :: 48 <= u <= 90

  /** The properties the export writes, parameters included. */
  datatype Property =
    | Begin | End | Version | ProdId | CalScale | CalName
    | Uid | DtStamp | DtStartDate | DtEndDate | DtStart | DtEnd | Summary | Description | Url

  function NameOf(p: Property): string {
    match p
    case Begin => "BEGIN"
    case End => "END"
    case Version => "VERSION"
    case ProdId => "PRODID"
    case CalScale => "CALSCALE"
    case CalName => "X-WR-CALNAME"
    case Uid => "UID"
    case DtStamp => "DTSTAMP"
    case DtStartDate => "DTSTART;VALUE=DATE"
    case DtEndDate => "DTEND;VALUE=DATE"
    case DtStart => "DTSTART"
    case DtEnd => "DTEND"
    case Summary => "SUMMARY"
    case Description => "DESCRIPTION"
    case Url => "URL"
  }

  /** A content line: name, colon, value. */
  function Line(p: Property, value: Text): Text {
    Ascii(NameOf(p)) + [COLON] + value
  }

  /** What `uid` is completed with. */
  function OwnedUid(uid: Text): Text { uid + Ascii("@jointsave.app") }

  function DateLines(e: IcsEvent): seq<Text> {
    if e.allDay then [Line(DtStartDate, e.start), Line(DtEndDate, e.end)]
    else [Line(DtStart, e.start), Line(DtEnd, e.end)]
  }

  /** What an event says between its `BEGIN` and its `END`. */
  function InnerLines(e: IcsEvent): seq<Text> {
    [Line(Uid, OwnedUid(e.uid)), Line(DtStamp, e.stamp)]
    + DateLines(e)
    + [Line(Summary, EscapeText(e.summary)), Line(Description, EscapeText(e.description))]
    + if e.url != [] then [Line(Url, e.url)] else []
  }

  function EventLines(e: IcsEvent): seq<Text> {
    [Line(Begin, Ascii("VEVENT"))] + InnerLines(e) + [Line(End, Ascii("VEVENT"))]
  }

  function EventsLines(events: seq<IcsEvent>): seq<Text> {
    if events == [] then [] else EventsLines(events[..|events| - 1]) + EventLines(events[|events| - 1])
  }

  function HeaderLines(calendarName: Text): seq<Text> {
    [Line(Begin, Ascii("VCALENDAR")), Line(Version, Ascii("2.0")),
     Line(ProdId, Ascii("-//JointSave//Deposit Calendar//EN")), Line(CalScale, Ascii("GREGORIAN")),
     Line(CalName, EscapeText(calendarName))]
  }

  function ContentLines(events: seq<IcsEvent>, calendarName: Text): seq<Text> {
    HeaderLines(calendarName) + EventsLines(events) + [Line(End, Ascii("VCALENDAR"))]
  }

  // ---- Reading a calendar by property name ----

  /** Where the first colon is, or the length. */
  function ColonAt(line: Text): (k: nat)
    ensures k <= |line|
  {
    if line == [] || line[0] == COLON then 0 else 1 + ColonAt(line[1..])
  }

  function HeadOf(line: Text): Text { line[..ColonAt(line)] }

  function ValueOf(line: Text): Text {
    var k := ColonAt(line);
    if k < |line| then line[k + 1..] else []
  }

  /** The value of the first line of that name. */
  function Lookup(lines: seq<Text>, name: Text): Option<Text> {
    if lines == [] then None
    else if HeadOf(lines[0]) == name then Some(ValueOf(lines[0]))
    else Lookup(lines[1..], name)
  }

  function BeginEvent(): Text { Ascii("BEGIN:VEVENT") }

  function EndEvent(): Text { Ascii("END:VEVENT") }

  /** The lines up to the end of an event. */
  function Inside(lines: seq<Text>): seq<Text> {
    if lines == [] || lines[0] == EndEvent() then [] else [lines[0]] + Inside(lines[1..])
  }

  /** The lines of each event, events in order. */
  function EventBlocks(lines: seq<Text>): seq<seq<Text>> {
    if lines == [] then []
    else if lines[0] == BeginEvent() then [Inside(lines[1..])] + EventBlocks(lines[1..])
    else EventBlocks(lines[1..])
  }

  /** Looking properties up by name gives the event's own fields. */
  ghost predicate Tells(block: seq<Text>, e: IcsEvent) {
    && Lookup(block, Ascii("UID")) == Some(e.uid + Ascii("@jointsave.app"))
    && Lookup(block, Ascii("DTSTAMP")) == Some(e.stamp)
    && Lookup(block, Ascii("DTSTART;VALUE=DATE")) == (if e.allDay then Some(e.start) else None)
    && Lookup(block, Ascii("DTEND;VALUE=DATE")) == (if e.allDay then Some(e.end) else None)
    && Lookup(block, Ascii("DTSTART")) == (if e.allDay then None else Some(e.start))
    && Lookup(block, Ascii("DTEND")) == (if e.allDay then None else Some(e.end))
    && TellsText(Lookup(block, Ascii("SUMMARY")), e.summary)
    && TellsText(Lookup(block, Ascii("DESCRIPTION")), e.description)
    && Lookup(block, Ascii("URL")) == (if e.url == [] then None else Some(e.url))
  }

  ghost predicate TellsText(value: Option<Text>, text: Text) {
    value.Some? && Unescape(value.value) == Normalised(text)
  }

  /** Length, first and last character: enough to tell the names apart. */
  datatype Tag = Tag(length: nat, first: char, last: char)

  function TagOf(name: string): Tag
    requires name != ""
  {
    Tag(|name|, name[0], name[|name| - 1])
  }

  lemma NameTags(p: Property)
    ensures NameOf(p) != "" && TagOf(NameOf(p)) ==
            match p
            case Begin => Tag(5, 'B', 'N')
            case End => Tag(3, 'E', 'D')
            case Version => Tag(7, 'V', 'N')
            case ProdId => Tag(6, 'P', 'D')
            case CalScale => Tag(8, 'C', 'E')
            case CalName => Tag(12, 'X', 'E')
            case Uid => Tag(3, 'U', 'D')
            case DtStamp => Tag(7, 'D', 'P')
            case DtStartDate => Tag(18, 'D', 'E')
            case DtEndDate => Tag(16, 'D', 'E')
            case DtStart => Tag(7, 'D', 'T')
            case DtEnd => Tag(5, 'D', 'D')
            case Summary => Tag(7, 'S', 'Y')
            case Description => Tag(11, 'D', 'N')
            case Url => Tag(3, 'U', 'L')
  {
  }

  lemma TagsDiffer(a: string, b: string)
    requires a != "" && b != "" && TagOf(a) != TagOf(b)
    requires ' ' <= a[0] <= '~' && ' ' <= b[0] <= '~' && ' ' <= a[|a| - 1] <= '~' && ' ' <= b[|b| - 1] <= '~'
    ensures Ascii(a) != Ascii(b)
  {
    if |a| == |b| {
      assert Ascii(a)[0] == UnitOf(a[0]) && Ascii(b)[0] == UnitOf(b[0]);
      assert Ascii(a)[|a| - 1] == UnitOf(a[|a| - 1]) && Ascii(b)[|b| - 1] == UnitOf(b[|b| - 1]);
    }
  }

  lemma NamesDiffer(p: Property, q: Property)
    ensures Ascii(NameOf(p)) == Ascii(NameOf(q)) <==> p == q
  {
    hide NameOf, TagOf, Ascii;
    NameTags(p);
    NameTags(q);
    if p != q {
      TagParts(NameOf(p));
      TagParts(NameOf(q));
      TagsDiffer(NameOf(p), NameOf(q));
    }
  }

  lemma TagParts(name: string)
    requires name != ""
    ensures TagOf(name).first == name[0] && TagOf(name).last == name[|name| - 1]
  {
  }

  predicate NoColon(name: string) { forall i | 0 <= i < |name| :: name[i] != ':' }

  lemma NamesHaveNoColon(p: Property)
    ensures NoColon(NameOf(p))
  {
  }

  lemma {:induction false} ColonAfter(head: Text, value: Text)
    requires COLON !in head
    ensures ColonAt(head + [COLON] + value) == |head|
  {
    var line := head + [COLON] + value;
    if head != [] {
      assert head[0] in head && line[1..] == head[1..] + [COLON] + value;
      ColonAfter(head[1..], value);
    }
  }

  /** A line's name and value are told apart by its first colon. */
  lemma LineParts(p: Property, value: Text)
    ensures HeadOf(Line(p, value)) == Ascii(NameOf(p)) && ValueOf(Line(p, value)) == value
  {
    hide NameOf, ColonAt;
    NamesHaveNoColon(p);
    var head := Ascii(NameOf(p));
    forall u | u in head ensures u != COLON {
      var i :| 0 <= i < |head| && head[i] == u;
      assert NameOf(p)[i] != ':';
    }
    ColonAfter(head, value);
    var line := Line(p, value);
    assert line[..|head|] == head && line[|head| + 1..] == value;
  }

  lemma LinesDiffer(p: Property, v: Text, q: Property, w: Text)
    requires p != q
    ensures Line(p, v) != Line(q, w)
  {
    hide Line, HeadOf, ValueOf, Ascii, NameOf;
    LineParts(p, v);
    LineParts(q, w);
    NamesDiffer(p, q);
  }

  lemma LookupFirst(p: Property, value: Text, rest: seq<Text>, wanted: Property)
    ensures Lookup([Line(p, value)] + rest, Ascii(NameOf(wanted))) ==
            if p == wanted then Some(value) else Lookup(rest, Ascii(NameOf(wanted)))
  {
    hide Line, HeadOf, ValueOf, Ascii, NameOf;
    LineParts(p, value);
    NamesDiffer(p, wanted);
    assert ([Line(p, value)] + rest)[1..] == rest;
  }

  /** A line before it is rendered. */
  datatype Entry = Entry(property: Property, value: Text)

  function Rendered(entries: seq<Entry>): seq<Text> {
    if entries == [] then [] else [Line(entries[0].property, entries[0].value)] + Rendered(entries[1..])
  }

  function Find(entries: seq<Entry>, wanted: Property): Option<Text> {
    if entries == [] then None
    else if entries[0].property == wanted then Some(entries[0].value)
    else Find(entries[1..], wanted)
  }

  lemma {:induction false} LookupRendered(entries: seq<Entry>, wanted: Property)
    ensures Lookup(Rendered(entries), Ascii(NameOf(wanted))) == Find(entries, wanted)
  {
    hide Line, HeadOf, ValueOf, Ascii, NameOf;
    if entries != [] {
      LookupFirst(entries[0].property, entries[0].value, Rendered(entries[1..]), wanted);
      LookupRendered(entries[1..], wanted);
    }
  }

  function DateEntries(e: IcsEvent): seq<Entry> {
    if e.allDay then [Entry(DtStartDate, e.start), Entry(DtEndDate, e.end)]
    else [Entry(DtStart, e.start), Entry(DtEnd, e.end)]
  }

  function EntriesOf(e: IcsEvent): seq<Entry> {
    [Entry(Uid, OwnedUid(e.uid)), Entry(DtStamp, e.stamp)]
    + DateEntries(e)
    + [Entry(Summary, EscapeText(e.summary)), Entry(Description, EscapeText(e.description))]
    + if e.url != [] then [Entry(Url, e.url)] else []
  }

  lemma {:induction false} RenderedAppend(a: seq<Entry>, b: seq<Entry>)
    ensures Rendered(a + b) == Rendered(a) + Rendered(b)
  {
    hide Line;
    if a == [] {
      assert a + b == b;
    } else {
      assert (a + b)[1..] == a[1..] + b;
      RenderedAppend(a[1..], b);
    }
  }

  lemma RenderedOne(a: Entry)
    ensures Rendered([a]) == [Line(a.property, a.value)] && Rendered([]) == []
  {
    hide Line;
    assert [a][1..] == [];
  }

  lemma RenderedTwo(a: Entry, b: Entry)
    ensures Rendered([a, b]) == [Line(a.property, a.value), Line(b.property, b.value)]
  {
    hide Line, Rendered;
    RenderedOne(a);
    RenderedOne(b);
    RenderedAppend([a], [b]);
    assert [a] + [b] == [a, b];
  }

  lemma InnerIsRendered(e: IcsEvent)
    ensures InnerLines(e) == Rendered(EntriesOf(e))
  {
    hide Line, Rendered, EscapeText, OwnedUid;
    var opening, dates := [Entry(Uid, OwnedUid(e.uid)), Entry(DtStamp, e.stamp)], DateEntries(e);
    var texts := [Entry(Summary, EscapeText(e.summary)), Entry(Description, EscapeText(e.description))];
    var url := if e.url != [] then [Entry(Url, e.url)] else [];
    RenderedTwo(opening[0], opening[1]);
    RenderedTwo(dates[0], dates[1]);
    RenderedTwo(texts[0], texts[1]);
    RenderedOne(Entry(Url, e.url));
    RenderedAppend(opening, dates);
    RenderedAppend(opening + dates, texts);
    RenderedAppend(opening + dates + texts, url);
  }

  lemma FindInEvent(e: IcsEvent, wanted: Property)
    ensures Find(EntriesOf(e), wanted) ==
            match wanted
            case Uid => Some(OwnedUid(e.uid))
            case DtStamp => Some(e.stamp)
            case DtStartDate => if e.allDay then Some(e.start) else None
            case DtEndDate => if e.allDay then Some(e.end) else None
            case DtStart => if e.allDay then None else Some(e.start)
            case DtEnd => if e.allDay then None else Some(e.end)
            case Summary => Some(EscapeText(e.summary))
            case Description => Some(EscapeText(e.description))
            case Url => if e.url != [] then Some(e.url) else None
            case _ => None
  {
    hide Find, EscapeText, OwnedUid;
    var dates := DateEntries(e);
    var url := if e.url != [] then [Entry(Url, e.url)] else [];
    var summary, description := Entry(Summary, EscapeText(e.summary)), Entry(Description, EscapeText(e.description));
    var tail := [summary, description] + url;
    var dated := [dates[0]] + ([dates[1]] + tail);
    assert EntriesOf(e) == [Entry(Uid, OwnedUid(e.uid))] + ([Entry(DtStamp, e.stamp)] + dated);
    assert tail == [summary] + ([description] + url);
    FindFirst(Entry(Uid, OwnedUid(e.uid)), [Entry(DtStamp, e.stamp)] + dated, wanted);
    FindFirst(Entry(DtStamp, e.stamp), dated, wanted);
    FindFirst(dates[0], [dates[1]] + tail, wanted);
    FindFirst(dates[1], tail, wanted);
    FindFirst(summary, [description] + url, wanted);
    FindFirst(description, url, wanted);
    FindFirst(Entry(Url, e.url), [], wanted);
    assert [Entry(Url, e.url)] + [] == [Entry(Url, e.url)];
    FindNothing(wanted);
  }

  lemma FindFirst(first: Entry, rest: seq<Entry>, wanted: Property)
    ensures Find([first] + rest, wanted) == if first.property == wanted then Some(first.value) else Find(rest, wanted)
  {
    assert ([first] + rest)[1..] == rest;
  }

  lemma FindNothing(wanted: Property)
    ensures Find([], wanted) == None
  {
  }

  lemma LookupInEvent(e: IcsEvent, wanted: Property)
    ensures Lookup(InnerLines(e), Ascii(NameOf(wanted))) == Find(EntriesOf(e), wanted)
  {
    hide InnerLines, Lookup, Find, EntriesOf, Rendered, Ascii, NameOf;
    InnerIsRendered(e);
    LookupRendered(EntriesOf(e), wanted);
    FindInEvent(e, wanted);
  }

  /** An event's own lines tell its own fields. */
  lemma InnerTells(e: IcsEvent)
    ensures Tells(InnerLines(e), e)
  {
    hide InnerLines, Lookup, Find, EntriesOf, EscapeText, Unescape, Normalised, Ascii, NameOf;
    EventNames();
    TellsOne(e, Uid);
    TellsOne(e, DtStamp);
    TellsOne(e, DtStartDate);
    TellsOne(e, DtEndDate);
    TellsOne(e, DtStart);
    TellsOne(e, DtEnd);
    TellsOne(e, Summary);
    TellsOne(e, Description);
    TellsOne(e, Url);
    UnescapeUndoesEscape(e.summary);
    UnescapeUndoesEscape(e.description);
  }

  lemma TellsOne(e: IcsEvent, wanted: Property)
    ensures Lookup(InnerLines(e), Ascii(NameOf(wanted))) ==
            match wanted
            case Uid => Some(OwnedUid(e.uid))
            case DtStamp => Some(e.stamp)
            case DtStartDate => if e.allDay then Some(e.start) else None
            case DtEndDate => if e.allDay then Some(e.end) else None
            case DtStart => if e.allDay then None else Some(e.start)
            case DtEnd => if e.allDay then None else Some(e.end)
            case Summary => Some(EscapeText(e.summary))
            case Description => Some(EscapeText(e.description))
            case Url => if e.url != [] then Some(e.url) else None
            case _ => None
  {
    hide InnerLines, Lookup, Find, EntriesOf, EscapeText, OwnedUid, Ascii, NameOf;
    LookupInEvent(e, wanted);
    FindInEvent(e, wanted);
  }

  lemma EventNames()
    ensures NameOf(Uid) == "UID" && NameOf(DtStamp) == "DTSTAMP"
    ensures NameOf(DtStart) == "DTSTART" && NameOf(DtEnd) == "DTEND"
    ensures NameOf(DtStartDate) == "DTSTART;VALUE=DATE" && NameOf(DtEndDate) == "DTEND;VALUE=DATE"
    ensures NameOf(Summary) == "SUMMARY" && NameOf(Description) == "DESCRIPTION" && NameOf(Url) == "URL"
  {
  }

  // ---- Finding the events ----

  lemma MarkersAreLines()
    ensures Line(Begin, Ascii("VEVENT")) == BeginEvent() && Line(End, Ascii("VEVENT")) == EndEvent()
  {
    assert "BEGIN" + ":" + "VEVENT" == "BEGIN:VEVENT" && "END" + ":" + "VEVENT" == "END:VEVENT";
    AsciiAppend("BEGIN" + ":", "VEVENT");
    AsciiAppend("BEGIN", ":");
    AsciiAppend("END" + ":", "VEVENT");
    AsciiAppend("END", ":");
    assert Ascii(":") == [COLON];
  }

  lemma AsciiAppend(a: string, b: string)
    ensures Ascii(a + b) == Ascii(a) + Ascii(b)
  {
  }

  /** No line of `lines` begins or ends an event. */
  ghost predicate Unmarked(lines: seq<Text>) {
    forall l <- lines :: l != BeginEvent() && l != EndEvent()
  }

  lemma {:induction false} RenderedUnmarked(entries: seq<Entry>)
    requires forall x <- entries :: !x.property.Begin? && !x.property.End?
    ensures Unmarked(Rendered(entries))
  {
    hide Line;
    if entries != [] {
      var first := entries[0];
      assert first in entries && forall x <- entries[1..] :: x in entries;
      RenderedUnmarked(entries[1..]);
      MarkersAreLines();
      hide Ascii, BeginEvent, EndEvent;
      LinesDiffer(first.property, first.value, Begin, Ascii("VEVENT"));
      LinesDiffer(first.property, first.value, End, Ascii("VEVENT"));
    }
  }

  lemma InnerUnmarked(e: IcsEvent)
    ensures Unmarked(InnerLines(e))
  {
    hide Rendered, InnerLines, Unmarked, EscapeText, OwnedUid;
    InnerIsRendered(e);
    RenderedUnmarked(EntriesOf(e));
  }

  lemma {:induction false} InsideOf(inner: seq<Text>, rest: seq<Text>)
    requires Unmarked(inner)
    ensures Inside(inner + [EndEvent()] + rest) == inner
    ensures EventBlocks(inner + rest) == EventBlocks(rest)
  {
    MarkersAreLines();
    LinesDiffer(Begin, Ascii("VEVENT"), End, Ascii("VEVENT"));
    hide Line, BeginEvent, EndEvent;
    var all := inner + [EndEvent()] + rest;
    if inner == [] {
      assert inner + rest == rest;
    } else {
      assert inner[0] in inner && forall l <- inner[1..] :: l in inner;
      assert all[1..] == inner[1..] + [EndEvent()] + rest && (inner + rest)[1..] == inner[1..] + rest;
      InsideOf(inner[1..], rest);
    }
  }

  lemma BlockAt(rest: seq<Text>)
    ensures EventBlocks([BeginEvent()] + rest) == [Inside(rest)] + EventBlocks(rest)
    ensures EventBlocks([EndEvent()] + rest) == EventBlocks(rest)
  {
    MarkersAreLines();
    LinesDiffer(Begin, Ascii("VEVENT"), End, Ascii("VEVENT"));
    hide Line, Inside, Ascii, BeginEvent, EndEvent;
    assert ([BeginEvent()] + rest)[1..] == rest && ([EndEvent()] + rest)[1..] == rest;
  }

  lemma BlocksOfEvent(e: IcsEvent, rest: seq<Text>)
    ensures EventBlocks(EventLines(e) + rest) == [InnerLines(e)] + EventBlocks(rest)
  {
    MarkersAreLines();
    InnerUnmarked(e);
    hide Line, InnerLines, Inside, EventBlocks, Ascii, BeginEvent, EndEvent, Unmarked;
    var inner := InnerLines(e);
    assert EventLines(e) + rest == [BeginEvent()] + (inner + [EndEvent()] + rest);
    BlockAt(inner + [EndEvent()] + rest);
    InsideOf(inner, rest);
    InsideOf(inner, [EndEvent()] + rest);
    assert inner + [EndEvent()] + rest == inner + ([EndEvent()] + rest);
    BlockAt(rest);
  }

  lemma {:induction false} EventsLinesFront(e: IcsEvent, rest: seq<IcsEvent>)
    ensures EventsLines([e] + rest) == EventLines(e) + EventsLines(rest)
  {
    hide EventLines;
    if rest == [] {
      assert [e] + rest == [e] && [e][..0] == [];
    } else {
      var init, last := rest[..|rest| - 1], rest[|rest| - 1];
      assert ([e] + rest)[..|rest|] == [e] + init;
      EventsLinesFront(e, init);
      assert EventLines(e) + (EventsLines(init) + EventLines(last)) ==
             EventLines(e) + EventsLines(init) + EventLines(last);
    }
  }

  function Inners(events: seq<IcsEvent>): seq<seq<Text>> {
    seq(|events|, i requires 0 <= i < |events| => InnerLines(events[i]))
  }

  lemma {:induction false} BlocksOfEvents(events: seq<IcsEvent>, rest: seq<Text>)
    ensures EventBlocks(EventsLines(events) + rest) == Inners(events) + EventBlocks(rest)
  {
    hide EventBlocks, EventLines, InnerLines;
    if events == [] {
      assert EventsLines(events) + rest == rest;
    } else {
      var e, more := events[0], events[1..];
      assert events == [e] + more;
      EventsLinesFront(e, more);
      assert EventsLines(events) + rest == EventLines(e) + (EventsLines(more) + rest);
      BlocksOfEvent(e, EventsLines(more) + rest);
      BlocksOfEvents(more, rest);
      assert Inners(events) == [InnerLines(e)] + Inners(more);
    }
  }

  lemma HeaderUnmarked(calendarName: Text)
    ensures Unmarked(HeaderLines(calendarName)) && Unmarked([Line(End, Ascii("VCALENDAR"))])
  {
    MarkersAreLines();
    hide Line, EscapeText, Ascii, BeginEvent, EndEvent;
    LinesDiffer(Version, Ascii("2.0"), Begin, Ascii("VEVENT"));
    LinesDiffer(Version, Ascii("2.0"), End, Ascii("VEVENT"));
    LinesDiffer(ProdId, Ascii("-//JointSave//Deposit Calendar//EN"), Begin, Ascii("VEVENT"));
    LinesDiffer(ProdId, Ascii("-//JointSave//Deposit Calendar//EN"), End, Ascii("VEVENT"));
    LinesDiffer(CalScale, Ascii("GREGORIAN"), Begin, Ascii("VEVENT"));
    LinesDiffer(CalScale, Ascii("GREGORIAN"), End, Ascii("VEVENT"));
    LinesDiffer(CalName, EscapeText(calendarName), Begin, Ascii("VEVENT"));
    LinesDiffer(CalName, EscapeText(calendarName), End, Ascii("VEVENT"));
    LinesDiffer(Begin, Ascii("VCALENDAR"), End, Ascii("VEVENT"));
    LinesDiffer(End, Ascii("VCALENDAR"), Begin, Ascii("VEVENT"));
    CalendarIsNoEvent();
  }

  lemma CalendarIsNoEvent()
    ensures Line(Begin, Ascii("VCALENDAR")) != BeginEvent() && Line(End, Ascii("VCALENDAR")) != EndEvent()
  {
    assert |Ascii("VCALENDAR")| == 9 && |Ascii("VEVENT")| == 6;
    MarkersAreLines();
    hide Ascii, NameOf, BeginEvent, EndEvent;
  }

  lemma BlocksOfContent(events: seq<IcsEvent>, calendarName: Text)
    ensures EventBlocks(ContentLines(events, calendarName)) == Inners(events)
  {
    hide EventBlocks, HeaderLines, EventsLines, Line, InnerLines;
    var header, footer := HeaderLines(calendarName), [Line(End, Ascii("VCALENDAR"))];
    HeaderUnmarked(calendarName);
    assert ContentLines(events, calendarName) == header + (EventsLines(events) + footer);
    InsideOf(header, EventsLines(events) + footer);
    BlocksOfEvents(events, footer);
    assert footer + [] == footer;
    InsideOf(footer, []);
    NoBlocks();
    assert Inners(events) + [] == Inners(events);
  }

  lemma NoBlocks()
    ensures EventBlocks([]) == []
  {
  }

  /** Reading lines as a calendar gives every event, in order, each telling its own fields. */
  ghost predicate TellsAll(lines: seq<Text>, events: seq<IcsEvent>) {
    var blocks := EventBlocks(lines);
    |blocks| == |events| && forall i | 0 <= i < |events| :: Tells(blocks[i], events[i])
  }

  lemma ContentTellsAll(events: seq<IcsEvent>, calendarName: Text)
    ensures TellsAll(ContentLines(events, calendarName), events)
  {
    hide EventBlocks, ContentLines, InnerLines, Tells;
    BlocksOfContent(events, calendarName);
    forall i | 0 <= i < |events| ensures Tells(Inners(events)[i], events[i]) {
      InnerTells(events[i]);
    }
  }

  // ---- Assembling it ----

  /** The lines of one event: one block, telling the event's own fields. */
  method BuildIcsEvent(e: IcsEvent) returns (lines: seq<Text>)
    ensures lines == EventLines(e)
    ensures TellsAll(lines, [e])
  {
    hide EscapeText, Ascii, Line, OwnedUid, Tells, TellsAll;
    lines := [Line(Begin, Ascii("VEVENT")), Line(Uid, OwnedUid(e.uid)), Line(DtStamp, e.stamp)];
    if e.allDay {
      lines := lines + [Line(DtStartDate, e.start)];
      lines := lines + [Line(DtEndDate, e.end)];
    } else {
      lines := lines + [Line(DtStart, e.start)];
      lines := lines + [Line(DtEnd, e.end)];
    }
    lines := lines + [Line(Summary, EscapeText(e.summary))];
    lines := lines + [Line(Description, EscapeText(e.description))];
    if e.url != [] {
      lines := lines + [Line(Url, e.url)];
    }
    lines := lines + [Line(End, Ascii("VEVENT"))];
    EventTells(e);
  }

  lemma EventTells(e: IcsEvent)
    ensures TellsAll(EventLines(e), [e])
  {
    hide EventLines, InnerLines, Tells, EventBlocks;
    assert EventLines(e) + [] == EventLines(e);
    BlocksOfEvent(e, []);
    NoBlocks();
    InnerTells(e);
    assert [InnerLines(e)] + [] == [InnerLines(e)];
  }

  /** The file; read back, it tells every event's own fields when no UID and no URL holds a CRLF. */
  method BuildIcs(events: seq<IcsEvent>, calendarName: Text) returns (ics: Text)
    ensures ics == Body(ContentLines(events, calendarName))
    ensures (forall e <- events :: Clean(e)) ==>
              var read := ReadLines(Unfold(ics)); TellsAll(read, events) && TellsCalendar(read, calendarName)
  {
    hide EscapeText, Ascii, EventLines, Fold, Line, TellsAll, TellsCalendar, Clean, ReadLines, Unfold;
    var lines := [Line(Begin, Ascii("VCALENDAR")), Line(Version, Ascii("2.0")),
                  Line(ProdId, Ascii("-//JointSave//Deposit Calendar//EN")), Line(CalScale, Ascii("GREGORIAN")),
                  Line(CalName, EscapeText(calendarName))];
    ghost var header := lines;
    for i := 0 to |events|
      invariant lines == header + EventsLines(events[..i])
    {
      var event := BuildIcsEvent(events[i]);
      lines := lines + event;
      assert events[..i + 1][..i] == events[..i];
    }
    assert events[..|events|] == events;
    lines := lines + [Line(End, Ascii("VCALENDAR"))];
    assert lines == ContentLines(events, calendarName);
    hide ContentLines;
    var folded: seq<Text> := [];
    for i := 0 to |lines|
      invariant |folded| == i && forall k | 0 <= k < i :: folded[k] == Fold(lines[k])
    {
      var one := FoldLine(lines[i]);
      folded := folded + [one];
    }
    ContentIsNotEmpty(events, calendarName);
    JoinedIsBody(lines, folded);
    if forall e <- events :: Clean(e) {
      CalendarTellsEvents(events, calendarName);
    }
    return Join(folded, CRLF) + CRLF;
  }

  lemma ContentIsNotEmpty(events: seq<IcsEvent>, calendarName: Text)
    ensures ContentLines(events, calendarName) != []
  {
  }

  /** The lines of one calendar of the name. */
  ghost predicate TellsCalendar(lines: seq<Text>, calendarName: Text) {
    && |lines| > 1
    && lines[0] == Ascii("BEGIN:VCALENDAR") && lines[|lines| - 1] == Ascii("END:VCALENDAR")
    && Lookup(lines, Ascii("VERSION")) == Some(Ascii("2.0"))
    && Lookup(lines, Ascii("PRODID")) == Some(Ascii("-//JointSave//Deposit Calendar//EN"))
    && Lookup(lines, Ascii("CALSCALE")) == Some(Ascii("GREGORIAN"))
    && TellsText(Lookup(lines, Ascii("X-WR-CALNAME")), calendarName)
  }

  /**
   * What a calendar program gets from the file: the calendar's name, and each event's UID, stamp, start and
   * end (in the DATE form exactly when all-day), summary, description and URL (exactly when there is one).
   */
  lemma CalendarTellsEvents(events: seq<IcsEvent>, calendarName: Text)
    requires forall e <- events :: Clean(e)
    ensures var lines := ReadLines(Unfold(Body(ContentLines(events, calendarName))));
            TellsAll(lines, events) && TellsCalendar(lines, calendarName)
  {
    hide ContentLines, Clean, TellsAll, TellsCalendar, ReadLines, Unfold, Body;
    CalendarReadsBack(events, calendarName);
    ContentTellsAll(events, calendarName);
    ContentTellsCalendar(events, calendarName);
  }

  /** What the header's lines say. */
  function HeaderEntries(calendarName: Text): seq<Entry> {
    [Entry(Version, Ascii("2.0")), Entry(ProdId, Ascii("-//JointSave//Deposit Calendar//EN"))]
    + [Entry(CalScale, Ascii("GREGORIAN")), Entry(CalName, EscapeText(calendarName))]
  }

  lemma HeaderIsRendered(calendarName: Text)
    ensures HeaderLines(calendarName) == [Line(Begin, Ascii("VCALENDAR"))] + Rendered(HeaderEntries(calendarName))
  {
    hide Line, Rendered, EscapeText, Ascii;
    var entries := HeaderEntries(calendarName);
    RenderedTwo(entries[0], entries[1]);
    RenderedTwo(entries[2], entries[3]);
    RenderedAppend([entries[0], entries[1]], [entries[2], entries[3]]);
  }

  lemma {:induction false} LookupAmong(entries: seq<Entry>, rest: seq<Text>, wanted: Property)
    requires Find(entries, wanted).Some?
    ensures Lookup(Rendered(entries) + rest, Ascii(NameOf(wanted))) == Find(entries, wanted)
  {
    hide Line, Lookup, Ascii, NameOf;
    var first, more := entries[0], entries[1..];
    LookupFirst(first.property, first.value, Rendered(more) + rest, wanted);
    assert Rendered(entries) + rest == [Line(first.property, first.value)] + (Rendered(more) + rest);
    if first.property != wanted {
      LookupAmong(more, rest, wanted);
    }
  }

  lemma LookupInHeader(events: seq<IcsEvent>, calendarName: Text, wanted: Property)
    requires !wanted.Begin? && Find(HeaderEntries(calendarName), wanted).Some?
    ensures Lookup(ContentLines(events, calendarName), Ascii(NameOf(wanted))) ==
            Find(HeaderEntries(calendarName), wanted)
  {
    hide Line, Lookup, Ascii, NameOf, Find, Rendered, HeaderLines, HeaderEntries, EventsLines;
    var rest := EventsLines(events) + [Line(End, Ascii("VCALENDAR"))];
    var named := Rendered(HeaderEntries(calendarName)) + rest;
    HeaderIsRendered(calendarName);
    assert ContentLines(events, calendarName) == [Line(Begin, Ascii("VCALENDAR"))] + named;
    LookupFirst(Begin, Ascii("VCALENDAR"), named, wanted);
    LookupAmong(HeaderEntries(calendarName), rest, wanted);
  }

  lemma FindInHeader(calendarName: Text)
    ensures var entries := HeaderEntries(calendarName);
            && Find(entries, Version) == Some(Ascii("2.0"))
            && Find(entries, ProdId) == Some(Ascii("-//JointSave//Deposit Calendar//EN"))
            && Find(entries, CalScale) == Some(Ascii("GREGORIAN"))
            && Find(entries, CalName) == Some(EscapeText(calendarName))
  {
    hide Ascii, EscapeText;
    var entries := HeaderEntries(calendarName);
    assert Find(entries[3..], CalName) == Some(EscapeText(calendarName));
    assert Find(entries[2..], CalName) == Find(entries[2..][1..], CalName) && entries[2..][1..] == entries[3..];
    assert Find(entries[1..], CalName) == Find(entries[1..][1..], CalName) && entries[1..][1..] == entries[2..];
    assert Find(entries[2..], CalScale) == Some(Ascii("GREGORIAN"));
    assert Find(entries[1..], CalScale) == Find(entries[1..][1..], CalScale);
    assert Find(entries[1..], ProdId) == Some(Ascii("-//JointSave//Deposit Calendar//EN"));
  }

  lemma HeaderNames()
    ensures NameOf(Version) == "VERSION" && NameOf(ProdId) == "PRODID" && NameOf(CalScale) == "CALSCALE"
    ensures NameOf(CalName) == "X-WR-CALNAME"
    ensures Line(Begin, Ascii("VCALENDAR")) == Ascii("BEGIN:VCALENDAR")
    ensures Line(End, Ascii("VCALENDAR")) == Ascii("END:VCALENDAR")
  {
    assert "BEGIN" + ":" + "VCALENDAR" == "BEGIN:VCALENDAR" && "END" + ":" + "VCALENDAR" == "END:VCALENDAR";
    assert Ascii(":") == [COLON];
    hide Ascii;
    AsciiAppend("BEGIN" + ":", "VCALENDAR");
    AsciiAppend("BEGIN", ":");
    AsciiAppend("END" + ":", "VCALENDAR");
    AsciiAppend("END", ":");
  }

  lemma ContentTellsCalendar(events: seq<IcsEvent>, calendarName: Text)
    ensures TellsCalendar(ContentLines(events, calendarName), calendarName)
  {
    HeaderNames();
    FindInHeader(calendarName);
    UnescapeUndoesEscape(calendarName);
    hide Line, Ascii, NameOf, Find, Lookup, EventsLines, EscapeText, Unescape, Normalised, HeaderEntries;
    LookupInHeader(events, calendarName, Version);
    LookupInHeader(events, calendarName, ProdId);
    LookupInHeader(events, calendarName, CalScale);
    LookupInHeader(events, calendarName, CalName);
  }

  lemma {:induction false} JoinedIsBody(lines: seq<Text>, folded: seq<Text>)
    requires lines != [] && |folded| == |lines| && forall k | 0 <= k < |lines| :: folded[k] == Fold(lines[k])
    ensures Join(folded, CRLF) + CRLF == Body(lines)
  {
    hide Fold;
    if |lines| > 1 {
      JoinedIsBody(lines[1..], folded[1..]);
      assert Join(folded, CRLF) + CRLF == folded[0] + CRLF + (Join(folded[1..], CRLF) + CRLF);
    } else {
      assert Body(lines[1..]) == [];
    }
  }

  lemma LineUnbroken(p: Property, value: Text)
    ensures NoCrlf(Line(p, value)) <==> NoCrlf(value)
    ensures !StartsBlank(Line(p, value))
  {
    NameTags(p);
    NoCrlfAfter(Ascii(NameOf(p)) + [COLON], value);
    assert Line(p, value)[0] == UnitOf(NameOf(p)[0]);
  }

  lemma UidUnbroken(uid: Text)
    ensures NoCrlf(OwnedUid(uid)) <==> NoCrlf(uid)
  {
    NoCrlfBefore(uid, Ascii("@jointsave.app"));
  }

  lemma AsciiUnbroken(s: string)
    ensures NoCrlf(Ascii(s))
  {
    NoFeedNoCrlf(Ascii(s));
  }

  ghost predicate AllUnbroken(lines: seq<Text>) { forall l <- lines :: NoCrlf(l) }

  ghost predicate NoneBlank(lines: seq<Text>) { forall l <- lines :: !StartsBlank(l) }

  predicate Clean(e: IcsEvent) { NoCrlf(e.uid) && NoCrlf(e.url) }

  lemma UnbrokenParts(a: seq<Text>, b: seq<Text>)
    ensures AllUnbroken(a + b) <==> AllUnbroken(a) && AllUnbroken(b)
    ensures NoneBlank(a + b) <==> NoneBlank(a) && NoneBlank(b)
  {
    hide NoCrlf, StartsBlank;
    if AllUnbroken(a + b) {
      assert forall l <- a :: l in a + b;
      assert forall l <- b :: l in a + b;
    }
    if NoneBlank(a + b) {
      assert forall l <- a :: l in a + b;
      assert forall l <- b :: l in a + b;
    }
  }

  lemma {:induction false} RenderedUnbroken(entries: seq<Entry>)
    ensures AllUnbroken(Rendered(entries)) <==> forall x <- entries :: NoCrlf(x.value)
    ensures NoneBlank(Rendered(entries))
  {
    hide Line, NoCrlf, StartsBlank;
    if entries != [] {
      var first, rest := entries[0], entries[1..];
      assert entries == [first] + rest;
      RenderedUnbroken(rest);
      LineUnbroken(first.property, first.value);
      UnbrokenParts([Line(first.property, first.value)], Rendered(rest));
    }
  }

  lemma EntriesUnbroken(e: IcsEvent)
    ensures (forall x <- EntriesOf(e) :: NoCrlf(x.value)) <==> Clean(e)
  {
    UidUnbroken(e.uid);
    NoFeedNoCrlf(e.stamp);
    NoFeedNoCrlf(e.start);
    NoFeedNoCrlf(e.end);
    EscapedUnbroken(e.summary);
    EscapedUnbroken(e.description);
    NoFeedNoCrlf([]);
    hide NoCrlf, EscapeText, OwnedUid;
    var entries := EntriesOf(e);
    assert entries[0] == Entry(Uid, OwnedUid(e.uid)) && entries[0] in entries;
    if e.url != [] {
      assert entries[6] == Entry(Url, e.url) && entries[6] in entries;
    }
    if Clean(e) {
      forall k | 0 <= k < |entries| ensures NoCrlf(entries[k].value) {
        assert k == 0 || k == 1 || k == 2 || k == 3 || k == 4 || k == 5 || k == 6;
      }
    }
  }

  lemma EventLinesUnbroken(e: IcsEvent)
    ensures AllUnbroken(EventLines(e)) <==> Clean(e)
    ensures NoneBlank(EventLines(e))
  {
    hide NoCrlf, Line, Rendered, InnerLines, EntriesOf, Clean, StartsBlank;
    InnerIsRendered(e);
    RenderedUnbroken(EntriesOf(e));
    EntriesUnbroken(e);
    AsciiUnbroken("VEVENT");
    var first, last := [Line(Begin, Ascii("VEVENT"))], [Line(End, Ascii("VEVENT"))];
    LineUnbroken(Begin, Ascii("VEVENT"));
    LineUnbroken(End, Ascii("VEVENT"));
    UnbrokenParts(first, InnerLines(e));
    UnbrokenParts(first + InnerLines(e), last);
  }

  lemma EscapedUnbroken(value: Text)
    ensures NoCrlf(EscapeText(value))
  {
    hide EscapeText;
    EscapedHasNoLineFeed(value);
    NoFeedNoCrlf(EscapeText(value));
  }

  lemma {:induction false} EventsLinesUnbroken(events: seq<IcsEvent>)
    ensures AllUnbroken(EventsLines(events)) <==> forall e <- events :: Clean(e)
    ensures NoneBlank(EventsLines(events))
  {
    hide EventLines, Clean, NoCrlf, StartsBlank;
    if events != [] {
      var init, last := events[..|events| - 1], events[|events| - 1];
      assert events == init + [last];
      EventsLinesUnbroken(init);
      EventLinesUnbroken(last);
      UnbrokenParts(EventsLines(init), EventLines(last));
    }
  }

  lemma ContentLinesUnbroken(events: seq<IcsEvent>, calendarName: Text)
    ensures AllUnbroken(ContentLines(events, calendarName)) <==> forall e <- events :: Clean(e)
    ensures NoneBlank(ContentLines(events, calendarName))
  {
    hide EventsLines, EscapeText, Ascii, Clean, NoCrlf, StartsBlank, Line;
    AsciiUnbroken("VCALENDAR");
    AsciiUnbroken("2.0");
    AsciiUnbroken("-//JointSave//Deposit Calendar//EN");
    AsciiUnbroken("GREGORIAN");
    EscapedUnbroken(calendarName);
    LineUnbroken(Begin, Ascii("VCALENDAR"));
    LineUnbroken(Version, Ascii("2.0"));
    LineUnbroken(ProdId, Ascii("-//JointSave//Deposit Calendar//EN"));
    LineUnbroken(CalScale, Ascii("GREGORIAN"));
    LineUnbroken(CalName, EscapeText(calendarName));
    LineUnbroken(End, Ascii("VCALENDAR"));
    var header, footer := HeaderLines(calendarName), [Line(End, Ascii("VCALENDAR"))];
    assert AllUnbroken(header) && NoneBlank(header) && AllUnbroken(footer) && NoneBlank(footer);
    EventsLinesUnbroken(events);
    hide HeaderLines, AllUnbroken, NoneBlank;
    UnbrokenParts(header, EventsLines(events));
    UnbrokenParts(header + EventsLines(events), footer);
  }

  /**
   * Unfolding the file and reading its lines gives back every content line, exactly when no UID and no
   * URL holds a CRLF; the names, summaries and descriptions may hold anything.
   */
  lemma CalendarReadsBack(events: seq<IcsEvent>, calendarName: Text)
    ensures ReadLines(Unfold(Body(ContentLines(events, calendarName)))) == ContentLines(events, calendarName)
            <==> forall e <- events :: Clean(e)
  {
    hide ContentLines, Clean, NoCrlf, ReadLines, Unfold, Body, Plain;
    var lines := ContentLines(events, calendarName);
    ContentLinesUnbroken(events, calendarName);
    ReadLinesHaveNoCrlf(Unfold(Body(lines)));
    if AllUnbroken(lines) {
      UnfoldBody(lines);
      ReadPlain(lines);
    }
  }

  // ---- What the limit counts ----

  /** Octets of a code unit in UTF-8; each half of a surrogate pair counts two of its four. */
  function OctetsOf(u: CodeUnit): nat {
    if u < 0x80 then 1 else if u < 0x800 || 0xD800 <= u < 0xE000 then 2 else 3
  }

  function Octets(s: Text): nat {
    if s == [] then 0 else OctetsOf(s[0]) + Octets(s[1..])
  }

  predicate IsAscii(s: Text) { forall u <- s :: u < 0x80 }

  lemma {:induction false} OctetsBounds(s: Text)
    ensures |s| <= Octets(s)
    ensures Octets(s) == |s| <==> IsAscii(s)
  {
    if s != [] {
      var u, rest := s[0], s[1..];
      assert s == [u] + rest && u in s;
      OctetsBounds(rest);
      assert forall v <- rest :: v in s;
    }
  }

  lemma AsciiParts(a: Text, b: Text)
    ensures IsAscii(a + b) <==> IsAscii(a) && IsAscii(b)
  {
    if IsAscii(a + b) {
      assert forall u <- a :: u in a + b;
      assert forall u <- b :: u in a + b;
    }
  }

  /** The limit of section 3.1 of RFC 5545, in octets. */
  ghost predicate WithinOctets(segments: seq<Text>) {
    forall seg <- segments :: Octets(seg) <= 75
  }

  lemma WithinParts(seg: Text, more: seq<Text>)
    ensures WithinOctets([seg] + more) <==> Octets(seg) <= FOLD_LIMIT && WithinOctets(more)
  {
    hide Octets;
    if WithinOctets([seg] + more) {
      assert seg in [seg] + more;
      assert forall s <- more :: s in [seg] + more;
    }
  }

  /** A full physical line keeps the limit only if it is ASCII. */
  lemma FullSegment(seg: Text)
    requires |seg| == FOLD_LIMIT
    ensures Octets(seg) <= FOLD_LIMIT <==> IsAscii(seg)
  {
    OctetsBounds(seg);
  }

  lemma SpaceBefore(s: Text)
    ensures Octets([SPACE] + s) == 1 + Octets(s)
    ensures IsAscii([SPACE] + s) <==> IsAscii(s)
  {
    assert ([SPACE] + s)[1..] == s;
    AsciiParts([SPACE], s);
  }

  /** How much of `n` code units the continuation lines before the last one take. */
  function BeforeLast(n: nat): (k: nat)
    ensures n > 0 ==> k < n <= k + FOLD_LIMIT - 1
  {
    if n == 0 then 0 else (FOLD_LIMIT - 1) * ((n - 1) / (FOLD_LIMIT - 1))
  }

  lemma BeforeLastStep(n: nat)
    requires n > FOLD_LIMIT - 1
    ensures BeforeLast(n) == FOLD_LIMIT - 1 + BeforeLast(n - (FOLD_LIMIT - 1))
  {
  }

  lemma {:induction false} ContinuationOctets(rest: Text)
    requires rest != []
    ensures var k := BeforeLast(|rest|);
            WithinOctets(Continuations(rest)) <==> IsAscii(rest[..k]) && Octets(rest[k..]) + 1 <= FOLD_LIMIT
    decreases |rest|
  {
    hide Octets, IsAscii, WithinOctets, BeforeLast;
    var cut := FOLD_LIMIT - 1;
    if |rest| <= cut {
      LastPiece(rest);
      SpaceBefore(rest);
      WithinParts([SPACE] + rest, []);
      assert [[SPACE] + rest] + [] == [[SPACE] + rest];
    } else {
      var head, tail := rest[..cut], rest[cut..];
      var k := BeforeLast(|tail|);
      ContinuationOctets(tail);
      BeforeLastStep(|rest|);
      SpaceBefore(head);
      FullSegment([SPACE] + head);
      WithinParts([SPACE] + head, Continuations(tail));
      AsciiParts(head, tail[..k]);
      assert rest[..cut + k] == head + tail[..k] && rest[cut + k..] == tail[k..];
    }
  }

  lemma LastPiece(rest: Text)
    requires 0 < |rest| <= FOLD_LIMIT - 1
    ensures BeforeLast(|rest|) == 0 && rest[..0] == [] && rest[0..] == rest && IsAscii([])
    ensures WithinOctets([])
  {
  }

  /** How much of a line its physical lines before the last one take. */
  function FullPart(line: Text): (cut: nat)
    ensures cut <= |line|
  {
    if |line| <= FOLD_LIMIT then 0 else FOLD_LIMIT + BeforeLast(|line| - FOLD_LIMIT)
  }

  /**
   * Section 3.1 of RFC 5545 limits physical lines to 75 octets, the fold counts code units. A line keeps the
   * limit exactly when everything before its last physical line is ASCII and that one, its blank included,
   * has at most 75 octets.
   */
  lemma OctetLimit(line: Text)
    ensures var cut := FullPart(line);
            WithinOctets(Segments(line)) <==>
            IsAscii(line[..cut]) && Octets(line[cut..]) + (if cut == 0 then 0 else 1) <= 75
  {
    hide Octets, IsAscii, WithinOctets, BeforeLast, Continuations;
    if |line| <= FOLD_LIMIT {
      WithinParts(line, []);
      NothingLeft();
      assert [line] + [] == [line] && line[..0] == [] && line[0..] == line;
    } else {
      var head, tail := line[..FOLD_LIMIT], line[FOLD_LIMIT..];
      var k := BeforeLast(|tail|);
      ContinuationOctets(tail);
      FullSegment(head);
      WithinParts(head, Continuations(tail));
      AsciiParts(head, tail[..k]);
      assert line[..FOLD_LIMIT + k] == head + tail[..k] && line[FOLD_LIMIT + k..] == tail[k..];
    }
  }

  lemma NothingLeft()
    ensures IsAscii([]) && WithinOctets([])
  {
  }
}
