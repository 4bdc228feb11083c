/**
 What the widget shows of a stream it reads chunk by chunk, beside what it would show of the whole. A chunk
 that mentions the data field is read as events and any other as plain text, each from a fresh start.
 */
module ChunkedStream {
  import opened Options
  import opened Texts
  import opened SseParser

  // ---- one line at a time

  datatype Mode = Events | Plain

  /** What a chunk's reading carries from line to line: whether it has a receipt, and whether it has text. */
  datatype Reading = Reading(known: bool, started: bool)

  const FRESH := Reading(false, false)

  function ModeOf(chunk: string): Mode {
    if Includes(chunk, DATA_FIELD) then Events else Plain
  }

  /** What an event line shows: nothing without the field, and nothing of a receipt. */
  function EventLine(reader: Reader, at: Reading, line: string): (Reading, string) {
    match PayloadOf(line)
    case None => (at, "")
    case Some(payload) =>
      if !at.known && TakenAsReceipt(reader, payload) then (at.(known := true), "") else (at, Shown(reader, payload))
  }

  /** What a plain line shows: itself trimmed, behind a line feed unless it is the first. */
  function PlainLine(reader: Reader, at: Reading, line: string): (Reading, string) {
    var trimmed := reader.trim(line);
    if trimmed == "" then (at, "")
    else if !at.known && reader.receipt(trimmed).Some? then (at.(known := true), "")
    else if reader.status(trimmed).Some? || trimmed == "[DONE]" then (at, "")
    else (at.(started := true), (if at.started then "\n" else "") + trimmed)
  }

  function ReadLine(reader: Reader, mode: Mode, at: Reading, line: string): (Reading, string) {
    if mode.Events? then EventLine(reader, at, line) else PlainLine(reader, at, line)
  }

  function After(reader: Reader, mode: Mode, at: Reading, lines: seq<string>): Reading
    decreases lines
  {
    if lines == [] then at else After(reader, mode, ReadLine(reader, mode, at, lines[0]).0, lines[1..])
  }

  function TextOf(reader: Reader, mode: Mode, at: Reading, lines: seq<string>): string
    decreases lines
  {
    if lines == [] then ""
    else
      var (next, text) := ReadLine(reader, mode, at, lines[0]);
      text + TextOf(reader, mode, next, lines[1..])
  }

  lemma Join(a: string, b: string, c: string)
    ensures (a + b) + c == a + (b + c)
  {
  }

  lemma {:induction false} TextConcat(reader: Reader, mode: Mode, at: Reading, a: seq<string>, b: seq<string>)
    ensures TextOf(reader, mode, at, a + b) == TextOf(reader, mode, at, a)
            + TextOf(reader, mode, After(reader, mode, at, a), b)
    ensures After(reader, mode, at, a + b) == After(reader, mode, After(reader, mode, at, a), b)
    decreases a
  {
    if a == [] {
      assert a + b == b;
    } else {
      var (next, text) := ReadLine(reader, mode, at, a[0]);
      assert (a + b)[1..] == a[1..] + b;
      TextConcat(reader, mode, next, a[1..], b);
      Join(text, TextOf(reader, mode, next, a[1..]), TextOf(reader, mode, After(reader, mode, at, a), b));
    }
  }

  lemma {:induction false} OneLineText(reader: Reader, mode: Mode, at: Reading, line: string)
    ensures TextOf(reader, mode, at, [line]) == ReadLine(reader, mode, at, line).1
    ensures After(reader, mode, at, [line]) == ReadLine(reader, mode, at, line).0
  {
    assert [line][1..] == [];
  }

  lemma OneEventLine(reader: Reader, so: Parsed, line: string, at: Reading)
    requires at.known == so.receipt.Some? && PayloadOf(line).Some?
    ensures var (next, text) := EventLine(reader, at, line); var one := Absorb(reader, so, PayloadOf(line).value);
            one.text == so.text + text && next.known == one.receipt.Some?
  {
  }

  lemma {:induction false} PayloadsInFront(lines: seq<string>)
    requires lines != []
    ensures PayloadOf(lines[0]).None? ==> Payloads(lines) == Payloads(lines[1..])
    ensures PayloadOf(lines[0]).Some? ==>
              Payloads(lines) != [] && Payloads(lines)[0] == PayloadOf(lines[0]).value
                && Payloads(lines)[1..] == Payloads(lines[1..])
  {
    PayloadsFirst(lines);
  }

  lemma {:induction false} EventsText(reader: Reader, so: Parsed, lines: seq<string>, at: Reading)
    requires at.known == so.receipt.Some?
    ensures AbsorbAll(reader, so, Payloads(lines)).text == so.text + TextOf(reader, Events, at, lines)
    ensures AbsorbAll(reader, so, Payloads(lines)).receipt.Some? == After(reader, Events, at, lines).known
    decreases lines
  {
    if lines != [] {
      PayloadsInFront(lines);
      if PayloadOf(lines[0]).None? {
        EventsText(reader, so, lines[1..], at);
      } else {
        var (next, text) := EventLine(reader, at, lines[0]);
        OneEventLine(reader, so, lines[0], at);
        EventsText(reader, Absorb(reader, so, PayloadOf(lines[0]).value), lines[1..], next);
        Join(so.text, text, TextOf(reader, Events, next, lines[1..]));
      }
    }
  }

  /** Where the reading of plain lines stands. */
  function PointOf(so: Parsed): Reading { Reading(so.receipt.Some?, so.text != "") }

  lemma OnePlainLine(reader: Reader, so: Parsed, line: string)
    ensures var (next, text) := PlainLine(reader, PointOf(so), line);
            AbsorbLine(reader, so, line).text == so.text + text && PointOf(AbsorbLine(reader, so, line)) == next
  {
    Join(so.text, if so.text == "" then "" else "\n", reader.trim(line));
  }

  lemma {:induction false} PlainText(reader: Reader, so: Parsed, lines: seq<string>)
    ensures AbsorbLines(reader, so, lines).text == so.text + TextOf(reader, Plain, PointOf(so), lines)
    ensures PointOf(AbsorbLines(reader, so, lines)) == After(reader, Plain, PointOf(so), lines)
    decreases lines
  {
    if lines != [] {
      var (next, text) := PlainLine(reader, PointOf(so), lines[0]);
      OnePlainLine(reader, so, lines[0]);
      PlainText(reader, AbsorbLine(reader, so, lines[0]), lines[1..]);
      Join(so.text, text, TextOf(reader, Plain, next, lines[1..]));
    }
  }

  /** The text of a chunk is what its lines show, read in its mode from a fresh start. */
  lemma {:induction false} ChunkText(reader: Reader, chunk: string)
    ensures ParseChunk(reader, chunk).text == TextOf(reader, ModeOf(chunk), FRESH, Lines(chunk))
    ensures ParseChunk(reader, chunk).receipt.Some? == After(reader, ModeOf(chunk), FRESH, Lines(chunk)).known
    ensures ModeOf(chunk).Plain? ==>
              (ParseChunk(reader, chunk).text != "") == After(reader, Plain, FRESH, Lines(chunk)).started
  {
    if Includes(chunk, DATA_FIELD) {
      EventsText(reader, NOTHING, Lines(chunk), FRESH);
    } else {
      PlainText(reader, NOTHING, Lines(chunk));
    }
  }

  // ---- lines without the field

  lemma IncludesBehind(a: string, b: string, part: string)
    requires Includes(b, part)
    ensures Includes(a + b, part)
  {
    var i :| 0 <= i <= |b| && part <= b[i..];
    assert (a + b)[|a| + i..] == b[i..];
  }

  lemma FieldInFront(chunk: string, i: nat)
    requires i <= |chunk| && DATA_FIELD <= chunk[..i]
    ensures Includes(chunk, DATA_FIELD)
  {
    assert chunk[0..] == chunk;
  }

  /** No line of a text that does not mention the field is a data line. */
  lemma {:induction false} FieldFreeLines(chunk: string)
    requires !Includes(chunk, DATA_FIELD)
    ensures forall k :: 0 <= k < |Lines(chunk)| ==> !(DATA_FIELD <= Lines(chunk)[k])
    decreases |chunk|
  {
    var i := FirstFeed(chunk);
    DroppedIsPrefix(chunk[..i]);
    if DATA_FIELD <= chunk[..i] {
      FieldInFront(chunk, i);
    }
    if i < |chunk| {
      LinesOfEnded(chunk);
      assert chunk[..i + 1] + chunk[i + 1..] == chunk;
      if Includes(chunk[i + 1..], DATA_FIELD) {
        IncludesBehind(chunk[..i + 1], chunk[i + 1..], DATA_FIELD);
      }
      FieldFreeLines(chunk[i + 1..]);
    } else {
      LinesOfUnended(chunk);
      assert chunk[..i] == chunk;
    }
  }

  /** Lines that are no data lines show nothing as events. */
  lemma {:induction false} NoDataLinesShowNothing(reader: Reader, at: Reading, lines: seq<string>)
    requires forall k :: 0 <= k < |lines| ==> !(DATA_FIELD <= lines[k])
    ensures TextOf(reader, Events, at, lines) == "" && After(reader, Events, at, lines) == at
    decreases lines
  {
    if lines != [] {
      NoDataLinesShowNothing(reader, at, lines[1..]);
    }
  }

  // ---- a cut

  /** How many lines two readings in the same mode take to come to the same point. */
  function Meeting(reader: Reader, mode: Mode, s: Reading, t: Reading, lines: seq<string>): (k: nat)
    ensures k <= |lines|
    decreases lines
  {
    if s == t || lines == [] then 0
    else 1 + Meeting(reader, mode, ReadLine(reader, mode, s, lines[0]).0, ReadLine(reader, mode, t, lines[0]).0,
                     lines[1..])
  }

  /** From there on they show the same. */
  lemma {:induction false} AlikeBehindTheMeeting(reader: Reader, mode: Mode, s: Reading, t: Reading, lines: seq<string>)
    returns (rest: string)
    ensures var near := lines[..Meeting(reader, mode, s, t, lines)];
            && TextOf(reader, mode, s, lines) == TextOf(reader, mode, s, near) + rest
            && TextOf(reader, mode, t, lines) == TextOf(reader, mode, t, near) + rest
    decreases lines
  {
    var k := Meeting(reader, mode, s, t, lines);
    if k == 0 {
      rest := TextOf(reader, mode, s, lines);
    } else {
      var (sNext, sText) := ReadLine(reader, mode, s, lines[0]);
      var (tNext, tText) := ReadLine(reader, mode, t, lines[0]);
      rest := AlikeBehindTheMeeting(reader, mode, sNext, tNext, lines[1..]);
      assert lines[..k][1..] == lines[1..][..k - 1] && lines[..k][0] == lines[0];
      Join(sText, TextOf(reader, mode, sNext, lines[1..][..k - 1]), rest);
      Join(tText, TextOf(reader, mode, tNext, lines[1..][..k - 1]), rest);
    }
  }

  function Front(a: string): seq<string> { Lines(a)[..|Lines(a)| - 1] }

  function Behind(b: string): seq<string> { Lines(b)[1..] }

  /** Where the reading stands in front of the line that is cut. */
  function AtCut(reader: Reader, mode: Mode, a: string): Reading { After(reader, mode, FRESH, Front(a)) }

  /** What the first part shows in front of the cut, if the whole reads it in another mode and shows nothing of it. */
  function Before(reader: Reader, a: string, b: string): string {
    if ModeOf(a) == ModeOf(a + b) then "" else TextOf(reader, ModeOf(a), FRESH, Front(a))
  }

  /** What the first part shows of the line that is cut. */
  function LeftOfCut(reader: Reader, a: string): string {
    ReadLine(reader, ModeOf(a), AtCut(reader, ModeOf(a), a), LastLine(a)).1
  }

  /**
   The parts show what the whole shows at the cut: the cut line's two halves together with the lines behind
   them, up to where both readings stand alike, beside the one line of the whole and the same lines.
   */
  predicate CutShows(reader: Reader, a: string, b: string) {
    var mode := ModeOf(a + b);
    var (alone, right) := ReadLine(reader, ModeOf(b), FRESH, FirstLine(b));
    var (joined, line) := ReadLine(reader, mode, AtCut(reader, mode, a), FirstLine(LastLine(a) + b));
    var near := Near(reader, ModeOf(b), mode, alone, joined, Behind(b));
    (Before(reader, a, b) + LeftOfCut(reader, a)) + (right + TextOf(reader, ModeOf(b), alone, near))
    == line + TextOf(reader, mode, joined, near)
  }

  /** The lines on which two readings may differ: all of them in two modes, in one those before they meet. */
  function Near(reader: Reader, own: Mode, mode: Mode, s: Reading, t: Reading, lines: seq<string>): seq<string> {
    if own == mode then lines[..Meeting(reader, mode, s, t, lines)] else lines
  }

  lemma {:induction false} FrontAndLast(reader: Reader, mode: Mode, a: string)
    ensures TextOf(reader, mode, FRESH, Lines(a))
         == TextOf(reader, mode, FRESH, Front(a)) + ReadLine(reader, mode, AtCut(reader, mode, a), LastLine(a)).1
    ensures After(reader, mode, FRESH, Lines(a)) == ReadLine(reader, mode, AtCut(reader, mode, a), LastLine(a)).0
  {
    assert Lines(a) == Front(a) + [LastLine(a)];
    TextConcat(reader, mode, FRESH, Front(a), [LastLine(a)]);
    OneLineText(reader, mode, AtCut(reader, mode, a), LastLine(a));
  }

  lemma {:induction false} FirstAndBehind(reader: Reader, mode: Mode, at: Reading, b: string)
    ensures var (next, text) := ReadLine(reader, mode, at, FirstLine(b));
            TextOf(reader, mode, at, Lines(b)) == text + TextOf(reader, mode, next, Behind(b))
  {
  }

  /** What the whole shows: in front of the cut line, of it, and behind it. */
  lemma {:induction false} WholeText(reader: Reader, mode: Mode, a: string, b: string)
    ensures var (next, line) := ReadLine(reader, mode, AtCut(reader, mode, a), FirstLine(LastLine(a) + b));
            TextOf(reader, mode, FRESH, Lines(a + b)) ==
            TextOf(reader, mode, FRESH, Front(a)) + (line + TextOf(reader, mode, next, Behind(b)))
  {
    LinesMeet(a, b);
    LinesRunOn(LastLine(a), b);
    TextConcat(reader, mode, FRESH, Front(a), Lines(LastLine(a) + b));
    FirstAndBehind(reader, mode, AtCut(reader, mode, a), LastLine(a) + b);
  }

  /** A chunk that is read as plain text though the whole is read as events adds nothing to the whole. */
  lemma {:induction false} ModesDiffer(reader: Reader, a: string, b: string)
    ensures ModeOf(a) != ModeOf(a + b) ==> ModeOf(a).Plain? && TextOf(reader, Events, FRESH, Front(a)) == ""
                                           && AtCut(reader, Events, a) == FRESH
    ensures ModeOf(b) != ModeOf(a + b) ==> ModeOf(b).Plain? && forall at :: TextOf(reader, Events, at, Behind(b)) == ""
  {
    if Includes(a, DATA_FIELD) {
      IncludesLonger(a, b, DATA_FIELD);
    } else {
      FieldFreeLines(a);
      NoDataLinesShowNothing(reader, FRESH, Front(a));
    }
    if Includes(b, DATA_FIELD) {
      IncludesBehind(a, b, DATA_FIELD);
    } else {
      FieldFreeLines(b);
      forall at ensures TextOf(reader, Events, at, Behind(b)) == "" {
        NoDataLinesShowNothing(reader, at, Behind(b));
      }
    }
  }

  /** Behind the cut, both readings show the lines near it and the same rest. */
  lemma {:induction false} BehindCut(reader: Reader, a: string, b: string, alone: Reading, joined: Reading)
    returns (rest: string)
    ensures var own, mode := ModeOf(b), ModeOf(a + b); var near := Near(reader, own, mode, alone, joined, Behind(b));
            && TextOf(reader, own, alone, Behind(b)) == TextOf(reader, own, alone, near) + rest
            && TextOf(reader, mode, joined, Behind(b)) == TextOf(reader, mode, joined, near) + rest
  {
    if ModeOf(b) == ModeOf(a + b) {
      rest := AlikeBehindTheMeeting(reader, ModeOf(b), alone, joined, Behind(b));
    } else {
      rest := "";
    }
  }

  lemma CancelText(front: string, u: string, v: string, rest: string)
    ensures (front + u) + rest == (front + v) + rest <==> u == v
  {
    if (front + u) + rest == (front + v) + rest {
      assert |u| == |v|;
      assert u == ((front + u) + rest)[|front|..|front| + |u|];
      assert v == ((front + v) + rest)[|front|..|front| + |v|];
    }
  }

  lemma Gather(front: string, left: string, right: string, near: string, rest: string)
    ensures (front + left) + (right + (near + rest)) == (front + (left + (right + near))) + rest
  {
    Join(right, near, rest);
    Join(front, left, right + (near + rest));
    Join(left, right + near, rest);
    Join(front, left + (right + near), rest);
  }

  lemma GatherWhole(front: string, line: string, near: string, rest: string)
    ensures front + (line + (near + rest)) == (front + (line + near)) + rest
  {
    Join(line, near, rest);
    Join(front, line + near, rest);
  }

  lemma CutDecides(front: string, cut: string, right: string, near: string, line: string, nearWhole: string,
                   rest: string)
    ensures (front + cut) + (right + (near + rest)) == front + (line + (nearWhole + rest))
            <==> cut + (right + near) == line + nearWhole
  {
    Gather(front, cut, right, near, rest);
    GatherWhole(front, line, nearWhole, rest);
    CancelText(front, cut + (right + near), line + nearWhole, rest);
  }

  /** The first part, in front of the cut as the whole shows it, and at the cut. */
  lemma {:induction false} FirstPart(reader: Reader, a: string, b: string)
    ensures ParseChunk(reader, a).text == TextOf(reader, ModeOf(a + b), FRESH, Front(a))
            + (Before(reader, a, b) + LeftOfCut(reader, a))
  {
    ChunkText(reader, a);
    FrontAndLast(reader, ModeOf(a), a);
    ModesDiffer(reader, a, b);
    assert "" + LeftOfCut(reader, a) == LeftOfCut(reader, a);
  }

  /**
   Two chunks show what the whole would show if and only if they do at the cut, whichever of the chunks and
   the whole mention the field.
   */
  lemma {:induction false} ChunksShowTheWholeExactly(reader: Reader, a: string, b: string)
    ensures ParseChunk(reader, a).text + ParseChunk(reader, b).text == ParseChunk(reader, a + b).text
            <==> CutShows(reader, a, b)
  {
    var mode := ModeOf(a + b);
    var (alone, right) := ReadLine(reader, ModeOf(b), FRESH, FirstLine(b));
    var (joined, line) := ReadLine(reader, mode, AtCut(reader, mode, a), FirstLine(LastLine(a) + b));
    var near := Near(reader, ModeOf(b), mode, alone, joined, Behind(b));
    FirstPart(reader, a, b);
    ChunkText(reader, b);
    FirstAndBehind(reader, ModeOf(b), FRESH, b);
    ChunkText(reader, a + b);
    WholeText(reader, mode, a, b);
    var rest := BehindCut(reader, a, b, alone, joined);
    CutDecides(TextOf(reader, mode, FRESH, Front(a)), Before(reader, a, b) + LeftOfCut(reader, a),
               right, TextOf(reader, ModeOf(b), alone, near), line, TextOf(reader, mode, joined, near), rest);
  }

  /** A chunk of events in front of plain text: the plain text must be just what the cut line lacks. */
  lemma {:induction false} PlainBehindEventsExactly(reader: Reader, a: string, b: string)
    requires Includes(a, DATA_FIELD) && !Includes(b, DATA_FIELD)
    ensures var line := ReadLine(reader, Events, AtCut(reader, Events, a), FirstLine(LastLine(a) + b)).1;
            ParseChunk(reader, a).text + ParseChunk(reader, b).text == ParseChunk(reader, a + b).text <==>
            LeftOfCut(reader, a) + ParseChunk(reader, b).text == line
  {
    ChunksShowTheWholeExactly(reader, a, b);
    IncludesLonger(a, b, DATA_FIELD);
    ModesDiffer(reader, a, b);
    ChunkText(reader, b);
    FirstAndBehind(reader, Plain, FRESH, b);
    var (alone, right) := ReadLine(reader, Plain, FRESH, FirstLine(b));
    NothingAround(LeftOfCut(reader, a), right + TextOf(reader, Plain, alone, Behind(b)),
                  ReadLine(reader, Events, AtCut(reader, Events, a), FirstLine(LastLine(a) + b)).1);
  }

  lemma NothingAround(left: string, right: string, line: string)
    ensures ("" + left) + right == line + "" <==> left + right == line
  {
    assert "" + left == left && line + "" == line;
  }

  /**
   A field name cut in two: both parts together must show just what
   the payload behind the name shows, if it starts a line.
   */
  lemma {:induction false} CutFieldNameExactly(reader: Reader, a: string, b: string)
    requires !Includes(a, DATA_FIELD) && !Includes(b, DATA_FIELD) && Includes(a + b, DATA_FIELD)
    ensures var line := ReadLine(reader, Events, FRESH, FirstLine(LastLine(a) + b)).1;
            ParseChunk(reader, a).text + ParseChunk(reader, b).text == ParseChunk(reader, a + b).text <==>
            ParseChunk(reader, a).text + ParseChunk(reader, b).text == line
  {
    ChunkText(reader, a + b);
    WholeText(reader, Events, a, b);
    ModesDiffer(reader, a, b);
  }

  /** In one mode, and with both readings at the same point behind the cut line, that line alone decides. */
  lemma {:induction false} CutLineDecides(reader: Reader, a: string, b: string)
    requires ModeOf(a) == ModeOf(b) == ModeOf(a + b)
    requires ReadLine(reader, ModeOf(a), FRESH, FirstLine(b)).0
          == ReadLine(reader, ModeOf(a), AtCut(reader, ModeOf(a), a), FirstLine(LastLine(a) + b)).0
    ensures var right := ReadLine(reader, ModeOf(a), FRESH, FirstLine(b)).1;
            var line := ReadLine(reader, ModeOf(a), AtCut(reader, ModeOf(a), a), FirstLine(LastLine(a) + b)).1;
            ParseChunk(reader, a).text + ParseChunk(reader, b).text == ParseChunk(reader, a + b).text <==>
            LeftOfCut(reader, a) + right == line
  {
    ChunksShowTheWholeExactly(reader, a, b);
    var (at, right) := ReadLine(reader, ModeOf(a), FRESH, FirstLine(b));
    var line := ReadLine(reader, ModeOf(a), AtCut(reader, ModeOf(a), a), FirstLine(LastLine(a) + b)).1;
    assert Near(reader, ModeOf(b), ModeOf(b), at, at, Behind(b)) == [];
    NothingAround(LeftOfCut(reader, a), right + "", line);
    assert right + "" == right;
  }

  // ---- a cut behind a line end

  /** The first line that could be a receipt would show something if a receipt were known already. */
  predicate HidesText(reader: Reader, mode: Mode, lines: seq<string>) {
    lines != [] &&
    if ReadLine(reader, mode, FRESH, lines[0]).0.known then
      ReadLine(reader, mode, Reading(true, false), lines[0]).1 != ""
    else HidesText(reader, mode, lines[1..])
  }

  lemma {:induction false} AheadShowsMore(reader: Reader, mode: Mode, s: Reading, t: Reading, lines: seq<string>)
    requires (s.known ==> t.known) && (s.started ==> t.started)
    ensures |TextOf(reader, mode, s, lines)| <= |TextOf(reader, mode, t, lines)|
    ensures |TextOf(reader, mode, s, lines)| == |TextOf(reader, mode, t, lines)| ==>
              TextOf(reader, mode, s, lines) == TextOf(reader, mode, t, lines)
    decreases lines
  {
    if lines != [] {
      AheadShowsMore(reader, mode, ReadLine(reader, mode, s, lines[0]).0, ReadLine(reader, mode, t, lines[0]).0,
                     lines[1..]);
    }
  }

  lemma {:induction false} KnownShowsMoreExactly(reader: Reader, mode: Mode, started: bool, lines: seq<string>)
    ensures TextOf(reader, mode, Reading(true, started), lines) == TextOf(reader, mode, Reading(false, started), lines)
       <==> !HidesText(reader, mode, lines)
    decreases lines
  {
    if lines != [] {
      var (s, sText) := ReadLine(reader, mode, Reading(false, started), lines[0]);
      var (t, tText) := ReadLine(reader, mode, Reading(true, started), lines[0]);
      AheadShowsMore(reader, mode, s, t, lines[1..]);
      if !s.known {
        assert sText == tText && t == s.(known := true);
        KnownShowsMoreExactly(reader, mode, s.started, lines[1..]);
        CancelText(sText, TextOf(reader, mode, s, lines[1..]), TextOf(reader, mode, t, lines[1..]), "");
      }
    }
  }

  lemma {:induction false} StartedShowsMoreExactly(reader: Reader, mode: Mode, known: bool, lines: seq<string>)
    ensures TextOf(reader, mode, Reading(known, true), lines) == TextOf(reader, mode, Reading(known, false), lines)
       <==> mode.Events? || TextOf(reader, mode, Reading(known, false), lines) == ""
    decreases lines
  {
    if lines != [] {
      var (s, sText) := ReadLine(reader, mode, Reading(known, false), lines[0]);
      var (t, tText) := ReadLine(reader, mode, Reading(known, true), lines[0]);
      if !s.started {
        assert sText == tText && t == s.(started := true);
        StartedShowsMoreExactly(reader, mode, s.known, lines[1..]);
        CancelText(sText, TextOf(reader, mode, s, lines[1..]), TextOf(reader, mode, t, lines[1..]), "");
      } else {
        assert s == t && |tText| == |sText| + 1 && sText != "";
      }
    }
  }

  /**
   Read on from another point, lines show what they show from a
   fresh start exactly if no receipt and no line break tells.
   */
  lemma {:induction false} FromAnywhereExactly(reader: Reader, mode: Mode, at: Reading, lines: seq<string>)
    ensures TextOf(reader, mode, at, lines) == TextOf(reader, mode, FRESH, lines) <==>
            (at.known ==> !HidesText(reader, mode, lines))
            && (at.started && mode.Plain? ==> TextOf(reader, mode, FRESH, lines) == "")
  {
    AheadShowsMore(reader, mode, FRESH, Reading(false, at.started), lines);
    AheadShowsMore(reader, mode, Reading(false, at.started), at, lines);
    KnownShowsMoreExactly(reader, mode, at.started, lines);
    StartedShowsMoreExactly(reader, mode, false, lines);
  }

  lemma NameHasNoFeed(a: string, b: string, i: nat)
    requires a != "" && a[|a| - 1] == '\n' && i <= |a + b| && DATA_FIELD <= (a + b)[i..]
    ensures Includes(a, DATA_FIELD) || Includes(b, DATA_FIELD)
  {
    var whole := a + b;
    if i >= |a| {
      assert whole[i..] == b[i - |a|..];
    } else {
      assert forall k :: 0 <= k < |DATA_FIELD| ==> whole[i..][k] == whole[i + k] == DATA_FIELD[k];
      assert whole[|a| - 1] == '\n';
      assert i + |DATA_FIELD| < |a|;
      assert DATA_FIELD <= a[i..];
    }
  }

  lemma NoMentionAcross(a: string, b: string)
    requires a != "" && a[|a| - 1] == '\n'
    ensures Includes(a + b, DATA_FIELD) <==> Includes(a, DATA_FIELD) || Includes(b, DATA_FIELD)
  {
    if Includes(a + b, DATA_FIELD) {
      var i :| 0 <= i <= |a + b| && DATA_FIELD <= (a + b)[i..];
      NameHasNoFeed(a, b, i);
    } else if Includes(a, DATA_FIELD) {
      IncludesLonger(a, b, DATA_FIELD);
    } else if Includes(b, DATA_FIELD) {
      IncludesBehind(a, b, DATA_FIELD);
    }
  }

  /** Where a text that ends a line is cut off, the readings stand as at its end. */
  lemma {:induction false} EndedPoint(reader: Reader, mode: Mode, a: string)
    requires a != "" && a[|a| - 1] == '\n' && reader.trim("") == ""
    ensures AtCut(reader, mode, a) == After(reader, mode, FRESH, Lines(a))
    ensures TextOf(reader, mode, FRESH, Lines(a)) == TextOf(reader, mode, FRESH, Front(a))
  {
    EndedLeavesNothing(a);
    FrontAndLast(reader, mode, a);
  }

  lemma {:induction false} EndedWhole(reader: Reader, mode: Mode, a: string, b: string)
    requires a != "" && a[|a| - 1] == '\n'
    ensures TextOf(reader, mode, FRESH, Lines(a + b))
         == TextOf(reader, mode, FRESH, Front(a)) + TextOf(reader, mode, AtCut(reader, mode, a), Lines(b))
  {
    EndedLeavesNothing(a);
    LinesMeet(a, b);
    assert "" + b == b;
    TextConcat(reader, mode, FRESH, Front(a), Lines(b));
  }

  lemma {:induction false} EventsAreFresh(reader: Reader, at: Reading, lines: seq<string>)
    ensures After(reader, Events, at, lines).started == at.started
    decreases lines
  {
    if lines != [] {
      EventsAreFresh(reader, EventLine(reader, at, lines[0]).0, lines[1..]);
    }
  }

  /**
   What a cut behind a line end needs. Events: that the second part holds nothing visible that would be taken for a
   second receipt. Plain text: that too, and that one part shows nothing, since the line break between them goes.
   One of each: that the plain part shows nothing, since the whole shows none of it.
   */
  predicate LineEndedShows(reader: Reader, a: string, b: string) {
    var first, second := ParseChunk(reader, a), ParseChunk(reader, b);
    match (ModeOf(a), ModeOf(b))
    case (Events, Events) => first.receipt.Some? ==> !HidesText(reader, Events, Lines(b))
    case (Events, Plain) => second.text == ""
    case (Plain, Events) => first.text == ""
    case (Plain, Plain) =>
      (first.receipt.Some? ==> !HidesText(reader, Plain, Lines(b))) && (first.text == "" || second.text == "")
  }

  lemma {:induction false} SameModeLineEnded(reader: Reader, a: string, b: string)
    requires a != "" && a[|a| - 1] == '\n' && reader.trim("") == "" && ModeOf(a) == ModeOf(b)
    ensures ParseChunk(reader, a).text + ParseChunk(reader, b).text == ParseChunk(reader, a + b).text
            <==> LineEndedShows(reader, a, b)
  {
    var mode, front := ModeOf(a), TextOf(reader, ModeOf(a), FRESH, Front(a));
    NoMentionAcross(a, b);
    ChunkText(reader, a);
    ChunkText(reader, b);
    ChunkText(reader, a + b);
    EndedPoint(reader, mode, a);
    EndedWhole(reader, mode, a, b);
    EventsAreFresh(reader, FRESH, Lines(a));
    FromAnywhereExactly(reader, mode, AtCut(reader, mode, a), Lines(b));
    CancelFront(front, TextOf(reader, mode, FRESH, Lines(b)), TextOf(reader, mode, AtCut(reader, mode, a), Lines(b)));
  }

  lemma CancelFront(front: string, u: string, v: string)
    ensures front + u == front + v <==> u == v
  {
    CancelText(front, u, v, "");
    assert (front + u) + "" == front + u && (front + v) + "" == front + v;
  }

  /**
   Of a line-ended part read as plain text in front of events, or
   of plain text behind them, the whole shows nothing.
   */
  lemma {:induction false} EventsShowNoPlainText(reader: Reader, a: string, b: string)
    requires a != "" && a[|a| - 1] == '\n' && ModeOf(a) != ModeOf(b) && reader.trim("") == ""
    ensures ParseChunk(reader, a + b).text ==
              if ModeOf(a).Plain? then ParseChunk(reader, b).text else ParseChunk(reader, a).text
  {
    ModesDiffer(reader, a, b);
    ChunkText(reader, a);
    ChunkText(reader, b);
    ChunkText(reader, a + b);
    EndedPoint(reader, ModeOf(a), a);
    EndedWhole(reader, Events, a, b);
    if ModeOf(b).Plain? {
      FieldFreeLines(b);
      NoDataLinesShowNothing(reader, AtCut(reader, Events, a), Lines(b));
    }
  }

  /** For every cut behind a line end, the exact condition in what the two chunks themselves show. */
  lemma {:induction false} LineEndedCutShowsExactly(reader: Reader, a: string, b: string)
    requires a != "" && a[|a| - 1] == '\n' && reader.trim("") == ""
    ensures ParseChunk(reader, a).text + ParseChunk(reader, b).text == ParseChunk(reader, a + b).text
            <==> LineEndedShows(reader, a, b)
  {
    if ModeOf(a) == ModeOf(b) {
      SameModeLineEnded(reader, a, b);
    } else {
      EventsShowNoPlainText(reader, a, b);
    }
  }

  // ---- a whole stream

  /** The text the chunks of one reply show, each chunk read on its own. */
  function ShownText(reader: Reader, chunks: seq<string>): string {
    if chunks == [] then ""
    else ShownText(reader, chunks[..|chunks| - 1]) + ParseChunk(reader, chunks[|chunks| - 1]).text
  }

  predicate ShownRight(reader: Reader, chunks: seq<string>) {
    ShownText(reader, chunks) == ParseChunk(reader, Flatten(chunks)).text
  }

  /** After every chunk, the widget shows what it would show of everything received in one piece. */
  predicate ShownThroughout(reader: Reader, chunks: seq<string>) {
    chunks == [] || (ShownThroughout(reader, chunks[..|chunks| - 1]) && ShownRight(reader, chunks))
  }

  /** Every chunk but the first shows, behind what came before it, what the whole shows at the cut. */
  predicate EveryCutShows(reader: Reader, chunks: seq<string>) {
    |chunks| <= 1
    || (EveryCutShows(reader, chunks[..|chunks| - 1])
        && CutShows(reader, Flatten(chunks[..|chunks| - 1]), chunks[|chunks| - 1]))
  }

  lemma {:induction false} FirstChunk(reader: Reader, chunk: string)
    ensures ShownRight(reader, [chunk])
  {
    assert [chunk][..0] == [] && [chunk][1..] == [];
    assert chunk + "" == chunk && "" + ParseChunk(reader, chunk).text == ParseChunk(reader, chunk).text;
  }

  /** A stream shown rightly so far stays right exactly if the next boundary shows. */
  lemma {:induction false} ShownOneMore(reader: Reader, front: seq<string>, chunk: string)
    requires front != [] && ShownRight(reader, front)
    ensures ShownRight(reader, front + [chunk]) <==> CutShows(reader, Flatten(front), chunk)
  {
    assert (front + [chunk])[..|front|] == front;
    FlattenAppend(front, chunk);
    ChunksShowTheWholeExactly(reader, Flatten(front), chunk);
  }

  /**
   The widget shows the same chunk by chunk as it would of everything received in one piece, after every chunk,
   if and only if it does at every boundary.
   */
  lemma {:induction false} StreamShownExactly(reader: Reader, chunks: seq<string>)
    ensures ShownThroughout(reader, chunks) <==> EveryCutShows(reader, chunks)
  {
    if |chunks| == 1 {
      FirstChunk(reader, chunks[0]);
      assert chunks == [chunks[0]];
    } else if chunks != [] {
      var front, chunk := chunks[..|chunks| - 1], chunks[|chunks| - 1];
      StreamShownExactly(reader, front);
      if ShownThroughout(reader, front) {
        assert chunks == front + [chunk];
        ShownOneMore(reader, front, chunk);
      }
    }
  }

  // ---- what the cuts do to ordinary text

  /** A payload or a line that is neither receipt, status, delta nor marker. */
  predicate Ordinary(reader: Reader, text: string) {
    reader.receipt(text).None? && reader.status(text).None? && reader.delta(text).None? && text != "[DONE]"
  }

  /** An ordinary line of plain text, without spaces around it and without the field. */
  predicate OrdinaryLine(reader: Reader, line: string) {
    Ordinary(reader, line) && line != "" && OneLine(line) && reader.trim(line) == line && !Includes(line, DATA_FIELD)
  }

  lemma MentionEnded(line: string)
    requires Includes(line + "\n", DATA_FIELD)
    ensures Includes(line, DATA_FIELD)
  {
    var ended := line + "\n";
    var i :| 0 <= i <= |ended| && DATA_FIELD <= ended[i..];
    assert forall k :: 0 <= k < |DATA_FIELD| ==> ended[i..][k] == ended[i + k] == DATA_FIELD[k];
    assert ended[|line|] == '\n';
    assert i + |DATA_FIELD| <= |line|;
    assert DATA_FIELD <= line[i..];
  }

  lemma {:induction false} EndedLine(line: string, rest: string)
    requires OneLine(line)
    ensures Lines(line + "\n" + rest) == [line] + Lines(rest)
  {
    LinesStep(line, rest);
  }

  lemma {:induction false} OneEndedLine(line: string)
    requires OneLine(line)
    ensures Lines(line + "\n") == [line] + [""]
  {
    EndedLine(line, "");
    assert Lines("") == [""] && line + "\n" + "" == line + "\n";
  }

  /** An ordinary line shows itself, ended or not, behind a line break unless it is the first. */
  lemma {:induction false} LineShowsItself(reader: Reader, at: Reading, line: string)
    requires OrdinaryLine(reader, line) && reader.trim("") == ""
    ensures TextOf(reader, Plain, at, [line]) == (if at.started then "\n" else "") + line
    ensures TextOf(reader, Plain, at, [line] + [""]) == (if at.started then "\n" else "") + line
    ensures After(reader, Plain, at, [line]) == at.(started := true)
  {
    OneLineText(reader, Plain, at, line);
    OneLineText(reader, Plain, at.(started := true), "");
    TextConcat(reader, Plain, at, [line], [""]);
  }

  lemma {:induction false} LineIsShown(reader: Reader, line: string)
    requires OrdinaryLine(reader, line) && reader.trim("") == ""
    ensures ParseChunk(reader, line).text == line && ParseChunk(reader, line + "\n").text == line
    ensures ModeOf(line + "\n").Plain?
  {
    if Includes(line + "\n", DATA_FIELD) {
      MentionEnded(line);
    }
    UnendedLast(line);
    OneEndedLine(line);
    ChunkText(reader, line);
    ChunkText(reader, line + "\n");
    LineShowsItself(reader, FRESH, line);
  }

  lemma StartsWithField(rest: string)
    ensures Includes(DATA_FIELD + rest, DATA_FIELD)
  {
    assert (DATA_FIELD + rest)[0..] == DATA_FIELD + rest;
  }

  lemma {:induction false} OneEvent(reader: Reader, chunk: string, payload: string)
    requires Includes(chunk, DATA_FIELD) && Parse(chunk) == [payload] && Ordinary(reader, payload)
    ensures ParseChunk(reader, chunk).text == payload
  {
    var one := Absorb(reader, NOTHING, payload);
    assert one.text == "" + payload == payload;
    assert [payload][1..] == [] && AbsorbAll(reader, NOTHING, [payload]) == AbsorbAll(reader, one, []);
  }

  lemma {:induction false} TwoEvents(reader: Reader, chunk: string, first: string, second: string)
    requires Includes(chunk, DATA_FIELD) && Parse(chunk) == [first, second] && Ordinary(reader, first)
             && Ordinary(reader, second)
    ensures ParseChunk(reader, chunk).text == first + second
  {
    var one := Absorb(reader, NOTHING, first);
    var two := Absorb(reader, one, second);
    assert one.text == "" + first == first && two.text == first + second;
    assert [first, second][1..] == [second] && AbsorbAll(reader, NOTHING, [first, second])
           == AbsorbAll(reader, one, [second]);
    assert [second][1..] == [] && AbsorbAll(reader, one, [second]) == AbsorbAll(reader, two, []);
  }

  lemma {:induction false} DataLineShows(reader: Reader, payload: string)
    requires OneLine(payload) && Ordinary(reader, Unspaced(payload))
    ensures ParseChunk(reader, DATA_FIELD + payload).text == Unspaced(payload)
    ensures ParseChunk(reader, DATA_FIELD + payload + "\n").text == Unspaced(payload)
    ensures Includes(DATA_FIELD + payload + "\n", DATA_FIELD)
  {
    StartsWithField(payload);
    IncludesLonger(DATA_FIELD + payload, "\n", DATA_FIELD);
    UnfinishedLine(DATA_FIELD + payload);
    FieldValue(payload);
    WholeLineIsOnePayload(payload);
    OneEvent(reader, DATA_FIELD + payload, Unspaced(payload));
    OneEvent(reader, DATA_FIELD + payload + "\n", Unspaced(payload));
  }

  lemma {:induction false} TwoShown(reader: Reader, a: string, b: string)
    ensures ShownText(reader, [a, b]) == ParseChunk(reader, a).text + ParseChunk(reader, b).text
  {
    assert [a, b][..1] == [a] && [a][..0] == [];
    assert ShownText(reader, [a]) == "" + ParseChunk(reader, a).text;
  }

  /** A boundary inside the field name shows the name with the payload, for every payload and every such boundary. */
  lemma {:induction false} CutFieldNameIsShown(reader: Reader, payload: string, cut: nat)
    requires 0 < cut < |DATA_FIELD| && reader.trim("") == "" && OneLine(payload) && Ordinary(reader, Unspaced(payload))
    requires OrdinaryLine(reader, DATA_FIELD[..cut]) && OrdinaryLine(reader, DATA_FIELD[cut..] + payload)
    ensures ShownText(reader, [DATA_FIELD[..cut], DATA_FIELD[cut..] + payload + "\n"]) == DATA_FIELD + payload
    ensures ParseChunk(reader, DATA_FIELD + payload + "\n").text == Unspaced(payload)
  {
    LineIsShown(reader, DATA_FIELD[..cut]);
    LineIsShown(reader, DATA_FIELD[cut..] + payload);
    TwoShown(reader, DATA_FIELD[..cut], DATA_FIELD[cut..] + payload + "\n");
    Join(DATA_FIELD[..cut], DATA_FIELD[cut..], payload);
    DataLineShows(reader, payload);
  }

  lemma UnspacedJoin(front: string, back: string)
    requires back != ""
    ensures Unspaced(front) + back == Unspaced(front + back) <==> front != "" || back[0] != ' '
  {
    if front == "" {
      assert front + back == back;
    }
  }

  lemma OneLineJoin(front: string, back: string)
    requires OneLine(front) && OneLine(back)
    ensures OneLine(front + back)
  {
    if back == "" {
      assert front + back == front;
    }
  }

  /** A boundary inside a payload of field-free text shows all of it, but for the space the field drops. */
  lemma {:induction false} CutPayloadIsShownExactly(reader: Reader, front: string, back: string)
    requires reader.trim("") == "" && OneLine(front) && Ordinary(reader, Unspaced(front))
    requires OrdinaryLine(reader, back) && Ordinary(reader, Unspaced(front + back))
    ensures ShownText(reader, [DATA_FIELD + front, back + "\n"]) == Unspaced(front) + back
    ensures ParseChunk(reader, DATA_FIELD + (front + back) + "\n").text == Unspaced(front + back)
    ensures Unspaced(front) + back == Unspaced(front + back) <==> front != "" || back[0] != ' '
  {
    DataLineShows(reader, front);
    LineIsShown(reader, back);
    TwoShown(reader, DATA_FIELD + front, back + "\n");
    OneLineJoin(front, back);
    DataLineShows(reader, front + back);
    UnspacedJoin(front, back);
  }

  lemma {:induction false} LineInFront(line: string, behind: string, payload: string)
    requires OneLine(line) && Parse(behind) == [payload]
    ensures Parse(line + "\n" + behind) == (if PayloadOf(line).Some? then [PayloadOf(line).value] else []) + [payload]
  {
    EndedLine(line, behind);
    PayloadsConcat([line], Lines(behind));
    OnePayload(line);
  }

  /** The rest of a payload is dropped if the chunk it stands in mentions the field further on. */
  lemma {:induction false} RestBehindACutIsDropped(reader: Reader, front: string, back: string, next: string)
    requires OneLine(front) && OneLine(back) && OneLine(next) && !(DATA_FIELD <= back)
    requires Ordinary(reader, Unspaced(front)) && Ordinary(reader, Unspaced(next))
             && Ordinary(reader, Unspaced(front + back))
    ensures var behind := DATA_FIELD + next + "\n";
            && ShownText(reader, [DATA_FIELD + front, back + "\n" + behind]) == Unspaced(front) + Unspaced(next)
            && ParseChunk(reader, DATA_FIELD + (front + back) + "\n" + behind).text
               == Unspaced(front + back) + Unspaced(next)
  {
    DataLineShows(reader, front);
    DataLineShows(reader, next);
    WholeLineIsOnePayload(next);
    DroppedRest(reader, back, DATA_FIELD + next + "\n", Unspaced(next));
    TwoShown(reader, DATA_FIELD + front, back + "\n" + (DATA_FIELD + next + "\n"));
    OneLineJoin(front, back);
    EventInFront(reader, front + back, DATA_FIELD + next + "\n", Unspaced(next));
  }

  lemma {:induction false} DroppedRest(reader: Reader, back: string, behind: string, next: string)
    requires OneLine(back) && !(DATA_FIELD <= back) && Includes(behind, DATA_FIELD) && Parse(behind) == [next]
             && Ordinary(reader, next)
    ensures ParseChunk(reader, back + "\n" + behind).text == next
  {
    LineInFront(back, behind, next);
    assert [] + [next] == [next];
    IncludesBehind(back + "\n", behind, DATA_FIELD);
    OneEvent(reader, back + "\n" + behind, next);
  }

  lemma {:induction false} EventInFront(reader: Reader, payload: string, behind: string, next: string)
    requires OneLine(payload) && Ordinary(reader, Unspaced(payload))
    requires Includes(behind, DATA_FIELD) && Parse(behind) == [next] && Ordinary(reader, next)
    ensures ParseChunk(reader, DATA_FIELD + payload + "\n" + behind).text == Unspaced(payload) + next
  {
    FieldValue(payload);
    assert OneLine(DATA_FIELD + payload);
    LineInFront(DATA_FIELD + payload, behind, next);
    IncludesBehind(DATA_FIELD + payload + "\n", behind, DATA_FIELD);
    assert [Unspaced(payload)] + [next] == [Unspaced(payload), next];
    TwoEvents(reader, DATA_FIELD + payload + "\n" + behind, Unspaced(payload), next);
  }

  /** A line without the field, event names included, is shown if the field only comes in the next chunk. */
  lemma {:induction false} FieldFreeLineIsShown(reader: Reader, line: string, payload: string)
    requires reader.trim("") == "" && OrdinaryLine(reader, line) && OneLine(payload)
             && Ordinary(reader, Unspaced(payload))
    ensures ShownText(reader, [line + "\n", DATA_FIELD + payload + "\n"]) == line + Unspaced(payload)
    ensures ParseChunk(reader, (line + "\n") + (DATA_FIELD + payload + "\n")).text == Unspaced(payload)
  {
    LineIsShown(reader, line);
    DataLineShows(reader, payload);
    TwoShown(reader, line + "\n", DATA_FIELD + payload + "\n");
    EventsShowNoPlainText(reader, line + "\n", DATA_FIELD + payload + "\n");
  }

  lemma {:induction false} TwoLinesShow(reader: Reader, first: string, second: string)
    requires reader.trim("") == "" && OrdinaryLine(reader, first) && OrdinaryLine(reader, second)
    ensures TextOf(reader, Plain, FRESH, [first] + ([second] + [""])) == first + ("\n" + second)
  {
    TextConcat(reader, Plain, FRESH, [first], [second] + [""]);
    LineShowsItself(reader, FRESH, first);
    LineShowsItself(reader, Reading(false, true), second);
  }

  lemma {:induction false} TwoPlainLines(reader: Reader, chunk: string, first: string, second: string)
    requires reader.trim("") == "" && OrdinaryLine(reader, first) && OrdinaryLine(reader, second)
    requires !Includes(chunk, DATA_FIELD) && Lines(chunk) == [first] + ([second] + [""])
    ensures ParseChunk(reader, chunk).text == first + ("\n" + second)
  {
    ChunkText(reader, chunk);
    TwoLinesShow(reader, first, second);
  }

  /** A boundary behind a line of plain text loses the line break. */
  lemma {:induction false} PlainLineBreakIsLost(reader: Reader, first: string, second: string)
    requires reader.trim("") == "" && OrdinaryLine(reader, first) && OrdinaryLine(reader, second)
    ensures ShownText(reader, [first + "\n", second + "\n"]) == first + second
    ensures ParseChunk(reader, first + "\n" + (second + "\n")).text == first + ("\n" + second)
  {
    LineIsShown(reader, first);
    LineIsShown(reader, second);
    TwoShown(reader, first + "\n", second + "\n");
    NoMentionAcross(first + "\n", second + "\n");
    EndedLine(first, second + "\n");
    OneEndedLine(second);
    TwoPlainLines(reader, first + "\n" + (second + "\n"), first, second);
  }
}
