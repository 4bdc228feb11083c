/**
 The code's reading of an event stream beside the one section 9.2.6 of the WHATWG HTML Living Standard
 gives: data lines gather into an event that a blank line dispatches, and an unfinished event is dropped.
 */
module SseStandard {
  import opened Options
  import opened SseParser

  /** The value of a data field: the standard also takes a line that is only the field name, as an empty value. */
  function DataOf(line: string): Option<string> {
    if line == "data" then Some("") else PayloadOf(line)
  }

  /** The events the standard dispatches; `buffer` holds the data lines gathered so far, joined by line feeds. */
  function Events(lines: seq<string>, buffer: Option<string>): seq<string> {
    if lines == [] then []
    else if lines[0] == "" then (if buffer.Some? then [buffer.value] else []) + Events(lines[1..], None)
    else
      match DataOf(lines[0])
      case None => Events(lines[1..], buffer)
      case Some(value) => Events(lines[1..], Some(if buffer.Some? then buffer.value + "\n" + value else value))
  }

  /** Every event has one data line and is finished; `open` says whether one with data is under way. */
  predicate OneDataLinePerEvent(lines: seq<string>, open: bool) {
    if lines == [] then !open
    else if lines[0] == "" then OneDataLinePerEvent(lines[1..], false)
    else if PayloadOf(lines[0]).Some? then !open && OneDataLinePerEvent(lines[1..], true)
    else OneDataLinePerEvent(lines[1..], open)
  }

  function Pending(buffer: Option<string>): seq<string> { if buffer.Some? then [buffer.value] else [] }

  predicate NoBareName(lines: seq<string>) { forall i :: 0 <= i < |lines| ==> lines[i] != "data" }

  lemma Tail(lines: seq<string>)
    requires lines != [] && NoBareName(lines)
    ensures NoBareName(lines[1..]) && DataOf(lines[0]) == PayloadOf(lines[0])
  {
    forall i | 0 <= i < |lines[1..]| ensures lines[1..][i] != "data" {
      assert lines[1..][i] == lines[i + 1];
    }
  }

  /** There are never more events than data lines, and as many exactly when every event has one and is finished. */
  lemma {:induction false} EventsCounted(lines: seq<string>, buffer: Option<string>)
    requires NoBareName(lines)
    ensures |Events(lines, buffer)| <= |Pending(buffer)| + |Payloads(lines)|
    ensures |Events(lines, buffer)| == |Pending(buffer)| + |Payloads(lines)|
            <==> OneDataLinePerEvent(lines, buffer.Some?)
    decreases lines
  {
    if lines != [] {
      Tail(lines);
      PayloadsFirst(lines);
      var value := PayloadOf(lines[0]);
      if lines[0] == "" {
        EventsCounted(lines[1..], None);
      } else if value.Some? {
        EventsCounted(lines[1..], Some(if buffer.Some? then buffer.value + "\n" + value.value else value.value));
      } else {
        EventsCounted(lines[1..], buffer);
      }
    }
  }

  lemma {:induction false} EventsAgree(lines: seq<string>, buffer: Option<string>)
    requires NoBareName(lines) && OneDataLinePerEvent(lines, buffer.Some?)
    ensures Events(lines, buffer) == Pending(buffer) + Payloads(lines)
    decreases lines
  {
    if lines != [] {
      Tail(lines);
      PayloadsFirst(lines);
      if lines[0] == "" {
        EventsAgree(lines[1..], None);
      } else if PayloadOf(lines[0]).Some? {
        EventsAgree(lines[1..], PayloadOf(lines[0]));
      } else {
        EventsAgree(lines[1..], buffer);
      }
    }
  }

  /** The index of the first carriage return or line feed, or the length. */
  function FirstEnd(text: string): (i: nat)
    ensures i <= |text| && (i < |text| ==> text[i] == '\r' || text[i] == '\n') && '\r' !in text[..i]
            && '\n' !in text[..i]
  {
    if text == "" then 0 else if text[0] == '\r' || text[0] == '\n' then 0 else 1 + FirstEnd(text[1..])
  }

  /**
   The standard's lines: ended by a line feed, a carriage return, or the two together; what is not ended is no line.
   */
  function StandardLines(text: string): seq<string>
    decreases |text|
  {
    var i := FirstEnd(text);
    if i == |text| then []
    else if text[i] == '\r' && i + 1 < |text| && text[i + 1] == '\n' then [text[..i]] + StandardLines(text[i + 2..])
    else [text[..i]] + StandardLines(text[i + 1..])
  }

  /** Every carriage return is half of a line end. */
  predicate NoLoneReturn(text: string) {
    forall i :: 0 <= i < |text| && text[i] == '\r' ==> i + 1 < |text| && text[i + 1] == '\n'
  }

  lemma {:induction false} FirstFeedIs(text: string, i: nat)
    requires i < |text| && text[i] == '\n' && '\n' !in text[..i]
    ensures FirstFeed(text) == i
  {
    assert text == text[..i] + "\n" + text[i + 1..];
    FirstFeedAt(text[..i], text[i + 1..]);
  }

  lemma NoLoneReturnBehind(text: string, k: nat)
    requires NoLoneReturn(text) && k <= |text|
    ensures NoLoneReturn(text[k..])
  {
    forall i | 0 <= i < |text[k..]| && text[k..][i] == '\r' ensures i + 1 < |text[k..]| && text[k..][i + 1] == '\n' {
      assert text[k..][i] == text[k + i];
    }
  }

  lemma AllButLast(line: string, tail: seq<string>)
    requires tail != []
    ensures ([line] + tail)[..|[line] + tail| - 1] == [line] + tail[..|tail| - 1]
  {
  }

  /** Where that is so, the code splits at the standard's line ends, and its last piece is what has no end. */
  lemma {:induction false} SameLines(text: string)
    requires NoLoneReturn(text)
    ensures StandardLines(text) == Lines(text)[..|Lines(text)| - 1]
    decreases |text|
  {
    var i := FirstEnd(text);
    if i == |text| {
      assert text[..i] == text;
      UnendedLast(text);
    } else {
      var feed := if text[i] == '\r' then i + 1 else i;
      assert text[..feed] == if text[i] == '\r' then text[..i] + "\r" else text[..i];
      FirstFeedIs(text, feed);
      assert DropReturn(text[..feed]) == text[..i];
      LinesOfEnded(text);
      NoLoneReturnBehind(text, feed + 1);
      SameLines(text[feed + 1..]);
      AllButLast(text[..i], Lines(text[feed + 1..]));
    }
  }

  /** What the standard dispatches of a text. */
  function Dispatched(text: string): seq<string> { Events(StandardLines(text), None) }

  /**
   On a stream with no lone carriage return, no byte order mark and no bare field name, the code yields what
   the standard dispatches exactly when every event has one data line and a blank line behind it, and no data
   line is cut off at the end.
   */
  lemma {:induction false} CodeFollowsTheStandardExactly(text: string)
    requires NoLoneReturn(text) && !("\U{feff}" <= text) && NoBareName(Lines(text))
    ensures var lines := Lines(text); var whole, rest := lines[..|lines| - 1], lines[|lines| - 1];
            Parse(text) == Dispatched(text) <==> OneDataLinePerEvent(whole, false) && PayloadOf(rest).None?
  {
    var lines := Lines(text);
    var whole, rest := lines[..|lines| - 1], lines[|lines| - 1];
    SameLines(text);
    assert lines == whole + [rest];
    PayloadsConcat(whole, [rest]);
    OnePayload(rest);
    assert NoBareName(whole);
    EventsCounted(whole, None);
    if OneDataLinePerEvent(whole, false) {
      EventsAgree(whole, None);
    }
  }

  // ---- what the code makes of the rest

  predicate NoEnd(line: string) { '\r' !in line && '\n' !in line }

  lemma {:induction false} FirstEndAt(line: string, rest: string)
    requires NoEnd(line) && rest != "" && (rest[0] == '\r' || rest[0] == '\n')
    ensures FirstEnd(line + rest) == |line|
  {
    if line == "" {
      assert line + rest == rest;
    } else {
      assert (line + rest)[1..] == line[1..] + rest && (line + rest)[0] == line[0];
      FirstEndAt(line[1..], rest);
    }
  }

  /** A line the standard ends at one character, which is not the first half of a line end. */
  lemma {:induction false} StandardStep(line: string, end: string, rest: string)
    requires NoEnd(line) && (end == "\n" || (end == "\r" && (rest == "" || rest[0] != '\n')))
    ensures StandardLines(line + (end + rest)) == [line] + StandardLines(rest)
  {
    var text := line + (end + rest);
    FirstEndAt(line, end + rest);
    assert text[..|line|] == line && text[|line| + 1..] == rest && text[|line|] == end[0];
    assert |line| + 1 < |text| ==> text[|line| + 1] == rest[0];
  }

  lemma {:induction false} BlankEnds()
    ensures StandardLines("\n") == [""] && Lines("\n") == ["", ""]
  {
    StandardStep("", "\n", "");
    assert "" + ("\n" + "") == "\n";
    LinesStep("", "");
    assert "" + "\n" + "" == "\n" && Lines("") == [""];
  }

  /** A bare field name is an empty data line to the standard and nothing to the code, whatever stands behind it. */
  lemma {:induction false} BareNameIsSkipped(text: string)
    ensures Parse("data" + ("\n" + text)) == Parse(text)
    ensures Dispatched("data" + ("\n" + text)) == Events(StandardLines(text), Some(""))
  {
    LinesStep("data", text);
    assert "data" + "\n" + text == "data" + ("\n" + text);
    PayloadsFirst(["data"] + Lines(text));
    StandardStep("data", "\n", text);
  }

  /** So a bare name on its own is an event the code does not yield. */
  lemma {:induction false} BareNameAloneIsAnEvent()
    ensures Parse("data" + ("\n" + "\n")) == [] && Dispatched("data" + ("\n" + "\n")) == [""]
  {
    BareNameIsSkipped("\n");
    BlankEnds();
    PayloadsFirst(["", ""]);
    PayloadsFirst([""]);
  }

  lemma {:induction false} StandardSplitsAtReturn(a: string, b: string)
    requires NoEnd(a) && NoEnd(b) && b != "" && PayloadOf(a).Some? && PayloadOf(b).Some?
    ensures Dispatched(a + ("\r" + (b + ("\n" + "\n")))) == [PayloadOf(a).value + "\n" + PayloadOf(b).value]
  {
    StandardStep(b, "\n", "\n");
    assert (b + ("\n" + "\n"))[0] == b[0];
    StandardStep(a, "\r", b + ("\n" + "\n"));
    BlankEnds();
    TwoDataLinesDispatch(a, b);
  }

  lemma Reassociate(field: string, first: string, end: string, b: string, blank: string)
    ensures (field + first) + (end + (b + blank)) == (field + (first + (end + b))) + blank
  {
  }

  /** A lone carriage return ends a line in the standard; the code reads on, through the next field name. */
  lemma {:induction false} LoneReturnDoesNotEndALine(first: string, second: string)
    requires NoEnd(first) && NoEnd(second)
    ensures var text := (DATA_FIELD + first) + ("\r" + ((DATA_FIELD + second) + ("\n" + "\n")));
            && Parse(text) == [Unspaced(first + ("\r" + (DATA_FIELD + second)))]
            && Dispatched(text) == [Unspaced(first) + "\n" + Unspaced(second)]
  {
    FieldValue(first);
    FieldValue(second);
    StandardSplitsAtReturn(DATA_FIELD + first, DATA_FIELD + second);
    Reassociate(DATA_FIELD, first, "\r", DATA_FIELD + second, "\n" + "\n");
    EndsPlainly(first, "\r", second);
    JoinedLine(first + ("\r" + (DATA_FIELD + second)));
  }

  lemma EndsPlainly(first: string, end: string, second: string)
    requires NoEnd(first) && end == "\r" && NoEnd(second)
    ensures OneLine(first + (end + (DATA_FIELD + second)))
  {
    var line := first + (end + (DATA_FIELD + second));
    assert line[|line| - 1] == (DATA_FIELD + second)[|DATA_FIELD + second| - 1];
  }

  lemma {:induction false} TwoDataLinesDispatch(a: string, b: string)
    requires PayloadOf(a).Some? && PayloadOf(b).Some?
    ensures Events([a] + ([b] + [""]), None) == [PayloadOf(a).value + "\n" + PayloadOf(b).value]
  {
    var x := PayloadOf(a).value;
    var lines := [a] + ([b] + [""]);
    assert lines[1..] == [b] + [""] && ([b] + [""])[1..] == [""] && [""][1..] == [];
    assert Events([""], Some(x + "\n" + PayloadOf(b).value)) == [x + "\n" + PayloadOf(b).value] + [];
    assert Events([b] + [""], Some(x)) == [x + "\n" + PayloadOf(b).value];
  }

  lemma {:induction false} JoinedLine(line: string)
    requires OneLine(line)
    ensures Parse((DATA_FIELD + line) + ("\n" + "\n")) == [Unspaced(line)]
  {
    assert (DATA_FIELD + line) + ("\n" + "\n") == (DATA_FIELD + line) + "\n" + "\n";
    LinesStep(DATA_FIELD + line, "\n");
    BlankEnds();
    FieldValue(line);
    PayloadsFirst([DropReturn(DATA_FIELD + line)] + ["", ""]);
    PayloadsFirst(["", ""]);
    PayloadsFirst([""]);
  }

  /** The standard takes one byte order mark off the front; left there, it hides the first line from the code. */
  lemma {:induction false} ByteOrderMarkHidesTheFirstLine(line: string, rest: string)
    requires NoEnd(line)
    ensures Parse("\U{feff}" + line + "\n" + rest) == Parse(rest)
    ensures Dispatched(line + ("\n" + rest)) == Events([line] + StandardLines(rest), None)
  {
    var marked := "\U{feff}" + line;
    assert marked[0] == '\U{feff}';
    LinesStep(marked, rest);
    DroppedIsPrefix(marked);
    PayloadsFirst([DropReturn(marked)] + Lines(rest));
    StandardStep(line, "\n", rest);
  }
}
