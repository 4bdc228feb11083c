/**
 The line and payload loops of the storefront stream. JSON parsing and the status pattern are taken
 as given functions of one payload.
 */
module SseParser {
  import opened Options
  import opened Texts

  const DATA_FIELD := "data:"

  // ---- lines

  /** The index of the first line feed, or the length. */
  function FirstFeed(text: string): (i: nat)
    ensures i <= |text| && (i < |text| ==> text[i] == '\n') && '\n' !in text[..i]
  {
    if text == "" then 0 else if text[0] == '\n' then 0 else 1 + FirstFeed(text[1..])
  }

  function DropReturn(line: string): string {
    if line != "" && line[|line| - 1] == '\r' then line[..|line| - 1] else line
  }

  /** Splits at line feeds, each taking one carriage return before it along. */
  function Lines(text: string): (lines: seq<string>)
    ensures lines != []
    decreases |text|
  {
    var i := FirstFeed(text);
    if i == |text| then [text] else [DropReturn(text[..i])] + Lines(text[i + 1..])
  }

  /** What follows the field's colon, without one optional space. */
  function Unspaced(rest: string): string { if rest != "" && rest[0] == ' ' then rest[1..] else rest }

  /** The payload of a `data:` line. */
  function PayloadOf(line: string): Option<string> {
    if DATA_FIELD <= line then Some(Unspaced(line[|DATA_FIELD|..])) else None
  }

  function Payloads(lines: seq<string>): seq<string> {
    if lines == [] then []
    else
      var last := PayloadOf(lines[|lines| - 1]);
      Payloads(lines[..|lines| - 1]) + if last.Some? then [last.value] else []
  }

  function Parse(chunk: string): seq<string> { Payloads(Lines(chunk)) }

  method ParseSseChunk(chunk: string) returns (payloads: seq<string>)
    ensures payloads == Parse(chunk)
  {
    payloads := [];
    var lines := Lines(chunk);
    for i := 0 to |lines|
      invariant payloads == Payloads(lines[..i])
    {
      var line := lines[i];
      assert lines[..i + 1][..i] == lines[..i];
      if !(DATA_FIELD <= line) {
        continue;
      }
      var rest := line[|DATA_FIELD|..];
      payloads := payloads + [if rest != "" && rest[0] == ' ' then rest[1..] else rest];
    }
    assert lines[..|lines|] == lines;
  }

  lemma {:induction false} PayloadsConcat(a: seq<string>, b: seq<string>)
    ensures Payloads(a + b) == Payloads(a) + Payloads(b)
  {
    if b == [] {
      assert a + b == a;
    } else {
      assert (a + b)[..|a + b| - 1] == a + b[..|b| - 1];
      PayloadsConcat(a, b[..|b| - 1]);
    }
  }

  lemma {:induction false} FirstFeedAt(line: string, rest: string)
    requires '\n' !in line
    ensures FirstFeed(line + "\n" + rest) == |line|
  {
    if line == "" {
      assert (line + "\n" + rest)[0] == '\n';
    } else {
      assert (line + "\n" + rest)[1..] == line[1..] + "\n" + rest;
      assert (line + "\n" + rest)[0] == line[0];
      FirstFeedAt(line[1..], rest);
    }
  }

  lemma {:induction false} LinesStep(line: string, rest: string)
    requires '\n' !in line
    ensures Lines(line + "\n" + rest) == [DropReturn(line)] + Lines(rest)
  {
    FirstFeedAt(line, rest);
    assert (line + "\n" + rest)[..|line|] == line;
    assert (line + "\n" + rest)[|line| + 1..] == rest;
  }

  lemma {:induction false} FirstFeedOfConcat(a: string, b: string)
    requires '\n' in a
    ensures FirstFeed(a) < |a| && FirstFeed(a + b) == FirstFeed(a)
  {
    assert (a + b)[0] == a[0];
    if a[0] != '\n' {
      assert (a + b)[1..] == a[1..] + b;
      FirstFeedOfConcat(a[1..], b);
    }
  }

  lemma CutBehind(a: string, b: string, i: nat)
    requires i < |a|
    ensures (a + b)[..i] == a[..i] && (a + b)[i + 1..] == a[i + 1..] + b
  {
  }

  lemma OnePayload(line: string)
    ensures Payloads([line]) == if PayloadOf(line).Some? then [PayloadOf(line).value] else []
  {
    assert [line][..0] == [] && Payloads([line][..0]) == [];
  }

  lemma {:induction false} PayloadsFirst(lines: seq<string>)
    requires lines != []
    ensures Payloads(lines) == (if PayloadOf(lines[0]).Some? then [PayloadOf(lines[0]).value] else [])
            + Payloads(lines[1..])
  {
    OnePayload(lines[0]);
    PayloadsConcat([lines[0]], lines[1..]);
    assert lines == [lines[0]] + lines[1..];
  }

  function Flatten(chunks: seq<string>): string {
    if chunks == [] then "" else chunks[0] + Flatten(chunks[1..])
  }

  function ParseEach(chunks: seq<string>): seq<string> {
    if chunks == [] then [] else Parse(chunks[0]) + ParseEach(chunks[1..])
  }

  lemma EmptyText()
    ensures Parse("") == []
  {
    assert Lines("") == [""];
    OnePayload("");
  }

  // ---- where a text may be cut

  function FirstLine(text: string): string { Lines(text)[0] }

  function LastLine(text: string): string { Lines(text)[|Lines(text)| - 1] }

  /** A text with a line feed is its first line and the rest, whatever follows it. */
  lemma EndedStep(a: string, b: string)
    requires '\n' in a
    ensures FirstFeed(a) < |a|
    ensures var line, rest := DropReturn(a[..FirstFeed(a)]), a[FirstFeed(a) + 1..];
            Lines(a) == [line] + Lines(rest) && Lines(a + b) == [line] + Lines(rest + b)
  {
    FirstFeedOfConcat(a, b);
    LinesOfEnded(a);
    LinesOfEnded(a + b);
    CutBehind(a, b, FirstFeed(a));
  }

  lemma {:induction false} LinesOfUnended(text: string)
    requires FirstFeed(text) == |text|
    ensures Lines(text) == [text]
  {
  }

  lemma {:induction false} LinesOfEnded(text: string)
    requires FirstFeed(text) < |text|
    ensures Lines(text) == [DropReturn(text[..FirstFeed(text)])] + Lines(text[FirstFeed(text) + 1..])
  {
  }

  lemma OneLineInFront(line: string, tail: seq<string>, all: seq<string>, rest: seq<string>)
    requires tail != [] && all == tail[..|tail| - 1] + rest
    ensures [line] + all == ([line] + tail)[..|[line] + tail| - 1] + rest
    ensures ([line] + tail)[|[line] + tail| - 1] == tail[|tail| - 1]
  {
    assert ([line] + tail)[..|tail|] == [line] + tail[..|tail| - 1];
  }

  lemma {:induction false} UnendedLast(a: string)
    requires '\n' !in a
    ensures Lines(a) == [a] && LastLine(a) == a
  {
    assert a[..|a|] == a;
  }

  /** The lines of two texts are those of the first, its last one running on into the second. */
  lemma {:induction false} LinesMeet(a: string, b: string)
    ensures Lines(a + b) == Lines(a)[..|Lines(a)| - 1] + Lines(LastLine(a) + b) && '\n' !in LastLine(a)
    decreases |a|
  {
    if '\n' in a {
      EndedStep(a, b);
      var line, rest := DropReturn(a[..FirstFeed(a)]), a[FirstFeed(a) + 1..];
      LinesMeet(rest, b);
      OneLineInFront(line, Lines(rest), Lines(rest + b), Lines(LastLine(rest) + b));
    } else {
      UnendedLast(a);
    }
  }

  lemma {:induction false} FirstFeedBehind(r: string, b: string)
    requires '\n' !in r
    ensures FirstFeed(r + b) == |r| + FirstFeed(b)
  {
    if r == "" {
      assert r + b == b;
    } else {
      assert (r + b)[1..] == r[1..] + b && (r + b)[0] == r[0];
      FirstFeedBehind(r[1..], b);
    }
  }

  /** The text up to the first line feed, and whether there is one. */
  function Opening(b: string): string { b[..FirstFeed(b)] }

  lemma SlicesBehind(r: string, b: string, i: nat)
    requires i <= |b|
    ensures (r + b)[..|r| + i] == r + b[..i] && (i < |b| ==> (r + b)[|r| + i + 1..] == b[i + 1..])
  {
  }

  lemma {:induction false} EndedBehind(r: string, b: string)
    requires '\n' !in r && FirstFeed(b) < |b|
    ensures FirstFeed(r + b) == |r| + FirstFeed(b) && (r + b)[..FirstFeed(r + b)] == r + Opening(b)
    ensures (r + b)[FirstFeed(r + b) + 1..] == b[FirstFeed(b) + 1..]
  {
    FirstFeedBehind(r, b);
    SlicesBehind(r, b, FirstFeed(b));
  }

  lemma {:induction false} LinesOfPieces(text: string, line: string, rest: string)
    requires FirstFeed(text) < |text| && text[..FirstFeed(text)] == line && text[FirstFeed(text) + 1..] == rest
    ensures Lines(text) == [DropReturn(line)] + Lines(rest)
  {
    LinesOfEnded(text);
  }

  lemma {:induction false} EndedRunsOn(r: string, b: string)
    requires '\n' !in r && FirstFeed(b) < |b|
    ensures Lines(b) == [DropReturn(Opening(b))] + Lines(b[FirstFeed(b) + 1..])
    ensures Lines(r + b) == [DropReturn(r + Opening(b))] + Lines(b[FirstFeed(b) + 1..])
  {
    EndedBehind(r, b);
    LinesOfPieces(b, Opening(b), b[FirstFeed(b) + 1..]);
    LinesOfPieces(r + b, r + Opening(b), b[FirstFeed(b) + 1..]);
  }

  lemma {:induction false} UnendedRunsOn(r: string, b: string)
    requires '\n' !in r && FirstFeed(b) == |b|
    ensures Lines(b) == [Opening(b)] && Lines(r + b) == [r + Opening(b)]
  {
    FirstFeedBehind(r, b);
    LinesOfUnended(b);
    LinesOfUnended(r + b);
    assert b[..|b|] == b;
  }

  /** A line that runs on into a text changes its first line and no other. */
  lemma {:induction false} LinesRunOn(r: string, b: string)
    requires '\n' !in r
    ensures Lines(r + b)[1..] == Lines(b)[1..]
    ensures FirstFeed(b) < |b| ==>
              FirstLine(r + b) == DropReturn(r + Opening(b)) && FirstLine(b) == DropReturn(Opening(b))
    ensures FirstFeed(b) == |b| ==> FirstLine(r + b) == r + Opening(b) && FirstLine(b) == Opening(b)
  {
    if FirstFeed(b) < |b| {
      EndedRunsOn(r, b);
    } else {
      UnendedRunsOn(r, b);
    }
  }

  /**
   A cut is harmless to the one line it falls into: there is no such line, or the first part is a data line
   whose payload the second part neither lengthens nor repeats, or neither part nor the whole is a data line.
   */
  predicate WellCut(a: string, b: string) {
    var r := LastLine(a); var joined, first := FirstLine(r + b), FirstLine(b);
    r == "" || (PayloadOf(joined) == PayloadOf(r) && PayloadOf(first).None?)
  }

  lemma {:induction false} PayloadsOfJoin(init: seq<string>, line: string, tail: seq<string>)
    ensures Payloads(init + ([line] + tail)) == (Payloads(init) + Payloads([line])) + Payloads(tail)
  {
    PayloadsConcat(init, [line] + tail);
    PayloadsConcat([line], tail);
    Regroup3(Payloads(init), Payloads([line]), Payloads(tail));
  }

  lemma Regroup3(a: seq<string>, b: seq<string>, c: seq<string>)
    ensures (a + b) + c == a + (b + c)
  {
  }

  lemma Cancel(a: seq<string>, x: seq<string>, y: seq<string>, b: seq<string>)
    ensures (a + x) + b == (a + y) + b <==> x == y
  {
    if (a + x) + b == (a + y) + b {
      assert |x| == |y|;
      assert x == ((a + x) + b)[|a|..|a| + |x|];
      assert y == ((a + y) + b)[|a|..|a| + |y|];
    }
  }

  /** A text in front of a field name does not make a field name with it. */
  lemma NameBehindIsNoName(r: string, x: string)
    requires r != "" && !(DATA_FIELD <= r) && DATA_FIELD <= x
    ensures !(DATA_FIELD <= r + x)
  {
    assert |r| >= |DATA_FIELD| ==> (r + x)[..|DATA_FIELD|] == r[..|DATA_FIELD|];
    assert (r + x)[|r|] == x[0] == DATA_FIELD[0];
    assert forall k :: 0 < k < |DATA_FIELD| ==> DATA_FIELD[k] != DATA_FIELD[0];
  }

  lemma DroppedIsPrefix(line: string)
    ensures DropReturn(line) <= line
  {
  }

  /** A line that runs on cannot become a data line by what follows and leave a data line behind it as well. */
  lemma NotBoth(r: string, b: string)
    requires '\n' !in r && r != "" && PayloadOf(r).None?
    ensures PayloadOf(FirstLine(r + b)).None? || PayloadOf(FirstLine(b)).None?
  {
    LinesRunOn(r, b);
    DroppedIsPrefix(r + Opening(b));
    DroppedIsPrefix(Opening(b));
    if DATA_FIELD <= Opening(b) {
      NameBehindIsNoName(r, Opening(b));
    }
  }

  /** What the joined text and the parts yield, apart from the one line they share. */
  lemma {:induction false} JoinedYields(a: string, b: string)
    ensures var init, tail := Lines(a)[..|Lines(a)| - 1], Lines(b)[1..];
            Parse(a + b) == (Payloads(init) + Payloads([FirstLine(LastLine(a) + b)])) + Payloads(tail)
  {
    var init, r, tail := Lines(a)[..|Lines(a)| - 1], LastLine(a), Lines(b)[1..];
    LinesMeet(a, b);
    LinesRunOn(r, b);
    assert Lines(r + b) == [FirstLine(r + b)] + tail;
    PayloadsOfJoin(init, FirstLine(r + b), tail);
  }

  lemma {:induction false} PartsYield(a: string, b: string)
    ensures var init, tail := Lines(a)[..|Lines(a)| - 1], Lines(b)[1..];
            Parse(a) + Parse(b) == (Payloads(init) + (Payloads([LastLine(a)]) + Payloads([FirstLine(b)])))
              + Payloads(tail)
  {
    var init, r, first, tail := Lines(a)[..|Lines(a)| - 1], LastLine(a), FirstLine(b), Lines(b)[1..];
    assert Lines(a) == init + [r] && Lines(b) == [first] + tail;
    PayloadsConcat(init, [r]);
    PayloadsConcat([first], tail);
    Regroup3(Payloads(init) + Payloads([r]), Payloads([first]), Payloads(tail));
    Regroup3(Payloads(init), Payloads([r]), Payloads([first]));
  }

  /** Parsing cut text is parsing the parts if and only if the cut is harmless to the line it falls into. */
  lemma {:induction false} CutIsHarmlessExactly(a: string, b: string)
    ensures Parse(a + b) == Parse(a) + Parse(b) <==> WellCut(a, b)
  {
    var init, r, tail := Lines(a)[..|Lines(a)| - 1], LastLine(a), Lines(b)[1..];
    LinesMeet(a, b);
    JoinedYields(a, b);
    PartsYield(a, b);
    Cancel(Payloads(init), Payloads([FirstLine(r + b)]), Payloads([r]) + Payloads([FirstLine(b)]), Payloads(tail));
    OneLineIsHarmlessExactly(r, b);
  }

  /** Text that ends a line leaves none open. */
  lemma {:induction false} EndedLeavesNothing(a: string)
    requires a != "" && a[|a| - 1] == '\n'
    ensures LastLine(a) == ""
    decreases |a|
  {
    EndedStep(a, "");
    var rest := a[FirstFeed(a) + 1..];
    if rest == "" {
      LinesOfUnended("");
    } else {
      EndedLeavesNothing(rest);
    }
  }

  /** So parsing text cut after a line feed is parsing the parts. */
  lemma SplitLaw(a: string, b: string)
    requires a != "" && a[|a| - 1] == '\n'
    ensures Parse(a + b) == Parse(a) + Parse(b)
  {
    EndedLeavesNothing(a);
    CutIsHarmlessExactly(a, b);
  }

  lemma OneLineIsHarmlessExactly(r: string, b: string)
    requires '\n' !in r
    ensures Payloads([FirstLine(r + b)]) == Payloads([r]) + Payloads([FirstLine(b)]) <==>
            r == "" || (PayloadOf(FirstLine(r + b)) == PayloadOf(r) && PayloadOf(FirstLine(b)).None?)
  {
    OnePayload(FirstLine(r + b));
    OnePayload(r);
    OnePayload(FirstLine(b));
    if r == "" {
      assert r + b == b;
    } else if PayloadOf(r).None? {
      NotBoth(r, b);
    }
  }

  lemma {:induction false} FlattenAppend(chunks: seq<string>, chunk: string)
    ensures Flatten(chunks + [chunk]) == Flatten(chunks) + chunk
    ensures ParseEach(chunks + [chunk]) == ParseEach(chunks) + Parse(chunk)
  {
    if chunks == [] {
      assert ([] + [chunk])[1..] == [] && Flatten([]) == "" && ParseEach([]) == [];
      assert chunk + "" == chunk && Parse(chunk) + [] == Parse(chunk);
    } else {
      assert (chunks + [chunk])[1..] == chunks[1..] + [chunk];
      FlattenAppend(chunks[1..], chunk);
      Regroup3(Parse(chunks[0]), ParseEach(chunks[1..]), Parse(chunk));
      assert (chunks[0] + Flatten(chunks[1..])) + chunk == chunks[0] + (Flatten(chunks[1..]) + chunk);
    }
  }

  /** The payloads read chunk by chunk are those of the whole after every chunk. */
  predicate RightThroughout(chunks: seq<string>) {
    forall i :: 0 <= i <= |chunks| ==> ParseEach(chunks[..i]) == Parse(Flatten(chunks[..i]))
  }

  predicate WellCutThroughout(chunks: seq<string>) {
    forall i :: 0 <= i < |chunks| ==> WellCut(Flatten(chunks[..i]), chunks[i])
  }

  lemma {:induction false} RightOneMore(front: seq<string>, chunk: string)
    ensures RightThroughout(front + [chunk]) <==>
            RightThroughout(front) && ParseEach(front + [chunk]) == Parse(Flatten(front + [chunk]))
  {
    var all := front + [chunk];
    assert forall i :: 0 <= i <= |front| ==> all[..i] == front[..i];
    assert all[..|all|] == all;
  }

  lemma {:induction false} WellCutOneMore(front: seq<string>, chunk: string)
    ensures WellCutThroughout(front + [chunk]) <==> WellCutThroughout(front) && WellCut(Flatten(front), chunk)
  {
    var all := front + [chunk];
    assert forall i :: 0 <= i < |front| ==> all[..i] == front[..i] && all[i] == front[i];
    assert all[..|front|] == front && all[|front|] == chunk;
  }

  /**
   The line loop, run on each chunk alone, has the whole's payloads after every chunk if and only if every boundary is
   harmless to the line it falls into.
   */
  lemma {:induction false} ChunksReadRightExactly(chunks: seq<string>)
    ensures RightThroughout(chunks) <==> WellCutThroughout(chunks)
  {
    if chunks == [] {
      EmptyText();
    } else {
      var front, chunk := chunks[..|chunks| - 1], chunks[|chunks| - 1];
      assert chunks == front + [chunk];
      ChunksReadRightExactly(front);
      RightOneMore(front, chunk);
      WellCutOneMore(front, chunk);
      ReadOneMore(front, chunk);
    }
  }

  /** A stream read rightly so far stays right exactly if the next boundary is harmless. */
  lemma {:induction false} ReadOneMore(front: seq<string>, chunk: string)
    ensures RightThroughout(front) ==> (ParseEach(front + [chunk]) == Parse(Flatten(front + [chunk]))
                                        <==> WellCut(Flatten(front), chunk))
  {
    FlattenAppend(front, chunk);
    CutIsHarmlessExactly(Flatten(front), chunk);
    assert front[..|front|] == front;
  }

  /** In particular when every chunk but the last ends a line. */
  lemma {:induction false} ChunkedStreamLaw(chunks: seq<string>)
    requires forall i :: 0 <= i < |chunks| - 1 ==> chunks[i] != "" && chunks[i][|chunks[i]| - 1] == '\n'
    ensures Parse(Flatten(chunks)) == ParseEach(chunks)
  {
    if chunks == [] {
      EmptyText();
    } else if |chunks| == 1 {
      assert chunks[0] + Flatten(chunks[1..]) == chunks[0];
      assert ParseEach(chunks[1..]) == [];
    } else {
      SplitLaw(chunks[0], Flatten(chunks[1..]));
      ChunkedStreamLaw(chunks[1..]);
    }
  }

  // ---- what a harmful cut does to the payloads

  /** No part of the field name behind its first character starts the field name again. */
  lemma CutNameIsNoField(payload: string, cut: nat)
    requires 0 < cut < |DATA_FIELD|
    ensures !(DATA_FIELD <= DropReturn((DATA_FIELD + payload)[cut..]))
  {
    var tail := (DATA_FIELD + payload)[cut..];
    assert tail[0] == DATA_FIELD[cut] && tail[0] != 'd' && tail[0] != '\r';
    assert DropReturn(tail)[0] == tail[0];
  }

  lemma FieldValue(payload: string)
    ensures PayloadOf(DATA_FIELD + payload) == Some(Unspaced(payload))
    ensures DropReturn(DATA_FIELD + payload) == DATA_FIELD + DropReturn(payload)
  {
    assert (DATA_FIELD + payload)[|DATA_FIELD|..] == payload;
  }

  lemma WholeLineIsOnePayload(payload: string)
    requires '\n' !in payload
    ensures Parse(DATA_FIELD + payload + "\n") == [Unspaced(DropReturn(payload))]
  {
    OneLineText(DATA_FIELD + payload);
    FieldValue(payload);
    FieldValue(DropReturn(payload));
    OnePayload(DATA_FIELD + DropReturn(payload));
  }

  lemma NoFieldLine(line: string)
    requires '\n' !in line && !(DATA_FIELD <= DropReturn(line))
    ensures Parse(line + "\n") == []
  {
    OneLineText(line);
    OnePayload(DropReturn(line));
  }

  lemma UnfinishedLine(line: string)
    requires '\n' !in line
    ensures Parse(line) == if PayloadOf(line).Some? then [PayloadOf(line).value] else []
  {
    assert Lines(line) == [line];
    OnePayload(line);
  }

  lemma CutNameParts(line: string, cut: nat)
    requires '\n' !in line && cut <= |line| && PayloadOf(line[..cut]).None? && !(DATA_FIELD <= DropReturn(line[cut..]))
    ensures ParseEach([line[..cut], line[cut..] + "\n"]) == []
  {
    UnfinishedLine(line[..cut]);
    NoFieldLine(line[cut..]);
    TwoChunks(line[..cut], line[cut..] + "\n");
  }

  /**
   A boundary inside the field name of a line loses that line's payload, for every payload and every such boundary.
   */
  lemma CutInsideTheFieldNameLosesThePayload(payload: string, cut: nat)
    requires '\n' !in payload && 0 < cut < |DATA_FIELD|
    ensures var line := DATA_FIELD + payload;
           ParseEach([line[..cut], line[cut..] + "\n"]) == [] && |Parse(line + "\n")| == 1
  {
    WholeLineIsOnePayload(payload);
    CutNameIsNoField(payload, cut);
    CutNameParts(DATA_FIELD + payload, cut);
  }

  /** A boundary inside the payload cuts off what lies behind it, unless that part looks like a data line itself. */
  lemma CutInsideThePayloadTruncatesIt(payload: string, cut: nat)
    requires '\n' !in payload && cut <= |payload| && !(DATA_FIELD <= DropReturn(payload[cut..]))
    ensures ParseEach([DATA_FIELD + payload[..cut], payload[cut..] + "\n"]) == [Unspaced(payload[..cut])]
    ensures Parse(DATA_FIELD + payload + "\n") == [Unspaced(DropReturn(payload))]
  {
    FieldValue(payload[..cut]);
    UnfinishedLine(DATA_FIELD + payload[..cut]);
    NoFieldLine(payload[cut..]);
    TwoChunks(DATA_FIELD + payload[..cut], payload[cut..] + "\n");
    WholeLineIsOnePayload(payload);
  }

  /**
   A boundary in front of a field name that stands inside another line makes a payload out of the rest of that line.
   */
  lemma CutBeforeAFieldNameInventsAPayload(r: string, payload: string)
    requires '\n' !in r && r != "" && PayloadOf(r).None? && '\n' !in payload
    ensures ParseEach([r, DATA_FIELD + payload + "\n"]) == [Unspaced(DropReturn(payload))]
    ensures Parse(r + (DATA_FIELD + payload) + "\n") == []
  {
    UnfinishedLine(r);
    WholeLineIsOnePayload(payload);
    TwoChunks(r, DATA_FIELD + payload + "\n");
    NameInsideIsNoField(r, payload);
    NoFieldLine(r + (DATA_FIELD + payload));
  }

  lemma NameInsideIsNoField(r: string, payload: string)
    requires '\n' !in r && r != "" && PayloadOf(r).None? && '\n' !in payload
    ensures '\n' !in r + (DATA_FIELD + payload) && !(DATA_FIELD <= DropReturn(r + (DATA_FIELD + payload)))
  {
    NameBehindIsNoName(r, DATA_FIELD + payload);
    DroppedIsPrefix(r + (DATA_FIELD + payload));
  }

  lemma TwoChunks(a: string, b: string)
    ensures ParseEach([a, b]) == Parse(a) + Parse(b)
  {
    assert [a, b][1..] == [b] && [b][1..] == [];
    assert ParseEach([b]) == Parse(b) + ParseEach([]);
  }

  lemma OneLineText(line: string)
    requires '\n' !in line
    ensures Parse(line + "\n") == Payloads([DropReturn(line)])
  {
    LinesStep(line, "");
    assert line + "\n" + "" == line + "\n";
    PayloadsConcat([DropReturn(line)], [""]);
    OnePayload("");
  }

  // ---- round trip

  function Encode(payloads: seq<string>): string {
    if payloads == [] then "" else "data: " + payloads[0] + "\n" + Encode(payloads[1..])
  }

  /** A payload one line can carry. */
  predicate OneLine(payload: string) {
    '\n' !in payload && (payload != "" ==> payload[|payload| - 1] != '\r')
  }

  lemma EncodedLine(payload: string)
    ensures PayloadOf(DropReturn("data: " + payload)) == Some(DropReturn(payload))
  {
    var kept := DropReturn("data: " + payload);
    assert kept == "data: " + DropReturn(payload);
    assert kept[|DATA_FIELD|..] == " " + DropReturn(payload);
  }

  lemma ParseStep(payload: string, rest: string)
    requires '\n' !in payload
    ensures Parse("data: " + payload + "\n" + rest) == [DropReturn(payload)] + Parse(rest)
  {
    var line := "data: " + payload;
    LinesStep(line, rest);
    EncodedLine(payload);
    OnePayload(DropReturn(line));
    PayloadsConcat([DropReturn(line)], Lines(rest));
  }

  /** The first payload a reader sees of text that starts with an encoded payload is what its first line carries. */
  lemma {:induction false} FirstParsed(payload: string, rest: string)
    ensures var parsed := Parse("data: " + payload + "\n" + rest);
            parsed != [] && parsed[0] == DropReturn(payload[..FirstFeed(payload)])
  {
    var i := FirstFeed(payload);
    if i == |payload| {
      assert payload[..i] == payload;
      ParseStep(payload, rest);
    } else {
      var line, tail := payload[..i], payload[i + 1..];
      assert payload == line + "\n" + tail;
      assert "data: " + payload + "\n" + rest == "data: " + line + "\n" + (tail + "\n" + rest);
      ParseStep(line, tail + "\n" + rest);
    }
  }

  /** Encoding and parsing give the payloads back if and only if each of them fits on one line. */
  lemma {:induction false} RoundTrip(payloads: seq<string>)
    ensures Parse(Encode(payloads)) == payloads <==> forall i :: 0 <= i < |payloads| ==> OneLine(payloads[i])
  {
    if payloads == [] {
      EmptyText();
    } else {
      var first, rest := payloads[0], payloads[1..];
      RoundTrip(rest);
      FirstParsed(first, Encode(rest));
      if OneLine(first) {
        ParseStep(first, Encode(rest));
        assert DropReturn(first) == first;
        assert payloads == [first] + rest;
        assert Parse(Encode(payloads)) == [first] + Parse(Encode(rest));
        if Parse(Encode(rest)) != rest {
          assert Parse(Encode(payloads))[1..] != payloads[1..] by {
            assert ([first] + Parse(Encode(rest)))[1..] == Parse(Encode(rest));
          }
        }
      } else {
        assert DropReturn(first[..FirstFeed(first)]) != first;
        assert !OneLine(payloads[0]);
      }
    }
  }

  // ---- payloads

  /** The opaque reading of one payload: a receipt, a status marker, or the text of a JSON delta; and `trim`. */
  datatype Reader = Reader(receipt: string -> Option<string>, status: string -> Option<string>,
                           delta: string -> Option<string>,
                           trim: string -> string)

  datatype Parsed = Parsed(receipt: Option<string>, text: string, isDone: bool, status: Option<string>)

  const NOTHING := Parsed(None, "", false, None)

  /** The text a payload adds once a receipt is known. */
  function Shown(reader: Reader, payload: string): string {
    if payload == "[DONE]" || reader.status(payload).Some? then ""
    else if reader.delta(payload).Some? then reader.delta(payload).value
    else payload
  }

  predicate TakenAsReceipt(reader: Reader, payload: string) {
    payload != "[DONE]" && reader.receipt(payload).Some?
  }

  /** One payload, in the order of the code's tests: only the first receipt of a chunk is a receipt. */
  function Absorb(reader: Reader, so: Parsed, payload: string): Parsed {
    if payload == "[DONE]" then so.(isDone := true)
    else if so.receipt.None? && reader.receipt(payload).Some? then so.(receipt := reader.receipt(payload))
    else if reader.status(payload).Some? then so.(status := reader.status(payload))
    else so.(text := so.text + Shown(reader, payload))
  }

  function AbsorbAll(reader: Reader, so: Parsed, payloads: seq<string>): Parsed
    decreases payloads
  {
    if payloads == [] then so else AbsorbAll(reader, Absorb(reader, so, payloads[0]), payloads[1..])
  }

  // ---- what payloads and lines say

  /** The one receipt: the first text that reads as one, if it is not to be skipped. */
  predicate IsReceiptOf(reader: Reader, said: seq<string>, skipped: string, first: nat, receipt: Option<string>) {
    && first <= |said|
    && (forall i :: 0 <= i < first ==> said[i] == skipped || reader.receipt(said[i]).None?)
    && (first < |said| ==> said[first] != skipped && reader.receipt(said[first]).Some?)
    && receipt == (if first < |said| then reader.receipt(said[first]) else None)
  }

  /** No status marker from an index on. */
  predicate NoStatusFrom(reader: Reader, said: seq<string>, skipped: string, first: nat, from: nat) {
    forall i :: from <= i < |said| && i != first && said[i] != skipped ==> reader.status(said[i]).None?
  }

  /** The status of the last marker, if there is one. */
  ghost predicate IsStatusOf(reader: Reader, said: seq<string>, skipped: string, first: nat, status: Option<string>) {
    if status.None? then NoStatusFrom(reader, said, skipped, first, 0)
    else
      exists i: nat :: i < |said| && i != first && said[i] != skipped && reader.status(said[i]) == status
                       && NoStatusFrom(reader, said, skipped, first, i + 1)
  }

  /** What each payload adds to the text: nothing, the text of its JSON delta, or itself. */
  function EventPieces(reader: Reader, payloads: seq<string>, first: nat): seq<string> {
    seq(|payloads|, i requires 0 <= i < |payloads| =>
      if i == first || payloads[i] == "[DONE]" || reader.status(payloads[i]).Some? then ""
      else if reader.delta(payloads[i]).Some? then reader.delta(payloads[i]).value
      else payloads[i])
  }

  /** The reading of event payloads whose receipt is at an index, or past their end. */
  ghost predicate SaidByEvents(reader: Reader, payloads: seq<string>, first: nat, parsed: Parsed) {
    && IsReceiptOf(reader, payloads, "[DONE]", first, parsed.receipt)
    && IsStatusOf(reader, payloads, "[DONE]", first, parsed.status)
    && (parsed.isDone <==> "[DONE]" in payloads)
    && parsed.text == Flatten(EventPieces(reader, payloads, first))
  }

  predicate IsText(reader: Reader, lines: seq<string>, first: nat, i: nat)
    requires i < |lines|
  {
    i != first && lines[i] != "" && lines[i] != "[DONE]" && reader.status(lines[i]).None?
  }

  /** What each trimmed line adds: itself, behind a line feed unless it is the first text. */
  function LinePieces(reader: Reader, lines: seq<string>, first: nat): seq<string> {
    seq(|lines|, i requires 0 <= i < |lines| =>
      if !IsText(reader, lines, first, i) then ""
      else if exists j :: 0 <= j < i && IsText(reader, lines, first, j) then "\n" + lines[i]
      else lines[i])
  }

  predicate IsDoneBy(reader: Reader, lines: seq<string>, first: nat) {
    exists i :: 0 <= i < |lines| && i != first && lines[i] == "[DONE]" && reader.status(lines[i]).None?
  }

  /** The reading of trimmed plain lines; a status marker is looked for before `[DONE]`. */
  ghost predicate SaidByLines(reader: Reader, lines: seq<string>, first: nat, parsed: Parsed) {
    && IsReceiptOf(reader, lines, "", first, parsed.receipt)
    && IsStatusOf(reader, lines, "", first, parsed.status)
    && (parsed.isDone <==> IsDoneBy(reader, lines, first))
    && parsed.text == Flatten(LinePieces(reader, lines, first))
  }

  function Trimmed(reader: Reader, lines: seq<string>): seq<string> {
    seq(|lines|, i requires 0 <= i < |lines| => reader.trim(lines[i]))
  }

  /** What a chunk says: its event payloads if it mentions the field, its trimmed lines otherwise. */
  ghost predicate SaidByChunk(reader: Reader, chunk: string, parsed: Parsed) {
    if exists i :: 0 <= i <= |chunk| && "data:" <= chunk[i..] then
      exists first: nat :: SaidByEvents(reader, Parse(chunk), first, parsed)
    else
      exists first: nat :: SaidByLines(reader, Trimmed(reader, Lines(chunk)), first, parsed)
  }

  /** Where the receipt is once one more text has been read. */
  function ReceiptNext(reader: Reader, said: seq<string>, skipped: string, first: nat, next: string): nat {
    if first < |said| then first
    else if next != skipped && reader.receipt(next).Some? then |said|
    else |said| + 1
  }

  lemma ReceiptStep(reader: Reader, said: seq<string>, skipped: string, first: nat, receipt: Option<string>,
                    next: string)
    requires IsReceiptOf(reader, said, skipped, first, receipt)
    ensures IsReceiptOf(reader, said + [next], skipped, ReceiptNext(reader, said, skipped, first, next),
                        if receipt.None? && next != skipped && reader.receipt(next).Some? then reader.receipt(next)
                        else receipt)
  {
  }

  lemma StatusStep(reader: Reader, said: seq<string>, skipped: string, first: nat, status: Option<string>,
                   next: string)
    requires IsStatusOf(reader, said, skipped, first, status) && first <= |said|
    ensures var taken := ReceiptNext(reader, said, skipped, first, next);
            IsStatusOf(reader, said + [next], skipped, taken,
                       if taken != |said| && next != skipped && reader.status(next).Some? then reader.status(next)
                       else status)
  {
    var taken, all := ReceiptNext(reader, said, skipped, first, next), said + [next];
    if taken != |said| && next != skipped && reader.status(next).Some? {
      assert all[|said|] == next && NoStatusFrom(reader, all, skipped, taken, |said| + 1);
    } else if status.Some? {
      var i: nat :| i < |said| && i != first && said[i] != skipped && reader.status(said[i]) == status
                    && NoStatusFrom(reader, said, skipped, first, i + 1);
      assert all[i] == said[i];
      assert NoStatusFrom(reader, all, skipped, taken, i + 1);
    }
  }

  lemma {:induction false} EventTextStep(reader: Reader, payloads: seq<string>, first: nat, next: nat, payload: string)
    requires first == next || (first == |payloads| && next == |payloads| + 1)
    ensures var pieces := EventPieces(reader, payloads + [payload], next);
            Flatten(pieces) == Flatten(EventPieces(reader, payloads, first)) + pieces[|payloads|]
  {
    var pieces := EventPieces(reader, payloads + [payload], next);
    assert pieces == EventPieces(reader, payloads, first) + [pieces[|payloads|]];
    FlattenAppend(EventPieces(reader, payloads, first), pieces[|payloads|]);
  }

  lemma {:induction false} EventStep(reader: Reader, payloads: seq<string>, first: nat, so: Parsed, payload: string)
    requires SaidByEvents(reader, payloads, first, so)
    ensures SaidByEvents(reader, payloads + [payload], ReceiptNext(reader, payloads, "[DONE]", first, payload),
                         Absorb(reader, so, payload))
  {
    var next := ReceiptNext(reader, payloads, "[DONE]", first, payload);
    ReceiptStep(reader, payloads, "[DONE]", first, so.receipt, payload);
    StatusStep(reader, payloads, "[DONE]", first, so.status, payload);
    EventTextStep(reader, payloads, first, next, payload);
    assert "[DONE]" in payloads + [payload] <==> "[DONE]" in payloads || payload == "[DONE]";
  }

  lemma {:induction false} EventsSaid(reader: Reader, said: seq<string>, first: nat, so: Parsed, payloads: seq<string>)
      returns (last: nat)
    requires SaidByEvents(reader, said, first, so)
    ensures SaidByEvents(reader, said + payloads, last, AbsorbAll(reader, so, payloads))
    decreases payloads
  {
    if payloads == [] {
      last := first;
      assert said + payloads == said;
    } else {
      EventStep(reader, said, first, so, payloads[0]);
      last := EventsSaid(reader, said + [payloads[0]], ReceiptNext(reader, said, "[DONE]", first, payloads[0]),
                         Absorb(reader, so, payloads[0]), payloads[1..]);
      assert said + [payloads[0]] + payloads[1..] == said + payloads;
    }
  }

  lemma {:induction false} LineTextStep(reader: Reader, lines: seq<string>, first: nat, next: nat, line: string)
    requires first == next || (first == |lines| && next == |lines| + 1)
    ensures var pieces := LinePieces(reader, lines + [line], next);
            var text := Flatten(LinePieces(reader, lines, first));
            && Flatten(pieces) == text + pieces[|lines|]
            && pieces[|lines|] == if IsText(reader, lines + [line], next, |lines|)
                                  then (if text == "" then "" else "\n") + line else ""
  {
    var all := lines + [line];
    var pieces := LinePieces(reader, all, next);
    assert forall i :: 0 <= i < |lines| ==> IsText(reader, all, next, i) == IsText(reader, lines, first, i);
    assert pieces == LinePieces(reader, lines, first) + [pieces[|lines|]];
    FlattenAppend(LinePieces(reader, lines, first), pieces[|lines|]);
    NoTextYet(reader, lines, first);
  }

  /** There is no text so far exactly while no line is text. */
  lemma {:induction false} NoTextYet(reader: Reader, lines: seq<string>, first: nat)
    ensures Flatten(LinePieces(reader, lines, first)) == ""
            <==> forall j :: 0 <= j < |lines| ==> !IsText(reader, lines, first, j)
  {
    var pieces := LinePieces(reader, lines, first);
    EmptyPieces(pieces);
    assert forall j :: 0 <= j < |lines| ==> (pieces[j] == "" <==> !IsText(reader, lines, first, j));
  }

  lemma {:induction false} EmptyPieces(pieces: seq<string>)
    ensures Flatten(pieces) == "" <==> forall j :: 0 <= j < |pieces| ==> pieces[j] == ""
  {
    if pieces != [] {
      EmptyPieces(pieces[1..]);
      assert forall j :: 0 < j < |pieces| ==> pieces[j] == pieces[1..][j - 1];
    }
  }

  lemma DoneStep(reader: Reader, lines: seq<string>, first: nat, next: nat, line: string)
    requires first == next || (first == |lines| && next == |lines| + 1)
    ensures IsDoneBy(reader, lines + [line], next)
            <==> IsDoneBy(reader, lines, first) || (next != |lines| && line == "[DONE]" && reader.status(line).None?)
  {
    var all := lines + [line];
    assert all[|lines|] == line && forall i :: 0 <= i < |lines| ==> all[i] == lines[i];
  }

  lemma {:induction false} LineStep(reader: Reader, lines: seq<string>, first: nat, so: Parsed, line: string)
    requires SaidByLines(reader, lines, first, so)
    ensures SaidByLines(reader, lines + [reader.trim(line)], ReceiptNext(reader, lines, "", first, reader.trim(line)),
                        AbsorbLine(reader, so, line))
  {
    var trimmed := reader.trim(line);
    var next := ReceiptNext(reader, lines, "", first, trimmed);
    ReceiptStep(reader, lines, "", first, so.receipt, trimmed);
    StatusStep(reader, lines, "", first, so.status, trimmed);
    LineTextStep(reader, lines, first, next, trimmed);
    DoneStep(reader, lines, first, next, trimmed);
  }

  lemma {:induction false} LinesSaid(reader: Reader, said: seq<string>, first: nat, so: Parsed, lines: seq<string>)
      returns (last: nat)
    requires SaidByLines(reader, said, first, so)
    ensures SaidByLines(reader, said + Trimmed(reader, lines), last, AbsorbLines(reader, so, lines))
    decreases lines
  {
    if lines == [] {
      last := first;
      assert said + Trimmed(reader, lines) == said;
    } else {
      var trimmed := reader.trim(lines[0]);
      LineStep(reader, said, first, so, lines[0]);
      last := LinesSaid(reader, said + [trimmed], ReceiptNext(reader, said, "", first, trimmed),
                        AbsorbLine(reader, so, lines[0]), lines[1..]);
      assert said + [trimmed] + Trimmed(reader, lines[1..]) == said + Trimmed(reader, lines);
    }
  }

  /** The fold over event payloads reads them as they are said. */
  lemma {:induction false} EventsReadAsSaid(reader: Reader, payloads: seq<string>)
    ensures exists first: nat :: SaidByEvents(reader, payloads, first, AbsorbAll(reader, NOTHING, payloads))
  {
    assert SaidByEvents(reader, [], 0, NOTHING);
    assert [] + payloads == payloads;
    var first := EventsSaid(reader, [], 0, NOTHING, payloads);
  }

  lemma {:induction false} LinesReadAsSaid(reader: Reader, lines: seq<string>)
    ensures exists first: nat :: SaidByLines(reader, Trimmed(reader, lines), first, AbsorbLines(reader, NOTHING, lines))
  {
    assert SaidByLines(reader, [], 0, NOTHING);
    assert [] + Trimmed(reader, lines) == Trimmed(reader, lines);
    var first := LinesSaid(reader, [], 0, NOTHING, lines);
  }

  lemma {:induction false} ChunksReadAsSaid(reader: Reader, chunk: string)
    ensures SaidByChunk(reader, chunk, ParseChunk(reader, chunk))
  {
    assert Includes(chunk, DATA_FIELD) <==> exists i :: 0 <= i <= |chunk| && "data:" <= chunk[i..];
    EventsReadAsSaid(reader, Parse(chunk));
    LinesReadAsSaid(reader, Lines(chunk));
  }

  method ParseStreamPayloads(reader: Reader, payloads: seq<string>) returns (parsed: Parsed)
    ensures parsed == AbsorbAll(reader, NOTHING, payloads)
    ensures exists first: nat :: SaidByEvents(reader, payloads, first, parsed)
  {
    EventsReadAsSaid(reader, payloads);
    var accumulatedText, isDone, receipt, statusMarker := "", false, None, None;
    for i := 0 to |payloads|
      invariant AbsorbAll(reader, Parsed(receipt, accumulatedText, isDone, statusMarker), payloads[i..])
             == AbsorbAll(reader, NOTHING, payloads)
    {
      var payload := payloads[i];
      assert payloads[i..][1..] == payloads[i + 1..];
      if payload == "[DONE]" {
        isDone := true;
        continue;
      }
      if receipt == None {
        var r := reader.receipt(payload);
        if r != None {
          receipt := r;
          continue;
        }
      }
      var status := reader.status(payload);
      if status != None {
        statusMarker := status;
        continue;
      }
      var delta := reader.delta(payload);
      accumulatedText := accumulatedText + if delta.Some? then delta.value else payload;
    }
    parsed := Parsed(receipt, accumulatedText, isDone, statusMarker);
  }

  // ---- chunks

  /** One line of a chunk without a data field: blank lines vanish, the others are joined by line feeds. */
  function AbsorbLine(reader: Reader, so: Parsed, line: string): Parsed {
    var trimmed := reader.trim(line);
    if trimmed == "" then so
    else if so.receipt.None? && reader.receipt(trimmed).Some? then so.(receipt := reader.receipt(trimmed))
    else if reader.status(trimmed).Some? then so.(status := reader.status(trimmed))
    else if trimmed == "[DONE]" then so.(isDone := true)
    else so.(text := so.text + (if so.text == "" then "" else "\n") + trimmed)
  }

  function AbsorbLines(reader: Reader, so: Parsed, lines: seq<string>): Parsed
    decreases lines
  {
    if lines == [] then so else AbsorbLines(reader, AbsorbLine(reader, so, lines[0]), lines[1..])
  }

  /** A chunk that mentions the data field anywhere is read as events, any other as plain text. */
  function ParseChunk(reader: Reader, chunk: string): Parsed {
    if Includes(chunk, DATA_FIELD) then AbsorbAll(reader, NOTHING, Parse(chunk))
    else AbsorbLines(reader, NOTHING, Lines(chunk))
  }

  method ParseStreamChunk(reader: Reader, chunk: string) returns (parsed: Parsed)
    ensures parsed == ParseChunk(reader, chunk) && SaidByChunk(reader, chunk, parsed)
  {
    ChunksReadAsSaid(reader, chunk);
    if Includes(chunk, DATA_FIELD) {
      var payloads := ParseSseChunk(chunk);
      parsed := ParseStreamPayloads(reader, payloads);
      return;
    }
    var lines := Lines(chunk);
    var text, receipt, statusMarker, isDone := "", None, None, false;
    for i := 0 to |lines|
      invariant AbsorbLines(reader, Parsed(receipt, text, isDone, statusMarker), lines[i..])
                == AbsorbLines(reader, NOTHING, lines)
    {
      assert lines[i..][1..] == lines[i + 1..];
      var trimmed := reader.trim(lines[i]);
      if trimmed == "" {
        continue;
      }
      if receipt == None {
        var r := reader.receipt(trimmed);
        if r != None {
          receipt := r;
          continue;
        }
      }
      var status := reader.status(trimmed);
      if status != None {
        statusMarker := status;
        continue;
      }
      if trimmed == "[DONE]" {
        isDone := true;
        continue;
      }
      text := text + (if text != "" then "\n" else "") + trimmed;
    }
    parsed := Parsed(receipt, text, isDone, statusMarker);
  }

  lemma {:induction false} NoDataLines(lines: seq<string>)
    requires forall i :: 0 <= i < |lines| ==> !(DATA_FIELD <= lines[i])
    ensures Payloads(lines) == []
  {
    if lines != [] {
      NoDataLines(lines[..|lines| - 1]);
    }
  }

  /** So plain text that mentions the field name, though never at the start of a line, is dropped whole. */
  lemma {:induction false} PlainTextMentioningTheFieldIsDropped(reader: Reader, chunk: string)
    requires Includes(chunk, DATA_FIELD)
    requires forall i :: 0 <= i < |Lines(chunk)| ==> !(DATA_FIELD <= Lines(chunk)[i])
    ensures ParseChunk(reader, chunk) == NOTHING
  {
    NoDataLines(Lines(chunk));
  }

  lemma {:induction false} AbsorbConcat(reader: Reader, so: Parsed, a: seq<string>, b: seq<string>)
    ensures AbsorbAll(reader, so, a + b) == AbsorbAll(reader, AbsorbAll(reader, so, a), b)
    decreases a
  {
    if a == [] {
      assert a + b == b;
    } else {
      assert (a + b)[1..] == a[1..] + b;
      AbsorbConcat(reader, Absorb(reader, so, a[0]), a[1..], b);
    }
  }

  lemma Regroup(a: string, b: string, c: string)
    ensures (a + b) + c == a + (b + c)
  {
  }

  /** Text already accumulated stays in front, whatever else is known. */
  lemma {:induction false} TextAccumulates(reader: Reader, so: Parsed, payloads: seq<string>)
    ensures AbsorbAll(reader, so, payloads).text == so.text + AbsorbAll(reader, so.(text := ""), payloads).text
    decreases payloads
  {
    if payloads != [] {
      var next, own := Absorb(reader, so, payloads[0]), Absorb(reader, so.(text := ""), payloads[0]);
      TextAccumulates(reader, next, payloads[1..]);
      TextAccumulates(reader, own, payloads[1..]);
      assert own.(text := "") == next.(text := "") && next.text == so.text + own.text;
      Regroup(so.text, own.text, AbsorbAll(reader, own.(text := ""), payloads[1..]).text);
    }
  }

  /** Once a receipt is known, every payload is shown. */
  lemma {:induction false} WithReceiptAllIsShown(reader: Reader, so: Parsed, payloads: seq<string>)
    requires so.receipt.Some?
    ensures AbsorbAll(reader, so, payloads).text == so.text + ShownAll(reader, payloads)
    decreases payloads
  {
    if payloads != [] {
      var next := Absorb(reader, so, payloads[0]);
      assert next.text == so.text + Shown(reader, payloads[0]);
      WithReceiptAllIsShown(reader, next, payloads[1..]);
      Regroup(so.text, Shown(reader, payloads[0]), ShownAll(reader, payloads[1..]));
    }
  }

  function ShownAll(reader: Reader, payloads: seq<string>): string {
    if payloads == [] then "" else Shown(reader, payloads[0]) + ShownAll(reader, payloads[1..])
  }

  /** The index of the first payload a chunk takes as its receipt, or the length. */
  function FirstReceipt(reader: Reader, payloads: seq<string>): (i: nat)
    ensures i <= |payloads|
  {
    if payloads == [] || TakenAsReceipt(reader, payloads[0]) then 0 else 1 + FirstReceipt(reader, payloads[1..])
  }

  /** What a chunk read on its own shows: everything but its receipt. */
  function ShownWithoutReceipt(reader: Reader, payloads: seq<string>): string {
    if payloads == [] then ""
    else if TakenAsReceipt(reader, payloads[0]) then ShownAll(reader, payloads[1..])
    else Shown(reader, payloads[0]) + ShownWithoutReceipt(reader, payloads[1..])
  }

  lemma {:induction false} OwnChunkText(reader: Reader, so: Parsed, payloads: seq<string>)
    requires so.receipt.None? && so.text == ""
    ensures AbsorbAll(reader, so, payloads).text == ShownWithoutReceipt(reader, payloads)
    decreases payloads
  {
    if payloads != [] {
      var next := Absorb(reader, so, payloads[0]);
      if TakenAsReceipt(reader, payloads[0]) {
        WithReceiptAllIsShown(reader, next, payloads[1..]);
      } else {
        TextAccumulates(reader, next, payloads[1..]);
        OwnChunkText(reader, next.(text := ""), payloads[1..]);
      }
    }
  }

  /** A chunk's own reading is shorter than the full one by exactly its receipt's visible text. */
  lemma {:induction false} ReceiptIsHidden(reader: Reader, payloads: seq<string>)
    ensures var i := FirstReceipt(reader, payloads);
            |ShownAll(reader, payloads)| == |ShownWithoutReceipt(reader, payloads)|
              + (if i == |payloads| then 0 else |Shown(reader, payloads[i])|)
    ensures |ShownAll(reader, payloads)| == |ShownWithoutReceipt(reader, payloads)|
            ==> ShownAll(reader, payloads) == ShownWithoutReceipt(reader, payloads)
  {
    if payloads != [] && !TakenAsReceipt(reader, payloads[0]) {
      ReceiptIsHidden(reader, payloads[1..]);
    }
  }

  /**
   The reader starts each chunk without a receipt. So text shown over two
   chunks is the text of both together if and only if the first chunk had no
   receipt, or nothing visible in the second is mistaken for one.
   */
  lemma {:induction false} ChunkingKeepsTextExactlyWithoutASecondReceipt(reader: Reader, a: seq<string>, b: seq<string>)
    ensures var i := FirstReceipt(reader, b);
            (AbsorbAll(reader, NOTHING, a).text + AbsorbAll(reader, NOTHING, b).text
             == AbsorbAll(reader, NOTHING, a + b).text)
            == (AbsorbAll(reader, NOTHING, a).receipt.None? || i == |b| || Shown(reader, b[i]) == "")
  {
    var first := AbsorbAll(reader, NOTHING, a);
    AbsorbConcat(reader, NOTHING, a, b);
    OwnChunkText(reader, NOTHING, b);
    if first.receipt.None? {
      TextAccumulates(reader, first, b);
      OwnChunkText(reader, first.(text := ""), b);
    } else {
      WithReceiptAllIsShown(reader, first, b);
      ReceiptIsHidden(reader, b);
    }
  }

  lemma IncludesLonger(a: string, b: string, part: string)
    requires Includes(a, part)
    ensures Includes(a + b, part)
  {
    var i :| 0 <= i <= |a| && part <= a[i..];
    assert (a + b)[i..] == a[i..] + b;
    assert part <= (a + b)[i..];
  }

  /**
   So of two event chunks cut harmlessly, the widget shows the text of both together if and only if the
   first had no receipt, or nothing visible in the second is mistaken for one.
   */
  lemma {:induction false} HarmlessCutShowsTheWholeExactly(reader: Reader, a: string, b: string)
    requires Includes(a, DATA_FIELD) && Includes(b, DATA_FIELD) && WellCut(a, b)
    ensures var payloads := Parse(b); var i := FirstReceipt(reader, payloads);
            ParseChunk(reader, a).text + ParseChunk(reader, b).text == ParseChunk(reader, a + b).text <==>
            ParseChunk(reader, a).receipt.None? || i == |payloads| || Shown(reader, payloads[i]) == ""
  {
    CutIsHarmlessExactly(a, b);
    IncludesLonger(a, b, DATA_FIELD);
    ChunkingKeepsTextExactlyWithoutASecondReceipt(reader, Parse(a), Parse(b));
  }
}
