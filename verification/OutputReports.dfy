/** What a run of the generator leaves on disk, how it ends, and which files its check calls stale. */
module OutputReports {
  import opened OutputFiles
  import Options
  import opened Texts

  // ---- paths

  /** The parts of a path: those with slashes between them and no slash inside. */
  lemma {:induction false} PartsExactly(path: string, parts: seq<string>)
    requires parts != []
    ensures Split(path) == parts <==> path == JoinBy(parts, '/') && Unseparated(parts, '/')
  {
    JoinOfSplit(path, '/');
    if path == JoinBy(parts, '/') && Unseparated(parts, '/') {
      SplitOfJoined(parts, '/');
    }
  }

  lemma FirstPart(path: string, first: string)
    requires '/' !in first
    ensures first + "/" <= path <==> |Split(path)| > 1 && Split(path)[0] == first
  {
    JoinOfSplit(path, '/');
    if first + "/" <= path {
      var rest := path[|first| + 1..];
      assert path == first + ['/'] + rest;
      SplitBehind(first, '/', rest);
      SplitWhole(first, '/');
    }
    if |Split(path)| > 1 && Split(path)[0] == first {
      assert path == first + "/" + JoinBy(Split(path)[1..], '/');
    }
  }

  lemma OnePart(path: string)
    ensures '/' !in path <==> |Split(path)| == 1
  {
    JoinOfSplit(path, '/');
    if '/' !in path {
      SplitWhole(path, '/');
    }
  }

  lemma {:induction false} PartsBehind(path: string, first: string)
    requires '/' !in first && first + "/" <= path
    ensures Split(path) == [first] + Split(path[|first| + 1..])
  {
    assert path == first + ['/'] + path[|first| + 1..];
    SplitBehind(first, '/', path[|first| + 1..]);
    SplitWhole(first, '/');
  }

  /** A file directly in a directory at the top level. */
  lemma {:induction false} DirectlyInOne(path: string, directory: string)
    requires '/' !in directory
    ensures DirectlyIn(path, directory + "/") <==> |Split(path)| == 2 && Split(path)[0] == directory
  {
    FirstPart(path, directory);
    if directory + "/" <= path {
      PartsBehind(path, directory);
      OnePart(path[|directory| + 1..]);
    }
  }

  /** A file directly in a directory one level down. */
  lemma {:induction false} DirectlyInTwo(path: string, outer: string, inner: string)
    requires '/' !in outer && '/' !in inner
    ensures DirectlyIn(path, outer + "/" + inner + "/") <==>
            |Split(path)| == 3 && Split(path)[0] == outer && Split(path)[1] == inner
  {
    FirstPart(path, outer);
    if outer + "/" <= path {
      var rest := path[|outer| + 1..];
      PartsBehind(path, outer);
      DirectlyInOne(rest, inner);
      var whole := outer + "/" + inner + "/";
      assert whole[..|outer| + 1] == outer + "/" && whole[|outer| + 1..] == inner + "/";
      assert whole <= path <==> inner + "/" <= rest;
      assert whole <= path ==> path[|whole|..] == rest[|inner| + 1..];
    } else {
      assert outer + "/" + inner + "/" <= path ==> outer + "/" <= path;
    }
  }

  // ---- stale files

  predicate HasSuffix(path: string, suffix: string) {
    exists n :: 0 <= n <= |path| && path[n..] == suffix
  }

  lemma SuffixExactly(path: string, suffix: string)
    ensures EndsWith(path, suffix) <==> HasSuffix(path, suffix)
  {
    if EndsWith(path, suffix) {
      assert path[|path| - |suffix|..] == suffix;
    }
  }

  /** A Markdown file anywhere below a layer directory. */
  predicate BelowALayer(path: string) {
    HasSuffix(path, ".md") && |Split(path)| > 1 && Split(path)[0] in {"unit", "integration", "e2e", "governance"}
  }

  /** A file where the generator writes: JSON in a fixture directory, Markdown in `platform` or at the top. */
  predicate WhereOutputsGo(path: string) {
    var parts := Split(path);
    || (HasSuffix(path, ".json") && |parts| == 3 && parts[0] == "fixtures"
        && parts[1] in {"offline", "scenarios", "live"})
    || (HasSuffix(path, ".md") && (|parts| == 1 || (|parts| == 2 && parts[0] == "platform")))
    || (HasSuffix(path, ".tmp") && |parts| == 1)
  }

  lemma BelowOne(path: string, prefix: string, layer: string)
    requires prefix == layer + "/" && '/' !in layer
    ensures prefix <= path <==> |Split(path)| > 1 && Split(path)[0] == layer
  {
    FirstPart(path, layer);
  }

  lemma LayerDocumentExactly(path: string)
    ensures IsLayerDocument(path) <==> BelowALayer(path)
  {
    SuffixExactly(path, ".md");
    BelowOne(path, "unit/", "unit");
    BelowOne(path, "integration/", "integration");
    BelowOne(path, "e2e/", "e2e");
    BelowOne(path, "governance/", "governance");
  }

  lemma {:induction false} FixtureExactly(path: string)
    ensures InFixtureDirectory(path) <==>
            |Split(path)| == 3 && Split(path)[0] == "fixtures" && Split(path)[1] in {"offline", "scenarios", "live"}
  {
    DirectlyInTwo(path, "fixtures", "offline");
    DirectlyInTwo(path, "fixtures", "scenarios");
    DirectlyInTwo(path, "fixtures", "live");
    assert "fixtures" + "/" + "offline" + "/" == "fixtures/offline/";
    assert "fixtures" + "/" + "scenarios" + "/" == "fixtures/scenarios/";
    assert "fixtures" + "/" + "live" + "/" == "fixtures/live/";
  }

  lemma PlatformExactly(path: string)
    ensures DirectlyIn(path, "platform/") <==> |Split(path)| == 2 && Split(path)[0] == "platform"
  {
    DirectlyInOne(path, "platform");
    assert "platform" + "/" == "platform/";
  }

  lemma {:induction false} GeneratedExactly(path: string)
    ensures LooksGenerated(path) <==> WhereOutputsGo(path)
  {
    SuffixExactly(path, ".json");
    SuffixExactly(path, ".md");
    SuffixExactly(path, ".tmp");
    OnePart(path);
    PlatformExactly(path);
    FixtureExactly(path);
  }

  /**
   The check calls a file stale exactly when this run does not produce it and it is a Markdown file below a layer
   directory, or an unprotected file where outputs go.
   */
  lemma StaleExactly(files: Files, paths: seq<string>, path: string)
    ensures path in StaleExtras(files, paths) <==>
            path in files && path !in paths && (BelowALayer(path) || (WhereOutputsGo(path) && !IsProtected(path)))
  {
    LayerDocumentExactly(path);
    GeneratedExactly(path);
  }

  /** So an output that a later run no longer plans is stale until it is deleted, wherever a document can go. */
  lemma {:induction false} DroppedDocumentIsStale(files: Files, before: seq<string>, after: seq<string>,
                                                  contents: string -> string,
                               path: string)
    requires NoRepeats(before) && AllUnprotected(Sort(before)) && path in before && path !in after && BelowALayer(path)
    ensures var written := Write(files, Sort(before), contents, AllComplete(|Sort(before)|)).files;
            path in StaleExtras(written, after) && CheckStatus(written, after, contents) == 3
  {
    SortSorts(before);
    SortKeepsNoRepeats(before);
    SortMember(before, path);
    CompletedFilesHold(files, Sort(before), contents, path);
    var written := Write(files, Sort(before), contents, AllComplete(|Sort(before)|)).files;
    StaleExactly(written, after, path);
  }

  // ---- protected paths

  /** A part that is neither empty nor the current directory. */
  predicate Counts(part: string) { part != "" && part != "." }

  predicate IsLastThatCounts(parts: seq<string>, last: nat) {
    last < |parts| && Counts(parts[last]) && forall k :: last < k < |parts| ==> !Counts(parts[k])
  }

  /** Local settings, results and anything that looks like a secret. */
  predicate SecretName(lowered: string) {
    || lowered in {"env.local", "credentials.json", "secrets.json", "results.json"}
    || HasSuffix(lowered, ".local") || HasSuffix(lowered, ".secret") || HasSuffix(lowered, ".key")
    || HasSuffix(lowered, ".pem") || HasSuffix(lowered, ".env")
  }

  /** A letter in lower case; other characters stay. */
  lemma LowerExactly(s: string, i: nat)
    requires i < |s|
    ensures |Lower(s)| == |s|
    ensures Lower(s)[i] as int == s[i] as int + if 65 <= s[i] as int <= 90 then 32 else 0
  {
  }

  lemma SecretExactly(lowered: string)
    ensures ProtectedName(lowered) <==> SecretName(lowered)
  {
    SuffixExactly(lowered, ".local");
    SuffixExactly(lowered, ".secret");
    SuffixExactly(lowered, ".key");
    SuffixExactly(lowered, ".pem");
    SuffixExactly(lowered, ".env");
    var suffixes := [".local", ".secret", ".key", ".pem", ".env"];
    assert ".local" in suffixes && ".secret" in suffixes && ".key" in suffixes && ".pem" in suffixes
           && ".env" in suffixes by {
      assert suffixes[0] == ".local" && suffixes[1] == ".secret" && suffixes[2] == ".key" && suffixes[3] == ".pem"
             && suffixes[4] == ".env";
    }
  }

  /** The parts that count, in terms of the last of them. */
  lemma {:induction false} MeaningfulExactly(parts: seq<string>, last: nat)
    requires IsLastThatCounts(parts, last)
    ensures var kept := Meaningful(parts);
            && kept != [] && kept[|kept| - 1] == parts[last] && kept[..|kept| - 1] == Meaningful(parts[..last])
  {
    if last < |parts| - 1 {
      MeaningfulExactly(parts[..|parts| - 1], last);
      assert parts[..|parts| - 1][..last] == parts[..last];
    }
  }

  lemma MeaningfulMember(parts: seq<string>, part: string)
    ensures part in Meaningful(parts) <==> part in parts && Counts(part)
  {
    Selected(parts, part => part != "" && part != ".");
  }

  /** A directory above the file is named `results`, in any case. */
  predicate UnderResults(parts: seq<string>, last: nat)
    requires last <= |parts|
  {
    exists k :: 0 <= k < last && Lower(parts[k]) == "results"
  }

  /**
   A path with a part that counts is protected exactly when a part is `..`, a directory above the last such part is
   named `results`, or that part names a secret; one without such a part always is.
   */
  lemma {:induction false} ProtectedExactly(path: string, last: nat)
    requires IsLastThatCounts(Split(path), last)
    ensures IsProtected(path) <==>
            ".." in Split(path) || UnderResults(Split(path), last) || SecretName(Lower(Split(path)[last]))
  {
    var parts := Split(path);
    var kept, above := Meaningful(parts), Meaningful(parts[..last]);
    MeaningfulExactly(parts, last);
    MeaningfulMember(parts, "..");
    SecretExactly(Lower(parts[last]));
    if k :| 0 <= k < last && Lower(parts[k]) == "results" {
      assert |Lower(parts[k])| == 7 && parts[..last][k] == parts[k];
      MeaningfulMember(parts[..last], parts[k]);
      var i :| 0 <= i < |above| && above[i] == parts[k];
      assert kept[i] == kept[..|kept| - 1][i];
    }
    if i :| 0 <= i < |kept| - 1 && Lower(kept[i]) == "results" {
      assert kept[..|kept| - 1][i] == kept[i];
      MeaningfulMember(parts[..last], kept[i]);
      var k :| 0 <= k < last && parts[..last][k] == kept[i];
      assert parts[k] == kept[i];
    }
  }

  lemma PathWithoutAPartIsProtected(path: string)
    requires forall k :: 0 <= k < |Split(path)| ==> !Counts(Split(path)[k])
    ensures IsProtected(path)
  {
    var kept := Meaningful(Split(path));
    if kept != [] {
      MeaningfulMember(Split(path), kept[0]);
      assert false;
    }
  }

  /**
   What may be planned: a relative path that does not climb, names no input of the generator, and is not protected.
   */
  lemma WritableExactly(path: string, owned: set<string>)
    ensures Writable(path, owned) <==>
            && !("/" <= path) && !HasSuffix(path, "/") && ".." !in Split(path) && !IsProtected(path)
            && forall rel :: rel in owned ==> !SameButForSlashes(path, rel)
  {
    SuffixExactly(path, "/");
    forall rel ensures Slashes(path) == rel <==> SameButForSlashes(path, rel) {
    }
  }

  /** The same path written with slashes for backslashes. */
  predicate SameButForSlashes(path: string, rel: string) {
    |rel| == |path| && forall i :: 0 <= i < |path| ==> rel[i] == (if path[i] == '\\' then '/' else path[i])
  }

  // ---- how a run of writing ends

  /** Everything up to a position was written, and nothing behind it. */
  predicate EndsAt(order: seq<string>, events: seq<Event>, outcome: Outcome, n: nat)
    requires |order| == |events|
  {
    && n <= |order| && outcome.written == order[..n]
    && (forall i :: 0 <= i < n ==> !IsProtected(order[i]) && events[i] == Completes)
    && if n == |order| then outcome.ending == AllWritten
       else if IsProtected(order[n]) then outcome.ending == RefusedProtected
       else
         && events[n] != Completes
         && outcome.ending == if events[n].Interrupted? && events[n].stop == Death then Died else Raised
  }

  /** A run writes outputs in order up to the first that is protected or does not complete, and ends accordingly. */
  lemma {:induction false} RunEndsExactly(files: Files, order: seq<string>, contents: string -> string,
                                          events: seq<Event>) returns (n: nat)
    requires |order| == |events|
    ensures EndsAt(order, events, Write(files, order, contents, events), n)
    decreases order
  {
    if order == [] || IsProtected(order[0]) || events[0] != Completes {
      n := 0;
    } else {
      var after := AfterEvent(files, order[0], contents(order[0]), Completes);
      n := RunEndsExactly(after, order[1..], contents, events[1..]);
      EndsOneLater(order, events, Write(after, order[1..], contents, events[1..]), n);
      n := n + 1;
    }
  }

  /** What a run still does behind its first output. */
  lemma EndsOneLater(order: seq<string>, events: seq<Event>, rest: Outcome, n: nat)
    requires |order| == |events| && order != [] && EndsAt(order[1..], events[1..], rest, n)
    requires !IsProtected(order[0]) && events[0] == Completes
    ensures EndsAt(order, events, rest.(written := [order[0]] + rest.written), n + 1)
  {
    WrittenOneLater(order, n);
    forall i | 0 <= i < n + 1 ensures !IsProtected(order[i]) && events[i] == Completes {
      if i > 0 {
        SameOneLater(order, events, i - 1);
      }
    }
    if n < |order| - 1 {
      SameOneLater(order, events, n);
    }
  }

  lemma WrittenOneLater(order: seq<string>, n: nat)
    requires n < |order|
    ensures order[..n + 1] == [order[0]] + order[1..][..n]
  {
  }

  lemma SameOneLater(order: seq<string>, events: seq<Event>, i: nat)
    requires |order| == |events| && i < |order| - 1
    ensures order[1..][i] == order[i + 1] && events[1..][i] == events[i + 1]
  {
  }

  /** However a run ends, every output it reports as written holds its content. */
  lemma {:induction false} WrittenFilesHold(files: Files, order: seq<string>, contents: string -> string,
                                            events: seq<Event>, path: string)
    requires |order| == |events| && Ordered(order) && NoRepeats(order)
    requires path in Write(files, order, contents, events).written
    ensures Lookup(Write(files, order, contents, events).files, path) == Options.Some(contents(path))
    decreases order
  {
    var after := AfterEvent(files, order[0], contents(order[0]), events[0]);
    RestOfOrder(order);
    if path == order[0] {
      FirstIsNotWrittenAgain(order);
      EventTouches(files, path, contents(path), Completes, path);
      OnlyOutputsChange(after, order[1..], contents, events[1..], path);
    } else {
      WrittenFilesHold(after, order[1..], contents, events[1..], path);
    }
  }

  /** A completed output holds its content, its temporary file is gone, and nothing else has changed. */
  lemma CompletionLeaves(files: Files, path: string, content: string)
    ensures AfterEvent(files, path, content, Completes) == (files - {path + ".tmp"})[path := content]
    ensures AfterEvent(files, path, content, MkdirFails) == files
  {
  }

  /** An error whose clean-up succeeds leaves nothing behind; a death leaves a prefix of the content at most. */
  lemma InterruptionLeaves(files: Files, path: string, content: string, stage: Stage, stop: Stop)
    ensures var after := AfterEvent(files, path, content, Interrupted(stage, stop)); var temporary := path + ".tmp";
            && (stop == Error(true) ==> after == files - {temporary})
            && (stop != Error(true) ==>
                  if stage == BeforeOpen then after == files
                  else temporary in after && after[temporary] <= content && after - {temporary} == files - {temporary})
            && (stop != Error(true) && stage == BeforeReplace ==> after[temporary] == content)
  {
  }

  // ---- reading as text

  lemma {:induction false} EmptyLine(rest: string)
    ensures ReadText("\r\n" + rest) == "\n" + ReadText(rest)
    ensures rest == "" || rest[0] != '\n' ==> ReadText("\r" + rest) == "\n" + ReadText(rest)
  {
    assert ("\r\n" + rest)[2..] == rest && ("\r" + rest)[1..] == rest;
  }

  /** The first carriage return ends a line, with a line feed behind it or not. */
  lemma {:induction false} ReadTextLineByLine(line: string, rest: string)
    requires '\r' !in line
    ensures ReadText(line + "\r\n" + rest) == line + "\n" + ReadText(rest)
    ensures rest == "" || rest[0] != '\n' ==> ReadText(line + "\r" + rest) == line + "\n" + ReadText(rest)
  {
    if line == "" {
      EmptyLine(rest);
      assert line + "\r\n" + rest == "\r\n" + rest && line + "\r" + rest == "\r" + rest;
    } else {
      ReadTextLineByLine(line[1..], rest);
      assert (line + "\r\n" + rest)[1..] == line[1..] + "\r\n" + rest;
      assert (line + "\r" + rest)[1..] == line[1..] + "\r" + rest;
    }
  }
}
