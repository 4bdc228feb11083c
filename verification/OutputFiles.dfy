/**
 Writing the generated files by temporary file and replace, with the process failing or dying at any
 primitive step, and the check that compares the files on disk with what would be written.
 */
module OutputFiles {
  import opened Options
  import opened Texts

  /** The regular files under the generator's directory, by relative path. */
  type Files = map<string, string>

  // ---- protected paths

  function Split(path: string): (parts: seq<string>)
    ensures parts != []
  {
    SplitAt(path, '/')
  }

  function LowerChar(c: char): char { if 'A' <= c <= 'Z' then c + ' ' else c }
  function Lower(s: string): string { seq(|s|, i requires 0 <= i < |s| => LowerChar(s[i])) }

  predicate EndsWith(s: string, suffix: string) { |suffix| <= |s| && s[|s| - |suffix|..] == suffix }

  predicate ProtectedName(name: string) {
    || name in ["env.local", "credentials.json", "secrets.json", "results.json"]
    || exists suffix :: suffix in [".local", ".secret", ".key", ".pem", ".env"] && EndsWith(name, suffix)
  }

  function Meaningful(parts: seq<string>): seq<string> { Select(parts, part => part != "" && part != ".") }

  predicate IsProtected(path: string) {
    var parts := Meaningful(Split(path));
    || parts == [] || ".." in parts
    || (exists i :: 0 <= i < |parts| - 1 && Lower(parts[i]) == "results")
    || ProtectedName(Lower(parts[|parts| - 1]))
  }

  /** Absolute, climbing, or naming a directory. */
  predicate Escapes(path: string) {
    (path != "" && path[0] == '/') || ".." in Split(path) || EndsWith(path, "/")
  }

  function Slashes(path: string): string {
    seq(|path|, i requires 0 <= i < |path| => if path[i] == '\\' then '/' else path[i])
  }

  predicate Writable(path: string, owned: set<string>) {
    !Escapes(path) && Slashes(path) !in owned && !IsProtected(path)
  }

  /** Accepts the planned outputs exactly when each may be written. */
  method AssertOutputPaths(paths: seq<string>, owned: set<string>) returns (accepted: bool)
    ensures accepted <==> forall i :: 0 <= i < |paths| ==> Writable(paths[i], owned)
  {
    for i := 0 to |paths|
      invariant forall k :: 0 <= k < i ==> Writable(paths[k], owned)
    {
      if Escapes(paths[i]) {
        return false;
      }
      if Slashes(paths[i]) in owned {
        return false;
      }
      if IsProtected(paths[i]) {
        return false;
      }
    }
    return true;
  }

  // ---- writing

  function Temporary(path: string): string { path + ".tmp" }

  /**
   How far writing one file gets when it does not complete; `n` characters of the content are in the temporary file.
   */
  datatype Stage = BeforeOpen | PartWritten(n: nat) | BeforeReplace

  /**
   An operating-system error, after which the temporary file is removed if that succeeds, or the end of the process.
   */
  datatype Stop = Error(unlinked: bool) | Death

  datatype Event = Completes | MkdirFails | Interrupted(stage: Stage, stop: Stop)

  datatype Ending = AllWritten | RefusedProtected | Raised | Died

  datatype Outcome = Outcome(files: Files, written: seq<string>, ending: Ending)

  function Prefix(content: string, n: nat): string { if n <= |content| then content[..n] else content }

  function AtStage(files: Files, path: string, content: string, stage: Stage): Files {
    match stage
    case BeforeOpen => files
    case PartWritten(n) => files[Temporary(path) := Prefix(content, n)]
    case BeforeReplace => files[Temporary(path) := content]
  }

  function AfterEvent(files: Files, path: string, content: string, event: Event): Files {
    match event
    case Completes => (files - {Temporary(path)})[path := content]
    case MkdirFails => files
    case Interrupted(stage, stop) =>
      var reached := AtStage(files, path, content, stage);
      if stop.Error? && stop.unlinked then reached - {Temporary(path)} else reached
  }

  function EndingOf(event: Event): Ending {
    if event.Interrupted? && event.stop.Death? then Died else Raised
  }

  /** Files in order, each through its temporary file, up to the first that is protected or does not complete. */
  function Write(files: Files, order: seq<string>, contents: string -> string, events: seq<Event>): Outcome
    requires |order| == |events|
    decreases order
  {
    if order == [] then Outcome(files, [], AllWritten)
    else if IsProtected(order[0]) then Outcome(files, [], RefusedProtected)
    else
      var after := AfterEvent(files, order[0], contents(order[0]), events[0]);
      if events[0] != Completes then Outcome(after, [], EndingOf(events[0]))
      else
        var rest := Write(after, order[1..], contents, events[1..]);
        rest.(written := [order[0]] + rest.written)
  }

  /** The writing that is left from a position on, in terms of the writing left after it. */
  lemma {:induction false} WriteFrom(files: Files, order: seq<string>, contents: string -> string, events: seq<Event>,
                                     i: nat)
    requires |order| == |events| && i < |order|
    ensures var left := Write(files, order[i..], contents, events[i..]);
            var after := AfterEvent(files, order[i], contents(order[i]), events[i]);
            if IsProtected(order[i]) then left == Outcome(files, [], RefusedProtected)
            else if events[i] != Completes then left == Outcome(after, [], EndingOf(events[i]))
            else var rest := Write(after, order[i + 1..], contents, events[i + 1..]);
                left == rest.(written := [order[i]] + rest.written)
  {
    assert order[i..][1..] == order[i + 1..] && events[i..][1..] == events[i + 1..];
  }

  lemma Regroup(a: seq<string>, b: seq<string>, c: seq<string>)
    ensures (a + b) + c == a + (b + c)
  {
  }

  class Disk {
    var files: Files

    constructor (files: Files)
      ensures this.files == files
    {
      this.files := files;
    }

    /** Opening for writing truncates or creates. */
    method Put(path: string, content: string)
      modifies this
      ensures files == old(files)[path := content]
    {
      files := files[path := content];
    }

    method Unlink(path: string)
      modifies this
      ensures files == old(files) - {path}
    {
      files := files - {path};
    }

    /** The atomic rename. */
    method Replace(from: string, to: string)
      requires from in files && from != to
      modifies this
      ensures files == (old(files) - {from})[to := old(files)[from]]
    {
      var content := files[from];
      files := files - {from};
      files := files[to := content];
    }

    /** One file: temporary file, content, replace; `stopped` unless all of it happened. */
    method WriteFile(path: string, content: string, event: Event) returns (stopped: bool)
      modifies this
      ensures files == AfterEvent(old(files), path, content, event) && stopped == (event != Completes)
    {
      var temporary := path + ".tmp";
      stopped := true;
      if event == MkdirFails {
        return;
      }
      if event.Interrupted? && event.stage.BeforeOpen? {
        if event.stop.Error? && event.stop.unlinked {
          Unlink(temporary);
        }
        return;
      }
      Put(temporary, "");
      if event.Interrupted? {
        if event.stage.PartWritten? {
          Put(temporary, Prefix(content, event.stage.n));
        } else {
          Put(temporary, content);
        }
        if event.stop.Error? && event.stop.unlinked {
          Unlink(temporary);
        }
        return;
      }
      Put(temporary, content);
      Replace(temporary, path);
      assert old(files) - {temporary} == old(files)[temporary := content] - {temporary};
      stopped := false;
    }

    /** Writes every output in sorted order and stops at the first file that is refused or interrupted. */
    method WriteOutputs(paths: seq<string>, contents: string -> string, events: seq<Event>)
      returns (written: seq<string>, ending: Ending)
      requires |events| == |paths|
      modifies this
      ensures |Sort(paths)| == |events| && Outcome(files, written, ending)
              == Write(old(files), Sort(paths), contents, events)
    {
      SortSorts(paths);
      written, ending := WriteInOrder(Sort(paths), contents, events);
    }

    method WriteInOrder(order: seq<string>, contents: string -> string, events: seq<Event>)
      returns (written: seq<string>, ending: Ending)
      requires |order| == |events|
      modifies this
      ensures Outcome(files, written, ending) == Write(old(files), order, contents, events)
    {
      ghost var whole := Write(files, order, contents, events);
      assert order[0..] == order && events[0..] == events;
      written := [];
      for i := 0 to |order|
        invariant var rest := Write(files, order[i..], contents, events[i..]);
                  rest.files == whole.files && written + rest.written == whole.written && rest.ending == whole.ending
      {
        WriteFrom(files, order, contents, events, i);
        if IsProtected(order[i]) {
          return written, RefusedProtected;
        }
        var stopped := WriteFile(order[i], contents(order[i]), events[i]);
        if stopped {
          return written, EndingOf(events[i]);
        }
        Regroup(written, [order[i]], Write(files, order[i + 1..], contents, events[i + 1..]).written);
        written := written + [order[i]];
      }
      ending := AllWritten;
    }
  }

  // ---- old or new

  function Lookup(files: Files, path: string): Option<string> { if path in files then Some(files[path]) else None }

  lemma EventTouches(files: Files, path: string, content: string, event: Event, other: string)
    requires other != Temporary(path)
    ensures Lookup(AfterEvent(files, path, content, event), other)
         == if other == path && event == Completes then Some(content) else Lookup(files, other)
  {
  }

  lemma RestOfOrder(order: seq<string>)
    requires order != []
    ensures forall i :: 0 <= i < |order[1..]| ==> order[1..][i] == order[i + 1]
  {
  }

  predicate Touches(order: seq<string>, path: string) {
    exists i :: 0 <= i < |order| && (path == order[i] || path == Temporary(order[i]))
  }

  /** Nothing changes but outputs and their temporary files. */
  lemma {:induction false} OnlyOutputsChange(files: Files, order: seq<string>, contents: string -> string,
                                             events: seq<Event>, path: string)
    requires |order| == |events| && !Touches(order, path)
    ensures Lookup(Write(files, order, contents, events).files, path) == Lookup(files, path)
    decreases order
  {
    if order != [] && !IsProtected(order[0]) {
      assert path != order[0] && path != Temporary(order[0]);
      EventTouches(files, order[0], contents(order[0]), events[0], path);
      if events[0] == Completes {
        RestOfOrder(order);
        OnlyOutputsChange(AfterEvent(files, order[0], contents(order[0]), events[0]), order[1..], contents,
                          events[1..], path);
      }
    }
  }

  /** No output is the temporary file of another. */
  predicate Apart(order: seq<string>) {
    forall i, j :: 0 <= i < |order| && 0 <= j < |order| ==> order[i] != Temporary(order[j])
  }

  /** The output holds what it held before, or the whole of its new content. */
  predicate WholeOldOrNew(files: Files, order: seq<string>, contents: string -> string, events: seq<Event>,
                          path: string)
    requires |order| == |events|
  {
    var after := Lookup(Write(files, order, contents, events).files, path);
    after == Lookup(files, path) || after == Some(contents(path))
  }

  lemma {:induction false} OldOrNew(files: Files, order: seq<string>, contents: string -> string, events: seq<Event>,
                                    path: string)
    requires |order| == |events| && path in order && forall i :: 0 <= i < |order| ==> path != Temporary(order[i])
    ensures WholeOldOrNew(files, order, contents, events, path)
    decreases order
  {
    if order != [] && !IsProtected(order[0]) {
      var after := AfterEvent(files, order[0], contents(order[0]), events[0]);
      EventTouches(files, order[0], contents(order[0]), events[0], path);
      if events[0] == Completes {
        RestOfOrder(order);
        if path in order[1..] {
          OldOrNew(after, order[1..], contents, events[1..], path);
        } else {
          OnlyOutputsChange(after, order[1..], contents, events[1..], path);
        }
      }
    }
  }

  /** Every file up to a position completes, and the process dies before the next is opened. */
  function DiesAt(n: nat, at: nat): seq<Event>
    requires at < n
  {
    seq(n, i => if i < at then Completes else Interrupted(BeforeOpen, Death))
  }

  predicate AllUnprotected(order: seq<string>) { forall i :: 0 <= i < |order| ==> !IsProtected(order[i]) }

  lemma DiesLater(n: nat, at: nat)
    requires 1 < at < n
    ensures DiesAt(n, at)[0] == Completes && DiesAt(n, at)[1..] == DiesAt(n - 1, at - 1)
  {
  }

  /** A process that dies before the first file has written nothing. */
  lemma {:induction false} DiedAtOnce(files: Files, order: seq<string>, contents: string -> string, events: seq<Event>)
    requires |order| == |events| && order != [] && events[0] == Interrupted(BeforeOpen, Death)
    ensures Write(files, order, contents, events).files == files
  {
  }

  /** Replacing a file takes its temporary file away, and it stays away while nothing else writes it. */
  lemma {:induction false} TemporaryGone(files: Files, order: seq<string>, contents: string -> string, at: nat,
                                         path: string)
    requires 0 < at < |order| && AllUnprotected(order) && path == Temporary(order[at - 1])
    ensures path !in Write(files, order, contents, DiesAt(|order|, at)).files
    decreases order
  {
    var after := AfterEvent(files, order[0], contents(order[0]), Completes);
    var events := DiesAt(|order|, at);
    RestOfOrder(order);
    if at == 1 {
      assert path != order[0];
      DiedAtOnce(after, order[1..], contents, events[1..]);
    } else {
      DiesLater(|order|, at);
      TemporaryGone(after, order[1..], contents, at - 1, path);
    }
  }

  lemma {:induction false} LexStrict(path: string)
    ensures !LexLe(Temporary(path), path)
  {
    if path != "" {
      assert Temporary(path)[1..] == Temporary(path[1..]);
      LexStrict(path[1..]);
    }
  }

  lemma {:induction false} LexTransitive(a: string, b: string, c: string)
    requires LexLe(a, b) && LexLe(b, c)
    ensures LexLe(a, c)
  {
    if a != "" && a[0] == b[0] == c[0] {
      LexTransitive(a[1..], b[1..], c[1..]);
    }
  }

  lemma {:induction false} OrderedPairs(order: seq<string>, i: nat, j: nat)
    requires Ordered(order) && i < j < |order|
    ensures LexLe(order[i], order[j])
    decreases j - i
  {
    assert LexLe(order[i], order[i + 1]);
    if i + 1 < j {
      OrderedPairs(order, i + 1, j);
      LexTransitive(order[i], order[i + 1], order[j]);
    }
  }

  /** In sorted order a file comes before any output that bears its temporary name. */
  lemma TemporaryComesLater(order: seq<string>, i: nat, j: nat)
    requires Ordered(order) && i < |order| && j < |order| && order[j] == Temporary(order[i])
    ensures i < j
  {
    LexStrict(order[i]);
    if j < i {
      OrderedPairs(order, j, i);
    }
  }

  /** Outputs are whole, whatever was on disk and wherever the run ended. */
  ghost predicate AlwaysWhole(order: seq<string>, contents: string -> string) {
    forall files: Files, events: seq<Event>, path ::
      |events| == |order| && path in order ==> WholeOldOrNew(files, order, contents, events, path)
  }

  lemma ApartIsAlwaysWhole(order: seq<string>, contents: string -> string)
    requires Apart(order)
    ensures AlwaysWhole(order, contents)
  {
    forall files: Files, events: seq<Event>, path | |events| == |order| && path in order
      ensures WholeOldOrNew(files, order, contents, events, path) {
      OldOrNew(files, order, contents, events, path);
    }
  }

  /**
   Outputs are whole at every point of every run, whatever was on disk, exactly when no output is the
   temporary file of another.
   */
  lemma WholeExactlyWhenApart(order: seq<string>, contents: string -> string)
    requires Ordered(order) && AllUnprotected(order)
    ensures Apart(order) <==> AlwaysWhole(order, contents)
  {
    if Apart(order) {
      ApartIsAlwaysWhole(order, contents);
    } else {
      var j, i :| 0 <= i < |order| && 0 <= j < |order| && order[j] == Temporary(order[i]);
      NotWholeInBetween(order, contents, i, j);
      assert |DiesAt(|order|, i + 1)| == |order| && order[j] in order;
    }
  }

  lemma NotWholeInBetween(order: seq<string>, contents: string -> string, i: nat, j: nat)
    requires Ordered(order) && AllUnprotected(order) && i < |order| && j < |order| && order[j] == Temporary(order[i])
    ensures i + 1 < |order| && !WholeOldOrNew(map[order[j] := ""], order, contents, DiesAt(|order|, i + 1), order[j])
  {
    TemporaryComesLater(order, i, j);
    TemporaryGone(map[order[j] := ""], order, contents, i + 1, order[j]);
  }

  // ---- the outputs the generator plans

  const FIXED_DOCUMENTS := ["README.md", "TRACEABILITY.md", "COVERAGE.md", "platform/knowledge-memory.md",
                            "platform/entities.md",
                            "fixtures/README.md", "fixtures/live/README.md"]

  /** How an accepted suite ends; the pattern's `$` lets one final line feed pass. */
  predicate IsSuite(path: string) { EndsWith(path, ".md") || EndsWith(path, ".md\n") }

  predicate IsFixture(path: string) { EndsWith(path, ".json") }

  function ScenarioFile(id: string): string { "fixtures/scenarios/" + id + ".json" }

  /** A path the generator plans to write for its suites, fixtures and cases. */
  predicate Planned(path: string, suites: set<string>, fixtures: set<string>, ids: set<string>) {
    || path in suites || path in FIXED_DOCUMENTS || path in fixtures || path == "fixtures/live/env.example"
    || (exists id :: id in ids && path == ScenarioFile(id)) || path == "manifest.json"
  }

  predicate LastIs(path: string, last: char) { path != "" && path[|path| - 1] == last }

  lemma EndsWithLast(path: string, suffix: string)
    requires EndsWith(path, suffix) && suffix != ""
    ensures LastIs(path, suffix[|suffix| - 1])
  {
    assert path[|path| - |suffix|..][|suffix| - 1] == path[|path| - 1];
  }

  lemma FixedDocumentsEnd(path: string)
    requires path in FIXED_DOCUMENTS
    ensures LastIs(path, 'd')
  {
  }

  /** No planned path ends like a temporary file. */
  lemma PlannedIsNoTemporary(path: string, other: string, suites: set<string>, fixtures: set<string>, ids: set<string>)
    requires (forall s :: s in suites ==> IsSuite(s)) && (forall f :: f in fixtures ==> IsFixture(f))
    requires Planned(path, suites, fixtures, ids)
    ensures path != Temporary(other)
  {
    assert LastIs(Temporary(other), 'p');
    if path in suites {
      EndsWithLast(path, if EndsWith(path, ".md") then ".md" else ".md\n");
    } else if path in FIXED_DOCUMENTS {
      FixedDocumentsEnd(path);
    } else if path in fixtures {
      EndsWithLast(path, ".json");
    } else if path == "fixtures/live/env.example" {
      assert LastIs(path, 'e');
    } else if path == "manifest.json" {
      assert LastIs(path, 'n');
    } else {
      var id :| id in ids && path == ScenarioFile(id);
      assert LastIs(ScenarioFile(id), 'n');
    }
  }

  /** So whatever the generator plans is whole, old or new, at every point of every run on every disk. */
  lemma PlannedOutputsAreAlwaysWhole(order: seq<string>, contents: string -> string, suites: set<string>,
                                     fixtures: set<string>, ids: set<string>)
    requires (forall s :: s in suites ==> IsSuite(s)) && (forall f :: f in fixtures ==> IsFixture(f))
    requires forall i :: 0 <= i < |order| ==> Planned(order[i], suites, fixtures, ids)
    ensures Apart(order) && AlwaysWhole(order, contents)
  {
    forall i, j | 0 <= i < |order| && 0 <= j < |order| ensures order[i] != Temporary(order[j]) {
      PlannedIsNoTemporary(order[i], order[j], suites, fixtures, ids);
    }
    ApartIsAlwaysWhole(order, contents);
  }

  // ---- protected paths stay untouched

  lemma {:induction false} SplitOfConcat(a: string, b: string)
    requires '/' !in b
    ensures Split(a + b) == Split(a)[|Split(a)| - 1 := Split(a)[|Split(a)| - 1] + b]
  {
    if b == "" {
      assert a + b == a;
      assert Split(a)[|Split(a)| - 1] + "" == Split(a)[|Split(a)| - 1];
    } else {
      var front, c := b[..|b| - 1], b[|b| - 1];
      assert (a + b)[..|a + b| - 1] == a + front;
      SplitOfConcat(a, front);
      assert (Split(a)[|Split(a)| - 1] + front) + [c] == Split(a)[|Split(a)| - 1] + b;
    }
  }

  /** A normalised path: its last part is a name. */
  predicate HasName(path: string) { Split(path)[|Split(path)| - 1] !in ["", ".", ".."] }

  lemma TemporaryNameIsPlain(name: string)
    ensures !ProtectedName(Lower(Temporary(name)))
  {
    var lowered := Lower(Temporary(name));
    var n := |lowered|;
    assert lowered[n - 1] == 'p' && lowered[n - 2] == 'm' && lowered[n - 3] == 't' && lowered[n - 4] == '.';
    forall suffix | suffix in [".local", ".secret", ".key", ".pem", ".env"] ensures !EndsWith(lowered, suffix) {
      NotASuffix(lowered, suffix);
    }
  }

  lemma MeaningfulParts(path: string)
    requires HasName(path)
    ensures var parts := Split(path);
            && Meaningful(parts) == Meaningful(parts[..|parts| - 1]) + [parts[|parts| - 1]]
  {
  }

  /** The temporary file of an unprotected output is unprotected too. */
  lemma TemporaryIsUnprotected(path: string)
    requires HasName(path) && !IsProtected(path)
    ensures !IsProtected(Temporary(path))
  {
    var parts := Split(path);
    var name := parts[|parts| - 1];
    SplitOfConcat(path, ".tmp");
    var front := Meaningful(parts[..|parts| - 1]);
    assert Split(Temporary(path))[..|parts| - 1] == parts[..|parts| - 1];
    MeaningfulParts(path);
    assert Meaningful(Split(Temporary(path))) == front + [Temporary(name)];
    assert forall i :: 0 <= i < |front| ==> (front + [name])[i] == (front + [Temporary(name)])[i];
    TemporaryNameIsPlain(name);
    assert |Temporary(name)| > 2;
    assert forall part :: part in front ==> part in front + [name];
  }

  /** No run, however it ends, changes a protected path. */
  lemma {:induction false} ProtectedPathsAreUntouched(files: Files, order: seq<string>, contents: string -> string,
                                                      events: seq<Event>, path: string)
    requires |order| == |events| && IsProtected(path) && forall i :: 0 <= i < |order| ==> HasName(order[i])
    ensures Lookup(Write(files, order, contents, events).files, path) == Lookup(files, path)
    decreases order
  {
    if order != [] && !IsProtected(order[0]) {
      UnprotectedEvent(files, order[0], contents(order[0]), events[0], path);
      if events[0] == Completes {
        RestOfOrder(order);
        ProtectedPathsAreUntouched(AfterEvent(files, order[0], contents(order[0]), events[0]), order[1..], contents,
                                   events[1..], path);
      }
    }
  }

  lemma UnprotectedEvent(files: Files, path: string, content: string, event: Event, other: string)
    requires HasName(path) && !IsProtected(path) && IsProtected(other)
    ensures Lookup(AfterEvent(files, path, content, event), other) == Lookup(files, other)
  {
    TemporaryIsUnprotected(path);
    assert other != path && other != Temporary(path);
    EventTouches(files, path, content, event, other);
  }

  /** Paths the planning step accepts are never refused by the writing step. */
  lemma {:induction false} AcceptedPathsAreNeverRefused(files: Files, paths: seq<string>, owned: set<string>,
                                                        contents: string -> string, events: seq<Event>)
    requires (forall i :: 0 <= i < |paths| ==> Writable(paths[i], owned)) && |events| == |Sort(paths)|
    ensures AllUnprotected(Sort(paths)) && Write(files, Sort(paths), contents, events).ending != RefusedProtected
  {
    forall i | 0 <= i < |Sort(paths)| ensures !IsProtected(Sort(paths)[i]) {
      SortMember(paths, Sort(paths)[i]);
    }
    UnprotectedAreNotRefused(files, Sort(paths), contents, events);
  }

  lemma {:induction false} UnprotectedAreNotRefused(files: Files, order: seq<string>, contents: string -> string,
                                                    events: seq<Event>)
    requires |order| == |events| && AllUnprotected(order)
    ensures Write(files, order, contents, events).ending != RefusedProtected
    decreases order
  {
    if order != [] && events[0] == Completes {
      RestOfOrder(order);
      UnprotectedAreNotRefused(AfterEvent(files, order[0], contents(order[0]), events[0]), order[1..], contents,
                               events[1..]);
    }
  }

  // ---- write, then check

  function AllComplete(n: nat): seq<Event> { seq(n, _ => Completes) }

  lemma CompleteTail(order: seq<string>)
    requires order != []
    ensures AllComplete(|order|)[1..] == AllComplete(|order[1..]|)
  {
  }

  lemma {:induction false} AllAreWritten(files: Files, order: seq<string>, contents: string -> string)
    requires AllUnprotected(order)
    ensures var done := Write(files, order, contents, AllComplete(|order|));
           done.ending == AllWritten && done.written == order
    decreases order
  {
    if order != [] {
      CompleteTail(order);
      RestOfOrder(order);
      AllAreWritten(AfterEvent(files, order[0], contents(order[0]), Completes), order[1..], contents);
      assert order == [order[0]] + order[1..];
    }
  }

  /** When every file completes, each output holds its content: later temporary names never hit an earlier output. */
  lemma {:induction false} CompletedFilesHold(files: Files, order: seq<string>, contents: string -> string,
                                              path: string)
    requires Ordered(order) && NoRepeats(order) && AllUnprotected(order) && path in order
    ensures Lookup(Write(files, order, contents, AllComplete(|order|)).files, path) == Some(contents(path))
    decreases order
  {
    var after := AfterEvent(files, order[0], contents(order[0]), Completes);
    CompleteTail(order);
    RestOfOrder(order);
    if path == order[0] {
      FirstIsNotWrittenAgain(order);
      EventTouches(files, path, contents(path), Completes, path);
      OnlyOutputsChange(after, order[1..], contents, AllComplete(|order[1..]|), path);
    } else {
      CompletedFilesHold(after, order[1..], contents, path);
    }
  }

  lemma FirstIsNotWrittenAgain(order: seq<string>)
    requires Ordered(order) && NoRepeats(order) && order != []
    ensures order[0] !in order[1..]
    ensures forall i :: 0 <= i < |order[1..]| ==> order[0] != Temporary(order[1..][i])
    ensures order[0] != Temporary(order[0])
  {
    RestOfOrder(order);
    forall i | 0 <= i < |order[1..]| ensures order[0] != Temporary(order[1..][i]) {
      if order[0] == Temporary(order[i + 1]) {
        TemporaryComesLater(order, i + 1, 0);
      }
    }
  }

  /** Reading as text turns every carriage return, with a line feed behind it or not, into a line feed. */
  function ReadText(raw: string): string {
    if raw == "" then ""
    else if raw[0] == '\r' then "\n" + ReadText(if |raw| > 1 && raw[1] == '\n' then raw[2..] else raw[1..])
    else [raw[0]] + ReadText(raw[1..])
  }

  lemma {:induction false} ReadTextExactly(raw: string)
    ensures '\r' !in ReadText(raw) && (ReadText(raw) == raw <==> '\r' !in raw)
  {
    if raw != "" {
      if raw[0] == '\r' {
        ReadTextExactly(if |raw| > 1 && raw[1] == '\n' then raw[2..] else raw[1..]);
      } else {
        ReadTextExactly(raw[1..]);
        assert raw == [raw[0]] + raw[1..];
      }
    }
  }

  /** Whether a path is a file directly in a directory. */
  predicate DirectlyIn(path: string, directory: string) {
    directory <= path && '/' !in path[|directory|..]
  }

  predicate InFixtureDirectory(path: string) {
    DirectlyIn(path, "fixtures/offline/") || DirectlyIn(path, "fixtures/scenarios/")
      || DirectlyIn(path, "fixtures/live/")
  }

  predicate IsTopLevel(path: string) { '/' !in path }

  /** The generated-looking files among those on disk. */
  predicate LooksGenerated(path: string) {
    || (EndsWith(path, ".json") && InFixtureDirectory(path))
    || (EndsWith(path, ".md") && (DirectlyIn(path, "platform/") || IsTopLevel(path)))
    || (EndsWith(path, ".tmp") && IsTopLevel(path))
  }

  /** A document anywhere below one of the layer directories. */
  predicate IsLayerDocument(path: string) {
    EndsWith(path, ".md") && ("unit/" <= path || "integration/" <= path || "e2e/" <= path || "governance/" <= path)
  }

  /** Generated-looking files that this run does not produce. */
  function StaleExtras(files: Files, paths: seq<string>): set<string> {
    set path | path in files && path !in paths
      && (IsLayerDocument(path) || (LooksGenerated(path) && !IsProtected(path)))
  }

  predicate Matches(files: Files, contents: string -> string, path: string) {
    path in files && ReadText(files[path]) == contents(path)
  }

  /** Zero when every output is on disk as it reads and nothing is stale, three otherwise. */
  function CheckStatus(files: Files, paths: seq<string>, contents: string -> string): nat {
    if (forall path :: path in paths ==> Matches(files, contents, path)) && StaleExtras(files, paths) == {} then 0
    else 3
  }

  /** The outputs that are on disk as they should read. */
  function Matching(files: Files, paths: set<string>, contents: string -> string): set<string> {
    set path | path in paths && Matches(files, contents, path)
  }

  /** One more output is looked at. */
  lemma MatchingStep(files: Files, contents: string -> string, order: seq<string>, i: nat)
    requires i < |order| && NoRepeats(order)
    ensures var before, after := Matching(files, Elements(order[..i]), contents),
            Matching(files, Elements(order[..i + 1]), contents);
            |after| == |before| + if Matches(files, contents, order[i]) then 1 else 0
    ensures |Elements(order[..i + 1])| == |Elements(order[..i])| + 1
  {
    var before, after := Matching(files, Elements(order[..i]), contents),
        Matching(files, Elements(order[..i + 1]), contents);
    assert order[..i + 1] == order[..i] + [order[i]];
    assert order[i] !in order[..i];
    assert Elements(order[..i + 1]) == Elements(order[..i]) + {order[i]};
    assert after == before + if Matches(files, contents, order[i]) then {order[i]} else {};
  }

  lemma AllMatching(files: Files, paths: set<string>, contents: string -> string)
    ensures |Matching(files, paths, contents)| <= |paths|
    ensures |Matching(files, paths, contents)| == |paths|
            <==> forall path :: path in paths ==> Matches(files, contents, path)
  {
    var matching := Matching(files, paths, contents);
    assert paths == matching + (paths - matching);
    assert |paths| == |matching| + |paths - matching|;
    if |matching| == |paths| {
      assert paths - matching == {};
    } else {
      assert paths - matching != {};
    }
  }

  method CheckOutputs(disk: Disk, paths: seq<string>, contents: string -> string) returns (status: nat, matched: nat)
    requires NoRepeats(paths)
    ensures status == CheckStatus(disk.files, paths, contents)
    ensures status == 0 || status == 3
    ensures status == 0 <==>
            && (forall path :: path in paths ==> path in disk.files && ReadText(disk.files[path]) == contents(path))
            && (forall path :: path !in StaleExtras(disk.files, paths))
    ensures matched == |Matching(disk.files, Elements(paths), contents)| <= |paths|
    ensures matched == |paths| <==> forall path :: path in paths ==> Matches(disk.files, contents, path)
  {
    var order := Sort(paths);
    SortKeepsNoRepeats(paths);
    var drift := 0;
    matched := 0;
    for i := 0 to |order|
      invariant matched == |Matching(disk.files, Elements(order[..i]), contents)|
      invariant matched + drift == |Elements(order[..i])|
    {
      MatchingStep(disk.files, contents, order, i);
      if order[i] !in disk.files {
        drift := drift + 1;
      } else if ReadText(disk.files[order[i]]) != contents(order[i]) {
        drift := drift + 1;
      } else {
        matched := matched + 1;
      }
    }
    SortedElements(paths);
    AllMatching(disk.files, Elements(paths), contents);
    NoRepeatsSize(paths);
    drift := drift + |StaleExtras(disk.files, paths)|;
    status := if drift > 0 then 3 else 0;
  }

  lemma {:induction false} SortedElements(paths: seq<string>)
    ensures Elements(Sort(paths)[..|Sort(paths)|]) == Elements(paths)
  {
    assert Sort(paths)[..|Sort(paths)|] == Sort(paths);
    forall path ensures path in Sort(paths) <==> path in paths {
      SortMember(paths, path);
    }
  }

  /**
   A completed write followed by the check finds every output
   matching exactly when no content has a carriage return.
   */
  lemma {:induction false} WrittenMatchesExactly(files: Files, paths: seq<string>, contents: string -> string)
    requires NoRepeats(paths) && AllUnprotected(Sort(paths))
    ensures var after := Write(files, Sort(paths), contents, AllComplete(|Sort(paths)|)).files;
            (forall path :: path in paths ==> Matches(after, contents, path))
              <==> (forall path :: path in paths ==> '\r' !in contents(path))
  {
    var order := Sort(paths);
    SortSorts(paths);
    SortKeepsNoRepeats(paths);
    var after := Write(files, order, contents, AllComplete(|order|)).files;
    forall path | path in paths ensures Matches(after, contents, path) <==> '\r' !in contents(path) {
      SortMember(paths, path);
      CompletedFilesHold(files, order, contents, path);
      ReadTextExactly(contents(path));
    }
  }

  /**
   So the check right after a completed write passes exactly when
   no content has a carriage return and nothing is stale.
   */
  lemma {:induction false} CheckPassesAfterWritingExactly(files: Files, paths: seq<string>, contents: string -> string)
    requires NoRepeats(paths) && AllUnprotected(Sort(paths))
    ensures var after := Write(files, Sort(paths), contents, AllComplete(|Sort(paths)|)).files;
            CheckStatus(after, paths, contents) == 0 <==>
              (forall path :: path in paths ==> '\r' !in contents(path)) && StaleExtras(after, paths) == {}
  {
    WrittenMatchesExactly(files, paths, contents);
  }

  /** A temporary file left by an interrupted run is reported exactly when it lies at the top level. */
  lemma LeftoverReportedExactly(files: Files, paths: seq<string>, path: string)
    requires HasName(path) && !IsProtected(path) && Temporary(path) in files && Temporary(path) !in paths
    ensures Temporary(path) in StaleExtras(files, paths) <==> '/' !in path
  {
    TemporaryIsUnprotected(path);
    TemporaryLooks(path);
  }

  lemma TemporaryLooks(path: string)
    ensures !IsLayerDocument(Temporary(path)) && (LooksGenerated(Temporary(path)) <==> '/' !in path)
  {
    var left := Temporary(path);
    assert left[|left| - 1] == 'p';
    NotASuffix(left, ".json");
    NotASuffix(left, ".md");
    assert left[|left| - 4..] == ".tmp";
    assert '/' in left <==> '/' in path;
  }

  lemma NotASuffix(s: string, suffix: string)
    requires s != "" && suffix != "" && s[|s| - 1] != suffix[|suffix| - 1]
    ensures !EndsWith(s, suffix)
  {
    assert |suffix| <= |s| ==> s[|s| - |suffix|..][|suffix| - 1] == s[|s| - 1];
  }
}
