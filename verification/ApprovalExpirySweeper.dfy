/**
 The approval expiry sweeper: a timer, explicit runs and stops share at most one sweep over the tenants.
 A sweep awaits the repository once per tenant; everything between two awaits is one step.
 */
module ApprovalExpiry {
  import opened Options
  import opened Texts

  // ---- configuration

  /** A raw setting is a comma-separated text or a list. */
  datatype Setting = Raw(text: string) | Listed(ids: seq<string>)

  function ParseList(text: string, trim: string -> string): seq<string> {
    var parts := SplitAt(text, ',');
    Select(seq(|parts|, i requires 0 <= i < |parts| => trim(parts[i])), id => id != "")
  }

  function Candidates(setting: Option<Setting>, environment: Option<string>, trim: string -> string): seq<string> {
    match setting
    case Some(Listed(ids)) => ids
    case Some(Raw(text)) => ParseList(text, trim)
    case None => if environment.Some? then ParseList(environment.value, trim) else []
  }

  function ResolveTenantIds(setting: Option<Setting>, environment: Option<string>,
                            trim: string -> string): seq<string> {
    Distinct(Candidates(setting, environment, trim))
  }

  /** A text between two commas, or between a comma and an end. */
  predicate IsListed(text: string, front: string, part: string, rest: string) {
    && text == front + part + rest && ',' !in part
    && (front == "" || front[|front| - 1] == ',') && (rest == "" || rest[0] == ',')
  }

  /** Such a text trims to the identifier. */
  ghost predicate Lists(text: string, id: string, trim: string -> string) {
    exists front, part, rest :: IsListed(text, front, part, rest) && trim(part) == id
  }

  /**
   The sweeper's tenants: those of the list it is given; otherwise those a setting, or without one the environment,
   names between commas, blanks left out.
   */
  lemma {:induction false} TenantsExactly(setting: Option<Setting>, environment: Option<string>,
                                          trim: string -> string, id: string)
    ensures id in ResolveTenantIds(setting, environment, trim) <==>
            if setting.Some? && setting.value.Listed? then id in setting.value.ids
            else
              var text := if setting.Some? then Some(setting.value.text) else environment;
              text.Some? && id != "" && Lists(text.value, id, trim)
    ensures NoRepeats(ResolveTenantIds(setting, environment, trim))
  {
    DistinctKeeps(Candidates(setting, environment, trim));
    if setting.Some? && setting.value.Raw? {
      ParsedExactly(setting.value.text, id, trim);
    }
    if setting.None? && environment.Some? {
      ParsedExactly(environment.value, id, trim);
    }
  }

  lemma {:induction false} ParsedExactly(text: string, id: string, trim: string -> string)
    ensures id in ParseList(text, trim) <==> id != "" && Lists(text, id, trim)
  {
    var parts := SplitAt(text, ',');
    var trimmed := seq(|parts|, i requires 0 <= i < |parts| => trim(parts[i]));
    Selected(trimmed, id => id != "");
    if id in trimmed {
      var i :| 0 <= i < |trimmed| && trimmed[i] == id;
      JoinOfSplit(text, ',');
      var front, rest := JoinedAround(parts, i);
      assert IsListed(text, front, parts[i], rest);
    }
    if Lists(text, id, trim) {
      var front, part, rest :| IsListed(text, front, part, rest) && trim(part) == id;
      ListedIsPart(front, part, rest);
      var i :| 0 <= i < |parts| && parts[i] == part;
      assert trimmed[i] == id;
    }
  }

  lemma {:induction false} ListedIsPart(front: string, part: string, rest: string)
    requires ',' !in part && (front == "" || front[|front| - 1] == ',') && (rest == "" || rest[0] == ',')
    ensures part in SplitAt(front + part + rest, ',')
  {
    SplitWhole(part, ',');
    if front == "" {
      assert front + part + rest == part + rest;
      StartIsPart(part, rest);
    } else {
      var before := front[..|front| - 1];
      assert front + part + rest == before + [','] + (part + rest);
      SplitBehind(before, ',', part + rest);
      StartIsPart(part, rest);
    }
  }

  lemma {:induction false} StartIsPart(part: string, rest: string)
    requires ',' !in part && (rest == "" || rest[0] == ',')
    ensures part in SplitAt(part + rest, ',')
  {
    SplitWhole(part, ',');
    if rest == "" {
      assert part + rest == part;
    } else {
      assert part + rest == part + [','] + rest[1..];
      SplitBehind(part, ',', rest[1..]);
      assert part in [part] + SplitAt(rest[1..], ',');
    }
  }

  /** What lies before and behind one part of a joined text. */
  lemma {:induction false} JoinedAround(parts: seq<string>, i: nat) returns (front: string, rest: string)
    requires i < |parts|
    ensures JoinBy(parts, ',') == front + parts[i] + rest
    ensures (front == "" || front[|front| - 1] == ',') && (rest == "" || rest[0] == ',')
  {
    if i > 0 {
      front, rest := JoinedAround(parts[1..], i - 1);
      assert parts[0] + [','] + (front + parts[i] + rest) == (parts[0] + [','] + front) + parts[i] + rest;
      front := parts[0] + [','] + front;
    } else {
      front := "";
      rest := if |parts| == 1 then "" else [','] + JoinBy(parts[1..], ',');
      assert |parts| > 1 ==> parts[0] + [','] + JoinBy(parts[1..], ',') == "" + parts[0] + rest;
    }
  }

  /** What is distinct in a prefix is a prefix of what is distinct: tenants keep the order of their first occurrence. */
  lemma {:induction false} DistinctKeepsFirstOccurrences(s: seq<string>, k: nat)
    requires k <= |s|
    ensures Distinct(s[..k]) <= Distinct(s)
  {
    if k == |s| {
      assert s[..k] == s;
    } else {
      DistinctKeepsFirstOccurrences(s[..|s| - 1], k);
      assert s[..|s| - 1][..k] == s[..k];
    }
  }

  // ---- the state machine

  /** One sweep: how many tenants have settled, and whether its promise has. */
  datatype Sweep = Sweep(settled: nat, finished: bool)

  /** One call of `stop`: the sweep it awaits, if any, and whether it has resolved. */
  datatype Stop = Stop(awaited: Option<nat>, resolved: bool)

  datatype Call = Call(sweep: nat, tenant: string)

  datatype State = State(timer: bool, activeRun: Option<nat>, isStopping: bool, sweeps: seq<Sweep>, calls: seq<Call>,
                         stops: seq<Stop>)

  /** How one tenant's repository call ends; a rejected one is handed to `onError`, which may throw as well. */
  datatype Result = Fulfilled | Rejected(onErrorThrows: bool)

  datatype Event =
    | RunOnce | Tick | Start | StopCalled
    | TenantSettles(sweep: nat, result: Result)
    | RunCleared(sweep: nat)
    | StopResumes(stop: nat)

  function Begin(tenants: seq<string>, s: State): State {
    if s.activeRun.Some? then s
    else
      var n := |s.sweeps|;
      s.(activeRun := Some(n),
         sweeps := s.sweeps + [Sweep(0, tenants == [])],
         calls := if tenants == [] then s.calls else s.calls + [Call(n, tenants[0])])
  }

  /** Whatever the result, the next tenant follows; after the last one the sweep's promise fulfils. */
  function Settle(tenants: seq<string>, s: State, n: nat): State
    requires n < |s.sweeps|
  {
    var next := s.sweeps[n].settled + 1;
    s.(sweeps := s.sweeps[n := Sweep(next, next >= |tenants|)],
       calls := if next < |tenants| then s.calls + [Call(n, tenants[next])] else s.calls)
  }

  predicate Finished(s: State, n: nat) { n < |s.sweeps| && s.sweeps[n].finished }

  /** One step; a step that is not due changes nothing. */
  function Next(tenants: seq<string>, s: State, e: Event): State {
    match e
    case RunOnce => Begin(tenants, s)
    case Tick => if s.timer then Begin(tenants, s) else s
    case Start => if s.timer || s.isStopping then s else s.(timer := true)
    case StopCalled =>
      if s.activeRun.Some? then s.(timer := false, isStopping := true, stops := s.stops + [Stop(s.activeRun, false)])
      else s.(timer := false, isStopping := false, stops := s.stops + [Stop(None, true)])
    case TenantSettles(n, result) => if n < |s.sweeps| && !s.sweeps[n].finished then Settle(tenants, s, n) else s
    case RunCleared(n) => if Finished(s, n) && s.activeRun == Some(n) then s.(activeRun := None) else s
    case StopResumes(i) =>
      if i < |s.stops| && !s.stops[i].resolved && s.stops[i].awaited.Some? && Finished(s, s.stops[i].awaited.value)
      then s.(isStopping := false, stops := s.stops[i := s.stops[i].(resolved := true)]) else s
  }

  function Run(tenants: seq<string>, s: State, events: seq<Event>): State
    decreases events
  {
    if events == [] then s else Run(tenants, Next(tenants, s, events[0]), events[1..])
  }

  const INITIAL := State(false, None, false, [], [], [])

  // ---- the sweeper

  /** The factory's closure: its variables, the suspended sweeps and stops, and the repository's log. */
  class ApprovalExpirySweeper {
    const tenantIds: seq<string>
    var timer: bool
    var activeRun: Option<nat>
    var isStopping: bool
    var sweeps: seq<Sweep>
    var stops: seq<Stop>
    var calls: seq<Call>

    ghost function Current(): State
      reads this
    {
      State(timer, activeRun, isStopping, sweeps, calls, stops)
    }

    constructor (setting: Option<Setting>, environment: Option<string>, trim: string -> string, autoStart: bool)
      ensures tenantIds == ResolveTenantIds(setting, environment, trim)
      ensures Current() == if autoStart then Next(tenantIds, INITIAL, Event.Start) else INITIAL
    {
      tenantIds := ResolveTenantIds(setting, environment, trim);
      timer, activeRun, isStopping := autoStart, None, false;
      sweeps, stops, calls := [], [], [];
    }

    /** Calls the repository for one tenant, up to the await. */
    method CallRepository(run: nat, tenant: string)
      modifies `calls
      ensures calls == old(calls) + [Call(run, tenant)]
    {
      calls := calls + [Call(run, tenant)];
    }

    method RunOnce() returns (run: nat)
      modifies this
      ensures Current() == Next(tenantIds, old(Current()), Event.RunOnce)
      ensures activeRun == Some(run) && (old(activeRun).Some? ==> run == old(activeRun).value)
    {
      if activeRun.Some? {
        return activeRun.value;
      }
      run := |sweeps|;
      sweeps := sweeps + [Sweep(0, |tenantIds| == 0)];
      if |tenantIds| > 0 {
        CallRepository(run, tenantIds[0]);
      }
      activeRun := Some(run);
    }

    method OnTick()
      modifies this
      ensures Current() == Next(tenantIds, old(Current()), Tick)
      ensures old(timer) && old(activeRun).None? ==>
                && activeRun == Some(|old(sweeps)|) && |sweeps| == |old(sweeps)| + 1
                && (tenantIds != [] ==> calls == old(calls) + [Call(|old(sweeps)|, tenantIds[0])])
      ensures !old(timer) || old(activeRun).Some? ==> Current() == old(Current())
    {
      if timer {
        var _ := RunOnce();
      }
    }

    /** A tenant's await returns: a failure goes to `onError`, whose own failure is dropped, and the loop goes on. */
    method ResumeSweep(run: nat, result: Result) returns (reported: bool)
      requires run < |sweeps| && !sweeps[run].finished
      modifies this
      ensures Current() == Next(tenantIds, old(Current()), TenantSettles(run, result))
      ensures reported == result.Rejected?
    {
      reported := false;
      if result.Rejected? {
        reported := true;
      }
      var next := sweeps[run].settled + 1;
      sweeps := sweeps[run := Sweep(next, next >= |tenantIds|)];
      if next < |tenantIds| {
        CallRepository(run, tenantIds[next]);
      }
    }

    method ClearRun(run: nat)
      requires run < |sweeps| && sweeps[run].finished
      modifies `activeRun
      ensures Current() == Next(tenantIds, old(Current()), RunCleared(run))
    {
      if activeRun == Some(run) {
        activeRun := None;
      }
    }

    method Start()
      modifies `timer
      ensures Current() == Next(tenantIds, old(Current()), Event.Start)
    {
      if timer || isStopping {
        return;
      }
      timer := true;
    }

    /** Up to its await, or to its end when no sweep is active. */
    method StopSweeper() returns (stop: nat)
      modifies this
      ensures Current() == Next(tenantIds, old(Current()), StopCalled)
      ensures stop < |stops| && stops[stop] == Stop(old(activeRun), old(activeRun).None?)
    {
      isStopping := true;
      if timer {
        timer := false;
      }
      stop := |stops|;
      if activeRun.Some? {
        stops := stops + [Stop(activeRun, false)];
        return;
      }
      stops := stops + [Stop(None, true)];
      isStopping := false;
    }

    method ResumeStop(stop: nat)
      requires stop < |stops| && !stops[stop].resolved && stops[stop].awaited.Some?
      requires stops[stop].awaited.value < |sweeps| && sweeps[stops[stop].awaited.value].finished
      modifies this
      ensures Current() == Next(tenantIds, old(Current()), StopResumes(stop))
    {
      stops := stops[stop := stops[stop].(resolved := true)];
      isStopping := false;
    }
  }

  // ---- invariants

  /** The tenants a sweep has called the repository for, in order. */
  function CallsOf(calls: seq<Call>, n: nat): seq<string> {
    if calls == [] then []
    else
      var last := calls[|calls| - 1];
      CallsOf(calls[..|calls| - 1], n) + if last.sweep == n then [last.tenant] else []
  }

  predicate SweepIsRight(tenants: seq<string>, calls: seq<Call>, n: nat, sweep: Sweep) {
    && sweep.settled <= |tenants|
    && (sweep.finished <==> sweep.settled == |tenants|)
    && CallsOf(calls, n) == if sweep.finished then tenants else tenants[..sweep.settled + 1]
  }

  predicate SweepsAreRight(tenants: seq<string>, sweeps: seq<Sweep>, calls: seq<Call>) {
    && (forall n :: 0 <= n < |sweeps| ==> SweepIsRight(tenants, calls, n, sweeps[n]))
    && (forall c :: 0 <= c < |calls| ==> calls[c].sweep < |sweeps|)
  }

  /** A sweep that has not finished is the active one, and the active one exists. */
  predicate SingleFlight(sweeps: seq<Sweep>, activeRun: Option<nat>) {
    && (forall n :: 0 <= n < |sweeps| && !sweeps[n].finished ==> activeRun == Some(n))
    && (activeRun.Some? ==> activeRun.value < |sweeps|)
  }

  predicate StopsAreRight(sweeps: seq<Sweep>, stops: seq<Stop>) {
    forall i :: 0 <= i < |stops| && stops[i].awaited.Some? ==>
      stops[i].awaited.value < |sweeps| && (stops[i].resolved ==> sweeps[stops[i].awaited.value].finished)
  }

  predicate Inv(tenants: seq<string>, s: State) {
    SweepsAreRight(tenants, s.sweeps, s.calls) && SingleFlight(s.sweeps, s.activeRun)
      && StopsAreRight(s.sweeps, s.stops)
  }

  lemma {:induction false} CallsOfAppend(calls: seq<Call>, call: Call, n: nat)
    ensures call.sweep == n ==> CallsOf(calls + [call], n) == CallsOf(calls, n) + [call.tenant]
    ensures call.sweep != n ==> CallsOf(calls + [call], n) == CallsOf(calls, n)
  {
    assert (calls + [call])[..|calls|] == calls;
  }

  lemma {:induction false} NoCallsYet(calls: seq<Call>, n: nat)
    requires forall c :: 0 <= c < |calls| ==> calls[c].sweep < n
    ensures CallsOf(calls, n) == []
  {
    if calls != [] {
      NoCallsYet(calls[..|calls| - 1], n);
    }
  }

  lemma BeginKeepsSweepsRight(tenants: seq<string>, s: State)
    requires SweepsAreRight(tenants, s.sweeps, s.calls)
    ensures SweepsAreRight(tenants, Begin(tenants, s).sweeps, Begin(tenants, s).calls)
  {
    if s.activeRun.None? {
      var after, n := Begin(tenants, s), |s.sweeps|;
      NoCallsYet(s.calls, n);
      forall k | 0 <= k < |after.sweeps| ensures SweepIsRight(tenants, after.calls, k, after.sweeps[k]) {
        if tenants != [] {
          CallsOfAppend(s.calls, Call(n, tenants[0]), k);
          assert tenants[..1] == [tenants[0]];
        }
        if k < n {
          assert SweepIsRight(tenants, s.calls, k, s.sweeps[k]);
        }
      }
    }
  }

  lemma {:induction false} SettledIsRight(tenants: seq<string>, calls: seq<Call>, after: seq<Call>, n: nat,
                                          sweep: Sweep)
    requires SweepIsRight(tenants, calls, n, sweep) && !sweep.finished
    requires var next := sweep.settled + 1;
             CallsOf(after, n) == CallsOf(calls, n) + if next < |tenants| then [tenants[next]] else []
    ensures var next := sweep.settled + 1; SweepIsRight(tenants, after, n, Sweep(next, next >= |tenants|))
  {
    var next := sweep.settled + 1;
    if next < |tenants| {
      assert tenants[..next + 1] == tenants[..next] + [tenants[next]];
    } else {
      assert tenants[..next] == tenants;
    }
  }

  /** The sweep that settles a tenant, beside any other. */
  lemma SettleKeepsOneRight(tenants: seq<string>, s: State, n: nat, k: nat)
    requires SweepsAreRight(tenants, s.sweeps, s.calls) && n < |s.sweeps| && !s.sweeps[n].finished && k < |s.sweeps|
    ensures var after := Settle(tenants, s, n); SweepIsRight(tenants, after.calls, k, after.sweeps[k])
  {
    var after, next := Settle(tenants, s, n), s.sweeps[n].settled + 1;
    if next < |tenants| {
      CallsOfAppend(s.calls, Call(n, tenants[next]), k);
    }
    if k == n {
      SettledIsRight(tenants, s.calls, after.calls, n, s.sweeps[n]);
    } else {
      assert after.sweeps[k] == s.sweeps[k] && CallsOf(after.calls, k) == CallsOf(s.calls, k);
    }
  }

  lemma SettleKeepsSweepsRight(tenants: seq<string>, s: State, n: nat)
    requires SweepsAreRight(tenants, s.sweeps, s.calls) && n < |s.sweeps| && !s.sweeps[n].finished
    ensures SweepsAreRight(tenants, Settle(tenants, s, n).sweeps, Settle(tenants, s, n).calls)
  {
    var after := Settle(tenants, s, n);
    forall k | 0 <= k < |after.sweeps| ensures SweepIsRight(tenants, after.calls, k, after.sweeps[k]) {
      SettleKeepsOneRight(tenants, s, n, k);
    }
  }

  lemma BeginKeepsFlightAndStops(tenants: seq<string>, s: State)
    requires SingleFlight(s.sweeps, s.activeRun) && StopsAreRight(s.sweeps, s.stops)
    ensures var after := Begin(tenants, s);
           SingleFlight(after.sweeps, after.activeRun) && StopsAreRight(after.sweeps, after.stops)
  {
  }

  lemma SettleKeepsFlightAndStops(tenants: seq<string>, s: State, n: nat)
    requires SingleFlight(s.sweeps, s.activeRun) && StopsAreRight(s.sweeps, s.stops) && n < |s.sweeps|
             && !s.sweeps[n].finished
    ensures var after := Settle(tenants, s, n);
           SingleFlight(after.sweeps, after.activeRun) && StopsAreRight(after.sweeps, after.stops)
  {
  }

  lemma NextKeepsInv(tenants: seq<string>, s: State, e: Event)
    requires Inv(tenants, s)
    ensures Inv(tenants, Next(tenants, s, e))
  {
    match e
    case TenantSettles(n, _) =>
      if n < |s.sweeps| && !s.sweeps[n].finished {
        SettleKeepsSweepsRight(tenants, s, n);
        SettleKeepsFlightAndStops(tenants, s, n);
      }
    case RunOnce => BeginKeepsInv(tenants, s);
    case Tick => BeginKeepsInv(tenants, s);
    case _ => QuietKeepsInv(tenants, s, e);
  }

  lemma BeginKeepsInv(tenants: seq<string>, s: State)
    requires Inv(tenants, s)
    ensures Inv(tenants, Begin(tenants, s))
  {
    BeginKeepsSweepsRight(tenants, s);
    BeginKeepsFlightAndStops(tenants, s);
  }

  /** Steps that neither begin nor advance a sweep. */
  lemma QuietKeepsInv(tenants: seq<string>, s: State, e: Event)
    requires Inv(tenants, s) && (e.Start? || e.StopCalled? || e.RunCleared? || e.StopResumes?)
    ensures Inv(tenants, Next(tenants, s, e))
  {
    assert Next(tenants, s, e).sweeps == s.sweeps && Next(tenants, s, e).calls == s.calls;
  }

  lemma {:induction false} RunKeepsInv(tenants: seq<string>, s: State, events: seq<Event>)
    requires Inv(tenants, s)
    ensures Inv(tenants, Run(tenants, s, events))
    decreases events
  {
    if events != [] {
      NextKeepsInv(tenants, s, events[0]);
      RunKeepsInv(tenants, Next(tenants, s, events[0]), events[1..]);
    }
  }

  // ---- guarantees over whole runs

  /**
   With a timer armed and no sweep under way, a tick begins one: the tenants in order, the first at once. A run that
   is asked for begins one as well, and neither begins a second beside the active one.
   */
  lemma TickBeginsASweep(tenants: seq<string>, s: State, e: Event)
    requires e.RunOnce? || (e.Tick? && s.timer)
    ensures var next := Next(tenants, s, e); var n := |s.sweeps|;
            if s.activeRun.Some? then next == s
            else
              && next.activeRun == Some(n) && next.sweeps == s.sweeps + [Sweep(0, tenants == [])]
              && next.calls == s.calls + (if tenants == [] then [] else [Call(n, tenants[0])])
              && next.timer == s.timer && next.stops == s.stops && next.isStopping == s.isStopping
    ensures !s.timer ==> Next(tenants, s, Tick) == s
  {
  }

  /** A tenant that has settled, failed or not, is followed by the next; behind the last one the sweep is over. */
  lemma SettledTenantIsFollowed(tenants: seq<string>, s: State, n: nat, result: Result)
    requires n < |s.sweeps| && !s.sweeps[n].finished
    ensures var next := Next(tenants, s, TenantSettles(n, result)); var at := s.sweeps[n].settled + 1;
            && |next.sweeps| == |s.sweeps| && next.sweeps[n].settled == at
            && next.sweeps[n].finished == (at >= |tenants|)
            && next.calls == s.calls + (if at < |tenants| then [Call(n, tenants[at])] else [])
            && next.activeRun == s.activeRun && next.timer == s.timer
  {
  }

  /** A sweep that is over makes way for the next. */
  lemma FinishedSweepMakesWay(tenants: seq<string>, s: State, n: nat)
    requires n < |s.sweeps| && s.sweeps[n].finished && s.activeRun == Some(n)
    ensures Next(tenants, s, RunCleared(n)) == s.(activeRun := None)
  {
  }

  /** A stop cancels the timer; it waits for the sweep under way, and otherwise is over at once. */
  lemma StopCancelsAndWaits(tenants: seq<string>, s: State)
    ensures var next := Next(tenants, s, StopCalled);
            && !next.timer && next.activeRun == s.activeRun && next.sweeps == s.sweeps && next.calls == s.calls
            && next.stops == s.stops + [Stop(s.activeRun, s.activeRun.None?)]
            && next.isStopping == s.activeRun.Some?
  {
  }

  /** It resolves once that sweep is over, and a new start is possible again. */
  lemma AwaitedStopResolves(tenants: seq<string>, s: State, i: nat)
    requires i < |s.stops| && !s.stops[i].resolved && s.stops[i].awaited.Some? && Finished(s, s.stops[i].awaited.value)
    ensures var next := Next(tenants, s, StopResumes(i));
            && |next.stops| == |s.stops| && next.stops[i] == s.stops[i].(resolved := true) && !next.isStopping
            && next.timer == s.timer && Next(tenants, next, Event.Start).timer
  {
  }

  /** Nothing but a stop takes a timer away, so ticks keep coming until then. */
  lemma {:induction false} TimerStaysUntilAStop(tenants: seq<string>, s: State, events: seq<Event>)
    requires s.timer && forall k :: 0 <= k < |events| ==> !events[k].StopCalled?
    ensures Run(tenants, s, events).timer
    decreases events
  {
    if events != [] {
      assert events[0] in events;
      TimerStaysUntilAStop(tenants, Next(tenants, s, events[0]), events[1..]);
    }
  }

  /** At no point of any run are two sweeps unfinished; and one that is, is what every further run shares. */
  lemma {:induction false} OneSweepAtATime(tenants: seq<string>, events: seq<Event>, m: nat, n: nat)
    requires var s := Run(tenants, INITIAL, events);
            m < |s.sweeps| && n < |s.sweeps| && !s.sweeps[m].finished && !s.sweeps[n].finished
    ensures m == n && Next(tenants, Run(tenants, INITIAL, events), RunOnce) == Run(tenants, INITIAL, events)
  {
    RunKeepsInv(tenants, INITIAL, events);
  }

  /**
   Whichever repository calls and error handlers fail, a finished sweep has called the repository exactly
   once for each configured tenant, in the order of first occurrence, and an unfinished one for a prefix.
   */
  lemma {:induction false} EverySweepCallsEachTenantOnce(setting: Option<Setting>, environment: Option<string>,
          trim: string -> string, events: seq<Event>, n: nat)
    requires n < |Run(ResolveTenantIds(setting, environment, trim), INITIAL, events).sweeps|
    ensures var tenants := ResolveTenantIds(setting, environment, trim); var s := Run(tenants, INITIAL, events);
            && NoRepeats(tenants)
            && CallsOf(s.calls, n) <= tenants
            && (s.sweeps[n].finished ==> CallsOf(s.calls, n) == tenants)
  {
    var tenants := ResolveTenantIds(setting, environment, trim);
    RunKeepsInv(tenants, INITIAL, events);
    DistinctKeeps(Candidates(setting, environment, trim));
    var s := Run(tenants, INITIAL, events);
    assert SweepIsRight(tenants, s.calls, n, s.sweeps[n]);
  }

  lemma {:induction false} AwaitedStays(tenants: seq<string>, s: State, events: seq<Event>, i: nat)
    requires i < |s.stops|
    ensures var after := Run(tenants, s, events); i < |after.stops| && after.stops[i].awaited == s.stops[i].awaited
    decreases events
  {
    if events != [] {
      AwaitedStays(tenants, Next(tenants, s, events[0]), events[1..], i);
    }
  }

  lemma {:induction false} RunConcat(tenants: seq<string>, s: State, a: seq<Event>, b: seq<Event>)
    ensures Run(tenants, s, a + b) == Run(tenants, Run(tenants, s, a), b)
    decreases a
  {
    if a == [] {
      assert a + b == b;
    } else {
      assert (a + b)[1..] == a[1..] + b;
      RunConcat(tenants, Next(tenants, s, a[0]), a[1..], b);
    }
  }

  /**
   A stop that has resolved, at any later time, did so after the
   sweep that was active when it was called had finished.
   */
  lemma {:induction false} StopWaitsForTheActiveSweep(tenants: seq<string>, before: seq<Event>, later: seq<Event>,
                                                      n: nat)
    requires Run(tenants, INITIAL, before).activeRun == Some(n)
    ensures var i := |Run(tenants, INITIAL, before).stops|;
            var s := Run(tenants, INITIAL, before + [StopCalled] + later);
            i < |s.stops| && (s.stops[i].resolved ==> Finished(s, n) && CallsOf(s.calls, n) == tenants)
  {
    var s0 := Run(tenants, INITIAL, before);
    var i := |s0.stops|;
    var s1 := Next(tenants, s0, StopCalled);
    RunConcat(tenants, INITIAL, before, [StopCalled] + later);
    assert before + [StopCalled] + later == before + ([StopCalled] + later);
    assert ([StopCalled] + later)[1..] == later;
    AwaitedStays(tenants, s1, later, i);
    RunKeepsInv(tenants, INITIAL, before + [StopCalled] + later);
    var s := Run(tenants, INITIAL, before + [StopCalled] + later);
    assert s == Run(tenants, s1, later);
    assert SweepIsRight(tenants, s.calls, n, s.sweeps[n]);
  }

  /** A stop leaves no timer, and while it waits none can be started unless another stop has finished meanwhile. */
  lemma {:induction false} StoppedTimersStayStopped(tenants: seq<string>, s: State, events: seq<Event>)
    requires !s.timer && s.isStopping
    requires forall k :: 0 <= k < |events| ==> !events[k].StopResumes? && !events[k].StopCalled?
    ensures !Run(tenants, s, events).timer
    decreases events
  {
    if events != [] {
      assert events[0] in events;
      StoppedTimersStayStopped(tenants, Next(tenants, s, events[0]), events[1..]);
    }
  }
}
