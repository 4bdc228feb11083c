/**
 The tenant transaction binder over one pooled connection that is used again and again. Every query may
 fail: refused by the server, never sent, or executed without its answer being heard.
 */
module TenantBinding {
  import opened Options

  const APPLICATION_ROLE := "agentos_app"

  datatype Transaction = Idle | Open | Failed

  /** What a callback writes; `owner` is the tenant the binder was called for. */
  datatype Write = Write(owner: string, id: nat)

  /**
   The server's side of the connection. Local settings last until the transaction ends; a session setting
   made inside a transaction is undone, to `saved`, if that transaction rolls back.
   */
  datatype Server = Server(tx: Transaction, localRole: Option<string>, localPath: bool, localTenant: Option<string>,
                           session: string, saved: string, pending: seq<Write>, durable: seq<Write>)

  datatype Command =
    | Begin | SetLocalRole | SetLocalPath | BindTenant(tenant: string) | Work(write: Write)
    | Commit | Rollback | ClearSession

  /** How a query goes: as the server has it, refused, never sent, or carried out unheard. */
  datatype Outcome = Done | Refused | Unsent | Unheard

  /** The setting row-level security reads. */
  function CurrentTenant(s: Server): string { if s.localTenant.Some? then s.localTenant.value else s.session }

  function Ended(s: Server, durable: seq<Write>): Server {
    s.(tx := Idle, localRole := None, localPath := false, localTenant := None, pending := [], durable := durable)
  }

  function RolledBack(s: Server): Server { Ended(s, s.durable).(session := s.saved) }

  /** A failed transaction accepts only its end, and its COMMIT is a rollback that reports success. */
  predicate Accepts(s: Server, command: Command) { s.tx != Failed || command.Commit? || command.Rollback? }

  /** Outside a transaction a local setting is gone with its own statement; BEGIN inside one changes nothing. */
  function Execute(s: Server, command: Command): Server
    requires Accepts(s, command)
  {
    match command
    case Begin => if s.tx == Idle then s.(tx := Open, saved := s.session) else s
    case SetLocalRole => if s.tx == Open then s.(localRole := Some(APPLICATION_ROLE)) else s
    case SetLocalPath => if s.tx == Open then s.(localPath := true) else s
    case BindTenant(tenant) => if s.tx == Open then s.(localTenant := Some(tenant)) else s
    case Work(write) => if s.tx == Open then s.(pending := s.pending + [write]) else s.(durable := s.durable + [write])
    case Commit => if s.tx == Open then Ended(s, s.durable + s.pending) else if s.tx == Failed then RolledBack(s) else s
    case Rollback => if s.tx == Idle then s else RolledBack(s)
    case ClearSession => s.(session := "", localTenant := None)
  }

  /** A refused statement fails the transaction it is in; a refused COMMIT ends it rolled back. */
  function Refuse(s: Server, command: Command): Server {
    if s.tx == Idle || command.Rollback? then s else if command.Commit? then RolledBack(s) else s.(tx := Failed)
  }

  function AfterQuery(s: Server, command: Command, outcome: Outcome): Server {
    match outcome
    case Unsent => s
    case Refused => Refuse(s, command)
    case _ => if Accepts(s, command) then Execute(s, command) else s
  }

  /** Whether the client sees the query succeed. */
  predicate Succeeds(s: Server, command: Command, outcome: Outcome) { outcome == Done && Accepts(s, command) }

  /** The work statements of a callback with their outcomes, and whether it throws in the end. */
  datatype Callback = Callback(work: seq<(nat, Outcome)>, throws: bool)

  /** How every query of one call goes. */
  datatype Script = Script(connects: bool, begin: Outcome, role: Outcome, path: Outcome, bind: Outcome,
                           callback: Callback,
                           commit: Outcome, rollback: Outcome, clear: Outcome)

  /** What the server saw when it carried out one statement of a callback. */
  datatype Seen = Seen(tenant: string, role: Option<string>, path: bool, inTransaction: bool)

  datatype Ending = NotATenant | NoConnection | Returned | Threw

  predicate IsHex(c: char) { '0' <= c <= '9' || 'a' <= c <= 'f' || 'A' <= c <= 'F' }

  /** One UUID in 8-4-4-4-12 form. */
  predicate IsTenantId(s: string) {
    |s| == 36 && forall i :: 0 <= i < 36 ==> if i in {8, 13, 18, 23} then s[i] == '-' else IsHex(s[i])
  }

  predicate IsHexGroup(s: string) {
    forall i :: 0 <= i < |s| ==> s[i] in "0123456789" || s[i] in "abcdef" || s[i] in "ABCDEF"
  }

  lemma DecimalDigits(c: char)
    ensures '0' <= c <= '9' <==> c in "0123456789"
  {
    assert '0' <= c <= '9' ==> c == "0123456789"[(c - '0') as int];
  }

  lemma HexLetters(c: char)
    ensures 'a' <= c <= 'f' <==> c in "abcdef"
    ensures 'A' <= c <= 'F' <==> c in "ABCDEF"
  {
    assert 'a' <= c <= 'f' ==> c == "abcdef"[(c - 'a') as int];
    assert 'A' <= c <= 'F' ==> c == "ABCDEF"[(c - 'A') as int];
  }

  lemma HexGroupExactly(s: string)
    ensures IsHexGroup(s) <==> forall i :: 0 <= i < |s| ==> IsHex(s[i])
  {
    forall i | 0 <= i < |s|
      ensures IsHex(s[i]) <==> s[i] in "0123456789" || s[i] in "abcdef" || s[i] in "ABCDEF" {
      DecimalDigits(s[i]);
      HexLetters(s[i]);
    }
  }

  /** A tenant identifier is five groups of 8, 4, 4, 4 and 12 hexadecimal digits, joined by hyphens. */
  lemma TenantIdExactly(s: string)
    ensures IsTenantId(s) <==>
            && |s| == 36 && s[8] == s[13] == s[18] == s[23] == '-'
            && IsHexGroup(s[..8]) && IsHexGroup(s[9..13]) && IsHexGroup(s[14..18]) && IsHexGroup(s[19..23])
            && IsHexGroup(s[24..])
  {
    if |s| == 36 {
      HexGroupExactly(s[..8]);
      HexGroupExactly(s[9..13]);
      HexGroupExactly(s[14..18]);
      HexGroupExactly(s[19..23]);
      HexGroupExactly(s[24..]);
    }
  }

  // ---- specification

  /** The four queries before the callback; they stop at the first that fails. */
  function Setup(s: Server, tenant: string, script: Script): (Server, bool) {
    var s1 := AfterQuery(s, Begin, script.begin);
    if !Succeeds(s, Begin, script.begin) then (s1, false)
    else
      var s2 := AfterQuery(s1, SetLocalRole, script.role);
      if !Succeeds(s1, SetLocalRole, script.role) then (s2, false)
      else
        var s3 := AfterQuery(s2, SetLocalPath, script.path);
        if !Succeeds(s2, SetLocalPath, script.path) then (s3, false)
        else (AfterQuery(s3, BindTenant(tenant), script.bind), Succeeds(s3, BindTenant(tenant), script.bind))
  }

  function AfterWork(s: Server, tenant: string, work: seq<(nat, Outcome)>): Server {
    if work == [] then s
    else
      var before := AfterWork(s, tenant, work[..|work| - 1]); var (id, outcome) := work[|work| - 1];
      AfterQuery(before, Work(Write(tenant, id)), outcome)
  }

  /** The statements of the callback the server carried out, as it saw them. */
  function SeenBy(s: Server, tenant: string, work: seq<(nat, Outcome)>): seq<Seen> {
    if work == [] then []
    else
      var before := AfterWork(s, tenant, work[..|work| - 1]); var (_, outcome) := work[|work| - 1];
      SeenBy(s, tenant, work[..|work| - 1])
      + if (outcome == Done || outcome == Unheard) && before.tx != Failed
        then [Seen(CurrentTenant(before), before.localRole, before.localPath, before.tx == Open)] else []
  }

  /** The transaction body: set up, run the callback, commit. */
  function Body(s: Server, tenant: string, script: Script): (Server, bool) {
    var (bound, ready) := Setup(s, tenant, script);
    if !ready then (bound, false)
    else
      var worked := AfterWork(bound, tenant, script.callback.work);
      if script.callback.throws then (worked, false)
      else (AfterQuery(worked, Commit, script.commit), Succeeds(worked, Commit, script.commit))
  }

  function Ends(s: Server, tenant: string, script: Script): Ending {
    if !IsTenantId(tenant) then NotATenant
    else if !script.connects then NoConnection
    else if Body(s, tenant, script).1 then Returned else Threw
  }

  /** The connection as it goes back to the pool. */
  function After(s: Server, tenant: string, script: Script): Server {
    if !IsTenantId(tenant) || !script.connects then s
    else
      var (body, fine) := Body(s, tenant, script);
      AfterQuery(if fine then body else AfterQuery(body, Rollback, script.rollback), ClearSession, script.clear)
  }

  function Statements(s: Server, tenant: string, script: Script): seq<Seen> {
    if !IsTenantId(tenant) || !script.connects || !Setup(s, tenant, script).1 then []
    else SeenBy(Setup(s, tenant, script).0, tenant, script.callback.work)
  }

  // ---- the binder

  /** A pooled connection: the server's state, whether it is checked out, and a record of its use. */
  class Connection {
    var server: Server
    var inUse: bool
    ghost var obtained: nat
    ghost var released: nat
    ghost var seen: seq<Seen>

    constructor (server: Server)
      ensures this.server == server && !inUse && obtained == released == 0 && seen == []
    {
      this.server, inUse := server, false;
      obtained, released, seen := 0, 0, [];
    }

    method Query(command: Command, outcome: Outcome) returns (ok: bool)
      modifies `server
      ensures server == AfterQuery(old(server), command, outcome) && ok == Succeeds(old(server), command, outcome)
    {
      ok := false;
      match outcome {
        case Unsent =>
        case Refused => server := Refuse(server, command);
        case _ =>
          if Accepts(server, command) {
            ok := outcome == Done;
            server := Execute(server, command);
          }
      }
    }

    method Release()
      requires inUse
      modifies `inUse, `released
      ensures !inUse && released == old(released) + 1
    {
      inUse := false;
      released := released + 1;
    }

    /** The callback's statements; it goes on after one that fails, as a callback that catches errors may. */
    method RunCallback(tenant: string, callback: Callback) returns (ok: bool)
      modifies `server, `seen
      ensures server == AfterWork(old(server), tenant, callback.work) && ok == !callback.throws
      ensures seen == old(seen) + SeenBy(old(server), tenant, callback.work)
    {
      for i := 0 to |callback.work|
        invariant server == AfterWork(old(server), tenant, callback.work[..i])
        invariant seen == old(seen) + SeenBy(old(server), tenant, callback.work[..i])
      {
        assert callback.work[..i + 1][..i] == callback.work[..i];
        var (id, outcome) := callback.work[i];
        if (outcome == Done || outcome == Unheard) && server.tx != Failed {
          seen := seen + [Seen(CurrentTenant(server), server.localRole, server.localPath, server.tx == Open)];
        }
        var _ := Query(Work(Write(tenant, id)), outcome);
      }
      assert callback.work[..|callback.work|] == callback.work;
      ok := !callback.throws;
    }

    method SetUp(tenant: string, script: Script) returns (ok: bool)
      modifies `server
      ensures (server, ok) == Setup(old(server), tenant, script)
    {
      ok := Query(Begin, script.begin);
      if ok {
        ok := Query(SetLocalRole, script.role);
      }
      if ok {
        ok := Query(SetLocalPath, script.path);
      }
      if ok {
        ok := Query(BindTenant(tenant), script.bind);
      }
    }

    method WithTenantContext(tenant: string, script: Script) returns (ending: Ending)
      requires !inUse && obtained == released
      modifies this
      ensures server == After(old(server), tenant, script) && ending == Ends(old(server), tenant, script)
      ensures seen == old(seen) + Statements(old(server), tenant, script)
      ensures !inUse && obtained == released
      ensures obtained == old(obtained) + if ending.NotATenant? || ending.NoConnection? then 0 else 1
    {
      if !IsTenantId(tenant) {
        return NotATenant;
      }
      if !script.connects {
        return NoConnection;
      }
      inUse := true;
      obtained := obtained + 1;
      var fine := SetUp(tenant, script);
      if fine {
        fine := RunCallback(tenant, script.callback);
        if fine {
          fine := Query(Commit, script.commit);
        }
      }
      if !fine {
        var _ := Query(Rollback, script.rollback);
      }
      var _ := Query(ClearSession, script.clear);
      Release();
      ending := if fine then Returned else Threw;
    }
  }

  // ---- isolation

  predicate Bound(s: Server, tenant: string) {
    s.tx == Failed || (s.tx == Open && s.localTenant == Some(tenant) && s.localRole == Some(APPLICATION_ROLE)
                       && s.localPath)
  }

  lemma SetupBinds(s: Server, tenant: string, script: Script)
    requires Setup(s, tenant, script).1
    ensures Setup(s, tenant, script).0.tx == Open && Bound(Setup(s, tenant, script).0, tenant)
  {
  }

  lemma {:induction false} WorkStaysBound(s: Server, tenant: string, work: seq<(nat, Outcome)>)
    requires Bound(s, tenant)
    ensures Bound(AfterWork(s, tenant, work), tenant)
    ensures forall i :: 0 <= i < |SeenBy(s, tenant, work)| ==>
              SeenBy(s, tenant, work)[i] == Seen(tenant, Some(APPLICATION_ROLE), true, true)
  {
    if work != [] {
      WorkStaysBound(s, tenant, work[..|work| - 1]);
    }
  }

  /**
   Whatever state a connection comes back to the pool in, every statement the server carries out for a
   callback runs in a transaction, under the application role and search path, bound to its own tenant.
   */
  lemma EveryStatementSeesItsOwnTenant(s: Server, tenant: string, script: Script, i: nat)
    requires i < |Statements(s, tenant, script)|
    ensures Statements(s, tenant, script)[i] == Seen(tenant, Some(APPLICATION_ROLE), true, true)
  {
    SetupBinds(s, tenant, script);
    WorkStaysBound(Setup(s, tenant, script).0, tenant, script.callback.work);
  }

  // ---- all or nothing

  datatype Call = Call(tenant: string, script: Script)

  function RunCalls(s: Server, calls: seq<Call>): Server {
    if calls == [] then s
    else
      var last := calls[|calls| - 1];
      After(RunCalls(s, calls[..|calls| - 1]), last.tenant, last.script)
  }

  predicate Carried(outcome: Outcome) { outcome == Done || outcome == Unheard }

  /** The writes of a callback none of whose statements is refused. */
  function CarriedWrites(tenant: string, work: seq<(nat, Outcome)>): seq<Write> {
    if work == [] then []
    else
      CarriedWrites(tenant, work[..|work| - 1])
      + if Carried(work[|work| - 1].1) then [Write(tenant, work[|work| - 1].0)] else []
  }

  predicate SomeRefused(work: seq<(nat, Outcome)>) { exists i :: 0 <= i < |work| && work[i].1 == Refused }

  /** At rest: no transaction, nothing pending, no tenant. */
  predicate AtRest(s: Server) {
    s.tx == Idle && CurrentTenant(s) == "" && s.localTenant == None && s.localRole == None && !s.localPath
      && s.pending == []
  }

  /**
   A refused statement fails the transaction whether or not the
   callback catches the error; otherwise the work is pending.
   */
  lemma {:induction false} WorkIsPendingOrFailed(s: Server, tenant: string, work: seq<(nat, Outcome)>)
    requires s.tx == Open
    ensures var after := AfterWork(s, tenant, work);
            && after.durable == s.durable
            && (after.tx == Failed <==> SomeRefused(work))
            && (after.tx == Failed || (after.tx == Open && after.pending == s.pending + CarriedWrites(tenant, work)))
  {
    if work != [] {
      var front := work[..|work| - 1];
      WorkIsPendingOrFailed(s, tenant, front);
      assert SomeRefused(work) <==> SomeRefused(front) || work[|work| - 1].1 == Refused by {
        assert work == front + [work[|work| - 1]];
        if i :| 0 <= i < |front| && front[i].1 == Refused { assert work[i] == front[i]; }
        if i :| 0 <= i < |work| && work[i].1 == Refused { assert i < |front| ==> front[i] == work[i]; }
      }
    }
  }

  /** Set up from rest leaves a transaction with nothing in it, or none; it writes nothing either way. */
  lemma SetupFromRest(s: Server, tenant: string, script: Script)
    requires AtRest(s)
    ensures var (bound, ready) := Setup(s, tenant, script);
            bound.durable == s.durable && bound.pending == [] && (ready ==> bound.tx == Open)
  {
  }

  /** Whether the transaction body ends with its writes stored. */
  predicate Stores(s: Server, tenant: string, script: Script) {
    Setup(s, tenant, script).1 && !script.callback.throws && Carried(script.commit)
      && !SomeRefused(script.callback.work)
  }

  lemma {:induction false} BodyStoresExactly(s: Server, tenant: string, script: Script)
    requires AtRest(s)
    ensures var (after, fine) := Body(s, tenant, script);
            && after.durable == s.durable + (if Stores(s, tenant, script)
                                             then CarriedWrites(tenant, script.callback.work) else [])
            && (fine <==> Setup(s, tenant, script).1 && !script.callback.throws && script.commit == Done)
            && (after.tx == Idle ==> after.pending == [])
  {
    SetupFromRest(s, tenant, script);
    if Setup(s, tenant, script).1 {
      WorkIsPendingOrFailed(Setup(s, tenant, script).0, tenant, script.callback.work);
    }
  }

  /**
   From rest, one call stores all its callback's writes or none; and it stores them exactly when set-up
   succeeds, the callback does not throw, no statement is refused, and COMMIT is carried out, heard or not.
   */
  lemma {:induction false} CallStoresAllOrNothing(s: Server, tenant: string, script: Script)
    requires AtRest(s) && IsTenantId(tenant) && script.connects
    ensures After(s, tenant, script).durable
         == s.durable + if Stores(s, tenant, script) then CarriedWrites(tenant, script.callback.work) else []
  {
    BodyStoresExactly(s, tenant, script);
  }

  /**
   So after a returned result the callback's writes are durable, and nothing else is new, exactly when it
   swallowed no refused statement, or had no writes to lose.
   */
  lemma {:induction false} ReturnedMeansStoredExactlyWithoutRefusals(s: Server, tenant: string, script: Script)
    requires AtRest(s) && Ends(s, tenant, script) == Returned
    ensures var work := script.callback.work; var durable := After(s, tenant, script).durable;
            && (durable == s.durable + CarriedWrites(tenant, work)
                <==> !SomeRefused(work) || CarriedWrites(tenant, work) == [])
            && (SomeRefused(work) ==> durable == s.durable)
  {
    BodyStoresExactly(s, tenant, script);
    CallStoresAllOrNothing(s, tenant, script);
  }

  /**
   And after a thrown error nothing is new exactly when COMMIT did not go through unheard, or had nothing to store.
   */
  lemma {:induction false} ThrownMeansNothingStoredExactly(s: Server, tenant: string, script: Script)
    requires AtRest(s) && Ends(s, tenant, script) == Threw
    ensures var work := script.callback.work;
            After(s, tenant, script).durable == s.durable <==>
            (!Setup(s, tenant, script).1 || script.callback.throws || script.commit != Unheard || SomeRefused(work)
             || CarriedWrites(tenant, work) == [])
  {
    BodyStoresExactly(s, tenant, script);
    CallStoresAllOrNothing(s, tenant, script);
  }

  /** From rest, set-up succeeds exactly when each of its four queries is carried out and heard. */
  lemma SetupSucceedsExactly(s: Server, tenant: string, script: Script)
    requires AtRest(s)
    ensures Setup(s, tenant, script).1 <==>
            script.begin == Done && script.role == Done && script.path == Done && script.bind == Done
  {
  }

  /** The writes of a list of statements that are all carried out and heard. */
  predicate AllDone(work: seq<(nat, Outcome)>) { forall i :: 0 <= i < |work| ==> work[i].1 == Done }

  lemma {:induction false} AllDoneWrites(tenant: string, work: seq<(nat, Outcome)>)
    requires AllDone(work)
    ensures CarriedWrites(tenant, work) == seq(|work|, i requires 0 <= i < |work| => Write(tenant, work[i].0))
  {
    if work != [] {
      AllDoneWrites(tenant, work[..|work| - 1]);
    }
  }

  /**
   A call in which nothing goes wrong returns, and its tenant's writes, all of them and in order, are durable; the
   connection is back at rest.
   */
  lemma {:induction false} SmoothCallStoresEverything(s: Server, tenant: string, script: Script)
    requires AtRest(s) && IsTenantId(tenant) && script.connects && AllDone(script.callback.work)
    requires script.begin == Done && script.role == Done && script.path == Done && script.bind == Done
    requires !script.callback.throws && script.commit == Done && script.clear == Done
    ensures var work := script.callback.work; var after := After(s, tenant, script);
            && Ends(s, tenant, script) == Returned && AtRest(after)
            && after.durable == s.durable + seq(|work|, i requires 0 <= i < |work| => Write(tenant, work[i].0))
  {
    SetupSucceedsExactly(s, tenant, script);
    BodyStoresExactly(s, tenant, script);
    CallStoresAllOrNothing(s, tenant, script);
    AllDoneWrites(tenant, script.callback.work);
    ReturnedIsIdle(s, tenant, script);
    ReturnsInATransactionExactly(s, tenant, script);
  }

  /** Whatever a connection was left with, a reset that is carried out leaves it without a tenant. */
  lemma ResetLeavesNoTenant(s: Server, tenant: string, script: Script)
    requires IsTenantId(tenant) && script.connects && Carried(script.clear)
    requires After(s, tenant, script).tx != Failed
    ensures After(s, tenant, script).session == "" && CurrentTenant(After(s, tenant, script)) == ""
  {
  }

  // ---- what goes back to the pool

  /** Everything but a transaction the server still has open is gone. */
  predicate Tidy(s: Server) {
    s.session == "" && (s.tx == Idle ==> AtRest(s)) && (s.tx != Idle ==> s.saved == "")
  }

  lemma QueryKeepsTidy(s: Server, command: Command, outcome: Outcome)
    requires Tidy(s)
    ensures Tidy(AfterQuery(s, command, outcome))
  {
  }

  lemma {:induction false} WorkKeepsTidy(s: Server, tenant: string, work: seq<(nat, Outcome)>)
    requires Tidy(s)
    ensures Tidy(AfterWork(s, tenant, work))
  {
    if work != [] {
      WorkKeepsTidy(s, tenant, work[..|work| - 1]);
      QueryKeepsTidy(AfterWork(s, tenant, work[..|work| - 1]), Work(Write(tenant, work[|work| - 1].0)),
                     work[|work| - 1].1);
    }
  }

  lemma BodyKeepsTidy(s: Server, tenant: string, script: Script)
    requires Tidy(s)
    ensures Tidy(Body(s, tenant, script).0)
  {
    var s1 := AfterQuery(s, Begin, script.begin);
    var s2 := AfterQuery(s1, SetLocalRole, script.role);
    var s3 := AfterQuery(s2, SetLocalPath, script.path);
    QueryKeepsTidy(s, Begin, script.begin);
    QueryKeepsTidy(s1, SetLocalRole, script.role);
    QueryKeepsTidy(s2, SetLocalPath, script.path);
    QueryKeepsTidy(s3, BindTenant(tenant), script.bind);
    var bound := Setup(s, tenant, script).0;
    WorkKeepsTidy(bound, tenant, script.callback.work);
    QueryKeepsTidy(AfterWork(bound, tenant, script.callback.work), Commit, script.commit);
  }

  /** The body ends its own transaction, unless it throws with one still open. */
  predicate LeftOpen(s: Server, tenant: string, script: Script) {
    IsTenantId(tenant) && script.connects && Body(s, tenant, script).0.tx != Idle
  }

  /** A connection comes back in a transaction exactly when the body left one and ROLLBACK was not carried out. */
  lemma ReturnsInATransactionExactly(s: Server, tenant: string, script: Script)
    requires AtRest(s) && IsTenantId(tenant) && script.connects
    ensures After(s, tenant, script).tx != Idle <==> LeftOpen(s, tenant, script) && !Carried(script.rollback)
    ensures After(s, tenant, script).tx == Idle ==> AtRest(After(s, tenant, script))
  {
    BodyKeepsTidy(s, tenant, script);
    BodyStoresExactly(s, tenant, script);
    if Body(s, tenant, script).1 {
      ReturnedIsIdle(s, tenant, script);
    }
    var (body, fine) := Body(s, tenant, script);
    var back := if fine then body else AfterQuery(body, Rollback, script.rollback);
    QueryKeepsTidy(body, Rollback, script.rollback);
    QueryKeepsTidy(back, ClearSession, script.clear);
  }

  lemma ReturnedIsIdle(s: Server, tenant: string, script: Script)
    requires Body(s, tenant, script).1
    ensures Body(s, tenant, script).0.tx == Idle
  {
    SetupBinds(s, tenant, script);
    WorkStaysBound(Setup(s, tenant, script).0, tenant, script.callback.work);
  }

  predicate RollbacksCarried(calls: seq<Call>) {
    forall i :: 0 <= i < |calls| ==> Carried(calls[i].script.rollback)
  }

  /** The writes of the calls that store theirs, in call order. */
  function Stored(s: Server, calls: seq<Call>): seq<Write> {
    if calls == [] then []
    else
      var before := RunCalls(s, calls[..|calls| - 1]); var last := calls[|calls| - 1];
      Stored(s, calls[..|calls| - 1])
      + if IsTenantId(last.tenant) && last.script.connects && Stores(before, last.tenant, last.script)
        then CarriedWrites(last.tenant, last.script.callback.work) else []
  }

  lemma {:induction false} CallFromRest(s: Server, tenant: string, script: Script)
    requires AtRest(s) && Carried(script.rollback)
    ensures AtRest(After(s, tenant, script))
    ensures After(s, tenant, script).durable
         == s.durable + if IsTenantId(tenant) && script.connects && Stores(s, tenant, script)
                        then CarriedWrites(tenant, script.callback.work) else []
  {
    if IsTenantId(tenant) && script.connects {
      ReturnsInATransactionExactly(s, tenant, script);
      CallStoresAllOrNothing(s, tenant, script);
    }
  }

  lemma Regroup(a: seq<Write>, b: seq<Write>, c: seq<Write>)
    ensures (a + b) + c == a + (b + c)
  {
  }

  /**
   Over any sequence of calls on one connection whose ROLLBACKs are carried out, the connection is at rest
   between calls, reading no tenant, and what is durable is the writes of exactly the calls that committed.
   */
  lemma {:induction false} ReuseKeepsCallsApart(s: Server, calls: seq<Call>)
    requires AtRest(s) && RollbacksCarried(calls)
    ensures AtRest(RunCalls(s, calls)) && RunCalls(s, calls).durable == s.durable + Stored(s, calls)
  {
    if calls != [] {
      var front, last := calls[..|calls| - 1], calls[|calls| - 1];
      ReuseKeepsCallsApart(s, front);
      var before := RunCalls(s, front);
      CallFromRest(before, last.tenant, last.script);
      Regroup(s.durable, Stored(s, front),
              if IsTenantId(last.tenant) && last.script.connects && Stores(before, last.tenant, last.script)
              then CarriedWrites(last.tenant, last.script.callback.work) else []);
    }
  }

  /**
   That ROLLBACKs are carried out is needed: what a call leaves in an open transaction is stored by the next
   call that commits, whichever tenant that one is for, because BEGIN inside a transaction changes nothing.
   */
  lemma {:induction false} LeftoversAreStoredByTheNextCommit(s: Server, tenant: string, script: Script)
    requires s.tx == Open && IsTenantId(tenant) && script.connects && Stores(s, tenant, script)
    ensures After(s, tenant, script).durable == s.durable + (s.pending + CarriedWrites(tenant, script.callback.work))
  {
    var bound := Setup(s, tenant, script).0;
    assert bound.tx == Open && bound.pending == s.pending && bound.durable == s.durable;
    WorkIsPendingOrFailed(bound, tenant, script.callback.work);
  }
}
