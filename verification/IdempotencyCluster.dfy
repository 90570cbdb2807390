/** The idempotency protocol of several replicas sharing one SQL table. Each replica has its own
    flight map and mutex; the table is claimed, completed, read and pruned by single statements
    or transactions; completing and deleting a row may fail, and a replica may crash. */
module IdempotencyCluster {
  import opened Wrappers
  import opened IdempotencyCore

  /** How long an unfinished row blocks other replicas: two minutes, in seconds. */
  const STALE_LEASE: Time := 120

  // ----- the table -----

  type Table = map<string, Record>

  datatype ClaimOutcome = Claimed | Replayed(rec: Record) | Conflict | InProgress

  /** A row that a claim at `now` deletes: expired, or unfinished for longer than the lease. */
  predicate Superseded(row: Record, now: Time) {
    row.expiresAt <= now || (!row.completed && row.createdAt <= now - STALE_LEASE)
  }

  function ClaimRow(rows: Table, key: string, fp: Fingerprint, now: Time, expiresAt: Time): (Table, ClaimOutcome) {
    if key !in rows || Superseded(rows[key], now) then
      (rows[key := Record(fp, EMPTY_RESPONSE, false, now, expiresAt)], Claimed)
    else if rows[key].fp != fp then (rows, Conflict)
    else if rows[key].completed then (rows, Replayed(rows[key]))
    else (rows, InProgress)
  }

  /** The completing UPDATE: it matches on the request hash alone, whoever inserted the row. */
  function CompleteRow(rows: Table, key: string, requestHash: string, response: Response, expiresAt: Time): Table {
    if key in rows && rows[key].fp.requestHash == requestHash then
      rows[key := rows[key].(response := response, completed := true, expiresAt := expiresAt)]
    else rows
  }

  function PruneRows(rows: Table, now: Time): Table {
    map k | k in rows && rows[k].expiresAt > now :: rows[k]
  }

  // ----- replicas, requests and steps -----

  datatype Reply =
    | Executed(response: Response)
    | Panicking
    | ReplayOf(response: Response)
    | ConflictReply
    | InProgressReply
    | StoreFailed
    | Lost

  datatype Phase =
    | Waiting(flight: nat)
    | Running(flight: nat)
    | Returned(flight: nat, response: Response)
    | Published(flight: nat, response: Response)
    | Failing(flight: nat, answer: Option<Response>)
    | Polling
    | Answered(reply: Reply)

  datatype Request = Request(replica: nat, key: string, fp: Fingerprint, now: Time, phase: Phase)

  datatype Flight = Flight(fp: Fingerprint, done: bool, rec: Option<Record>)

  datatype ClaimEvent = ClaimEvent(replica: nat, key: string, at: Time, owner: nat, outcome: Outcome)

  datatype System = System(
    ttl: Time,
    rows: Table,
    inFlight: map<(nat, string), nat>,
    flights: seq<Flight>,
    requests: seq<Request>,
    claims: seq<ClaimEvent>)

  function Init(ttl: Time): System {
    System(ttl, map[], map[], [], [], [])
  }

  datatype Event =
    | Arrive(replica: nat, key: string, fp: Fingerprint, now: Time)
    | ArriveStoreError(replica: nat, key: string, fp: Fingerprint, now: Time)
    | HandlerReturns(req: nat, response: Response)
    | HandlerPanics(req: nat)
    | PublishRecord(req: nat, stored: bool)
    | ReleaseFlight(req: nat, stored: bool)
    | Wake(req: nat)
    | Poll(req: nat, now: Time)
    | GiveUp(req: nat)
    | Prune(now: Time)
    | Crash(replica: nat)

  predicate HasFlight(phase: Phase) {
    !phase.Polling? && !phase.Answered?
  }

  predicate Executing(phase: Phase) {
    HasFlight(phase) && !phase.Waiting?
  }

  ghost predicate Typed(s: System) {
    && |s.claims| == |s.flights|
    && (forall x :: x in s.inFlight ==> s.inFlight[x] < |s.flights|)
    && (forall r :: 0 <= r < |s.requests| ==> HasFlight(s.requests[r].phase) ==> s.requests[r].phase.flight < |s.claims|)
  }

  ghost predicate Enabled(s: System, e: Event)
    requires Typed(s)
  {
    match e
    case Arrive(_, _, _, _) => true
    case ArriveStoreError(replica, key, _, _) => (replica, key) !in s.inFlight
    case HandlerReturns(r, _) => r < |s.requests| && s.requests[r].phase.Running?
    case HandlerPanics(r) => r < |s.requests| && s.requests[r].phase.Running?
    case PublishRecord(r, _) => r < |s.requests| && s.requests[r].phase.Returned?
    case ReleaseFlight(r, _) => r < |s.requests| && (s.requests[r].phase.Published? || s.requests[r].phase.Failing?)
    case Wake(r) => r < |s.requests| && s.requests[r].phase.Waiting? && s.flights[s.requests[r].phase.flight].done
    case Poll(r, _) => r < |s.requests| && s.requests[r].phase.Polling?
    case GiveUp(r) => r < |s.requests| && (s.requests[r].phase.Waiting? || s.requests[r].phase.Polling?)
    case Prune(_) => true
    case Crash(_) => true
  }

  function SetPhase(s: System, r: nat, phase: Phase): System
    requires r < |s.requests|
  {
    s.(requests := s.requests[r := s.requests[r].(phase := phase)])
  }

  function SetOutcome(s: System, f: nat, outcome: Outcome): System
    requires f < |s.claims|
  {
    s.(claims := s.claims[f := s.claims[f].(outcome := outcome)])
  }

  function AddRequest(s: System, replica: nat, key: string, fp: Fingerprint, now: Time, phase: Phase): System {
    s.(requests := s.requests + [Request(replica, key, fp, now, phase)])
  }

  function StartFlight(s: System, replica: nat, key: string, fp: Fingerprint, now: Time, rows: Table): System {
    var f := |s.flights|;
    AddRequest(
      s.(rows := rows,
         inFlight := s.inFlight[(replica, key) := f],
         flights := s.flights + [Flight(fp, false, None)],
         claims := s.claims + [ClaimEvent(replica, key, now, |s.requests|, Pending)]),
      replica, key, fp, now, Running(f))
  }

  /** The entry section of the replica the request reached. */
  function DoArrive(s: System, replica: nat, key: string, fp: Fingerprint, now: Time): System
    requires (replica, key) in s.inFlight ==> s.inFlight[(replica, key)] < |s.flights|
  {
    if (replica, key) in s.inFlight then
      var f := s.inFlight[(replica, key)];
      AddRequest(s, replica, key, fp, now, if s.flights[f].fp != fp then Answered(ConflictReply) else Waiting(f))
    else
      var (rows, outcome) := ClaimRow(s.rows, key, fp, now, now + s.ttl);
      match outcome
      case Claimed => StartFlight(s, replica, key, fp, now, rows)
      case Replayed(rec) => AddRequest(s, replica, key, fp, now, Answered(ReplayOf(Replay(rec.response))))
      case Conflict => AddRequest(s, replica, key, fp, now, Answered(ConflictReply))
      case InProgress => AddRequest(s, replica, key, fp, now, Polling)
  }

  function DoPublish(s: System, r: nat, stored: bool): System
    requires r < |s.requests| && s.requests[r].phase.Returned? && s.requests[r].phase.flight < |s.flights|
  {
    var q := s.requests[r];
    var Returned(f, response) := q.phase;
    SetPhase(
      s.(rows := if stored then CompleteRow(s.rows, q.key, q.fp.requestHash, response, q.now + s.ttl) else s.rows,
         flights := s.flights[f := s.flights[f].(rec := Some(Record(q.fp, response, true, q.now, q.now + s.ttl)))]),
      r, Published(f, response))
  }

  function ReleaseReply(phase: Phase): Reply
    requires phase.Published? || phase.Failing?
  {
    match phase
    case Published(_, response) => Executed(response)
    case Failing(_, answer) => if answer.Some? then Executed(answer.value) else Panicking
  }

  function DoRelease(s: System, r: nat, stored: bool): System
    requires r < |s.requests| && (s.requests[r].phase.Published? || s.requests[r].phase.Failing?)
    requires s.requests[r].phase.flight < |s.flights|
  {
    var q := s.requests[r];
    var f := q.phase.flight;
    SetPhase(
      s.(rows := if q.phase.Failing? && stored then s.rows - {q.key} else s.rows,
         inFlight := s.inFlight - {(q.replica, q.key)},
         flights := s.flights[f := s.flights[f].(done := true)]),
      r, Answered(ReleaseReply(q.phase)))
  }

  function WakePhase(flight: Flight, fp: Fingerprint): Phase {
    if flight.rec.None? then Polling
    else if flight.rec.value.fp != fp then Answered(ConflictReply)
    else Answered(ReplayOf(Replay(flight.rec.value.response)))
  }

  function PollPhase(rows: Table, key: string, fp: Fingerprint, now: Time): Phase {
    if key !in rows || rows[key].expiresAt <= now then Answered(InProgressReply)
    else if rows[key].fp != fp then Answered(ConflictReply)
    else if rows[key].completed then Answered(ReplayOf(Replay(rows[key].response)))
    else Polling
  }

  /** A crash forgets the replica's flights and requests; its unfinished rows stay in the table. */
  function DoCrash(s: System, replica: nat): System
    requires |s.claims| == |s.flights|
  {
    s.(inFlight := map x | x in s.inFlight && x.0 != replica :: s.inFlight[x],
       flights := seq(|s.flights|, f requires 0 <= f < |s.flights| =>
         if s.claims[f].replica == replica then s.flights[f].(done := true) else s.flights[f]),
       requests := seq(|s.requests|, r requires 0 <= r < |s.requests| =>
         if s.requests[r].replica == replica && !s.requests[r].phase.Answered?
         then s.requests[r].(phase := Answered(Lost)) else s.requests[r]))
  }

  ghost function Step(s: System, e: Event): System
    requires Typed(s) && Enabled(s, e)
  {
    match e
    case Arrive(replica, key, fp, now) => DoArrive(s, replica, key, fp, now)
    case ArriveStoreError(replica, key, fp, now) => AddRequest(s, replica, key, fp, now, Answered(StoreFailed))
    case HandlerReturns(r, response) =>
      var f := s.requests[r].phase.flight;
      SetOutcome(SetPhase(s, r, if ServerError(response) then Failing(f, Some(response)) else Returned(f, response)), f, Ended(response))
    case HandlerPanics(r) =>
      var f := s.requests[r].phase.flight;
      SetOutcome(SetPhase(s, r, Failing(f, None)), f, Panicked)
    case PublishRecord(r, stored) => DoPublish(s, r, stored)
    case ReleaseFlight(r, stored) => DoRelease(s, r, stored)
    case Wake(r) => SetPhase(s, r, WakePhase(s.flights[s.requests[r].phase.flight], s.requests[r].fp))
    case Poll(r, now) => SetPhase(s, r, PollPhase(s.rows, s.requests[r].key, s.requests[r].fp, now))
    case GiveUp(r) => SetPhase(s, r, Answered(InProgressReply))
    case Prune(now) => s.(rows := PruneRows(s.rows, now))
    case Crash(replica) => DoCrash(s, replica)
  }

  // ----- the invariant of every run -----

  ghost predicate MapInv(s: System, x: (nat, string))
    requires Typed(s)
  {
    x in s.inFlight ==>
      var f := s.inFlight[x];
      !s.flights[f].done && s.claims[f].replica == x.0 && s.claims[f].key == x.1
  }

  predicate Succeeded(c: ClaimEvent) {
    c.outcome.Ended? && c.outcome.response.status < 500
  }

  ghost predicate FlightInv(s: System, f: nat)
    requires Typed(s) && f < |s.claims|
  {
    var flight, c := s.flights[f], s.claims[f];
    && (!flight.done ==>
          && (c.replica, c.key) in s.inFlight && s.inFlight[(c.replica, c.key)] == f
          && c.owner < |s.requests| && Executing(s.requests[c.owner].phase) && s.requests[c.owner].phase.flight == f)
    && (flight.rec.Some? ==>
          Succeeded(c) && flight.rec.value == Record(flight.fp, c.outcome.response, true, c.at, c.at + s.ttl))
  }

  predicate PhaseAgrees(phase: Phase, outcome: Outcome) {
    match phase
    case Running(_) => outcome == Pending
    case Returned(_, response) => outcome == Ended(response) && !ServerError(response)
    case Published(_, response) => outcome == Ended(response) && !ServerError(response)
    case Failing(_, Some(response)) => outcome == Ended(response) && ServerError(response)
    case Failing(_, None) => outcome == Panicked
    case _ => false
  }

  ghost predicate RequestInv(s: System, r: nat)
    requires Typed(s) && r < |s.requests|
  {
    var q := s.requests[r];
    HasFlight(q.phase) ==>
      var f := q.phase.flight;
      var flight, c := s.flights[f], s.claims[f];
      && c.replica == q.replica && c.key == q.key && flight.fp == q.fp
      && (Executing(q.phase) ==>
            && !flight.done && c.owner == r && c.at == q.now
            && (q.phase.Published? <==> flight.rec.Some?)
            && PhaseAgrees(q.phase, c.outcome))
  }

  /** Execution `f` of key `k` and this request hash ended below 500 with this response. */
  ghost predicate Produced(s: System, k: string, requestHash: string, response: Response, f: nat)
    requires Typed(s)
  {
    && f < |s.claims| && s.claims[f].key == k && s.flights[f].fp.requestHash == requestHash
    && Succeeded(s.claims[f]) && s.claims[f].outcome.response == response
  }

  ghost predicate RowInv(s: System, k: string)
    requires Typed(s)
  {
    k in s.rows && s.rows[k].completed ==>
      exists f: nat :: Produced(s, k, s.rows[k].fp.requestHash, s.rows[k].response, f)
  }

  ghost predicate ReplyInv(s: System, r: nat)
    requires Typed(s) && r < |s.requests|
  {
    var q := s.requests[r];
    q.phase.Answered? && q.phase.reply.ReplayOf? ==>
      exists f: nat, response :: Produced(s, q.key, q.fp.requestHash, response, f) && Shows(q.phase.reply.response, response)
  }

  ghost predicate Inv(s: System) {
    && Typed(s)
    && (forall x: (nat, string) :: MapInv(s, x))
    && (forall f: nat :: f < |s.claims| ==> FlightInv(s, f))
    && (forall r: nat :: r < |s.requests| ==> RequestInv(s, r))
    && (forall k: string :: RowInv(s, k))
    && (forall r: nat :: r < |s.requests| ==> ReplyInv(s, r))
  }

  lemma ArriveTyped(s: System, e: Event)
    requires Inv(s) && Enabled(s, e) && e.Arrive?
    ensures Typed(Step(s, e))
  {
  }

  lemma CrashTyped(s: System, e: Event)
    requires Inv(s) && Enabled(s, e) && e.Crash?
    ensures Typed(Step(s, e))
  {
  }

  lemma StepTyped(s: System, e: Event)
    requires Inv(s) && Enabled(s, e)
    ensures Typed(Step(s, e))
  {
    if e.Arrive? {
      ArriveTyped(s, e);
    } else if e.Crash? {
      CrashTyped(s, e);
    }
  }

  predicate OfRequest(e: Event) {
    !e.Arrive? && !e.ArriveStoreError? && !e.Prune? && !e.Crash?
  }

  /** The facts about the acting request that every case below needs. */
  lemma Actor(s: System, e: Event)
    requires Inv(s) && Enabled(s, e)
    ensures OfRequest(e) ==> e.req < |s.requests| && RequestInv(s, e.req)
    ensures OfRequest(e) && HasFlight(s.requests[e.req].phase) ==> FlightInv(s, s.requests[e.req].phase.flight)
  {
  }

  lemma StepKeepsMap(s: System, e: Event, x: (nat, string))
    requires Inv(s) && Enabled(s, e) && Typed(Step(s, e))
    ensures MapInv(Step(s, e), x)
  {
    Actor(s, e);
    assert MapInv(s, x);
  }

  lemma ActorKeepsFlight(s: System, e: Event, f: nat)
    requires Inv(s) && Enabled(s, e) && OfRequest(e) && Typed(Step(s, e)) && f < |s.claims|
    ensures FlightInv(Step(s, e), f)
  {
    Actor(s, e);
    assert FlightInv(s, f);
  }

  lemma ArriveKeepsFlight(s: System, e: Event, f: nat)
    requires Inv(s) && Enabled(s, e) && e.Arrive? && Typed(Step(s, e)) && f < |Step(s, e).claims|
    ensures FlightInv(Step(s, e), f)
  {
    if f < |s.claims| {
      assert FlightInv(s, f);
    }
  }

  lemma CrashKeepsFlight(s: System, e: Event, f: nat)
    requires Inv(s) && Enabled(s, e) && e.Crash? && Typed(Step(s, e)) && f < |s.claims|
    ensures FlightInv(Step(s, e), f)
  {
    assert FlightInv(s, f);
    if !s.flights[f].done {
      assert RequestInv(s, s.claims[f].owner);
    }
  }

  lemma StepKeepsFlight(s: System, e: Event, f: nat)
    requires Inv(s) && Enabled(s, e) && Typed(Step(s, e)) && f < |Step(s, e).claims|
    ensures FlightInv(Step(s, e), f)
  {
    if OfRequest(e) {
      ActorKeepsFlight(s, e, f);
    } else if e.Arrive? {
      ArriveKeepsFlight(s, e, f);
    } else if e.Crash? {
      CrashKeepsFlight(s, e, f);
    } else {
      assert FlightInv(s, f);
    }
  }

  lemma ActingKeepsRequest(s: System, e: Event)
    requires Inv(s) && Enabled(s, e) && OfRequest(e) && Typed(Step(s, e)) && e.req < |s.requests|
    ensures RequestInv(Step(s, e), e.req)
  {
    Actor(s, e);
  }

  lemma BystanderKeepsRequest(s: System, e: Event, r: nat)
    requires Inv(s) && Enabled(s, e) && OfRequest(e) && Typed(Step(s, e)) && r < |s.requests| && r != e.req
    ensures RequestInv(Step(s, e), r)
  {
    Actor(s, e);
    assert RequestInv(s, r);
    assert Step(s, e).requests[r] == s.requests[r];
  }

  lemma ActorKeepsRequest(s: System, e: Event, r: nat)
    requires Inv(s) && Enabled(s, e) && OfRequest(e) && Typed(Step(s, e)) && r < |s.requests|
    ensures RequestInv(Step(s, e), r)
  {
    if r == e.req {
      ActingKeepsRequest(s, e);
    } else {
      BystanderKeepsRequest(s, e, r);
    }
  }

  lemma ArriveKeepsRequest(s: System, e: Event, r: nat)
    requires Inv(s) && Enabled(s, e) && e.Arrive? && Typed(Step(s, e)) && r < |Step(s, e).requests|
    ensures RequestInv(Step(s, e), r)
  {
    if r < |s.requests| {
      ArrivalLeavesRequest(s, e, r);
    } else {
      NewcomerInv(s, e);
    }
  }

  lemma ArrivalLeavesRequest(s: System, e: Event, r: nat)
    requires Inv(s) && Enabled(s, e) && e.Arrive? && Typed(Step(s, e)) && r < |s.requests|
    ensures RequestInv(Step(s, e), r)
  {
    assert RequestInv(s, r);
    assert Step(s, e).requests[r] == s.requests[r];
  }

  lemma NewcomerInv(s: System, e: Event)
    requires Inv(s) && Enabled(s, e) && e.Arrive? && Typed(Step(s, e)) && |Step(s, e).requests| == |s.requests| + 1
    ensures RequestInv(Step(s, e), |s.requests|)
  {
    assert MapInv(s, (e.replica, e.key));
  }

  lemma StepKeepsRequest(s: System, e: Event, r: nat)
    requires Inv(s) && Enabled(s, e) && Typed(Step(s, e)) && r < |Step(s, e).requests|
    ensures RequestInv(Step(s, e), r)
  {
    if OfRequest(e) {
      ActorKeepsRequest(s, e, r);
    } else if e.Arrive? {
      ArriveKeepsRequest(s, e, r);
    } else if r < |s.requests| {
      assert RequestInv(s, r);
    }
  }

  lemma StepKeepsProduct(s: System, e: Event, k: string, requestHash: string, response: Response, f: nat)
    requires Inv(s) && Enabled(s, e) && Typed(Step(s, e))
    requires Produced(s, k, requestHash, response, f)
    ensures Produced(Step(s, e), k, requestHash, response, f)
  {
    Actor(s, e);
  }

  lemma StepKeepsRow(s: System, e: Event, k: string)
    requires Inv(s) && Enabled(s, e) && Typed(Step(s, e))
    ensures RowInv(Step(s, e), k)
  {
    var s' := Step(s, e);
    Actor(s, e);
    assert RowInv(s, k);
    if k in s'.rows && s'.rows[k].completed {
      if k in s.rows && s.rows[k] == s'.rows[k] {
        var f: nat :| Produced(s, k, s.rows[k].fp.requestHash, s.rows[k].response, f);
        StepKeepsProduct(s, e, k, s.rows[k].fp.requestHash, s.rows[k].response, f);
      } else {
        assert Produced(s', k, s'.rows[k].fp.requestHash, s'.rows[k].response, s.requests[e.req].phase.flight);
      }
    }
  }

  /** A request that this step answers with a replay found it in the table or in a flight. */
  lemma NewReplay(s: System, e: Event, r: nat) returns (f: nat, response: Response)
    requires Inv(s) && Enabled(s, e) && r < |Step(s, e).requests|
    requires r < |s.requests| ==> !s.requests[r].phase.Answered?
    requires Step(s, e).requests[r].phase.Answered? && Step(s, e).requests[r].phase.reply.ReplayOf?
    ensures
      var q := Step(s, e).requests[r];
      Produced(s, q.key, q.fp.requestHash, response, f) && Shows(q.phase.reply.response, response)
  {
    var q := Step(s, e).requests[r];
    Actor(s, e);
    if e.Wake? {
      f := s.requests[r].phase.flight;
      response := s.claims[f].outcome.response;
    } else {
      assert RowInv(s, q.key);
      response := s.rows[q.key].response;
      var g: nat :| Produced(s, q.key, q.fp.requestHash, response, g);
      f := g;
    }
  }

  lemma AnsweredStays(s: System, e: Event, r: nat)
    requires Typed(s) && Enabled(s, e) && r < |s.requests| && s.requests[r].phase.Answered?
    ensures r < |Step(s, e).requests| && Step(s, e).requests[r] == s.requests[r]
  {
  }

  lemma StepKeepsReply(s: System, e: Event, r: nat)
    requires Inv(s) && Enabled(s, e) && Typed(Step(s, e)) && r < |Step(s, e).requests|
    ensures ReplyInv(Step(s, e), r)
  {
    var q := Step(s, e).requests[r];
    if q.phase.Answered? && q.phase.reply.ReplayOf? {
      var f: nat, response;
      if r < |s.requests| && s.requests[r].phase.Answered? {
        AnsweredStays(s, e, r);
        assert ReplyInv(s, r);
        f, response :| Produced(s, q.key, q.fp.requestHash, response, f) && Shows(q.phase.reply.response, response);
      } else {
        f, response := NewReplay(s, e, r);
      }
      StepKeepsProduct(s, e, q.key, q.fp.requestHash, response, f);
    }
  }

  lemma StepKeepsInv(s: System, e: Event)
    requires Inv(s) && Enabled(s, e)
    ensures Inv(Step(s, e))
  {
    var s' := Step(s, e);
    StepTyped(s, e);
    forall x: (nat, string) ensures MapInv(s', x) { StepKeepsMap(s, e, x); }
    forall f: nat | f < |s'.claims| ensures FlightInv(s', f) { StepKeepsFlight(s, e, f); }
    forall r: nat | r < |s'.requests| ensures RequestInv(s', r) { StepKeepsRequest(s, e, r); }
    forall k: string ensures RowInv(s', k) { StepKeepsRow(s, e, k); }
    forall r: nat | r < |s'.requests| ensures ReplyInv(s', r) { StepKeepsReply(s, e, r); }
  }

  // ----- every run -----

  ghost function After(ttl: Time, events: seq<Event>): Option<System> {
    if events == [] then Some(Init(ttl))
    else
      var before := After(ttl, events[..|events| - 1]);
      var e := events[|events| - 1];
      if before.Some? && Typed(before.value) && Enabled(before.value, e) then Some(Step(before.value, e)) else None
  }

  lemma {:induction false} RunKeepsInv(ttl: Time, events: seq<Event>)
    requires After(ttl, events).Some?
    ensures Inv(After(ttl, events).value)
    ensures After(ttl, events).value.ttl == ttl
  {
    if events != [] {
      RunKeepsInv(ttl, events[..|events| - 1]);
      StepKeepsInv(After(ttl, events[..|events| - 1]).value, events[|events| - 1]);
    }
  }

  /** On one replica at most one handler runs per scope key, whatever the other replicas, the
      clocks and the failures of the store do. */
  lemma AtMostOneExecutionPerReplica(ttl: Time, events: seq<Event>, r1: nat, r2: nat)
    requires After(ttl, events).Some?
    requires r1 < |After(ttl, events).value.requests| && r2 < |After(ttl, events).value.requests| && r1 != r2
    requires Executing(After(ttl, events).value.requests[r1].phase) && Executing(After(ttl, events).value.requests[r2].phase)
    requires After(ttl, events).value.requests[r1].replica == After(ttl, events).value.requests[r2].replica
    ensures After(ttl, events).value.requests[r1].key != After(ttl, events).value.requests[r2].key
  {
    var s := After(ttl, events).value;
    RunKeepsInv(ttl, events);
    assert RequestInv(s, r1) && RequestInv(s, r2);
    assert FlightInv(s, s.requests[r1].phase.flight) && FlightInv(s, s.requests[r2].phase.flight);
  }

  /** Every replayed answer, on whichever replica and through whichever path, is what a client may
      see of an execution of the same scope key and request hash that ended below 500. */
  lemma ReplaysAreFaithful(ttl: Time, events: seq<Event>, r: nat)
    requires After(ttl, events).Some? && Typed(After(ttl, events).value)
    requires r < |After(ttl, events).value.requests|
    requires After(ttl, events).value.requests[r].phase.Answered? && After(ttl, events).value.requests[r].phase.reply.ReplayOf?
    ensures
      var s := After(ttl, events).value;
      var q := s.requests[r];
      exists f: nat, response ::
        Produced(s, q.key, q.fp.requestHash, response, f) && Shows(q.phase.reply.response, response)
  {
    RunKeepsInv(ttl, events);
    assert ReplyInv(After(ttl, events).value, r);
  }

  predicate ArrivesWith(events: seq<Event>, i: nat, fp: Fingerprint) {
    i < |events| && (events[i].Arrive? || events[i].ArriveStoreError?) && events[i].fp == fp
  }

  ghost predicate FromArrival(events: seq<Event>, fp: Fingerprint) {
    exists i: nat :: ArrivesWith(events, i, fp)
  }

  lemma LongerRun(events: seq<Event>, fp: Fingerprint)
    requires events != [] && FromArrival(events[..|events| - 1], fp)
    ensures FromArrival(events, fp)
  {
    var i: nat :| ArrivesWith(events[..|events| - 1], i, fp);
    assert ArrivesWith(events, i, fp);
  }

  lemma StepFingerprint(s: System, e: Event, r: nat)
    requires Typed(s) && Enabled(s, e) && r < |Step(s, e).requests|
    ensures if r < |s.requests| then Step(s, e).requests[r].fp == s.requests[r].fp
            else (e.Arrive? || e.ArriveStoreError?) && Step(s, e).requests[r].fp == e.fp
  {
  }

  lemma StepFlightFingerprint(s: System, e: Event, f: nat)
    requires Typed(s) && Enabled(s, e) && f < |Step(s, e).flights|
    ensures if f < |s.flights| then Step(s, e).flights[f].fp == s.flights[f].fp
            else e.Arrive? && Step(s, e).flights[f].fp == e.fp
  {
  }

  lemma {:induction false} RequestsComeFromArrivals(ttl: Time, events: seq<Event>, r: nat)
    requires After(ttl, events).Some? && r < |After(ttl, events).value.requests|
    ensures FromArrival(events, After(ttl, events).value.requests[r].fp)
  {
    var before, e := events[..|events| - 1], events[|events| - 1];
    var s := After(ttl, before).value;
    StepFingerprint(s, e, r);
    if r < |s.requests| {
      RequestsComeFromArrivals(ttl, before, r);
      LongerRun(events, s.requests[r].fp);
    } else {
      assert ArrivesWith(events, |events| - 1, e.fp);
    }
  }

  lemma {:induction false} FlightsComeFromArrivals(ttl: Time, events: seq<Event>, f: nat)
    requires After(ttl, events).Some? && f < |After(ttl, events).value.flights|
    ensures FromArrival(events, After(ttl, events).value.flights[f].fp)
  {
    var before, e := events[..|events| - 1], events[|events| - 1];
    var s := After(ttl, before).value;
    StepFlightFingerprint(s, e, f);
    if f < |s.flights| {
      FlightsComeFromArrivals(ttl, before, f);
      LongerRun(events, s.flights[f].fp);
    } else {
      assert ArrivesWith(events, |events| - 1, e.fp);
    }
  }

  /** The request hash covers the method and the path: no two requests share it without them. */
  ghost predicate HashesIdentify(events: seq<Event>) {
    forall i: nat, j: nat, a, b :: ArrivesWith(events, i, a) && ArrivesWith(events, j, b) && a.requestHash == b.requestHash ==> a == b
  }

  /** With a hash that identifies requests, the replayed execution agrees on method and path too. */
  lemma ReplaysMatchTheRequest(ttl: Time, events: seq<Event>, r: nat) returns (f: nat)
    requires After(ttl, events).Some? && Typed(After(ttl, events).value) && HashesIdentify(events)
    requires r < |After(ttl, events).value.requests|
    requires After(ttl, events).value.requests[r].phase.Answered? && After(ttl, events).value.requests[r].phase.reply.ReplayOf?
    ensures
      var s := After(ttl, events).value;
      var q := s.requests[r];
      && f < |s.claims| && s.claims[f].key == q.key && s.flights[f].fp == q.fp
      && Succeeded(s.claims[f]) && Shows(q.phase.reply.response, s.claims[f].outcome.response)
  {
    var s := After(ttl, events).value;
    var q := s.requests[r];
    ReplaysAreFaithful(ttl, events, r);
    var g: nat, response :| Produced(s, q.key, q.fp.requestHash, response, g) && Shows(q.phase.reply.response, response);
    f := g;
    RequestsComeFromArrivals(ttl, events, r);
    FlightsComeFromArrivals(ttl, events, f);
    var i: nat :| ArrivesWith(events, i, q.fp);
    var j: nat :| ArrivesWith(events, j, s.flights[f].fp);
  }

  // ----- mutual exclusion across replicas -----

  function Min(a: Time, b: Time): Time {
    if a <= b then a else b
  }

  /** A step that never acts on a handler still running past its lease: a claim reads a clock
      below the lease and the expiry of every running execution of its key, a prune below every
      running execution's expiry. */
  ghost predicate Timely(s: System, e: Event) {
    match e
    case Arrive(_, key, _, now) =>
      forall r :: 0 <= r < |s.requests| && Executing(s.requests[r].phase) && s.requests[r].key == key ==>
        now < s.requests[r].now + Min(120, s.ttl)
    case Prune(now) =>
      forall r :: 0 <= r < |s.requests| && Executing(s.requests[r].phase) ==> now < s.requests[r].now + s.ttl
    case _ => true
  }

  ghost predicate TimelyRun(ttl: Time, events: seq<Event>)
    requires After(ttl, events).Some?
  {
    events == [] ||
    (Timely(After(ttl, events[..|events| - 1]).value, events[|events| - 1]) && TimelyRun(ttl, events[..|events| - 1]))
  }

  /** A running execution still holds the row it inserted. */
  ghost predicate HoldsRow(s: System, r: nat)
    requires r < |s.requests|
  {
    var q := s.requests[r];
    Executing(q.phase) ==>
      && q.key in s.rows
      && s.rows[q.key].fp == q.fp && s.rows[q.key].createdAt == q.now && s.rows[q.key].expiresAt == q.now + s.ttl
      && (!q.phase.Published? ==> !s.rows[q.key].completed)
  }

  ghost predicate Exclusive(s: System, r1: nat, r2: nat)
    requires r1 < |s.requests| && r2 < |s.requests|
  {
    r1 != r2 && Executing(s.requests[r1].phase) && Executing(s.requests[r2].phase) ==> s.requests[r1].key != s.requests[r2].key
  }

  ghost predicate ClusterInv(s: System) {
    && (forall r: nat :: r < |s.requests| ==> HoldsRow(s, r))
    && (forall r1: nat, r2: nat :: r1 < |s.requests| && r2 < |s.requests| ==> Exclusive(s, r1, r2))
  }

  /** A timely arrival finds the row of a running execution neither expired nor stale. */
  lemma RunningBlocksClaim(s: System, e: Event, r: nat)
    requires Inv(s) && Enabled(s, e) && Timely(s, e) && e.Arrive?
    requires r < |s.requests| && HoldsRow(s, r) && Executing(s.requests[r].phase) && s.requests[r].key == e.key
    ensures Step(s, e).claims == s.claims && Step(s, e).rows == s.rows
    ensures !Executing(Step(s, e).requests[|s.requests|].phase)
  {
  }

  lemma TimelyArrivalKeepsRow(s: System, e: Event, r: nat)
    requires Inv(s) && Enabled(s, e) && Timely(s, e) && e.Arrive? && r < |s.requests| && HoldsRow(s, r)
    ensures HoldsRow(Step(s, e), r)
  {
    if Executing(s.requests[r].phase) && s.requests[r].key == e.key {
      RunningBlocksClaim(s, e, r);
    }
  }

  lemma ActorKeepsRow(s: System, e: Event, r: nat)
    requires Inv(s) && Enabled(s, e) && OfRequest(e) && r < |s.requests| && HoldsRow(s, r)
    requires e.req < |s.requests| && Exclusive(s, r, e.req)
    ensures HoldsRow(Step(s, e), r)
  {
    Actor(s, e);
  }

  lemma TimelyStepKeepsRow(s: System, e: Event, r: nat)
    requires Inv(s) && Enabled(s, e) && Timely(s, e) && ClusterInv(s) && r < |Step(s, e).requests|
    ensures HoldsRow(Step(s, e), r)
  {
    if r < |s.requests| {
      assert HoldsRow(s, r);
      if OfRequest(e) {
        ExclusiveOf(s, r, e.req);
        ActorKeepsRow(s, e, r);
      } else if e.Arrive? {
        TimelyArrivalKeepsRow(s, e, r);
      }
    }
  }

  /** No step but the arrival of its own request makes a request execute. */
  lemma StepExecutes(s: System, e: Event, r: nat)
    requires Typed(s) && Enabled(s, e) && r < |Step(s, e).requests| && Executing(Step(s, e).requests[r].phase)
    ensures if r < |s.requests| then Executing(s.requests[r].phase) && Step(s, e).requests[r].key == s.requests[r].key
            else e.Arrive? && r == |s.requests| && Step(s, e).requests[r].key == e.key
  {
  }

  lemma ExclusiveOf(s: System, r1: nat, r2: nat)
    requires ClusterInv(s) && r1 < |s.requests| && r2 < |s.requests|
    ensures Exclusive(s, r1, r2)
  {
  }

  lemma NewcomerIsExclusive(s: System, e: Event, r: nat)
    requires Inv(s) && Enabled(s, e) && Timely(s, e) && ClusterInv(s) && e.Arrive? && r < |s.requests|
    requires Executing(s.requests[r].phase) && Executing(Step(s, e).requests[|s.requests|].phase)
    ensures s.requests[r].key != e.key
  {
    assert HoldsRow(s, r);
    if s.requests[r].key == e.key {
      RunningBlocksClaim(s, e, r);
    }
  }

  lemma TimelyStepKeepsExclusion(s: System, e: Event, r1: nat, r2: nat)
    requires Inv(s) && Enabled(s, e) && Timely(s, e) && ClusterInv(s)
    requires r1 < |Step(s, e).requests| && r2 < |Step(s, e).requests|
    ensures Exclusive(Step(s, e), r1, r2)
  {
    var s' := Step(s, e);
    if r1 != r2 && Executing(s'.requests[r1].phase) && Executing(s'.requests[r2].phase) {
      StepExecutes(s, e, r1);
      StepExecutes(s, e, r2);
      if r1 < |s.requests| && r2 < |s.requests| {
        ExclusiveOf(s, r1, r2);
      } else {
        NewcomerIsExclusive(s, e, if r1 < |s.requests| then r1 else r2);
      }
    }
  }

  lemma {:induction false} TimelyRunKeepsClusterInv(ttl: Time, events: seq<Event>)
    requires After(ttl, events).Some? && TimelyRun(ttl, events)
    ensures ClusterInv(After(ttl, events).value)
  {
    if events != [] {
      var s, e, s' := After(ttl, events[..|events| - 1]).value, events[|events| - 1], After(ttl, events).value;
      RunKeepsInv(ttl, events[..|events| - 1]);
      TimelyRunKeepsClusterInv(ttl, events[..|events| - 1]);
      forall r: nat | r < |s'.requests| ensures HoldsRow(s', r) { TimelyStepKeepsRow(s, e, r); }
      forall r1: nat, r2: nat | r1 < |s'.requests| && r2 < |s'.requests| ensures Exclusive(s', r1, r2) {
        TimelyStepKeepsExclusion(s, e, r1, r2);
      }
    }
  }

  /** While no execution outlives its lease, at most one handler runs per scope key in the whole
      cluster, through crashes and through failed completions and deletions. */
  lemma AtMostOneExecution(ttl: Time, events: seq<Event>, r1: nat, r2: nat)
    requires After(ttl, events).Some? && TimelyRun(ttl, events)
    requires r1 < |After(ttl, events).value.requests| && r2 < |After(ttl, events).value.requests| && r1 != r2
    requires Executing(After(ttl, events).value.requests[r1].phase) && Executing(After(ttl, events).value.requests[r2].phase)
    ensures After(ttl, events).value.requests[r1].key != After(ttl, events).value.requests[r2].key
  {
    TimelyRunKeepsClusterInv(ttl, events);
    assert Exclusive(After(ttl, events).value, r1, r2);
  }

  lemma MapEntryIsRunning(s: System, x: (nat, string)) returns (r: nat)
    requires Inv(s) && x in s.inFlight
    ensures r < |s.requests| && Executing(s.requests[r].phase) && s.requests[r].replica == x.0 && s.requests[r].key == x.1
  {
    var f := s.inFlight[x];
    assert MapInv(s, x) && FlightInv(s, f);
    r := s.claims[f].owner;
    assert RequestInv(s, r);
  }

  // ----- the retention window across replicas -----

  predicate Later(s: System, f: nat, g: nat) {
    f < g < |s.claims| && s.claims[g].key == s.claims[f].key
  }

  /** Clock readings of arrivals and prunes do not decrease, and every completion reaches the table. */
  predicate Orderly(events: seq<Event>) {
    && (forall i, j :: 0 <= i < j < |events| && ReadsClock(events[i]) && ReadsClock(events[j]) ==> events[i].now <= events[j].now)
    && (forall i :: 0 <= i < |events| && events[i].PublishRecord? ==> events[i].stored)
  }

  predicate ReadsClock(e: Event) {
    e.Arrive? || e.Prune?
  }

  predicate PrunedAfter(events: seq<Event>, i: nat, t: Time) {
    i < |events| && events[i].Prune? && events[i].now >= t
  }

  ghost predicate PrunedPast(events: seq<Event>, t: Time) {
    exists i: nat :: PrunedAfter(events, i, t)
  }

  /** An open flight is the newest claim of its key. */
  ghost predicate OpenIsNewest(s: System, f: nat)
    requires Typed(s) && f < |s.claims|
  {
    !s.flights[f].done ==> forall g :: !Later(s, f, g)
  }

  /** The newest claim of a key, once published, is in the table until a prune past its expiry. */
  ghost predicate NewestIsKept(events: seq<Event>, s: System, f: nat)
    requires Typed(s) && f < |s.claims|
  {
    s.flights[f].rec.Some? && (forall g :: !Later(s, f, g)) ==>
      Kept(s, f) || PrunedPast(events, s.claims[f].at + s.ttl)
  }

  /** A later claim after the step was one before it, or is the claim the step made. */
  lemma StepLater(s: System, e: Event, f: nat, g: nat)
    requires Typed(s) && Enabled(s, e) && f < |s.claims| && Later(Step(s, e), f, g)
    ensures Later(s, f, g) || (g == |s.claims| && e.Arrive? && e.key == s.claims[f].key)
  {
    StepClaims(s, e, f);
    StepClaims(s, e, g);
  }

  lemma OpenBlocksClaim(s: System, e: Event, f: nat)
    requires Inv(s) && Enabled(s, e) && Timely(s, e) && ClusterInv(s) && f < |s.claims| && !s.flights[f].done
    requires e.Arrive? && e.key == s.claims[f].key
    ensures |Step(s, e).claims| == |s.claims|
  {
    var owner := s.claims[f].owner;
    assert FlightInv(s, f) && RequestInv(s, owner) && HoldsRow(s, owner);
    RunningBlocksClaim(s, e, owner);
  }

  lemma DoneStays(s: System, e: Event, f: nat)
    requires Typed(s) && Enabled(s, e) && f < |s.flights| && s.flights[f].done
    ensures f < |Step(s, e).flights| && Step(s, e).flights[f].done
  {
  }

  lemma TimelyStepKeepsOrder(s: System, e: Event, f: nat)
    requires Inv(s) && Enabled(s, e) && Timely(s, e) && ClusterInv(s) && Typed(Step(s, e)) && f < |Step(s, e).claims|
    requires f < |s.claims| ==> OpenIsNewest(s, f)
    ensures OpenIsNewest(Step(s, e), f)
  {
    var s' := Step(s, e);
    if g :| Later(s', f, g) {
      StepClaims(s, e, g);
      if f < |s.claims| && !s.flights[f].done {
        StepLater(s, e, f, g);
        OpenBlocksClaim(s, e, f);
      } else if f < |s.claims| {
        DoneStays(s, e, f);
      }
    }
  }

  lemma {:induction false} TimelyRunKeepsOrder(ttl: Time, events: seq<Event>, f: nat)
    requires After(ttl, events).Some? && TimelyRun(ttl, events) && Typed(After(ttl, events).value)
    requires f < |After(ttl, events).value.claims|
    ensures OpenIsNewest(After(ttl, events).value, f)
    decreases |events|
  {
    var s, e := After(ttl, events[..|events| - 1]).value, events[|events| - 1];
    RunKeepsInv(ttl, events[..|events| - 1]);
    TimelyRunKeepsClusterInv(ttl, events[..|events| - 1]);
    if f < |s.claims| {
      TimelyRunKeepsOrder(ttl, events[..|events| - 1], f);
    }
    TimelyStepKeepsOrder(s, e, f);
  }

  ghost predicate Kept(s: System, f: nat)
    requires f < |s.claims|
  {
    var k := s.claims[f].key;
    k in s.rows && s.rows[k].completed && s.rows[k].expiresAt == s.claims[f].at + s.ttl
  }

  lemma ArrivalKeepsKept(s: System, e: Event, f: nat)
    requires Inv(s) && Enabled(s, e) && e.Arrive? && f < |s.claims|
    requires forall g :: !Later(Step(s, e), f, g)
    requires s.flights[f].rec.Some? ==> Kept(s, f)
    requires Step(s, e).flights[f].rec.Some?
    ensures Kept(Step(s, e), f)
  {
    if |Step(s, e).claims| > |s.claims| && e.key == s.claims[f].key {
      LastIsLater(Step(s, e), f);
    }
  }

  lemma ActorKeepsKept(s: System, e: Event, f: nat)
    requires Inv(s) && ClusterInv(s) && Enabled(s, e) && OfRequest(e) && f < |s.claims|
    requires OpenAreNewest(s)
    requires forall g :: !Later(s, f, g)
    requires e.PublishRecord? ==> e.stored
    requires s.flights[f].rec.Some? ==> Kept(s, f)
    requires Step(s, e).flights[f].rec.Some?
    ensures Kept(Step(s, e), f)
  {
    Actor(s, e);
    if Executing(s.requests[e.req].phase) && s.requests[e.req].key == s.claims[f].key {
      var h := s.requests[e.req].phase.flight;
      assert HoldsRow(s, e.req) && OpenIsNewest(s, h);
      OneIsLater(s, f, h);
    }
  }

  /** The only steps that can disturb a key's newest record are a claim and a late prune. */
  lemma StepKeepsNewest(s: System, e: Event, f: nat)
    requires Inv(s) && ClusterInv(s) && Enabled(s, e) && Typed(Step(s, e)) && f < |s.claims|
    requires OpenAreNewest(s)
    requires forall g :: !Later(Step(s, e), f, g)
    requires e.PublishRecord? ==> e.stored
    requires s.flights[f].rec.Some? ==> Kept(s, f)
    requires Step(s, e).flights[f].rec.Some?
    ensures Kept(Step(s, e), f) || (e.Prune? && e.now >= s.claims[f].at + s.ttl)
  {
    if e.Arrive? {
      ArrivalKeepsKept(s, e, f);
    } else if OfRequest(e) {
      assert forall g :: Later(s, f, g) ==> Later(Step(s, e), f, g);
      ActorKeepsKept(s, e, f);
    }
  }

  lemma LastIsLater(s: System, f: nat)
    requires f < |s.claims| - 1 && s.claims[|s.claims| - 1].key == s.claims[f].key
    ensures Later(s, f, |s.claims| - 1)
  {
  }

  lemma ExtendKeepsNewest(before: seq<Event>, s: System, e: Event, f: nat)
    requires Inv(s) && ClusterInv(s) && Enabled(s, e) && Typed(Step(s, e)) && f < |Step(s, e).claims|
    requires OpenAreNewest(s)
    requires e.PublishRecord? ==> e.stored
    requires f < |s.claims| ==> NewestIsKept(before, s, f)
    ensures NewestIsKept(before + [e], Step(s, e), f)
  {
    var s' := Step(s, e);
    if f < |s.claims| && s'.flights[f].rec.Some? && (forall g :: !Later(s', f, g)) {
      var expiry := s.claims[f].at + s.ttl;
      assert s'.claims[f].at + s'.ttl == expiry;
      assert forall g :: Later(s, f, g) ==> Later(s', f, g);
      if PrunedPast(before, expiry) {
        var i: nat :| PrunedAfter(before, i, expiry);
        assert PrunedAfter(before + [e], i, expiry);
      } else {
        StepKeepsNewest(s, e, f);
        assert e.Prune? && e.now >= expiry ==> PrunedAfter(before + [e], |before|, expiry);
      }
    }
  }

  ghost predicate OpenAreNewest(s: System)
    requires Typed(s)
  {
    forall h: nat {:trigger OpenIsNewest(s, h)} :: h < |s.claims| ==> OpenIsNewest(s, h)
  }

  lemma TimelyRunKeepsOrders(ttl: Time, events: seq<Event>)
    requires After(ttl, events).Some? && TimelyRun(ttl, events) && Typed(After(ttl, events).value)
    ensures OpenAreNewest(After(ttl, events).value)
  {
    forall h: nat | h < |After(ttl, events).value.claims| ensures OpenIsNewest(After(ttl, events).value, h) {
      TimelyRunKeepsOrder(ttl, events, h);
    }
  }

  lemma OrderlyPrefix(events: seq<Event>)
    requires events != [] && Orderly(events)
    ensures Orderly(events[..|events| - 1])
    ensures events[|events| - 1].PublishRecord? ==> events[|events| - 1].stored
    ensures ReadsClock(events[|events| - 1]) ==> ClocksBefore(events[..|events| - 1], events[|events| - 1].now)
  {
  }

  predicate ClocksBefore(events: seq<Event>, now: Time) {
    forall i :: 0 <= i < |events| && ReadsClock(events[i]) ==> events[i].now <= now
  }

  lemma {:induction false} OrderlyRunKeepsNewest(ttl: Time, events: seq<Event>, f: nat)
    requires After(ttl, events).Some? && TimelyRun(ttl, events) && Orderly(events) && Typed(After(ttl, events).value)
    requires f < |After(ttl, events).value.claims|
    ensures NewestIsKept(events, After(ttl, events).value, f)
    decreases |events|
  {
    var before, e := events[..|events| - 1], events[|events| - 1];
    var s := After(ttl, before).value;
    OrderlyPrefix(events);
    RunKeepsInv(ttl, before);
    TimelyRunKeepsClusterInv(ttl, before);
    TimelyRunKeepsOrders(ttl, before);
    if f < |s.claims| {
      OrderlyRunKeepsNewest(ttl, before, f);
    }
    ExtendKeepsNewest(before, s, e, f);
    assert before + [e] == events;
  }

  lemma OneIsLater(s: System, f: nat, g: nat)
    requires f < |s.claims| && g < |s.claims| && s.claims[f].key == s.claims[g].key
    ensures f == g || Later(s, f, g) || Later(s, g, f)
  {
  }

  predicate ArrivalOf(events: seq<Event>, i: nat, c: ClaimEvent) {
    i < |events| && events[i].Arrive? && events[i].key == c.key && events[i].now == c.at
  }

  lemma StepClaims(s: System, e: Event, f: nat)
    requires Typed(s) && Enabled(s, e) && f < |Step(s, e).claims|
    ensures f < |s.claims| ==> Step(s, e).claims[f].key == s.claims[f].key && Step(s, e).claims[f].at == s.claims[f].at
    ensures f >= |s.claims| ==> e.Arrive? && e.key == Step(s, e).claims[f].key && e.now == Step(s, e).claims[f].at
  {
  }

  lemma {:induction false} ClaimsComeFromArrivals(ttl: Time, events: seq<Event>, f: nat)
    requires After(ttl, events).Some? && f < |After(ttl, events).value.claims|
    ensures exists i: nat :: ArrivalOf(events, i, After(ttl, events).value.claims[f])
    decreases |events|
  {
    var before := events[..|events| - 1];
    var s := After(ttl, before).value;
    StepClaims(s, events[|events| - 1], f);
    if f < |s.claims| {
      ClaimsComeFromArrivals(ttl, before, f);
      var i: nat :| ArrivalOf(before, i, s.claims[f]);
      assert ArrivalOf(events, i, After(ttl, events).value.claims[f]);
    } else {
      assert ArrivalOf(events, |events| - 1, After(ttl, events).value.claims[f]);
    }
  }

  /** A claim that succeeds over a key's newest published execution comes after its expiry. */
  lemma ClaimPastNewest(before: seq<Event>, s: System, e: Event, f: nat)
    requires Inv(s) && Enabled(s, e) && f < |s.claims| && NewestIsKept(before, s, f)
    requires s.flights[f].rec.Some? && (forall g :: !Later(s, f, g))
    requires e.Arrive? && e.key == s.claims[f].key && |Step(s, e).claims| > |s.claims|
    requires ClocksBefore(before, e.now)
    ensures e.now >= s.claims[f].at + s.ttl
  {
    if PrunedPast(before, s.claims[f].at + s.ttl) {
      var t := s.claims[f].at + s.ttl;
      var i: nat :| PrunedAfter(before, i, t);
    }
  }

  /** An execution that publishes in this step is still the newest claim of its key. */
  lemma PublisherIsNewest(s: System, e: Event, f: nat, g: nat)
    requires Inv(s) && Enabled(s, e) && Later(s, f, g) && OpenIsNewest(s, f)
    requires Step(s, e).flights[f].rec.Some?
    ensures s.flights[f].rec.Some?
  {
    Actor(s, e);
  }

  /** A published execution keeps its key for a full retention window in the whole cluster: any
      later execution of the key was claimed at least one TTL after it. */
  lemma {:induction false} PublishedHoldsTheWindow(ttl: Time, events: seq<Event>, f: nat, g: nat)
    requires After(ttl, events).Some? && TimelyRun(ttl, events) && Orderly(events)
    requires Typed(After(ttl, events).value) && Later(After(ttl, events).value, f, g)
    requires After(ttl, events).value.flights[f].rec.Some?
    ensures After(ttl, events).value.claims[g].at >= After(ttl, events).value.claims[f].at + ttl
    decreases |events|
  {
    var before, e := events[..|events| - 1], events[|events| - 1];
    var s := After(ttl, before).value;
    RunKeepsInv(ttl, before);
    OrderlyPrefix(events);
    StepClaims(s, e, f);
    StepClaims(s, e, g);
    if g < |s.claims| {
      assert Later(s, f, g);
      TimelyRunKeepsOrder(ttl, before, f);
      PublisherIsNewest(s, e, f, g);
      PublishedHoldsTheWindow(ttl, before, f, g);
    } else if h: nat :| Later(s, f, h) {
      PublishedHoldsTheWindow(ttl, before, f, h);
      ClaimsComeFromArrivals(ttl, before, h);
      var i: nat :| ArrivalOf(before, i, s.claims[h]);
      assert ReadsClock(before[i]);
    } else {
      OrderlyRunKeepsNewest(ttl, before, f);
      ClaimPastNewest(before, s, e, f);
    }
  }

  // ----- exactly when an arrival breaks the window -----

  ghost predicate Newest(s: System, h: nat) {
    h < |s.claims| && forall g :: !Later(s, h, g)
  }

  /** Claim `h` of key `k` is the newest one and was made when the row was created. */
  ghost predicate CreatedBy(s: System, k: string, row: Record, h: nat) {
    Newest(s, h) && s.claims[h].key == k && row.createdAt == s.claims[h].at
  }

  /** The row expires with claim `g` of key `k`. */
  predicate ExpiresWith(s: System, k: string, row: Record, g: nat) {
    g < |s.claims| && s.claims[g].key == k && row.expiresAt == s.claims[g].at + s.ttl
  }

  /** A row is the one its key's newest claim inserted, with the expiry of some claim of the key. */
  ghost predicate RowOrigin(s: System, k: string) {
    k in s.rows ==> (exists h: nat :: CreatedBy(s, k, s.rows[k], h)) && (exists g: nat :: ExpiresWith(s, k, s.rows[k], g))
  }

  lemma ClaimedRow(s: System, e: Event)
    requires Inv(s) && Enabled(s, e) && e.Arrive? && |Step(s, e).claims| > |s.claims|
    ensures Step(s, e).rows == s.rows[e.key := Record(e.fp, EMPTY_RESPONSE, false, e.now, e.now + s.ttl)]
    ensures |Step(s, e).claims| == |s.claims| + 1 && Step(s, e).ttl == s.ttl
  {
  }

  /** A row that was there before the step keeps its creation time, and its expiry or gets that of
      the publishing claim. */
  lemma StepRow(s: System, e: Event, k: string)
    requires Inv(s) && Enabled(s, e) && k in Step(s, e).rows
    requires !(e.Arrive? && e.key == k && |Step(s, e).claims| > |s.claims|)
    ensures k in s.rows && Step(s, e).rows[k].createdAt == s.rows[k].createdAt && Step(s, e).ttl == s.ttl
    ensures Step(s, e).rows[k].expiresAt == s.rows[k].expiresAt || exists g: nat :: ExpiresWith(s, k, Step(s, e).rows[k], g)
  {
    Actor(s, e);
    if e.PublishRecord? && Step(s, e).rows[k] != s.rows[k] {
      assert ExpiresWith(s, k, Step(s, e).rows[k], s.requests[e.req].phase.flight);
    }
  }

  lemma StepKeepsExpiry(s: System, e: Event, k: string, row: Record, g: nat)
    requires Inv(s) && Enabled(s, e) && ExpiresWith(s, k, row, g)
    ensures ExpiresWith(Step(s, e), k, row, g)
  {
    StepClaims(s, e, g);
    TtlStays(s, e);
  }

  lemma TtlStays(s: System, e: Event)
    requires Typed(s) && Enabled(s, e)
    ensures Step(s, e).ttl == s.ttl && |Step(s, e).claims| >= |s.claims|
  {
  }

  lemma StepKeepsOrigin(s: System, e: Event, k: string)
    requires Inv(s) && Enabled(s, e) && RowOrigin(s, k)
    ensures RowOrigin(Step(s, e), k)
  {
    var s' := Step(s, e);
    if k in s'.rows {
      if e.Arrive? && e.key == k && |s'.claims| > |s.claims| {
        ClaimedRow(s, e);
        StepClaims(s, e, |s.claims|);
        assert CreatedBy(s', k, s'.rows[k], |s.claims|) && ExpiresWith(s', k, s'.rows[k], |s.claims|);
      } else {
        StepRow(s, e, k);
        var h: nat :| CreatedBy(s, k, s.rows[k], h);
        StepKeepsCreator(s, e, k, h);
        var g: nat :| ExpiresWith(s, k, s'.rows[k], g);
        StepKeepsExpiry(s, e, k, s'.rows[k], g);
      }
    }
  }

  lemma StepKeepsCreator(s: System, e: Event, k: string, h: nat)
    requires Inv(s) && Enabled(s, e) && k in s.rows && CreatedBy(s, k, s.rows[k], h)
    requires k in Step(s, e).rows && Step(s, e).rows[k].createdAt == s.rows[k].createdAt
    requires !(e.Arrive? && e.key == k && |Step(s, e).claims| > |s.claims|)
    ensures CreatedBy(Step(s, e), k, Step(s, e).rows[k], h)
  {
    TtlStays(s, e);
    StepClaims(s, e, h);
    forall g ensures !Later(Step(s, e), h, g) {
      if Later(Step(s, e), h, g) {
        StepLater(s, e, h, g);
      }
    }
  }

  lemma {:induction false} RunKeepsOrigin(ttl: Time, events: seq<Event>, k: string)
    requires After(ttl, events).Some?
    ensures RowOrigin(After(ttl, events).value, k)
  {
    if events != [] {
      RunKeepsInv(ttl, events[..|events| - 1]);
      RunKeepsOrigin(ttl, events[..|events| - 1], k);
      StepKeepsOrigin(After(ttl, events[..|events| - 1]).value, events[|events| - 1], k);
    }
  }

  /** A handler for the key runs on the replica. */
  ghost predicate RunsOn(s: System, replica: nat, key: string) {
    exists r: nat :: r < |s.requests| && ExecutesOn(s.requests[r], replica, key)
  }

  predicate ExecutesOn(q: Request, replica: nat, key: string) {
    Executing(q.phase) && q.replica == replica && q.key == key
  }

  lemma RunsOnIff(s: System, replica: nat, key: string)
    requires Inv(s)
    ensures RunsOn(s, replica, key) <==> (replica, key) in s.inFlight
  {
    if (replica, key) in s.inFlight {
      var r := MapEntryIsRunning(s, (replica, key));
      assert ExecutesOn(s.requests[r], replica, key);
    } else if r: nat :| r < |s.requests| && ExecutesOn(s.requests[r], replica, key) {
      assert RequestInv(s, r) && FlightInv(s, s.requests[r].phase.flight);
    }
  }

  /** The row of a key gives way to a claim at `now`: it has the expiry of a claim of the key and
      has reached it, or it is unfinished and the newest claim of the key is older than the lease. */
  ghost predicate RowYields(s: System, k: string, now: Time)
    requires k in s.rows
  {
    || (exists g: nat :: ExpiresWith(s, k, s.rows[k], g) && s.claims[g].at + s.ttl <= now)
    || (!s.rows[k].completed && exists h: nat :: CreatedBy(s, k, s.rows[k], h) && s.claims[h].at + 120 <= now)
  }

  lemma SupersededIff(s: System, k: string, now: Time)
    requires k in s.rows && RowOrigin(s, k)
    ensures Superseded(s.rows[k], now) <==> RowYields(s, k, now)
  {
    var h: nat :| CreatedBy(s, k, s.rows[k], h);
    var g: nat :| ExpiresWith(s, k, s.rows[k], g);
  }

  /** In every run, with no condition on clocks, handlers or lost writes: a request executes exactly
      when no handler for its key runs on its replica and the table has no row for the key or one
      that gives way. */
  lemma ExecutesIff(ttl: Time, events: seq<Event>, replica: nat, key: string, fp: Fingerprint, now: Time)
    requires After(ttl, events).Some? && Typed(After(ttl, events).value)
    ensures
      var s := After(ttl, events).value;
      Executing(Step(s, Arrive(replica, key, fp, now)).requests[|s.requests|].phase) <==>
      !RunsOn(s, replica, key) && (key in s.rows ==> RowYields(s, key, now))
  {
    var s := After(ttl, events).value;
    RunKeepsInv(ttl, events);
    RunKeepsOrigin(ttl, events, key);
    RunsOnIff(s, replica, key);
    StartsIff(s, replica, key, fp, now);
    if key in s.rows {
      SupersededIff(s, key, now);
    }
  }

  /** With a handler running, a request for its key on another replica starts a second one exactly
      when none runs there and the row of the key is gone or gives way. */
  lemma SecondExecutionIff(ttl: Time, events: seq<Event>, r: nat, replica: nat, fp: Fingerprint, now: Time)
    requires After(ttl, events).Some? && Typed(After(ttl, events).value) && r < |After(ttl, events).value.requests|
    requires Executing(After(ttl, events).value.requests[r].phase) && replica != After(ttl, events).value.requests[r].replica
    ensures
      var s := After(ttl, events).value;
      var k := s.requests[r].key;
      var s' := Step(s, Arrive(replica, k, fp, now));
      && ExecutesOn(s'.requests[r], s.requests[r].replica, k)
      && (ExecutesOn(s'.requests[|s.requests|], replica, k) <==> !RunsOn(s, replica, k) && (k in s.rows ==> RowYields(s, k, now)))
  {
    var s := After(ttl, events).value;
    var k := s.requests[r].key;
    ExecutesIff(ttl, events, replica, k, fp, now);
    ArrivalAppends(s, replica, k, fp, now);
  }

  lemma ArrivalAppends(s: System, replica: nat, key: string, fp: Fingerprint, now: Time)
    requires Typed(s)
    ensures
      var rows := Step(s, Arrive(replica, key, fp, now)).requests;
      && |rows| == |s.requests| + 1 && rows[..|s.requests|] == s.requests
      && rows[|s.requests|].replica == replica && rows[|s.requests|].key == key && rows[|s.requests|].now == now
  {
  }

  /** While no handler has outlived its lease, the row is the running handler's own: the second one
      starts exactly when the clock has passed the lease or the expiry, and once the answer is in
      the table, the expiry. */
  lemma SecondExecutionIffLeaseOver(ttl: Time, events: seq<Event>, r: nat, replica: nat, fp: Fingerprint, now: Time)
    requires After(ttl, events).Some? && TimelyRun(ttl, events) && Typed(After(ttl, events).value)
    requires r < |After(ttl, events).value.requests| && Executing(After(ttl, events).value.requests[r].phase)
    requires replica != After(ttl, events).value.requests[r].replica
    ensures
      var s := After(ttl, events).value;
      var q := s.requests[r];
      var s' := Step(s, Arrive(replica, q.key, fp, now));
      && q.key in s.rows
      && (Executing(s'.requests[|s.requests|].phase) <==>
          now >= q.now + (if s.rows[q.key].completed then ttl else Min(120, ttl)))
  {
    var s := After(ttl, events).value;
    var k := s.requests[r].key;
    RunKeepsInv(ttl, events);
    TimelyRunKeepsClusterInv(ttl, events);
    assert HoldsRow(s, r);
    StartsIff(s, replica, k, fp, now);
    if (replica, k) in s.inFlight {
      var other := MapEntryIsRunning(s, (replica, k));
      ExclusiveOf(s, r, other);
    }
  }

  lemma Extend(ttl: Time, events: seq<Event>, e: Event) returns (longer: seq<Event>)
    requires After(ttl, events).Some? && Typed(After(ttl, events).value) && Enabled(After(ttl, events).value, e)
    ensures longer == events + [e] && After(ttl, longer) == Some(Step(After(ttl, events).value, e)) && Typed(After(ttl, longer).value)
  {
    longer := events + [e];
    assert longer[..|longer| - 1] == events;
    RunKeepsInv(ttl, longer);
  }

  /** Two replicas execute the same request when the second one arrives past the lease. */
  lemma TwoReplicasCanExecute(ttl: Time, key: string, fp: Fingerprint, now: Time) returns (events: seq<Event>)
    requires ttl > 120 && now >= 120
    ensures After(ttl, events).Some? && Typed(After(ttl, events).value)
    ensures After(ttl, events).value.requests == [Request(0, key, fp, 0, Running(0)), Request(1, key, fp, now, Running(1))]
    ensures After(ttl, events).value.rows == map[key := Record(fp, EMPTY_RESPONSE, false, now, now + ttl)]
    ensures After(ttl, events).value.inFlight == map[(0, key) := 0, (1, key) := 1]
  {
    assert After(ttl, []) == Some(Init(ttl)) && Typed(Init(ttl));
    events := Extend(ttl, [], Arrive(0, key, fp, 0));
    events := Extend(ttl, events, Arrive(1, key, fp, now));
  }

  // ----- what every request is answered -----

  /** What the table answers a request at `now`: nothing, a conflict, the stored answer, or that
      another execution is in progress. */
  ghost predicate TableAnswers(rows: Table, key: string, fp: Fingerprint, phase: Phase)
    requires key in rows
  {
    if rows[key].fp != fp then phase == Answered(ConflictReply)
    else if !rows[key].completed then phase == Polling
    else phase.Answered? && phase.reply.ReplayOf? && Shows(phase.reply.response, rows[key].response)
  }

  /** In every run: a request waits for a handler that runs the same request on its replica, a
      different one is a conflict; otherwise it executes when the row is gone or gives way, and else
      the table answers. */
  lemma ArrivalIsAnswered(ttl: Time, events: seq<Event>, replica: nat, key: string, fp: Fingerprint, now: Time)
    requires After(ttl, events).Some? && Typed(After(ttl, events).value)
    ensures
      var s := After(ttl, events).value;
      var phase := Step(s, Arrive(replica, key, fp, now)).requests[|s.requests|].phase;
      && (forall r: nat :: r < |s.requests| && ExecutesOn(s.requests[r], replica, key) ==>
            phase == if s.requests[r].fp == fp then Waiting(s.requests[r].phase.flight) else Answered(ConflictReply))
      && (!RunsOn(s, replica, key) ==>
            if key in s.rows && !RowYields(s, key, now) then TableAnswers(s.rows, key, fp, phase)
            else phase == Running(|s.claims|))
  {
    var s := After(ttl, events).value;
    RunKeepsInv(ttl, events);
    RunKeepsOrigin(ttl, events, key);
    RunsOnIff(s, replica, key);
    if key in s.rows {
      SupersededIff(s, key, now);
    }
    forall r: nat | r < |s.requests| && ExecutesOn(s.requests[r], replica, key)
      ensures (replica, key) in s.inFlight && s.inFlight[(replica, key)] == s.requests[r].phase.flight
      ensures s.flights[s.requests[r].phase.flight].fp == s.requests[r].fp
    {
      assert RequestInv(s, r) && FlightInv(s, s.requests[r].phase.flight);
    }
  }

  /** A waiter is woken with the answer of the execution it waited for when that was published, and
      turns to the table when it was not. */
  lemma WaiterIsAnswered(ttl: Time, events: seq<Event>, r: nat)
    requires After(ttl, events).Some? && Typed(After(ttl, events).value) && Enabled(After(ttl, events).value, Wake(r))
    ensures
      var s := After(ttl, events).value;
      var f := s.requests[r].phase.flight;
      var phase := Step(s, Wake(r)).requests[r].phase;
      if s.flights[f].rec.None? then phase == Polling
      else
        && Succeeded(s.claims[f])
        && phase.Answered? && phase.reply.ReplayOf? && Shows(phase.reply.response, s.claims[f].outcome.response)
  {
    RunKeepsInv(ttl, events);
    var s := After(ttl, events).value;
    assert RequestInv(s, r) && FlightInv(s, s.requests[r].phase.flight);
  }

  /** One look at the table: in progress once there is no live row, and else what the row says. */
  lemma PollIsAnswered(s: System, r: nat, now: Time)
    requires Typed(s) && Enabled(s, Poll(r, now))
    ensures
      var q, phase := s.requests[r], Step(s, Poll(r, now)).requests[r].phase;
      if q.key in s.rows && now < s.rows[q.key].expiresAt then TableAnswers(s.rows, q.key, q.fp, phase)
      else phase == Answered(InProgressReply)
  {
  }

  /** The request that executed is answered with what its own handler returned. */
  lemma ExecutorIsAnswered(ttl: Time, events: seq<Event>, r: nat, stored: bool)
    requires After(ttl, events).Some? && Typed(After(ttl, events).value)
    requires Enabled(After(ttl, events).value, ReleaseFlight(r, stored))
    ensures
      var s := After(ttl, events).value;
      var c := s.claims[s.requests[r].phase.flight];
      var phase := Step(s, ReleaseFlight(r, stored)).requests[r].phase;
      && c.owner == r
      && match c.outcome
         case Ended(response) => phase == Answered(Executed(response))
         case Panicked => phase == Answered(Panicking)
         case Pending => false
  {
    RunKeepsInv(ttl, events);
    assert RequestInv(After(ttl, events).value, r);
  }

  /** A publication that reaches a row of the same request completes it with the answer and with the
      expiry of the publishing request. */
  lemma PublicationCompletesTheRow(s: System, r: nat)
    requires Typed(s) && Enabled(s, PublishRecord(r, true))
    requires s.requests[r].key in s.rows && s.rows[s.requests[r].key].fp.requestHash == s.requests[r].fp.requestHash
    ensures
      var q := s.requests[r];
      var row := Step(s, PublishRecord(r, true)).rows[q.key];
      row.completed && row.response == q.phase.response && row.expiresAt == q.now + s.ttl
      && row.createdAt == s.rows[q.key].createdAt && row.fp == s.rows[q.key].fp
  {
  }

  /** How the steps of a request end: a handler's result is recorded as it was and is a failure from
      500 on; a failure that reaches the table takes the row with it; only a request that gives up is
      told so; and the table changes by no other step but arrivals, publications and prunes. */
  lemma StepAnswers(s: System, e: Event)
    requires Typed(s) && Enabled(s, e)
    ensures e.HandlerReturns? ==>
              && Step(s, e).claims[s.requests[e.req].phase.flight].outcome == Ended(e.response)
              && (Step(s, e).requests[e.req].phase.Failing? <==> e.response.status >= 500)
    ensures e.HandlerPanics? ==> Step(s, e).claims[s.requests[e.req].phase.flight].outcome == Panicked
    ensures e.ReleaseFlight? ==>
              && Step(s, e).flights[s.requests[e.req].phase.flight].done
              && (s.requests[e.req].replica, s.requests[e.req].key) !in Step(s, e).inFlight
              && Step(s, e).rows ==
                 if s.requests[e.req].phase.Failing? && e.stored then s.rows - {s.requests[e.req].key} else s.rows
    ensures e.GiveUp? ==> Step(s, e).requests[e.req].phase == Answered(InProgressReply)
    ensures e.ArriveStoreError? ==> Step(s, e).requests[|s.requests|].phase == Answered(StoreFailed)
    ensures !(e.Arrive? || e.PublishRecord? || e.ReleaseFlight? || e.Prune?) ==> Step(s, e).rows == s.rows
  {
  }

  /** A prune removes the expired rows and no other. */
  lemma PruneRemovesTheExpired(s: System, now: Time)
    requires Typed(s)
    ensures
      var rows := Step(s, Prune(now)).rows;
      && (forall k :: k in rows <==> k in s.rows && now < s.rows[k].expiresAt)
      && (forall k :: k in rows ==> rows[k] == s.rows[k])
  {
  }

  /** A crash ends everything its replica was doing, and nothing else: the others go on, and the
      table keeps its rows. */
  lemma CrashForgets(ttl: Time, events: seq<Event>, replica: nat)
    requires After(ttl, events).Some? && Typed(After(ttl, events).value)
    ensures
      var s := After(ttl, events).value;
      var s' := Step(s, Crash(replica));
      && s'.rows == s.rows && |s'.requests| == |s.requests|
      && (forall key :: !RunsOn(s', replica, key))
      && forall r {:trigger s'.requests[r]} :: 0 <= r < |s.requests| ==>
        if s.requests[r].replica == replica && !s.requests[r].phase.Answered? then s'.requests[r].phase == Answered(Lost)
        else s'.requests[r] == s.requests[r]
  {
    RunKeepsInv(ttl, events);
  }

  /** A handler that fails deletes the row of its key, whoever inserted it. */
  lemma FailureDropsTheRow(ttl: Time, events: seq<Event>, r: nat, response: Response) returns (longer: seq<Event>)
    requires After(ttl, events).Some? && Typed(After(ttl, events).value) && ServerError(response)
    requires r < |After(ttl, events).value.requests| && After(ttl, events).value.requests[r].phase.Running?
    ensures After(ttl, longer).Some? && Typed(After(ttl, longer).value)
    ensures
      var s, s' := After(ttl, events).value, After(ttl, longer).value;
      var q := s.requests[r];
      && s'.requests == s.requests[r := q.(phase := Answered(Executed(response)))]
      && s'.rows == s.rows - {q.key} && s'.inFlight == s.inFlight - {(q.replica, q.key)}
  {
    longer := Extend(ttl, events, HandlerReturns(r, response));
    longer := Extend(ttl, longer, ReleaseFlight(r, true));
  }

  /** No lease needs to pass: a handler that fails past its own lease deletes the row of the one that
      replaced it, and a third request then executes beside that one, well inside its lease. */
  lemma LateFailureDropsANewerRow(ttl: Time, key: string, fp: Fingerprint, response: Response, now: Time) returns (events: seq<Event>)
    requires ttl > 120 && now >= 120 && ServerError(response)
    ensures After(ttl, events).Some?
    ensures
      var rows := After(ttl, events).value.requests;
      && |rows| == 3 && rows[1].now == now && rows[2].now == now + 1
      && ExecutesOn(rows[1], 1, key) && ExecutesOn(rows[2], 2, key)
  {
    events := TwoReplicasCanExecute(ttl, key, fp, now);
    events := FailureDropsTheRow(ttl, events, 0, response);
    var s := After(ttl, events).value;
    RunKeepsInv(ttl, events);
    StartsIff(s, 2, key, fp, now + 1);
    ArrivalAppends(s, 2, key, fp, now + 1);
    events := Extend(ttl, events, Arrive(2, key, fp, now + 1));
    assert ExecutesOn(s.requests[1], 1, key) && After(ttl, events).value.requests[..2][1] == s.requests[1];
  }

  /** A request starts an execution inside the retention window of an earlier one exactly when no
      handler for the key runs on its replica and the table has no row for the key, or one that
      expires with an earlier claim and has, or one still unfinished whose claim, the newest of the
      key, is older than the lease. */
  lemma WindowIsBrokenIff(ttl: Time, events: seq<Event>, f: nat, replica: nat, fp: Fingerprint, now: Time)
    requires After(ttl, events).Some? && Typed(After(ttl, events).value) && f < |After(ttl, events).value.claims|
    ensures
      var s := After(ttl, events).value;
      var k, expiry := s.claims[f].key, s.claims[f].at + ttl;
      var started := Executing(Step(s, Arrive(replica, k, fp, now)).requests[|s.requests|].phase);
      started && now < expiry <==> now < expiry && !RunsOn(s, replica, k) && (k in s.rows ==> RowGivesWay(s, k, f, now))
  {
    var s := After(ttl, events).value;
    RunKeepsInv(ttl, events);
    ExecutesIff(ttl, events, replica, s.claims[f].key, fp, now);
    if s.claims[f].key in s.rows && now < s.claims[f].at + ttl {
      GivesWayIff(s, s.claims[f].key, f, now);
    }
  }

  ghost predicate RowGivesWay(s: System, k: string, f: nat, now: Time)
    requires k in s.rows && f < |s.claims|
  {
    || (exists g: nat :: ExpiresWith(s, k, s.rows[k], g) && s.claims[g].at < s.claims[f].at && s.claims[g].at + s.ttl <= now)
    || (!s.rows[k].completed && exists h: nat :: CreatedBy(s, k, s.rows[k], h) && s.claims[h].at + 120 <= now)
  }

  lemma GivesWayIff(s: System, k: string, f: nat, now: Time)
    requires k in s.rows && f < |s.claims| && now < s.claims[f].at + s.ttl
    ensures RowYields(s, k, now) <==> RowGivesWay(s, k, f, now)
  {
  }

  lemma StartsIff(s: System, replica: nat, key: string, fp: Fingerprint, now: Time)
    requires Inv(s)
    ensures Executing(Step(s, Arrive(replica, key, fp, now)).requests[|s.requests|].phase) <==>
            (replica, key) !in s.inFlight && (key in s.rows ==> Superseded(s.rows[key], now))
  {
  }
}
