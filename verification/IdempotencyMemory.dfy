/** The in-process idempotency protocol as a transition system: any number of concurrent
    requests, each taking the mutex for the entry, publication and release sections, with the
    handler and the waits in between running unlocked. */
module IdempotencyMemory {
  import opened Wrappers
  import opened IdempotencyCore

  // ----- the state behind the mutex, and its three critical sections -----

  datatype Flight = Flight(fp: Fingerprint, done: bool, rec: Option<Record>, aborted: bool)

  /** `flights` lists every flight ever created; the middleware holds references, the model indices. */
  datatype Shared = Shared(inFlight: map<string, nat>, flights: seq<Flight>, records: map<string, Record>)

  datatype ClaimOutcome = Claimed | Replayed(rec: Record) | Conflict | InProgress

  function Claim(records: map<string, Record>, key: string, fp: Fingerprint, now: Time, expiresAt: Time)
    : (map<string, Record>, ClaimOutcome)
  {
    if key in records && records[key].expiresAt > now then
      var existing := records[key];
      if existing.fp != fp then (records, Conflict)
      else if existing.completed then (records, Replayed(existing))
      else (records, InProgress)
    else
      (records[key := Record(fp, EMPTY_RESPONSE, false, now, expiresAt)], Claimed)
  }

  datatype Entry =
    | Execute(flight: nat)
    | Join(flight: nat)
    | ReplayNow(rec: Record)
    | RejectConflict
    | PollInProgress

  /** The entry section: join a live flight, or consult the record table, or start a flight. */
  function Enter(s: Shared, key: string, fp: Fingerprint, now: Time, ttl: Time): (Shared, Entry)
    requires key in s.inFlight ==> s.inFlight[key] < |s.flights|
  {
    if key in s.inFlight then
      var f := s.inFlight[key];
      (s, if s.flights[f].fp != fp then RejectConflict else Join(f))
    else
      var (records, outcome) := Claim(s.records, key, fp, now, now + ttl);
      match outcome
      case Replayed(rec) => (s, ReplayNow(rec))
      case Conflict => (s, RejectConflict)
      case InProgress => (s, PollInProgress)
      case Claimed =>
        var f := |s.flights|;
        (Shared(s.inFlight[key := f], s.flights + [Flight(fp, false, None, false)], records), Execute(f))
  }

  /** The publication section, reached only by an execution that ended below 500. */
  function Publish(s: Shared, key: string, f: nat, rec: Record): Shared
    requires f < |s.flights|
  {
    s.(records := s.records[key := rec], flights := s.flights[f := s.flights[f].(rec := Some(rec))])
  }

  /** The deferred release section: `abort` when the handler panicked or answered 5xx. */
  function Release(s: Shared, key: string, f: nat, abort: bool): Shared
    requires f < |s.flights|
  {
    Shared(
      s.inFlight - {key},
      s.flights[f := s.flights[f].(done := true, aborted := s.flights[f].aborted || abort)],
      if abort then s.records - {key} else s.records)
  }

  // ----- requests and steps -----

  datatype Reply =
    | Executed(response: Response)
    | Crashed
    | ReplayOf(response: Response)
    | ConflictReply
    | InProgressReply

  datatype Phase =
    | Waiting(flight: nat)
    | Running(flight: nat)
    | Returned(flight: nat, response: Response)
    | Published(flight: nat, response: Response)
    | Failing(flight: nat, answer: Option<Response>)
    | Answered(reply: Reply)

  datatype Request = Request(key: string, fp: Fingerprint, now: Time, phase: Phase)

  /** One claim, that is one execution of the handler: `claims[f]` is the history of flight `f`. */
  datatype ClaimEvent = ClaimEvent(key: string, at: Time, owner: nat, outcome: Outcome)

  datatype System = System(ttl: Time, shared: Shared, requests: seq<Request>, claims: seq<ClaimEvent>)

  function Init(ttl: Time): System {
    System(ttl, Shared(map[], [], map[]), [], [])
  }

  datatype Event =
    | Arrive(key: string, fp: Fingerprint, now: Time)
    | HandlerReturns(req: nat, response: Response)
    | HandlerPanics(req: nat)
    | PublishRecord(req: nat)
    | ReleaseFlight(req: nat)
    | Wake(req: nat)
    | Cancel(req: nat)

  /** Indices in the state name things that exist. */
  ghost predicate Typed(s: System) {
    && |s.claims| == |s.shared.flights|
    && (forall k :: k in s.shared.inFlight ==> s.shared.inFlight[k] < |s.shared.flights|)
    && (forall r :: 0 <= r < |s.requests| ==> !s.requests[r].phase.Answered? ==> s.requests[r].phase.flight < |s.claims|)
  }

  ghost predicate Enabled(s: System, e: Event)
    requires Typed(s)
  {
    match e
    case Arrive(_, _, _) => true
    case HandlerReturns(r, _) => r < |s.requests| && s.requests[r].phase.Running?
    case HandlerPanics(r) => r < |s.requests| && s.requests[r].phase.Running?
    case PublishRecord(r) => r < |s.requests| && s.requests[r].phase.Returned?
    case ReleaseFlight(r) => r < |s.requests| && (s.requests[r].phase.Published? || s.requests[r].phase.Failing?)
    case Wake(r) => r < |s.requests| && s.requests[r].phase.Waiting? && s.shared.flights[s.requests[r].phase.flight].done
    case Cancel(r) => r < |s.requests| && s.requests[r].phase.Waiting?
  }

  function SetPhase(s: System, r: nat, phase: Phase): System
    requires r < |s.requests|
  {
    s.(requests := s.requests[r := s.requests[r].(phase := phase)])
  }

  function SetOutcome(s: System, f: nat, outcome: Outcome): System
    requires f < |s.claims|
  {
    s.(claims := s.claims[f := s.claims[f].(outcome := outcome)])
  }

  /** The phase in which a request leaves the entry section. */
  function EntryPhase(entry: Entry): Phase {
    match entry
    case Execute(f) => Running(f)
    case Join(f) => Waiting(f)
    case ReplayNow(rec) => Answered(ReplayOf(Replay(rec.response)))
    case RejectConflict => Answered(ConflictReply)
    case PollInProgress => Answered(InProgressReply)
  }

  function DoArrive(s: System, key: string, fp: Fingerprint, now: Time): System
    requires key in s.shared.inFlight ==> s.shared.inFlight[key] < |s.shared.flights|
  {
    var (shared, entry) := Enter(s.shared, key, fp, now, s.ttl);
    System(
      s.ttl,
      shared,
      s.requests + [Request(key, fp, now, EntryPhase(entry))],
      if entry.Execute? then s.claims + [ClaimEvent(key, now, |s.requests|, Pending)] else s.claims)
  }

  /** What a waiter answers once its flight is closed: the published record, else in-progress
      (the poll that follows finds no record in a process without a backing store). */
  function WakeReply(flight: Flight, fp: Fingerprint): Reply {
    if flight.rec.None? then InProgressReply
    else if flight.rec.value.fp != fp then ConflictReply
    else ReplayOf(Replay(flight.rec.value.response))
  }

  function CompletedRecord(s: System, r: nat, response: Response): Record
    requires r < |s.requests|
  {
    var q := s.requests[r];
    Record(q.fp, response, true, q.now, q.now + s.ttl)
  }

  /** What the executing client itself received: the handler's own answer, or none. */
  function ReleaseReply(phase: Phase): Reply
    requires phase.Published? || phase.Failing?
  {
    match phase
    case Published(_, response) => Executed(response)
    case Failing(_, answer) => if answer.Some? then Executed(answer.value) else Crashed
  }

  ghost function Step(s: System, e: Event): System
    requires Typed(s) && Enabled(s, e)
  {
    match e
    case Arrive(key, fp, now) => DoArrive(s, key, fp, now)
    case HandlerReturns(r, response) =>
      var f := s.requests[r].phase.flight;
      SetOutcome(SetPhase(s, r, if ServerError(response) then Failing(f, Some(response)) else Returned(f, response)), f, Ended(response))
    case HandlerPanics(r) =>
      var f := s.requests[r].phase.flight;
      SetOutcome(SetPhase(s, r, Failing(f, None)), f, Panicked)
    case PublishRecord(r) =>
      var Returned(f, response) := s.requests[r].phase;
      SetPhase(s.(shared := Publish(s.shared, s.requests[r].key, f, CompletedRecord(s, r, response))), r, Published(f, response))
    case ReleaseFlight(r) =>
      var phase := s.requests[r].phase;
      var s' := s.(shared := Release(s.shared, s.requests[r].key, phase.flight, phase.Failing?));
      SetPhase(s', r, Answered(ReleaseReply(phase)))
    case Wake(r) =>
      SetPhase(s, r, Answered(WakeReply(s.shared.flights[s.requests[r].phase.flight], s.requests[r].fp)))
    case Cancel(r) =>
      SetPhase(s, r, Answered(InProgressReply))
  }

  // ----- the inductive invariant -----

  /** A request in this phase is executing flight `f`: it claimed it and has not released it. */
  predicate Owns(phase: Phase, f: nat) {
    !phase.Waiting? && !phase.Answered? && phase.flight == f
  }

  /** Flight `f` of key `k` published the record that the table now holds for `k`. */
  ghost predicate ProducedBy(s: System, k: string, f: nat)
    requires Typed(s)
  {
    && f < |s.claims| && s.claims[f].key == k
    && k in s.shared.records && s.shared.flights[f].rec == Some(s.shared.records[k])
  }

  /** The map entry of a key names its open flight; an unfinished record exists exactly while
      that flight is unpublished; a finished one was published by some flight of the key. */
  ghost predicate KeyInv(s: System, k: string)
    requires Typed(s)
  {
    && (k in s.shared.inFlight ==>
          var f := s.shared.inFlight[k];
          && !s.shared.flights[f].done && s.claims[f].key == k
          && (s.shared.flights[f].rec.None? ==> k in s.shared.records && !s.shared.records[k].completed))
    && (k in s.shared.records && !s.shared.records[k].completed ==>
          k in s.shared.inFlight && s.shared.flights[s.shared.inFlight[k]].rec.None?)
    && (k in s.shared.records && s.shared.records[k].completed ==> exists f: nat :: ProducedBy(s, k, f))
  }

  /** An open flight is in the map and has a running owner; a published record is exactly what
      the execution produced; a closed flight has a known outcome. */
  ghost predicate FlightInv(s: System, f: nat)
    requires Typed(s) && f < |s.claims|
  {
    var flight, c := s.shared.flights[f], s.claims[f];
    && (!flight.done ==>
          && c.key in s.shared.inFlight && s.shared.inFlight[c.key] == f
          && c.owner < |s.requests| && Owns(s.requests[c.owner].phase, f))
    && (flight.rec.Some? ==>
          && c.outcome.Ended? && !ServerError(c.outcome.response)
          && flight.rec.value == Record(flight.fp, c.outcome.response, true, c.at, c.at + s.ttl))
    && (flight.done ==>
          && !c.outcome.Pending?
          && (c.outcome.Ended? && !ServerError(c.outcome.response) ==> flight.rec.Some?))
  }

  ghost predicate RequestInv(s: System, r: nat)
    requires Typed(s) && r < |s.requests|
  {
    var q := s.requests[r];
    !q.phase.Answered? ==>
      var f := q.phase.flight;
      var flight, c := s.shared.flights[f], s.claims[f];
      && c.key == q.key
      && flight.fp == q.fp
      && (!q.phase.Waiting? ==>
            && !flight.done && c.owner == r && c.at == q.now
            && (q.phase.Published? <==> flight.rec.Some?)
            && PhaseAgrees(q.phase, c.outcome))
  }

  /** The owner's phase reflects how its execution ended. */
  predicate PhaseAgrees(phase: Phase, outcome: Outcome) {
    match phase
    case Running(_) => outcome == Pending
    case Returned(_, response) => outcome == Ended(response) && !ServerError(response)
    case Published(_, response) => outcome == Ended(response) && !ServerError(response)
    case Failing(_, Some(response)) => outcome == Ended(response) && ServerError(response)
    case Failing(_, None) => outcome == Panicked
    case _ => false
  }

  ghost predicate Inv(s: System) {
    && Typed(s)
    && (forall k: string :: KeyInv(s, k))
    && (forall f: nat :: f < |s.claims| ==> FlightInv(s, f))
    && (forall r: nat :: r < |s.requests| ==> RequestInv(s, r))
  }

  lemma InitInv(ttl: Time)
    ensures Inv(Init(ttl))
  {
  }

  lemma StepTyped(s: System, e: Event)
    requires Inv(s) && Enabled(s, e)
    ensures Typed(Step(s, e))
  {
  }

  lemma ArriveKeepsKey(s: System, e: Event, k: string)
    requires Inv(s) && Enabled(s, e) && e.Arrive? && Typed(Step(s, e))
    ensures KeyInv(Step(s, e), k)
  {
    var s' := Step(s, e);
    assert KeyInv(s, k);
    if k in s.shared.records && s.shared.records[k].completed {
      var f: nat :| ProducedBy(s, k, f);
      if k in s'.shared.records && s'.shared.records[k] == s.shared.records[k] {
        assert ProducedBy(s', k, f);
      }
    }
  }

  lemma ActorKeepsKey(s: System, e: Event, k: string)
    requires Inv(s) && Enabled(s, e) && !e.Arrive? && Typed(Step(s, e))
    ensures KeyInv(Step(s, e), k)
  {
    var s' := Step(s, e);
    assert KeyInv(s, k) && RequestInv(s, e.req) && FlightInv(s, s.requests[e.req].phase.flight);
    if k in s.shared.records && s.shared.records[k].completed {
      var f: nat :| ProducedBy(s, k, f);
      if k in s'.shared.records && s'.shared.records[k] == s.shared.records[k] {
        assert ProducedBy(s', k, f);
      }
    }
    if e.PublishRecord? && k == s.requests[e.req].key {
      assert ProducedBy(s', k, s.requests[e.req].phase.flight);
    }
  }

  lemma ArriveKeepsFlight(s: System, e: Event, f: nat)
    requires Inv(s) && e.Arrive? && Typed(Step(s, e)) && f < |Step(s, e).claims|
    ensures FlightInv(Step(s, e), f)
  {
    if f < |s.claims| {
      assert FlightInv(s, f) && KeyInv(s, s.claims[f].key);
    }
  }

  lemma ActorKeepsFlight(s: System, e: Event, f: nat)
    requires Inv(s) && Enabled(s, e) && !e.Arrive? && Typed(Step(s, e)) && f < |s.claims|
    ensures FlightInv(Step(s, e), f)
  {
    assert FlightInv(s, f) && RequestInv(s, e.req) && FlightInv(s, s.requests[e.req].phase.flight);
  }

  lemma ArriveKeepsRequest(s: System, e: Event, r: nat)
    requires Inv(s) && e.Arrive? && Typed(Step(s, e)) && r < |Step(s, e).requests|
    ensures RequestInv(Step(s, e), r)
  {
    if r < |s.requests| {
      assert RequestInv(s, r);
    } else {
      assert KeyInv(s, e.key);
    }
  }

  lemma ActorKeepsRequest(s: System, e: Event, r: nat)
    requires Inv(s) && Enabled(s, e) && !e.Arrive? && Typed(Step(s, e)) && r < |s.requests|
    ensures RequestInv(Step(s, e), r)
  {
    assert RequestInv(s, r) && RequestInv(s, e.req) && FlightInv(s, s.requests[e.req].phase.flight);
  }

  lemma StepKeepsInv(s: System, e: Event)
    requires Inv(s) && Enabled(s, e)
    ensures Inv(Step(s, e))
  {
    var s' := Step(s, e);
    StepTyped(s, e);
    forall k: string ensures KeyInv(s', k) {
      if e.Arrive? { ArriveKeepsKey(s, e, k); } else { ActorKeepsKey(s, e, k); }
    }
    forall f: nat | f < |s'.claims| ensures FlightInv(s', f) {
      if e.Arrive? { ArriveKeepsFlight(s, e, f); } else { ActorKeepsFlight(s, e, f); }
    }
    forall r: nat | r < |s'.requests| ensures RequestInv(s', r) {
      if e.Arrive? { ArriveKeepsRequest(s, e, r); } else { ActorKeepsRequest(s, e, r); }
    }
  }

  // ----- every run -----

  /** The state after a sequence of events from the empty server; None if some event was not enabled. */
  ghost function After(ttl: Time, events: seq<Event>): Option<System> {
    if events == [] then Some(Init(ttl))
    else
      var before := After(ttl, events[..|events| - 1]);
      var e := events[|events| - 1];
      if before.Some? && Typed(before.value) && Enabled(before.value, e) then Some(Step(before.value, e)) else None
  }

  lemma {:induction false} RunKeepsInv(ttl: Time, events: seq<Event>)
    requires After(ttl, events).Some?
    ensures Inv(After(ttl, events).value)
    ensures After(ttl, events).value.ttl == ttl
  {
    if events != [] {
      RunKeepsInv(ttl, events[..|events| - 1]);
      StepKeepsInv(After(ttl, events[..|events| - 1]).value, events[|events| - 1]);
    } else {
      InitInv(ttl);
    }
  }

  predicate Executing(q: Request) {
    !q.phase.Waiting? && !q.phase.Answered?
  }

  /** At most one handler per scope key, however long it runs. */
  lemma AtMostOneExecution(ttl: Time, events: seq<Event>, r1: nat, r2: nat)
    requires After(ttl, events).Some?
    requires r1 < |After(ttl, events).value.requests| && r2 < |After(ttl, events).value.requests|
    requires Executing(After(ttl, events).value.requests[r1]) && Executing(After(ttl, events).value.requests[r2])
    requires r1 != r2
    ensures After(ttl, events).value.requests[r1].key != After(ttl, events).value.requests[r2].key
  {
    var s := After(ttl, events).value;
    RunKeepsInv(ttl, events);
    assert RequestInv(s, r1) && RequestInv(s, r2);
    assert FlightInv(s, s.requests[r1].phase.flight) && FlightInv(s, s.requests[r2].phase.flight);
  }

  /** The in-progress outcome of a claim cannot occur without a backing store. */
  lemma ClaimNeverInProgress(ttl: Time, events: seq<Event>, key: string, fp: Fingerprint, now: Time)
    requires After(ttl, events).Some? && Typed(After(ttl, events).value)
    ensures !Enter(After(ttl, events).value.shared, key, fp, now, ttl).1.PollInProgress?
  {
    RunKeepsInv(ttl, events);
    assert KeyInv(After(ttl, events).value, key);
  }

  /** A waiter is never stranded: its flight is closed, or a request is still executing it. */
  lemma WaiterHasExecutor(ttl: Time, events: seq<Event>, r: nat)
    requires After(ttl, events).Some? && r < |After(ttl, events).value.requests|
    requires After(ttl, events).value.requests[r].phase.Waiting?
    ensures
      var s := After(ttl, events).value;
      var f := s.requests[r].phase.flight;
      && f < |s.shared.flights| && f < |s.claims|
      && (s.shared.flights[f].done ||
          (s.claims[f].owner < |s.requests| && Owns(s.requests[s.claims[f].owner].phase, f)))
  {
    RunKeepsInv(ttl, events);
    var s := After(ttl, events).value;
    assert FlightInv(s, s.requests[r].phase.flight);
  }

  // ----- what a replay is a replay of -----

  predicate Succeeded(c: ClaimEvent) {
    c.outcome.Ended? && c.outcome.response.status < 500
  }

  /** `response` is what a client may see of execution `f` of the same key and fingerprint. */
  ghost predicate ReplaysExecution(s: System, key: string, fp: Fingerprint, response: Response, f: nat)
    requires Typed(s)
  {
    && f < |s.claims| && s.claims[f].key == key && s.shared.flights[f].fp == fp
    && Succeeded(s.claims[f]) && Shows(response, s.claims[f].outcome.response)
  }

  ghost predicate ReplyInv(s: System, r: nat)
    requires Typed(s) && r < |s.requests|
  {
    var q := s.requests[r];
    q.phase.Answered? && q.phase.reply.ReplayOf? ==>
      exists f: nat :: ReplaysExecution(s, q.key, q.fp, q.phase.reply.response, f)
  }

  lemma StepKeepsExecutions(s: System, e: Event, key: string, fp: Fingerprint, response: Response, f: nat)
    requires Inv(s) && Enabled(s, e) && Typed(Step(s, e))
    requires ReplaysExecution(s, key, fp, response, f)
    ensures ReplaysExecution(Step(s, e), key, fp, response, f)
  {
    if !e.Arrive? {
      assert RequestInv(s, e.req);
    }
  }

  lemma StepKeepsReply(s: System, e: Event, r: nat)
    requires Inv(s) && Enabled(s, e) && Typed(Step(s, e)) && r < |Step(s, e).requests|
    requires r < |s.requests| ==> ReplyInv(s, r)
    ensures ReplyInv(Step(s, e), r)
  {
    var s' := Step(s, e);
    var q := s'.requests[r];
    if q.phase.Answered? && q.phase.reply.ReplayOf? {
      if r < |s.requests| && s.requests[r].phase.Answered? {
        var f: nat :| ReplaysExecution(s, q.key, q.fp, q.phase.reply.response, f);
        StepKeepsExecutions(s, e, q.key, q.fp, q.phase.reply.response, f);
      } else if e.Wake? {
        assert RequestInv(s, r) && FlightInv(s, s.requests[r].phase.flight);
        assert ReplaysExecution(s', q.key, q.fp, q.phase.reply.response, s.requests[r].phase.flight);
      } else {
        assert KeyInv(s, q.key);
        var f: nat :| ProducedBy(s, q.key, f);
        assert FlightInv(s, f);
        assert ReplaysExecution(s', q.key, q.fp, q.phase.reply.response, f);
      }
    }
  }

  /** Every replayed answer of every run is the answer of one execution of the same workspace,
      key, method, path and request hash, and that execution ended below 500. */
  lemma {:induction false} ReplaysAreFaithful(ttl: Time, events: seq<Event>, r: nat)
    requires After(ttl, events).Some? && Typed(After(ttl, events).value)
    requires r < |After(ttl, events).value.requests|
    ensures ReplyInv(After(ttl, events).value, r)
    decreases |events|
  {
    if events != [] {
      var before := events[..|events| - 1];
      RunKeepsInv(ttl, before);
      if r < |After(ttl, before).value.requests| {
        ReplaysAreFaithful(ttl, before, r);
      }
      StepKeepsReply(After(ttl, before).value, events[|events| - 1], r);
    }
  }

  // ----- the retention window -----

  predicate Later(s: System, f: nat, g: nat) {
    f < g < |s.claims| && s.claims[g].key == s.claims[f].key
  }

  /** No later claim has the key of claim `f`. */
  ghost predicate Newest(s: System, f: nat) {
    f < |s.claims| && forall g :: !Later(s, f, g)
  }

  /** The table holds what the newest claim of a key published, and nothing once it has failed. */
  ghost predicate Settled(s: System, f: nat)
    requires Typed(s) && f < |s.claims|
  {
    var k, flight := s.claims[f].key, s.shared.flights[f];
    && (flight.rec.Some? ==> k in s.shared.records && s.shared.records[k] == flight.rec.value)
    && (flight.done && !Succeeded(s.claims[f]) ==> k !in s.shared.records)
  }

  /** An open flight is the newest claim of its key, and the newest claim of a key decides what the
      table holds for it. */
  ghost predicate OrderInv(s: System, f: nat)
    requires Typed(s) && f < |s.claims|
  {
    (!s.shared.flights[f].done ==> Newest(s, f)) && (Newest(s, f) ==> Settled(s, f))
  }

  lemma ActorKeepsNewest(s: System, e: Event, f: nat)
    requires Typed(s) && Enabled(s, e) && !e.Arrive? && Typed(Step(s, e)) && f < |s.claims|
    ensures Newest(Step(s, e), f) <==> Newest(s, f)
  {
    var s' := Step(s, e);
    assert forall g :: Later(s', f, g) <==> Later(s, f, g);
  }

  lemma ArrivalKeepsNewest(s: System, e: Event, f: nat)
    requires Typed(s) && e.Arrive? && Typed(Step(s, e)) && f < |s.claims|
    ensures Newest(Step(s, e), f) <==> Newest(s, f) && !(|Step(s, e).claims| > |s.claims| && e.key == s.claims[f].key)
  {
    var s' := Step(s, e);
    assert forall g :: Later(s', f, g) <==> Later(s, f, g) || (g == |s.claims| < |s'.claims| && e.key == s.claims[f].key);
    if |s'.claims| > |s.claims| && e.key == s.claims[f].key {
      assert Later(s', f, |s.claims|);
    }
  }

  /** A request that executes holds the newest claim of its key. */
  lemma ExecutorIsNewest(s: System, r: nat, f: nat)
    requires Inv(s) && r < |s.requests| && Newest(s, f)
    requires !s.requests[r].phase.Waiting? && !s.requests[r].phase.Answered? && s.requests[r].key == s.claims[f].key
    requires OrderInv(s, s.requests[r].phase.flight)
    ensures s.requests[r].phase.flight == f
  {
    var h := s.requests[r].phase.flight;
    assert RequestInv(s, r);
    OneIsLater(s, f, h);
  }

  lemma ArrivalKeepsOrder(s: System, e: Event, f: nat)
    requires Inv(s) && e.Arrive? && Typed(Step(s, e)) && f < |Step(s, e).claims|
    requires f < |s.claims| ==> OrderInv(s, f)
    ensures OrderInv(Step(s, e), f)
  {
    if f < |s.claims| {
      ArrivalKeepsNewest(s, e, f);
      assert FlightInv(s, f);
    }
  }

  lemma ActorKeepsOrder(s: System, e: Event, f: nat)
    requires Inv(s) && Enabled(s, e) && !e.Arrive? && Typed(Step(s, e)) && f < |s.claims|
    requires OrderInv(s, f) && OrderInv(s, s.requests[e.req].phase.flight)
    ensures OrderInv(Step(s, e), f)
  {
    var r := e.req;
    ActorKeepsNewest(s, e, f);
    assert RequestInv(s, r) && FlightInv(s, f);
    if Newest(s, f) && !s.requests[r].phase.Waiting? && s.requests[r].key == s.claims[f].key {
      ExecutorIsNewest(s, r, f);
    }
  }

  lemma {:induction false} RunKeepsOrder(ttl: Time, events: seq<Event>, f: nat)
    requires After(ttl, events).Some? && Typed(After(ttl, events).value)
    requires f < |After(ttl, events).value.claims|
    ensures OrderInv(After(ttl, events).value, f)
    decreases |events|
  {
    if events != [] {
      var before, e := events[..|events| - 1], events[|events| - 1];
      var s := After(ttl, before).value;
      RunKeepsInv(ttl, before);
      if f < |s.claims| {
        RunKeepsOrder(ttl, before, f);
      }
      if e.Arrive? {
        ArrivalKeepsOrder(s, e, f);
      } else {
        RunKeepsOrder(ttl, before, s.requests[e.req].phase.flight);
        ActorKeepsOrder(s, e, f);
      }
    }
  }

  lemma OneIsLater(s: System, f: nat, g: nat)
    requires f < |s.claims| && g < |s.claims| && s.claims[f].key == s.claims[g].key
    ensures f == g || Later(s, f, g) || Later(s, g, f)
  {
  }

  /** In every reachable state the newest claim of a key decides what the next request on it gets:
      while it runs, to wait or a conflict; once it has failed or its answer has expired, to
      execute; before that, its answer or a conflict. */
  lemma NewestClaimDecides(ttl: Time, events: seq<Event>, f: nat, fp: Fingerprint, now: Time)
    requires After(ttl, events).Some? && Typed(After(ttl, events).value) && Newest(After(ttl, events).value, f)
    ensures
      var s := After(ttl, events).value;
      var c, flight := s.claims[f], s.shared.flights[f];
      var entry := Enter(s.shared, c.key, fp, now, ttl).1;
      if !flight.done then (if fp == flight.fp then entry == Join(f) else entry.RejectConflict?)
      else if !Succeeded(c) || now >= c.at + ttl then entry.Execute?
      else if fp == flight.fp then entry.ReplayNow? && entry.rec.response == c.outcome.response
      else entry.RejectConflict?
  {
    var s := After(ttl, events).value;
    RunKeepsInv(ttl, events);
    RunKeepsOrder(ttl, events, f);
    assert FlightInv(s, f) && KeyInv(s, s.claims[f].key);
    if s.claims[f].key in s.shared.inFlight {
      var g := s.shared.inFlight[s.claims[f].key];
      RunKeepsOrder(ttl, events, g);
      OneIsLater(s, f, g);
    }
  }

  // ----- what every request is answered -----

  /** A request that arrives where nobody claimed the key, or where the newest claim has failed or
      has expired, executes; it waits for a running execution of the same request; it is shown the
      answer of a finished one; a different request is a conflict. */
  lemma ArrivalIsAnswered(ttl: Time, events: seq<Event>, f: nat, fp: Fingerprint, now: Time)
    requires After(ttl, events).Some? && Typed(After(ttl, events).value) && Newest(After(ttl, events).value, f)
    ensures
      var s := After(ttl, events).value;
      var c, flight := s.claims[f], s.shared.flights[f];
      var phase := Step(s, Arrive(c.key, fp, now)).requests[|s.requests|].phase;
      if !flight.done then phase == (if fp == flight.fp then Waiting(f) else Answered(ConflictReply))
      else if !Succeeded(c) || now >= c.at + ttl then phase == Running(|s.claims|)
      else if fp != flight.fp then phase == Answered(ConflictReply)
      else phase.Answered? && phase.reply.ReplayOf? && Shows(phase.reply.response, c.outcome.response)
  {
    RunKeepsInv(ttl, events);
    NewestClaimDecides(ttl, events, f, fp, now);
  }

  /** A waiter is woken with the answer of the execution it waited for when that ended below 500, and
      told that the request is in progress when it failed. */
  lemma WaiterIsAnswered(ttl: Time, events: seq<Event>, r: nat)
    requires After(ttl, events).Some? && Typed(After(ttl, events).value) && Enabled(After(ttl, events).value, Wake(r))
    ensures
      var s := After(ttl, events).value;
      var outcome := s.claims[s.requests[r].phase.flight].outcome;
      var phase := Step(s, Wake(r)).requests[r].phase;
      && phase.Answered?
      && if outcome.Ended? && outcome.response.status < 500
         then phase.reply.ReplayOf? && Shows(phase.reply.response, outcome.response)
         else phase.reply == InProgressReply
  {
    RunKeepsInv(ttl, events);
    var s := After(ttl, events).value;
    assert RequestInv(s, r) && FlightInv(s, s.requests[r].phase.flight);
  }

  /** The request that executed is answered with what its own handler returned, whatever that is. */
  lemma ExecutorIsAnswered(ttl: Time, events: seq<Event>, r: nat)
    requires After(ttl, events).Some? && Typed(After(ttl, events).value) && Enabled(After(ttl, events).value, ReleaseFlight(r))
    ensures
      var s := After(ttl, events).value;
      var c := s.claims[s.requests[r].phase.flight];
      var phase := Step(s, ReleaseFlight(r)).requests[r].phase;
      && c.owner == r
      && match c.outcome
         case Ended(response) => phase == Answered(Executed(response))
         case Panicked => phase == Answered(Crashed)
         case Pending => false
  {
    RunKeepsInv(ttl, events);
    assert RequestInv(After(ttl, events).value, r);
  }

  /** A handler's end is recorded as it was; only one that gives up waiting is told so; and no step
      changes the answer of another request. */
  lemma StepAnswers(s: System, e: Event)
    requires Typed(s) && Enabled(s, e)
    ensures e.HandlerReturns? ==> Step(s, e).claims[s.requests[e.req].phase.flight].outcome == Ended(e.response)
    ensures e.HandlerPanics? ==> Step(s, e).claims[s.requests[e.req].phase.flight].outcome == Panicked
    ensures e.Cancel? ==> Step(s, e).requests[e.req].phase == Answered(InProgressReply)
    ensures forall r {:trigger s.requests[r]} :: 0 <= r < |s.requests| && (e.Arrive? || r != e.req) ==>
      Step(s, e).requests[r] == s.requests[r]
  {
  }

  /** A key that was never claimed is free. */
  lemma UnclaimedKeyExecutes(ttl: Time, events: seq<Event>, key: string, fp: Fingerprint, now: Time)
    requires After(ttl, events).Some? && Typed(After(ttl, events).value)
    requires forall f: nat :: f < |After(ttl, events).value.claims| ==> After(ttl, events).value.claims[f].key != key
    ensures Enter(After(ttl, events).value.shared, key, fp, now, ttl).1.Execute?
  {
    var s := After(ttl, events).value;
    RunKeepsInv(ttl, events);
    assert KeyInv(s, key);
  }

  /** A request that arrives at `now` starts an execution inside the retention window of a success
      `f` exactly when it reads a time before the end of that window although the newest claim of
      the key is another one, which has failed or which it reads as expired. */
  lemma WindowIsBrokenIff(ttl: Time, events: seq<Event>, f: nat, newest: nat, fp: Fingerprint, now: Time)
    requires After(ttl, events).Some? && Typed(After(ttl, events).value) && Newest(After(ttl, events).value, newest)
    requires f < |After(ttl, events).value.claims| && Succeeded(After(ttl, events).value.claims[f])
    requires After(ttl, events).value.claims[f].key == After(ttl, events).value.claims[newest].key
    ensures
      var s := After(ttl, events).value;
      var c, expiry := s.claims[newest], s.claims[f].at + ttl;
      Enter(s.shared, c.key, fp, now, ttl).1.Execute? && now < expiry <==>
      now < expiry && newest != f && s.shared.flights[newest].done && (!Succeeded(c) || now >= c.at + ttl)
  {
    NewestClaimDecides(ttl, events, newest, fp, now);
  }

  /** The clock readings of the requests on one key do not decrease in lock order. */
  predicate ClockMonotone(events: seq<Event>) {
    forall i, j :: 0 <= i < j < |events| && events[i].Arrive? && events[j].Arrive? && events[i].key == events[j].key ==>
      events[i].now <= events[j].now
  }

  predicate ArrivalOf(events: seq<Event>, i: nat, c: ClaimEvent) {
    i < |events| && events[i].Arrive? && events[i].key == c.key && events[i].now == c.at
  }

  lemma StepClaims(s: System, e: Event, f: nat)
    requires Typed(s) && Enabled(s, e) && f < |Step(s, e).claims|
    ensures f < |s.claims| ==> Step(s, e).claims[f].key == s.claims[f].key && Step(s, e).claims[f].at == s.claims[f].at
    ensures f >= |s.claims| ==> e.Arrive? && e.key == Step(s, e).claims[f].key && e.now == Step(s, e).claims[f].at
  {
  }

  lemma {:induction false} ClaimsComeFromArrivals(ttl: Time, events: seq<Event>, f: nat)
    requires After(ttl, events).Some? && f < |After(ttl, events).value.claims|
    ensures exists i: nat :: ArrivalOf(events, i, After(ttl, events).value.claims[f])
    decreases |events|
  {
    var before, e := events[..|events| - 1], events[|events| - 1];
    var s := After(ttl, before).value;
    StepClaims(s, e, f);
    if f < |s.claims| {
      ClaimsComeFromArrivals(ttl, before, f);
      var i: nat :| ArrivalOf(before, i, s.claims[f]);
      assert ArrivalOf(events, i, After(ttl, events).value.claims[f]);
    } else {
      assert ArrivalOf(events, |events| - 1, After(ttl, events).value.claims[f]);
    }
  }

  /** A successful execution keeps its key for a full retention window: any later execution of
      the key, successful or not, was claimed at least one TTL after it. */
  lemma {:induction false} SuccessHoldsTheWindow(ttl: Time, events: seq<Event>, f: nat, g: nat)
    requires After(ttl, events).Some? && ClockMonotone(events)
    requires f < |After(ttl, events).value.claims| && Succeeded(After(ttl, events).value.claims[f])
    requires Later(After(ttl, events).value, f, g)
    ensures After(ttl, events).value.claims[g].at >= After(ttl, events).value.claims[f].at + ttl
    decreases |events|
  {
    var before, e := events[..|events| - 1], events[|events| - 1];
    var s, s' := After(ttl, before).value, After(ttl, events).value;
    RunKeepsInv(ttl, before);
    RunKeepsOrder(ttl, before, f);
    assert FlightInv(s, f) && KeyInv(s, s.claims[f].key);
    if g < |s.claims| {
      assert Later(s, f, g);
      if !e.Arrive? {
        assert RequestInv(s, e.req);
      }
      SuccessHoldsTheWindow(ttl, before, f, g);
    } else if h: nat :| Later(s, f, h) {
      SuccessHoldsTheWindow(ttl, before, f, h);
      ClaimsComeFromArrivals(ttl, before, h);
      var i: nat :| ArrivalOf(before, i, s.claims[h]);
      assert events[i].now <= e.now;
    }
  }

  /** Without monotone clocks the window can be cut short: a request that read the clock early
      but reached the mutex late executes after a failed execution has cleared the record. */
  lemma LateClockReadingBreaksTheWindow()
    ensures exists ttl: Time, events: seq<Event>, f: nat, g: nat ::
              && After(ttl, events).Some?
              && f < |After(ttl, events).value.claims|
              && Later(After(ttl, events).value, f, g)
              && Succeeded(After(ttl, events).value.claims[f]) && Succeeded(After(ttl, events).value.claims[g])
              && After(ttl, events).value.claims[g].at < After(ttl, events).value.claims[f].at + ttl
  {
    var events := RunSuccessThenFailure();
    var fp, ok := Fingerprint("POST", "/monitors", "h"), Response(201, "", []);
    events := Extend(10, events, Arrive("k", fp, 105));
    assert After(10, events).value.requests[2].phase == Running(2);
    events := Extend(10, events, HandlerReturns(2, ok));
    var s := After(10, events).value;
    assert s.claims[0].at == 100 && s.claims[2].at == 105;
    assert Later(s, 0, 2) && Succeeded(s.claims[0]) && Succeeded(s.claims[2]);
  }

  /** A key used at time 100 with success, then again at its expiry at time 110 with a 503. */
  lemma RunSuccessThenFailure() returns (events: seq<Event>)
    ensures After(10, events).Some?
    ensures
      var s := After(10, events).value;
      && s.ttl == 10 && s.shared.inFlight == map[] && s.shared.records == map[] && |s.requests| == 2
      && s.claims == [ClaimEvent("k", 100, 0, Ended(Response(201, "", []))), ClaimEvent("k", 110, 1, Ended(Response(503, "", [])))]
      && Typed(s)
  {
    var fp := Fingerprint("POST", "/monitors", "h");
    var ok, failed := Response(201, "", []), Response(503, "", []);
    var rec := Record(fp, ok, true, 100, 110);
    events := RunSuccess();
    events := Extend(10, events, Arrive("k", fp, 110));
    assert After(10, events).value.requests[1].phase == Running(1);
    events := Extend(10, events, HandlerReturns(1, failed));
    assert After(10, events).value.requests[1].phase == Failing(1, Some(failed));
    events := Extend(10, events, ReleaseFlight(1));
    assert After(10, events).value.shared.records == map[];
    assert After(10, events).value.shared.inFlight == map[];
  }

  lemma RunSuccess() returns (events: seq<Event>)
    ensures After(10, events).Some?
    ensures
      var s := After(10, events).value;
      var fp, ok := Fingerprint("POST", "/monitors", "h"), Response(201, "", []);
      && s.ttl == 10 && s.shared.inFlight == map[] && |s.requests| == 1 && |s.shared.flights| == 1
      && s.shared.records == map["k" := Record(fp, ok, true, 100, 110)]
      && s.claims == [ClaimEvent("k", 100, 0, Ended(ok))]
      && Typed(s)
  {
    var fp, ok := Fingerprint("POST", "/monitors", "h"), Response(201, "", []);
    events := Extend(10, [], Arrive("k", fp, 100));
    assert After(10, events).value.requests[0].phase == Running(0);
    events := Extend(10, events, HandlerReturns(0, ok));
    events := Extend(10, events, PublishRecord(0));
    events := Extend(10, events, ReleaseFlight(0));
    assert After(10, events).value.shared.inFlight == map[];
  }

  lemma Extend(ttl: Time, events: seq<Event>, e: Event) returns (longer: seq<Event>)
    requires After(ttl, events).Some? && Typed(After(ttl, events).value) && Enabled(After(ttl, events).value, e)
    ensures longer == events + [e]
    ensures After(ttl, longer) == Some(Step(After(ttl, events).value, e))
    ensures Typed(After(ttl, longer).value)
  {
    longer := events + [e];
    assert longer[..|longer| - 1] == events;
    RunKeepsInv(ttl, longer);
  }

  // ----- keys do not interfere -----

  /** Key `k` looks the same in both states: its table and map entries, its flights with their
      histories, and its requests. */
  ghost predicate SameFor(s: System, s': System, k: string)
    requires Typed(s) && Typed(s')
  {
    && (k in s.shared.records <==> k in s'.shared.records)
    && (k in s.shared.records ==> s.shared.records[k] == s'.shared.records[k])
    && (k in s.shared.inFlight <==> k in s'.shared.inFlight)
    && (k in s.shared.inFlight ==> s.shared.inFlight[k] == s'.shared.inFlight[k])
    && |s.claims| <= |s'.claims| && |s.requests| <= |s'.requests|
    && (forall f :: 0 <= f < |s'.claims| && s'.claims[f].key == k ==>
          f < |s.claims| && s'.claims[f] == s.claims[f] && s'.shared.flights[f] == s.shared.flights[f])
    && (forall f :: 0 <= f < |s.claims| && s.claims[f].key == k ==> s'.claims[f].key == k)
    && (forall r :: 0 <= r < |s'.requests| && s'.requests[r].key == k ==>
          r < |s.requests| && s'.requests[r] == s.requests[r])
    && (forall r :: 0 <= r < |s.requests| && s.requests[r].key == k ==> s'.requests[r].key == k)
  }

  function KeyOf(s: System, e: Event): string
    requires !e.Arrive? ==> e.req < |s.requests|
  {
    if e.Arrive? then e.key else s.requests[e.req].key
  }

  lemma ArrivalLeavesOtherKeys(s: System, e: Event, k: string)
    requires Typed(s) && e.Arrive? && Typed(Step(s, e)) && k != e.key
    ensures SameFor(s, Step(s, e), k)
  {
  }

  lemma ActorLeavesOtherKeys(s: System, e: Event, k: string)
    requires Typed(s) && Enabled(s, e) && !e.Arrive? && Typed(Step(s, e))
    requires RequestInv(s, e.req) && k != s.requests[e.req].key
    ensures SameFor(s, Step(s, e), k)
  {
  }

  /** No step of a request on one scope key changes anything another scope key can see. */
  lemma KeysDoNotInterfere(ttl: Time, events: seq<Event>, e: Event, k: string)
    requires After(ttl, events).Some? && Typed(After(ttl, events).value) && Enabled(After(ttl, events).value, e)
    requires k != KeyOf(After(ttl, events).value, e)
    ensures Typed(Step(After(ttl, events).value, e))
    ensures SameFor(After(ttl, events).value, Step(After(ttl, events).value, e), k)
  {
    var s := After(ttl, events).value;
    RunKeepsInv(ttl, events);
    StepTyped(s, e);
    if e.Arrive? {
      ArrivalLeavesOtherKeys(s, e, k);
    } else {
      assert RequestInv(s, e.req);
      ActorLeavesOtherKeys(s, e, k);
    }
  }

  // ----- every request is answered -----

  function Remaining(phase: Phase): nat {
    match phase
    case Running(_) => 3
    case Returned(_, _) => 2
    case Published(_, _) => 1
    case Failing(_, _) => 1
    case Waiting(_) => 1
    case Answered(_) => 0
  }

  function Work(requests: seq<Request>): nat {
    if requests == [] then 0 else Work(requests[..|requests| - 1]) + Remaining(requests[|requests| - 1].phase)
  }

  lemma {:induction false} WorkUpdate(requests: seq<Request>, r: nat, q: Request)
    requires r < |requests|
    ensures Work(requests[r := q]) + Remaining(requests[r].phase) == Work(requests) + Remaining(q.phase)
  {
    var n := |requests| - 1;
    if r < n {
      assert requests[r := q][..n] == requests[..n][r := q];
      WorkUpdate(requests[..n], r, q);
    } else {
      assert requests[r := q][..n] == requests[..n];
    }
  }

  /** Apart from new arrivals, every step brings the system closer to having answered everyone. */
  lemma StepsMakeProgress(s: System, e: Event)
    requires Typed(s) && Enabled(s, e) && !e.Arrive?
    ensures Work(Step(s, e).requests) < Work(s.requests)
  {
    WorkUpdate(s.requests, e.req, Step(s, e).requests[e.req]);
  }

  /** How request `r`'s handler ends: with a response, or in a panic. */
  function HandlerEnds(r: nat, ending: Option<Response>): Event {
    match ending
    case Some(response) => HandlerReturns(r, response)
    case None => HandlerPanics(r)
  }

  /** Neither an arrival nor a request giving up, and handlers end as `endings` says. */
  predicate Goes(e: Event, endings: nat -> Option<Response>) {
    && !e.Arrive? && !e.Cancel?
    && (e.HandlerReturns? || e.HandlerPanics? ==> e == HandlerEnds(e.req, endings(e.req)))
  }

  /** A step of `r` or of the request executing for it. */
  ghost function NextStepFor(s: System, r: nat, endings: nat -> Option<Response>): (e: Event)
    requires Inv(s) && r < |s.requests| && !s.requests[r].phase.Answered?
    ensures Enabled(s, e) && Goes(e, endings)
  {
    assert RequestInv(s, r) && FlightInv(s, s.requests[r].phase.flight);
    match s.requests[r].phase
    case Running(_) => HandlerEnds(r, endings(r))
    case Returned(_, _) => PublishRecord(r)
    case Published(_, _) => ReleaseFlight(r)
    case Failing(_, _) => ReleaseFlight(r)
    case Waiting(f) =>
      if s.shared.flights[f].done then Wake(r)
      else
        var owner := s.claims[f].owner;
        match s.requests[owner].phase
        case Running(_) => HandlerEnds(owner, endings(owner))
        case Returned(_, _) => PublishRecord(owner)
        case _ => ReleaseFlight(owner)
  }

  /** From every reachable state the requests present can all be answered, without any of them
      giving up and however each handler ends, in a number of steps bounded by the work left. */
  lemma {:induction false} EveryRequestCanBeAnswered(ttl: Time, events: seq<Event>, endings: nat -> Option<Response>)
    returns (longer: seq<Event>)
    requires After(ttl, events).Some?
    ensures events <= longer && |longer| - |events| <= Work(After(ttl, events).value.requests)
    ensures forall i :: |events| <= i < |longer| ==> Goes(longer[i], endings)
    ensures After(ttl, longer).Some?
    ensures forall r :: 0 <= r < |After(ttl, longer).value.requests| ==> After(ttl, longer).value.requests[r].phase.Answered?
    decreases Work(After(ttl, events).value.requests)
  {
    longer := events;
    if r: nat :| r < |After(ttl, events).value.requests| && !After(ttl, events).value.requests[r].phase.Answered? {
      var e := Advance(ttl, events, r, endings);
      longer := EveryRequestCanBeAnswered(ttl, events + [e], endings);
    }
  }

  lemma Advance(ttl: Time, events: seq<Event>, r: nat, endings: nat -> Option<Response>) returns (e: Event)
    requires After(ttl, events).Some? && r < |After(ttl, events).value.requests|
    requires !After(ttl, events).value.requests[r].phase.Answered?
    ensures Goes(e, endings)
    ensures After(ttl, events + [e]).Some?
    ensures Work(After(ttl, events + [e]).value.requests) < Work(After(ttl, events).value.requests)
  {
    RunKeepsInv(ttl, events);
    e := NextStepFor(After(ttl, events).value, r, endings);
    StepsMakeProgress(After(ttl, events).value, e);
    var longer := Extend(ttl, events, e);
  }
}
