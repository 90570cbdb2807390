/** The middleware's mutable state: the flight map, the in-memory record table and the flights
    that waiters hold on to. Each method is one critical section of the middleware, proved
    to do what the transition system does in that section. */
module IdempotencyServer {
  import opened Wrappers
  import opened IdempotencyCore
  import Protocol = IdempotencyMemory

  class Flight {
    const fp: Fingerprint
    ghost const id: nat
    var done: bool
    var rec: Option<Record>
    var aborted: bool

    constructor (fp: Fingerprint, ghost id: nat)
      ensures this.fp == fp && this.id == id && !done && rec == None && !aborted
    {
      this.fp, this.id := fp, id;
      done, rec, aborted := false, None, false;
    }

    function Value(): Protocol.Flight
      reads this
    {
      Protocol.Flight(fp, done, rec, aborted)
    }
  }

  /** What the entry section decided, with the flight a request must run or wait for. */
  datatype Admission =
    | Execute(flight: Flight)
    | Join(flight: Flight)
    | ReplayNow(rec: Record)
    | RejectConflict
    | PollInProgress
  {
    ghost function Entry(): Protocol.Entry {
      match this
      case Execute(flight) => Protocol.Execute(flight.id)
      case Join(flight) => Protocol.Join(flight.id)
      case ReplayNow(rec) => Protocol.ReplayNow(rec)
      case RejectConflict => Protocol.RejectConflict
      case PollInProgress => Protocol.PollInProgress
    }
  }

  ghost function Ids(inFlight: map<string, Flight>): map<string, nat> {
    map k | k in inFlight :: inFlight[k].id
  }

  lemma IdsWithout(inFlight: map<string, Flight>, key: string)
    ensures Ids(inFlight - {key}) == Ids(inFlight) - {key}
  {
  }

  lemma IdsWith(inFlight: map<string, Flight>, key: string, flight: Flight)
    ensures Ids(inFlight[key := flight]) == Ids(inFlight)[key := flight.id]
  {
  }

  class Server {
    const ttl: Time
    var inFlight: map<string, Flight>
    var records: map<string, Record>
    ghost var arena: seq<Flight>

    ghost predicate Valid()
      reads this
    {
      && (forall i :: 0 <= i < |arena| ==> arena[i].id == i)
      && (forall k :: k in inFlight ==> inFlight[k] in arena)
    }

    /** The state of the transition system that this object represents. */
    ghost function View(): (s: Protocol.Shared)
      requires Valid()
      reads this, arena
      ensures |s.flights| == |arena| && s.records == records
      ensures forall k :: k in s.inFlight ==> k in inFlight && s.inFlight[k] == inFlight[k].id < |arena|
    {
      Protocol.Shared(
        Ids(inFlight),
        seq(|arena|, i requires 0 <= i < |arena| reads this, arena => arena[i].Value()),
        records)
    }

    constructor (ttl: Time)
      ensures Valid() && arena == [] && this.ttl == ttl
      ensures View() == Protocol.Init(ttl).shared
    {
      this.ttl := ttl;
      inFlight, records, arena := map[], map[], [];
    }

    /** The in-memory claim, called with the mutex held. */
    method ClaimLocked(key: string, fp: Fingerprint, now: Time, expiresAt: Time) returns (outcome: Protocol.ClaimOutcome)
      requires Valid()
      modifies this`records
      ensures Valid()
      ensures View() == old(View()).(records := records)
      ensures (records, outcome) == Protocol.Claim(old(records), key, fp, now, expiresAt)
    {
      if key in records {
        var existing := records[key];
        if !(existing.expiresAt > now) {
          records := records - {key};
        } else {
          if existing.fp != fp {
            return Protocol.Conflict;
          }
          if existing.completed {
            return Protocol.Replayed(existing);
          }
          return Protocol.InProgress;
        }
      }
      records := records[key := Record(fp, EMPTY_RESPONSE, false, now, expiresAt)];
      assert records == old(records)[key := Record(fp, EMPTY_RESPONSE, false, now, expiresAt)];
      return Protocol.Claimed;
    }

    method StartFlight(key: string, fp: Fingerprint) returns (flight: Flight)
      requires Valid()
      modifies this`inFlight, this`arena
      ensures Valid() && arena == old(arena) + [flight] && flight.id == |old(arena)|
      ensures View().inFlight == old(View()).inFlight[key := flight.id]
      ensures View().flights == old(View()).flights + [Protocol.Flight(fp, false, None, false)]
    {
      flight := new Flight(fp, |arena|);
      IdsWith(inFlight, key, flight);
      inFlight := inFlight[key := flight];
      arena := arena + [flight];
    }

    /** The entry section. */
    method Enter(key: string, fp: Fingerprint, now: Time) returns (admission: Admission)
      requires Valid()
      modifies this
      ensures Valid()
      ensures (View(), admission.Entry()) == Protocol.Enter(old(View()), key, fp, now, ttl)
      ensures old(arena) <= arena
      ensures admission.Execute? || admission.Join? ==> admission.flight in arena
    {
      if key in inFlight {
        var flight := inFlight[key];
        if flight.fp != fp {
          return RejectConflict;
        }
        return Join(flight);
      }
      var outcome := ClaimLocked(key, fp, now, now + ttl);
      match outcome
      case Replayed(rec) =>
        return ReplayNow(rec);
      case Conflict =>
        return RejectConflict;
      case InProgress =>
        return PollInProgress;
      case Claimed =>
        var flight := StartFlight(key, fp);
        return Execute(flight);
    }

    /** The publication section of an execution that ended below 500. */
    method Publish(key: string, flight: Flight, response: Response, now: Time)
      requires Valid() && flight in arena
      modifies this`records, flight`rec
      ensures Valid()
      ensures View() == Protocol.Publish(old(View()), key, flight.id, Record(flight.fp, response, true, now, now + ttl))
    {
      var rec := Record(flight.fp, response, true, now, now + ttl);
      records := records[key := rec];
      flight.rec := Some(rec);
    }

    /** The deferred release section. */
    method Release(key: string, flight: Flight, panicked: bool, status: int)
      requires Valid() && flight in arena
      modifies this`records, this`inFlight, flight`done, flight`aborted
      ensures Valid()
      ensures View() == Protocol.Release(old(View()), key, flight.id, panicked || status >= INTERNAL_SERVER_ERROR)
    {
      inFlight := inFlight - {key};
      if panicked || status >= INTERNAL_SERVER_ERROR {
        records := records - {key};
        flight.aborted := true;
      }
      flight.done := true;
      IdsWithout(old(inFlight), key);
      assert View().flights == old(View()).flights[flight.id := flight.Value()];
    }

    /** What a waiter answers once its flight's channel is closed. Without a backing store the poll
        that follows a flight without a record finds nothing at its first read. */
    method Await(flight: Flight, fp: Fingerprint) returns (reply: Protocol.Reply)
      requires Valid() && flight in arena && flight.done
      ensures reply == Protocol.WakeReply(View().flights[flight.id], fp)
      ensures match flight.rec
              case None => reply == Protocol.InProgressReply
              case Some(rec) =>
                if rec.fp != fp then reply == Protocol.ConflictReply
                else reply.ReplayOf? && Shows(reply.response, rec.response)
    {
      if flight.rec.Some? {
        if flight.rec.value.fp != fp {
          return Protocol.ConflictReply;
        }
        return Protocol.ReplayOf(Replay(flight.rec.value.response));
      }
      return Protocol.InProgressReply;
    }
  }
}
