/** The token bucket that limits audit entries for unauthenticated requests, one per source. */
module AuditBucket {
  datatype Bucket = Bucket(tokens: real, last: real)

  type Buckets = map<string, Bucket>

  const BURST := 50.0
  const REFILL_PER_SECOND := 5.0
  const MAX_SOURCES := 4096

  function Key(source: string): string {
    if source == "" then "unknown" else source
  }

  /** Time only moves a bucket forward, and fills it no further than the burst. */
  function Refill(b: Bucket, now: real): Bucket {
    if now > b.last then
      var tokens := b.tokens + (now - b.last) * REFILL_PER_SECOND;
      Bucket(if tokens > BURST then BURST else tokens, now)
    else b
  }

  function Current(buckets: Buckets): Buckets {
    if |buckets| > MAX_SOURCES then map[] else buckets
  }

  /** The bucket of a source after a call, and whether the call is admitted. */
  function Take(buckets: Buckets, key: string, now: real): (Bucket, bool) {
    if key !in buckets then (Bucket(BURST - 1.0, now), true)
    else
      var b := Refill(buckets[key], now);
      if b.tokens < 1.0 then (b, false) else (b.(tokens := b.tokens - 1.0), true)
  }

  datatype Call = Call(source: string, now: real)

  function Next(buckets: Buckets, call: Call): Buckets {
    var current := Current(buckets);
    current[Key(call.source) := Take(current, Key(call.source), call.now).0]
  }

  predicate Admits(buckets: Buckets, call: Call) {
    Take(Current(buckets), Key(call.source), call.now).1
  }

  class AuditLimiter {
    var buckets: Buckets

    constructor ()
      ensures buckets == map[]
    {
      buckets := map[];
    }

    method AllowWrite(source: string, now: real) returns (ok: bool)
      modifies this
      ensures buckets == Next(old(buckets), Call(source, now))
      ensures ok == Admits(old(buckets), Call(source, now))
      ensures var own := if source == "" then "unknown" else source;
              && own in buckets
              && forall other :: other != own ==>
                   && (other in buckets <==> other in old(buckets) && |old(buckets)| <= 4096)
                   && (other in buckets ==> buckets[other] == old(buckets)[other])
    {
      var key := source;
      if key == "" {
        key := "unknown";
      }
      if |buckets| > MAX_SOURCES {
        buckets := map[];
      }
      if key !in buckets {
        buckets := buckets[key := Bucket(BURST - 1.0, now)];
        return true;
      }
      var b := buckets[key];
      var elapsed := now - b.last;
      if elapsed > 0.0 {
        b := b.(tokens := b.tokens + elapsed * REFILL_PER_SECOND);
        if b.tokens > BURST {
          b := b.(tokens := BURST);
        }
        b := b.(last := now);
      }
      ok := !(b.tokens < 1.0);
      if ok {
        b := b.(tokens := b.tokens - 1.0);
      }
      buckets := buckets[key := b];
    }
  }

  // ----- every run -----

  function Run(buckets: Buckets, calls: seq<Call>): Buckets {
    if calls == [] then buckets else Next(Run(buckets, calls[..|calls| - 1]), calls[|calls| - 1])
  }

  predicate InRange(b: Bucket) {
    0.0 <= b.tokens <= BURST
  }

  ghost predicate AllInRange(buckets: Buckets) {
    forall k :: k in buckets ==> InRange(buckets[k])
  }

  /** In every reachable state each bucket holds between none and a full burst, and the table is bounded. */
  lemma {:induction false} TokensStayInRange(calls: seq<Call>)
    ensures forall k :: k in Run(map[], calls) ==> 0.0 <= Run(map[], calls)[k].tokens <= 50.0
    ensures |Run(map[], calls)| <= 4097
  {
    if calls != [] {
      var n := |calls| - 1;
      TokensStayInRange(calls[..n]);
      NextInRange(Run(map[], calls[..n]), calls[n]);
    }
  }

  lemma NextInRange(buckets: Buckets, call: Call)
    requires AllInRange(buckets)
    ensures AllInRange(Next(buckets, call)) && |Next(buckets, call)| <= MAX_SOURCES + 1
  {
  }

  // ----- how much a source can get through -----

  function Admitted(buckets: Buckets, calls: seq<Call>, key: string): nat {
    if calls == [] then 0
    else
      var n := |calls| - 1;
      Admitted(buckets, calls[..n], key)
      + (if Key(calls[n].source) == key && Admits(Run(buckets, calls[..n]), calls[n]) then 1 else 0)
  }

  /** The clock readings of one source's calls. */
  function Readings(calls: seq<Call>, key: string): seq<real> {
    if calls == [] then []
    else
      var last := calls[|calls| - 1];
      Readings(calls[..|calls| - 1], key) + (if Key(last.source) == key then [last.now] else [])
  }

  function Max(a: real, b: real): real {
    if a < b then b else a
  }

  function Highest(readings: seq<real>): real
    requires readings != []
  {
    if |readings| == 1 then readings[0] else Max(Highest(readings[..|readings| - 1]), readings[|readings| - 1])
  }

  /** The table is not emptied during the calls. */
  ghost predicate NoReset(buckets: Buckets, calls: seq<Call>) {
    forall k :: 0 <= k < |calls| ==> |Run(buckets, calls[..k])| <= 4096
  }

  /** The clock a source's bucket shows before the first of the calls, or that call's own reading. */
  function Origin(buckets: Buckets, key: string, first: real): real {
    if key in buckets then Max(buckets[key].last, first) else first
  }

  /** What the bucket has left and what it has given out were in it at the start or came in since. */
  ghost predicate Accounted(buckets: Buckets, calls: seq<Call>, key: string) {
    var now, readings := Run(buckets, calls), Readings(calls, key);
    if readings == [] then
      && Admitted(buckets, calls, key) == 0
      && (key in now <==> key in buckets)
      && (key in now ==> now[key] == buckets[key])
    else
      && key in now
      && now[key].last == Max(Origin(buckets, key, readings[0]), Highest(readings))
      && now[key].tokens + Admitted(buckets, calls, key) as real <=
         BURST + (now[key].last - Origin(buckets, key, readings[0])) * REFILL_PER_SECOND
  }

  lemma FirstCallAccounted(buckets: Buckets, calls: seq<Call>, key: string)
    requires calls != [] && AllInRange(buckets)
    requires var n := |calls| - 1; Accounted(buckets, calls[..n], key) && Readings(calls[..n], key) == []
    requires var n := |calls| - 1; Key(calls[n].source) == key && |Run(buckets, calls[..n])| <= MAX_SOURCES
    ensures Accounted(buckets, calls, key)
  {
  }

  lemma LaterCallAccounted(buckets: Buckets, calls: seq<Call>, key: string)
    requires calls != []
    requires var n := |calls| - 1; Accounted(buckets, calls[..n], key) && Readings(calls[..n], key) != []
    requires var n := |calls| - 1; Key(calls[n].source) == key && |Run(buckets, calls[..n])| <= MAX_SOURCES
    ensures Accounted(buckets, calls, key)
  {
    var n := |calls| - 1;
    var before := Readings(calls[..n], key);
    var readings := Readings(calls, key);
    assert readings == before + [calls[n].now] && readings[..|before|] == before && readings[0] == before[0];
  }

  lemma OtherCallAccounted(buckets: Buckets, calls: seq<Call>, key: string)
    requires calls != []
    requires var n := |calls| - 1; Accounted(buckets, calls[..n], key)
    requires var n := |calls| - 1; Key(calls[n].source) != key && |Run(buckets, calls[..n])| <= MAX_SOURCES
    ensures Accounted(buckets, calls, key)
  {
    var n := |calls| - 1;
    assert Readings(calls, key) == Readings(calls[..n], key);
    assert Admitted(buckets, calls, key) == Admitted(buckets, calls[..n], key);
  }

  lemma NoResetPrefix(buckets: Buckets, calls: seq<Call>)
    requires calls != [] && NoReset(buckets, calls)
    ensures NoReset(buckets, calls[..|calls| - 1]) && |Run(buckets, calls[..|calls| - 1])| <= MAX_SOURCES
  {
    var n := |calls| - 1;
    forall k | 0 <= k < n ensures |Run(buckets, calls[..n][..k])| <= MAX_SOURCES {
      assert calls[..n][..k] == calls[..k];
    }
  }

  lemma {:induction false} RunAccounted(buckets: Buckets, calls: seq<Call>, key: string)
    requires AllInRange(buckets) && NoReset(buckets, calls)
    ensures Accounted(buckets, calls, key)
  {
    if calls != [] {
      var n := |calls| - 1;
      NoResetPrefix(buckets, calls);
      RunAccounted(buckets, calls[..n], key);
      if Key(calls[n].source) != key {
        OtherCallAccounted(buckets, calls, key);
      } else if Readings(calls[..n], key) == [] {
        FirstCallAccounted(buckets, calls, key);
      } else {
        LaterCallAccounted(buckets, calls, key);
      }
    }
  }

  lemma {:induction false} HighestIsHigher(readings: seq<real>)
    requires readings != []
    ensures readings[0] <= Highest(readings)
  {
    if |readings| > 1 { HighestIsHigher(readings[..|readings| - 1]); }
  }

  /** From any reachable state on, with other sources' calls in between and with clocks that go back
      and forth, a source gets through at most a burst plus what refills between its first and its
      latest reading. */
  lemma AdmissionIsBounded(history: seq<Call>, calls: seq<Call>, key: string)
    requires NoReset(Run(map[], history), calls) && Readings(calls, key) != []
    ensures
      var readings := Readings(calls, key);
      Admitted(Run(map[], history), calls, key) as real <= 50.0 + (Highest(readings) - readings[0]) * 5.0
  {
    var start, readings := Run(map[], history), Readings(calls, key);
    TokensStayInRange(history);
    RunAccounted(start, calls, key);
    HighestIsHigher(readings);
    RunInRange(start, calls);
    assert InRange(Run(start, calls)[key]);
  }

  lemma {:induction false} RunInRange(buckets: Buckets, calls: seq<Call>)
    requires AllInRange(buckets)
    ensures AllInRange(Run(buckets, calls))
  {
    if calls != [] {
      RunInRange(buckets, calls[..|calls| - 1]);
      NextInRange(Run(buckets, calls[..|calls| - 1]), calls[|calls| - 1]);
    }
  }

  // ----- a patient source is never refused -----

  /** Consecutive readings are at least the time one token takes. */
  predicate SpacedOut(readings: seq<real>) {
    forall i :: 0 < i < |readings| ==> readings[i - 1] + 0.2 <= readings[i]
  }

  lemma {:induction false} SpacedSourceClock(calls: seq<Call>, key: string)
    requires SpacedOut(Readings(calls, key))
    ensures
      var now, readings := Run(map[], calls), Readings(calls, key);
      && Admitted(map[], calls, key) == |readings|
      && AllInRange(now)
      && (key in now ==> readings != [] && now[key].last <= readings[|readings| - 1])
  {
    if calls != [] {
      var n := |calls| - 1;
      var before, readings := Readings(calls[..n], key), Readings(calls, key);
      forall i | 0 < i < |before| ensures before[i - 1] + 0.2 <= before[i] {
        assert before[i - 1] == readings[i - 1] && before[i] == readings[i];
      }
      SpacedSourceClock(calls[..n], key);
      NextInRange(Run(map[], calls[..n]), calls[n]);
      if Key(calls[n].source) == key {
        SpacedCallAdmitted(Run(map[], calls[..n]), calls[n], readings);
      }
    }
  }

  lemma SpacedCallAdmitted(buckets: Buckets, call: Call, readings: seq<real>)
    requires AllInRange(buckets) && SpacedOut(readings)
    requires readings != [] && readings[|readings| - 1] == call.now
    requires Key(call.source) in buckets ==> |readings| > 1 && buckets[Key(call.source)].last <= readings[|readings| - 2]
    ensures Admits(buckets, call) && Next(buckets, call)[Key(call.source)].last == call.now
  {
  }

  /** A source whose calls are 0.2 s apart by its clock has every one of them admitted, resets of
      the table included. */
  lemma SpacedSourceIsNeverRefused(calls: seq<Call>, key: string)
    requires SpacedOut(Readings(calls, key))
    ensures Admitted(map[], calls, key) == |Readings(calls, key)|
  {
    SpacedSourceClock(calls, key);
  }

  // ----- a new source has a whole burst -----

  lemma {:induction false} BurstLeft(start: Buckets, calls: seq<Call>, key: string)
    requires key !in start && NoReset(start, calls) && |Readings(calls, key)| <= 50
    ensures
      var now, readings := Run(start, calls), Readings(calls, key);
      && Admitted(start, calls, key) == |readings|
      && (key in now <==> readings != [])
      && (key in now ==> now[key].tokens >= 50.0 - |readings| as real)
  {
    if calls != [] {
      var n := |calls| - 1;
      NoResetPrefix(start, calls);
      BurstLeft(start, calls[..n], key);
    }
  }

  /** A source without a bucket has its first fifty calls admitted, however close together they are
      and whatever the others do, as long as the table is not emptied. */
  lemma FirstFiftyAdmitted(history: seq<Call>, calls: seq<Call>, key: string)
    requires key !in Run(map[], history) && NoReset(Run(map[], history), calls)
    requires |Readings(calls, key)| <= 50
    ensures Admitted(Run(map[], history), calls, key) == |Readings(calls, key)|
  {
    BurstLeft(Run(map[], history), calls, key);
  }
}
