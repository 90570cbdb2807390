/** The provider's versioned cache of group resolutions, under any interleaving of bearer
    verifications, mapping replacements, resolver changes and evictions. */
module OidcCache {
  import opened Wrappers
  import opened Groups

  type Time = int

  datatype Cached = Cached(resolution: Resolution, groups: seq<string>, expiresAt: Time, version: nat)

  /** The provider fields behind its mutex. */
  datatype Provider = Provider(mappings: seq<Rule>, version: nat, cache: map<string, Cached>)

  /** What a verification copies out of the provider in its first critical section. */
  datatype Snapshot = Snapshot(mappings: seq<Rule>, version: nat, now: Time, cached: Option<Cached>)

  function TakeSnapshot(p: Provider, subject: string, now: Time): Snapshot {
    Snapshot(p.mappings, p.version, now, if subject in p.cache then Some(p.cache[subject]) else None)
  }

  function ReplaceMappings(p: Provider, rules: seq<Rule>): Provider {
    Provider(rules, p.version + 1, map[])
  }

  function Evict(p: Provider, subject: string): Provider {
    p.(cache := p.cache - {subject})
  }

  /** The write-back: dropped when the mappings were replaced since the snapshot. */
  function Store(p: Provider, subject: string, entry: Cached): Provider {
    if p.version == entry.version then p.(cache := p.cache[subject := entry]) else p
  }

  predicate Live(snap: Snapshot) {
    snap.cached.Some? && snap.now < snap.cached.value.expiresAt
  }

  /** The cached resolution may be served: same mapping version, unexpired, same token groups. */
  predicate Hit(snap: Snapshot, tokenGroups: seq<string>, useCache: bool) {
    useCache && Live(snap) && snap.cached.value.version == snap.version && multiset(tokenGroups) == multiset(snap.cached.value.groups)
  }

  /** The group resolver, when there is one, is consulted unless a live entry exists. */
  predicate ConsultsResolver(snap: Snapshot, useCache: bool, resolver: bool) {
    resolver && (!useCache || !Live(snap))
  }

  // ----- the class holding the fields -----

  class OidcProvider {
    var groupMappings: seq<Rule>
    var mappingVersion: nat
    var groupCache: map<string, Cached>
    const groupCacheTTL: Time

    function View(): Provider
      reads this
    {
      Provider(groupMappings, mappingVersion, groupCache)
    }

    constructor (rules: seq<Rule>, ttl: Time)
      ensures View() == Provider(rules, 1, map[]) && groupCacheTTL == ttl
    {
      groupMappings, mappingVersion, groupCache, groupCacheTTL := rules, 1, map[], ttl;
    }

    method SetGroupMappings(rules: seq<Rule>)
      modifies this
      ensures View() == ReplaceMappings(old(View()), rules)
    {
      groupMappings := rules;
      mappingVersion := mappingVersion + 1;
      groupCache := map[];
    }

    method EvictSubject(subject: string)
      modifies this`groupCache
      ensures View() == (if subject == "" then old(View()) else Evict(old(View()), subject))
    {
      if subject == "" {
        return;
      }
      groupCache := groupCache - {subject};
    }

    /** The first critical section of a verification and the cache test that follows it. */
    method Lookup(subject: string, tokenGroups: seq<string>, useCache: bool, now: Time)
      returns (snap: Snapshot, hit: bool)
      ensures snap == TakeSnapshot(View(), subject, now)
      ensures hit <==> |snap.mappings| > 0 && Hit(snap, tokenGroups, useCache)
    {
      snap := Snapshot(groupMappings, mappingVersion, now, if subject in groupCache then Some(groupCache[subject]) else None);
      hit := false;
      if |snap.mappings| > 0 && useCache && snap.cached.Some? {
        var cached := snap.cached.value;
        if cached.version == snap.version && now < cached.expiresAt {
          hit := SameStringSet(tokenGroups, cached.groups);
        }
      }
    }

    /** What follows a miss: resolve under the snapshot's rules, then evict or write back. */
    method Conclude(subject: string, snap: Snapshot, groups: seq<string>) returns (r: Option<Resolution>)
      requires subject != ""
      modifies this`groupCache
      ensures r == Resolve(groups, snap.mappings)
      ensures View() == match r
                        case None => Evict(old(View()), subject)
                        case Some(res) => Store(old(View()), subject, Cached(res, groups, snap.now + groupCacheTTL, snap.version))
    {
      r := ResolveGroupMappings(groups, snap.mappings);
      if r.None? {
        EvictSubject(subject);
      } else if mappingVersion == snap.version {
        groupCache := groupCache[subject := Cached(r.value, groups, snap.now + groupCacheTTL, snap.version)];
      }
    }
  }

  // ----- concurrent verifications -----

  datatype Answer =
    | FromCache(resolution: Resolution, groups: seq<string>)
    | Resolved(resolution: Resolution, groups: seq<string>)
    | Forbidden
    | Unmapped

  datatype Verification = Verification(
    subject: string, tokenGroups: seq<string>, useCache: bool, resolver: bool, snap: Snapshot, answer: Option<Answer>)

  /** `history[v]` is the mapping list that was current while the version was `v`. */
  datatype System = System(provider: Provider, resolver: bool, ttl: Time, history: map<nat, seq<Rule>>, verifications: seq<Verification>)

  datatype Event =
    | Begin(subject: string, tokenGroups: seq<string>, useCache: bool, now: Time)
    | Finish(v: nat, groups: seq<string>)
    | ResolverFails(v: nat)
    | SetMappings(rules: seq<Rule>)
    | SetResolver(present: bool)
    | EvictFor(subject: string)

  function Init(rules: seq<Rule>, ttl: Time): System {
    System(Provider(rules, 1, map[]), false, ttl, map[1 := rules], [])
  }

  predicate Enabled(s: System, e: Event) {
    match e
    case Finish(v, groups) =>
      && v < |s.verifications| && s.verifications[v].answer.None?
      && var q := s.verifications[v]; !ConsultsResolver(q.snap, q.useCache, q.resolver) ==> groups == q.tokenGroups
    case ResolverFails(v) =>
      && v < |s.verifications| && s.verifications[v].answer.None?
      && var q := s.verifications[v]; ConsultsResolver(q.snap, q.useCache, q.resolver)
    case _ => true
  }

  function FirstAnswer(snap: Snapshot, tokenGroups: seq<string>, useCache: bool): Option<Answer> {
    if |snap.mappings| == 0 then Some(Unmapped)
    else if Hit(snap, tokenGroups, useCache) then Some(FromCache(snap.cached.value.resolution, snap.cached.value.groups))
    else None
  }

  function SetAnswer(s: System, v: nat, answer: Answer): System
    requires v < |s.verifications|
  {
    s.(verifications := s.verifications[v := s.verifications[v].(answer := Some(answer))])
  }

  function Step(s: System, e: Event): System
    requires Enabled(s, e)
  {
    match e
    case Begin(subject, tokenGroups, useCache, now) =>
      var snap := TakeSnapshot(s.provider, subject, now);
      s.(verifications := s.verifications +
        [Verification(subject, tokenGroups, useCache, s.resolver, snap, FirstAnswer(snap, tokenGroups, useCache))])
    case Finish(v, groups) =>
      var q := s.verifications[v];
      (match Resolve(groups, q.snap.mappings)
       case None => SetAnswer(s.(provider := Evict(s.provider, q.subject)), v, Forbidden)
       case Some(res) =>
         var entry := Cached(res, groups, q.snap.now + s.ttl, q.snap.version);
         SetAnswer(s.(provider := Store(s.provider, q.subject, entry)), v, Resolved(res, groups)))
    case ResolverFails(v) => SetAnswer(s, v, Forbidden)
    case SetMappings(rules) =>
      s.(provider := ReplaceMappings(s.provider, rules), history := s.history[s.provider.version + 1 := rules])
    case SetResolver(present) => s.(resolver := present, provider := s.provider.(cache := map[]))
    case EvictFor(subject) => s.(provider := Evict(s.provider, subject))
  }

  /** An entry holds what its recorded groups resolve to under the mappings of its version. */
  predicate EntryInv(s: System, c: Cached) {
    c.version in s.history && Resolve(c.groups, s.history[c.version]) == Some(c.resolution)
  }

  ghost predicate VerificationInv(s: System, q: Verification) {
    && q.snap.version in s.history && s.history[q.snap.version] == q.snap.mappings
    && (q.snap.cached.Some? ==> EntryInv(s, q.snap.cached.value))
    && (match q.answer
        case Some(FromCache(res, groups)) =>
          && Resolve(q.tokenGroups, q.snap.mappings) == Some(res)
          && multiset(groups) == multiset(q.tokenGroups)
        case Some(Resolved(res, groups)) => Resolve(groups, q.snap.mappings) == Some(res)
        case _ => true)
  }

  ghost predicate Inv(s: System) {
    && s.provider.version in s.history && s.history[s.provider.version] == s.provider.mappings
    && (forall v :: v in s.history ==> v <= s.provider.version)
    && (forall x :: x in s.provider.cache ==> EntryInv(s, s.provider.cache[x]))
    && (forall i :: 0 <= i < |s.verifications| ==> VerificationInv(s, s.verifications[i]))
  }

  /** A token listing the cached groups in another order resolves to the cached answer. */
  lemma HitIsExact(s: System, snap: Snapshot, tokenGroups: seq<string>, useCache: bool)
    requires snap.version in s.history && s.history[snap.version] == snap.mappings
    requires snap.cached.Some? ==> EntryInv(s, snap.cached.value)
    requires Hit(snap, tokenGroups, useCache)
    ensures Resolve(tokenGroups, snap.mappings) == Some(snap.cached.value.resolution)
  {
    var groups := snap.cached.value.groups;
    forall g ensures g in tokenGroups <==> g in groups {
      assert g in multiset(tokenGroups) <==> g in multiset(groups);
    }
    OrderAndRepetitionIrrelevant(tokenGroups, groups, snap.mappings);
  }

  lemma StepKeepsHistory(s: System, e: Event)
    requires Inv(s) && Enabled(s, e)
    ensures forall v :: v in s.history ==> v in Step(s, e).history && Step(s, e).history[v] == s.history[v]
  {
  }

  lemma StepKeepsEntries(s: System, e: Event)
    requires Inv(s) && Enabled(s, e)
    ensures forall x :: x in Step(s, e).provider.cache ==> EntryInv(Step(s, e), Step(s, e).provider.cache[x])
  {
    StepKeepsHistory(s, e);
  }

  lemma EntryStays(s: System, s': System, c: Cached)
    requires EntryInv(s, c) && forall v :: v in s.history ==> v in s'.history && s'.history[v] == s.history[v]
    ensures EntryInv(s', c)
  {
  }

  lemma VerificationStays(s: System, s': System, q: Verification)
    requires VerificationInv(s, q) && forall v :: v in s.history ==> v in s'.history && s'.history[v] == s.history[v]
    ensures VerificationInv(s', q)
  {
    if q.snap.cached.Some? { EntryStays(s, s', q.snap.cached.value); }
  }

  lemma BeginKeepsVerification(s: System, e: Event)
    requires Inv(s) && e.Begin?
    ensures VerificationInv(s, Step(s, e).verifications[|s.verifications|])
  {
    var snap := TakeSnapshot(s.provider, e.subject, e.now);
    if snap.cached.Some? { assert EntryInv(s, snap.cached.value); }
    if Hit(snap, e.tokenGroups, e.useCache) {
      HitIsExact(s, snap, e.tokenGroups, e.useCache);
    }
  }

  lemma StepKeepsVerification(s: System, e: Event, i: nat)
    requires Inv(s) && Enabled(s, e) && i < |Step(s, e).verifications|
    ensures VerificationInv(Step(s, e), Step(s, e).verifications[i])
  {
    var s' := Step(s, e);
    StepKeepsHistory(s, e);
    if i < |s.verifications| {
      VerificationStays(s, s', s.verifications[i]);
    } else {
      BeginKeepsVerification(s, e);
      VerificationStays(s, s', s'.verifications[i]);
    }
  }

  lemma StepKeepsInv(s: System, e: Event)
    requires Inv(s) && Enabled(s, e)
    ensures Inv(Step(s, e))
  {
    StepKeepsEntries(s, e);
    var s' := Step(s, e);
    forall i | 0 <= i < |s'.verifications| ensures VerificationInv(s', s'.verifications[i]) {
      StepKeepsVerification(s, e, i);
    }
  }

  function After(rules: seq<Rule>, ttl: Time, events: seq<Event>): Option<System> {
    if events == [] then Some(Init(rules, ttl))
    else
      var before := After(rules, ttl, events[..|events| - 1]);
      if before.Some? && Enabled(before.value, events[|events| - 1]) then Some(Step(before.value, events[|events| - 1])) else None
  }

  lemma {:induction false} RunKeepsInv(rules: seq<Rule>, ttl: Time, events: seq<Event>)
    requires After(rules, ttl, events).Some?
    ensures Inv(After(rules, ttl, events).value)
  {
    if events != [] {
      RunKeepsInv(rules, ttl, events[..|events| - 1]);
      StepKeepsInv(After(rules, ttl, events[..|events| - 1]).value, events[|events| - 1]);
    }
  }

  /** In every run, a cache hit answers with exactly the workspace, role and grants that the
      token's own groups resolve to under the mappings the request snapshotted. */
  lemma CacheNeverChangesAnAnswer(rules: seq<Rule>, ttl: Time, events: seq<Event>, v: nat)
    requires After(rules, ttl, events).Some? && v < |After(rules, ttl, events).value.verifications|
    requires After(rules, ttl, events).value.verifications[v].answer.Some?
    requires After(rules, ttl, events).value.verifications[v].answer.value.FromCache?
    ensures
      var q := After(rules, ttl, events).value.verifications[v];
      Resolve(q.tokenGroups, q.snap.mappings) == Some(q.answer.value.resolution)
  {
    RunKeepsInv(rules, ttl, events);
  }

  // ----- what is served, and for how long -----

  /** How a verification starts: without mappings it is let through unmapped; with an entry of its
      subject that has the current version, is not past its expiry and lists the token's groups, it is
      answered with that entry, provided it may use the cache; otherwise it goes on to resolve. */
  lemma BeginIsAnswered(s: System, e: Event)
    requires e.Begin?
    ensures Step(s, e).provider == s.provider
    ensures
      var q := Step(s, e).verifications[|s.verifications|];
      && q.subject == e.subject && q.tokenGroups == e.tokenGroups && q.useCache == e.useCache && q.resolver == s.resolver
      && q.snap.mappings == s.provider.mappings && q.snap.version == s.provider.version && q.snap.now == e.now
      && (q.answer == Some(Unmapped) <==> s.provider.mappings == [])
      && (s.provider.mappings != [] ==>
            if e.useCache && e.subject in s.provider.cache &&
               var c := s.provider.cache[e.subject];
               c.version == s.provider.version && e.now < c.expiresAt && multiset(c.groups) == multiset(e.tokenGroups)
            then
              q.answer == Some(FromCache(s.provider.cache[e.subject].resolution, s.provider.cache[e.subject].groups))
            else q.answer == None)
  {
  }

  /** Verification `w` resolved subject `x` and left the entry `c`, good for the lifetime of entries. */
  ghost predicate Wrote(s: System, w: nat, x: string, c: Cached) {
    && w < |s.verifications|
    && var q := s.verifications[w];
    && q.subject == x
    && q.answer == Some(Resolved(c.resolution, c.groups))
    && c.version == q.snap.version
    && c.expiresAt == q.snap.now + s.ttl
  }

  ghost predicate EntryHasOrigin(s: System, x: string) {
    x in s.provider.cache ==>
      s.provider.cache[x].version == s.provider.version && exists w: nat :: Wrote(s, w, x, s.provider.cache[x])
  }

  ghost predicate SnapshotHasOrigin(s: System, v: nat) {
    v < |s.verifications| && s.verifications[v].snap.cached.Some? ==>
      var q := s.verifications[v];
      q.snap.cached.value.version == q.snap.version && exists w: nat :: w < v && Wrote(s, w, q.subject, q.snap.cached.value)
  }

  predicate ServedSnapshot(q: Verification) {
    match q.answer
    case Some(FromCache(res, groups)) =>
      && q.useCache && q.snap.mappings != [] && q.snap.cached.Some?
      && var c := q.snap.cached.value;
      c.resolution == res && c.groups == groups && q.snap.now < c.expiresAt && multiset(groups) == multiset(q.tokenGroups)
    case _ => true
  }

  ghost predicate OriginInv(s: System) {
    && (forall x :: EntryHasOrigin(s, x))
    && (forall v: nat :: SnapshotHasOrigin(s, v))
    && (forall v :: 0 <= v < |s.verifications| ==> ServedSnapshot(s.verifications[v]))
  }

  lemma WroteStays(s: System, e: Event, w: nat, x: string, c: Cached)
    requires Enabled(s, e) && Wrote(s, w, x, c)
    ensures Wrote(Step(s, e), w, x, c)
  {
  }

  lemma StepKeepsEntryOrigin(s: System, e: Event, x: string)
    requires Enabled(s, e) && EntryHasOrigin(s, x)
    ensures EntryHasOrigin(Step(s, e), x)
  {
    var s' := Step(s, e);
    if x in s'.provider.cache {
      var c := s'.provider.cache[x];
      if x in s.provider.cache && s.provider.cache[x] == c {
        var w: nat :| Wrote(s, w, x, c);
        WroteStays(s, e, w, x, c);
      } else {
        assert Wrote(s', e.v, x, c);
      }
    }
  }

  lemma StepKeepsSnapshotOrigin(s: System, e: Event, v: nat)
    requires Enabled(s, e) && SnapshotHasOrigin(s, v) && forall x :: EntryHasOrigin(s, x)
    ensures SnapshotHasOrigin(Step(s, e), v)
  {
    var s' := Step(s, e);
    if v < |s'.verifications| && s'.verifications[v].snap.cached.Some? {
      var q := s'.verifications[v];
      assert v >= |s.verifications| ==> EntryHasOrigin(s, q.subject);
      var w: nat :| w < |s.verifications| && (v < |s.verifications| ==> w < v) && Wrote(s, w, q.subject, q.snap.cached.value);
      WroteStays(s, e, w, q.subject, q.snap.cached.value);
    }
  }

  lemma {:induction false} RunKeepsOrigins(rules: seq<Rule>, ttl: Time, events: seq<Event>)
    requires After(rules, ttl, events).Some?
    ensures OriginInv(After(rules, ttl, events).value)
    ensures After(rules, ttl, events).value.ttl == ttl
  {
    if events != [] {
      var s, e := After(rules, ttl, events[..|events| - 1]).value, events[|events| - 1];
      RunKeepsOrigins(rules, ttl, events[..|events| - 1]);
      forall x ensures EntryHasOrigin(Step(s, e), x) { StepKeepsEntryOrigin(s, e, x); }
      forall v: nat ensures SnapshotHasOrigin(Step(s, e), v) { StepKeepsSnapshotOrigin(s, e, v); }
    }
  }

  /** In every run, what the cache answers was resolved by an earlier verification of the same subject
      under the same mappings, from the same groups, less than the lifetime of an entry before. */
  lemma ServedIsRecent(rules: seq<Rule>, ttl: Time, events: seq<Event>, v: nat) returns (w: nat)
    requires After(rules, ttl, events).Some? && v < |After(rules, ttl, events).value.verifications|
    requires After(rules, ttl, events).value.verifications[v].answer.Some?
    requires After(rules, ttl, events).value.verifications[v].answer.value.FromCache?
    ensures w < v
    ensures
      var all := After(rules, ttl, events).value.verifications;
      var q, earlier := all[v], all[w];
      && earlier.subject == q.subject
      && earlier.answer == Some(Resolved(q.answer.value.resolution, q.answer.value.groups))
      && earlier.snap.version == q.snap.version && earlier.snap.mappings == q.snap.mappings
      && q.snap.now < earlier.snap.now + ttl
      && multiset(q.answer.value.groups) == multiset(q.tokenGroups)
  {
    RunKeepsOrigins(rules, ttl, events);
    RunKeepsInv(rules, ttl, events);
    var s := After(rules, ttl, events).value;
    var q := s.verifications[v];
    assert SnapshotHasOrigin(s, v) && ServedSnapshot(q);
    w :| w < v && Wrote(s, w, q.subject, q.snap.cached.value);
    assert VerificationInv(s, s.verifications[w]) && VerificationInv(s, q);
  }

  // ----- a resolution is served again, until something takes it back -----

  /** The event leaves the entry of a subject alone. */
  predicate LeavesAlone(s: System, e: Event, subject: string) {
    match e
    case Begin(_, _, _, _) => true
    case Finish(v, _) => v < |s.verifications| && s.verifications[v].subject != subject
    case ResolverFails(_) => true
    case SetMappings(_) => false
    case SetResolver(_) => false
    case EvictFor(other) => other != subject
  }

  /** The events can follow one another from `s`, and none of them touches the entry of the subject. */
  predicate Undisturbed(s: System, events: seq<Event>, subject: string)
    decreases |events|
  {
    events != [] ==>
      Enabled(s, events[0]) && LeavesAlone(s, events[0], subject) && Undisturbed(Step(s, events[0]), events[1..], subject)
  }

  function RunOn(s: System, events: seq<Event>, subject: string): System
    requires Undisturbed(s, events, subject)
    decreases |events|
  {
    if events == [] then s else RunOn(Step(s, events[0]), events[1..], subject)
  }

  predicate SameEntry(before: Provider, now: Provider, subject: string) {
    && subject in before.cache && subject in now.cache && now.cache[subject] == before.cache[subject]
    && now.version == before.version && now.mappings == before.mappings
  }

  lemma StepLeavesAlone(s: System, e: Event, subject: string)
    requires Enabled(s, e) && LeavesAlone(s, e, subject) && subject in s.provider.cache
    ensures SameEntry(s.provider, Step(s, e).provider, subject)
  {
  }

  lemma {:induction false} EntryStaysPut(s: System, events: seq<Event>, subject: string)
    requires Undisturbed(s, events, subject) && subject in s.provider.cache
    ensures SameEntry(s.provider, RunOn(s, events, subject).provider, subject)
    decreases |events|
  {
    if events != [] {
      StepLeavesAlone(s, events[0], subject);
      EntryStaysPut(Step(s, events[0]), events[1..], subject);
    }
  }

  /** Once a verification has resolved under the current mappings, a later one of its subject with the
      same groups is answered from the cache until the entry expires, whatever happens in between that
      does not touch the entry. */
  lemma RepeatIsServed(s: System, v: nat, groups: seq<string>, events: seq<Event>, tokenGroups: seq<string>, now: Time)
    requires Enabled(s, Finish(v, groups))
    requires
      var q := s.verifications[v];
      && q.snap.version == s.provider.version && s.provider.mappings != [] && now < q.snap.now + s.ttl
      && Resolve(groups, q.snap.mappings).Some? && multiset(tokenGroups) == multiset(groups)
      && Undisturbed(Step(s, Finish(v, groups)), events, q.subject)
    ensures
      var q := s.verifications[v];
      var end := RunOn(Step(s, Finish(v, groups)), events, q.subject);
      Step(end, Begin(q.subject, tokenGroups, true, now)).verifications[|end.verifications|].answer ==
      Some(FromCache(Resolve(groups, q.snap.mappings).value, groups))
  {
    var q := s.verifications[v];
    EntryStaysPut(Step(s, Finish(v, groups)), events, q.subject);
    BeginIsAnswered(RunOn(Step(s, Finish(v, groups)), events, q.subject), Begin(q.subject, tokenGroups, true, now));
  }

  /** Replacing the mappings or the resolver and evicting the subject take its entry back, and so does
      a verification of it that ends without a grant: the next one resolves anew. */
  lemma TakenBack(s: System, e: Event, subject: string, tokenGroups: seq<string>, useCache: bool, now: Time)
    requires Enabled(s, e)
    requires
      || e.SetMappings? || e.SetResolver? || e == EvictFor(subject)
      || (e.Finish? && s.verifications[e.v].subject == subject && Resolve(e.groups, s.verifications[e.v].snap.mappings) == None)
    ensures
      var s' := Step(s, e);
      var q := Step(s', Begin(subject, tokenGroups, useCache, now)).verifications[|s'.verifications|];
      q.answer == if s'.provider.mappings == [] then Some(Unmapped) else None
  {
  }

  /** What a verification that was not answered at once is told: the resolution of its groups under the
      rules it read, and nothing if there is none or the resolver failed. */
  lemma EndIsAnswered(s: System, e: Event)
    requires Enabled(s, e) && (e.Finish? || e.ResolverFails?)
    ensures
      var q := s.verifications[e.v];
      Step(s, e).verifications == s.verifications[e.v := q.(answer := Some(
        if e.Finish? && Resolve(e.groups, q.snap.mappings).Some?
        then Resolved(Resolve(e.groups, q.snap.mappings).value, e.groups)
        else Forbidden))]
  {
  }
}
