/** Dashboard sessions minted from OIDC identities: the session table, the revalidation that runs
    between its two critical sections, and the mapping replacements that race with both. */
module Sessions {
  import opened Wrappers
  import opened Roles
  import opened Groups

  type Time = int

  datatype Session = Session(
    expires: Time, grant: Resolution, subject: string, groups: seq<string>, checkedAt: Option<Time>, version: nat)

  datatype Status = Unauthenticated | OK | Forbidden

  /** `cacheTTL` bounds a group grant; `explicitTTL` says the operator set it. */
  datatype Config = Config(sessionTTL: Time, cacheTTL: Time, explicitTTL: bool)

  /** What the provider's group resolver yields, if there is one. */
  datatype Refetch = NoResolver | ResolverError | Fetched(groups: seq<string>)

  // ----- revalidation -----

  predicate GrantExpired(info: Session, config: Config, now: Time) {
    config.cacheTTL > 0 && info.checkedAt.Some? && now >= info.checkedAt.value + config.cacheTTL
  }

  /** revalidateSession for an OIDC session, on the mappings and version read under the lock. */
  function Revalidate(info: Session, config: Config, mappings: seq<Rule>, version: nat, now: Time, refetch: Refetch): (Session, Status) {
    var expired := GrantExpired(info, config, now);
    if mappings == [] || (!expired && info.version == version) then (info, OK)
    else if expired && (refetch.ResolverError? || (refetch.NoResolver? && config.explicitTTL)) then (info, Forbidden)
    else
      var groups := if expired && refetch.Fetched? then refetch.groups else info.groups;
      match Resolve(groups, mappings)
      case None => (info, Forbidden)
      case Some(res) => (info.(grant := res, groups := groups, checkedAt := Some(now), version := version), OK)
  }

  // ----- the session table and its critical sections -----

  type Table = map<string, Session>

  function Sweep(sessions: Table, now: Time): Table {
    map id | id in sessions && now < sessions[id].expires :: sessions[id]
  }

  function Insert(sessions: Table, id: string, info: Session, now: Time): Table {
    Sweep(sessions, now)[id := info]
  }

  /** The first section of a lookup: an expired session is deleted on sight. */
  function Load(sessions: Table, id: string, now: Time): (Table, Option<Session>) {
    if id == "" || id !in sessions then (sessions, None)
    else if now >= sessions[id].expires then (sessions - {id}, None)
    else (sessions, Some(sessions[id]))
  }

  /** The write-back section: nothing is written for a session that has gone meanwhile. */
  function WriteBack(sessions: Table, id: string, updated: Session, status: Status): (Table, Status) {
    if id !in sessions then (sessions, Unauthenticated)
    else if status != OK then (sessions - {id}, status)
    else (sessions[id := updated], OK)
  }

  class Authenticator {
    var sessions: Table

    constructor ()
      ensures sessions == map[]
    {
      sessions := map[];
    }

    method DropSession(id: string)
      modifies this
      ensures sessions == if id == "" then old(sessions) else old(sessions) - {id}
    {
      if id == "" {
        return;
      }
      sessions := sessions - {id};
    }

    method SweepLocked(now: Time)
      modifies this
      ensures sessions == Sweep(old(sessions), now)
      ensures forall id :: id in sessions <==> id in old(sessions) && now < old(sessions)[id].expires
      ensures forall id :: id in sessions ==> sessions[id] == old(sessions)[id]
    {
      var ids := sessions.Keys;
      while ids != {}
        invariant ids <= old(sessions.Keys)
        invariant sessions == map id | id in old(sessions) && (id in ids || now < old(sessions)[id].expires) :: old(sessions)[id]
        decreases |ids|
      {
        var id :| id in ids;
        ids := ids - {id};
        if !(now < sessions[id].expires) {
          sessions := sessions - {id};
        }
      }
    }

    method AddSession(id: string, info: Session, now: Time)
      modifies this
      ensures sessions == Insert(old(sessions), id, info, now)
      ensures id in sessions && sessions[id] == info
      ensures forall x :: x != id ==> (x in sessions <==> x in old(sessions) && now < old(sessions)[x].expires)
    {
      SweepLocked(now);
      sessions := sessions[id := info];
    }

    method LoadSession(id: string, now: Time) returns (info: Option<Session>)
      modifies this
      ensures (sessions, info) == Load(old(sessions), id, now)
    {
      if id == "" || id !in sessions {
        return None;
      }
      if !(now < sessions[id].expires) {
        sessions := sessions - {id};
        return None;
      }
      return Some(sessions[id]);
    }

    method StoreRevalidated(id: string, updated: Session, status: Status) returns (answer: Status)
      modifies this
      ensures (sessions, answer) == WriteBack(old(sessions), id, updated, status)
    {
      if id !in sessions {
        return Unauthenticated;
      }
      if status != OK {
        sessions := sessions - {id};
        return status;
      }
      sessions := sessions[id := updated];
      return OK;
    }
  }

  // ----- requests, logins and mapping replacements -----

  datatype LookupPhase =
    | Loaded(info: Session)
    | Checked(info: Session, snapshot: nat, now: Time, refetch: Refetch, updated: Session, status: Status)
    | Refused(status: Status)
    | Admitted(loaded: Session, snapshot: nat, now: Time, refetch: Refetch, answer: Session)

  /** A request in flight; `started` is the mapping version when it arrived. */
  datatype Lookup = Lookup(id: string, started: nat, phase: LookupPhase)

  datatype LoginPhase =
    | Identified
    | Labelled(version: nat, checkedAt: Time)
    | Finished

  /** A sign-in: its grant was resolved under version `resolved`, its label is read later. */
  datatype Login = Login(subject: string, groups: seq<string>, grant: Resolution, resolved: nat, phase: LoginPhase)

  /** History variables: `history[v]` is the mapping list of version `v`, `minted` remembers every
      session as created, `resolved` the version its grant was resolved under. */
  datatype System = System(
    config: Config, sessions: Table, mappings: seq<Rule>, version: nat,
    history: map<nat, seq<Rule>>, minted: Table, resolved: map<string, nat>, lookups: seq<Lookup>, logins: seq<Login>)

  function Init(config: Config, rules: seq<Rule>): System {
    System(config, map[], rules, 1, map[1 := rules], map[], map[], [], [])
  }

  datatype Event =
    | SetMappings(rules: seq<Rule>)
    | Identify(subject: string, groups: seq<string>, unmapped: Resolution)
    | Label(login: nat, now: Time)
    | Mint(login: nat, id: string, now: Time)
    | MintStatic(id: string, grant: Resolution, now: Time)
    | Drop(id: string)
    | Start(id: string, now: Time)
    | Check(lookup: nat, now: Time, refetch: Refetch)
    | Store(lookup: nat)

  predicate Enabled(s: System, e: Event) {
    match e
    case Identify(subject, groups, _) => subject != "" && (s.mappings != [] ==> Resolve(groups, s.mappings).Some?)
    case Label(l, _) => l < |s.logins| && s.logins[l].phase.Identified?
    case Mint(l, id, _) => l < |s.logins| && s.logins[l].phase.Labelled? && id != "" && id !in s.minted
    case MintStatic(id, _, _) => id != "" && id !in s.minted
    case Check(k, _, _) => k < |s.lookups| && s.lookups[k].phase.Loaded?
    case Store(k) => k < |s.lookups| && s.lookups[k].phase.Checked?
    case _ => true
  }

  /** Sign-in fails closed when mappings exist and the identity carries no grant. */
  predicate FailsClosed(s: System, grant: Resolution) {
    s.mappings != [] && (grant.role == Unknown || grant.workspace == "")
  }

  /** Without mappings an identity with no role or workspace gets the operator defaults. */
  function Defaulted(grant: Resolution): Resolution {
    grant.(role := if grant.role == Unknown then Admin else grant.role,
           workspace := if grant.workspace == "" then "default" else grant.workspace)
  }

  function NewSession(s: System, l: Login, now: Time): Session
    requires l.phase.Labelled?
  {
    Session(now + s.config.sessionTTL, Defaulted(l.grant), l.subject, l.groups, Some(l.phase.checkedAt), l.phase.version)
  }

  function SetLookup(s: System, k: nat, phase: LookupPhase): System
    requires k < |s.lookups|
  {
    s.(lookups := s.lookups[k := s.lookups[k].(phase := phase)])
  }

  function Step(s: System, e: Event): System
    requires Enabled(s, e)
  {
    match e
    case SetMappings(rules) =>
      s.(mappings := rules, version := s.version + 1, history := s.history[s.version + 1 := rules])
    case Identify(subject, groups, unmapped) =>
      s.(logins := s.logins + [
        if s.mappings == [] then Login(subject, [], unmapped, s.version, Identified)
        else Login(subject, groups, Resolve(groups, s.mappings).value, s.version, Identified)])
    case Label(l, now) =>
      var phase := if FailsClosed(s, s.logins[l].grant) then Finished else Labelled(s.version, now);
      s.(logins := s.logins[l := s.logins[l].(phase := phase)])
    case Mint(l, id, now) =>
      var info := NewSession(s, s.logins[l], now);
      s.(sessions := Insert(s.sessions, id, info, now),
         minted := s.minted[id := info],
         resolved := s.resolved[id := s.logins[l].resolved],
         logins := s.logins[l := s.logins[l].(phase := Finished)])
    case MintStatic(id, grant, now) =>
      var info := Session(now + s.config.sessionTTL, grant, "", [], None, 0);
      s.(sessions := Insert(s.sessions, id, info, now), minted := s.minted[id := info])
    case Drop(id) => s.(sessions := s.sessions - {id})
    case Start(id, now) =>
      var (sessions, info) := Load(s.sessions, id, now);
      var phase :=
        if info.None? then Refused(Unauthenticated)
        else if info.value.subject == "" then Admitted(info.value, s.version, now, NoResolver, info.value)
        else Loaded(info.value);
      s.(sessions := sessions, lookups := s.lookups + [Lookup(id, s.version, phase)])
    case Check(k, now, refetch) =>
      var info := s.lookups[k].phase.info;
      var (updated, status) := Revalidate(info, s.config, s.mappings, s.version, now, refetch);
      SetLookup(s, k, Checked(info, s.version, now, refetch, updated, status))
    case Store(k) =>
      var q := s.lookups[k];
      var (sessions, status) := WriteBack(s.sessions, q.id, q.phase.updated, q.phase.status);
      SetLookup(s.(sessions := sessions), k,
        if status == OK then Admitted(q.phase.info, q.phase.snapshot, q.phase.now, q.phase.refetch, q.phase.updated)
        else Refused(status))
  }

  function After(config: Config, rules: seq<Rule>, events: seq<Event>): Option<System> {
    if events == [] then Some(Init(config, rules))
    else
      var before := After(config, rules, events[..|events| - 1]);
      if before.Some? && Enabled(before.value, events[|events| - 1]) then Some(Step(before.value, events[|events| - 1])) else None
  }

  // ----- what the revalidation of a session does -----

  /** The grant was checked so long ago that it has to be checked again. */
  predicate Due(config: Config, info: Session, now: Time) {
    config.cacheTTL > 0 && info.checkedAt.Some? && info.checkedAt.value + config.cacheTTL <= now
  }

  /** The groups that count: the ones just fetched when the check is due and there is a resolver, and
      else the session's own. */
  function CountingGroups(config: Config, info: Session, now: Time, refetch: Refetch): seq<string> {
    match refetch
    case Fetched(groups) => if Due(config, info, now) then groups else info.groups
    case _ => info.groups
  }

  /** A check that is due fails when the resolver does, and when the operator set the bound and there
      is no resolver. */
  predicate Unverifiable(config: Config, info: Session, now: Time, refetch: Refetch) {
    Due(config, info, now) && match refetch
                              case NoResolver => config.explicitTTL
                              case ResolverError => true
                              case Fetched(_) => false
  }

  /** What a revalidation of `info` under `rules`, version `version`, has to come to: nothing without
      mappings or before anything changed; a refusal when it cannot verify or nothing matches; else
      the grant of the counting groups, under a new label. */
  ghost predicate Revalidated(config: Config, info: Session, rules: seq<Rule>, version: nat, now: Time, refetch: Refetch,
                              updated: Session, status: Status) {
    var groups := CountingGroups(config, info, now, refetch);
    if rules == [] || (!Due(config, info, now) && info.version == version) then status == OK && updated == info
    else if Unverifiable(config, info, now, refetch) || IsResolution(groups, rules, None) then status == Forbidden
    else
      && status == OK
      && IsResolution(groups, rules, Some(updated.grant))
      && updated == Session(info.expires, updated.grant, info.subject, groups, Some(now), version)
  }

  lemma RevalidateIsRight(info: Session, config: Config, rules: seq<Rule>, version: nat, now: Time, refetch: Refetch)
    ensures
      var (updated, status) := Revalidate(info, config, rules, version, now, refetch);
      Revalidated(config, info, rules, version, now, refetch, updated, status)
  {
    var groups := CountingGroups(config, info, now, refetch);
    ResolveMeetsSpec(groups, rules);
    ResolveIffSpec(groups, rules, None);
  }

  /** Every check of an OIDC session, and every admission after one, is as it has to be. */
  ghost predicate CheckInv(s: System, q: Lookup) {
    match q.phase
    case Checked(info, snapshot, now, refetch, updated, status) =>
      snapshot in s.history && Revalidated(s.config, info, s.history[snapshot], snapshot, now, refetch, updated, status)
    case Admitted(loaded, snapshot, now, refetch, answer) =>
      loaded.subject != "" ==>
        snapshot in s.history && Revalidated(s.config, loaded, s.history[snapshot], snapshot, now, refetch, answer, OK)
    case _ => true
  }

  ghost predicate VersionInv(s: System) {
    && s.version in s.history && s.history[s.version] == s.mappings
    && (forall v :: v in s.history ==> v <= s.version)
  }

  lemma StepKeepsVersions(s: System, e: Event)
    requires VersionInv(s) && Enabled(s, e)
    ensures VersionInv(Step(s, e)) && Step(s, e).config == s.config
    ensures forall v :: v in s.history ==> v in Step(s, e).history && Step(s, e).history[v] == s.history[v]
  {
  }

  lemma StepKeepsCheck(s: System, e: Event, k: nat)
    requires VersionInv(s) && Enabled(s, e) && k < |Step(s, e).lookups|
    requires k < |s.lookups| ==> CheckInv(s, s.lookups[k])
    ensures CheckInv(Step(s, e), Step(s, e).lookups[k])
  {
    StepKeepsVersions(s, e);
    if e.Check? && e.lookup == k {
      RevalidateIsRight(s.lookups[k].phase.info, s.config, s.mappings, s.version, e.now, e.refetch);
    }
  }

  lemma {:induction false} RunKeepsChecks(config: Config, rules: seq<Rule>, events: seq<Event>)
    requires After(config, rules, events).Some?
    ensures
      var s := After(config, rules, events).value;
      s.config == config && VersionInv(s) && forall k :: 0 <= k < |s.lookups| ==> CheckInv(s, s.lookups[k])
  {
    if events != [] {
      var s, e := After(config, rules, events[..|events| - 1]).value, events[|events| - 1];
      RunKeepsChecks(config, rules, events[..|events| - 1]);
      StepKeepsVersions(s, e);
      forall k | 0 <= k < |Step(s, e).lookups| ensures CheckInv(Step(s, e), Step(s, e).lookups[k]) { StepKeepsCheck(s, e, k); }
    }
  }

  /** In every run an OIDC session is admitted exactly as it has to be: with the grant of the groups
      just fetched when its check was due, and of its own groups otherwise. */
  lemma AdmissionIsRight(config: Config, rules: seq<Rule>, events: seq<Event>, k: nat)
    requires After(config, rules, events).Some? && k < |After(config, rules, events).value.lookups|
    requires After(config, rules, events).value.lookups[k].phase.Admitted?
    requires After(config, rules, events).value.lookups[k].phase.loaded.subject != ""
    ensures
      var s := After(config, rules, events).value;
      var Admitted(loaded, snapshot, now, refetch, answer) := s.lookups[k].phase;
      snapshot in s.history && Revalidated(config, loaded, s.history[snapshot], snapshot, now, refetch, answer, OK)
  {
    RunKeepsChecks(config, rules, events);
  }

  // ----- what each step answers -----

  /** A request is let in to a session that exists and has not expired, and to no other; an expired
      one is deleted on sight, and no other session changes. */
  lemma StartIsAnswered(s: System, id: string, now: Time)
    ensures
      var s' := Step(s, Start(id, now));
      var q := s'.lookups[|s.lookups|];
      && q.id == id && q.started == s.version
      && (if id != "" && id in s.sessions && now < s.sessions[id].expires then
            && s'.sessions == s.sessions
            && q.phase == (if s.sessions[id].subject == ""
                           then Admitted(s.sessions[id], s.version, now, NoResolver, s.sessions[id])
                           else Loaded(s.sessions[id]))
          else
            && q.phase == Refused(Unauthenticated)
            && forall x :: x in s'.sessions <==> x in s.sessions && (x != id || now < s.sessions[x].expires || x == ""))
      && forall x :: x in s'.sessions ==> s'.sessions[x] == s.sessions[x]
  {
  }

  /** The end of a lookup: unauthenticated when the session has gone, refused and deleted when the
      check refused it, and else admitted with what the check came to, which is also what is stored. */
  lemma StoreIsAnswered(s: System, k: nat)
    requires Enabled(s, Store(k))
    ensures
      var q, s' := s.lookups[k], Step(s, Store(k));
      var Checked(info, snapshot, now, refetch, updated, status) := q.phase;
      if q.id !in s.sessions then s'.lookups[k].phase == Refused(Unauthenticated) && s'.sessions == s.sessions
      else if status != OK then s'.lookups[k].phase == Refused(status) && s'.sessions == s.sessions - {q.id}
      else
        && s'.lookups[k].phase == Admitted(info, snapshot, now, refetch, updated)
        && s'.sessions == s.sessions[q.id := updated]
  {
  }

  /** A sign-in under mappings carries what its groups resolve to under them; without any it carries the
      identity's own grant and no groups. */
  lemma SignInIsResolved(s: System, e: Event)
    requires e.Identify? && Enabled(s, e)
    ensures
      var s' := Step(s, e);
      var login := s'.logins[|s.logins|];
      && s'.sessions == s.sessions && login.subject == e.subject && login.resolved == s.version && login.phase == Identified
      && if s.mappings == [] then login.grant == e.unmapped && login.groups == []
         else login.groups == e.groups && IsResolution(e.groups, s.mappings, Some(login.grant))
  {
    ResolveMeetsSpec(e.groups, s.mappings);
  }

  /** A sign-in under mappings fails closed: without a role or a workspace it is never minted. */
  lemma SignInFailsClosed(s: System, l: nat, now: Time)
    requires Enabled(s, Label(l, now))
    ensures
      var login, phase := s.logins[l], Step(s, Label(l, now)).logins[l].phase;
      if s.mappings != [] && (login.grant.role == Unknown || login.grant.workspace == "") then phase == Finished
      else phase == Labelled(s.version, now)
  {
  }

  /** A minted session lasts one session TTL and carries its sign-in's identity; only a missing role
      or workspace is filled in. */
  lemma MintedSession(s: System, l: nat, id: string, now: Time)
    requires Enabled(s, Mint(l, id, now))
    ensures
      var login, s' := s.logins[l], Step(s, Mint(l, id, now));
      && id in s'.sessions && id in s'.minted && s'.minted[id] == s'.sessions[id]
      && s'.logins[l].phase == Finished
      && var info := s'.sessions[id];
        && info.expires == now + s.config.sessionTTL
        && info.subject == login.subject && info.groups == login.groups && info.grant.grants == login.grant.grants
        && info.checkedAt == Some(login.phase.checkedAt) && info.version == login.phase.version
        && info.grant.role == (if login.grant.role == Unknown then Admin else login.grant.role)
        && info.grant.workspace == (if login.grant.workspace == "" then "default" else login.grant.workspace)
  {
  }

  // ----- sessions that are gone stay gone, and never outlive their expiry -----

  /** `info` is a state of the session minted under `id`: revalidation left its expiry and owner alone. */
  predicate Descends(s: System, id: string, info: Session) {
    id in s.minted && info.expires == s.minted[id].expires && info.subject == s.minted[id].subject
  }

  predicate LookupInv(s: System, q: Lookup) {
    match q.phase
    case Loaded(info) => Descends(s, q.id, info)
    case Checked(_, _, _, _, updated, _) => Descends(s, q.id, updated)
    case Refused(_) => true
    case Admitted(_, _, _, _, answer) => Descends(s, q.id, answer)
  }

  ghost predicate TableInv(s: System) {
    && (forall id :: id in s.sessions ==> Descends(s, id, s.sessions[id]))
    && (forall k :: 0 <= k < |s.lookups| ==> LookupInv(s, s.lookups[k]))
  }

  lemma StepKeepsMinted(s: System, e: Event, id: string)
    requires Enabled(s, e) && id in s.minted
    ensures id in Step(s, e).minted && Step(s, e).minted[id] == s.minted[id]
    ensures id in s.resolved ==> id in Step(s, e).resolved && Step(s, e).resolved[id] == s.resolved[id]
    ensures id !in s.sessions ==> id !in Step(s, e).sessions
  {
  }

  lemma StepKeepsSession(s: System, e: Event, id: string)
    requires TableInv(s) && Enabled(s, e) && id in Step(s, e).sessions
    ensures Descends(Step(s, e), id, Step(s, e).sessions[id])
  {
    if id in s.sessions {
      assert Descends(s, id, s.sessions[id]);
      StepKeepsMinted(s, e, id);
    }
    if e.Store? {
      assert LookupInv(s, s.lookups[e.lookup]);
    }
  }

  lemma StepKeepsLookup(s: System, e: Event, k: nat)
    requires TableInv(s) && Enabled(s, e) && k < |Step(s, e).lookups|
    ensures LookupInv(Step(s, e), Step(s, e).lookups[k])
  {
    if k < |s.lookups| {
      assert LookupInv(s, s.lookups[k]);
      if s.lookups[k].id in s.minted { StepKeepsMinted(s, e, s.lookups[k].id); }
    }
  }

  lemma StepKeepsTable(s: System, e: Event)
    requires TableInv(s) && Enabled(s, e)
    ensures TableInv(Step(s, e))
  {
    var s' := Step(s, e);
    forall id | id in s'.sessions ensures Descends(s', id, s'.sessions[id]) { StepKeepsSession(s, e, id); }
    forall k | 0 <= k < |s'.lookups| ensures LookupInv(s', s'.lookups[k]) { StepKeepsLookup(s, e, k); }
  }

  lemma {:induction false} RunKeepsTable(config: Config, rules: seq<Rule>, events: seq<Event>)
    requires After(config, rules, events).Some?
    ensures TableInv(After(config, rules, events).value)
  {
    if events != [] {
      RunKeepsTable(config, rules, events[..|events| - 1]);
      StepKeepsTable(After(config, rules, events[..|events| - 1]).value, events[|events| - 1]);
    }
  }

  /** However a run goes on, a session that was dropped, swept or expired is never put back, not
      even by a revalidation that was already under way, and a live one keeps its expiry. */
  lemma {:induction false} GoneStaysGone(config: Config, rules: seq<Rule>, events: seq<Event>, longer: seq<Event>, id: string)
    requires events <= longer && After(config, rules, events).Some? && After(config, rules, longer).Some?
    requires id in After(config, rules, events).value.minted
    ensures id in After(config, rules, longer).value.minted
    ensures After(config, rules, longer).value.minted[id] == After(config, rules, events).value.minted[id]
    ensures id !in After(config, rules, events).value.sessions ==> id !in After(config, rules, longer).value.sessions
    ensures id in After(config, rules, longer).value.sessions ==>
              After(config, rules, longer).value.sessions[id].expires == After(config, rules, events).value.minted[id].expires
    decreases |longer|
  {
    RunKeepsTable(config, rules, longer);
    if |longer| > |events| {
      var before := longer[..|longer| - 1];
      RunKeepsTable(config, rules, before);
      GoneStaysGone(config, rules, events, before, id);
      StepKeepsMinted(After(config, rules, before).value, longer[|longer| - 1], id);
    } else {
      assert longer == events;
    }
  }

  // ----- answers carry a current label -----

  predicate HistoryInv(s: System) {
    && s.version in s.history && s.history[s.version] == s.mappings
    && forall v :: v in s.history ==> v <= s.version
  }

  /** A revalidated session is labelled with the version the revalidation read, which is no
      older than the request itself. */
  predicate LabelInv(s: System, q: Lookup) {
    && q.started <= s.version
    && (match q.phase
        case Checked(info, snapshot, _, _, updated, status) =>
          && q.started <= snapshot && snapshot in s.history && updated.subject == info.subject
          && (status == OK && s.history[snapshot] != [] ==> updated.version == snapshot)
        case Admitted(loaded, snapshot, _, _, answer) =>
          && q.started <= snapshot && snapshot in s.history && answer.subject == loaded.subject
          && (answer.subject != "" && s.history[snapshot] != [] ==> answer.version == snapshot)
        case _ => true)
  }

  lemma StepKeepsLabels(s: System, e: Event, k: nat)
    requires Enabled(s, e) && HistoryInv(s) && k < |Step(s, e).lookups|
    requires forall j :: 0 <= j < |s.lookups| ==> LabelInv(s, s.lookups[j])
    requires TableInv(s)
    ensures HistoryInv(Step(s, e)) && LabelInv(Step(s, e), Step(s, e).lookups[k])
  {
    if k < |s.lookups| {
      assert LabelInv(s, s.lookups[k]);
    }
  }

  lemma {:induction false} RunKeepsLabels(config: Config, rules: seq<Rule>, events: seq<Event>)
    requires After(config, rules, events).Some?
    ensures HistoryInv(After(config, rules, events).value)
    ensures forall k :: 0 <= k < |After(config, rules, events).value.lookups| ==>
              LabelInv(After(config, rules, events).value, After(config, rules, events).value.lookups[k])
  {
    if events != [] {
      var before := events[..|events| - 1];
      RunKeepsTable(config, rules, before);
      RunKeepsLabels(config, rules, before);
      var s, e := After(config, rules, before).value, events[|events| - 1];
      assert HistoryInv(Step(s, e));
      forall k | 0 <= k < |Step(s, e).lookups| ensures LabelInv(Step(s, e), Step(s, e).lookups[k]) {
        StepKeepsLabels(s, e, k);
      }
    }
  }

  /** A request is never admitted on an OIDC session labelled with mappings older than the ones in
      force when it arrived, unless mappings had been removed altogether when it was revalidated. */
  lemma NoOlderLabelIsAdmitted(config: Config, rules: seq<Rule>, events: seq<Event>, k: nat)
    requires After(config, rules, events).Some? && k < |After(config, rules, events).value.lookups|
    requires After(config, rules, events).value.lookups[k].phase.Admitted?
    requires After(config, rules, events).value.lookups[k].phase.answer.subject != ""
    ensures
      var s := After(config, rules, events).value;
      var q := s.lookups[k];
      && q.phase.snapshot in s.history
      && (s.history[q.phase.snapshot] == [] || q.phase.answer.version >= q.started)
  {
    RunKeepsLabels(config, rules, events);
    var s := After(config, rules, events).value;
    assert LabelInv(s, s.lookups[k]);
  }

  // ----- whether the label tells the truth -----

  /** The grant is what the recorded groups resolve to under the mappings of the label. */
  predicate Truthful(s: System, info: Session) {
    info.subject != "" ==>
      && info.version in s.history
      && (s.history[info.version] != [] ==> Resolve(info.groups, s.history[info.version]) == Some(info.grant))
  }

  /** A sign-in carries what its groups resolved to, or no groups if there was nothing to resolve;
      once labelled under mappings it has a role and a workspace of its own. */
  predicate LoginInv(s: System, l: Login) {
    && l.resolved in s.history
    && (if s.history[l.resolved] == [] then l.groups == [] else Resolve(l.groups, s.history[l.resolved]) == Some(l.grant))
    && (l.phase.Labelled? ==>
          l.phase.version in s.history && (s.history[l.phase.version] != [] ==> Defaulted(l.grant) == l.grant))
  }

  /** The mappings gave the groups the same resolution when the grant was resolved and when it was
      labelled, and there were mappings to resolve under. */
  predicate SameResolution(s: System, groups: seq<string>, resolved: nat, version: nat)
    requires resolved in s.history && version in s.history
  {
    s.history[resolved] != [] && Resolve(groups, s.history[resolved]) == Resolve(groups, s.history[version])
  }

  /** A minted label tells the truth exactly when nothing relevant was replaced under the sign-in. */
  ghost predicate MintInv(s: System, id: string) {
    id in s.minted && s.minted[id].subject != "" ==>
      && id in s.resolved && s.resolved[id] in s.history && s.minted[id].version in s.history
      && (Truthful(s, s.minted[id]) <==>
            || s.history[s.minted[id].version] == []
            || SameResolution(s, s.minted[id].groups, s.resolved[id], s.minted[id].version))
  }

  /** A session is as it was minted, or its label tells the truth. */
  predicate Original(s: System, id: string, info: Session) {
    id in s.minted && (info == s.minted[id] || Truthful(s, info))
  }

  predicate LookupOriginal(s: System, q: Lookup) {
    match q.phase
    case Loaded(info) => Original(s, q.id, info)
    case Checked(_, _, _, _, updated, status) => status == OK ==> Original(s, q.id, updated)
    case Refused(_) => true
    case Admitted(_, _, _, _, answer) => Original(s, q.id, answer)
  }

  ghost predicate TruthInv(s: System) {
    && (forall l :: 0 <= l < |s.logins| ==> LoginInv(s, s.logins[l]))
    && (forall id {:trigger MintInv(s, id)} :: MintInv(s, id))
    && (forall id :: id in s.sessions ==> Original(s, id, s.sessions[id]))
    && (forall k :: 0 <= k < |s.lookups| ==> LookupOriginal(s, s.lookups[k]))
  }

  lemma HistoryGrows(s: System, e: Event)
    requires HistoryInv(s) && Enabled(s, e)
    ensures forall v :: v in s.history ==> v in Step(s, e).history && Step(s, e).history[v] == s.history[v]
  {
  }

  lemma StepKeepsLogin(s: System, e: Event, l: nat)
    requires HistoryInv(s) && TruthInv(s) && Enabled(s, e) && l < |Step(s, e).logins|
    ensures LoginInv(Step(s, e), Step(s, e).logins[l])
  {
    HistoryGrows(s, e);
    if l < |s.logins| {
      assert LoginInv(s, s.logins[l]);
    }
  }

  lemma NoGroupsNoGrant(rules: seq<Rule>)
    ensures Resolve([], rules).None?
  {
    assert Present([]) == {};
    NoneResolves(rules);
  }

  /** The exact condition, at the moment a session is minted. */
  lemma MintedLabel(s: System, l: Login, now: Time)
    requires LoginInv(s, l) && l.phase.Labelled?
    ensures
      var info := NewSession(s, l, now);
      l.subject != "" ==>
        (Truthful(s, info) <==>
           s.history[info.version] == [] || SameResolution(s, info.groups, l.resolved, info.version))
  {
    if s.history[l.resolved] == [] {
      NoGroupsNoGrant(s.history[l.phase.version]);
    }
  }

  lemma StepKeepsMint(s: System, e: Event, id: string)
    requires HistoryInv(s) && TruthInv(s) && Enabled(s, e)
    ensures MintInv(Step(s, e), id)
  {
    HistoryGrows(s, e);
    assert MintInv(s, id);
    if id in s.minted {
      StepKeepsMinted(s, e, id);
    } else if e.Mint? && e.id == id {
      assert LoginInv(s, s.logins[e.login]);
      MintedLabel(s, s.logins[e.login], e.now);
    }
  }

  lemma StepKeepsOriginal(s: System, e: Event, id: string, info: Session)
    requires HistoryInv(s) && Enabled(s, e) && Original(s, id, info)
    ensures Original(Step(s, e), id, info)
  {
    HistoryGrows(s, e);
    StepKeepsMinted(s, e, id);
  }

  /** Revalidation leaves a session alone or labels it with what it resolved. */
  lemma RevalidatedIsOriginal(s: System, id: string, info: Session, now: Time, refetch: Refetch)
    requires HistoryInv(s) && Original(s, id, info)
    ensures
      var (updated, status) := Revalidate(info, s.config, s.mappings, s.version, now, refetch);
      status == OK ==> Original(s, id, updated)
  {
  }

  lemma StepKeepsOriginalLookup(s: System, e: Event, k: nat)
    requires HistoryInv(s) && TruthInv(s) && Enabled(s, e) && k < |Step(s, e).lookups|
    ensures LookupOriginal(Step(s, e), Step(s, e).lookups[k])
  {
    if k < |s.lookups| {
      var q := s.lookups[k];
      assert LookupOriginal(s, q);
      match q.phase
      case Loaded(info) =>
        StepKeepsOriginal(s, e, q.id, info);
        if e.Check? && e.lookup == k { RevalidatedIsOriginal(s, q.id, info, e.now, e.refetch); }
      case Checked(_, _, _, _, updated, status) =>
        if status == OK { StepKeepsOriginal(s, e, q.id, updated); }
      case Refused(_) =>
      case Admitted(_, _, _, _, answer) => StepKeepsOriginal(s, e, q.id, answer);
    } else {
      var (sessions, info) := Load(s.sessions, e.id, e.now);
      if info.Some? {
        StepKeepsOriginal(s, e, e.id, info.value);
      }
    }
  }

  lemma StepKeepsOriginalSession(s: System, e: Event, id: string)
    requires HistoryInv(s) && TruthInv(s) && Enabled(s, e) && id in Step(s, e).sessions
    ensures Original(Step(s, e), id, Step(s, e).sessions[id])
  {
    if e.Store? && s.lookups[e.lookup].id == id {
      assert LookupOriginal(s, s.lookups[e.lookup]);
      if s.lookups[e.lookup].phase.status == OK {
        StepKeepsOriginal(s, e, id, s.lookups[e.lookup].phase.updated);
      }
    }
    if id in s.sessions {
      StepKeepsOriginal(s, e, id, s.sessions[id]);
    }
  }

  lemma {:induction false} RunKeepsTruth(config: Config, rules: seq<Rule>, events: seq<Event>)
    requires After(config, rules, events).Some?
    ensures TruthInv(After(config, rules, events).value)
  {
    if events != [] {
      var before := events[..|events| - 1];
      var s, e := After(config, rules, before).value, events[|events| - 1];
      RunKeepsLabels(config, rules, before);
      RunKeepsTruth(config, rules, before);
      var s' := Step(s, e);
      forall l | 0 <= l < |s'.logins| ensures LoginInv(s', s'.logins[l]) { StepKeepsLogin(s, e, l); }
      forall id {:trigger MintInv(s', id)} ensures MintInv(s', id) { StepKeepsMint(s, e, id); }
      forall id | id in s'.sessions ensures Original(s', id, s'.sessions[id]) { StepKeepsOriginalSession(s, e, id); }
      forall k | 0 <= k < |s'.lookups| ensures LookupOriginal(s', s'.lookups[k]) { StepKeepsOriginalLookup(s, e, k); }
    }
  }

  /** The admitted OIDC answer of request `k`. */
  ghost predicate AdmittedOidc(config: Config, rules: seq<Rule>, events: seq<Event>, k: nat) {
    && After(config, rules, events).Some?
    && k < |After(config, rules, events).value.lookups|
    && After(config, rules, events).value.lookups[k].phase.Admitted?
    && After(config, rules, events).value.lookups[k].phase.answer.subject != ""
  }

  /** In every run, the label of an admitted answer is wrong exactly when the session is still as it
      was minted, under mappings, and its grant was resolved under none or under mappings that
      gave its groups another resolution. */
  lemma AdmittedLabelIsWrongIff(config: Config, rules: seq<Rule>, events: seq<Event>, k: nat)
    requires AdmittedOidc(config, rules, events, k)
    ensures
      var s := After(config, rules, events).value;
      var id, answer := s.lookups[k].id, s.lookups[k].phase.answer;
      && id in s.minted && id in s.resolved && s.resolved[id] in s.history && s.minted[id].version in s.history
      && (!Truthful(s, answer) <==>
            && answer == s.minted[id]
            && s.history[answer.version] != []
            && !SameResolution(s, answer.groups, s.resolved[id], answer.version))
  {
    RunKeepsTable(config, rules, events);
    RunKeepsTruth(config, rules, events);
    var s := After(config, rules, events).value;
    assert LookupInv(s, s.lookups[k]) && LookupOriginal(s, s.lookups[k]) && MintInv(s, s.lookups[k].id);
  }

  /** A session whose grant was resolved under the version it is labelled with is only ever admitted
      with the grant its groups have under the mappings its revalidation read. */
  lemma AdmittedGrantIsCurrent(config: Config, rules: seq<Rule>, events: seq<Event>, k: nat)
    requires AdmittedOidc(config, rules, events, k)
    requires
      var s := After(config, rules, events).value;
      var id := s.lookups[k].id;
      id in s.minted && id in s.resolved && s.resolved[id] == s.minted[id].version
    ensures
      var s := After(config, rules, events).value;
      var phase := s.lookups[k].phase;
      && phase.snapshot in s.history
      && (s.history[phase.snapshot] != [] ==> Resolve(phase.answer.groups, s.history[phase.snapshot]) == Some(phase.answer.grant))
  {
    RunKeepsLabels(config, rules, events);
    AdmittedLabelIsWrongIff(config, rules, events, k);
    var s := After(config, rules, events).value;
    assert LabelInv(s, s.lookups[k]);
  }

  /** The race happens for all mappings: a sign-in resolved under `rulesBefore`, possibly none, and
      labelled under `rulesAfter` is admitted with the old grant under the new label. */
  lemma ReplacementDuringSignIn(config: Config, rulesBefore: seq<Rule>, rulesAfter: seq<Rule>, subject: string,
                                groups: seq<string>, unmapped: Resolution, id: string)
    returns (events: seq<Event>)
    requires rulesAfter != [] && subject != "" && id != "" && config.sessionTTL > 0
    requires rulesBefore != [] ==> Resolve(groups, rulesBefore).Some?
    requires
      var grant := if rulesBefore == [] then unmapped else Resolve(groups, rulesBefore).value;
      grant.role != Unknown && grant.workspace != ""
    ensures AdmittedOidc(config, rulesBefore, events, 0)
    ensures
      var s := After(config, rulesBefore, events).value;
      var answer := s.lookups[0].phase.answer;
      && s.mappings == rulesAfter && s.lookups[0].started == s.version == answer.version
      && answer.grant == (if rulesBefore == [] then unmapped else Resolve(groups, rulesBefore).value)
      && (Truthful(s, answer) <==> rulesBefore != [] && Resolve(groups, rulesAfter) == Resolve(groups, rulesBefore))
  {
    events := RacedSignIn(config, rulesBefore, rulesAfter, subject, groups, unmapped, id);
    events := Extend(config, rulesBefore, events, Start(id, 0));
    events := Extend(config, rulesBefore, events, Check(0, 0, NoResolver));
    events := Extend(config, rulesBefore, events, Store(0));
    AdmittedLabelIsWrongIff(config, rulesBefore, events, 0);
  }

  /** The session as that sign-in leaves it. */
  lemma RacedSignIn(config: Config, rulesBefore: seq<Rule>, rulesAfter: seq<Rule>, subject: string,
                    groups: seq<string>, unmapped: Resolution, id: string)
    returns (events: seq<Event>)
    requires rulesAfter != [] && subject != "" && id != ""
    requires rulesBefore != [] ==> Resolve(groups, rulesBefore).Some?
    requires
      var grant := if rulesBefore == [] then unmapped else Resolve(groups, rulesBefore).value;
      grant.role != Unknown && grant.workspace != ""
    ensures After(config, rulesBefore, events).Some?
    ensures
      var s := After(config, rulesBefore, events).value;
      var grant := if rulesBefore == [] then unmapped else Resolve(groups, rulesBefore).value;
      var info := Session(config.sessionTTL, grant, subject, if rulesBefore == [] then [] else groups, Some(0), 2);
      && s.config == config && s.mappings == rulesAfter && s.version == 2 && s.lookups == []
      && s.history == map[1 := rulesBefore, 2 := rulesAfter]
      && s.sessions == map[id := info] && s.minted == map[id := info] && s.resolved == map[id := 1]
  {
    var kept := if rulesBefore == [] then [] else groups;
    var grant := if rulesBefore == [] then unmapped else Resolve(groups, rulesBefore).value;
    events := [];
    events := Extend(config, rulesBefore, events, Identify(subject, groups, unmapped));
    events := Extend(config, rulesBefore, events, SetMappings(rulesAfter));
    events := Extend(config, rulesBefore, events, Label(0, 0));
    assert After(config, rulesBefore, events).value.logins == [Login(subject, kept, grant, 1, Labelled(2, 0))];
    events := Extend(config, rulesBefore, events, Mint(0, id, 0));
  }

  lemma Extend(config: Config, rules: seq<Rule>, events: seq<Event>, e: Event) returns (longer: seq<Event>)
    requires After(config, rules, events).Some? && Enabled(After(config, rules, events).value, e)
    ensures longer == events + [e]
    ensures After(config, rules, longer) == Some(Step(After(config, rules, events).value, e))
  {
    longer := events + [e];
    assert longer[..|longer| - 1] == events;
  }

  /** Race or not, a grant that does not match its label lasts no longer than the cache TTL after
      it was last checked: past that, an admitted answer has been resolved again. */
  lemma StaleGrantIsBounded(config: Config, rules: seq<Rule>, events: seq<Event>, k: nat)
    requires After(config, rules, events).Some? && k < |After(config, rules, events).value.lookups|
    requires After(config, rules, events).value.lookups[k].phase.Admitted?
    requires After(config, rules, events).value.lookups[k].phase.answer.subject != ""
    ensures
      var s := After(config, rules, events).value;
      var Admitted(loaded, snapshot, now, _, answer) := s.lookups[k].phase;
      && snapshot in s.history
      && (|| s.history[snapshot] == []
          || Resolve(answer.groups, s.history[snapshot]) == Some(answer.grant)
          || (answer == loaded && !GrantExpired(loaded, config, now)))
  {
    RunKeepsBound(config, rules, events);
    var s := After(config, rules, events).value;
    assert BoundInv(s, s.lookups[k]);
  }

  predicate BoundInv(s: System, q: Lookup) {
    match q.phase
    case Loaded(info) => info.subject != ""
    case Checked(info, snapshot, now, _, updated, status) =>
      snapshot in s.history && (status == OK ==> Bounded(s, info, snapshot, now, updated))
    case Refused(_) => true
    case Admitted(loaded, snapshot, now, _, answer) =>
      snapshot in s.history && (answer.subject != "" ==> Bounded(s, loaded, snapshot, now, answer))
  }

  predicate Bounded(s: System, loaded: Session, snapshot: nat, now: Time, answer: Session)
    requires snapshot in s.history
  {
    || s.history[snapshot] == []
    || Resolve(answer.groups, s.history[snapshot]) == Some(answer.grant)
    || (answer == loaded && !GrantExpired(loaded, s.config, now))
  }

  lemma {:induction false} RunKeepsBound(config: Config, rules: seq<Rule>, events: seq<Event>)
    requires After(config, rules, events).Some?
    ensures After(config, rules, events).value.config == config
    ensures forall k :: 0 <= k < |After(config, rules, events).value.lookups| ==>
              BoundInv(After(config, rules, events).value, After(config, rules, events).value.lookups[k])
  {
    if events != [] {
      var before := events[..|events| - 1];
      RunKeepsLabels(config, rules, before);
      RunKeepsBound(config, rules, before);
      var s, e := After(config, rules, before).value, events[|events| - 1];
      forall k | 0 <= k < |Step(s, e).lookups| ensures BoundInv(Step(s, e), Step(s, e).lookups[k]) {
        StepKeepsBound(s, e, k);
      }
    }
  }

  lemma StepKeepsBound(s: System, e: Event, k: nat)
    requires HistoryInv(s) && Enabled(s, e) && k < |Step(s, e).lookups|
    requires k < |s.lookups| ==> BoundInv(s, s.lookups[k])
    ensures BoundInv(Step(s, e), Step(s, e).lookups[k])
  {
    HistoryGrows(s, e);
  }
}
