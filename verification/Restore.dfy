/** importAll: the rows of a validated backup written to a store under new ids. */
module Restore {
  import opened BackupData
  import opened BackupStore
  import opened Wrappers

  /** Old id to new id, one map per table. */
  datatype Renaming = Renaming(
    channels: map<Id, Id>,
    monitors: map<Id, Id>,
    rules: map<Id, Id>,
    searches: map<Id, Id>,
    templates: map<Id, Id>)

  /** `m` gives every id of `olds` a new id of its own, taken from [lo, hi). */
  ghost predicate Renames(m: map<Id, Id>, olds: seq<Id>, lo: Id, hi: Id) {
    && lo <= hi
    && (forall x :: x in m <==> x in olds)
    && (forall x :: x in m ==> lo <= m[x] < hi)
    && (forall x, y :: x in m && y in m && x != y ==> m[x] != m[y])
  }

  /** A Go map lookup: the zero value for a missing key. */
  function At(m: map<Id, Id>, id: Id): Id {
    if id in m then m[id] else 0
  }

  /** Known ids renamed, unknown ids dropped. */
  function Remap(ids: seq<Id>, m: map<Id, Id>): seq<Id> {
    if ids == [] then []
    else
      var last := ids[|ids| - 1];
      Remap(ids[..|ids| - 1], m) + (if last in m then [m[last]] else [])
  }

  method RemapChannelIds(ids: seq<Id>, mapping: map<Id, Id>) returns (out: seq<Id>)
    ensures out == Remap(ids, mapping)
  {
    out := [];
    for i := 0 to |ids|
      invariant out == Remap(ids[..i], mapping)
    {
      assert ids[..i + 1][..i] == ids[..i];
      if ids[i] in mapping {
        out := out + [mapping[ids[i]]];
      }
    }
    assert ids[..|ids|] == ids;
  }

  lemma {:induction false} RemapMembers(ids: seq<Id>, m: map<Id, Id>, y: Id)
    ensures y in Remap(ids, m) <==> exists x :: x in ids && x in m && m[x] == y
  {
    if ids != [] {
      var n := |ids| - 1;
      RemapMembers(ids[..n], m, y);
      assert ids == ids[..n] + [ids[n]];
    }
  }

  lemma {:induction false} RemapJoin(a: seq<Id>, b: seq<Id>, m: map<Id, Id>)
    ensures Remap(a + b, m) == Remap(a, m) + Remap(b, m)
  {
    if b == [] {
      assert a + b == a;
    } else {
      var n := |b| - 1;
      assert (a + b)[..|a + b| - 1] == a + b[..n];
      RemapJoin(a, b[..n], m);
    }
  }

  /** Known ids are renamed where they stand; unknown ones leave no trace. */
  lemma RemapInPlace(a: seq<Id>, x: Id, b: seq<Id>, m: map<Id, Id>)
    ensures Remap(a + [x] + b, m) == Remap(a, m) + (if x in m then [m[x]] else []) + Remap(b, m)
  {
    RemapJoin(a + [x], b, m);
    RemapJoin(a, [x], m);
    assert [x][..0] == [];
  }

  // ----- the rows a restore writes -----

  function ChannelImages(rows: seq<Channel>, channels: map<Id, Id>): seq<Channel> {
    if rows == [] then []
    else
      var row := rows[|rows| - 1];
      ChannelImages(rows[..|rows| - 1], channels) + [Channel(At(channels, row.id), StoredChannel(row.fields))]
  }

  function KeptMonitor(f: MonitorFields, formats: Formats): MonitorFields {
    match StoredMonitor(f, formats)
    case Some(stored) => stored
    case None => f
  }

  function KeptRule(f: RuleFields, formats: Formats): RuleFields {
    match StoredRule(f, formats)
    case Some(stored) => stored
    case None => f
  }

  type KeepMonitor = MonitorFields -> MonitorFields
  type KeepRule = RuleFields -> RuleFields

  /** What the store keeps of the columns of a monitor and of a rule. */
  datatype Keep = Keep(monitor: KeepMonitor, rule: KeepRule)

  function Keeping(formats: Formats): Keep {
    Keep(f => KeptMonitor(f, formats), f => KeptRule(f, formats))
  }

  function MonitorImage(row: Monitor, channels: map<Id, Id>, monitors: map<Id, Id>, keep: KeepMonitor): Monitor {
    NewMonitor(At(monitors, row.id), keep(row.fields), Attached(Remap(row.channelIds, channels)))
  }

  function MonitorImages(rows: seq<Monitor>, channels: map<Id, Id>, monitors: map<Id, Id>,
                         keep: KeepMonitor): seq<Monitor> {
    if rows == [] then []
    else MonitorImages(rows[..|rows| - 1], channels, monitors, keep)
         + [MonitorImage(rows[|rows| - 1], channels, monitors, keep)]
  }

  function RuleImages(rows: seq<Rule>, monitors: map<Id, Id>, rules: map<Id, Id>, keep: KeepRule): seq<Rule> {
    if rows == [] then []
    else
      var row := rows[|rows| - 1];
      RuleImages(rows[..|rows| - 1], monitors, rules, keep)
      + [Rule(At(rules, row.id), At(monitors, row.monitorId), keep(row.fields))]
  }

  /** A dangling reference is cleared; 0, no reference, stays 0. */
  function FilterImage(f: Filter, monitors: map<Id, Id>, rules: map<Id, Id>): Filter {
    Filter(
      if f.monitorId == 0 then 0 else At(monitors, f.monitorId),
      if f.ruleId == 0 then 0 else At(rules, f.ruleId),
      f.criteria)
  }

  function SearchImage(row: Search, monitors: map<Id, Id>, rules: map<Id, Id>, searches: map<Id, Id>): Search {
    Search(At(searches, row.id), row.name, FilterImage(row.filter, monitors, rules), row.isDefault, row.createdAt)
  }

  function SearchImages(rows: seq<Search>, monitors: map<Id, Id>, rules: map<Id, Id>,
                        searches: map<Id, Id>): seq<Search> {
    if rows == [] then []
    else SearchImages(rows[..|rows| - 1], monitors, rules, searches)
         + [SearchImage(rows[|rows| - 1], monitors, rules, searches)]
  }

  function TemplateImages(rows: seq<Template>, channels: map<Id, Id>, templates: map<Id, Id>): seq<Template> {
    if rows == [] then []
    else
      var row := rows[|rows| - 1];
      TemplateImages(rows[..|rows| - 1], channels, templates)
      + [Template(At(templates, row.id), row.fields, Remap(row.channelIds, channels))]
  }

  predicate AnyDefault(rows: seq<Search>) {
    exists i :: 0 <= i < |rows| && rows[i].isDefault
  }

  function KeptSearches(before: seq<Search>, imported: seq<Search>): seq<Search> {
    if AnyDefault(imported) then ClearDefaults(before) else before
  }

  /** `after` is `before` with the renamed rows of `data` added to every table. */
  ghost predicate IsRestore(before: Database, after: Database, data: Backup, ren: Renaming, keep: Keep) {
    && Renames(ren.channels, ChannelIds(data.channels), before.nextChannel, after.nextChannel)
    && Renames(ren.monitors, MonitorIds(data.monitors), before.nextMonitor, after.nextMonitor)
    && Renames(ren.rules, RuleIds(data.rules), before.nextRule, after.nextRule)
    && Renames(ren.searches, SearchIds(data.searches), before.nextSearch, after.nextSearch)
    && Renames(ren.templates, TemplateIds(data.templates), before.nextTemplate, after.nextTemplate)
    && after.channels == before.channels + ChannelImages(data.channels, ren.channels)
    && after.monitors == before.monitors + MonitorImages(data.monitors, ren.channels, ren.monitors, keep.monitor)
    && after.rules == before.rules + RuleImages(data.rules, ren.monitors, ren.rules, keep.rule)
    && after.searches ==
       KeptSearches(before.searches, data.searches) + SearchImages(data.searches, ren.monitors, ren.rules, ren.searches)
    && after.templates == before.templates + TemplateImages(data.templates, ren.channels, ren.templates)
  }

  // ----- a growing map does not disturb the rows already written -----

  lemma {:induction false} ChannelImagesStable(rows: seq<Channel>, m: map<Id, Id>, x: Id, y: Id)
    requires x !in ChannelIds(rows)
    ensures ChannelImages(rows, m[x := y]) == ChannelImages(rows, m)
  {
    if rows != [] {
      var n := |rows| - 1;
      assert ChannelIds(rows) == ChannelIds(rows[..n]) + [rows[n].id];
      ChannelImagesStable(rows[..n], m, x, y);
    }
  }

  lemma {:induction false} MonitorImagesStable(rows: seq<Monitor>, channels: map<Id, Id>, m: map<Id, Id>,
                                               keep: KeepMonitor, x: Id, y: Id)
    requires x !in MonitorIds(rows)
    ensures MonitorImages(rows, channels, m[x := y], keep) == MonitorImages(rows, channels, m, keep)
  {
    if rows != [] {
      var n := |rows| - 1;
      assert MonitorIds(rows) == MonitorIds(rows[..n]) + [rows[n].id];
      MonitorImagesStable(rows[..n], channels, m, keep, x, y);
    }
  }

  lemma {:induction false} RuleImagesStable(rows: seq<Rule>, monitors: map<Id, Id>, m: map<Id, Id>, keep: KeepRule,
                                            x: Id, y: Id)
    requires x !in RuleIds(rows)
    ensures RuleImages(rows, monitors, m[x := y], keep) == RuleImages(rows, monitors, m, keep)
  {
    if rows != [] {
      var n := |rows| - 1;
      assert RuleIds(rows) == RuleIds(rows[..n]) + [rows[n].id];
      RuleImagesStable(rows[..n], monitors, m, keep, x, y);
    }
  }

  lemma {:induction false} SearchImagesStable(rows: seq<Search>, monitors: map<Id, Id>, rules: map<Id, Id>,
                                              m: map<Id, Id>, x: Id, y: Id)
    requires x !in SearchIds(rows)
    ensures SearchImages(rows, monitors, rules, m[x := y]) == SearchImages(rows, monitors, rules, m)
  {
    if rows != [] {
      var n := |rows| - 1;
      assert SearchIds(rows) == SearchIds(rows[..n]) + [rows[n].id];
      SearchImagesStable(rows[..n], monitors, rules, m, x, y);
    }
  }

  lemma {:induction false} TemplateImagesStable(rows: seq<Template>, channels: map<Id, Id>, m: map<Id, Id>, x: Id,
                                                y: Id)
    requires x !in TemplateIds(rows)
    ensures TemplateImages(rows, channels, m[x := y]) == TemplateImages(rows, channels, m)
  {
    if rows != [] {
      var n := |rows| - 1;
      assert TemplateIds(rows) == TemplateIds(rows[..n]) + [rows[n].id];
      TemplateImagesStable(rows[..n], channels, m, x, y);
    }
  }

  // ----- importAll -----

  lemma DistinctNext(ids: seq<Id>, i: nat)
    requires Distinct(ids) && i < |ids|
    ensures ids[i] !in ids[..i]
    ensures ids[..i + 1] == ids[..i] + [ids[i]]
  {
  }

  lemma RenamesNext(m: map<Id, Id>, ids: seq<Id>, i: nat, lo: Id, hi: Id, id: Id)
    requires Distinct(ids) && i < |ids| && Renames(m, ids[..i], lo, hi) && hi <= id
    ensures ids[i] !in ids[..i] && Renames(m[ids[i] := id], ids[..i + 1], lo, id + 1)
  {
  }

  ghost predicate ChannelsSoFar(before: Database, now: Database, rows: seq<Channel>, m: map<Id, Id>) {
    && now == before.(channels := before.channels + ChannelImages(rows, m), nextChannel := now.nextChannel)
    && Renames(m, ChannelIds(rows), before.nextChannel, now.nextChannel)
  }

  lemma NextChannel(before: Database, now: Database, rows: seq<Channel>, i: nat, m: map<Id, Id>, id: Id)
    requires i < |rows| && Distinct(ChannelIds(rows))
    requires ChannelsSoFar(before, now, rows[..i], m) && now.nextChannel <= id
    ensures ChannelsSoFar(before, AddChannel(now, id, StoredChannel(rows[i].fields)), rows[..i + 1],
          m[rows[i].id := id])
  {
    var ids := ChannelIds(rows);
    assert Renames(m[rows[i].id := id], ChannelIds(rows[..i + 1]), before.nextChannel, id + 1) by {
      assert ChannelIds(rows[..i]) == ids[..i] && ChannelIds(rows[..i + 1]) == ids[..i + 1];
      RenamesNext(m, ids, i, before.nextChannel, now.nextChannel, id);
    }
    NextChannelImages(rows, i, m, id);
    BehindBoth(before.channels, ChannelImages(rows[..i], m), Channel(id, StoredChannel(rows[i].fields)));
  }

  lemma NextChannelImages(rows: seq<Channel>, i: nat, m: map<Id, Id>, id: Id)
    requires i < |rows| && Distinct(ChannelIds(rows))
    ensures ChannelImages(rows[..i + 1], m[rows[i].id := id]) ==
            ChannelImages(rows[..i], m) + [Channel(id, StoredChannel(rows[i].fields))]
  {
    assert rows[..i + 1][..i] == rows[..i];
    assert ChannelIds(rows[..i]) == ChannelIds(rows)[..i];
    DistinctNext(ChannelIds(rows), i);
    ChannelImagesStable(rows[..i], m, rows[i].id, id);
  }

  /** How many of `n` more rows are within the limit. */
  function FirstOver(limit: int, current: nat, n: nat): (c: nat)
    ensures c <= n
    ensures 0 < c ==> Fits(limit, current + c - 1)
    ensures c < n ==> !Fits(limit, current + c)
  {
    if limit <= 0 || current + n <= limit then n else if limit <= current then 0 else limit - current
  }

  lemma {:induction false} ChannelImagesAt(rows: seq<Channel>, m: map<Id, Id>)
    ensures |ChannelImages(rows, m)| == |rows|
    ensures forall i :: 0 <= i < |rows| ==>
          ChannelImages(rows, m)[i] == Channel(At(m, rows[i].id), StoredChannel(rows[i].fields))
  {
    if rows != [] { ChannelImagesAt(rows[..|rows| - 1], m); }
  }

  lemma WrittenChannelsCount(before: Database, now: Database, rows: seq<Channel>, i: nat, m: map<Id, Id>)
    requires i <= |rows| && ChannelsSoFar(before, now, rows[..i], m)
    ensures |now.channels| == |before.channels| + i
  {
    ChannelImagesAt(rows[..i], m);
  }

  lemma OverIff(limit: int, current: nat, n: nat, i: nat)
    requires i < n && i <= FirstOver(limit, current, n)
    ensures Fits(limit, current + i) <==> i < FirstOver(limit, current, n)
  {
  }

  method ImportChannels(st: Store, rows: seq<Channel>) returns (ok: bool, ids: map<Id, Id>)
    requires st.Valid() && Distinct(ChannelIds(rows))
    modifies st
    ensures st.Valid()
    ensures
      var c := FirstOver(st.quotas.channels, |old(st.channels)|, |rows|);
      ChannelsSoFar(old(st.View()), st.View(), rows[..c], ids) && (ok <==> c == |rows|)
  {
    ids, ok := map[], true;
    ghost var before, c := st.View(), FirstOver(st.quotas.channels, |st.channels|, |rows|);
    assert ChannelImages(rows[..0], ids) == [];
    for i := 0 to |rows|
      invariant st.Valid() && ok && ChannelsSoFar(before, st.View(), rows[..i], ids) && i <= c
    {
      ghost var now := st.View();
      WrittenChannelsCount(before, now, rows, i, ids);
      OverIff(st.quotas.channels, |before.channels|, |rows|, i);
      var id;
      ok, id := st.CreateChannel(rows[i].fields);
      if !ok {
        return;
      }
      NextChannel(before, now, rows, i, ids, id);
      ids := ids[rows[i].id := id];
    }
  }

  ghost predicate MonitorsSoFar(before: Database, now: Database, rows: seq<Monitor>, channels: map<Id, Id>,
                                m: map<Id, Id>, keep: KeepMonitor) {
    && now == before.(monitors := before.monitors + MonitorImages(rows, channels, m, keep),
       nextMonitor := now.nextMonitor)
    && Renames(m, MonitorIds(rows), before.nextMonitor, now.nextMonitor)
  }

  /** A monitor with the channels it is updated with right after its creation. */
  function AddAttachedMonitor(db: Database, id: Id, fields: MonitorFields, attached: seq<Id>): Database {
    db.(monitors := db.monitors + [NewMonitor(id, fields, Attached(attached))], nextMonitor := id + 1)
  }

  lemma SetChannelsOfNewest(db: Database, id: Id, fields: MonitorFields, attached: seq<Id>)
    requires Consistent(db) && db.nextMonitor <= id
    ensures
      var created := AddMonitor(db, id, fields);
      && id in MonitorIds(created.monitors)
      && created.(monitors := SetChannels(created.monitors, id, Attached(attached))) ==
         AddAttachedMonitor(db, id, fields, attached)
  {
    var created := AddMonitor(db, id, fields);
    MonitorIdsSnoc(db.monitors, NewMonitor(id, fields, []));
    IdsOkSnoc(MonitorIds(db.monitors), db.nextMonitor, id);
    forall i | 0 <= i < |db.monitors| ensures db.monitors[i].id != id {
      assert MonitorIds(db.monitors)[i] != id;
    }
    assert SetChannels(created.monitors, id, Attached(attached)) ==
        AddAttachedMonitor(db, id, fields, attached).monitors;
    assert MonitorIds(created.monitors)[|db.monitors|] == id;
  }

  lemma NextMonitorImages(rows: seq<Monitor>, i: nat, channels: map<Id, Id>, m: map<Id, Id>, keep: KeepMonitor, id: Id)
    requires i < |rows| && Distinct(MonitorIds(rows))
    ensures MonitorImages(rows[..i + 1], channels, m[rows[i].id := id], keep) ==
            MonitorImages(rows[..i], channels, m, keep)
            + [NewMonitor(id, keep(rows[i].fields), Attached(Remap(rows[i].channelIds, channels)))]
  {
    assert rows[..i + 1][..i] == rows[..i];
    assert MonitorIds(rows[..i]) == MonitorIds(rows)[..i];
    DistinctNext(MonitorIds(rows), i);
    MonitorImagesStable(rows[..i], channels, m, keep, rows[i].id, id);
  }

  lemma NextMonitor(before: Database, now: Database, rows: seq<Monitor>, i: nat, channels: map<Id, Id>, m: map<Id, Id>,
                    keep: KeepMonitor, id: Id)
    requires i < |rows| && Distinct(MonitorIds(rows))
    requires MonitorsSoFar(before, now, rows[..i], channels, m, keep) && now.nextMonitor <= id
    ensures
      var added := AddAttachedMonitor(now, id, keep(rows[i].fields), Remap(rows[i].channelIds, channels));
      MonitorsSoFar(before, added, rows[..i + 1], channels, m[rows[i].id := id], keep)
  {
    assert Renames(m[rows[i].id := id], MonitorIds(rows[..i + 1]), before.nextMonitor, id + 1) by {
      assert MonitorIds(rows[..i]) == MonitorIds(rows)[..i] && MonitorIds(rows[..i + 1]) == MonitorIds(rows)[..i + 1];
      RenamesNext(m, MonitorIds(rows), i, before.nextMonitor, now.nextMonitor, id);
    }
    NextMonitorImages(rows, i, channels, m, keep, id);
  }

  /** Renamed channels exist in the store. */
  lemma RemappedExist(ids: seq<Id>, m: map<Id, Id>, known: seq<Id>)
    requires forall x :: x in m ==> m[x] in known
    ensures AllIn(Remap(ids, m), known)
  {
    forall k | 0 <= k < |Remap(ids, m)| ensures Remap(ids, m)[k] in known {
      RemapMembers(ids, m, Remap(ids, m)[k]);
    }
  }

  method ImportMonitor(st: Store, row: Monitor, channels: map<Id, Id>) returns (ok: bool, id: Id)
    requires st.Valid() && forall x :: x in channels ==> channels[x] in ChannelIds(st.channels)
    modifies st
    ensures st.Valid()
    ensures ok <==>
      && StoredMonitor(row.fields, st.formats).Some?
      && Fits(st.quotas.monitors, |LiveRows(old(st.monitors))|)
      && NameFree(old(st.monitors), row.fields.name)
    ensures if ok then
              && old(st.nextMonitor) <= id
              && st.View() ==
                 AddAttachedMonitor(old(st.View()), id, KeptMonitor(row.fields, st.formats),
                     Remap(row.channelIds, channels))
            else st.View() == old(st.View())
  {
    ok, id := st.CreateMonitor(row.fields);
    if !ok {
      return;
    }
    var attached := RemapChannelIds(row.channelIds, channels);
    SetChannelsOfNewest(old(st.View()), id, KeptMonitor(row.fields, st.formats), attached);
    RemappedExist(row.channelIds, channels, ChannelIds(st.channels));
    if |attached| > 0 {
      var attachedOk := st.SetMonitorChannels(id, attached);
      assert attachedOk;
    }
  }

  /** The name of row `i` is taken neither in the store nor by an earlier row. */
  predicate NameOk(before: seq<Monitor>, rows: seq<Monitor>, i: nat)
    requires i < |rows|
  {
    NameFree(before, rows[i].fields.name) && forall j :: 0 <= j < i ==> rows[j].fields.name != rows[i].fields.name
  }

  /** Row `i` is refused neither for its name nor for the quota. */
  predicate MonitorAccepted(before: seq<Monitor>, rows: seq<Monitor>, limit: int, i: nat)
    requires i < |rows|
  {
    NameOk(before, rows, i) && Fits(limit, |LiveRows(before)| + i)
  }

  /** The first row from `i` on that is refused, or |rows|. */
  function FirstClash(before: seq<Monitor>, rows: seq<Monitor>, limit: int, i: nat): (c: nat)
    requires i <= |rows|
    ensures i <= c <= |rows|
    ensures forall k :: i <= k < c ==> MonitorAccepted(before, rows, limit, k)
    ensures c < |rows| ==> !MonitorAccepted(before, rows, limit, c)
    decreases |rows| - i
  {
    if i == |rows| || !MonitorAccepted(before, rows, limit, i) then i else FirstClash(before, rows, limit, i + 1)
  }

  lemma {:induction false} LiveAppend(a: seq<Monitor>, b: seq<Monitor>)
    requires forall i :: 0 <= i < |b| ==> Live(b[i])
    ensures |LiveRows(a + b)| == |LiveRows(a)| + |b|
  {
    if b == [] {
      assert a + b == a;
    } else {
      assert (a + b)[..|a + b| - 1] == a + b[..|b| - 1];
      LiveAppend(a, b[..|b| - 1]);
    }
  }

  lemma {:induction false} MonitorImagesAt(rows: seq<Monitor>, channels: map<Id, Id>, m: map<Id, Id>, keep: KeepMonitor)
    ensures |MonitorImages(rows, channels, m, keep)| == |rows|
    ensures forall i :: 0 <= i < |rows| ==>
          MonitorImages(rows, channels, m, keep)[i] == MonitorImage(rows[i], channels, m, keep)
  {
    if rows != [] { MonitorImagesAt(rows[..|rows| - 1], channels, m, keep); }
  }

  /** In the store as it then is, a name is free exactly when the row's name is not taken. */
  lemma NameFreeIff(before: seq<Monitor>, rows: seq<Monitor>, i: nat, channels: map<Id, Id>, m: map<Id, Id>,
                    keep: KeepMonitor)
    requires i < |rows| && forall j :: 0 <= j < i ==> keep(rows[j].fields).name == rows[j].fields.name
    ensures NameFree(before + MonitorImages(rows[..i], channels, m, keep), rows[i].fields.name) <==>
          NameOk(before, rows, i)
  {
    var images, name := MonitorImages(rows[..i], channels, m, keep), rows[i].fields.name;
    var now := before + images;
    MonitorImagesAt(rows[..i], channels, m, keep);
    forall j | 0 <= j < i ensures now[|before| + j] == images[j] && images[j].fields.name == rows[j].fields.name {}
    if NameOk(before, rows, i) {
      forall k | 0 <= k < |now| && Live(now[k]) ensures now[k].fields.name != name {
        if k >= |before| { assert now[k] == images[k - |before|]; }
      }
    } else if NameFree(now, name) {
      forall k | 0 <= k < |before| && Live(before[k])
          ensures before[k].fields.name != name { assert now[k] == before[k]; }
    }
  }

  /** In the store as it then is, row `i` is refused exactly when it is not accepted. */
  lemma AcceptedIff(before: seq<Monitor>, rows: seq<Monitor>, limit: int, i: nat,
                    channels: map<Id, Id>, m: map<Id, Id>, keep: KeepMonitor)
    requires i < |rows| && forall j :: 0 <= j < i ==> keep(rows[j].fields).name == rows[j].fields.name
    ensures
      var now := before + MonitorImages(rows[..i], channels, m, keep);
      Fits(limit, |LiveRows(now)|) && NameFree(now, rows[i].fields.name) <==> MonitorAccepted(before, rows, limit, i)
  {
    NameFreeIff(before, rows, i, channels, m, keep);
    MonitorImagesAt(rows[..i], channels, m, keep);
    LiveAppend(before, MonitorImages(rows[..i], channels, m, keep));
  }

  method ImportMonitors(st: Store, rows: seq<Monitor>, channels: map<Id, Id>) returns (ok: bool, ids: map<Id, Id>)
    requires st.Valid() && Distinct(MonitorIds(rows))
    requires forall i :: 0 <= i < |rows| ==> StoredMonitor(rows[i].fields, st.formats).Some?
    requires forall x :: x in channels ==> channels[x] in ChannelIds(st.channels)
    modifies st
    ensures st.Valid()
    ensures
      var c := FirstClash(old(st.monitors), rows, st.quotas.monitors, 0);
      && MonitorsSoFar(old(st.View()), st.View(), rows[..c], channels, ids, Keeping(st.formats).monitor)
      && (ok <==> c == |rows|)
  {
    ids, ok := map[], true;
    ghost var before, keep := st.View(), Keeping(st.formats).monitor;
    assert MonitorImages(rows[..0], channels, ids, keep) == [];
    for i := 0 to |rows|
      invariant st.Valid() && ok && MonitorsSoFar(before, st.View(), rows[..i], channels, ids, keep)
      invariant FirstClash(before.monitors, rows, st.quotas.monitors, 0) ==
            FirstClash(before.monitors, rows, st.quotas.monitors, i)
    {
      ghost var now := st.View();
      AcceptedIff(before.monitors, rows, st.quotas.monitors, i, channels, ids, keep);
      var id;
      ok, id := ImportMonitor(st, rows[i], channels);
      if !ok {
        return;
      }
      NextMonitor(before, now, rows, i, channels, ids, keep, id);
      ids := ids[rows[i].id := id];
    }
  }

  ghost predicate RulesSoFar(before: Database, now: Database, rows: seq<Rule>, monitors: map<Id, Id>, m: map<Id, Id>,
                             keep: KeepRule) {
    && now == before.(rules := before.rules + RuleImages(rows, monitors, m, keep), nextRule := now.nextRule)
    && Renames(m, RuleIds(rows), before.nextRule, now.nextRule)
  }

  lemma NextRule(before: Database, now: Database, rows: seq<Rule>, i: nat, monitors: map<Id, Id>, m: map<Id, Id>,
                 keep: KeepRule, id: Id)
    requires i < |rows| && Distinct(RuleIds(rows))
    requires RulesSoFar(before, now, rows[..i], monitors, m, keep) && now.nextRule <= id
    ensures
      var added := AddRule(now, id, At(monitors, rows[i].monitorId), keep(rows[i].fields));
      RulesSoFar(before, added, rows[..i + 1], monitors, m[rows[i].id := id], keep)
  {
    var ids := RuleIds(rows);
    assert Renames(m[rows[i].id := id], RuleIds(rows[..i + 1]), before.nextRule, id + 1) by {
      assert RuleIds(rows[..i]) == ids[..i] && RuleIds(rows[..i + 1]) == ids[..i + 1];
      RenamesNext(m, ids, i, before.nextRule, now.nextRule, id);
    }
    NextRuleImages(rows, i, monitors, m, keep, id);
    BehindBoth(before.rules, RuleImages(rows[..i], monitors, m, keep),
               Rule(id, At(monitors, rows[i].monitorId), keep(rows[i].fields)));
  }

  lemma NextRuleImages(rows: seq<Rule>, i: nat, monitors: map<Id, Id>, m: map<Id, Id>, keep: KeepRule, id: Id)
    requires i < |rows| && Distinct(RuleIds(rows))
    ensures RuleImages(rows[..i + 1], monitors, m[rows[i].id := id], keep) ==
            RuleImages(rows[..i], monitors, m, keep) + [Rule(id, At(monitors, rows[i].monitorId), keep(rows[i].fields))]
  {
    assert rows[..i + 1][..i] == rows[..i];
    assert RuleIds(rows[..i]) == RuleIds(rows)[..i];
    DistinctNext(RuleIds(rows), i);
    RuleImagesStable(rows[..i], monitors, m, keep, rows[i].id, id);
  }

  /** Every rule's owner is known and, renamed, a live monitor of the store. */
  ghost predicate OwnersKnown(rows: seq<Rule>, monitors: map<Id, Id>, known: seq<Monitor>) {
    forall i :: 0 <= i < |rows| ==> rows[i].monitorId in monitors && LiveOwner(known, monitors[rows[i].monitorId])
  }

  /** Rule `i` is refused neither for its guidance nor for the quota. */
  predicate RuleAccepted(rows: seq<Rule>, formats: Formats, limit: int, current: nat, i: nat)
    requires i < |rows|
  {
    StoredRule(rows[i].fields, formats).Some? && Fits(limit, current + i)
  }

  /** The first rule from `i` on that is refused, or |rows|. */
  function FirstRefused(rows: seq<Rule>, formats: Formats, limit: int, current: nat, i: nat): (c: nat)
    requires i <= |rows|
    ensures i <= c <= |rows|
    ensures forall k :: i <= k < c ==> RuleAccepted(rows, formats, limit, current, k)
    ensures c < |rows| ==> !RuleAccepted(rows, formats, limit, current, c)
    decreases |rows| - i
  {
    if i == |rows| || !RuleAccepted(rows, formats, limit, current, i) then i
    else FirstRefused(rows, formats, limit, current, i + 1)
  }

  lemma {:induction false} RuleImagesAt(rows: seq<Rule>, monitors: map<Id, Id>, m: map<Id, Id>, keep: KeepRule)
    ensures |RuleImages(rows, monitors, m, keep)| == |rows|
    ensures forall i :: 0 <= i < |rows| ==>
      RuleImages(rows, monitors, m, keep)[i] ==
          Rule(At(m, rows[i].id), At(monitors, rows[i].monitorId), keep(rows[i].fields))
  {
    if rows != [] { RuleImagesAt(rows[..|rows| - 1], monitors, m, keep); }
  }

  lemma {:induction false} LiveRulesAppend(a: seq<Rule>, b: seq<Rule>, monitors: seq<Monitor>)
    requires forall i :: 0 <= i < |b| ==> LiveOwner(monitors, b[i].monitorId)
    ensures |LiveRules(a + b, monitors)| == |LiveRules(a, monitors)| + |b|
  {
    if b == [] {
      assert a + b == a;
    } else {
      assert (a + b)[..|a + b| - 1] == a + b[..|b| - 1];
      LiveRulesAppend(a, b[..|b| - 1], monitors);
    }
  }

  lemma WrittenRulesCount(before: seq<Rule>, rows: seq<Rule>, i: nat, monitors: map<Id, Id>, m: map<Id, Id>,
                          keep: KeepRule, known: seq<Monitor>)
    requires i <= |rows| && OwnersKnown(rows, monitors, known)
    ensures |LiveRules(before + RuleImages(rows[..i], monitors, m, keep), known)| == |LiveRules(before, known)| + i
  {
    RuleImagesAt(rows[..i], monitors, m, keep);
    LiveRulesAppend(before, RuleImages(rows[..i], monitors, m, keep), known);
  }

  method ImportRules(st: Store, rows: seq<Rule>, monitors: map<Id, Id>) returns (ok: bool, ids: map<Id, Id>)
    requires st.Valid() && Distinct(RuleIds(rows)) && OwnersKnown(rows, monitors, st.monitors)
    modifies st
    ensures st.Valid()
    ensures
      var c := FirstRefused(rows, st.formats, st.quotas.rules, |LiveRules(old(st.rules), old(st.monitors))|, 0);
      RulesSoFar(old(st.View()), st.View(), rows[..c], monitors, ids, Keeping(st.formats).rule) && (ok <==> c == |rows|)
  {
    ids, ok := map[], true;
    ghost var before, keep, held := st.View(), Keeping(st.formats).rule, |LiveRules(st.rules, st.monitors)|;
    assert RuleImages(rows[..0], monitors, ids, keep) == [];
    for i := 0 to |rows|
      invariant st.Valid() && ok && RulesSoFar(before, st.View(), rows[..i], monitors, ids, keep)
      invariant FirstRefused(rows, st.formats, st.quotas.rules, held, 0) ==
            FirstRefused(rows, st.formats, st.quotas.rules, held, i)
    {
      ghost var now := st.View();
      WrittenRulesCount(before.rules, rows, i, monitors, ids, keep, st.monitors);
      var owner := if rows[i].monitorId in monitors then monitors[rows[i].monitorId] else 0;
      OwnerExists(st.monitors, owner);
      assert (StoredRule(rows[i].fields, st.formats).Some? && Fits(st.quotas.rules, held + i)) ==
             RuleAccepted(rows, st.formats, st.quotas.rules, held, i);
      var id;
      ok, id := st.CreateRule(owner, rows[i].fields);
      if !ok {
        return;
      }
      NextRule(before, now, rows, i, monitors, ids, keep, id);
      ids := ids[rows[i].id := id];
    }
  }

  lemma OwnerExists(rows: seq<Monitor>, id: Id)
    requires LiveOwner(rows, id)
    ensures id in MonitorIds(rows)
  {
    var i :| 0 <= i < |rows| && rows[i].id == id && Live(rows[i]);
    assert MonitorIds(rows)[i] == id;
  }

  ghost predicate SearchesSoFar(before: Database, now: Database, rows: seq<Search>, monitors: map<Id, Id>,
                                rules: map<Id, Id>, m: map<Id, Id>) {
    && now == before.(
                searches := KeptSearches(before.searches, rows) + SearchImages(rows, monitors, rules, m),
                nextSearch := now.nextSearch)
    && Renames(m, SearchIds(rows), before.nextSearch, now.nextSearch)
  }

  lemma {:induction false} NoDefaultImages(rows: seq<Search>, monitors: map<Id, Id>, rules: map<Id, Id>, m: map<Id, Id>)
    requires !AnyDefault(rows)
    ensures ClearDefaults(SearchImages(rows, monitors, rules, m)) == SearchImages(rows, monitors, rules, m)
  {
    if rows != [] {
      NoDefaultImages(rows[..|rows| - 1], monitors, rules, m);
      var images := SearchImages(rows[..|rows| - 1], monitors, rules, m);
      var last := SearchImage(rows[|rows| - 1], monitors, rules, m);
      assert ClearDefaults(images + [last]) == ClearDefaults(images) + [last.(isDefault := false)];
    }
  }

  lemma NextKept(before: seq<Search>, rows: seq<Search>, i: nat)
    requires i < |rows| && AtMostOneDefault(rows)
    ensures rows[i].isDefault ==> !AnyDefault(rows[..i]) && KeptSearches(before, rows[..i + 1]) == ClearDefaults(before)
    ensures !rows[i].isDefault ==> KeptSearches(before, rows[..i + 1]) == KeptSearches(before, rows[..i])
  {
    assert rows[..i + 1] == rows[..i] + [rows[i]];
    if rows[i].isDefault {
      assert rows[..i + 1][i].isDefault;
      forall k: nat | k < i ensures !rows[..i][k].isDefault { assert !BothDefault(rows, k, i); }
    } else if k :| 0 <= k < i && rows[..i][k].isDefault {
      assert rows[..i + 1][k].isDefault;
    }
  }

  lemma NextSearchRows(before: seq<Search>, rows: seq<Search>, i: nat, monitors: map<Id, Id>, rules: map<Id, Id>,
                       m: map<Id, Id>, row: Search)
    requires i < |rows| && AtMostOneDefault(rows) && row.isDefault == rows[i].isDefault
    ensures
      var now := KeptSearches(before, rows[..i]) + SearchImages(rows[..i], monitors, rules, m);
      (if row.isDefault then ClearDefaults(now) else now) + [row] ==
      KeptSearches(before, rows[..i + 1]) + (SearchImages(rows[..i], monitors, rules, m) + [row])
  {
    NextKept(before, rows, i);
    if row.isDefault {
      var images := SearchImages(rows[..i], monitors, rules, m);
      NoDefaultImages(rows[..i], monitors, rules, m);
      assert ClearDefaults(before + images) == ClearDefaults(before) + ClearDefaults(images);
    }
  }

  lemma NextSearchImages(rows: seq<Search>, i: nat, monitors: map<Id, Id>, rules: map<Id, Id>, m: map<Id, Id>, id: Id)
    requires i < |rows| && Distinct(SearchIds(rows))
    ensures
      var row := Search(id, rows[i].name, FilterImage(rows[i].filter, monitors, rules), rows[i].isDefault,
          rows[i].createdAt);
      SearchImages(rows[..i + 1], monitors, rules, m[rows[i].id := id]) ==
          SearchImages(rows[..i], monitors, rules, m) + [row]
  {
    assert rows[..i + 1][..i] == rows[..i];
    assert SearchIds(rows[..i]) == SearchIds(rows)[..i];
    DistinctNext(SearchIds(rows), i);
    SearchImagesStable(rows[..i], monitors, rules, m, rows[i].id, id);
  }

  lemma NextSearch(before: Database, now: Database, rows: seq<Search>, i: nat, monitors: map<Id, Id>,
                   rules: map<Id, Id>, m: map<Id, Id>, id: Id)
    requires i < |rows| && Distinct(SearchIds(rows)) && AtMostOneDefault(rows)
    requires SearchesSoFar(before, now, rows[..i], monitors, rules, m) && now.nextSearch <= id
    ensures
      var row := rows[i];
      var written := Search(id, row.name, FilterImage(row.filter, monitors, rules), row.isDefault, row.createdAt);
      SearchesSoFar(before, AddSearch(now, written), rows[..i + 1], monitors, rules, m[row.id := id])
  {
    var row := Search(id, rows[i].name, FilterImage(rows[i].filter, monitors, rules), rows[i].isDefault,
        rows[i].createdAt);
    assert SearchIds(rows[..i]) == SearchIds(rows)[..i] && SearchIds(rows[..i + 1]) == SearchIds(rows)[..i + 1];
    RenamesNext(m, SearchIds(rows), i, before.nextSearch, now.nextSearch, id);
    NextSearchImages(rows, i, monitors, rules, m, id);
    NextSearchRows(before.searches, rows, i, monitors, rules, m, row);
  }

  method RemapFilter(f: Filter, monitors: map<Id, Id>, rules: map<Id, Id>) returns (filter: Filter)
    ensures filter == FilterImage(f, monitors, rules)
    ensures filter.criteria == f.criteria
    ensures filter.monitorId == if f.monitorId != 0 && f.monitorId in monitors then monitors[f.monitorId] else 0
    ensures filter.ruleId == if f.ruleId != 0 && f.ruleId in rules then rules[f.ruleId] else 0
  {
    filter := f;
    if filter.monitorId != 0 {
      if filter.monitorId in monitors {
        filter := filter.(monitorId := monitors[filter.monitorId]);
      } else {
        filter := filter.(monitorId := 0);
      }
    }
    if filter.ruleId != 0 {
      if filter.ruleId in rules {
        filter := filter.(ruleId := rules[filter.ruleId]);
      } else {
        filter := filter.(ruleId := 0);
      }
    }
  }

  method ImportSearches(st: Store, rows: seq<Search>, monitors: map<Id, Id>, rules: map<Id, Id>)
    returns (ghost ids: map<Id, Id>)
    requires st.Valid() && Distinct(SearchIds(rows)) && AtMostOneDefault(rows)
    modifies st
    ensures st.Valid() && SearchesSoFar(old(st.View()), st.View(), rows, monitors, rules, ids)
  {
    ids := map[];
    assert SearchImages(rows[..0], monitors, rules, ids) == [] && !AnyDefault(rows[..0]);
    for i := 0 to |rows|
      invariant st.Valid() && SearchesSoFar(old(st.View()), st.View(), rows[..i], monitors, rules, ids)
    {
      var filter := RemapFilter(rows[i].filter, monitors, rules);
      ghost var now := st.View();
      var id := st.CreateSavedSearch(rows[i].name, filter, rows[i].isDefault, rows[i].createdAt);
      NextSearch(old(st.View()), now, rows, i, monitors, rules, ids, id);
      ids := ids[rows[i].id := id];
    }
    assert rows[..|rows|] == rows;
  }

  ghost predicate TemplatesSoFar(before: Database, now: Database, rows: seq<Template>, channels: map<Id, Id>,
                                 m: map<Id, Id>) {
    && now == before.(templates := before.templates + TemplateImages(rows, channels, m),
       nextTemplate := now.nextTemplate)
    && Renames(m, TemplateIds(rows), before.nextTemplate, now.nextTemplate)
  }

  lemma NextTemplateImages(rows: seq<Template>, i: nat, channels: map<Id, Id>, m: map<Id, Id>, id: Id)
    requires i < |rows| && Distinct(TemplateIds(rows))
    ensures TemplateImages(rows[..i + 1], channels, m[rows[i].id := id]) ==
            TemplateImages(rows[..i], channels, m) + [Template(id, rows[i].fields, Remap(rows[i].channelIds, channels))]
  {
    assert rows[..i + 1][..i] == rows[..i];
    assert TemplateIds(rows[..i]) == TemplateIds(rows)[..i];
    DistinctNext(TemplateIds(rows), i);
    TemplateImagesStable(rows[..i], channels, m, rows[i].id, id);
  }

  lemma NextTemplate(before: Database, now: Database, rows: seq<Template>, i: nat, channels: map<Id, Id>,
                     m: map<Id, Id>, id: Id)
    requires i < |rows| && Distinct(TemplateIds(rows))
    requires TemplatesSoFar(before, now, rows[..i], channels, m) && now.nextTemplate <= id
    ensures
      var added := AddTemplate(now, Template(id, rows[i].fields, Remap(rows[i].channelIds, channels)));
      TemplatesSoFar(before, added, rows[..i + 1], channels, m[rows[i].id := id])
  {
    assert Renames(m[rows[i].id := id], TemplateIds(rows[..i + 1]), before.nextTemplate, id + 1) by {
      assert TemplateIds(rows[..i]) == TemplateIds(rows)[..i]
          && TemplateIds(rows[..i + 1]) == TemplateIds(rows)[..i + 1];
      RenamesNext(m, TemplateIds(rows), i, before.nextTemplate, now.nextTemplate, id);
    }
    NextTemplateImages(rows, i, channels, m, id);
    BehindBoth(before.templates, TemplateImages(rows[..i], channels, m),
        Template(id, rows[i].fields, Remap(rows[i].channelIds, channels)));
  }

  lemma BehindBoth<T>(a: seq<T>, b: seq<T>, x: T)
    ensures a + b + [x] == a + (b + [x])
  {
  }

  method ImportTemplates(st: Store, rows: seq<Template>, channels: map<Id, Id>) returns (ghost ids: map<Id, Id>)
    requires st.Valid() && Distinct(TemplateIds(rows))
    modifies st
    ensures st.Valid() && TemplatesSoFar(old(st.View()), st.View(), rows, channels, ids)
  {
    ids := map[];
    assert TemplateImages(rows[..0], channels, ids) == [];
    for i := 0 to |rows|
      invariant st.Valid() && TemplatesSoFar(old(st.View()), st.View(), rows[..i], channels, ids)
    {
      ghost var now := st.View();
      var attached := RemapChannelIds(rows[i].channelIds, channels);
      var id := st.CreateMonitorTemplate(rows[i].fields, attached);
      NextTemplate(old(st.View()), now, rows, i, channels, ids, id);
      ids := ids[rows[i].id := id];
    }
    assert rows[..|rows|] == rows;
  }

  /** New ids written behind the `n` ids of a table are ids of the table. */
  lemma RenamedAppear(olds: seq<Id>, m: map<Id, Id>, lo: Id, hi: Id, ids: seq<Id>, n: nat)
    requires Renames(m, olds, lo, hi) && |ids| == n + |olds|
    requires forall i :: 0 <= i < |olds| ==> ids[n + i] == At(m, olds[i])
    ensures forall x :: x in m ==> m[x] in ids
  {
    forall x | x in m ensures m[x] in ids {
      var i :| 0 <= i < |olds| && olds[i] == x;
      assert ids[n + i] == m[x];
    }
  }

  lemma ImportedChannelsExist(before: Database, now: Database, rows: seq<Channel>, m: map<Id, Id>)
    requires ChannelsSoFar(before, now, rows, m)
    ensures forall x :: x in m ==> m[x] in ChannelIds(now.channels)
  {
    ChannelImagesAt(rows, m);
    RenamedAppear(ChannelIds(rows), m, before.nextChannel, now.nextChannel, ChannelIds(now.channels),
        |before.channels|);
  }

  /** The restored monitors are live monitors of the store. */
  lemma ImportedMonitorsLive(before: Database, now: Database, rows: seq<Monitor>, channels: map<Id, Id>, m: map<Id, Id>,
                             keep: KeepMonitor)
    requires MonitorsSoFar(before, now, rows, channels, m, keep)
    ensures forall x :: x in m ==> LiveOwner(now.monitors, m[x])
  {
    MonitorImagesAt(rows, channels, m, keep);
    forall x | x in m ensures LiveOwner(now.monitors, m[x]) {
      var i :| 0 <= i < |rows| && MonitorIds(rows)[i] == x;
      LiveBehind(before.monitors, MonitorImages(rows, channels, m, keep), i);
    }
  }

  lemma LiveBehind(before: seq<Monitor>, images: seq<Monitor>, i: nat)
    requires i < |images| && Live(images[i])
    ensures LiveOwner(before + images, images[i].id)
  {
    assert (before + images)[|before| + i] == images[i];
  }

  lemma {:induction false} SameOwners(rules: seq<Rule>, a: seq<Monitor>, b: seq<Monitor>)
    requires forall i :: 0 <= i < |rules| ==> (LiveOwner(a, rules[i].monitorId) <==> LiveOwner(b, rules[i].monitorId))
    ensures LiveRules(rules, a) == LiveRules(rules, b)
  {
    if rules != [] { SameOwners(rules[..|rules| - 1], a, b); }
  }

  lemma OwnerStays(before: seq<Monitor>, images: seq<Monitor>, next: Id, id: Id)
    requires IdsOk(MonitorIds(before), next) && id in MonitorIds(before)
    requires forall i :: 0 <= i < |images| ==> next <= images[i].id
    ensures LiveOwner(before + images, id) <==> LiveOwner(before, id)
  {
    var now := before + images;
    assert forall i :: 0 <= i < |before| ==> now[i] == before[i];
    assert forall i :: |before| <= i < |now| ==> now[i] == images[i - |before|];
  }

  /** New monitors do not change which of the rules count. */
  lemma HeldRulesStay(before: Database, now: Database, rows: seq<Monitor>, channels: map<Id, Id>, m: map<Id, Id>,
                      keep: KeepMonitor)
    requires Consistent(before) && MonitorsSoFar(before, now, rows, channels, m, keep)
    ensures LiveRules(before.rules, now.monitors) == LiveRules(before.rules, before.monitors)
  {
    var images := MonitorImages(rows, channels, m, keep);
    MonitorImagesAt(rows, channels, m, keep);
    forall i | 0 <= i < |images| ensures before.nextMonitor <= images[i].id {
      assert MonitorIds(rows)[i] in m;
    }
    forall i | 0 <= i < |before.rules|
      ensures LiveOwner(now.monitors, before.rules[i].monitorId) <==>
            LiveOwner(before.monitors, before.rules[i].monitorId)
    {
      OwnerStays(before.monitors, images, before.nextMonitor, before.rules[i].monitorId);
    }
    SameOwners(before.rules, now.monitors, before.monitors);
  }

  /** What a store already holds that can make it refuse a row. */
  datatype Held = Held(channels: nat, monitors: seq<Monitor>, rules: nat)

  const NOTHING := Held(0, [], 0)

  function HeldBy(db: Database): Held {
    Held(|db.channels|, db.monitors, |LiveRules(db.rules, db.monitors)|)
  }

  function AcceptedChannels(held: Held, data: Backup, quotas: Quotas): (c: nat)
    ensures c <= |data.channels|
  {
    FirstOver(quotas.channels, held.channels, |data.channels|)
  }

  function AcceptedMonitors(held: Held, data: Backup, quotas: Quotas): (c: nat)
    ensures c <= |data.monitors|
  {
    FirstClash(held.monitors, data.monitors, quotas.monitors, 0)
  }

  function AcceptedRules(held: Held, data: Backup, formats: Formats, quotas: Quotas): (c: nat)
    ensures c <= |data.rules|
  {
    FirstRefused(data.rules, formats, quotas.rules, held.rules, 0)
  }

  /** The part of a backup that a restore writes before the store refuses a row: everything, or the
      rows of the channels, the monitors or the rules before the first one refused, and the tables
      before that one. */
  function Imported(held: Held, data: Backup, formats: Formats, quotas: Quotas): Backup {
    var c, m := AcceptedChannels(held, data, quotas), AcceptedMonitors(held, data, quotas);
    var r := AcceptedRules(held, data, formats, quotas);
    if c < |data.channels| then
      data.(channels := data.channels[..c], monitors := [], rules := [], searches := [], templates := [])
    else if m < |data.monitors| then data.(monitors := data.monitors[..m], rules := [], searches := [], templates := [])
    else if r < |data.rules| then data.(rules := data.rules[..r], searches := [], templates := [])
    else data
  }

  /** `n` more rows are within the limit. */
  predicate FitsAll(limit: int, current: nat, n: nat) {
    n == 0 || limit <= 0 || current + n <= limit
  }

  predicate WithinQuotas(held: Held, data: Backup, quotas: Quotas) {
    && FitsAll(quotas.channels, held.channels, |data.channels|)
    && FitsAll(quotas.monitors, |LiveRows(held.monitors)|, |data.monitors|)
    && FitsAll(quotas.rules, held.rules, |data.rules|)
  }

  /** What the store has no objection to: rows within the quotas, monitor names that are free and
      distinct, and rules whose guidance, their parameters' included, is valid. */
  predicate Importable(held: Held, data: Backup, formats: Formats, quotas: Quotas) {
    && WithinQuotas(held, data, quotas)
    && (forall i :: 0 <= i < |data.monitors| ==> NameOk(held.monitors, data.monitors, i))
    && (forall i :: 0 <= i < |data.rules| ==> StoredRule(data.rules[i].fields, formats).Some?)
  }

  lemma ChannelsFitIff(held: Held, data: Backup, quotas: Quotas)
    ensures AcceptedChannels(held, data, quotas) == |data.channels| <==>
          FitsAll(quotas.channels, held.channels, |data.channels|)
  {
  }

  lemma MonitorsFitIff(held: Held, data: Backup, quotas: Quotas)
    ensures AcceptedMonitors(held, data, quotas) == |data.monitors| <==>
            && FitsAll(quotas.monitors, |LiveRows(held.monitors)|, |data.monitors|)
            && (forall i :: 0 <= i < |data.monitors| ==> NameOk(held.monitors, data.monitors, i))
  {
    var n := |data.monitors|;
    if AcceptedMonitors(held, data, quotas) == n {
      forall i | 0 <= i < n ensures NameOk(held.monitors, data.monitors, i) {
        assert MonitorAccepted(held.monitors, data.monitors, quotas.monitors, i);
      }
      if n > 0 {
        assert MonitorAccepted(held.monitors, data.monitors, quotas.monitors, n - 1);
      }
    }
  }

  lemma RulesFitIff(held: Held, data: Backup, formats: Formats, quotas: Quotas)
    ensures AcceptedRules(held, data, formats, quotas) == |data.rules| <==>
            && FitsAll(quotas.rules, held.rules, |data.rules|)
            && (forall i :: 0 <= i < |data.rules| ==> StoredRule(data.rules[i].fields, formats).Some?)
  {
    var n := |data.rules|;
    if AcceptedRules(held, data, formats, quotas) == n {
      forall i | 0 <= i < n ensures StoredRule(data.rules[i].fields, formats).Some? {
        assert RuleAccepted(data.rules, formats, quotas.rules, held.rules, i);
      }
      if n > 0 {
        assert RuleAccepted(data.rules, formats, quotas.rules, held.rules, n - 1);
      }
    }
  }

  lemma ImportableIff(held: Held, data: Backup, formats: Formats, quotas: Quotas)
    ensures Importable(held, data, formats, quotas) <==>
            && AcceptedChannels(held, data, quotas) == |data.channels|
            && AcceptedMonitors(held, data, quotas) == |data.monitors|
            && AcceptedRules(held, data, formats, quotas) == |data.rules|
  {
    ChannelsFitIff(held, data, quotas);
    MonitorsFitIff(held, data, quotas);
    RulesFitIff(held, data, formats, quotas);
  }

  /** The store refuses nothing exactly when all of the backup is written. */
  lemma ImportedIff(held: Held, data: Backup, formats: Formats, quotas: Quotas)
    ensures Imported(held, data, formats, quotas) == data <==> Importable(held, data, formats, quotas)
  {
    ImportableIff(held, data, formats, quotas);
    var part := Imported(held, data, formats, quotas);
    if AcceptedChannels(held, data, quotas) < |data.channels| {
      assert |part.channels| < |data.channels|;
    } else if AcceptedMonitors(held, data, quotas) < |data.monitors| {
      assert |part.monitors| < |data.monitors|;
    } else if AcceptedRules(held, data, formats, quotas) < |data.rules| {
      assert |part.rules| < |data.rules|;
    }
  }

  lemma ValidMonitorsAreStored(data: Backup, formats: Formats)
    requires ValidBackup(data, formats)
    ensures forall i :: 0 <= i < |data.monitors| ==> StoredMonitor(data.monitors[i].fields, formats).Some?
  {
    forall i | 0 <= i < |data.monitors| ensures StoredMonitor(data.monitors[i].fields, formats).Some? {
      assert MonitorOk(data.monitors[i], formats);
    }
  }

  lemma OwnersImported(before: Database, now: Database, data: Backup, channels: map<Id, Id>, m: map<Id, Id>,
                       keep: KeepMonitor)
    requires OwnersOk(data.rules, MonitorIds(data.monitors))
    requires MonitorsSoFar(before, now, data.monitors, channels, m, keep)
    ensures OwnersKnown(data.rules, m, now.monitors)
  {
    ImportedMonitorsLive(before, now, data.monitors, channels, m, keep);
  }

  /** The steps of a restore, up to where it stopped, make up a restore of what was written. */
  lemma RestoreSteps(before: Database, s1: Database, s2: Database, s3: Database, s4: Database, after: Database,
                     data: Backup, ren: Renaming, keep: Keep)
    requires ChannelsSoFar(before, s1, data.channels, ren.channels)
    requires MonitorsSoFar(s1, s2, data.monitors, ren.channels, ren.monitors, keep.monitor)
    requires RulesSoFar(s2, s3, data.rules, ren.monitors, ren.rules, keep.rule)
    requires SearchesSoFar(s3, s4, data.searches, ren.monitors, ren.rules, ren.searches)
    requires TemplatesSoFar(s4, after, data.templates, ren.channels, ren.templates)
    ensures IsRestore(before, after, data, ren, keep)
  {
  }

  lemma NoMonitors(db: Database, channels: map<Id, Id>, keep: KeepMonitor)
    ensures MonitorsSoFar(db, db, [], channels, map[], keep)
  {
    assert db.monitors + MonitorImages([], channels, map[], keep) == db.monitors;
  }

  lemma NoRules(db: Database, monitors: map<Id, Id>, keep: KeepRule)
    ensures RulesSoFar(db, db, [], monitors, map[], keep)
  {
    assert db.rules + RuleImages([], monitors, map[], keep) == db.rules;
  }

  lemma NoSearches(db: Database, monitors: map<Id, Id>, rules: map<Id, Id>)
    ensures SearchesSoFar(db, db, [], monitors, rules, map[])
  {
    assert KeptSearches(db.searches, []) + SearchImages([], monitors, rules, map[]) == db.searches;
  }

  lemma NoTemplates(db: Database, channels: map<Id, Id>)
    ensures TemplatesSoFar(db, db, [], channels, map[])
  {
    assert db.templates + TemplateImages([], channels, map[]) == db.templates;
  }

  lemma StoppedAtChannel(before: Database, after: Database, part: Backup, channels: map<Id, Id>, keep: Keep)
    requires ChannelsSoFar(before, after, part.channels, channels)
    requires part.monitors == [] && part.rules == [] && part.searches == [] && part.templates == []
    ensures IsRestore(before, after, part, Renaming(channels, map[], map[], map[], map[]), keep)
  {
    NoMonitors(after, channels, keep.monitor);
    StoppedAtMonitor(before, after, after, part, channels, map[], keep);
  }

  lemma StoppedAtMonitor(before: Database, s1: Database, after: Database, part: Backup, channels: map<Id, Id>,
                         monitors: map<Id, Id>, keep: Keep)
    requires ChannelsSoFar(before, s1, part.channels, channels)
    requires MonitorsSoFar(s1, after, part.monitors, channels, monitors, keep.monitor)
    requires part.rules == [] && part.searches == [] && part.templates == []
    ensures IsRestore(before, after, part, Renaming(channels, monitors, map[], map[], map[]), keep)
  {
    NoRules(after, monitors, keep.rule);
    NoSearches(after, monitors, map[]);
    NoTemplates(after, channels);
    RestoreSteps(before, s1, after, after, after, after, part, Renaming(channels, monitors, map[], map[], map[]), keep);
  }

  /** What a validated backup promises the loops of a restore. */
  ghost predicate Loadable(data: Backup, formats: Formats) {
    && Distinct(ChannelIds(data.channels))
    && Distinct(MonitorIds(data.monitors))
    && Distinct(RuleIds(data.rules))
    && Distinct(SearchIds(data.searches))
    && Distinct(TemplateIds(data.templates))
    && AtMostOneDefault(data.searches)
    && OwnersOk(data.rules, MonitorIds(data.monitors))
    && forall i :: 0 <= i < |data.monitors| ==> StoredMonitor(data.monitors[i].fields, formats).Some?
  }

  lemma ValidIsLoadable(data: Backup, formats: Formats)
    requires ValidBackup(data, formats)
    ensures Loadable(data, formats)
  {
    ValidMonitorsAreStored(data, formats);
    forall i | 0 <= i < |data.rules| ensures data.rules[i].monitorId in MonitorIds(data.monitors) {
      assert RuleOk(data.rules[i], MonitorIds(data.monitors), formats);
    }
  }

  /** The last two loops; `s4` is the store between them. */
  method ImportViews(st: Store, data: Backup, channels: map<Id, Id>, monitors: map<Id, Id>, rules: map<Id, Id>)
    returns (ghost s4: Database, ghost ren: Renaming)
    requires st.Valid() && Distinct(SearchIds(data.searches)) && Distinct(TemplateIds(data.templates))
    requires AtMostOneDefault(data.searches)
    modifies st
    ensures st.Valid() && ren.channels == channels && ren.monitors == monitors && ren.rules == rules
    ensures SearchesSoFar(old(st.View()), s4, data.searches, monitors, rules, ren.searches)
    ensures TemplatesSoFar(s4, st.View(), data.templates, channels, ren.templates)
  {
    ghost var searchIds := ImportSearches(st, data.searches, monitors, rules);
    s4 := st.View();
    ghost var templateIds := ImportTemplates(st, data.templates, channels);
    ren := Renaming(channels, monitors, rules, searchIds, templateIds);
  }

  /** The three loops behind the monitors; `part` is what of the backup has been written. */
  method ImportRest(st: Store, data: Backup, channels: map<Id, Id>, monitors: map<Id, Id>)
    returns (ok: bool, ghost part: Backup, ghost ren: Renaming, ghost s3: Database, ghost s4: Database)
    requires st.Valid() && Distinct(RuleIds(data.rules)) && OwnersKnown(data.rules, monitors, st.monitors)
    requires Distinct(SearchIds(data.searches)) && Distinct(TemplateIds(data.templates))
    requires AtMostOneDefault(data.searches)
    modifies st
    ensures st.Valid()
    ensures
      var r := AcceptedRules(HeldBy(old(st.View())), data, st.formats, st.quotas);
      && (ok <==> r == |data.rules|)
      && part == (if ok then data else data.(rules := data.rules[..r], searches := [], templates := []))
    ensures ren.channels == channels && ren.monitors == monitors
    ensures RulesSoFar(old(st.View()), s3, part.rules, monitors, ren.rules, Keeping(st.formats).rule)
    ensures SearchesSoFar(s3, s4, part.searches, monitors, ren.rules, ren.searches)
    ensures TemplatesSoFar(s4, st.View(), part.templates, channels, ren.templates)
  {
    ghost var r := AcceptedRules(HeldBy(st.View()), data, st.formats, st.quotas);
    var ruleIds;
    ok, ruleIds := ImportRules(st, data.rules, monitors);
    s3 := st.View();
    if !ok {
      part := data.(rules := data.rules[..r], searches := [], templates := []);
      NoSearches(s3, monitors, ruleIds);
      NoTemplates(s3, channels);
      s4, ren := s3, Renaming(channels, monitors, ruleIds, map[], map[]);
      return;
    }
    part := data;
    assert data.rules[..|data.rules|] == data.rules;
    s4, ren := ImportViews(st, data, channels, monitors, ruleIds);
  }

  /** The restored part, once the channels and the monitors are all written. */
  lemma PartBehindMonitors(held: Held, data: Backup, formats: Formats, quotas: Quotas)
    requires AcceptedChannels(held, data, quotas) == |data.channels|
    requires AcceptedMonitors(held, data, quotas) == |data.monitors|
    ensures
      var r := AcceptedRules(held, data, formats, quotas);
      && (Importable(held, data, formats, quotas) <==> r == |data.rules|)
      && Imported(held, data, formats, quotas) ==
         (if r == |data.rules| then data else data.(rules := data.rules[..r], searches := [], templates := []))
  {
    ImportableIff(held, data, formats, quotas);
  }

  lemma PartWithoutRules(held: Held, data: Backup, formats: Formats, quotas: Quotas)
    requires AcceptedChannels(held, data, quotas) == |data.channels|
    requires AcceptedMonitors(held, data, quotas) < |data.monitors|
    ensures !Importable(held, data, formats, quotas)
    ensures Imported(held, data, formats, quotas) ==
      data.(monitors := data.monitors[..AcceptedMonitors(held, data, quotas)], rules := [], searches := [],
          templates := [])
  {
    ImportableIff(held, data, formats, quotas);
  }

  lemma PartOfChannels(held: Held, data: Backup, formats: Formats, quotas: Quotas)
    requires AcceptedChannels(held, data, quotas) < |data.channels|
    ensures !Importable(held, data, formats, quotas)
    ensures Imported(held, data, formats, quotas) ==
      data.(channels := data.channels[..AcceptedChannels(held, data, quotas)],
            monitors := [], rules := [], searches := [], templates := [])
  {
    ImportableIff(held, data, formats, quotas);
  }

  /** The loops from the monitors on; `s1` is the store as they find it. */
  method ImportBehindChannels(st: Store, data: Backup, channels: map<Id, Id>, ghost before: Database)
    returns (ok: bool, ghost ren: Renaming)
    requires st.Valid() && Loadable(data, st.formats) && Consistent(before)
    requires ChannelsSoFar(before, st.View(), data.channels, channels)
    requires AcceptedChannels(HeldBy(before), data, st.quotas) == |data.channels|
    modifies st
    ensures st.Valid()
    ensures IsRestore(before, st.View(), Imported(HeldBy(before), data, st.formats, st.quotas), ren,
          Keeping(st.formats))
    ensures ok <==> Importable(HeldBy(before), data, st.formats, st.quotas)
  {
    ghost var s1, held, keep := st.View(), HeldBy(before), Keeping(st.formats);
    ImportedChannelsExist(before, s1, data.channels, channels);
    var monitors;
    ok, monitors := ImportMonitors(st, data.monitors, channels);
    ghost var s2 := st.View();
    if !ok {
      PartWithoutRules(held, data, st.formats, st.quotas);
      ren := Renaming(channels, monitors, map[], map[], map[]);
      StoppedAtMonitor(before, s1, s2, Imported(held, data, st.formats, st.quotas), channels, monitors, keep);
      return;
    }
    assert data.monitors[..|data.monitors|] == data.monitors;
    PartBehindMonitors(held, data, st.formats, st.quotas);
    OwnersImported(s1, s2, data, channels, monitors, keep.monitor);
    HeldRulesStay(s1, s2, data.monitors, channels, monitors, keep.monitor);
    ghost var part, s3, s4;
    ok, part, ren, s3, s4 := ImportRest(st, data, channels, monitors);
    RestoreSteps(before, s1, s2, s3, s4, st.View(), part, ren, keep);
  }

  method ImportTables(st: Store, data: Backup) returns (ok: bool, ghost ren: Renaming)
    requires st.Valid() && Loadable(data, st.formats)
    modifies st
    ensures st.Valid()
    ensures
      var held := HeldBy(old(st.View()));
      && IsRestore(old(st.View()), st.View(), Imported(held, data, st.formats, st.quotas), ren, Keeping(st.formats))
      && (ok <==> Importable(held, data, st.formats, st.quotas))
  {
    ghost var before, held := st.View(), HeldBy(st.View());
    var channels;
    ok, channels := ImportChannels(st, data.channels);
    if !ok {
      PartOfChannels(held, data, st.formats, st.quotas);
      ren := Renaming(channels, map[], map[], map[], map[]);
      StoppedAtChannel(before, st.View(), Imported(held, data, st.formats, st.quotas), channels, Keeping(st.formats));
      return;
    }
    assert data.channels[..|data.channels|] == data.channels;
    ok, ren := ImportBehindChannels(st, data, channels, before);
  }

  /** Restores exactly the importable part of a validated backup, whatever ids the store hands out,
      and reports success exactly when that is all of it. */
  method ImportAll(st: Store, data: Backup) returns (ok: bool, ghost ren: Renaming)
    requires st.Valid() && ValidBackup(data, st.formats)
    modifies st
    ensures st.Valid()
    ensures
      var held := HeldBy(old(st.View()));
      && IsRestore(old(st.View()), st.View(), Imported(held, data, st.formats, st.quotas), ren, Keeping(st.formats))
      && (ok <==> Importable(held, data, st.formats, st.quotas))
  {
    ValidIsLoadable(data, st.formats);
    ok, ren := ImportTables(st, data);
  }
}
