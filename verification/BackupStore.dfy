/** The configuration tables of the SQL stores and the writes a restore makes to them. */
module BackupStore {
  import opened Wrappers
  import opened BackupData
  import opened Guidance

  /** The configuration tables, each in id order, with the next id of each sequence. */
  datatype Database = Database(
    channels: seq<Channel>,
    monitors: seq<Monitor>,
    rules: seq<Rule>,
    searches: seq<Search>,
    templates: seq<Template>,
    nextChannel: Id,
    nextMonitor: Id,
    nextRule: Id,
    nextSearch: Id,
    nextTemplate: Id)

  // ----- consistency of the tables -----

  /** Ids come from a sequence: positive, in order, and below the next one. */
  predicate IdsOk(ids: seq<Id>, next: Id) {
    && 0 < next
    && (forall i :: 0 <= i < |ids| ==> 0 < ids[i] < next)
    && (forall i, j :: 0 <= i < j < |ids| ==> ids[i] < ids[j])
  }

  predicate OwnersOk(rules: seq<Rule>, monitorIds: seq<Id>) {
    forall i :: 0 <= i < |rules| ==> rules[i].monitorId in monitorIds
  }

  predicate Ascending(ids: seq<Id>) {
    forall i, j :: 0 <= i < j < |ids| ==> ids[i] < ids[j]
  }

  /** Attachments are a set, listed by channel id. */
  predicate AttachmentsSorted(rows: seq<Monitor>) {
    forall i :: 0 <= i < |rows| ==> Ascending(rows[i].channelIds)
  }

  predicate Live(m: Monitor) {
    m.deletedAt.None?
  }

  /** No live monitor has the name. */
  predicate NameFree(rows: seq<Monitor>, name: string) {
    forall i :: 0 <= i < |rows| && Live(rows[i]) ==> rows[i].fields.name != name
  }

  /** The unique index on the names of live monitors. */
  predicate NamesOk(rows: seq<Monitor>) {
    forall i, j :: 0 <= i < j < |rows| && Live(rows[i]) && Live(rows[j]) ==> rows[i].fields.name != rows[j].fields.name
  }

  ghost predicate Consistent(db: Database) {
    && IdsOk(ChannelIds(db.channels), db.nextChannel)
    && IdsOk(MonitorIds(db.monitors), db.nextMonitor)
    && IdsOk(RuleIds(db.rules), db.nextRule)
    && IdsOk(SearchIds(db.searches), db.nextSearch)
    && IdsOk(TemplateIds(db.templates), db.nextTemplate)
    && AttachmentsOk(db.monitors, ChannelIds(db.channels))
    && AttachmentsSorted(db.monitors)
    && NamesOk(db.monitors)
    && OwnersOk(db.rules, MonitorIds(db.monitors))
    && AtMostOneDefault(db.searches)
  }

  lemma IdsOkSnoc(ids: seq<Id>, next: Id, id: Id)
    requires IdsOk(ids, next) && next <= id
    ensures IdsOk(ids + [id], id + 1) && id !in ids
  {
  }

  // ----- what the tables hold of a row -----

  const DEFAULT_TIMEOUT_SECONDS := 15
  const FIRST_VERSION := 1

  /** The insert leaves out the minimum severity, and no timeout is stored as the default one. */
  function StoredChannel(f: ChannelFields): ChannelFields {
    f.(minSeverity := "", timeoutSeconds := if f.timeoutSeconds <= 0 then DEFAULT_TIMEOUT_SECONDS else f.timeoutSeconds)
  }

  function StoredPriority(priority: string): string {
    if priority == "" then "normal" else priority
  }

  function StoredMonitor(f: MonitorFields, formats: Formats): Option<MonitorFields> {
    match (ValidateRunbookURL(f.runbookUrl, formats.scheme), ValidateResponseGuidance(f.responseGuidance))
    case (Some(url), Some(guidance)) =>
      Some(f.(priority := StoredPriority(f.priority), runbookUrl := url, responseGuidance := guidance))
    case _ => None
  }

  /** A rule without a link or a note of its own takes the one in its parameters. */
  function Own(text: string, inParams: Option<string>): string {
    if text == "" && inParams.Some? then inParams.value else text
  }

  /** The insert leaves out the severity; a new rule is at its first version. */
  function StoredRule(f: RuleFields, formats: Formats): Option<RuleFields> {
    match (ValidateRunbookURL(Own(f.runbookUrl, formats.paramsUrl(f.params)), formats.scheme),
           ValidateResponseGuidance(Own(f.responseGuidance, formats.paramsGuidance(f.params))))
    case (Some(url), Some(guidance)) =>
      Some(f.(severity := "", version := FIRST_VERSION, runbookUrl := url, responseGuidance := guidance))
    case _ => None
  }

  // ----- quotas -----

  /** The limits of a workspace; 0 or less means none. */
  datatype Quotas = Quotas(channels: int, monitors: int, rules: int)

  /** One more row is within the limit. */
  predicate Fits(limit: int, current: nat) {
    limit <= 0 || current + 1 <= limit
  }

  /** The monitors that are not soft-deleted. */
  function LiveRows(rows: seq<Monitor>): seq<Monitor> {
    if rows == [] then []
    else LiveRows(rows[..|rows| - 1]) + (if Live(rows[|rows| - 1]) then [rows[|rows| - 1]] else [])
  }

  predicate LiveOwner(rows: seq<Monitor>, id: Id) {
    exists i :: 0 <= i < |rows| && rows[i].id == id && Live(rows[i])
  }

  /** The rules of live monitors. */
  function LiveRules(rules: seq<Rule>, monitors: seq<Monitor>): seq<Rule> {
    if rules == [] then []
    else
      var last := rules[|rules| - 1];
      LiveRules(rules[..|rules| - 1], monitors) + (if LiveOwner(monitors, last.monitorId) then [last] else [])
  }

  // ----- the writes -----

  function AddChannel(db: Database, id: Id, fields: ChannelFields): Database {
    db.(channels := db.channels + [Channel(id, fields)], nextChannel := id + 1)
  }

  /** A monitor that has not matched yet. A restore passes no tags. */
  function NewMonitor(id: Id, fields: MonitorFields, channelIds: seq<Id>): Monitor {
    Monitor(id, fields, [], None, None, channelIds)
  }

  function AddMonitor(db: Database, id: Id, fields: MonitorFields): Database {
    db.(monitors := db.monitors + [NewMonitor(id, fields, [])], nextMonitor := id + 1)
  }

  /** Insertion into an attachment list without repetition. */
  function InsertId(ids: seq<Id>, id: Id): seq<Id> {
    if ids == [] || id < ids[0] then [id] + ids
    else if id == ids[0] then ids
    else [ids[0]] + InsertId(ids[1..], id)
  }

  /** The attachment list that replaces a monitor's channels. */
  function Attached(ids: seq<Id>): seq<Id> {
    if ids == [] then [] else InsertId(Attached(ids[..|ids| - 1]), ids[|ids| - 1])
  }

  lemma {:induction false} InsertIdMembers(ids: seq<Id>, id: Id)
    requires Ascending(ids)
    ensures Ascending(InsertId(ids, id))
    ensures forall x :: x in InsertId(ids, id) <==> x == id || x in ids
  {
    if ids != [] && id > ids[0] {
      InsertIdMembers(ids[1..], id);
      assert ids == [ids[0]] + ids[1..];
      var r := InsertId(ids[1..], id);
      forall j | 0 <= j < |r| ensures ids[0] < r[j] {
        assert r[j] in r;
      }
    }
  }

  lemma {:induction false} AttachedMembers(ids: seq<Id>)
    ensures Ascending(Attached(ids))
    ensures forall x :: x in Attached(ids) <==> x in ids
  {
    if ids != [] {
      AttachedMembers(ids[..|ids| - 1]);
      InsertIdMembers(Attached(ids[..|ids| - 1]), ids[|ids| - 1]);
      assert ids == ids[..|ids| - 1] + [ids[|ids| - 1]];
    }
  }

  function SetChannels(rows: seq<Monitor>, id: Id, channelIds: seq<Id>): (r: seq<Monitor>)
    ensures |r| == |rows|
    ensures forall i :: 0 <= i < |rows| ==> r[i] == if rows[i].id == id then rows[i].(channelIds := channelIds) else rows[i]
  {
    seq(|rows|, i requires 0 <= i < |rows| => if rows[i].id == id then rows[i].(channelIds := channelIds) else rows[i])
  }

  function AddRule(db: Database, id: Id, monitorId: Id, fields: RuleFields): Database {
    db.(rules := db.rules + [Rule(id, monitorId, fields)], nextRule := id + 1)
  }

  function ClearDefaults(rows: seq<Search>): (r: seq<Search>)
    ensures |r| == |rows|
    ensures forall i :: 0 <= i < |rows| ==> r[i] == rows[i].(isDefault := false)
  {
    seq(|rows|, i requires 0 <= i < |rows| => rows[i].(isDefault := false))
  }

  /** A new default takes the mark from the old one. */
  function AddSearch(db: Database, search: Search): Database {
    var kept := if search.isDefault then ClearDefaults(db.searches) else db.searches;
    db.(searches := kept + [search], nextSearch := search.id + 1)
  }

  function AddTemplate(db: Database, template: Template): Database {
    db.(templates := db.templates + [template], nextTemplate := template.id + 1)
  }

  lemma ChannelIdsSnoc(rows: seq<Channel>, row: Channel)
    ensures ChannelIds(rows + [row]) == ChannelIds(rows) + [row.id]
  {
  }

  lemma MonitorIdsSnoc(rows: seq<Monitor>, row: Monitor)
    ensures MonitorIds(rows + [row]) == MonitorIds(rows) + [row.id]
  {
  }

  lemma AllInMore(ids: seq<Id>, known: seq<Id>, more: seq<Id>)
    requires AllIn(ids, known)
    ensures AllIn(ids, known + more)
  {
  }

  lemma AddChannelConsistent(db: Database, id: Id, fields: ChannelFields)
    requires Consistent(db) && db.nextChannel <= id
    ensures Consistent(AddChannel(db, id, fields))
  {
    ChannelIdsSnoc(db.channels, Channel(id, fields));
    IdsOkSnoc(ChannelIds(db.channels), db.nextChannel, id);
    forall i | 0 <= i < |db.monitors| ensures AllIn(db.monitors[i].channelIds, ChannelIds(db.channels) + [id]) {
      AllInMore(db.monitors[i].channelIds, ChannelIds(db.channels), [id]);
    }
  }

  lemma AddMonitorConsistent(db: Database, id: Id, fields: MonitorFields)
    requires Consistent(db) && db.nextMonitor <= id && NameFree(db.monitors, fields.name)
    ensures Consistent(AddMonitor(db, id, fields))
  {
    MonitorIdsSnoc(db.monitors, NewMonitor(id, fields, []));
    IdsOkSnoc(MonitorIds(db.monitors), db.nextMonitor, id);
  }

  lemma SetChannelsConsistent(db: Database, id: Id, channelIds: seq<Id>)
    requires Consistent(db) && AllIn(channelIds, ChannelIds(db.channels))
    ensures Consistent(db.(monitors := SetChannels(db.monitors, id, Attached(channelIds))))
  {
    var rows := SetChannels(db.monitors, id, Attached(channelIds));
    AttachedMembers(channelIds);
    assert MonitorIds(rows) == MonitorIds(db.monitors);
    forall i | 0 <= i < |rows| ensures AllIn(rows[i].channelIds, ChannelIds(db.channels)) && Ascending(rows[i].channelIds) {
      forall k | 0 <= k < |rows[i].channelIds| ensures rows[i].channelIds[k] in ChannelIds(db.channels) {
        assert rows[i].channelIds[k] in rows[i].channelIds;
      }
    }
  }

  lemma AddRuleConsistent(db: Database, id: Id, monitorId: Id, fields: RuleFields)
    requires Consistent(db) && db.nextRule <= id && monitorId in MonitorIds(db.monitors)
    ensures Consistent(AddRule(db, id, monitorId, fields))
  {
  }

  lemma AddSearchConsistent(db: Database, search: Search)
    requires Consistent(db) && db.nextSearch <= search.id
    ensures Consistent(AddSearch(db, search))
  {
    var rows := AddSearch(db, search).searches;
    forall i: nat, j: nat ensures !BothDefault(rows, i, j) {
      assert !BothDefault(db.searches, i, j);
    }
  }

  lemma AddTemplateConsistent(db: Database, template: Template)
    requires Consistent(db) && db.nextTemplate <= template.id
    ensures Consistent(AddTemplate(db, template))
  {
  }

  /** What an id sequence promises: nothing below `next`. Sequences may leave gaps. */
  method Allocate(next: Id) returns (id: Id)
    ensures id >= next
  {
    id := next;
  }

  method FindMonitor(rows: seq<Monitor>, id: Id) returns (found: bool)
    ensures found <==> id in MonitorIds(rows)
  {
    for i := 0 to |rows|
      invariant id !in MonitorIds(rows)[..i]
    {
      assert MonitorIds(rows)[..i + 1] == MonitorIds(rows)[..i] + [rows[i].id];
      if rows[i].id == id {
        assert MonitorIds(rows)[i] == id;
        return true;
      }
    }
    assert MonitorIds(rows)[..|rows|] == MonitorIds(rows);
    found := false;
  }

  method FindName(rows: seq<Monitor>, name: string) returns (free: bool)
    ensures free <==> NameFree(rows, name)
  {
    for i := 0 to |rows|
      invariant NameFree(rows[..i], name)
    {
      if Live(rows[i]) && rows[i].fields.name == name {
        return false;
      }
    }
    assert rows[..|rows|] == rows;
    free := true;
  }

  class Store {
    const formats: Formats
    const quotas: Quotas
    var channels: seq<Channel>
    var monitors: seq<Monitor>
    var rules: seq<Rule>
    var searches: seq<Search>
    var templates: seq<Template>
    var nextChannel: Id
    var nextMonitor: Id
    var nextRule: Id
    var nextSearch: Id
    var nextTemplate: Id

    function View(): Database
      reads this
    {
      Database(channels, monitors, rules, searches, templates, nextChannel, nextMonitor, nextRule, nextSearch, nextTemplate)
    }

    ghost predicate Valid()
      reads this
    {
      Consistent(View())
    }

    constructor (formats: Formats, quotas: Quotas)
      ensures Valid() && View() == Database([], [], [], [], [], 1, 1, 1, 1, 1)
      ensures this.formats == formats && this.quotas == quotas
    {
      this.formats, this.quotas := formats, quotas;
      channels, monitors, rules, searches, templates := [], [], [], [], [];
      nextChannel, nextMonitor, nextRule, nextSearch, nextTemplate := 1, 1, 1, 1, 1;
    }

    /** Refused, without a change, when the quota is reached. */
    method CreateChannel(fields: ChannelFields) returns (ok: bool, id: Id)
      requires Valid()
      modifies this
      ensures Valid()
      ensures ok <==> Fits(quotas.channels, |old(channels)|)
      ensures if ok then old(nextChannel) <= id && View() == AddChannel(old(View()), id, StoredChannel(fields))
              else View() == old(View())
    {
      id := Allocate(nextChannel);
      ok := Fits(quotas.channels, |channels|);
      if ok {
        var stored := StoredChannel(fields);
        AddChannelConsistent(View(), id, stored);
        channels, nextChannel := channels + [Channel(id, stored)], id + 1;
      }
    }

    /** Refused, without a change, when the guidance is invalid, the quota is reached or a live
        monitor has the name. */
    method CreateMonitor(fields: MonitorFields) returns (ok: bool, id: Id)
      requires Valid()
      modifies this
      ensures Valid()
      ensures ok <==>
        && StoredMonitor(fields, formats).Some?
        && Fits(quotas.monitors, |LiveRows(old(monitors))|)
        && NameFree(old(monitors), fields.name)
      ensures if ok then old(nextMonitor) <= id && View() == AddMonitor(old(View()), id, StoredMonitor(fields, formats).value)
              else View() == old(View())
    {
      id := Allocate(nextMonitor);
      var stored := StoredMonitor(fields, formats);
      var free := FindName(monitors, fields.name);
      ok := stored.Some? && Fits(quotas.monitors, |LiveRows(monitors)|) && free;
      if ok {
        AddMonitorConsistent(View(), id, stored.value);
        monitors, nextMonitor := monitors + [NewMonitor(id, stored.value, [])], id + 1;
      }
    }

    /** Refused, without a change, when the monitor or one of the channels does not exist. */
    method SetMonitorChannels(monitorId: Id, channelIds: seq<Id>) returns (ok: bool)
      requires Valid()
      modifies this
      ensures Valid()
      ensures ok <==> monitorId in old(MonitorIds(monitors)) && AllIn(channelIds, old(ChannelIds(channels)))
      ensures View() == if ok then old(View()).(monitors := SetChannels(old(monitors), monitorId, Attached(channelIds))) else old(View())
    {
      var found := FindMonitor(monitors, monitorId);
      ok := found && AllIn(channelIds, ChannelIds(channels));
      if !ok {
        return;
      }
      var attached: seq<Id> := [];
      for i := 0 to |channelIds|
        invariant attached == Attached(channelIds[..i])
        invariant View() == old(View())
      {
        assert channelIds[..i + 1][..i] == channelIds[..i];
        attached := InsertId(attached, channelIds[i]);
      }
      assert channelIds[..|channelIds|] == channelIds;
      SetChannelsConsistent(View(), monitorId, channelIds);
      monitors := SetChannels(monitors, monitorId, attached);
    }

    /** Refused, without a change, when the guidance is invalid, the monitor does not exist or the
        quota is reached. */
    method CreateRule(monitorId: Id, fields: RuleFields) returns (ok: bool, id: Id)
      requires Valid()
      modifies this
      ensures Valid()
      ensures ok <==>
        && StoredRule(fields, formats).Some?
        && monitorId in old(MonitorIds(monitors))
        && Fits(quotas.rules, |LiveRules(old(rules), old(monitors))|)
      ensures if ok then old(nextRule) <= id && View() == AddRule(old(View()), id, monitorId, StoredRule(fields, formats).value)
              else View() == old(View())
    {
      id := Allocate(nextRule);
      var stored := StoredRule(fields, formats);
      var found := FindMonitor(monitors, monitorId);
      ok := stored.Some? && found && Fits(quotas.rules, |LiveRules(rules, monitors)|);
      if ok {
        AddRuleConsistent(View(), id, monitorId, stored.value);
        rules, nextRule := rules + [Rule(id, monitorId, stored.value)], id + 1;
      }
    }

    method CreateSavedSearch(name: string, filter: Filter, isDefault: bool, createdAt: Timestamp) returns (id: Id)
      requires Valid()
      modifies this
      ensures Valid() && old(nextSearch) <= id
      ensures View() == AddSearch(old(View()), Search(id, name, filter, isDefault, createdAt))
    {
      id := Allocate(nextSearch);
      var search := Search(id, name, filter, isDefault, createdAt);
      AddSearchConsistent(View(), search);
      if isDefault {
        searches := ClearDefaults(searches);
      }
      searches, nextSearch := searches + [search], id + 1;
    }

    method CreateMonitorTemplate(fields: TemplateFields, channelIds: seq<Id>) returns (id: Id)
      requires Valid()
      modifies this
      ensures Valid() && old(nextTemplate) <= id
      ensures View() == AddTemplate(old(View()), Template(id, fields, channelIds))
    {
      id := Allocate(nextTemplate);
      AddTemplateConsistent(View(), Template(id, fields, channelIds));
      templates, nextTemplate := templates + [Template(id, fields, channelIds)], id + 1;
    }
  }
}
