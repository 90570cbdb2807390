/** The contents of a backup file and its validation. */
module BackupData {
  import opened Wrappers
  import opened Text
  import opened Guidance

  /** An int64 without its upper bound: id sequences are taken never to run out. */
  type Id = x: int | -0x8000_0000_0000_0000 <= x
  type Timestamp = int  // 0 is Go's zero time

  datatype ChannelFields = ChannelFields(
    name: string,
    kind: string,
    config: string,
    enabled: bool,
    digestMode: string,
    digestWindowSeconds: int,
    minSeverity: string,
    timeoutSeconds: int,
    createdAt: Timestamp)

  datatype Channel = Channel(id: Id, fields: ChannelFields)

  datatype MonitorFields = MonitorFields(
    name: string,
    contractIds: seq<string>,
    enabled: bool,
    priority: string,
    network: string,
    runbookUrl: string,
    responseGuidance: string,
    createdAt: Timestamp)

  /** The columns a restore copies, and the ones it does not. */
  datatype Monitor = Monitor(
    id: Id,
    fields: MonitorFields,
    tags: seq<string>,
    lastMatchedAt: Option<Timestamp>,
    deletedAt: Option<Timestamp>,
    channelIds: seq<Id>)

  datatype RuleFields = RuleFields(
    kind: string,
    params: string,
    enabled: bool,
    severity: string,
    version: int,
    runbookUrl: string,
    responseGuidance: string)

  datatype Rule = Rule(id: Id, monitorId: Id, fields: RuleFields)

  /** The references of a saved filter; `criteria` stands for the rest of it. 0 means no reference. */
  datatype Filter = Filter(monitorId: Id, ruleId: Id, criteria: string)

  datatype Search = Search(id: Id, name: string, filter: Filter, isDefault: bool, createdAt: Timestamp)

  datatype TemplateRule = TemplateRule(kind: string, params: string)

  datatype TemplateFields = TemplateFields(
    name: string,
    description: string,
    rules: seq<TemplateRule>,
    parameters: string,
    createdAt: Timestamp)

  datatype Template = Template(id: Id, fields: TemplateFields, channelIds: seq<Id>)

  datatype Backup = Backup(
    version: int,
    createdAt: Timestamp,
    monitors: seq<Monitor>,
    rules: seq<Rule>,
    channels: seq<Channel>,
    searches: seq<Search>,
    templates: seq<Template>)

  const BACKUP_VERSION := 1
  const MIN_TIMEOUT_SECONDS := 1
  const MAX_TIMEOUT_SECONDS := 60

  /** What the standard library's JSON and URL parsers make of a text: whether it is a JSON object,
      its string fields "runbook_url" and "response_guidance", and a link's lower-case scheme. */
  datatype Formats = Formats(
    jsonObject: string -> bool,
    paramsUrl: string -> Option<string>,
    paramsGuidance: string -> Option<string>,
    scheme: string -> Option<string>)

  // ----- what a valid backup is -----

  predicate KnownPriority(s: string) {
    s in {"", "low", "normal", "high"}
  }

  predicate KnownSeverity(s: string) {
    s in {"", "info", "warning", "critical"}
  }

  predicate Distinct(ids: seq<Id>) {
    forall i, j :: 0 <= i < j < |ids| ==> ids[i] != ids[j]
  }

  function ChannelIds(rows: seq<Channel>): (ids: seq<Id>)
    ensures |ids| == |rows| && forall i :: 0 <= i < |rows| ==> ids[i] == rows[i].id
  {
    seq(|rows|, i requires 0 <= i < |rows| => rows[i].id)
  }

  function MonitorIds(rows: seq<Monitor>): (ids: seq<Id>)
    ensures |ids| == |rows| && forall i :: 0 <= i < |rows| ==> ids[i] == rows[i].id
  {
    seq(|rows|, i requires 0 <= i < |rows| => rows[i].id)
  }

  function RuleIds(rows: seq<Rule>): (ids: seq<Id>)
    ensures |ids| == |rows| && forall i :: 0 <= i < |rows| ==> ids[i] == rows[i].id
  {
    seq(|rows|, i requires 0 <= i < |rows| => rows[i].id)
  }

  function SearchIds(rows: seq<Search>): (ids: seq<Id>)
    ensures |ids| == |rows| && forall i :: 0 <= i < |rows| ==> ids[i] == rows[i].id
  {
    seq(|rows|, i requires 0 <= i < |rows| => rows[i].id)
  }

  function TemplateIds(rows: seq<Template>): (ids: seq<Id>)
    ensures |ids| == |rows| && forall i :: 0 <= i < |rows| ==> ids[i] == rows[i].id
  {
    seq(|rows|, i requires 0 <= i < |rows| => rows[i].id)
  }

  predicate MonitorFieldsOk(f: MonitorFields, formats: Formats) {
    && !Blank(f.name)
    && f.createdAt != 0
    && KnownPriority(f.priority)
    && (forall i :: 0 <= i < |f.contractIds| ==> !Blank(f.contractIds[i]))
    && ValidateRunbookURL(f.runbookUrl, formats.scheme).Some?
    && ValidateResponseGuidance(f.responseGuidance).Some?
  }

  predicate MonitorOk(m: Monitor, formats: Formats) {
    m.id > 0 && MonitorFieldsOk(m.fields, formats)
  }

  predicate DigestOk(mode: string, window: int) {
    (mode == "" && window >= 0) || (mode == "window" && window > 0)
  }

  predicate ChannelFieldsOk(f: ChannelFields, formats: Formats) {
    && !Blank(f.name)
    && !Blank(f.kind)
    && f.createdAt != 0
    && formats.jsonObject(f.config)
    && DigestOk(f.digestMode, f.digestWindowSeconds)
    && KnownSeverity(f.minSeverity)
    && (f.timeoutSeconds == 0 || MIN_TIMEOUT_SECONDS <= f.timeoutSeconds <= MAX_TIMEOUT_SECONDS)
  }

  predicate ChannelOk(c: Channel, formats: Formats) {
    c.id > 0 && ChannelFieldsOk(c.fields, formats)
  }

  predicate AllIn(ids: seq<Id>, known: seq<Id>) {
    forall i :: 0 <= i < |ids| ==> ids[i] in known
  }

  predicate RuleFieldsOk(f: RuleFields, formats: Formats) {
    && !Blank(f.kind)
    && formats.jsonObject(f.params)
    && KnownSeverity(f.severity)
    && ValidateRunbookURL(f.runbookUrl, formats.scheme).Some?
    && ValidateResponseGuidance(f.responseGuidance).Some?
  }

  predicate RuleOk(r: Rule, monitorIds: seq<Id>, formats: Formats) {
    r.id > 0 && r.monitorId in monitorIds && RuleFieldsOk(r.fields, formats)
  }

  predicate SearchOk(s: Search) {
    && s.id > 0
    && !Blank(s.name)
    && s.createdAt != 0
    && s.filter.monitorId >= 0
    && s.filter.ruleId >= 0
  }

  predicate TemplateOk(t: Template, formats: Formats) {
    && t.id > 0
    && !Blank(t.fields.name)
    && t.fields.createdAt != 0
    && (forall i :: 0 <= i < |t.channelIds| ==> t.channelIds[i] > 0)
    && (forall i :: 0 <= i < |t.fields.rules| ==> !Blank(t.fields.rules[i].kind) && formats.jsonObject(t.fields.rules[i].params))
  }

  predicate MonitorsOk(rows: seq<Monitor>, formats: Formats) {
    Distinct(MonitorIds(rows)) && forall i :: 0 <= i < |rows| ==> MonitorOk(rows[i], formats)
  }

  predicate ChannelsOk(rows: seq<Channel>, formats: Formats) {
    Distinct(ChannelIds(rows)) && forall i :: 0 <= i < |rows| ==> ChannelOk(rows[i], formats)
  }

  predicate AttachmentsOk(rows: seq<Monitor>, channelIds: seq<Id>) {
    forall i :: 0 <= i < |rows| ==> AllIn(rows[i].channelIds, channelIds)
  }

  predicate RulesOk(rows: seq<Rule>, monitorIds: seq<Id>, formats: Formats) {
    Distinct(RuleIds(rows)) && forall i :: 0 <= i < |rows| ==> RuleOk(rows[i], monitorIds, formats)
  }

  predicate BothDefault(rows: seq<Search>, i: nat, j: nat) {
    i < j < |rows| && rows[i].isDefault && rows[j].isDefault
  }

  ghost predicate AtMostOneDefault(rows: seq<Search>) {
    forall i, j :: !BothDefault(rows, i, j)
  }

  ghost predicate SearchesOk(rows: seq<Search>) {
    && Distinct(SearchIds(rows))
    && (forall i :: 0 <= i < |rows| ==> SearchOk(rows[i]))
    && AtMostOneDefault(rows)
  }

  predicate TemplatesOk(rows: seq<Template>, formats: Formats) {
    Distinct(TemplateIds(rows)) && forall i :: 0 <= i < |rows| ==> TemplateOk(rows[i], formats)
  }

  ghost predicate ValidBackup(data: Backup, formats: Formats) {
    && 1 <= data.version <= BACKUP_VERSION
    && data.createdAt != 0
    && MonitorsOk(data.monitors, formats)
    && ChannelsOk(data.channels, formats)
    && AttachmentsOk(data.monitors, ChannelIds(data.channels))
    && RulesOk(data.rules, MonitorIds(data.monitors), formats)
    && SearchesOk(data.searches)
    && TemplatesOk(data.templates, formats)
  }

  // ----- validateBackup: one pass per table, with the ids seen so far -----

  ghost predicate Saw(seen: set<Id>, ids: seq<Id>) {
    forall id :: id in seen <==> id in ids
  }

  /** The first `i` ids are distinct and are the ones seen. */
  ghost predicate SeenUpTo(seen: set<Id>, ids: seq<Id>, i: nat) {
    i <= |ids| && Distinct(ids[..i]) && Saw(seen, ids[..i])
  }

  lemma SeeNext(seen: set<Id>, ids: seq<Id>, i: nat)
    requires SeenUpTo(seen, ids, i) && i < |ids|
    ensures if ids[i] in seen then !Distinct(ids) else SeenUpTo(seen + {ids[i]}, ids, i + 1)
  {
  }

  lemma SeenAll(seen: set<Id>, ids: seq<Id>)
    requires SeenUpTo(seen, ids, |ids|)
    ensures Distinct(ids) && Saw(seen, ids)
  {
  }

  /** The loop over one table, refusing a row that is not `ok` or repeats an id. */
  method CheckRows<T>(rows: seq<T>, ids: seq<Id>, ok: T -> bool) returns (valid: bool, seen: set<Id>)
    requires |ids| == |rows|
    ensures valid <==> Distinct(ids) && forall i :: 0 <= i < |rows| ==> ok(rows[i])
    ensures valid ==> Saw(seen, ids)
  {
    seen := {};
    for i := 0 to |rows|
      invariant SeenUpTo(seen, ids, i)
      invariant forall k :: 0 <= k < i ==> ok(rows[k])
    {
      SeeNext(seen, ids, i);
      if ids[i] in seen || !ok(rows[i]) {
        return false, seen;
      }
      seen := seen + {ids[i]};
    }
    SeenAll(seen, ids);
    valid := true;
  }

  method CheckAttachment(ids: seq<Id>, channels: set<Id>, ghost channelIds: seq<Id>) returns (ok: bool)
    requires Saw(channels, channelIds)
    ensures ok <==> AllIn(ids, channelIds)
  {
    for j := 0 to |ids|
      invariant forall k :: 0 <= k < j ==> ids[k] in channelIds
    {
      if ids[j] !in channels {
        return false;
      }
    }
    ok := true;
  }

  method CheckAttachments(rows: seq<Monitor>, channels: set<Id>, ghost channelIds: seq<Id>) returns (ok: bool)
    requires Saw(channels, channelIds)
    ensures ok <==> AttachmentsOk(rows, channelIds)
  {
    for i := 0 to |rows|
      invariant forall k :: 0 <= k < i ==> AllIn(rows[k].channelIds, channelIds)
    {
      var rowOk := CheckAttachment(rows[i].channelIds, channels, channelIds);
      if !rowOk {
        return false;
      }
    }
    ok := true;
  }

  /** Of the first `i` searches none is marked, or only the one at `d`. */
  ghost predicate DefaultsUpTo(rows: seq<Search>, i: nat, defaults: nat, d: nat) {
    && i <= |rows|
    && (forall k :: 0 <= k < i && (defaults == 0 || k != d) ==> !rows[k].isDefault)
    && (defaults != 0 ==> defaults == 1 && d < i && rows[d].isDefault)
  }

  method CheckDefaults(rows: seq<Search>) returns (ok: bool)
    ensures ok <==> AtMostOneDefault(rows)
  {
    var defaults := 0;
    ghost var d := 0;
    for i := 0 to |rows|
      invariant DefaultsUpTo(rows, i, defaults, d)
    {
      if rows[i].isDefault {
        defaults := defaults + 1;
        if defaults > 1 {
          assert BothDefault(rows, d, i);
          return false;
        }
        d := i;
      }
    }
    ok := true;
  }

  /** Accepts exactly the valid backups. */
  method ValidateBackup(data: Backup, formats: Formats) returns (ok: bool)
    ensures ok <==> ValidBackup(data, formats)
  {
    if data.version > BACKUP_VERSION || data.version < 1 || data.createdAt == 0 {
      return false;
    }
    var monitorsOk, monitors := CheckRows(data.monitors, MonitorIds(data.monitors), m => MonitorOk(m, formats));
    if !monitorsOk { return false; }
    var channelsOk, channels := CheckRows(data.channels, ChannelIds(data.channels), c => ChannelOk(c, formats));
    if !channelsOk { return false; }
    var attachmentsOk := CheckAttachments(data.monitors, channels, ChannelIds(data.channels));
    if !attachmentsOk { return false; }
    var rulesOk, _ := CheckRows(data.rules, RuleIds(data.rules),
                                (r: Rule) => r.id > 0 && r.monitorId in monitors && RuleFieldsOk(r.fields, formats));
    assert rulesOk <==> RulesOk(data.rules, MonitorIds(data.monitors), formats);
    if !rulesOk { return false; }
    var searchesOk, _ := CheckRows(data.searches, SearchIds(data.searches), SearchOk);
    if !searchesOk { return false; }
    var defaultsOk := CheckDefaults(data.searches);
    if !defaultsOk { return false; }
    var templatesOk, _ := CheckRows(data.templates, TemplateIds(data.templates), t => TemplateOk(t, formats));
    ok := templatesOk;
  }
}
