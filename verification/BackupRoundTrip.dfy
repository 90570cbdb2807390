/** What a restore preserves, and what a backup of the restored store contains. */
module BackupRoundTrip {
  import opened Wrappers
  import opened Text
  import opened Guidance
  import opened BackupData
  import opened BackupStore
  import opened Restore
  import opened Export

  // ----- the reference graph -----

  lemma {:induction false} SearchImagesAt(rows: seq<Search>, monitors: map<Id, Id>, rules: map<Id, Id>, m: map<Id, Id>)
    ensures |SearchImages(rows, monitors, rules, m)| == |rows|
    ensures forall i :: 0 <= i < |rows| ==>
      SearchImages(rows, monitors, rules, m)[i] == SearchImage(rows[i], monitors, rules, m)
  {
    if rows != [] { SearchImagesAt(rows[..|rows| - 1], monitors, rules, m); }
  }

  lemma {:induction false} TemplateImagesAt(rows: seq<Template>, channels: map<Id, Id>, m: map<Id, Id>)
    ensures |TemplateImages(rows, channels, m)| == |rows|
    ensures forall i :: 0 <= i < |rows| ==>
      TemplateImages(rows, channels, m)[i] ==
          Template(At(m, rows[i].id), rows[i].fields, Remap(rows[i].channelIds, channels))
  {
    if rows != [] { TemplateImagesAt(rows[..|rows| - 1], channels, m); }
  }

  /** A renamed reference points at the renamed row, and only then. */
  lemma ReferenceIff(m: map<Id, Id>, olds: seq<Id>, lo: Id, hi: Id, target: Id, reference: Id)
    requires Renames(m, olds, lo, hi) && 0 < lo && target in olds
    ensures At(m, target) > 0
    ensures At(m, reference) == At(m, target) <==> reference == target
  {
  }

  lemma ListedReferenceIff(m: map<Id, Id>, olds: seq<Id>, lo: Id, hi: Id, target: Id, ids: seq<Id>)
    requires Renames(m, olds, lo, hi) && target in olds
    ensures At(m, target) in Remap(ids, m) <==> target in ids
    ensures At(m, target) in Attached(Remap(ids, m)) <==> target in ids
  {
    RemapMembers(ids, m, m[target]);
    AttachedMembers(Remap(ids, m));
  }

  /** A validated backup, a consistent store and what a restore of the one makes of the other. */
  ghost predicate Restored(before: Database, after: Database, data: Backup, ren: Renaming, keep: Keep,
                           formats: Formats) {
    Consistent(before) && ValidBackup(data, formats) && IsRestore(before, after, data, ren, keep)
  }

  /** The part of a valid backup that a restore writes is a valid backup, so everything said below
      of a restored backup holds of a restore that was stopped as well. */
  lemma ImportedIsValid(held: Held, data: Backup, formats: Formats, quotas: Quotas)
    requires ValidBackup(data, formats)
    ensures ValidBackup(Imported(held, data, formats, quotas), formats)
  {
    var part := Imported(held, data, formats, quotas);
    PrefixOk(data, formats, |part.channels|, |part.monitors|, |part.rules|);
    NoRowsOk(formats);
  }

  lemma NoRowsOk(formats: Formats)
    ensures MonitorsOk([], formats) && SearchesOk([]) && TemplatesOk([], formats)
          && forall ids :: RulesOk([], ids, formats)
  {
  }

  lemma PrefixOk(data: Backup, formats: Formats, c: nat, m: nat, r: nat)
    requires ValidBackup(data, formats) && c <= |data.channels| && m <= |data.monitors| && r <= |data.rules|
    ensures ChannelsOk(data.channels[..c], formats)
    ensures MonitorsOk(data.monitors[..m], formats)
    ensures AttachmentsOk(data.monitors[..m], ChannelIds(data.channels))
    ensures RulesOk(data.rules[..r], MonitorIds(data.monitors), formats)
  {
    assert ChannelIds(data.channels[..c]) == ChannelIds(data.channels)[..c];
    assert MonitorIds(data.monitors[..m]) == MonitorIds(data.monitors)[..m];
    assert RuleIds(data.rules[..r]) == RuleIds(data.rules)[..r];
  }

  // Row `i` of each table of the backup, as it stands in the restored store.

  lemma RestoredChannel(before: seq<Channel>, after: seq<Channel>, rows: seq<Channel>, m: map<Id, Id>, i: nat)
    requires after == before + ChannelImages(rows, m) && i < |rows|
    ensures |after| == |before| + |rows|
    ensures after[|before| + i] == Channel(At(m, rows[i].id), StoredChannel(rows[i].fields))
    ensures rows[i].id in ChannelIds(rows)
  {
    ChannelImagesAt(rows, m);
    assert ChannelIds(rows)[i] == rows[i].id;
  }

  lemma RestoredMonitor(before: seq<Monitor>, after: seq<Monitor>, rows: seq<Monitor>, channels: map<Id, Id>,
                        m: map<Id, Id>, keep: KeepMonitor, i: nat)
    requires after == before + MonitorImages(rows, channels, m, keep) && i < |rows|
    ensures |after| == |before| + |rows|
    ensures after[|before| + i] == MonitorImage(rows[i], channels, m, keep)
    ensures rows[i].id in MonitorIds(rows)
  {
    MonitorImagesAt(rows, channels, m, keep);
    assert MonitorIds(rows)[i] == rows[i].id;
  }

  lemma RestoredRule(before: seq<Rule>, after: seq<Rule>, rows: seq<Rule>, monitors: map<Id, Id>, m: map<Id, Id>,
                     keep: KeepRule, i: nat)
    requires after == before + RuleImages(rows, monitors, m, keep) && i < |rows|
    ensures |after| == |before| + |rows|
    ensures after[|before| + i] == Rule(At(m, rows[i].id), At(monitors, rows[i].monitorId), keep(rows[i].fields))
  {
    RuleImagesAt(rows, monitors, m, keep);
  }

  lemma RestoredSearch(before: Database, after: Database, data: Backup, ren: Renaming, keep: Keep, i: nat)
    requires IsRestore(before, after, data, ren, keep) && i < |data.searches|
    ensures |after.searches| == |before.searches| + |data.searches|
    ensures after.searches[|before.searches| + i] ==
          SearchImage(data.searches[i], ren.monitors, ren.rules, ren.searches)
  {
    SearchImagesAt(data.searches, ren.monitors, ren.rules, ren.searches);
    assert |KeptSearches(before.searches, data.searches)| == |before.searches|;
  }

  lemma RestoredTemplate(before: seq<Template>, after: seq<Template>, rows: seq<Template>, channels: map<Id, Id>,
                         m: map<Id, Id>, i: nat)
    requires after == before + TemplateImages(rows, channels, m) && i < |rows|
    ensures |after| == |before| + |rows|
    ensures after[|before| + i] == Template(At(m, rows[i].id), rows[i].fields, Remap(rows[i].channelIds, channels))
  {
    TemplateImagesAt(rows, channels, m);
  }

  /** No attachment is lost and none is invented. */
  lemma AttachmentsPreserved(before: Database, after: Database, data: Backup, ren: Renaming, keep: Keep, i: nat, j: nat)
    requires IsRestore(before, after, data, ren, keep) && i < |data.monitors| && j < |data.channels|
    ensures |after.monitors| > |before.monitors| + i && |after.channels| > |before.channels| + j
    ensures data.channels[j].id in data.monitors[i].channelIds <==>
            after.channels[|before.channels| + j].id in after.monitors[|before.monitors| + i].channelIds
  {
    RestoredMonitor(before.monitors, after.monitors, data.monitors, ren.channels, ren.monitors, keep.monitor, i);
    RestoredChannel(before.channels, after.channels, data.channels, ren.channels, j);
    ListedReferenceIff(ren.channels, ChannelIds(data.channels), before.nextChannel, after.nextChannel,
                       data.channels[j].id, data.monitors[i].channelIds);
  }

  /** Every rule keeps its owner. */
  lemma OwnersPreserved(before: Database, after: Database, data: Backup, ren: Renaming, keep: Keep, k: nat, i: nat)
    requires IsRestore(before, after, data, ren, keep) && 0 < before.nextMonitor && k < |data.rules|
    requires i < |data.monitors|
    ensures |after.rules| > |before.rules| + k && |after.monitors| > |before.monitors| + i
    ensures data.rules[k].monitorId == data.monitors[i].id <==>
            after.rules[|before.rules| + k].monitorId == after.monitors[|before.monitors| + i].id
  {
    RestoredRule(before.rules, after.rules, data.rules, ren.monitors, ren.rules, keep.rule, k);
    RestoredMonitor(before.monitors, after.monitors, data.monitors, ren.channels, ren.monitors, keep.monitor, i);
    ReferenceIff(ren.monitors, MonitorIds(data.monitors), before.nextMonitor, after.nextMonitor,
                 data.monitors[i].id, data.rules[k].monitorId);
  }

  lemma NoZeroIds(data: Backup, formats: Formats)
    requires ValidBackup(data, formats)
    ensures 0 !in MonitorIds(data.monitors) && 0 !in RuleIds(data.rules)
  {
  }

  /** `now` is saved search `was` under its new id: every column as it was, and each reference the
      new id of the row it named, or none. */
  ghost predicate SearchRow(was: Search, now: Search, ren: Renaming) {
    && now.id == At(ren.searches, was.id)
    && now.name == was.name
    && now.isDefault == was.isDefault
    && now.createdAt == was.createdAt
    && now.filter.criteria == was.filter.criteria
    && now.filter.monitorId ==
       (if was.filter.monitorId != 0 && was.filter.monitorId in ren.monitors then ren.monitors[was.filter.monitorId] else 0)
    && now.filter.ruleId ==
       (if was.filter.ruleId != 0 && was.filter.ruleId in ren.rules then ren.rules[was.filter.ruleId] else 0)
  }

  lemma SearchImageIsRow(was: Search, ren: Renaming)
    ensures SearchRow(was, SearchImage(was, ren.monitors, ren.rules, ren.searches), ren)
  {
  }

  /** A saved search keeps all its columns and the monitor and the rule it filters on; a dangling
      reference is cleared. */
  lemma FiltersPreserved(before: Database, after: Database, data: Backup, ren: Renaming, keep: Keep, formats: Formats,
                         k: nat)
    requires Restored(before, after, data, ren, keep, formats) && k < |data.searches|
    ensures |after.searches| > |before.searches| + k
    ensures
      SearchRow(data.searches[k], after.searches[|before.searches| + k], ren)
    ensures
      var was, now := data.searches[k].filter, after.searches[|before.searches| + k].filter;
      && (now.monitorId == 0 <==> was.monitorId !in MonitorIds(data.monitors))
      && (now.ruleId == 0 <==> was.ruleId !in RuleIds(data.rules))
      && (was.monitorId in MonitorIds(data.monitors) ==> now.monitorId == ren.monitors[was.monitorId])
      && (was.ruleId in RuleIds(data.rules) ==> now.ruleId == ren.rules[was.ruleId])
  {
    RestoredSearch(before, after, data, ren, keep, k);
    SearchImageIsRow(data.searches[k], ren);
    NoZeroIds(data, formats);
  }

  /** A template keeps its channels, in order, and loses exactly the dangling ones. */
  lemma TemplateChannelsPreserved(before: Database, after: Database, data: Backup, ren: Renaming, keep: Keep, k: nat,
                                  j: nat)
    requires IsRestore(before, after, data, ren, keep) && k < |data.templates| && j < |data.channels|
    ensures |after.templates| > |before.templates| + k && |after.channels| > |before.channels| + j
    ensures data.channels[j].id in data.templates[k].channelIds <==>
            after.channels[|before.channels| + j].id in after.templates[|before.templates| + k].channelIds
  {
    RestoredTemplate(before.templates, after.templates, data.templates, ren.channels, ren.templates, k);
    RestoredChannel(before.channels, after.channels, data.channels, ren.channels, j);
    ListedReferenceIff(ren.channels, ChannelIds(data.channels), before.nextChannel, after.nextChannel,
                       data.channels[j].id, data.templates[k].channelIds);
  }

  lemma RemapRange(ids: seq<Id>, m: map<Id, Id>, lo: Id)
    requires forall x :: x in m ==> lo <= m[x]
    ensures forall y :: y in Remap(ids, m) ==> lo <= y
    ensures forall y :: y in Attached(Remap(ids, m)) ==> lo <= y
  {
    forall y | y in Remap(ids, m) ensures lo <= y { RemapMembers(ids, m, y); }
    AttachedMembers(Remap(ids, m));
  }

  lemma NewIdsAreUnused(ids: seq<Id>, next: Id, id: Id)
    requires IdsOk(ids, next) && (next <= id || id == 0)
    ensures id !in ids
  {
  }

  // No restored row refers to a row that was there before.

  lemma MonitorsAttachNewChannels(before: Database, after: Database, data: Backup, ren: Renaming, keep: Keep,
                                  formats: Formats, i: nat, x: Id)
    requires Restored(before, after, data, ren, keep, formats) && i < |data.monitors|
    ensures |after.monitors| > |before.monitors| + i
    ensures x in after.monitors[|before.monitors| + i].channelIds ==> x !in ChannelIds(before.channels)
  {
    RestoredMonitor(before.monitors, after.monitors, data.monitors, ren.channels, ren.monitors, keep.monitor, i);
    RemapRange(data.monitors[i].channelIds, ren.channels, before.nextChannel);
    if before.nextChannel <= x { NewIdsAreUnused(ChannelIds(before.channels), before.nextChannel, x); }
  }

  lemma RulesHaveNewOwners(before: Database, after: Database, data: Backup, ren: Renaming, keep: Keep, formats: Formats,
                           i: nat)
    requires Restored(before, after, data, ren, keep, formats) && i < |data.rules|
    ensures |after.rules| > |before.rules| + i
    ensures after.rules[|before.rules| + i].monitorId !in MonitorIds(before.monitors)
  {
    RestoredRule(before.rules, after.rules, data.rules, ren.monitors, ren.rules, keep.rule, i);
    assert RuleOk(data.rules[i], MonitorIds(data.monitors), formats);
    NewIdsAreUnused(MonitorIds(before.monitors), before.nextMonitor, after.rules[|before.rules| + i].monitorId);
  }

  lemma FiltersNameNewRows(before: Database, after: Database, data: Backup, ren: Renaming, keep: Keep, formats: Formats,
                           i: nat)
    requires Restored(before, after, data, ren, keep, formats) && i < |data.searches|
    ensures |after.searches| > |before.searches| + i
    ensures after.searches[|before.searches| + i].filter.monitorId !in MonitorIds(before.monitors)
    ensures after.searches[|before.searches| + i].filter.ruleId !in RuleIds(before.rules)
  {
    RestoredSearch(before, after, data, ren, keep, i);
    var filter := after.searches[|before.searches| + i].filter;
    NewIdsAreUnused(MonitorIds(before.monitors), before.nextMonitor, filter.monitorId);
    NewIdsAreUnused(RuleIds(before.rules), before.nextRule, filter.ruleId);
  }

  lemma TemplatesNameNewChannels(before: Database, after: Database, data: Backup, ren: Renaming, keep: Keep,
                                 formats: Formats, i: nat, x: Id)
    requires Restored(before, after, data, ren, keep, formats) && i < |data.templates|
    ensures |after.templates| > |before.templates| + i
    ensures x in after.templates[|before.templates| + i].channelIds ==> x !in ChannelIds(before.channels)
  {
    RestoredTemplate(before.templates, after.templates, data.templates, ren.channels, ren.templates, i);
    RemapRange(data.templates[i].channelIds, ren.channels, before.nextChannel);
    if before.nextChannel <= x { NewIdsAreUnused(ChannelIds(before.channels), before.nextChannel, x); }
  }

  /** The rows that were there before are still there, first and unchanged. */
  predicate ExistingRowsKept(before: Database, after: Database) {
    && before.channels <= after.channels
    && before.monitors <= after.monitors
    && before.rules <= after.rules
    && before.searches <= after.searches
    && before.templates <= after.templates
  }

  /** A restore is announced as never updating an existing row. It does update one exactly when
      the backup brings a default search to a store that already has one: the old default loses
      its mark. */
  lemma ExistingRowsKeptIff(before: Database, after: Database, data: Backup, ren: Renaming, keep: Keep,
                            formats: Formats)
    requires Restored(before, after, data, ren, keep, formats)
    ensures ExistingRowsKept(before, after) <==> !(AnyDefault(data.searches) && AnyDefault(before.searches))
  {
  }

  /** In terms of the whole backup: a restore that stops before the searches keeps existing rows. */
  lemma ImportKeepsExistingRowsIff(before: Database, after: Database, data: Backup, ren: Renaming, formats: Formats,
                                   quotas: Quotas)
    requires Consistent(before) && ValidBackup(data, formats)
    requires IsRestore(before, after, Imported(HeldBy(before), data, formats, quotas), ren, Keeping(formats))
    ensures ExistingRowsKept(before, after) <==>
            !(Importable(HeldBy(before), data, formats, quotas) && AnyDefault(data.searches)
                && AnyDefault(before.searches))
  {
    var part := Imported(HeldBy(before), data, formats, quotas);
    ImportedIsValid(HeldBy(before), data, formats, quotas);
    ImportedIff(HeldBy(before), data, formats, quotas);
    ImportableIff(HeldBy(before), data, formats, quotas);
    ExistingRowsKeptIff(before, after, part, ren, Keeping(formats), formats);
  }

  /** Such a store and such a backup exist. */
  lemma RestoreCanUnmarkTheDefault(search: Search, keep: Keep, formats: Formats)
    returns (before: Database, after: Database, data: Backup, ren: Renaming)
    requires SearchOk(search) && search.isDefault && search.filter.monitorId == 0 && search.filter.ruleId == 0
    ensures before.searches == [search] && data == Backup(1, 1, [], [], [], [search], [])
    ensures Restored(before, after, data, ren, keep, formats) && !ExistingRowsKept(before, after)
  {
    var id := search.id + 1;
    before := Database([], [], [], [search], [], 1, 1, 1, id, 1);
    data := Backup(1, 1, [], [], [], [search], []);
    ren := Renaming(map[], map[], map[], map[search.id := id], map[]);
    after := before.(searches := [search.(isDefault := false), search.(id := id)], nextSearch := id + 1);
    assert SearchImages(data.searches, map[], map[], ren.searches) == [search.(id := id)];
    assert data.searches[0].isDefault && AnyDefault(data.searches);
    assert ClearDefaults(before.searches) == [search.(isDefault := false)];
    assert before.searches[0].isDefault;
    ExistingRowsKeptIff(before, after, data, ren, keep, formats);
  }

  // ----- what the store keeps of a row -----

  predicate ChannelKept(f: ChannelFields) {
    f.minSeverity == "" && f.timeoutSeconds > 0
  }

  /** A channel's columns survive exactly when it has no minimum severity and a timeout of its own;
      what is stored then survives. */
  lemma ChannelKeptIff(f: ChannelFields)
    ensures StoredChannel(f) == f <==> ChannelKept(f)
    ensures ChannelKept(StoredChannel(f))
  {
  }

  predicate MonitorKept(f: MonitorFields, formats: Formats) {
    f.priority != "" && LinkKept(f.runbookUrl, formats.scheme) && NoteKept(f.responseGuidance)
  }

  /** A monitor's copied columns survive exactly when its priority is spelled out, its link and note
      have nothing to trim, the link's scheme is in lower case and the note has no carriage return;
      what is stored then survives. */
  lemma MonitorKeptIff(f: MonitorFields, formats: Formats)
    requires StoredMonitor(f, formats).Some?
    ensures KeptMonitor(f, formats) == f <==> MonitorKept(f, formats)
    ensures LawfulUrls(formats.scheme) ==> StoredMonitor(KeptMonitor(f, formats), formats).Some?
    ensures LawfulUrls(formats.scheme) ==> MonitorKept(KeptMonitor(f, formats), formats)
  {
    LinkKeptIff(f.runbookUrl, formats.scheme);
    NoteKeptIff(f.responseGuidance);
    if LawfulUrls(formats.scheme) {
      var kept := KeptMonitor(f, formats);
      RunbookURLStays(f.runbookUrl, formats.scheme);
      ResponseGuidanceStays(f.responseGuidance);
      LinkKeptIff(kept.runbookUrl, formats.scheme);
      NoteKeptIff(kept.responseGuidance);
    }
  }

  /** No non-blank text in the parameters stands in for an empty column. */
  predicate NoStandIn(column: string, inParams: Option<string>) {
    column == "" && inParams.Some? ==> Blank(inParams.value)
  }

  predicate RuleKept(f: RuleFields, formats: Formats) {
    && f.severity == "" && f.version == FIRST_VERSION
    && LinkKept(f.runbookUrl, formats.scheme) && NoStandIn(f.runbookUrl, formats.paramsUrl(f.params))
    && NoteKept(f.responseGuidance) && NoStandIn(f.responseGuidance, formats.paramsGuidance(f.params))
  }

  lemma LinkColumnIff(column: string, inParams: Option<string>, scheme: string -> Option<string>)
    requires ValidateRunbookURL(Own(column, inParams), scheme).Some?
    ensures ValidateRunbookURL(Own(column, inParams), scheme) == Some(column) <==>
            LinkKept(column, scheme) && NoStandIn(column, inParams)
  {
    NothingToTrim("");
    LinkKeptIff(Own(column, inParams), scheme);
    BlankLinkIff(Own(column, inParams), scheme);
  }

  lemma NoteColumnIff(column: string, inParams: Option<string>)
    requires ValidateResponseGuidance(Own(column, inParams)).Some?
    ensures ValidateResponseGuidance(Own(column, inParams)) == Some(column) <==>
          NoteKept(column) && NoStandIn(column, inParams)
  {
    NothingToTrim("");
    NoteKeptIff(Own(column, inParams));
    BlankNoteIff(Own(column, inParams));
  }

  /** A rule's columns survive exactly when it has no severity, is at its first version, its link and
      note are as the store writes them, and where one is empty the parameters hold none either. */
  lemma RuleKeptIff(f: RuleFields, formats: Formats)
    requires StoredRule(f, formats).Some?
    ensures KeptRule(f, formats) == f <==> RuleKept(f, formats)
  {
    LinkColumnIff(f.runbookUrl, formats.paramsUrl(f.params), formats.scheme);
    NoteColumnIff(f.responseGuidance, formats.paramsGuidance(f.params));
  }

  /** A blank column that is not empty hides the text in the parameters when the rule is first
      stored, and is empty afterwards. */
  predicate Hides(column: string, inParams: Option<string>) {
    column != "" && Blank(column) && inParams.Some?
  }

  predicate UrlUncovered(f: RuleFields, formats: Formats) {
    var inParams := formats.paramsUrl(f.params);
    Hides(f.runbookUrl, inParams) && !Blank(inParams.value)
  }

  predicate GuidanceUncovered(f: RuleFields, formats: Formats) {
    var inParams := formats.paramsGuidance(f.params);
    Hides(f.responseGuidance, inParams) && !Blank(inParams.value)
  }

  predicate Uncovered(f: RuleFields, formats: Formats) {
    UrlUncovered(f, formats) || GuidanceUncovered(f, formats)
  }

  /** What was hidden is invalid, so the rule is refused the next time. */
  predicate RefusedNext(f: RuleFields, formats: Formats) {
    var url, guidance := formats.paramsUrl(f.params), formats.paramsGuidance(f.params);
    || (Hides(f.runbookUrl, url) && ValidateRunbookURL(url.value, formats.scheme).None?)
    || (Hides(f.responseGuidance, guidance) && ValidateResponseGuidance(guidance.value).None?)
  }

  /** What the store makes of the columns, it keeps when it is given that. */
  predicate RuleSettles(f: RuleFields, formats: Formats) {
    StoredRule(KeptRule(f, formats), formats) == Some(KeptRule(f, formats))
  }

  /** The next value of a link column, once it has been stored as `url`. */
  lemma UrlSettlesIff(f: RuleFields, formats: Formats, url: string)
    requires LawfulUrls(formats.scheme)
    requires ValidateRunbookURL(Own(f.runbookUrl, formats.paramsUrl(f.params)), formats.scheme) == Some(url)
    ensures
      var inParams := formats.paramsUrl(f.params);
      var next := ValidateRunbookURL(Own(url, inParams), formats.scheme);
      && (next == Some(url) <==> !UrlUncovered(f, formats))
      && (next.None? <==> Hides(f.runbookUrl, inParams) && ValidateRunbookURL(inParams.value, formats.scheme).None?)
  {
    var inParams := formats.paramsUrl(f.params);
    NothingToTrim("");
    RunbookURLStays(Own(f.runbookUrl, inParams), formats.scheme);
    BlankLinkIff(Own(f.runbookUrl, inParams), formats.scheme);
    if inParams.Some? && ValidateRunbookURL(inParams.value, formats.scheme).Some? {
      BlankLinkIff(inParams.value, formats.scheme);
    }
  }

  lemma GuidanceSettlesIff(f: RuleFields, formats: Formats, guidance: string)
    requires ValidateResponseGuidance(Own(f.responseGuidance, formats.paramsGuidance(f.params))) == Some(guidance)
    ensures
      var inParams := formats.paramsGuidance(f.params);
      var next := ValidateResponseGuidance(Own(guidance, inParams));
      && (next == Some(guidance) <==> !GuidanceUncovered(f, formats))
      && (next.None? <==> Hides(f.responseGuidance, inParams) && ValidateResponseGuidance(inParams.value).None?)
  {
    var inParams := formats.paramsGuidance(f.params);
    NoNote();
    ResponseGuidanceStays(Own(f.responseGuidance, inParams));
    BlankNoteIff(Own(f.responseGuidance, inParams));
    if inParams.Some? {
      BlankIsStored(inParams.value);
      if ValidateResponseGuidance(inParams.value).Some? {
        BlankNoteIff(inParams.value);
      }
    }
  }

  lemma BlankIsStored(note: string)
    ensures Blank(note) ==> ValidateResponseGuidance(note).Some?
  {
    BlankIff(note);
    BlankIff(PlainNewlines(note));
    PlainAllSpaceIff(note);
  }

  /** A stored rule survives being stored again exactly when no blank column of it had hidden a
      non-blank link or note of its parameters, and is refused exactly when that one is invalid. */
  lemma StoredRuleSettlesIff(f: RuleFields, formats: Formats)
    requires LawfulUrls(formats.scheme) && StoredRule(f, formats).Some?
    ensures RuleSettles(f, formats) <==> !Uncovered(f, formats)
    ensures StoredRule(KeptRule(f, formats), formats).None? <==> RefusedNext(f, formats)
  {
    var kept := KeptRule(f, formats);
    UrlSettlesIff(f, formats, kept.runbookUrl);
    GuidanceSettlesIff(f, formats, kept.responseGuidance);
  }

  // ----- the renamed rows are valid again -----

  lemma RenamedIds(ids: seq<Id>, m: map<Id, Id>, lo: Id, hi: Id, renamed: seq<Id>)
    requires Distinct(ids) && Renames(m, ids, lo, hi) && 0 < lo
    requires |renamed| == |ids| && forall i :: 0 <= i < |ids| ==> renamed[i] == At(m, ids[i])
    ensures Distinct(renamed) && forall i :: 0 <= i < |ids| ==> renamed[i] > 0
  {
  }

  lemma ChannelsValidAgain(rows: seq<Channel>, m: map<Id, Id>, lo: Id, hi: Id, formats: Formats)
    requires ChannelsOk(rows, formats) && Renames(m, ChannelIds(rows), lo, hi) && 0 < lo
    ensures ChannelsOk(ChannelImages(rows, m), formats)
  {
    var images := ChannelImages(rows, m);
    ChannelImagesAt(rows, m);
    RenamedIds(ChannelIds(rows), m, lo, hi, ChannelIds(images));
    forall i | 0 <= i < |images| ensures ChannelOk(images[i], formats) {
      assert ChannelOk(rows[i], formats) && ChannelIds(images)[i] > 0;
      StoredChannelOk(rows[i].fields, formats);
    }
  }

  lemma StoredChannelOk(f: ChannelFields, formats: Formats)
    requires ChannelFieldsOk(f, formats)
    ensures ChannelFieldsOk(StoredChannel(f), formats)
  {
  }

  lemma KeptMonitorOk(f: MonitorFields, formats: Formats)
    requires MonitorFieldsOk(f, formats) && LawfulUrls(formats.scheme)
    ensures MonitorFieldsOk(KeptMonitor(f, formats), formats)
  {
    MonitorKeptIff(f, formats);
  }

  lemma KeptRuleOk(f: RuleFields, formats: Formats)
    requires RuleFieldsOk(f, formats) && LawfulUrls(formats.scheme)
    ensures RuleFieldsOk(KeptRule(f, formats), formats)
  {
    if StoredRule(f, formats).Some? {
      RunbookURLStays(Own(f.runbookUrl, formats.paramsUrl(f.params)), formats.scheme);
      ResponseGuidanceStays(Own(f.responseGuidance, formats.paramsGuidance(f.params)));
    }
  }

  lemma MonitorImageIds(rows: seq<Monitor>, channels: map<Id, Id>, m: map<Id, Id>, keep: KeepMonitor, lo: Id, hi: Id)
    requires Distinct(MonitorIds(rows)) && Renames(m, MonitorIds(rows), lo, hi) && 0 < lo
    ensures
      var images := MonitorImages(rows, channels, m, keep);
      && Distinct(MonitorIds(images)) && |images| == |rows|
      && forall i :: 0 <= i < |images| ==> images[i].id > 0 && images[i].fields == keep(rows[i].fields)
  {
    var images := MonitorImages(rows, channels, m, keep);
    MonitorImagesAt(rows, channels, m, keep);
    RenamedIds(MonitorIds(rows), m, lo, hi, MonitorIds(images));
    forall i | 0 <= i < |images| ensures images[i].id > 0 {
      assert MonitorIds(images)[i] > 0;
    }
  }

  lemma RuleImageIds(rows: seq<Rule>, monitors: map<Id, Id>, m: map<Id, Id>, keep: KeepRule, lo: Id, hi: Id)
    requires Distinct(RuleIds(rows)) && Renames(m, RuleIds(rows), lo, hi) && 0 < lo
    ensures
      var images := RuleImages(rows, monitors, m, keep);
      && Distinct(RuleIds(images)) && |images| == |rows|
      && forall i :: 0 <= i < |images| ==>
        images[i].id > 0 && images[i].monitorId == At(monitors, rows[i].monitorId)
            && images[i].fields == keep(rows[i].fields)
  {
    var images := RuleImages(rows, monitors, m, keep);
    RuleImagesAt(rows, monitors, m, keep);
    RenamedIds(RuleIds(rows), m, lo, hi, RuleIds(images));
    forall i | 0 <= i < |images| ensures images[i].id > 0 {
      assert RuleIds(images)[i] > 0;
    }
  }

  lemma OwnerImage(owners: seq<Monitor>, images: seq<Monitor>, monitors: map<Id, Id>, id: Id)
    requires |images| == |owners| && forall k :: 0 <= k < |owners| ==> images[k].id == At(monitors, owners[k].id)
    requires id in MonitorIds(owners)
    ensures At(monitors, id) in MonitorIds(images)
  {
    var k :| 0 <= k < |owners| && MonitorIds(owners)[k] == id;
    assert MonitorIds(images)[k] == At(monitors, id);
  }

  lemma MonitorsValidAgain(rows: seq<Monitor>, channels: map<Id, Id>, m: map<Id, Id>, keep: KeepMonitor, lo: Id, hi: Id,
                           formats: Formats)
    requires MonitorsOk(rows, formats) && Renames(m, MonitorIds(rows), lo, hi) && 0 < lo
    requires forall i :: 0 <= i < |rows| ==> MonitorFieldsOk(keep(rows[i].fields), formats)
    ensures MonitorsOk(MonitorImages(rows, channels, m, keep), formats)
  {
    var images := MonitorImages(rows, channels, m, keep);
    MonitorImageIds(rows, channels, m, keep, lo, hi);
    forall i | 0 <= i < |images| ensures MonitorOk(images[i], formats) {
      assert MonitorFieldsOk(keep(rows[i].fields), formats);
    }
  }

  lemma RulesValidAgain(rows: seq<Rule>, owners: seq<Monitor>, images: seq<Monitor>, monitors: map<Id, Id>,
                        m: map<Id, Id>, keep: KeepRule, lo: Id, hi: Id, formats: Formats)
    requires RulesOk(rows, MonitorIds(owners), formats) && Renames(m, RuleIds(rows), lo, hi) && 0 < lo
    requires |images| == |owners| && forall k :: 0 <= k < |owners| ==> images[k].id == At(monitors, owners[k].id)
    requires forall i :: 0 <= i < |rows| ==> RuleFieldsOk(keep(rows[i].fields), formats)
    ensures RulesOk(RuleImages(rows, monitors, m, keep), MonitorIds(images), formats)
  {
    var written := RuleImages(rows, monitors, m, keep);
    RuleImageIds(rows, monitors, m, keep, lo, hi);
    forall i | 0 <= i < |written| ensures RuleOk(written[i], MonitorIds(images), formats) {
      assert RuleOk(rows[i], MonitorIds(owners), formats) && RuleFieldsOk(keep(rows[i].fields), formats);
      OwnerImage(owners, images, monitors, rows[i].monitorId);
    }
  }

  lemma SearchImageOk(row: Search, monitors: map<Id, Id>, rules: map<Id, Id>, m: map<Id, Id>)
    requires SearchOk(row) && At(m, row.id) > 0
    requires forall x :: x in monitors ==> monitors[x] > 0
    requires forall x :: x in rules ==> rules[x] > 0
    ensures SearchOk(SearchImage(row, monitors, rules, m))
  {
  }

  lemma SearchesValidAgain(rows: seq<Search>, monitors: map<Id, Id>, rules: map<Id, Id>, m: map<Id, Id>, lo: Id, hi: Id)
    requires SearchesOk(rows) && Renames(m, SearchIds(rows), lo, hi) && 0 < lo
    requires forall x :: x in monitors ==> monitors[x] > 0
    requires forall x :: x in rules ==> rules[x] > 0
    ensures SearchesOk(SearchImages(rows, monitors, rules, m))
  {
    var images := SearchImages(rows, monitors, rules, m);
    SearchImagesAt(rows, monitors, rules, m);
    RenamedIds(SearchIds(rows), m, lo, hi, SearchIds(images));
    forall i | 0 <= i < |images| ensures SearchOk(images[i]) {
      assert SearchIds(images)[i] > 0;
      SearchImageOk(rows[i], monitors, rules, m);
    }
    forall i: nat, j: nat ensures !BothDefault(images, i, j) {
      assert !BothDefault(rows, i, j);
    }
  }

  lemma TemplatesValidAgain(rows: seq<Template>, channels: map<Id, Id>, m: map<Id, Id>, lo: Id, hi: Id,
                            formats: Formats)
    requires TemplatesOk(rows, formats) && Renames(m, TemplateIds(rows), lo, hi) && 0 < lo
    requires forall x :: x in channels ==> channels[x] > 0
    ensures TemplatesOk(TemplateImages(rows, channels, m), formats)
  {
    var images := TemplateImages(rows, channels, m);
    TemplateImagesAt(rows, channels, m);
    RenamedIds(TemplateIds(rows), m, lo, hi, TemplateIds(images));
    forall i | 0 <= i < |images| ensures TemplateOk(images[i], formats) {
      assert TemplateOk(rows[i], formats) && TemplateIds(images)[i] > 0;
      RemapRange(rows[i].channelIds, channels, 1);
      forall k | 0 <= k < |images[i].channelIds| ensures images[i].channelIds[k] > 0 {
        assert images[i].channelIds[k] in Remap(rows[i].channelIds, channels);
      }
    }
  }

  // ----- the order of the rows does not matter -----

  lemma {:induction false} Once<T>(xs: seq<T>, x: T)
    requires forall i, j :: 0 <= i < j < |xs| ==> xs[i] != xs[j]
    ensures multiset(xs)[x] <= 1
  {
    if xs != [] {
      var n := |xs| - 1;
      Once(xs[..n], x);
      assert xs == xs[..n] + [xs[n]];
      if x == xs[n] {
        assert x !in xs[..n];
      }
    }
  }

  /** Two rows of a permutation come from two rows of the original. */
  lemma TwoRows<T>(xs: seq<T>, ys: seq<T>, i: nat, j: nat) returns (k: nat, l: nat)
    requires multiset(xs) == multiset(ys) && i < j < |ys|
    requires forall i, j :: 0 <= i < j < |xs| ==> xs[i] != xs[j]
    ensures k < |xs| && l < |xs| && k != l && xs[k] == ys[i] && xs[l] == ys[j]
  {
    assert ys[i] in multiset(xs) && ys[j] in multiset(xs);
    k :| 0 <= k < |xs| && xs[k] == ys[i];
    l :| 0 <= l < |xs| && xs[l] == ys[j];
    Once(xs, ys[i]);
    assert ys == ys[..j] + ys[j..] && ys[i] in ys[..j] && ys[j] in ys[j..];
    assert multiset(ys) == multiset(ys[..j]) + multiset(ys[j..]);
  }

  lemma RowOf<T>(xs: seq<T>, ys: seq<T>, i: nat) returns (k: nat)
    requires multiset(xs) == multiset(ys) && i < |ys|
    ensures k < |xs| && xs[k] == ys[i]
  {
    assert ys[i] in multiset(xs);
    k :| 0 <= k < |xs| && xs[k] == ys[i];
  }

  lemma RulesOkPermuted(xs: seq<Rule>, ys: seq<Rule>, monitorIds: seq<Id>, formats: Formats)
    requires multiset(xs) == multiset(ys) && RulesOk(xs, monitorIds, formats)
    ensures RulesOk(ys, monitorIds, formats)
  {
    forall i, j | 0 <= i < j < |xs| ensures xs[i] != xs[j] { assert RuleIds(xs)[i] != RuleIds(xs)[j]; }
    forall i, j | 0 <= i < j < |ys| ensures RuleIds(ys)[i] != RuleIds(ys)[j] {
      var k, l := TwoRows(xs, ys, i, j);
      assert RuleIds(xs)[k] != RuleIds(xs)[l];
    }
    forall i | 0 <= i < |ys| ensures RuleOk(ys[i], monitorIds, formats) {
      var k := RowOf(xs, ys, i);
    }
  }

  lemma SearchesOkPermuted(xs: seq<Search>, ys: seq<Search>)
    requires multiset(xs) == multiset(ys) && SearchesOk(xs)
    ensures SearchesOk(ys)
  {
    forall i, j | 0 <= i < j < |xs| ensures xs[i] != xs[j] { assert SearchIds(xs)[i] != SearchIds(xs)[j]; }
    forall i, j | 0 <= i < j < |ys|
      ensures SearchIds(ys)[i] != SearchIds(ys)[j] && !(ys[i].isDefault && ys[j].isDefault)
    {
      var k, l := TwoRows(xs, ys, i, j);
      assert SearchIds(xs)[k] != SearchIds(xs)[l];
      assert !BothDefault(xs, k, l) && !BothDefault(xs, l, k);
    }
    forall i: nat, j: nat ensures !BothDefault(ys, i, j) {}
    forall i | 0 <= i < |ys| ensures SearchOk(ys[i]) {
      var k := RowOf(xs, ys, i);
    }
  }

  lemma TemplatesOkPermuted(xs: seq<Template>, ys: seq<Template>, formats: Formats)
    requires multiset(xs) == multiset(ys) && TemplatesOk(xs, formats)
    ensures TemplatesOk(ys, formats)
  {
    forall i, j | 0 <= i < j < |xs| ensures xs[i] != xs[j] { assert TemplateIds(xs)[i] != TemplateIds(xs)[j]; }
    forall i, j | 0 <= i < j < |ys| ensures TemplateIds(ys)[i] != TemplateIds(ys)[j] {
      var k, l := TwoRows(xs, ys, i, j);
      assert TemplateIds(xs)[k] != TemplateIds(xs)[l];
    }
    forall i | 0 <= i < |ys| ensures TemplateOk(ys[i], formats) {
      var k := RowOf(xs, ys, i);
    }
  }

  // ----- restore into an empty store, then back up again -----

  predicate Empty(db: Database) {
    db.channels == [] && db.monitors == [] && db.rules == [] && db.searches == [] && db.templates == []
  }

  /** The contents of a restore into an empty store, as the next backup lists them. */
  ghost predicate SameConfiguration(data: Backup, again: Backup, ren: Renaming, keep: Keep) {
    && again.channels == ChannelImages(data.channels, ren.channels)
    && again.monitors == MonitorImages(data.monitors, ren.channels, ren.monitors, keep.monitor)
    && multiset(again.rules) == multiset(RuleImages(data.rules, ren.monitors, ren.rules, keep.rule))
    && multiset(again.searches) == multiset(SearchImages(data.searches, ren.monitors, ren.rules, ren.searches))
    && multiset(again.templates) == multiset(TemplateImages(data.templates, ren.channels, ren.templates))
  }

  lemma RestoredIntoEmpty(before: Database, after: Database, data: Backup, ren: Renaming, keep: Keep)
    requires Empty(before) && IsRestore(before, after, data, ren, keep)
    ensures after.channels == ChannelImages(data.channels, ren.channels)
    ensures after.monitors == MonitorImages(data.monitors, ren.channels, ren.monitors, keep.monitor)
    ensures after.rules == RuleImages(data.rules, ren.monitors, ren.rules, keep.rule)
    ensures after.searches == SearchImages(data.searches, ren.monitors, ren.rules, ren.searches)
    ensures after.templates == TemplateImages(data.templates, ren.channels, ren.templates)
  {
    assert KeptSearches([], data.searches) == [];
  }

  lemma AgainIsSame(before: Database, after: Database, data: Backup, ren: Renaming, keep: Keep, again: Backup,
                    now: Timestamp)
    requires Empty(before) && IsRestore(before, after, data, ren, keep) && IsExport(after, now, again)
    requires LiveRows(after.monitors) == after.monitors
    requires multiset(RulesByMonitor(after.monitors, after.rules)) == multiset(after.rules)
    ensures SameConfiguration(data, again, ren, keep)
  {
    RestoredIntoEmpty(before, after, data, ren, keep);
  }

  lemma RestoredAreLive(before: Database, after: Database, data: Backup, ren: Renaming, keep: Keep)
    requires Empty(before) && IsRestore(before, after, data, ren, keep)
    ensures forall i :: 0 <= i < |after.monitors| ==> Live(after.monitors[i])
  {
    RestoredIntoEmpty(before, after, data, ren, keep);
    MonitorImagesAt(data.monitors, ren.channels, ren.monitors, keep.monitor);
  }

  lemma StoredMonitorsAreValid(rows: seq<Monitor>, channels: map<Id, Id>, m: map<Id, Id>, lo: Id, hi: Id,
                               formats: Formats)
    requires LawfulUrls(formats.scheme) && MonitorsOk(rows, formats) && Renames(m, MonitorIds(rows), lo, hi) && 0 < lo
    ensures MonitorsOk(MonitorImages(rows, channels, m, Keeping(formats).monitor), formats)
  {
    var keep := Keeping(formats).monitor;
    forall i | 0 <= i < |rows| ensures MonitorFieldsOk(keep(rows[i].fields), formats) {
      assert MonitorOk(rows[i], formats);
      KeptMonitorOk(rows[i].fields, formats);
    }
    MonitorsValidAgain(rows, channels, m, keep, lo, hi, formats);
  }

  lemma StoredRulesAreValid(rows: seq<Rule>, owners: seq<Monitor>, channels: map<Id, Id>, monitors: map<Id, Id>,
                            m: map<Id, Id>, keep: KeepMonitor, lo: Id, hi: Id, formats: Formats)
    requires LawfulUrls(formats.scheme) && RulesOk(rows, MonitorIds(owners), formats)
    requires Renames(m, RuleIds(rows), lo, hi) && 0 < lo
    ensures RulesOk(RuleImages(rows, monitors, m, Keeping(formats).rule),
          MonitorIds(MonitorImages(owners, channels, monitors, keep)), formats)
  {
    var keepRule := Keeping(formats).rule;
    forall i | 0 <= i < |rows| ensures RuleFieldsOk(keepRule(rows[i].fields), formats) {
      assert RuleOk(rows[i], MonitorIds(owners), formats);
      KeptRuleOk(rows[i].fields, formats);
    }
    MonitorImagesAt(owners, channels, monitors, keep);
    RulesValidAgain(rows, owners, MonitorImages(owners, channels, monitors, keep), monitors, m, keepRule, lo, hi,
        formats);
  }

  /** The tables of a valid backup are valid once renamed and stored. */
  lemma ImagesAreValid(data: Backup, ren: Renaming, before: Database, after: Database, formats: Formats)
    requires LawfulUrls(formats.scheme)
    requires Restored(before, after, data, ren, Keeping(formats), formats)
    ensures ChannelsOk(ChannelImages(data.channels, ren.channels), formats)
    ensures
      var images := MonitorImages(data.monitors, ren.channels, ren.monitors, Keeping(formats).monitor);
      && MonitorsOk(images, formats)
      && RulesOk(RuleImages(data.rules, ren.monitors, ren.rules, Keeping(formats).rule), MonitorIds(images), formats)
    ensures SearchesOk(SearchImages(data.searches, ren.monitors, ren.rules, ren.searches))
    ensures TemplatesOk(TemplateImages(data.templates, ren.channels, ren.templates), formats)
  {
    ChannelsValidAgain(data.channels, ren.channels, before.nextChannel, after.nextChannel, formats);
    StoredMonitorsAreValid(data.monitors, ren.channels, ren.monitors, before.nextMonitor, after.nextMonitor, formats);
    StoredRulesAreValid(data.rules, data.monitors, ren.channels, ren.monitors, ren.rules, Keeping(formats).monitor,
                        before.nextRule, after.nextRule, formats);
    SearchesValidAgain(data.searches, ren.monitors, ren.rules, ren.searches, before.nextSearch, after.nextSearch);
    TemplatesValidAgain(data.templates, ren.channels, ren.templates, before.nextTemplate, after.nextTemplate, formats);
  }

  /** Restored into an empty store and backed up again, a valid backup comes back valid, and with
      the same rows up to the renaming, what the store keeps of them, and the order of rules,
      searches and templates. */
  lemma RoundTrip(before: Database, after: Database, data: Backup, ren: Renaming, formats: Formats, again: Backup,
                  now: Timestamp)
    requires LawfulUrls(formats.scheme)
    requires Empty(before) && Restored(before, after, data, ren, Keeping(formats), formats) && Consistent(after)
    requires IsExport(after, now, again) && now != 0
    ensures ValidBackup(again, formats) && SameConfiguration(data, again, ren, Keeping(formats))
  {
    var keep := Keeping(formats);
    RestoredAreLive(before, after, data, ren, keep);
    AllRulesAreExported(after);
    AgainIsSame(before, after, data, ren, keep, again, now);
    ImagesAreValid(data, ren, before, after, formats);
    RulesOkPermuted(RuleImages(data.rules, ren.monitors, ren.rules, keep.rule), again.rules, MonitorIds(again.monitors),
        formats);
    SearchesOkPermuted(SearchImages(data.searches, ren.monitors, ren.rules, ren.searches), again.searches);
    TemplatesOkPermuted(TemplateImages(data.templates, ren.channels, ren.templates), again.templates, formats);
  }

  /** `m` gives each of the ids, and nothing else, a positive id of its own. */
  ghost predicate NewIds(m: map<Id, Id>, ids: seq<Id>) {
    && (forall x :: x in m <==> x in ids)
    && (forall x :: x in m ==> m[x] > 0)
    && (forall x, y :: x in m && y in m && x != y ==> m[x] != m[y])
  }

  ghost predicate RenamesRows(ren: Renaming, data: Backup) {
    && NewIds(ren.channels, ChannelIds(data.channels))
    && NewIds(ren.monitors, MonitorIds(data.monitors))
    && NewIds(ren.rules, RuleIds(data.rules))
    && NewIds(ren.searches, SearchIds(data.searches))
    && NewIds(ren.templates, TemplateIds(data.templates))
  }

  lemma RestoredRenames(before: Database, after: Database, data: Backup, ren: Renaming, keep: Keep)
    requires Consistent(before) && IsRestore(before, after, data, ren, keep)
    ensures RenamesRows(ren, data)
  {
  }

  /** The whole way, on a store: what was importable of a valid backup comes back. */
  method RestoreThenBackUp(st: Store, data: Backup, now: Timestamp)
    returns (ok: bool, again: Backup, ghost ren: Renaming)
    requires st.Valid() && Empty(st.View()) && ValidBackup(data, st.formats) && LawfulUrls(st.formats.scheme)
    requires now != 0
    modifies st
    ensures ok <==> Importable(NOTHING, data, st.formats, st.quotas)
    ensures ValidBackup(again, st.formats)
    ensures
      var part := Imported(NOTHING, data, st.formats, st.quotas);
      && SameConfiguration(part, again, ren, Keeping(st.formats)) && RenamesRows(ren, part)
      && (ok ==> part == data)
  {
    ghost var before, part := st.View(), Imported(NOTHING, data, st.formats, st.quotas);
    assert HeldBy(before) == NOTHING;
    ImportedIsValid(NOTHING, data, st.formats, st.quotas);
    ImportedIff(NOTHING, data, st.formats, st.quotas);
    ok, ren := ImportAll(st, data);
    RestoredRenames(before, st.View(), part, ren, Keeping(st.formats));
    again := ExportAll(st, now);
    RoundTrip(before, st.View(), part, ren, st.formats, again, now);
  }

  // ----- which rows come back as they were -----

  /** All columns but the ids; attachments as a set. */
  ghost predicate SameMonitor(was: Monitor, now: Monitor, ren: Renaming) {
    && now.id == At(ren.monitors, was.id)
    && now.fields == was.fields
    && now.tags == was.tags
    && now.lastMatchedAt == was.lastMatchedAt
    && now.deletedAt == was.deletedAt
    && forall x :: x in now.channelIds <==> x in Remap(was.channelIds, ren.channels)
  }

  predicate MonitorSettled(row: Monitor, formats: Formats) {
    MonitorKept(row.fields, formats) && row.tags == [] && row.lastMatchedAt.None? && row.deletedAt.None?
  }

  /** A monitor comes back with all its columns exactly when the store keeps the copied ones and it
      has no tags, has not matched and is not deleted. */
  lemma MonitorSurvivesIff(data: Backup, again: Backup, ren: Renaming, formats: Formats, i: nat)
    requires SameConfiguration(data, again, ren, Keeping(formats)) && i < |data.monitors|
    requires StoredMonitor(data.monitors[i].fields, formats).Some?
    ensures |again.monitors| == |data.monitors|
    ensures
      var row := data.monitors[i];
      SameMonitor(row, again.monitors[i], ren) <==> MonitorSettled(row, formats)
  {
    MonitorImagesAt(data.monitors, ren.channels, ren.monitors, Keeping(formats).monitor);
    AttachedMembers(Remap(data.monitors[i].channelIds, ren.channels));
    MonitorKeptIff(data.monitors[i].fields, formats);
  }

  /** A channel comes back with all its columns exactly when the store keeps them. */
  lemma ChannelSurvivesIff(data: Backup, again: Backup, ren: Renaming, keep: Keep, i: nat)
    requires SameConfiguration(data, again, ren, keep) && i < |data.channels|
    ensures |again.channels| == |data.channels|
    ensures again.channels[i] == Channel(At(ren.channels, data.channels[i].id), data.channels[i].fields) <==>
            ChannelKept(data.channels[i].fields)
  {
    ChannelImagesAt(data.channels, ren.channels);
  }

  /** What a rule comes back as, and that it is the rule under its new ids exactly when the store
      keeps its columns. */
  lemma RuleSurvivesIff(data: Backup, again: Backup, ren: Renaming, formats: Formats, i: nat)
    requires SameConfiguration(data, again, ren, Keeping(formats)) && i < |data.rules|
    requires StoredRule(data.rules[i].fields, formats).Some?
    ensures
      var row := data.rules[i];
      var now := Rule(At(ren.rules, row.id), At(ren.monitors, row.monitorId), KeptRule(row.fields, formats));
      && now in again.rules
      && (now.fields == row.fields <==> RuleKept(row.fields, formats))
  {
    var images := RuleImages(data.rules, ren.monitors, ren.rules, Keeping(formats).rule);
    RuleImagesAt(data.rules, ren.monitors, ren.rules, Keeping(formats).rule);
    assert images[i] in multiset(again.rules);
    RuleKeptIff(data.rules[i].fields, formats);
  }

  predicate FilterKept(f: Filter, ren: Renaming) {
    && (f.monitorId == 0 || f.monitorId in ren.monitors)
    && (f.ruleId == 0 || f.ruleId in ren.rules)
  }

  /** A reference stays one; no reference stays none. */
  predicate KeepsReferences(was: Filter, now: Filter) {
    && (now.monitorId == 0 <==> was.monitorId == 0)
    && (now.ruleId == 0 <==> was.ruleId == 0)
  }

  /** What a saved search comes back as, and that it loses no reference exactly when none dangles. */
  lemma SearchSurvivesIff(data: Backup, again: Backup, ren: Renaming, keep: Keep, i: nat)
    requires SameConfiguration(data, again, ren, keep) && i < |data.searches| && SearchOk(data.searches[i])
    requires (forall x :: x in ren.monitors ==> ren.monitors[x] > 0)
    requires (forall x :: x in ren.rules ==> ren.rules[x] > 0)
    ensures
      var row := data.searches[i];
      exists now :: now in again.searches && SearchRow(row, now, ren)
                    && (KeepsReferences(row.filter, now.filter) <==> FilterKept(row.filter, ren))
  {
    SearchImagesAt(data.searches, ren.monitors, ren.rules, ren.searches);
    SearchImageIsRow(data.searches[i], ren);
    assert SearchImages(data.searches, ren.monitors, ren.rules, ren.searches)[i] in multiset(again.searches);
  }

  lemma {:induction false} RemapKeepsAllIff(ids: seq<Id>, m: map<Id, Id>)
    ensures |Remap(ids, m)| <= |ids|
    ensures |Remap(ids, m)| == |ids| <==> forall i :: 0 <= i < |ids| ==> ids[i] in m
  {
    if ids != [] {
      RemapKeepsAllIff(ids[..|ids| - 1], m);
      assert ids == ids[..|ids| - 1] + [ids[|ids| - 1]];
    }
  }

  /** What a template comes back as, and that it loses no channel exactly when none dangles. */
  lemma TemplateSurvivesIff(data: Backup, again: Backup, ren: Renaming, keep: Keep, i: nat)
    requires SameConfiguration(data, again, ren, keep) && i < |data.templates|
    ensures
      var row := data.templates[i];
      var now := Template(At(ren.templates, row.id), row.fields, Remap(row.channelIds, ren.channels));
      && now in again.templates
      && (|now.channelIds| == |row.channelIds| <==>
         forall k :: 0 <= k < |row.channelIds| ==> row.channelIds[k] in ren.channels)
  {
    TemplateImagesAt(data.templates, ren.channels, ren.templates);
    assert TemplateImages(data.templates, ren.channels, ren.templates)[i] in multiset(again.templates);
    RemapKeepsAllIff(data.templates[i].channelIds, ren.channels);
  }

  // ----- inputs -----

  /** The parsers on the empty JSON object. */
  predicate KnowsEmptyObject(formats: Formats) {
    formats.jsonObject("{}") && formats.paramsUrl("{}").None? && formats.paramsGuidance("{}").None?
  }

  /** A valid channel that comes back changed: it loses its minimum severity and gets a timeout. */
  lemma ChannelColumnsAreLost(formats: Formats)
    requires KnowsEmptyObject(formats)
    ensures
      var c := ChannelFields("c", "webhook", "{}", true, "", 0, "critical", 0, 1);
      ChannelFieldsOk(c, formats) && StoredChannel(c) == c.(minSeverity := "", timeoutSeconds := 15)
  {
    NothingToTrim("c");
    NothingToTrim("webhook");
  }

  /** Valid monitors that come back changed: their priority is spelled out, their note trimmed. */
  lemma MonitorColumnsAreLost(note: string, formats: Formats)
    requires TrimSpace(note) == note != "" && |note| <= MAX_RESPONSE_GUIDANCE_LEN && Printable(note)
    ensures
      var m := MonitorFields("m", [], true, "", "", "", note + [' '], 1);
      MonitorFieldsOk(m, formats)
          && StoredMonitor(m, formats) == Some(m.(priority := "normal", responseGuidance := note))
  {
    NothingToTrim("m");
    NothingToTrim("");
    PaddedNote(note);
  }

  /** A valid rule that comes back changed: it loses its severity. */
  lemma RuleColumnsAreLost(formats: Formats)
    requires KnowsEmptyObject(formats)
    ensures
      var r := RuleFields("threshold", "{}", true, "critical", 1, "", "");
      RuleFieldsOk(r, formats) && StoredRule(r, formats) == Some(r.(severity := ""))
  {
    NothingToTrim("threshold");
    NothingToTrim("");
    NoNote();
  }

  lemma NoNote()
    ensures ValidateResponseGuidance("") == Some("")
  {
    NothingToTrim("");
  }

  lemma PaddedNote(note: string)
    requires TrimSpace(note) == note != "" && |note| <= MAX_RESPONSE_GUIDANCE_LEN && Printable(note)
    ensures ValidateResponseGuidance(note + [' ']) == Some(note)
  {
    var padded := note + [' '];
    PrintableIsPlain(padded);
    TrimLeftStarts(note);
    TrimRightStarts(TrimLeft(note));
    TrimRightEnds(TrimLeft(note));
    assert padded[..|note|] == note;
    assert TrimLeft(padded) == padded && TrimRight(padded) == TrimRight(note) == note;
  }

  /** A valid backup that the store stops half way: its second monitor repeats a name, so only the
      first is written. */
  lemma RepeatedNameStopsARestore(fields: MonitorFields, formats: Formats, quotas: Quotas)
    requires MonitorFieldsOk(fields, formats) && quotas.monitors <= 0
    ensures
      var first, second := NewMonitor(1, fields, []), NewMonitor(2, fields, []);
      var data := Backup(1, 1, [first, second], [], [], [], []);
      && ValidBackup(data, formats) && !Importable(NOTHING, data, formats, quotas)
      && Imported(NOTHING, data, formats, quotas) == data.(monitors := [first])
  {
    var first, second := NewMonitor(1, fields, []), NewMonitor(2, fields, []);
    var rows := [first, second];
    assert MonitorIds(rows) == [1, 2];
    assert MonitorAccepted([], rows, quotas.monitors, 0) && !MonitorAccepted([], rows, quotas.monitors, 1);
    assert rows[..1] == [first];
    PartWithoutRules(NOTHING, Backup(1, 1, rows, [], [], [], []), formats, quotas);
    NoRowsOk(formats);
  }

  /** A valid rule that stops a restore: it has no link of its own and an invalid one in its
      parameters, which the validation does not look at. */
  lemma ParameterLinkIsRefused(f: RuleFields, formats: Formats, url: string)
    requires RuleFieldsOk(f, formats) && f.runbookUrl == ""
    requires formats.paramsUrl(f.params) == Some(url) && ValidateRunbookURL(url, formats.scheme).None?
    ensures StoredRule(f, formats).None?
    ensures forall held, data: Backup, quotas :: data.rules == [Rule(1, 1, f)] ==>
          !Importable(held, data, formats, quotas)
  {
    forall held, data: Backup, quotas | data.rules == [Rule(1, 1, f)] ensures !Importable(held, data, formats, quotas) {
      assert data.rules[0].fields == f;
    }
  }

  /** A backup of more channels than the quota allows: exactly the first ones are written. */
  lemma QuotaStopsARestore(data: Backup, formats: Formats, quotas: Quotas)
    requires 0 < quotas.channels < |data.channels|
    ensures !Importable(NOTHING, data, formats, quotas)
    ensures Imported(NOTHING, data, formats, quotas) ==
      data.(channels := data.channels[..quotas.channels], monitors := [], rules := [], searches := [], templates := [])
  {
  }
}
