/** A backup restored, backed up, and that backup restored and backed up again. */
module SecondTrip {
  import opened Wrappers
  import opened Text
  import opened Guidance
  import opened BackupData
  import opened BackupStore
  import opened Restore
  import opened BackupRoundTrip

  // ----- whether the second restore is refused -----

  predicate AllStored(rules: seq<Rule>, formats: Formats) {
    forall i :: 0 <= i < |rules| ==> StoredRule(rules[i].fields, formats).Some?
  }

  predicate NoneRefusedNext(rules: seq<Rule>, formats: Formats) {
    forall i :: 0 <= i < |rules| ==> !RefusedNext(rules[i].fields, formats)
  }

  predicate NamesFreeAndDistinct(rows: seq<Monitor>) {
    forall i :: 0 <= i < |rows| ==> NameOk([], rows, i)
  }

  lemma NamesComeBack(rows: seq<Monitor>, channels: map<Id, Id>, m: map<Id, Id>, formats: Formats)
    requires NamesFreeAndDistinct(rows)
    ensures NamesFreeAndDistinct(MonitorImages(rows, channels, m, Keeping(formats).monitor))
  {
    var images := MonitorImages(rows, channels, m, Keeping(formats).monitor);
    MonitorImagesAt(rows, channels, m, Keeping(formats).monitor);
    forall i | 0 <= i < |images| ensures images[i].fields.name == rows[i].fields.name {}
    forall i | 0 <= i < |images| ensures NameOk([], images, i) { assert NameOk([], rows, i); }
  }

  predicate AllRules(rules: seq<Rule>, p: RuleFields -> bool) {
    forall i :: 0 <= i < |rules| ==> p(rules[i].fields)
  }

  lemma AllPermuted(xs: seq<Rule>, ys: seq<Rule>, p: RuleFields -> bool)
    requires multiset(xs) == multiset(ys)
    ensures AllRules(xs, p) <==> AllRules(ys, p)
  {
    forall i | 0 <= i < |xs| ensures exists k :: 0 <= k < |ys| && ys[k] == xs[i] { var k := RowOf(ys, xs, i); }
    forall i | 0 <= i < |ys| ensures exists k :: 0 <= k < |xs| && xs[k] == ys[i] { var k := RowOf(xs, ys, i); }
  }

  lemma AllImages(rows: seq<Rule>, again: seq<Rule>, monitors: map<Id, Id>, m: map<Id, Id>, keep: KeepRule,
                  p: RuleFields -> bool, q: RuleFields -> bool)
    requires multiset(again) == multiset(RuleImages(rows, monitors, m, keep))
    requires forall i {:trigger rows[i]} :: 0 <= i < |rows| ==> (p(keep(rows[i].fields)) <==> q(rows[i].fields))
    ensures AllRules(again, p) <==> AllRules(rows, q)
  {
    var images := RuleImages(rows, monitors, m, keep);
    RuleImagesAt(rows, monitors, m, keep);
    AllPermuted(images, again, p);
    assert forall i :: 0 <= i < |rows| ==> (p(images[i].fields) <==> q(rows[i].fields));
  }

  /** The rules of a first backup are all stored again exactly when none of them hid an invalid link
      or note behind a blank one. */
  lemma RulesStoredAgainIff(data: Backup, again: Backup, ren: Renaming, formats: Formats)
    requires LawfulUrls(formats.scheme) && SameConfiguration(data, again, ren, Keeping(formats))
    requires AllStored(data.rules, formats)
    ensures AllStored(again.rules, formats) <==> NoneRefusedNext(data.rules, formats)
  {
    var stored, fine := f => StoredRule(f, formats).Some?, f => !RefusedNext(f, formats);
    var keep := Keeping(formats).rule;
    forall i {:trigger data.rules[i]} | 0 <= i < |data.rules|
        ensures stored(keep(data.rules[i].fields)) <==> fine(data.rules[i].fields) {
      StoredRuleSettlesIff(data.rules[i].fields, formats);
    }
    AllImages(data.rules, again.rules, ren.monitors, ren.rules, keep, stored, fine);
    StoredIsAll(again.rules, formats, stored);
    FineIsAll(data.rules, formats, fine);
  }

  lemma StoredIsAll(rules: seq<Rule>, formats: Formats, p: RuleFields -> bool)
    requires forall f :: p(f) == StoredRule(f, formats).Some?
    ensures AllStored(rules, formats) <==> AllRules(rules, p)
  {
  }

  lemma FineIsAll(rules: seq<Rule>, formats: Formats, p: RuleFields -> bool)
    requires forall f :: p(f) == !RefusedNext(f, formats)
    ensures NoneRefusedNext(rules, formats) <==> AllRules(rules, p)
  {
  }

  lemma SameLengths(data: Backup, again: Backup, ren: Renaming, keep: Keep)
    requires SameConfiguration(data, again, ren, keep)
    ensures |again.channels| == |data.channels| && |again.monitors| == |data.monitors| && |again.rules| == |data.rules|
    ensures |again.searches| == |data.searches| && |again.templates| == |data.templates|
  {
    ChannelImagesAt(data.channels, ren.channels);
    MonitorImagesAt(data.monitors, ren.channels, ren.monitors, keep.monitor);
    RuleImagesAt(data.rules, ren.monitors, ren.rules, keep.rule);
    SearchImagesAt(data.searches, ren.monitors, ren.rules, ren.searches);
    TemplateImagesAt(data.templates, ren.channels, ren.templates);
    assert |multiset(again.rules)| == |multiset(RuleImages(data.rules, ren.monitors, ren.rules, keep.rule))|;
    assert |multiset(again.searches)| == |multiset(SearchImages(data.searches, ren.monitors, ren.rules, ren.searches))|;
    assert |multiset(again.templates)| == |multiset(TemplateImages(data.templates, ren.channels, ren.templates))|;
  }

  lemma ImportableParts(data: Backup, formats: Formats, quotas: Quotas)
    ensures Importable(NOTHING, data, formats, quotas) <==>
            WithinQuotas(NOTHING, data, quotas) && NamesFreeAndDistinct(data.monitors) && AllStored(data.rules, formats)
  {
  }

  /** The backup of a store that took a whole backup is not always taken whole by another one with
      the same quotas: exactly when a rule of the first had a blank link or note over an invalid one
      in its parameters, the second restore is refused. */
  lemma SecondImportIff(data: Backup, again: Backup, ren: Renaming, formats: Formats, quotas: Quotas)
    requires LawfulUrls(formats.scheme) && SameConfiguration(data, again, ren, Keeping(formats))
    requires Importable(NOTHING, data, formats, quotas)
    ensures Importable(NOTHING, again, formats, quotas) <==> NoneRefusedNext(data.rules, formats)
  {
    ImportableParts(data, formats, quotas);
    ImportableParts(again, formats, quotas);
    SameLengths(data, again, ren, Keeping(formats));
    NamesComeBack(data.monitors, ren.channels, ren.monitors, formats);
    RulesStoredAgainIff(data, again, ren, formats);
  }

  // ----- what comes back the second time -----

  /** Once stored, a channel's and a monitor's columns are kept. */
  lemma RowsHaveSettled(data: Backup, again: Backup, ren: Renaming, formats: Formats)
    requires LawfulUrls(formats.scheme) && SameConfiguration(data, again, ren, Keeping(formats))
    requires forall i :: 0 <= i < |data.monitors| ==> StoredMonitor(data.monitors[i].fields, formats).Some?
    ensures forall i :: 0 <= i < |again.channels| ==> ChannelKept(again.channels[i].fields)
    ensures forall i :: 0 <= i < |again.monitors| ==> SettledMonitor(again.monitors[i], formats)
  {
    ChannelImagesAt(data.channels, ren.channels);
    MonitorImagesAt(data.monitors, ren.channels, ren.monitors, Keeping(formats).monitor);
    forall i | 0 <= i < |again.monitors| ensures SettledMonitor(again.monitors[i], formats) {
      MonitorSettlesAtOnce(data.monitors[i].fields, again.monitors[i], formats);
    }
  }

  lemma MonitorSettlesAtOnce(f: MonitorFields, row: Monitor, formats: Formats)
    requires LawfulUrls(formats.scheme) && StoredMonitor(f, formats).Some? && row.fields == KeptMonitor(f, formats)
    requires row.tags == [] && row.lastMatchedAt.None? && row.deletedAt.None?
    ensures SettledMonitor(row, formats)
  {
    MonitorKeptIff(f, formats);
  }

  /** A monitor that the store takes and that comes back with all its columns. */
  predicate SettledMonitor(row: Monitor, formats: Formats) {
    MonitorSettled(row, formats) && StoredMonitor(row.fields, formats).Some?
  }

  ghost predicate SameChannels(was: seq<Channel>, now: seq<Channel>, ren: Renaming) {
    |now| == |was| && forall i :: 0 <= i < |was| ==> now[i] == Channel(At(ren.channels, was[i].id), was[i].fields)
  }

  ghost predicate SameMonitors(was: seq<Monitor>, now: seq<Monitor>, ren: Renaming) {
    |now| == |was| && forall i :: 0 <= i < |was| ==> SameMonitor(was[i], now[i], ren)
  }

  /** What rule `row` of the first backup is in the third. */
  function RuleAgain(row: Rule, ren: Renaming, ren2: Renaming, formats: Formats): Rule {
    Rule(At(ren2.rules, At(ren.rules, row.id)), At(ren2.monitors, At(ren.monitors, row.monitorId)),
         KeptRule(KeptRule(row.fields, formats), formats))
  }

  /** Every rule is there again, with the columns of the second backup exactly when no blank link or
      note of it had hidden one in its parameters. */
  ghost predicate SameRules(data: Backup, third: Backup, ren: Renaming, ren2: Renaming, formats: Formats) {
    && |third.rules| == |data.rules|
    && forall i {:trigger data.rules[i]} :: 0 <= i < |data.rules| ==>
      && RuleAgain(data.rules[i], ren, ren2, formats) in third.rules
      && (RuleAgain(data.rules[i], ren, ren2, formats).fields == KeptRule(data.rules[i].fields, formats) <==>
          !Uncovered(data.rules[i].fields, formats))
  }

  /** Every search is there again, and no reference of it is lost. */
  ghost predicate SameSearches(was: seq<Search>, now: seq<Search>, ren: Renaming) {
    && |now| == |was|
    && forall i {:trigger was[i]} :: 0 <= i < |was| ==>
      FilterKept(was[i].filter, ren) && exists row :: row in now && SearchRow(was[i], row, ren)
  }

  /** Every template is there again, and no channel of it is lost. */
  ghost predicate SameTemplates(was: seq<Template>, now: seq<Template>, ren: Renaming) {
    && |now| == |was|
    && forall i {:trigger was[i]} :: 0 <= i < |was| ==>
      && Template(At(ren.templates, was[i].id), was[i].fields, Remap(was[i].channelIds, ren.channels)) in now
      && forall k :: 0 <= k < |was[i].channelIds| ==> was[i].channelIds[k] in ren.channels
  }

  lemma SettledChannelsSurvive(data: Backup, again: Backup, ren: Renaming, keep: Keep)
    requires SameConfiguration(data, again, ren, keep)
    requires forall i :: 0 <= i < |data.channels| ==> ChannelKept(data.channels[i].fields)
    ensures SameChannels(data.channels, again.channels, ren)
  {
    ChannelImagesAt(data.channels, ren.channels);
    forall i | 0 <= i < |data.channels|
      ensures again.channels[i] == Channel(At(ren.channels, data.channels[i].id), data.channels[i].fields)
    {
      ChannelSurvivesIff(data, again, ren, keep, i);
    }
  }

  lemma SettledMonitorsSurvive(data: Backup, again: Backup, ren: Renaming, formats: Formats)
    requires SameConfiguration(data, again, ren, Keeping(formats))
    requires forall i :: 0 <= i < |data.monitors| ==> SettledMonitor(data.monitors[i], formats)
    ensures SameMonitors(data.monitors, again.monitors, ren)
  {
    MonitorImagesAt(data.monitors, ren.channels, ren.monitors, Keeping(formats).monitor);
    forall i | 0 <= i < |data.monitors| ensures SameMonitor(data.monitors[i], again.monitors[i], ren) {
      MonitorSurvivesIff(data, again, ren, formats, i);
    }
  }

  lemma RuleTwice(data: Backup, again: Backup, third: Backup, ren: Renaming, ren2: Renaming, formats: Formats, i: nat)
    requires SameConfiguration(data, again, ren, Keeping(formats))
    requires SameConfiguration(again, third, ren2, Keeping(formats))
    requires LawfulUrls(formats.scheme) && i < |data.rules|
    requires StoredRule(data.rules[i].fields, formats).Some? && !RefusedNext(data.rules[i].fields, formats)
    ensures RuleAgain(data.rules[i], ren, ren2, formats) in third.rules
    ensures RuleAgain(data.rules[i], ren, ren2, formats).fields == KeptRule(data.rules[i].fields, formats) <==>
            !Uncovered(data.rules[i].fields, formats)
  {
    var row := data.rules[i];
    RuleSurvivesIff(data, again, ren, formats, i);
    StoredRuleSettlesIff(row.fields, formats);
    var k :| 0 <= k < |again.rules| &&
             again.rules[k] ==
                 Rule(At(ren.rules, row.id), At(ren.monitors, row.monitorId), KeptRule(row.fields, formats));
    RuleSurvivesIff(again, third, ren2, formats, k);
  }

  /** A reference of a restored search is none, or a row of the next backup. */
  lemma FilterResolves(data: Backup, again: Backup, ren: Renaming, ren2: Renaming, keep: Keep, i: nat)
    requires SameConfiguration(data, again, ren, keep) && RenamesRows(ren, data) && RenamesRows(ren2, again)
    requires i < |data.searches|
    ensures FilterKept(FilterImage(data.searches[i].filter, ren.monitors, ren.rules), ren2)
  {
    var f := data.searches[i].filter;
    if f.monitorId in ren.monitors {
      MonitorIdsComeBack(data, again, ren, keep, f.monitorId);
    }
    if f.ruleId in ren.rules {
      RuleIdsComeBack(data, again, ren, keep, f.ruleId);
    }
  }

  lemma MonitorIdsComeBack(data: Backup, again: Backup, ren: Renaming, keep: Keep, x: Id)
    requires SameConfiguration(data, again, ren, keep) && x in MonitorIds(data.monitors)
    ensures At(ren.monitors, x) in MonitorIds(again.monitors)
  {
    MonitorImagesAt(data.monitors, ren.channels, ren.monitors, keep.monitor);
    var k :| 0 <= k < |data.monitors| && MonitorIds(data.monitors)[k] == x;
    assert MonitorIds(again.monitors)[k] == At(ren.monitors, x);
  }

  lemma RuleIdsComeBack(data: Backup, again: Backup, ren: Renaming, keep: Keep, x: Id)
    requires SameConfiguration(data, again, ren, keep) && x in RuleIds(data.rules)
    ensures At(ren.rules, x) in RuleIds(again.rules)
  {
    var images := RuleImages(data.rules, ren.monitors, ren.rules, keep.rule);
    RuleImagesAt(data.rules, ren.monitors, ren.rules, keep.rule);
    var k :| 0 <= k < |data.rules| && RuleIds(data.rules)[k] == x;
    var l := RowOf(again.rules, images, k);
    assert RuleIds(again.rules)[l] == At(ren.rules, x);
  }

  lemma ChannelIdsComeBack(data: Backup, again: Backup, ren: Renaming, keep: Keep, x: Id)
    requires SameConfiguration(data, again, ren, keep) && x in ChannelIds(data.channels)
    ensures At(ren.channels, x) in ChannelIds(again.channels)
  {
    ChannelImagesAt(data.channels, ren.channels);
    var k :| 0 <= k < |data.channels| && ChannelIds(data.channels)[k] == x;
    assert ChannelIds(again.channels)[k] == At(ren.channels, x);
  }

  lemma SearchesTwice(data: Backup, again: Backup, third: Backup, ren: Renaming, ren2: Renaming, keep: Keep)
    requires SameConfiguration(data, again, ren, keep) && SameConfiguration(again, third, ren2, keep)
    requires RenamesRows(ren, data) && RenamesRows(ren2, again)
    ensures SameSearches(again.searches, third.searches, ren2)
  {
    var images := SearchImages(data.searches, ren.monitors, ren.rules, ren.searches);
    SearchImagesAt(data.searches, ren.monitors, ren.rules, ren.searches);
    SearchImagesAt(again.searches, ren2.monitors, ren2.rules, ren2.searches);
    SameLengths(again, third, ren2, keep);
    forall i | 0 <= i < |again.searches|
      ensures exists row :: row in third.searches && SearchRow(again.searches[i], row, ren2)
      ensures FilterKept(again.searches[i].filter, ren2)
    {
      assert SearchImages(again.searches, ren2.monitors, ren2.rules, ren2.searches)[i] in multiset(third.searches);
      SearchImageIsRow(again.searches[i], ren2);
      var k := RowOf(images, again.searches, i);
      FilterResolves(data, again, ren, ren2, keep, k);
    }
  }

  lemma RemappedComeBack(data: Backup, again: Backup, ren: Renaming, ren2: Renaming, keep: Keep, ids: seq<Id>, k: nat)
    requires SameConfiguration(data, again, ren, keep) && RenamesRows(ren, data) && RenamesRows(ren2, again)
    requires k < |Remap(ids, ren.channels)|
    ensures Remap(ids, ren.channels)[k] in ren2.channels
  {
    RemapMembers(ids, ren.channels, Remap(ids, ren.channels)[k]);
    var x :| x in ids && x in ren.channels && ren.channels[x] == Remap(ids, ren.channels)[k];
    ChannelIdsComeBack(data, again, ren, keep, x);
  }

  lemma TemplatesTwice(data: Backup, again: Backup, third: Backup, ren: Renaming, ren2: Renaming, keep: Keep)
    requires SameConfiguration(data, again, ren, keep) && SameConfiguration(again, third, ren2, keep)
    requires RenamesRows(ren, data) && RenamesRows(ren2, again)
    ensures SameTemplates(again.templates, third.templates, ren2)
  {
    var images := TemplateImages(data.templates, ren.channels, ren.templates);
    TemplateImagesAt(data.templates, ren.channels, ren.templates);
    TemplateImagesAt(again.templates, ren2.channels, ren2.templates);
    SameLengths(again, third, ren2, keep);
    forall i | 0 <= i < |again.templates|
      ensures
        var row := again.templates[i];
        && Template(At(ren2.templates, row.id), row.fields, Remap(row.channelIds, ren2.channels)) in third.templates
        && forall k :: 0 <= k < |row.channelIds| ==> row.channelIds[k] in ren2.channels
    {
      assert TemplateImages(again.templates, ren2.channels, ren2.templates)[i] in multiset(third.templates);
      var l := RowOf(images, again.templates, i);
      forall k | 0 <= k < |again.templates[i].channelIds| ensures again.templates[i].channelIds[k] in ren2.channels {
        RemappedComeBack(data, again, ren, ren2, keep, data.templates[l].channelIds, k);
      }
    }
  }

  /** The third backup against the second: channels, monitors, searches and templates as they were
      under new ids, rules as they were but for what a blank column had hidden. */
  ghost predicate SameAgain(data: Backup, again: Backup, third: Backup, ren: Renaming, ren2: Renaming,
                            formats: Formats) {
    && SameChannels(again.channels, third.channels, ren2)
    && SameMonitors(again.monitors, third.monitors, ren2)
    && SameRules(data, third, ren, ren2, formats)
    && SameSearches(again.searches, third.searches, ren2)
    && SameTemplates(again.templates, third.templates, ren2)
  }

  lemma SecondRoundTrip(data: Backup, again: Backup, third: Backup, ren: Renaming, ren2: Renaming, formats: Formats)
    requires LawfulUrls(formats.scheme)
    requires SameConfiguration(data, again, ren, Keeping(formats))
    requires SameConfiguration(again, third, ren2, Keeping(formats))
    requires RenamesRows(ren, data) && RenamesRows(ren2, again)
    requires forall i :: 0 <= i < |data.monitors| ==> StoredMonitor(data.monitors[i].fields, formats).Some?
    requires AllStored(data.rules, formats) && NoneRefusedNext(data.rules, formats)
    ensures SameAgain(data, again, third, ren, ren2, formats)
  {
    RowsHaveSettled(data, again, ren, formats);
    SettledChannelsSurvive(again, third, ren2, Keeping(formats));
    SettledMonitorsSurvive(again, third, ren2, formats);
    SameLengths(data, again, ren, Keeping(formats));
    SameLengths(again, third, ren2, Keeping(formats));
    forall i | 0 <= i < |data.rules|
      ensures RuleAgain(data.rules[i], ren, ren2, formats) in third.rules
      ensures RuleAgain(data.rules[i], ren, ren2, formats).fields == KeptRule(data.rules[i].fields, formats) <==>
              !Uncovered(data.rules[i].fields, formats)
    {
      RuleTwice(data, again, third, ren, ren2, formats, i);
    }
    SearchesTwice(data, again, third, ren, ren2, Keeping(formats));
    TemplatesTwice(data, again, third, ren, ren2, Keeping(formats));
  }

  lemma AcceptedMonitorsFit(data: Backup, quotas: Quotas)
    ensures
      var rows := data.monitors[..AcceptedMonitors(NOTHING, data, quotas)];
      FitsAll(quotas.monitors, 0, |rows|) && NamesFreeAndDistinct(rows)
  {
    var m := AcceptedMonitors(NOTHING, data, quotas);
    forall i | 0 <= i < m ensures NameOk([], data.monitors[..m], i) {
      assert MonitorAccepted([], data.monitors, quotas.monitors, i);
    }
    if m > 0 {
      assert MonitorAccepted([], data.monitors, quotas.monitors, m - 1);
    }
  }

  lemma AcceptedRulesFit(data: Backup, formats: Formats, quotas: Quotas)
    ensures
      var rows := data.rules[..AcceptedRules(NOTHING, data, formats, quotas)];
      FitsAll(quotas.rules, 0, |rows|) && AllStored(rows, formats)
  {
    var r := AcceptedRules(NOTHING, data, formats, quotas);
    forall i | 0 <= i < r ensures StoredRule(data.rules[..r][i].fields, formats).Some? {
      assert RuleAccepted(data.rules, formats, quotas.rules, 0, i);
    }
    if r > 0 {
      assert RuleAccepted(data.rules, formats, quotas.rules, 0, r - 1);
    }
  }

  lemma ImportedIsImportable(data: Backup, formats: Formats, quotas: Quotas)
    ensures Importable(NOTHING, Imported(NOTHING, data, formats, quotas), formats, quotas)
  {
    ImportableParts(Imported(NOTHING, data, formats, quotas), formats, quotas);
    if AcceptedChannels(NOTHING, data, quotas) < |data.channels| {
      PartOfChannels(NOTHING, data, formats, quotas);
      return;
    }
    AcceptedMonitorsFit(data, quotas);
    if AcceptedMonitors(NOTHING, data, quotas) < |data.monitors| {
      PartWithoutRules(NOTHING, data, formats, quotas);
      return;
    }
    PartBehindMonitors(NOTHING, data, formats, quotas);
    AcceptedRulesFit(data, formats, quotas);
    assert data.monitors[..|data.monitors|] == data.monitors && data.rules[..|data.rules|] == data.rules;
  }

  /** The whole way twice, on two empty stores with the same quotas: what the first took comes back
      from the second too, exactly when no rule of it hid an invalid link or note. */
  method RestoreTwice(first: Store, second: Store, data: Backup, now: Timestamp)
    returns (ok: bool, again: Backup, okAgain: bool, third: Backup, ghost ren: Renaming, ghost ren2: Renaming)
    requires first != second && first.Valid() && Empty(first.View()) && second.Valid() && Empty(second.View())
    requires first.formats == second.formats && first.quotas == second.quotas
    requires ValidBackup(data, first.formats) && LawfulUrls(first.formats.scheme) && now != 0
    modifies first, second
    ensures ok <==> Importable(NOTHING, data, first.formats, first.quotas)
    ensures
      var part := Imported(NOTHING, data, first.formats, first.quotas);
      && SameConfiguration(part, again, ren, Keeping(first.formats))
      && (okAgain <==> NoneRefusedNext(part.rules, first.formats))
      && (okAgain ==> SameAgain(part, again, third, ren, ren2, first.formats))
      && SameConfiguration(Imported(NOTHING, again, first.formats, first.quotas), third, ren2, Keeping(first.formats))
  {
    ok, again, ren := RestoreThenBackUp(first, data, now);
    okAgain, third, ren2 := RestoreThenBackUp(second, again, now);
    ghost var part := Imported(NOTHING, data, first.formats, first.quotas);
    ImportedIsImportable(data, first.formats, first.quotas);
    ImportedIsValid(NOTHING, data, first.formats, first.quotas);
    ValidMonitorsAreStored(part, first.formats);
    SecondImportIff(part, again, ren, first.formats, first.quotas);
    if okAgain {
      ImportableParts(part, first.formats, first.quotas);
      SecondRoundTrip(part, again, third, ren, ren2, first.formats);
    }
  }

  // ----- inputs -----

  /** A blank link on a rule with a link in its parameters: stored once the rule has none, stored
      again it has the one of the parameters. */
  lemma LinkIsUncovered(f: RuleFields, formats: Formats, url: string)
    requires f.runbookUrl == " " && f.responseGuidance == "" && formats.paramsGuidance(f.params).None?
    requires formats.paramsUrl(f.params) == Some(url) && url != ""
    requires ValidateRunbookURL(url, formats.scheme) == Some(url)
    ensures StoredRule(f, formats) == Some(f.(severity := "", version := FIRST_VERSION, runbookUrl := ""))
    ensures StoredRule(StoredRule(f, formats).value, formats) ==
          Some(f.(severity := "", version := FIRST_VERSION, runbookUrl := url))
  {
    assert " "[1..] == "" && TrimLeft(" ") == "";
    NoNote();
  }

  /** A blank link over an invalid one: a valid rule, stored once as a valid rule without a link, and
      refused when that is stored again. */
  lemma HiddenLinkIsRefused(f: RuleFields, formats: Formats, url: string)
    requires RuleFieldsOk(f, formats) && f.runbookUrl == " " && f.responseGuidance == ""
    requires formats.paramsGuidance(f.params).None?
    requires formats.paramsUrl(f.params) == Some(url) && ValidateRunbookURL(url, formats.scheme).None?
    ensures
      var stored := f.(severity := "", version := FIRST_VERSION, runbookUrl := "");
      StoredRule(f, formats) == Some(stored) && RuleFieldsOk(stored, formats) && StoredRule(stored, formats).None?
  {
    assert " "[1..] == "" && TrimLeft(" ") == "";
    NothingToTrim("");
    NoNote();
  }
}
