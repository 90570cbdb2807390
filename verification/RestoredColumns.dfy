/** What every column of a row is in the store once a backup has been restored. */
module RestoredColumns {
  import opened Wrappers
  import opened Text
  import opened Guidance
  import opened BackupData
  import opened BackupStore
  import opened Restore
  import opened BackupRoundTrip
  import opened BackupFaults
  import opened Counting

  /** `now` is link `was` as the store writes it: none for a blank one, else the trimmed text with its
      scheme in lower case. */
  predicate LinkStored(was: string, now: string, scheme: string -> Option<string>) {
    var text := TrimSpace(was);
    if text == "" then now == ""
    else
      && scheme(text).Some?
      && var lower := scheme(text).value;
        && (lower == "http" || lower == "https") && |lower| <= |text|
        && now == lower + text[|lower|..]
  }

  /** `now` is note `was` as the store writes it. */
  predicate NoteStored(was: string, now: string) {
    now == TrimSpace(PlainNewlines(was))
  }

  lemma LinkIsStored(was: string, scheme: string -> Option<string>)
    requires ValidateRunbookURL(was, scheme).Some?
    ensures LinkStored(was, ValidateRunbookURL(was, scheme).value, scheme)
  {
  }

  /** The text a rule's column stands for: its own, or the one in the parameters. */
  function Standing(column: string, inParams: Option<string>): string {
    match inParams
    case Some(text) => if column == "" then text else column
    case None => column
  }

  /** A restored channel: all columns as they were, except that it has no minimum severity and that a
      missing timeout is fifteen seconds. */
  lemma ChannelRestored(before: Database, after: Database, data: Backup, ren: Renaming, keep: Keep, i: nat)
    requires IsRestore(before, after, data, ren, keep) && i < |data.channels|
    ensures |after.channels| == |before.channels| + |data.channels|
    ensures
      var row := after.channels[|before.channels| + i];
      var was, now := data.channels[i].fields, row.fields;
      && row.id == At(ren.channels, data.channels[i].id)
      && now.name == was.name && now.kind == was.kind && now.config == was.config && now.enabled == was.enabled
      && now.digestMode == was.digestMode && now.digestWindowSeconds == was.digestWindowSeconds
      && now.createdAt == was.createdAt
      && now.minSeverity == ""
      && now.timeoutSeconds == (if was.timeoutSeconds > 0 then was.timeoutSeconds else 15)
  {
    RestoredChannel(before.channels, after.channels, data.channels, ren.channels, i);
  }

  /** A restored monitor: a live row without tags or matches, its priority spelled out, its link and
      note as the store writes them, and the other columns as they were. */
  lemma MonitorRestored(before: Database, after: Database, data: Backup, ren: Renaming, formats: Formats, i: nat)
    requires IsRestore(before, after, data, ren, Keeping(formats)) && i < |data.monitors|
    requires StoredMonitor(data.monitors[i].fields, formats).Some?
    ensures |after.monitors| == |before.monitors| + |data.monitors|
    ensures
      var row := after.monitors[|before.monitors| + i];
      var was, now := data.monitors[i].fields, row.fields;
      && row.id == At(ren.monitors, data.monitors[i].id)
      && row.tags == [] && row.lastMatchedAt.None? && row.deletedAt.None?
      && now.name == was.name && now.contractIds == was.contractIds && now.enabled == was.enabled
      && now.network == was.network && now.createdAt == was.createdAt
      && now.priority == (if was.priority == "" then "normal" else was.priority)
      && LinkStored(was.runbookUrl, now.runbookUrl, formats.scheme)
      && NoteStored(was.responseGuidance, now.responseGuidance)
  {
    RestoredMonitor(before.monitors, after.monitors, data.monitors, ren.channels, ren.monitors,
                    Keeping(formats).monitor, i);
    LinkIsStored(data.monitors[i].fields.runbookUrl, formats.scheme);
  }

  /** The columns of a rule once stored: its first version, without severity, its link and note as the
      store writes them, and the others as they were. */
  predicate RuleColumns(was: RuleFields, now: RuleFields, formats: Formats) {
    && now.kind == was.kind && now.params == was.params && now.enabled == was.enabled
    && now.severity == "" && now.version == 1
    && LinkStored(Standing(was.runbookUrl, formats.paramsUrl(was.params)), now.runbookUrl, formats.scheme)
    && NoteStored(Standing(was.responseGuidance, formats.paramsGuidance(was.params)), now.responseGuidance)
  }

  lemma StoredRuleColumns(f: RuleFields, formats: Formats)
    requires StoredRule(f, formats).Some?
    ensures RuleColumns(f, KeptRule(f, formats), formats)
  {
    LinkIsStored(Standing(f.runbookUrl, formats.paramsUrl(f.params)), formats.scheme);
  }

  /** A restored rule has those columns, a new id and its renamed owner. */
  lemma RuleRestored(before: Database, after: Database, data: Backup, ren: Renaming, formats: Formats, i: nat)
    requires IsRestore(before, after, data, ren, Keeping(formats)) && i < |data.rules|
    requires StoredRule(data.rules[i].fields, formats).Some?
    ensures |after.rules| == |before.rules| + |data.rules|
    ensures
      var row := after.rules[|before.rules| + i];
      && row.id == At(ren.rules, data.rules[i].id) && row.monitorId == At(ren.monitors, data.rules[i].monitorId)
      && RuleColumns(data.rules[i].fields, row.fields, formats)
  {
    RestoredRule(before.rules, after.rules, data.rules, ren.monitors, ren.rules, Keeping(formats).rule, i);
    StoredRuleColumns(data.rules[i].fields, formats);
  }

  /** A restored template: all columns as they were. */
  lemma TemplateRestored(before: Database, after: Database, data: Backup, ren: Renaming, keep: Keep, i: nat)
    requires IsRestore(before, after, data, ren, keep) && i < |data.templates|
    ensures |after.templates| == |before.templates| + |data.templates|
    ensures
      var was, now := data.templates[i], after.templates[|before.templates| + i];
      && now.id == At(ren.templates, was.id)
      && now.fields.name == was.fields.name && now.fields.description == was.fields.description
      && now.fields.rules == was.fields.rules && now.fields.parameters == was.fields.parameters
      && now.fields.createdAt == was.fields.createdAt
      && |now.channelIds| <= |was.channelIds|
  {
    RestoredTemplate(before.templates, after.templates, data.templates, ren.channels, ren.templates, i);
    RemapKeepsAllIff(data.templates[i].channelIds, ren.channels);
  }

  // ----- when a backup is taken whole -----

  lemma {:induction false} LiveRowsUpTo(rows: seq<Monitor>, p: nat -> bool, k: nat)
    requires k <= |rows| && forall i: nat :: i < |rows| ==> p(i) == Live(rows[i])
    ensures |LiveRows(rows[..k])| == |set i: nat | i < k && p(i)|
  {
    if k > 0 {
      assert rows[..k][..k - 1] == rows[..k - 1] && rows[..k][k - 1] == rows[k - 1];
      LiveRowsUpTo(rows, p, k - 1);
      CountNext(p, k - 1);
    }
  }

  lemma LiveRowsCount(rows: seq<Monitor>)
    ensures |LiveRows(rows)| == |set i: nat | i < |rows| && rows[i].deletedAt == None|
  {
    var p := (i: nat) => i < |rows| && rows[i].deletedAt == None;
    LiveRowsUpTo(rows, p, |rows|);
    assert rows[..|rows|] == rows;
    assert (set i: nat | i < |rows| && p(i)) == set i: nat | i < |rows| && rows[i].deletedAt == None;
  }

  /** Rule `i` belongs to a monitor that is not deleted. */
  predicate OwnedAlive(rules: seq<Rule>, monitors: seq<Monitor>, i: nat) {
    i < |rules| && exists m :: m in monitors && m.id == rules[i].monitorId && m.deletedAt == None
  }

  lemma OwnedAliveIff(rules: seq<Rule>, monitors: seq<Monitor>, i: nat)
    requires i < |rules|
    ensures OwnedAlive(rules, monitors, i) <==> LiveOwner(monitors, rules[i].monitorId)
  {
    if OwnedAlive(rules, monitors, i) {
      var m :| m in monitors && m.id == rules[i].monitorId && m.deletedAt == None;
      var k :| 0 <= k < |monitors| && monitors[k] == m;
      assert Live(monitors[k]);
    }
  }

  lemma {:induction false} LiveRulesUpTo(rules: seq<Rule>, monitors: seq<Monitor>, p: nat -> bool, k: nat)
    requires k <= |rules| && forall i: nat :: i < |rules| ==> p(i) == LiveOwner(monitors, rules[i].monitorId)
    ensures |LiveRules(rules[..k], monitors)| == |set i: nat | i < k && p(i)|
  {
    if k > 0 {
      assert rules[..k][..k - 1] == rules[..k - 1] && rules[..k][k - 1] == rules[k - 1];
      LiveRulesUpTo(rules, monitors, p, k - 1);
      CountNext(p, k - 1);
    }
  }

  lemma LiveRulesCount(rules: seq<Rule>, monitors: seq<Monitor>)
    ensures |LiveRules(rules, monitors)| == |set i: nat | i < |rules| && OwnedAlive(rules, monitors, i)|
  {
    var p := (i: nat) => OwnedAlive(rules, monitors, i);
    forall i: nat | i < |rules| ensures p(i) == LiveOwner(monitors, rules[i].monitorId) {
      OwnedAliveIff(rules, monitors, i);
    }
    LiveRulesUpTo(rules, monitors, p, |rules|);
    assert rules[..|rules|] == rules;
    assert (set i: nat | i < |rules| && p(i)) == set i: nat | i < |rules| && OwnedAlive(rules, monitors, i);
  }

  /** `more` rows on top of `have` go over a limit, if there is one. */
  predicate Over(limit: int, have: nat, more: nat) {
    limit > 0 && more > 0 && have + more > limit
  }

  ghost predicate NameClash(db: Database, data: Backup, i: nat) {
    && i < |data.monitors|
    && var name := data.monitors[i].fields.name;
      || (exists m :: m in db.monitors && m.deletedAt == None && m.fields.name == name)
      || (exists j :: 0 <= j < i && data.monitors[j].fields.name == name)
  }

  predicate GuidanceFault(data: Backup, formats: Formats, i: nat) {
    && i < |data.rules|
    && var f := data.rules[i].fields;
      || LinkFault(Standing(f.runbookUrl, formats.paramsUrl(f.params)), formats)
      || NoteFault(Standing(f.responseGuidance, formats.paramsGuidance(f.params)))
  }

  /** A restore writes a backup whole exactly when the rows fit the quotas, deleted monitors and their
      rules not counted, no monitor's name is taken, and no rule's guidance, its parameters' included,
      is at fault. */
  lemma TakenWholeIff(db: Database, data: Backup, formats: Formats, quotas: Quotas)
    ensures Imported(HeldBy(db), data, formats, quotas) == data <==>
              && !Over(quotas.channels, |db.channels|, |data.channels|)
              && !Over(quotas.monitors, |set i: nat | i < |db.monitors| && db.monitors[i].deletedAt == None|, |data.monitors|)
              && !Over(quotas.rules, |set i: nat | i < |db.rules| && OwnedAlive(db.rules, db.monitors, i)|, |data.rules|)
              && (forall i: nat :: !NameClash(db, data, i))
              && (forall i: nat :: !GuidanceFault(data, formats, i))
  {
    ImportedIff(HeldBy(db), data, formats, quotas);
    LiveRowsCount(db.monitors);
    LiveRulesCount(db.rules, db.monitors);
    NamesClashIff(db, data);
    GuidanceFaultIff(data, formats);
  }

  lemma NamesClashIff(db: Database, data: Backup)
    ensures (forall i: nat :: !NameClash(db, data, i)) <==>
            forall i :: 0 <= i < |data.monitors| ==> NameOk(db.monitors, data.monitors, i)
  {
    forall i: nat | i < |data.monitors| ensures NameClash(db, data, i) <==> !NameOk(db.monitors, data.monitors, i) {}
  }

  lemma GuidanceFaultIff(data: Backup, formats: Formats)
    ensures (forall i: nat :: !GuidanceFault(data, formats, i)) <==>
            forall i :: 0 <= i < |data.rules| ==> StoredRule(data.rules[i].fields, formats).Some?
  {
    forall i: nat | i < |data.rules|
      ensures GuidanceFault(data, formats, i) <==> StoredRule(data.rules[i].fields, formats).None?
    {
      var f := data.rules[i].fields;
      LinkFaultIff(Standing(f.runbookUrl, formats.paramsUrl(f.params)), formats);
      NoteFaultIff(Standing(f.responseGuidance, formats.paramsGuidance(f.params)));
    }
  }
}
