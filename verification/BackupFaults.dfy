/** The faults for which a backup is refused, row by row. */
module BackupFaults {
  import opened Wrappers
  import opened Text
  import opened Guidance
  import opened BackupData

  /** The id at `i` is not positive or is an earlier row's. */
  predicate IdFault(ids: seq<Id>, i: nat) {
    i < |ids| && (ids[i] <= 0 || exists j :: 0 <= j < i && ids[j] == ids[i])
  }

  predicate LinkFault(link: string, formats: Formats) {
    var text := TrimSpace(link);
    text != "" &&
    (|| ByteLength(text) > 2048
     || (exists i :: 0 <= i < |text| && (text[i] <= ' ' || IsSpace(text[i]) || IsControl(text[i])))
     || formats.scheme(text).None?
     || formats.scheme(text).value !in {"http", "https"}
     || |formats.scheme(text).value| > |text|)
  }

  predicate NoteFault(note: string) {
    var text := TrimSpace(PlainNewlines(note));
    |text| > 500 || exists i :: 0 <= i < |text| && text[i] != '\n' && text[i] != '\t' && IsControl(text[i])
  }

  predicate MonitorFault(data: Backup, formats: Formats, i: nat) {
    i < |data.monitors| &&
    var f := data.monitors[i].fields;
    || IdFault(MonitorIds(data.monitors), i)
    || TrimSpace(f.name) == ""
    || f.createdAt == 0
    || f.priority !in {"", "low", "normal", "high"}
    || (exists k :: 0 <= k < |f.contractIds| && TrimSpace(f.contractIds[k]) == "")
    || LinkFault(f.runbookUrl, formats)
    || NoteFault(f.responseGuidance)
    || (exists k :: 0 <= k < |data.monitors[i].channelIds| && data.monitors[i].channelIds[k] !in ChannelIds(data.channels))
  }

  predicate ChannelFault(data: Backup, formats: Formats, i: nat) {
    i < |data.channels| &&
    var f := data.channels[i].fields;
    || IdFault(ChannelIds(data.channels), i)
    || TrimSpace(f.name) == ""
    || TrimSpace(f.kind) == ""
    || f.createdAt == 0
    || !formats.jsonObject(f.config)
    || f.digestMode !in {"", "window"}
    || (f.digestMode == "" && f.digestWindowSeconds < 0)
    || (f.digestMode == "window" && f.digestWindowSeconds <= 0)
    || f.minSeverity !in {"", "info", "warning", "critical"}
    || (f.timeoutSeconds != 0 && (f.timeoutSeconds < 1 || f.timeoutSeconds > 60))
  }

  predicate RuleFault(data: Backup, formats: Formats, i: nat) {
    i < |data.rules| &&
    var f := data.rules[i].fields;
    || IdFault(RuleIds(data.rules), i)
    || data.rules[i].monitorId !in MonitorIds(data.monitors)
    || TrimSpace(f.kind) == ""
    || !formats.jsonObject(f.params)
    || f.severity !in {"", "info", "warning", "critical"}
    || LinkFault(f.runbookUrl, formats)
    || NoteFault(f.responseGuidance)
  }

  predicate SearchFault(data: Backup, i: nat) {
    i < |data.searches| &&
    var row := data.searches[i];
    || IdFault(SearchIds(data.searches), i)
    || TrimSpace(row.name) == ""
    || row.createdAt == 0
    || row.filter.monitorId < 0 || row.filter.ruleId < 0
    || (row.isDefault && exists j :: 0 <= j < i && data.searches[j].isDefault)
  }

  predicate TemplateFault(data: Backup, formats: Formats, i: nat) {
    i < |data.templates| &&
    var row := data.templates[i];
    || IdFault(TemplateIds(data.templates), i)
    || TrimSpace(row.fields.name) == ""
    || row.fields.createdAt == 0
    || (exists k :: 0 <= k < |row.channelIds| && row.channelIds[k] <= 0)
    || (exists k :: 0 <= k < |row.fields.rules| &&
          (TrimSpace(row.fields.rules[k].kind) == "" || !formats.jsonObject(row.fields.rules[k].params)))
  }

  lemma LinkFaultIff(link: string, formats: Formats)
    ensures LinkFault(link, formats) <==> ValidateRunbookURL(link, formats.scheme).None?
  {
  }

  lemma NoteFaultIff(note: string)
    ensures NoteFault(note) <==> ValidateResponseGuidance(note).None?
  {
  }

  lemma IdFaultIff(ids: seq<Id>)
    ensures (forall i: nat :: !IdFault(ids, i)) <==> Distinct(ids) && forall i :: 0 <= i < |ids| ==> ids[i] > 0
  {
    if forall i: nat :: !IdFault(ids, i) {
      forall i | 0 <= i < |ids| ensures ids[i] > 0 { assert !IdFault(ids, i); }
      forall i, j | 0 <= i < j < |ids| ensures ids[i] != ids[j] { assert !IdFault(ids, j); }
    }
  }

  lemma MonitorsFaultless(data: Backup, formats: Formats)
    ensures (forall i: nat :: !MonitorFault(data, formats, i)) <==>
            MonitorsOk(data.monitors, formats) && AttachmentsOk(data.monitors, ChannelIds(data.channels))
  {
    var ids := MonitorIds(data.monitors);
    IdFaultIff(ids);
    forall i: nat | i < |data.monitors|
      ensures !MonitorFault(data, formats, i) <==>
              && !IdFault(ids, i) && MonitorFieldsOk(data.monitors[i].fields, formats)
              && AllIn(data.monitors[i].channelIds, ChannelIds(data.channels))
    {
      LinkFaultIff(data.monitors[i].fields.runbookUrl, formats);
      NoteFaultIff(data.monitors[i].fields.responseGuidance);
    }
    assert forall i: nat :: IdFault(ids, i) ==> MonitorFault(data, formats, i);
  }

  lemma ChannelsFaultless(data: Backup, formats: Formats)
    ensures (forall i: nat :: !ChannelFault(data, formats, i)) <==> ChannelsOk(data.channels, formats)
  {
    var ids := ChannelIds(data.channels);
    IdFaultIff(ids);
    forall i: nat | i < |data.channels|
      ensures !ChannelFault(data, formats, i) <==> !IdFault(ids, i) && ChannelFieldsOk(data.channels[i].fields, formats) {}
    assert forall i: nat :: IdFault(ids, i) ==> ChannelFault(data, formats, i);
  }

  lemma RulesFaultless(data: Backup, formats: Formats)
    ensures (forall i: nat :: !RuleFault(data, formats, i)) <==> RulesOk(data.rules, MonitorIds(data.monitors), formats)
  {
    var ids := RuleIds(data.rules);
    IdFaultIff(ids);
    forall i: nat | i < |data.rules|
      ensures !RuleFault(data, formats, i) <==>
              && !IdFault(ids, i) && data.rules[i].monitorId in MonitorIds(data.monitors)
              && RuleFieldsOk(data.rules[i].fields, formats)
    {
      LinkFaultIff(data.rules[i].fields.runbookUrl, formats);
      NoteFaultIff(data.rules[i].fields.responseGuidance);
    }
    assert forall i: nat :: IdFault(ids, i) ==> RuleFault(data, formats, i);
  }

  lemma SearchesFaultless(data: Backup)
    ensures (forall i: nat :: !SearchFault(data, i)) <==> SearchesOk(data.searches)
  {
    var ids := SearchIds(data.searches);
    IdFaultIff(ids);
    assert forall i: nat :: IdFault(ids, i) ==> SearchFault(data, i);
    if forall i: nat :: !SearchFault(data, i) {
      forall i: nat, j: nat ensures !BothDefault(data.searches, i, j) { assert !SearchFault(data, j); }
      forall i | 0 <= i < |data.searches| ensures SearchOk(data.searches[i]) { assert !SearchFault(data, i); }
    }
    if SearchesOk(data.searches) {
      forall i: nat | i < |ids| ensures !SearchFault(data, i) {
        assert SearchOk(data.searches[i]) && !IdFault(ids, i);
        forall j | 0 <= j < i ensures !(data.searches[i].isDefault && data.searches[j].isDefault) {
          assert !BothDefault(data.searches, j, i);
        }
      }
    }
  }

  lemma TemplatesFaultless(data: Backup, formats: Formats)
    ensures (forall i: nat :: !TemplateFault(data, formats, i)) <==> TemplatesOk(data.templates, formats)
  {
    var ids := TemplateIds(data.templates);
    IdFaultIff(ids);
    assert forall i: nat :: IdFault(ids, i) ==> TemplateFault(data, formats, i);
    forall i: nat | i < |data.templates|
      ensures !TemplateFault(data, formats, i) <==> !IdFault(ids, i) && TemplateOk(data.templates[i].(id := 1), formats) {}
  }

  ghost predicate HasFault(data: Backup, formats: Formats) {
    || data.version != 1
    || data.createdAt == 0
    || (exists i: nat :: MonitorFault(data, formats, i))
    || (exists i: nat :: ChannelFault(data, formats, i))
    || (exists i: nat :: RuleFault(data, formats, i))
    || (exists i: nat :: SearchFault(data, i))
    || (exists i: nat :: TemplateFault(data, formats, i))
  }

  /** A backup is valid exactly when it has none of the faults. */
  lemma ValidIffFaultless(data: Backup, formats: Formats)
    ensures ValidBackup(data, formats) <==> !HasFault(data, formats)
  {
    MonitorsFaultless(data, formats);
    ChannelsFaultless(data, formats);
    RulesFaultless(data, formats);
    SearchesFaultless(data);
    TemplatesFaultless(data, formats);
  }
}
