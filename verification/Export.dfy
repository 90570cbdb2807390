/** exportAll: the whole configuration as a backup. */
module Export {
  import opened Wrappers
  import opened BackupData
  import opened BackupStore
  import opened Sorting

  function RulesOf(rules: seq<Rule>, monitorId: Id): seq<Rule> {
    if rules == [] then []
    else
      var last := rules[|rules| - 1];
      RulesOf(rules[..|rules| - 1], monitorId) + (if last.monitorId == monitorId then [last] else [])
  }

  function RulesByMonitor(monitors: seq<Monitor>, rules: seq<Rule>): seq<Rule> {
    if monitors == [] then []
    else RulesByMonitor(monitors[..|monitors| - 1], rules) + RulesOf(rules, monitors[|monitors| - 1].id)
  }

  predicate SearchOrder(a: Search, b: Search) {
    LexLe(a.name, b.name)
  }

  predicate TemplateOrder(a: Template, b: Template) {
    LexLe(a.fields.name, b.fields.name)
  }

  /** Every live monitor with its attachments and rules, every other row once; searches and
      templates by name. */
  ghost predicate IsExport(db: Database, now: Timestamp, data: Backup) {
    && data.version == BACKUP_VERSION
    && data.createdAt == now
    && data.monitors == LiveRows(db.monitors)
    && data.rules == RulesByMonitor(data.monitors, db.rules)
    && data.channels == db.channels
    && multiset(data.searches) == multiset(db.searches)
    && Sorted(data.searches, SearchOrder)
    && multiset(data.templates) == multiset(db.templates)
    && Sorted(data.templates, TemplateOrder)
  }

  lemma {:induction false} LiveRowsIn(rows: seq<Monitor>)
    requires Distinct(MonitorIds(rows))
    ensures forall m :: m in LiveRows(rows) <==> m in rows && Live(m)
    ensures Distinct(MonitorIds(LiveRows(rows)))
  {
    if rows != [] {
      var n := |rows| - 1;
      assert rows == rows[..n] + [rows[n]] && MonitorIds(rows[..n]) == MonitorIds(rows)[..n];
      LiveRowsIn(rows[..n]);
      var live := LiveRows(rows[..n]);
      forall i | 0 <= i < |live| ensures live[i].id != rows[n].id {
        assert live[i] in rows[..n];
        var k :| 0 <= k < n && rows[..n][k] == live[i];
        assert MonitorIds(rows)[k] != MonitorIds(rows)[n];
      }
    }
  }

  method ListMonitors(rows: seq<Monitor>) returns (listed: seq<Monitor>)
    ensures listed == WithoutChannels(LiveRows(rows))
  {
    var live: seq<Monitor> := [];
    for i := 0 to |rows|
      invariant live == LiveRows(rows[..i])
    {
      assert rows[..i + 1][..i] == rows[..i];
      if Live(rows[i]) {
        live := live + [rows[i]];
      }
    }
    assert rows[..|rows|] == rows;
    listed := WithoutChannels(live);
  }

  /** The listing leaves the attachments out. */
  function WithoutChannels(rows: seq<Monitor>): (r: seq<Monitor>)
    ensures |r| == |rows|
    ensures forall i :: 0 <= i < |rows| ==> r[i] == rows[i].(channelIds := [])
  {
    seq(|rows|, i requires 0 <= i < |rows| => rows[i].(channelIds := []))
  }

  method GetMonitor(rows: seq<Monitor>, id: Id) returns (row: Option<Monitor>)
    ensures row.None? ==> id !in MonitorIds(rows)
    ensures row.Some? ==> row.value in rows && row.value.id == id
  {
    for i := 0 to |rows|
      invariant forall k :: 0 <= k < i ==> rows[k].id != id
    {
      if rows[i].id == id {
        return Some(rows[i]);
      }
    }
    row := None;
  }

  method ListRules(rules: seq<Rule>, monitorId: Id) returns (rows: seq<Rule>)
    ensures rows == RulesOf(rules, monitorId)
  {
    rows := [];
    for i := 0 to |rules|
      invariant rows == RulesOf(rules[..i], monitorId)
    {
      assert rules[..i + 1][..i] == rules[..i];
      if rules[i].monitorId == monitorId {
        rows := rows + [rules[i]];
      }
    }
    assert rules[..|rules|] == rules;
  }

  lemma SameIdSameRow(rows: seq<Monitor>, a: Monitor, b: Monitor)
    requires Distinct(MonitorIds(rows)) && a in rows && b in rows && a.id == b.id
    ensures a == b
  {
    var i :| 0 <= i < |rows| && rows[i] == a;
    var k :| 0 <= k < |rows| && rows[k] == b;
    assert MonitorIds(rows)[k] == MonitorIds(rows)[i];
  }

  lemma FullRow(rows: seq<Monitor>, i: nat)
    requires Distinct(MonitorIds(rows)) && i < |LiveRows(rows)|
    ensures LiveRows(rows)[i].id in MonitorIds(rows)
    ensures forall m :: m in rows && m.id == LiveRows(rows)[i].id ==> m == LiveRows(rows)[i]
  {
    LiveRowsIn(rows);
    var row := LiveRows(rows)[i];
    assert row in rows;
    var k :| 0 <= k < |rows| && rows[k] == row;
    assert MonitorIds(rows)[k] == row.id;
    forall m | m in rows && m.id == row.id ensures m == row { SameIdSameRow(rows, m, row); }
  }

  /** Each listed monitor is read again in full and its rules are collected. */
  method ExportMonitors(db: Database) returns (monitors: seq<Monitor>, rules: seq<Rule>)
    requires Distinct(MonitorIds(db.monitors))
    ensures monitors == LiveRows(db.monitors) && rules == RulesByMonitor(monitors, db.rules)
  {
    ghost var live := LiveRows(db.monitors);
    monitors := ListMonitors(db.monitors);
    rules := [];
    assert live[..0] == [];
    for i := 0 to |monitors|
      invariant |monitors| == |live|
      invariant forall k :: 0 <= k < i ==> monitors[k] == live[k]
      invariant forall k :: i <= k < |monitors| ==> monitors[k].id == live[k].id
      invariant rules == RulesByMonitor(live[..i], db.rules)
    {
      FullRow(db.monitors, i);
      var full := GetMonitor(db.monitors, monitors[i].id);
      monitors := monitors[i := full.value];
      var found := ListRules(db.rules, full.value.id);
      assert live[..i + 1][..i] == live[..i];
      rules := rules + found;
    }
    assert live[..|live|] == live && monitors == live;
  }

  lemma NameOrders()
    ensures TotalOrder(SearchOrder) && TotalOrder(TemplateOrder)
  {
    LexOrder();
  }

  method ExportAll(st: Store, now: Timestamp) returns (data: Backup)
    requires st.Valid()
    ensures IsExport(st.View(), now, data)
  {
    ConsistentMonitors(st.View());
    var monitors, rules := ExportMonitors(st.View());
    NameOrders();
    var searches := SortSeq(st.searches, SearchOrder);
    var templates := SortSeq(st.templates, TemplateOrder);
    data := Backup(BACKUP_VERSION, now, monitors, rules, st.channels, searches, templates);
  }

  // ----- every rule is exported once -----

  function OwnedBy(rules: seq<Rule>, monitors: seq<Monitor>): seq<Rule> {
    if rules == [] then []
    else
      var last := rules[|rules| - 1];
      OwnedBy(rules[..|rules| - 1], monitors) + (if last.monitorId in MonitorIds(monitors) then [last] else [])
  }

  lemma {:induction false} OwnedByOneMore(rules: seq<Rule>, monitors: seq<Monitor>)
    requires monitors != [] && Distinct(MonitorIds(monitors))
    ensures
      var n := |monitors| - 1;
      multiset(OwnedBy(rules, monitors)) ==
      multiset(OwnedBy(rules, monitors[..n])) + multiset(RulesOf(rules, monitors[n].id))
  {
    if rules != [] {
      var n := |monitors| - 1;
      OwnedByOneMore(rules[..|rules| - 1], monitors);
      var id := rules[|rules| - 1].monitorId;
      assert MonitorIds(monitors) == MonitorIds(monitors[..n]) + [monitors[n].id];
      LastIsNew(MonitorIds(monitors));
      assert id in MonitorIds(monitors) <==> id in MonitorIds(monitors[..n]) || id == monitors[n].id;
    }
  }

  lemma LastIsNew(ids: seq<Id>)
    requires ids != [] && Distinct(ids)
    ensures ids[|ids| - 1] !in ids[..|ids| - 1]
  {
  }

  lemma {:induction false} GroupingKeepsOwned(monitors: seq<Monitor>, rules: seq<Rule>)
    requires Distinct(MonitorIds(monitors))
    ensures multiset(RulesByMonitor(monitors, rules)) == multiset(OwnedBy(rules, monitors))
  {
    if monitors == [] {
      NoneOwned(rules);
    } else {
      var n := |monitors| - 1;
      assert MonitorIds(monitors[..n]) == MonitorIds(monitors)[..n];
      GroupingKeepsOwned(monitors[..n], rules);
      OwnedByOneMore(rules, monitors);
    }
  }

  lemma {:induction false} NoneOwned(rules: seq<Rule>)
    ensures OwnedBy(rules, []) == []
  {
    if rules != [] { NoneOwned(rules[..|rules| - 1]); }
  }

  lemma {:induction false} AllOwned(rules: seq<Rule>, monitors: seq<Monitor>)
    requires OwnersOk(rules, MonitorIds(monitors))
    ensures OwnedBy(rules, monitors) == rules
  {
    if rules != [] {
      var n := |rules| - 1;
      forall i | 0 <= i < n ensures rules[..n][i].monitorId in MonitorIds(monitors) { assert rules[..n][i] == rules[i]; }
      AllOwned(rules[..n], monitors);
      assert rules == rules[..n] + [rules[n]] && rules[n].monitorId in MonitorIds(monitors);
    }
  }

  lemma ConsistentMonitors(db: Database)
    requires Consistent(db)
    ensures Distinct(MonitorIds(db.monitors)) && OwnersOk(db.rules, MonitorIds(db.monitors))
  {
  }

  /** Grouping by monitor exports each rule of a live monitor exactly once, and no other. */
  lemma EveryRuleIsExported(db: Database)
    requires Consistent(db)
    ensures multiset(RulesByMonitor(LiveRows(db.monitors), db.rules)) == multiset(OwnedBy(db.rules, LiveRows(db.monitors)))
  {
    ConsistentMonitors(db);
    LiveRowsIn(db.monitors);
    GroupingKeepsOwned(LiveRows(db.monitors), db.rules);
  }

  lemma {:induction false} AllLive(rows: seq<Monitor>)
    requires forall i :: 0 <= i < |rows| ==> Live(rows[i])
    ensures LiveRows(rows) == rows
  {
    if rows != [] {
      AllLive(rows[..|rows| - 1]);
      assert rows == rows[..|rows| - 1] + [rows[|rows| - 1]];
    }
  }

  /** With no soft-deleted monitor, every rule is exported. */
  lemma AllRulesAreExported(db: Database)
    requires Consistent(db) && forall i :: 0 <= i < |db.monitors| ==> Live(db.monitors[i])
    ensures LiveRows(db.monitors) == db.monitors
    ensures multiset(RulesByMonitor(db.monitors, db.rules)) == multiset(db.rules)
  {
    ConsistentMonitors(db);
    AllLive(db.monitors);
    GroupingKeepsOwned(db.monitors, db.rules);
    AllOwned(db.rules, db.monitors);
  }

  // ----- the export in order -----

  /** Rules by owner, then by id. */
  predicate RuleBefore(a: Rule, b: Rule) {
    a.monitorId < b.monitorId || (a.monitorId == b.monitorId && a.id < b.id)
  }

  predicate InRuleOrder(rules: seq<Rule>) {
    forall i, j :: 0 <= i < j < |rules| ==> RuleBefore(rules[i], rules[j])
  }

  predicate RuleIdsAscend(rules: seq<Rule>) {
    forall i, j :: 0 <= i < j < |rules| ==> rules[i].id < rules[j].id
  }

  lemma {:induction false} RulesOfOne(rules: seq<Rule>, monitorId: Id)
    requires RuleIdsAscend(rules)
    ensures InRuleOrder(RulesOf(rules, monitorId))
    ensures forall r :: r in RulesOf(rules, monitorId) <==> r in rules && r.monitorId == monitorId
  {
    if rules != [] {
      var n := |rules| - 1;
      RulesOfOne(rules[..n], monitorId);
      assert rules == rules[..n] + [rules[n]];
      forall r | r in RulesOf(rules[..n], monitorId) ensures r.id < rules[n].id { assert r in rules[..n]; }
    }
  }

  lemma {:induction false} RulesGrouped(monitors: seq<Monitor>, rules: seq<Rule>)
    requires RuleIdsAscend(rules) && Ascending(MonitorIds(monitors))
    ensures InRuleOrder(RulesByMonitor(monitors, rules))
    ensures forall r :: r in RulesByMonitor(monitors, rules) <==> r in rules && r.monitorId in MonitorIds(monitors)
  {
    if monitors != [] {
      var n := |monitors| - 1;
      assert MonitorIds(monitors) == MonitorIds(monitors[..n]) + [monitors[n].id];
      RulesGrouped(monitors[..n], rules);
      RulesOfOne(rules, monitors[n].id);
      var before, own := RulesByMonitor(monitors[..n], rules), RulesOf(rules, monitors[n].id);
      forall i, j | 0 <= i < |before| && 0 <= j < |own| ensures RuleBefore(before[i], own[j]) {
        assert before[i] in before && own[j] in own;
      }
    }
  }

  lemma {:induction false} LiveAscend(rows: seq<Monitor>)
    requires Ascending(MonitorIds(rows))
    ensures Ascending(MonitorIds(LiveRows(rows)))
    ensures forall m :: m in LiveRows(rows) <==> m in rows && m.deletedAt == None
  {
    if rows != [] {
      var n := |rows| - 1;
      assert rows == rows[..n] + [rows[n]] && MonitorIds(rows[..n]) == MonitorIds(rows)[..n];
      LiveAscend(rows[..n]);
      var live := LiveRows(rows[..n]);
      forall i | 0 <= i < |live| ensures live[i].id < rows[n].id {
        assert live[i] in rows[..n];
        var k :| 0 <= k < n && rows[k] == live[i];
        assert MonitorIds(rows)[k] < MonitorIds(rows)[n];
      }
    }
  }

  /** An export, table by table: the channels; the monitors that are not deleted, by id; their rules, by
      owner and id; the searches and the templates by name. */
  lemma ExportedContents(db: Database, now: Timestamp, data: Backup)
    requires Consistent(db) && IsExport(db, now, data)
    ensures data.version == 1 && data.createdAt == now && data.channels == db.channels
    ensures forall m :: m in data.monitors <==> m in db.monitors && m.deletedAt == None
    ensures forall i, j :: 0 <= i < j < |data.monitors| ==> data.monitors[i].id < data.monitors[j].id
    ensures forall r :: r in data.rules <==> r in db.rules && exists m :: m in data.monitors && m.id == r.monitorId
    ensures forall i, j :: 0 <= i < j < |data.rules| ==>
              var a, b := data.rules[i], data.rules[j];
              a.monitorId < b.monitorId || (a.monitorId == b.monitorId && a.id < b.id)
    ensures multiset(data.searches) == multiset(db.searches) && multiset(data.templates) == multiset(db.templates)
    ensures forall i, j :: 0 <= i < j < |data.searches| ==> LexLe(data.searches[i].name, data.searches[j].name)
    ensures forall i, j :: 0 <= i < j < |data.templates| ==> LexLe(data.templates[i].fields.name, data.templates[j].fields.name)
  {
    LiveAscend(db.monitors);
    forall i, j | 0 <= i < j < |db.rules| ensures db.rules[i].id < db.rules[j].id {
      assert RuleIds(db.rules)[i] < RuleIds(db.rules)[j];
    }
    RulesGrouped(data.monitors, db.rules);
    forall i, j | 0 <= i < j < |data.monitors| ensures data.monitors[i].id < data.monitors[j].id {
      assert MonitorIds(data.monitors)[i] < MonitorIds(data.monitors)[j];
    }
    forall id ensures id in MonitorIds(data.monitors) <==> exists m :: m in data.monitors && m.id == id {
      if m :| m in data.monitors && m.id == id {
        var k :| 0 <= k < |data.monitors| && data.monitors[k] == m;
        assert MonitorIds(data.monitors)[k] == id;
      }
    }
    assert InRuleOrder(data.rules);
  }
}
