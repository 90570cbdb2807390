/** Resolution of a caller's provider groups to workspace grants. */
module Groups {
  import opened Wrappers
  import opened Roles
  import Text

  datatype Rule = Rule(group: string, workspace: string, role: Role)

  datatype Grant = Grant(workspace: string, role: Role)

  datatype Resolution = Resolution(workspace: string, role: Role, grants: seq<Grant>)

  /** The group names a rule can match: trimmed, and not blank. */
  function Present(groups: seq<string>): set<string> {
    set g | g in groups && Text.TrimSpace(g) != "" :: Text.TrimSpace(g)
  }

  // ----- the declared precedence -----

  predicate Matches(present: set<string>, rules: seq<Rule>, i: nat) {
    i < |rules| && rules[i].group in present
  }

  /** The first matching rule of a workspace, or |rules|. */
  function FirstMatch(present: set<string>, rules: seq<Rule>, workspace: string): (i: nat)
    ensures i <= |rules|
    ensures i < |rules| ==> Matches(present, rules, i) && rules[i].workspace == workspace
    ensures forall j: nat :: j < i && Matches(present, rules, j) ==> rules[j].workspace != workspace
  {
    if rules == [] then 0
    else
      var n := |rules| - 1;
      var i := FirstMatch(present, rules[..n], workspace);
      assert forall j: nat :: j < n ==> Matches(present, rules, j) == Matches(present, rules[..n], j);
      if i < n || (rules[n].group in present && rules[n].workspace == workspace) then i else n + 1
  }

  predicate Covers(g: Grant, rule: Rule) {
    g.workspace == rule.workspace && AtLeast(g.role, rule.role)
  }

  /** Some grant covers the rule. */
  predicate Granted(grants: seq<Grant>, rule: Rule) {
    exists k :: 0 <= k < |grants| && Covers(grants[k], rule)
  }

  /** Some matching rule gives exactly this grant. */
  ghost predicate Justified(present: set<string>, rules: seq<Rule>, g: Grant) {
    exists i: nat :: Matches(present, rules, i) && Grant(rules[i].workspace, rules[i].role) == g
  }

  predicate Precedes(present: set<string>, rules: seq<Rule>, w1: string, w2: string) {
    FirstMatch(present, rules, w1) < FirstMatch(present, rules, w2)
  }

  /** One grant per matching workspace, carrying the highest matching role and taking the place of
      the workspace's first matching rule. */
  ghost predicate AreGrants(present: set<string>, rules: seq<Rule>, grants: seq<Grant>) {
    && (forall i: nat {:trigger Granted(grants, rules[i])} :: Matches(present, rules, i) ==> Granted(grants, rules[i]))
    && (forall k {:trigger Justified(present, rules, grants[k])} :: 0 <= k < |grants| ==> Justified(present, rules, grants[k]))
    && (forall j, k {:trigger Precedes(present, rules, grants[j].workspace, grants[k].workspace)} ::
          0 <= j < k < |grants| ==> Precedes(present, rules, grants[j].workspace, grants[k].workspace))
  }

  /** Grant `k` has the highest role of all, and no earlier grant has it. */
  predicate IsPrimary(grants: seq<Grant>, k: nat) {
    && k < |grants|
    && (forall j :: 0 <= j < |grants| ==> AtLeast(grants[k].role, grants[j].role))
    && (forall j :: 0 <= j < k ==> !AtLeast(grants[j].role, grants[k].role))
  }

  ghost predicate IsResolution(groups: seq<string>, rules: seq<Rule>, r: Option<Resolution>) {
    var present := Present(groups);
    match r
    case None => forall i: nat :: !Matches(present, rules, i)
    case Some(res) =>
      && AreGrants(present, rules, res.grants)
      && exists k: nat :: IsPrimary(res.grants, k) && res.grants[k] == Grant(res.workspace, res.role)
  }

  // ----- the computation -----

  /** Position of the grant of a workspace, or |grants|. */
  function IndexOf(grants: seq<Grant>, workspace: string): (k: nat)
    ensures k <= |grants|
    ensures k < |grants| ==> grants[k].workspace == workspace
    ensures forall j :: 0 <= j < k ==> grants[j].workspace != workspace
  {
    if grants == [] || grants[0].workspace == workspace then 0 else 1 + IndexOf(grants[1..], workspace)
  }

  function AddRule(grants: seq<Grant>, rule: Rule): seq<Grant> {
    var k := IndexOf(grants, rule.workspace);
    if k == |grants| then grants + [Grant(rule.workspace, rule.role)]
    else if AtLeast(rule.role, grants[k].role) then grants[k := Grant(rule.workspace, rule.role)]
    else grants
  }

  function GrantsOf(present: set<string>, rules: seq<Rule>): seq<Grant> {
    if rules == [] then []
    else
      var before, last := GrantsOf(present, rules[..|rules| - 1]), rules[|rules| - 1];
      if last.group in present then AddRule(before, last) else before
  }

  function BestIndex(grants: seq<Grant>): (k: nat)
    requires grants != []
    ensures k < |grants|
  {
    if |grants| == 1 then 0
    else
      var k := BestIndex(grants[..|grants| - 1]);
      if AtLeast(grants[|grants| - 1].role, grants[k].role) && !AtLeast(grants[k].role, grants[|grants| - 1].role)
      then |grants| - 1 else k
  }

  function Resolve(groups: seq<string>, rules: seq<Rule>): Option<Resolution> {
    var grants := GrantsOf(Present(groups), rules);
    if grants == [] then None
    else var best := grants[BestIndex(grants)]; Some(Resolution(best.workspace, best.role, grants))
  }

  /** resolveGroupMappings, its three loops each in a method of its own. */
  method ResolveGroupMappings(groups: seq<string>, rules: seq<Rule>) returns (r: Option<Resolution>)
    ensures r == Resolve(groups, rules)
  {
    if |groups| == 0 || |rules| == 0 {
      assert |groups| == 0 ==> Present(groups) == {};
      NoneResolves(rules);
      return None;
    }
    var present := CollectGroups(groups);
    if |present| == 0 {
      NoneResolves(rules);
      return None;
    }
    var grants := CollectGrants(present, rules);
    if |grants| == 0 {
      return None;
    }
    var best := PickBest(grants);
    return Some(Resolution(best.workspace, best.role, grants));
  }

  method CollectGroups(groups: seq<string>) returns (present: set<string>)
    ensures present == Present(groups)
  {
    present := {};
    for i := 0 to |groups|
      invariant present == Present(groups[..i])
    {
      var g := Text.TrimSpace(groups[i]);
      if g != "" {
        present := present + {g};
      }
    }
    assert groups[..|groups|] == groups;
  }

  method CollectGrants(present: set<string>, rules: seq<Rule>) returns (grants: seq<Grant>)
    ensures grants == GrantsOf(present, rules)
  {
    grants := [];
    var grantIdx: map<string, nat> := map[];
    for i := 0 to |rules|
      invariant grants == GrantsOf(present, rules[..i])
      invariant forall w :: w in grantIdx ==> grantIdx[w] < |grants| && grants[grantIdx[w]].workspace == w
      invariant forall k :: 0 <= k < |grants| ==> grants[k].workspace in grantIdx && grantIdx[grants[k].workspace] == k
    {
      assert rules[..i + 1][..i] == rules[..i];
      var rule := rules[i];
      if rule.group in present {
        if rule.workspace in grantIdx {
          var idx := grantIdx[rule.workspace];
          if AtLeast(rule.role, grants[idx].role) {
            grants := grants[idx := Grant(grants[idx].workspace, rule.role)];
          }
        } else {
          grantIdx := grantIdx[rule.workspace := |grants|];
          grants := grants + [Grant(rule.workspace, rule.role)];
        }
      }
    }
    assert rules[..|rules|] == rules;
  }

  method PickBest(grants: seq<Grant>) returns (best: Grant)
    requires grants != []
    ensures best == grants[BestIndex(grants)]
  {
    best := grants[0];
    for i := 1 to |grants|
      invariant best == grants[..i][BestIndex(grants[..i])]
    {
      assert grants[..i + 1][..i] == grants[..i];
      if AtLeast(grants[i].role, best.role) && !AtLeast(best.role, grants[i].role) {
        best := grants[i];
      }
    }
    assert grants[..|grants|] == grants;
  }

  lemma {:induction false} NoneResolves(rules: seq<Rule>)
    ensures GrantsOf({}, rules) == []
  {
    if rules != [] {
      NoneResolves(rules[..|rules| - 1]);
    }
  }

  // ----- the computation meets the precedence, which determines its result -----

  lemma {:induction false} GrantsMeetSpec(present: set<string>, rules: seq<Rule>)
    ensures AreGrants(present, rules, GrantsOf(present, rules))
  {
    if rules != [] {
      GrantsMeetSpec(present, rules[..|rules| - 1]);
      if rules[|rules| - 1].group in present {
        MatchingRuleKeepsSpec(present, rules);
      } else {
        OtherRuleKeepsSpec(present, rules);
      }
    }
  }

  lemma PrefixMatches(present: set<string>, rules: seq<Rule>)
    requires rules != []
    ensures forall i: nat :: i < |rules| - 1 ==> Matches(present, rules, i) == Matches(present, rules[..|rules| - 1], i)
  {
  }

  lemma AddRuleCovers(grants: seq<Grant>, rule: Rule, other: Rule)
    ensures Granted(AddRule(grants, rule), rule)
    ensures Granted(grants, other) ==> Granted(AddRule(grants, rule), other)
  {
    var after := AddRule(grants, rule);
    assert Covers(after[IndexOf(grants, rule.workspace)], rule);
    if k :| 0 <= k < |grants| && Covers(grants[k], other) {
      assert Covers(after[k], other);
    }
  }

  lemma PrefixJustifies(present: set<string>, rules: seq<Rule>, g: Grant)
    requires rules != [] && Justified(present, rules[..|rules| - 1], g)
    ensures Justified(present, rules, g)
    ensures FirstMatch(present, rules, g.workspace) == FirstMatch(present, rules[..|rules| - 1], g.workspace) < |rules| - 1
  {
  }

  lemma OtherRuleKeepsSpec(present: set<string>, rules: seq<Rule>)
    requires rules != [] && rules[|rules| - 1].group !in present
    requires AreGrants(present, rules[..|rules| - 1], GrantsOf(present, rules[..|rules| - 1]))
    ensures AreGrants(present, rules, GrantsOf(present, rules))
  {
    PrefixMatches(present, rules);
    var grants := GrantsOf(present, rules);
    forall k | 0 <= k < |grants| ensures Justified(present, rules, grants[k]) {
      PrefixJustifies(present, rules, grants[k]);
    }
    forall j, k | 0 <= j < k < |grants| ensures Precedes(present, rules, grants[j].workspace, grants[k].workspace) {
      PrefixJustifies(present, rules, grants[j]);
      PrefixJustifies(present, rules, grants[k]);
      assert Precedes(present, rules[..|rules| - 1], grants[j].workspace, grants[k].workspace);
    }
  }

  lemma MatchingRuleCovers(present: set<string>, rules: seq<Rule>)
    requires rules != [] && rules[|rules| - 1].group in present
    requires AreGrants(present, rules[..|rules| - 1], GrantsOf(present, rules[..|rules| - 1]))
    ensures forall i: nat :: Matches(present, rules, i) ==> Granted(GrantsOf(present, rules), rules[i])
  {
    PrefixMatches(present, rules);
    forall i: nat | Matches(present, rules, i) ensures Granted(GrantsOf(present, rules), rules[i]) {
      AddRuleCovers(GrantsOf(present, rules[..|rules| - 1]), rules[|rules| - 1], rules[i]);
      if i < |rules| - 1 {
        assert Matches(present, rules[..|rules| - 1], i);
      }
    }
  }

  lemma MatchingRuleJustifies(present: set<string>, rules: seq<Rule>, k: nat)
    requires rules != [] && rules[|rules| - 1].group in present
    requires AreGrants(present, rules[..|rules| - 1], GrantsOf(present, rules[..|rules| - 1]))
    requires k < |GrantsOf(present, rules)|
    ensures Justified(present, rules, GrantsOf(present, rules)[k])
  {
    var n := |rules| - 1;
    var before, grants := GrantsOf(present, rules[..n]), GrantsOf(present, rules);
    assert Matches(present, rules, n);
    if k < |before| && grants[k] == before[k] {
      PrefixJustifies(present, rules, before[k]);
    } else {
      assert Grant(rules[n].workspace, rules[n].role) == grants[k];
    }
  }

  lemma MatchedWorkspaceHasGrant(present: set<string>, rules: seq<Rule>, grants: seq<Grant>, w: string)
    requires AreGrants(present, rules, grants)
    requires FirstMatch(present, rules, w) < |rules|
    ensures IndexOf(grants, w) < |grants|
  {
    assert Granted(grants, rules[FirstMatch(present, rules, w)]);
  }

  lemma OldGrantKeepsPlace(present: set<string>, rules: seq<Rule>, k: nat)
    requires rules != [] && AreGrants(present, rules[..|rules| - 1], GrantsOf(present, rules[..|rules| - 1]))
    requires k < |GrantsOf(present, rules[..|rules| - 1])|
    ensures
      var w := GrantsOf(present, rules[..|rules| - 1])[k].workspace;
      FirstMatch(present, rules, w) == FirstMatch(present, rules[..|rules| - 1], w) < |rules| - 1
  {
    assert Justified(present, rules[..|rules| - 1], GrantsOf(present, rules[..|rules| - 1])[k]);
    PrefixJustifies(present, rules, GrantsOf(present, rules[..|rules| - 1])[k]);
  }

  lemma NewGrantComesLast(present: set<string>, rules: seq<Rule>)
    requires rules != [] && rules[|rules| - 1].group in present
    requires AreGrants(present, rules[..|rules| - 1], GrantsOf(present, rules[..|rules| - 1]))
    requires IndexOf(GrantsOf(present, rules[..|rules| - 1]), rules[|rules| - 1].workspace) == |GrantsOf(present, rules[..|rules| - 1])|
    ensures FirstMatch(present, rules, rules[|rules| - 1].workspace) == |rules| - 1
  {
    var n := |rules| - 1;
    if FirstMatch(present, rules[..n], rules[n].workspace) < n {
      MatchedWorkspaceHasGrant(present, rules[..n], GrantsOf(present, rules[..n]), rules[n].workspace);
    }
  }

  lemma AddRuleWorkspaces(grants: seq<Grant>, rule: Rule)
    ensures |grants| <= |AddRule(grants, rule)| <= |grants| + 1
    ensures forall k :: 0 <= k < |grants| ==> AddRule(grants, rule)[k].workspace == grants[k].workspace
    ensures |AddRule(grants, rule)| > |grants| ==>
              IndexOf(grants, rule.workspace) == |grants| && AddRule(grants, rule)[|grants|].workspace == rule.workspace
  {
  }

  lemma OldGrantsKeepOrder(present: set<string>, rules: seq<Rule>, j: nat, k: nat)
    requires rules != [] && AreGrants(present, rules[..|rules| - 1], GrantsOf(present, rules[..|rules| - 1]))
    requires j < k < |GrantsOf(present, rules[..|rules| - 1])|
    ensures
      var before := GrantsOf(present, rules[..|rules| - 1]);
      Precedes(present, rules, before[j].workspace, before[k].workspace)
  {
    var before := GrantsOf(present, rules[..|rules| - 1]);
    assert Precedes(present, rules[..|rules| - 1], before[j].workspace, before[k].workspace);
    OldGrantKeepsPlace(present, rules, j);
    OldGrantKeepsPlace(present, rules, k);
  }

  lemma MatchingRuleKeepsOrder(present: set<string>, rules: seq<Rule>, j: nat, k: nat)
    requires rules != [] && rules[|rules| - 1].group in present
    requires AreGrants(present, rules[..|rules| - 1], GrantsOf(present, rules[..|rules| - 1]))
    requires j < k < |AddRule(GrantsOf(present, rules[..|rules| - 1]), rules[|rules| - 1])|
    ensures
      var grants := AddRule(GrantsOf(present, rules[..|rules| - 1]), rules[|rules| - 1]);
      Precedes(present, rules, grants[j].workspace, grants[k].workspace)
  {
    var before := GrantsOf(present, rules[..|rules| - 1]);
    AddRuleWorkspaces(before, rules[|rules| - 1]);
    if k < |before| {
      OldGrantsKeepOrder(present, rules, j, k);
    } else {
      OldGrantKeepsPlace(present, rules, j);
      NewGrantComesLast(present, rules);
    }
  }

  lemma MatchingRuleKeepsSpec(present: set<string>, rules: seq<Rule>)
    requires rules != [] && rules[|rules| - 1].group in present
    requires AreGrants(present, rules[..|rules| - 1], GrantsOf(present, rules[..|rules| - 1]))
    ensures AreGrants(present, rules, GrantsOf(present, rules))
  {
    var grants := GrantsOf(present, rules);
    MatchingRuleCovers(present, rules);
    forall k | 0 <= k < |grants| ensures Justified(present, rules, grants[k]) { MatchingRuleJustifies(present, rules, k); }
    forall j, k | 0 <= j < k < |grants|
      ensures Precedes(present, rules, grants[j].workspace, grants[k].workspace)
    {
      MatchingRuleKeepsOrder(present, rules, j, k);
    }
  }

  lemma {:induction false} BestIsPrimary(grants: seq<Grant>)
    requires grants != []
    ensures IsPrimary(grants, BestIndex(grants))
  {
    if |grants| > 1 {
      BestIsPrimary(grants[..|grants| - 1]);
    }
  }

  /** The computed resolution is the one the documented precedence describes. */
  lemma ResolveMeetsSpec(groups: seq<string>, rules: seq<Rule>)
    ensures IsResolution(groups, rules, Resolve(groups, rules))
  {
    var present := Present(groups);
    var grants := GrantsOf(present, rules);
    GrantsMeetSpec(present, rules);
    if grants == [] {
      forall i: nat ensures !Matches(present, rules, i) {
        assert Matches(present, rules, i) ==> Granted(grants, rules[i]);
      }
    } else {
      BestIsPrimary(grants);
    }
  }

  /** A caller in a rule's group signs in with no less than the rule's role, and holds no less in the
      rule's workspace: a matching Admin rule makes the primary role Admin. */
  lemma MatchingRoleIsHeld(groups: seq<string>, rules: seq<Rule>, i: nat, g: string)
    requires i < |rules| && g in groups && Text.TrimSpace(g) == rules[i].group && rules[i].group != ""
    ensures Resolve(groups, rules).Some?
    ensures
      var res := Resolve(groups, rules).value;
      && NoLower(res.role, rules[i].role)
      && exists k :: 0 <= k < |res.grants| && res.grants[k].workspace == rules[i].workspace &&
                     NoLower(res.grants[k].role, rules[i].role)
  {
    assert Matches(Present(groups), rules, i);
    ResolveMeetsSpec(groups, rules);
    GrantIsHeld(Present(groups), rules, Resolve(groups, rules).value, i);
  }

  /** Rule `i` names one of the groups, spaces around it aside. */
  ghost predicate Names(groups: seq<string>, rules: seq<Rule>, i: nat) {
    i < |rules| && rules[i].group != "" && exists g :: g in groups && Text.TrimSpace(g) == rules[i].group
  }

  /** A caller is resolved exactly when some rule names one of their groups, and holds nothing but what
      such rules give. */
  lemma ResolutionIsJustified(groups: seq<string>, rules: seq<Rule>)
    ensures Resolve(groups, rules).Some? <==> exists i: nat :: Names(groups, rules, i)
    ensures Resolve(groups, rules).Some? ==>
              forall k {:trigger Resolve(groups, rules).value.grants[k]} :: 0 <= k < |Resolve(groups, rules).value.grants| ==>
                exists i: nat :: Names(groups, rules, i) &&
                                 Grant(rules[i].workspace, rules[i].role) == Resolve(groups, rules).value.grants[k]
  {
    var present := Present(groups);
    forall i: nat ensures Names(groups, rules, i) <==> Matches(present, rules, i) {}
    ResolveMeetsSpec(groups, rules);
    if Resolve(groups, rules).Some? {
      var res := Resolve(groups, rules).value;
      forall k | 0 <= k < |res.grants|
        ensures exists i: nat :: Names(groups, rules, i) && Grant(rules[i].workspace, rules[i].role) == res.grants[k]
      {
        assert Justified(present, rules, res.grants[k]);
        var i: nat :| Matches(present, rules, i) && Grant(rules[i].workspace, rules[i].role) == res.grants[k];
        assert Names(groups, rules, i);
      }
      assert |res.grants| > 0 && Justified(present, rules, res.grants[0]);
    }
  }

  lemma GrantIsHeld(present: set<string>, rules: seq<Rule>, res: Resolution, i: nat)
    requires AreGrants(present, rules, res.grants) && Matches(present, rules, i)
    requires exists k: nat :: IsPrimary(res.grants, k) && res.grants[k] == Grant(res.workspace, res.role)
    ensures NoLower(res.role, rules[i].role)
    ensures exists k :: 0 <= k < |res.grants| && res.grants[k].workspace == rules[i].workspace &&
                        NoLower(res.grants[k].role, rules[i].role)
  {
    assert Granted(res.grants, rules[i]);
    var k :| 0 <= k < |res.grants| && Covers(res.grants[k], rules[i]);
    RanksInOrder(res.grants[k].role, rules[i].role);
    RanksInOrder(res.role, rules[i].role);
  }

  lemma GrantOrder(present: set<string>, rules: seq<Rule>, grants: seq<Grant>, j: nat, k: nat)
    requires AreGrants(present, rules, grants) && j < k < |grants|
    ensures Precedes(present, rules, grants[j].workspace, grants[k].workspace)
  {
  }

  /** A workspace granted by one list that meets the spec is granted, no lower, by any other. */
  lemma OtherListGrants(present: set<string>, rules: seq<Rule>, g1: seq<Grant>, g2: seq<Grant>, k: nat) returns (m: nat)
    requires AreGrants(present, rules, g1) && AreGrants(present, rules, g2) && k < |g1|
    ensures m < |g2| && g2[m].workspace == g1[k].workspace && AtLeast(g2[m].role, g1[k].role)
    ensures FirstMatch(present, rules, g1[k].workspace) < |rules|
  {
    assert Justified(present, rules, g1[k]);
    var i: nat :| Matches(present, rules, i) && Grant(rules[i].workspace, rules[i].role) == g1[k];
    assert Granted(g2, rules[i]);
    m :| 0 <= m < |g2| && Covers(g2[m], rules[i]);
  }

  /** Grants that agree below position `k` cannot place a workspace of the other list later. */
  lemma NotLater(present: set<string>, rules: seq<Rule>, g1: seq<Grant>, g2: seq<Grant>, k: nat)
    requires AreGrants(present, rules, g1) && AreGrants(present, rules, g2) && k < |g1| && k <= |g2|
    requires forall j :: 0 <= j < k ==> g1[j].workspace == g2[j].workspace
    ensures k < |g2|
    ensures FirstMatch(present, rules, g2[k].workspace) <= FirstMatch(present, rules, g1[k].workspace) < |rules|
  {
    var m := OtherListGrants(present, rules, g1, g2, k);
    if m < k {
      GrantOrder(present, rules, g1, m, k);
    } else if k < m {
      GrantOrder(present, rules, g2, k, m);
    }
  }

  lemma {:induction false} SameWorkspaces(present: set<string>, rules: seq<Rule>, g1: seq<Grant>, g2: seq<Grant>, k: nat)
    requires AreGrants(present, rules, g1) && AreGrants(present, rules, g2)
    requires k <= |g1| && k <= |g2|
    ensures forall j :: 0 <= j < k ==> g1[j].workspace == g2[j].workspace
  {
    if k > 0 {
      SameWorkspaces(present, rules, g1, g2, k - 1);
      NotLater(present, rules, g1, g2, k - 1);
      NotLater(present, rules, g2, g1, k - 1);
    }
  }

  /** The precedence determines the grant list, roles and order included. */
  lemma GrantsAreDetermined(present: set<string>, rules: seq<Rule>, g1: seq<Grant>, g2: seq<Grant>)
    requires AreGrants(present, rules, g1) && AreGrants(present, rules, g2)
    ensures g1 == g2
  {
    var n := if |g1| <= |g2| then |g1| else |g2|;
    SameWorkspaces(present, rules, g1, g2, n);
    if n < |g1| {
      NotLater(present, rules, g1, g2, n);
    }
    if n < |g2| {
      NotLater(present, rules, g2, g1, n);
    }
    forall k | 0 <= k < n ensures g1[k] == g2[k] {
      RoleNoLower(present, rules, g1, g2, k);
      RoleNoLower(present, rules, g2, g1, k);
    }
  }

  lemma RoleNoLower(present: set<string>, rules: seq<Rule>, g1: seq<Grant>, g2: seq<Grant>, k: nat)
    requires AreGrants(present, rules, g1) && AreGrants(present, rules, g2) && k < |g1| && k < |g2|
    requires g1[k].workspace == g2[k].workspace
    ensures AtLeast(g2[k].role, g1[k].role)
  {
    var m := OtherListGrants(present, rules, g1, g2, k);
    if m < k {
      GrantOrder(present, rules, g2, m, k);
    } else if k < m {
      GrantOrder(present, rules, g2, k, m);
    }
  }

  lemma PrimaryIsDetermined(grants: seq<Grant>, j: nat, k: nat)
    requires IsPrimary(grants, j) && IsPrimary(grants, k)
    ensures j == k
  {
    assert AtLeast(grants[j].role, grants[k].role) && AtLeast(grants[k].role, grants[j].role);
  }

  /** The computation returns a value exactly when the documented precedence describes it. */
  lemma ResolveIffSpec(groups: seq<string>, rules: seq<Rule>, r: Option<Resolution>)
    ensures r == Resolve(groups, rules) <==> IsResolution(groups, rules, r)
  {
    var expected := Resolve(groups, rules);
    ResolveMeetsSpec(groups, rules);
    if IsResolution(groups, rules, r) {
      SpecIsDetermined(groups, rules, r, expected);
    }
  }

  lemma SpecIsDetermined(groups: seq<string>, rules: seq<Rule>, r1: Option<Resolution>, r2: Option<Resolution>)
    requires IsResolution(groups, rules, r1) && IsResolution(groups, rules, r2)
    ensures r1 == r2
  {
    SomeHasMatch(groups, rules, r1);
    SomeHasMatch(groups, rules, r2);
    if r1.Some? && r2.Some? {
      GrantsAreDetermined(Present(groups), rules, r1.value.grants, r2.value.grants);
      var j: nat :| IsPrimary(r1.value.grants, j) && r1.value.grants[j] == Grant(r1.value.workspace, r1.value.role);
      var k: nat :| IsPrimary(r2.value.grants, k) && r2.value.grants[k] == Grant(r2.value.workspace, r2.value.role);
      PrimaryIsDetermined(r1.value.grants, j, k);
    }
  }

  lemma SomeHasMatch(groups: seq<string>, rules: seq<Rule>, r: Option<Resolution>)
    requires IsResolution(groups, rules, r)
    ensures r.Some? <==> exists i: nat :: Matches(Present(groups), rules, i)
  {
    if r.Some? {
      var k: nat :| IsPrimary(r.value.grants, k);
      assert Justified(Present(groups), rules, r.value.grants[k]);
    }
  }

  /** Only which groups the caller has matters, not their order or repetition in the token. */
  lemma OrderAndRepetitionIrrelevant(g1: seq<string>, g2: seq<string>, rules: seq<Rule>)
    requires forall g :: g in g1 <==> g in g2
    ensures Resolve(g1, rules) == Resolve(g2, rules)
  {
    assert Present(g1) == Present(g2);
  }

  /** More groups never remove a grant, lower a role or lower the primary role. */
  lemma MoreGroupsNeverLose(g1: seq<string>, g2: seq<string>, rules: seq<Rule>)
    requires forall g :: g in g1 ==> g in g2
    requires Resolve(g1, rules).Some?
    ensures Resolve(g2, rules).Some?
    ensures forall k :: 0 <= k < |Resolve(g1, rules).value.grants| ==>
              HasAtLeast(Resolve(g2, rules).value.grants, Resolve(g1, rules).value.grants[k])
    ensures AtLeast(Resolve(g2, rules).value.role, Resolve(g1, rules).value.role)
  {
    ResolveMeetsSpec(g1, rules);
    ResolveMeetsSpec(g2, rules);
    var p1, p2 := Present(g1), Present(g2);
    var r1 := Resolve(g1, rules).value;
    forall k | 0 <= k < |r1.grants| ensures HasAtLeast(GrantsOf(p2, rules), r1.grants[k]) {
      StillGranted(p1, p2, rules, r1.grants[k]);
    }
    var k: nat :| IsPrimary(r1.grants, k) && r1.grants[k] == Grant(r1.workspace, r1.role);
    assert HasAtLeast(GrantsOf(p2, rules), r1.grants[k]);
    BestIsPrimary(GrantsOf(p2, rules));
  }

  predicate HasAtLeast(grants: seq<Grant>, g: Grant) {
    exists m :: 0 <= m < |grants| && grants[m].workspace == g.workspace && AtLeast(grants[m].role, g.role)
  }

  lemma StillGranted(p1: set<string>, p2: set<string>, rules: seq<Rule>, g: Grant)
    requires p1 <= p2 && Justified(p1, rules, g)
    ensures HasAtLeast(GrantsOf(p2, rules), g)
  {
    GrantsMeetSpec(p2, rules);
    var i: nat :| Matches(p1, rules, i) && Grant(rules[i].workspace, rules[i].role) == g;
    assert Matches(p2, rules, i);
    assert Granted(GrantsOf(p2, rules), rules[i]);
    var m :| 0 <= m < |GrantsOf(p2, rules)| && Covers(GrantsOf(p2, rules)[m], rules[i]);
  }

  // ----- comparing group lists -----

  predicate Tracks(count: map<string, int>, m: multiset<string>) {
    && (forall s :: s in count ==> 0 <= count[s] == m[s])
    && (forall s :: s in m ==> s in count)
  }

  method CountStrings(a: seq<string>) returns (count: map<string, int>)
    ensures Tracks(count, multiset(a))
  {
    count := map[];
    for i := 0 to |a|
      invariant Tracks(count, multiset(a[..i]))
    {
      assert a[..i + 1] == a[..i] + [a[i]];
      count := count[a[i] := (if a[i] in count then count[a[i]] else 0) + 1];
    }
    assert a[..|a|] == a;
  }

  /** sameStringSet: despite its name it compares the lists with their repetitions. */
  method SameStringSet(a: seq<string>, b: seq<string>) returns (same: bool)
    ensures same <==> multiset(a) == multiset(b)
  {
    if |a| != |b| {
      assert |multiset(a)| == |a| && |multiset(b)| == |b|;
      return false;
    }
    var count := CountStrings(a);
    ghost var left := multiset(a);
    for i := 0 to |b|
      invariant left + multiset(b[..i]) == multiset(a)
      invariant Tracks(count, left)
    {
      SplitAt(b, i);
      if b[i] !in count || count[b[i]] == 0 {
        Exceeds(left, multiset(b[..i]), b[i], multiset(b[i + 1..]));
        return false;
      }
      left := left - multiset{b[i]};
      count := count[b[i] := count[b[i]] - 1];
    }
    assert b[..|b|] == b;
    EqualSizesMeanEqual(multiset(a), multiset(b));
    return true;
  }

  lemma SplitAt(b: seq<string>, i: nat)
    requires i < |b|
    ensures multiset(b[..i + 1]) == multiset(b[..i]) + multiset{b[i]}
    ensures multiset(b) == multiset(b[..i]) + multiset{b[i]} + multiset(b[i + 1..])
  {
    assert b[..i + 1] == b[..i] + [b[i]];
    assert b == b[..i] + [b[i]] + b[i + 1..];
  }

  lemma Exceeds(left: multiset<string>, seen: multiset<string>, s: string, rest: multiset<string>)
    requires s !in left
    ensures left + seen != seen + multiset{s} + rest
  {
    assert (left + seen)[s] < (seen + multiset{s} + rest)[s];
  }

  lemma EqualSizesMeanEqual(a: multiset<string>, b: multiset<string>)
    requires b <= a && |a| == |b|
    ensures a == b
  {
    assert a == b + (a - b);
    assert |a| == |b| + |a - b|;
  }
}
