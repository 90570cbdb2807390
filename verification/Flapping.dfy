/** Flap detection: one pass over the sorted alert times of a rule, against a definition of
    episodes that speaks of the whole history and of no particular order. */
module Flapping {
  import opened Sorting
  import opened Counting

  type Time = int

  datatype Config = Config(episodes: int, window: int, quietAfter: int)

  datatype State = State(flapping: bool, episodes: nat, alertCount: nat, currentEpisodeAlerts: nat)

  const MINUTE := 60_000_000_000
  const DEFAULT_EPISODES := 3
  const DEFAULT_WINDOW := 15 * MINUTE
  const DEFAULT_QUIET_AFTER := 2 * MINUTE

  function Effective(c: Config): (e: Config)
    ensures e.episodes > 0 && e.window > 0 && e.quietAfter > 0
  {
    Config(
      if c.episodes <= 0 then DEFAULT_EPISODES else c.episodes,
      if c.window <= 0 then DEFAULT_WINDOW else c.window,
      if c.quietAfter <= 0 then DEFAULT_QUIET_AFTER else c.quietAfter)
  }

  // ----- episodes, by definition -----

  /** Some alert follows `u`, up to `y`, within a quiet period. */
  predicate Followed(alerts: set<Time>, quiet: int, u: Time, y: Time) {
    exists v :: v in alerts && u < v <= y && v - u <= quiet
  }

  /** From each alert between `x` and `y` the next one up to `y` is at most a quiet period away. */
  predicate SameRun(alerts: set<Time>, quiet: int, x: Time, y: Time) {
    forall u {:trigger Followed(alerts, quiet, u, y)} :: u in alerts && x <= u < y ==> Followed(alerts, quiet, u, y)
  }

  predicate Within(t: Time, from: Time, to: Time) {
    from <= t <= to
  }

  /** `s` is the first alert of its run that falls in the window. */
  predicate StartsEpisode(alerts: set<Time>, quiet: int, from: Time, to: Time, s: Time) {
    && Within(s, from, to)
    && forall t {:trigger SameRun(alerts, quiet, t, s)} :: t in alerts && from <= t < s ==> !SameRun(alerts, quiet, t, s)
  }

  /** One element per maximal run of alerts that touches the window. */
  function Episodes(alerts: set<Time>, quiet: int, from: Time, to: Time): set<Time> {
    set s | s in alerts && StartsEpisode(alerts, quiet, from, to, s)
  }

  function Count(xs: seq<Time>, p: Time -> bool): nat {
    if xs == [] then 0 else Count(xs[..|xs| - 1], p) + (if p(xs[|xs| - 1]) then 1 else 0)
  }

  function History(alertTimes: seq<Time>, at: Time): set<Time> {
    set t | t in alertTimes && t <= at
  }

  /** `s` belongs to the run of the latest alert. */
  predicate InLastRun(alerts: set<Time>, quiet: int, s: Time) {
    forall y {:trigger SameRun(alerts, quiet, s, y)} :: y in alerts && s <= y ==> SameRun(alerts, quiet, s, y)
  }

  function WindowCount(xs: seq<Time>, from: Time, to: Time): nat {
    Count(xs, t => Within(t, from, to))
  }

  function LastRunCount(xs: seq<Time>, alerts: set<Time>, quiet: int, from: Time, to: Time): nat {
    Count(xs, t => Within(t, from, to) && InLastRun(alerts, quiet, t))
  }

  /** The flapping state, from the whole history up to `at`. */
  function Reference(alertTimes: seq<Time>, at: Time, config: Config): State {
    var c := Effective(config);
    var alerts, from := History(alertTimes, at), at - c.window;
    var episodes := |Episodes(alerts, c.quietAfter, from, at)|;
    State(
      episodes >= c.episodes,
      episodes,
      WindowCount(alertTimes, from, at),
      LastRunCount(alertTimes, alerts, c.quietAfter, from, at))
  }

  // ----- a run is decided by its last gap -----

  /** No earlier alert in the window is within a quiet period of `s`. */
  predicate Leads(alerts: set<Time>, quiet: int, from: Time, s: Time) {
    forall t :: t in alerts && from <= t < s ==> s - t > quiet
  }

  lemma {:induction false} LargestBelow(alerts: set<Time>, x: Time, y: Time) returns (u: Time)
    requires x in alerts && x < y
    ensures u in alerts && x <= u < y
    ensures forall v :: v in alerts && v < y ==> v <= u
    decreases |alerts|
  {
    u := x;
    if v :| v in alerts && u < v < y {
      var smaller := alerts - {x};
      u := LargestBelow(smaller, v, y);
      assert forall w :: w in alerts ==> w == x || w in smaller;
    }
  }

  lemma SameRunNearEnd(alerts: set<Time>, quiet: int, x: Time, y: Time) returns (u: Time)
    requires x in alerts && x < y && SameRun(alerts, quiet, x, y)
    ensures u in alerts && x <= u < y && y - u <= quiet
  {
    u := LargestBelow(alerts, x, y);
    assert Followed(alerts, quiet, u, y);
    var v :| v in alerts && u < v <= y && v - u <= quiet;
  }

  lemma StartsIffLeads(alerts: set<Time>, quiet: int, from: Time, to: Time, s: Time)
    requires s in alerts
    ensures StartsEpisode(alerts, quiet, from, to, s) <==> Within(s, from, to) && Leads(alerts, quiet, from, s)
  {
    if Within(s, from, to) {
      forall t | t in alerts && from <= t < s && s - t <= quiet ensures SameRun(alerts, quiet, t, s) {
        forall u | u in alerts && t <= u < s ensures Followed(alerts, quiet, u, s) {
          assert s in alerts && s - u <= quiet;
        }
      }
      forall t | t in alerts && from <= t < s && SameRun(alerts, quiet, t, s) ensures !Leads(alerts, quiet, from, s) {
        var u := SameRunNearEnd(alerts, quiet, t, s);
      }
    }
  }

  /** The same episodes, told by the gaps inside the window alone. */
  function Leaders(alerts: set<Time>, quiet: int, from: Time, to: Time): set<Time> {
    set s | s in alerts && Within(s, from, to) && Leads(alerts, quiet, from, s)
  }

  lemma EpisodesAreLeaders(alerts: set<Time>, quiet: int, from: Time, to: Time)
    ensures Episodes(alerts, quiet, from, to) == Leaders(alerts, quiet, from, to)
  {
    forall s | s in alerts
      ensures StartsEpisode(alerts, quiet, from, to, s) <==> Within(s, from, to) && Leads(alerts, quiet, from, s)
    {
      StartsIffLeads(alerts, quiet, from, to, s);
    }
  }

  /** An episode starts at an alert of the window that is more than a quiet period behind every earlier
      one in it. */
  lemma EpisodeStartsIff(alertTimes: seq<Time>, at: Time, quiet: int, from: Time, s: Time)
    ensures s in Episodes(History(alertTimes, at), quiet, from, at) <==>
            s in alertTimes && from <= s <= at && forall t :: t in alertTimes && from <= t < s ==> s - t > quiet
  {
    var alerts := History(alertTimes, at);
    EpisodesAreLeaders(alerts, quiet, from, at);
    assert s <= at ==> forall t :: t < s ==> (t in alertTimes <==> t in alerts);
  }

  lemma {:induction false} CountUpTo(xs: seq<Time>, p: Time -> bool, q: nat -> bool, k: nat)
    requires k <= |xs| && forall i: nat :: i < |xs| ==> q(i) == p(xs[i])
    ensures Count(xs[..k], p) == |set i: nat | i < k && q(i)|
  {
    if k > 0 {
      assert xs[..k][..k - 1] == xs[..k - 1] && xs[..k][k - 1] == xs[k - 1];
      CountUpTo(xs, p, q, k - 1);
      CountNext(q, k - 1);
    }
  }

  /** The alerts in the window are counted one by one, both ends and repetitions included. */
  lemma WindowCountIs(xs: seq<Time>, from: Time, to: Time)
    ensures WindowCount(xs, from, to) == |set i: nat | i < |xs| && from <= xs[i] <= to|
  {
    var q := (i: nat) => i < |xs| && from <= xs[i] <= to;
    CountUpTo(xs, t => Within(t, from, to), q, |xs|);
    assert xs[..|xs|] == xs;
    assert (set i: nat | i < |xs| && q(i)) == set i: nat | i < |xs| && from <= xs[i] <= to;
  }

  // ----- counting -----

  lemma {:induction false} CountRemove(xs: seq<Time>, p: Time -> bool, k: nat)
    requires k < |xs|
    ensures Count(xs, p) == Count(xs[..k] + xs[k + 1..], p) + (if p(xs[k]) then 1 else 0)
  {
    var n := |xs| - 1;
    var without := xs[..k] + xs[k + 1..];
    if k < n {
      CountRemove(xs[..n], p, k);
      assert without[..n - 1] == xs[..n][..k] + xs[..n][k + 1..];
    } else {
      assert without == xs[..n];
    }
  }

  lemma RemoveFromMultiset(xs: seq<Time>, k: nat)
    requires k < |xs|
    ensures multiset(xs[..k] + xs[k + 1..]) == multiset(xs) - multiset{xs[k]}
  {
    assert xs == xs[..k] + [xs[k]] + xs[k + 1..];
  }

  /** Counting does not depend on the order of the alerts. */
  lemma {:induction false} CountPermutation(xs: seq<Time>, ys: seq<Time>, p: Time -> bool)
    requires multiset(xs) == multiset(ys)
    ensures Count(xs, p) == Count(ys, p)
    decreases |xs|
  {
    if xs == [] {
      assert |multiset(ys)| == |ys|;
    } else {
      var n := |xs| - 1;
      assert xs[n] in multiset(ys);
      var k :| 0 <= k < |ys| && ys[k] == xs[n];
      CountRemove(ys, p, k);
      RemoveFromMultiset(ys, k);
      RemoveFromMultiset(xs, n);
      assert xs[..n] + xs[n + 1..] == xs[..n];
      CountPermutation(xs[..n], ys[..k] + ys[k + 1..], p);
    }
  }

  lemma {:induction false} CountSame(xs: seq<Time>, p: Time -> bool, q: Time -> bool)
    requires forall i :: 0 <= i < |xs| ==> p(xs[i]) == q(xs[i])
    ensures Count(xs, p) == Count(xs, q)
  {
    if xs != [] {
      CountSame(xs[..|xs| - 1], p, q);
    }
  }

  /** The alerts between two times, in their given order. */
  function Select(xs: seq<Time>, from: Time, to: Time): seq<Time> {
    if xs == [] then []
    else Select(xs[..|xs| - 1], from, to) + (if Within(xs[|xs| - 1], from, to) then [xs[|xs| - 1]] else [])
  }

  lemma {:induction false} SelectMembers(xs: seq<Time>, from: Time, to: Time, t: Time)
    ensures t in Select(xs, from, to) <==> t in xs && Within(t, from, to)
  {
    if xs != [] {
      SelectMembers(xs[..|xs| - 1], from, to, t);
    }
  }

  lemma CountSnoc(xs: seq<Time>, t: Time, p: Time -> bool)
    ensures Count(xs + [t], p) == Count(xs, p) + (if p(t) then 1 else 0)
  {
    assert (xs + [t])[..|xs|] == xs;
  }

  lemma {:induction false} CountSelect(xs: seq<Time>, from: Time, to: Time, p: Time -> bool)
    requires forall i :: 0 <= i < |xs| && p(xs[i]) ==> Within(xs[i], from, to)
    ensures Count(Select(xs, from, to), p) == Count(xs, p)
  {
    if xs != [] {
      var s, t := Select(xs[..|xs| - 1], from, to), xs[|xs| - 1];
      CountSelect(xs[..|xs| - 1], from, to, p);
      CountSnoc(s, t, p);
      assert s + [] == s;
    }
  }

  // ----- only the window matters -----

  lemma SameRunInside(a: set<Time>, b: set<Time>, quiet: int, x: Time, y: Time)
    requires forall t :: x <= t <= y ==> (t in a <==> t in b)
    ensures SameRun(a, quiet, x, y) <==> SameRun(b, quiet, x, y)
  {
    if SameRun(a, quiet, x, y) { OneWaySameRun(a, b, quiet, x, y); }
    if SameRun(b, quiet, x, y) { OneWaySameRun(b, a, quiet, x, y); }
  }

  lemma OneWaySameRun(a: set<Time>, b: set<Time>, quiet: int, x: Time, y: Time)
    requires SameRun(a, quiet, x, y)
    requires forall t :: x <= t <= y ==> (t in a <==> t in b)
    ensures SameRun(b, quiet, x, y)
  {
    forall u | u in b && x <= u < y ensures Followed(b, quiet, u, y) {
      assert u in a && Followed(a, quiet, u, y);
      var v :| v in a && u < v <= y && v - u <= quiet;
      assert v in b;
    }
  }

  ghost predicate SameLastRuns(a: set<Time>, b: set<Time>, quiet: int, from: Time, to: Time) {
    forall s {:trigger InLastRun(b, quiet, s)} :: Within(s, from, to) ==> (InLastRun(a, quiet, s) <==> InLastRun(b, quiet, s))
  }

  /** Histories that agree on the window, and have nothing after it, have the same episodes and
      the same last run inside it. */
  lemma OnlyTheWindowMatters(a: set<Time>, b: set<Time>, quiet: int, from: Time, to: Time)
    requires forall t :: Within(t, from, to) ==> (t in a <==> t in b)
    requires forall t :: t in a || t in b ==> t <= to
    ensures Episodes(a, quiet, from, to) == Episodes(b, quiet, from, to)
    ensures SameLastRuns(a, b, quiet, from, to)
  {
    EpisodesAreLeaders(a, quiet, from, to);
    EpisodesAreLeaders(b, quiet, from, to);
    assert forall t :: t in a && from <= t ==> Within(t, from, to);
    assert forall t :: t in b && from <= t ==> Within(t, from, to);
    forall s | Within(s, from, to) ensures InLastRun(a, quiet, s) <==> InLastRun(b, quiet, s) {
      forall y | s <= y <= to ensures SameRun(a, quiet, s, y) <==> SameRun(b, quiet, s, y) {
        assert forall t :: s <= t <= y ==> Within(t, from, to);
        SameRunInside(a, b, quiet, s, y);
      }
    }
  }

  /** The order in which the alerts are given does not matter. */
  lemma ReferencePermutation(xs: seq<Time>, ys: seq<Time>, at: Time, config: Config)
    requires multiset(xs) == multiset(ys)
    ensures Reference(xs, at, config) == Reference(ys, at, config)
  {
    forall t ensures t in xs <==> t in ys {
      assert t in multiset(xs) <==> t in multiset(ys);
    }
    assert History(xs, at) == History(ys, at);
    var c := Effective(config);
    var from, alerts := at - c.window, History(xs, at);
    CountPermutation(xs, ys, t => Within(t, from, at));
    CountPermutation(xs, ys, t => Within(t, from, at) && InLastRun(alerts, c.quietAfter, t));
  }

  /** The state does not change when every alert before the window is forgotten. */
  lemma OlderAlertsIrrelevant(xs: seq<Time>, at: Time, config: Config)
    ensures Reference(Select(xs, at - Effective(config).window, at), at, config) == Reference(xs, at, config)
  {
    SelectKeepsReference(xs, at - Effective(config).window, at, config);
  }

  lemma SelectKeepsHistory(xs: seq<Time>, since: Time, at: Time, t: Time)
    requires Within(t, since, at)
    ensures t in History(Select(xs, since, at), at) <==> t in History(xs, at)
  {
  }

  lemma SelectKeepsRuns(xs: seq<Time>, since: Time, at: Time, from: Time, quiet: int)
    requires since <= from
    ensures
      var a, b := History(xs, at), History(Select(xs, since, at), at);
      && Episodes(a, quiet, from, at) == Episodes(b, quiet, from, at)
      && SameLastRuns(a, b, quiet, from, at)
  {
    var a, b := History(xs, at), History(Select(xs, since, at), at);
    forall t | Within(t, from, at) ensures t in a <==> t in b { SelectKeepsHistory(xs, since, at, t); }
    OnlyTheWindowMatters(a, b, quiet, from, at);
  }

  lemma SelectKeepsReference(xs: seq<Time>, since: Time, at: Time, config: Config)
    requires since <= at - Effective(config).window
    ensures Reference(Select(xs, since, at), at, config) == Reference(xs, at, config)
  {
    var c := Effective(config);
    SelectKeepsRuns(xs, since, at, at - c.window, c.quietAfter);
    WindowCountSelect(xs, since, at, at - c.window);
    LastRunCountSelect(xs, since, at, at - c.window, c.quietAfter);
  }

  lemma WindowCountSelect(xs: seq<Time>, since: Time, at: Time, from: Time)
    requires since <= from
    ensures WindowCount(Select(xs, since, at), from, at) == WindowCount(xs, from, at)
  {
    CountSelect(xs, since, at, t => Within(t, from, at));
  }

  lemma LastRunCountSelect(xs: seq<Time>, since: Time, at: Time, from: Time, quiet: int)
    requires since <= from
    ensures
      var ys := Select(xs, since, at);
      LastRunCount(ys, History(ys, at), quiet, from, at) == LastRunCount(xs, History(xs, at), quiet, from, at)
  {
    var ys := Select(xs, since, at);
    var a, b := History(xs, at), History(ys, at);
    SelectKeepsRuns(xs, since, at, from, quiet);
    CountSelect(xs, since, at, t => Within(t, from, at) && InLastRun(a, quiet, t));
    LastRunCountSame(ys, a, b, quiet, from, at);
  }

  lemma LastRunCountSame(xs: seq<Time>, a: set<Time>, b: set<Time>, quiet: int, from: Time, to: Time)
    requires forall i :: 0 <= i < |xs| && Within(xs[i], from, to) ==> (InLastRun(a, quiet, xs[i]) <==> InLastRun(b, quiet, xs[i]))
    ensures LastRunCount(xs, a, quiet, from, to) == LastRunCount(xs, b, quiet, from, to)
  {
    CountSame(xs, t => Within(t, from, to) && InLastRun(a, quiet, t), t => Within(t, from, to) && InLastRun(b, quiet, t));
  }

  // ----- the single pass -----

  function Elems(xs: seq<Time>): set<Time> {
    if xs == [] then {} else Elems(xs[..|xs| - 1]) + {xs[|xs| - 1]}
  }

  predicate Ascending(xs: seq<Time>) {
    |xs| < 2 || (Ascending(xs[..|xs| - 1]) && xs[|xs| - 2] <= xs[|xs| - 1])
  }

  predicate AllUpTo(xs: seq<Time>, at: Time) {
    xs == [] || (AllUpTo(xs[..|xs| - 1], at) && xs[|xs| - 1] <= at)
  }

  lemma {:induction false} ElemsMembers(xs: seq<Time>, t: Time)
    ensures t in Elems(xs) <==> t in xs
  {
    if xs != [] {
      ElemsMembers(xs[..|xs| - 1], t);
      assert xs == xs[..|xs| - 1] + [xs[|xs| - 1]];
    }
  }

  lemma {:induction false} AllUpToMembers(xs: seq<Time>, at: Time)
    ensures AllUpTo(xs, at) <==> forall i :: 0 <= i < |xs| ==> xs[i] <= at
  {
    if xs != [] {
      AllUpToMembers(xs[..|xs| - 1], at);
      assert xs == xs[..|xs| - 1] + [xs[|xs| - 1]];
    }
  }

  lemma {:induction false} PrefixAscends(xs: seq<Time>, k: nat)
    requires Ascending(xs) && k <= |xs|
    ensures Ascending(xs[..k])
  {
    if k < |xs| {
      PrefixAscends(xs[..|xs| - 1], k);
      assert xs[..|xs| - 1][..k] == xs[..k];
    } else {
      assert xs[..k] == xs;
    }
  }

  /** The last alert of `xs` opens an episode inside the window. */
  predicate Opens(xs: seq<Time>, quiet: int, from: Time)
    requires xs != []
  {
    var n := |xs| - 1;
    xs[n] >= from && (n == 0 || xs[n] - xs[n - 1] > quiet || xs[n - 1] < from)
  }

  /** `u` is the latest of `alerts`. */
  predicate IsLatest(alerts: set<Time>, u: Time) {
    u in alerts && forall y :: y in alerts ==> y <= u
  }

  lemma {:induction false} AscendingElems(xs: seq<Time>)
    requires Ascending(xs) && xs != []
    ensures IsLatest(Elems(xs), xs[|xs| - 1])
  {
    if |xs| > 1 {
      AscendingElems(xs[..|xs| - 1]);
    }
  }

  lemma LeadersOfLatest(alerts: set<Time>, t: Time, quiet: int, from: Time, to: Time)
    requires IsLatest(alerts + {t}, t)
    ensures Leaders(alerts + {t}, quiet, from, to) ==
            Leaders(alerts, quiet, from, to) + (if Within(t, from, to) && Leads(alerts, quiet, from, t) then {t} else {})
  {
  }

  lemma LeadsAfterLatest(alerts: set<Time>, u: Time, t: Time, quiet: int, from: Time)
    requires IsLatest(alerts, u) && u <= t && quiet > 0
    ensures t - u > quiet || u < from || (u == t && t in alerts) || !Leads(alerts, quiet, from, t)
    ensures t - u > quiet || u < from < t ==> t !in alerts && Leads(alerts, quiet, from, t)
  {
  }

  lemma LeadersSnoc(xs: seq<Time>, quiet: int, from: Time, to: Time)
    requires Ascending(xs) && xs != [] && quiet > 0 && xs[|xs| - 1] <= to
    ensures |Leaders(Elems(xs), quiet, from, to)| ==
            |Leaders(Elems(xs[..|xs| - 1]), quiet, from, to)| + (if Opens(xs, quiet, from) then 1 else 0)
  {
    var n := |xs| - 1;
    var init, t := xs[..n], xs[n];
    AscendingElems(xs);
    LeadersOfLatest(Elems(init), t, quiet, from, to);
    if n > 0 {
      AscendingElems(init);
      assert init[n - 1] == xs[n - 1];
      LeadsAfterLatest(Elems(init), xs[n - 1], t, quiet, from);
    }
  }

  /** The in-window alerts of the run that ends `xs`. */
  function Trailing(xs: seq<Time>, quiet: int, from: Time): nat {
    if xs == [] || xs[|xs| - 1] < from then 0
    else if |xs| == 1 || xs[|xs| - 1] - xs[|xs| - 2] > quiet then 1
    else Trailing(xs[..|xs| - 1], quiet, from) + 1
  }

  lemma GapEndsRun(alerts: set<Time>, u: Time, t: Time, quiet: int, s: Time)
    requires IsLatest(alerts, u) && t - u > quiet > 0 && s in alerts
    ensures !InLastRun(alerts + {t}, quiet, s)
  {
    assert u in alerts + {t} && s <= u < t && !Followed(alerts + {t}, quiet, u, t);
    assert !SameRun(alerts + {t}, quiet, s, t);
  }

  lemma SmallGapKeepsRun(alerts: set<Time>, u: Time, t: Time, quiet: int, s: Time)
    requires IsLatest(alerts, u) && u <= t && t - u <= quiet && s in alerts
    ensures InLastRun(alerts + {t}, quiet, s) <==> InLastRun(alerts, quiet, s)
  {
    forall y | y in alerts ensures SameRun(alerts + {t}, quiet, s, y) <==> SameRun(alerts, quiet, s, y) {
      assert forall v :: s <= v <= y ==> (v in alerts + {t} <==> v in alerts);
      SameRunInside(alerts + {t}, alerts, quiet, s, y);
    }
    if InLastRun(alerts, quiet, s) {
      RunExtends(alerts + {t}, alerts, quiet, s, u, t);
    }
  }

  lemma RunExtends(a: set<Time>, b: set<Time>, quiet: int, s: Time, u: Time, t: Time)
    requires a == b + {t} && u in b && s <= u <= t && t - u <= quiet && SameRun(b, quiet, s, u)
    requires forall y :: y in b ==> y <= u
    ensures SameRun(a, quiet, s, t)
  {
    forall x | x in a && s <= x < t ensures Followed(a, quiet, x, t) {
      if x < u {
        assert Followed(b, quiet, x, u);
        var v :| v in b && x < v <= u && v - x <= quiet;
        assert v in a;
      } else {
        assert t in a && t - x <= quiet;
      }
    }
  }

  lemma LastRunCountSnoc(xs: seq<Time>, alerts: set<Time>, quiet: int, from: Time, to: Time)
    requires xs != []
    ensures LastRunCount(xs, alerts, quiet, from, to) ==
            LastRunCount(xs[..|xs| - 1], alerts, quiet, from, to)
            + (if Within(xs[|xs| - 1], from, to) && InLastRun(alerts, quiet, xs[|xs| - 1]) then 1 else 0)
  {
  }

  lemma {:induction false} LastRunCountNone(xs: seq<Time>, alerts: set<Time>, quiet: int, from: Time, to: Time)
    requires forall i :: 0 <= i < |xs| ==> !(Within(xs[i], from, to) && InLastRun(alerts, quiet, xs[i]))
    ensures LastRunCount(xs, alerts, quiet, from, to) == 0
  {
    if xs != [] {
      LastRunCountNone(xs[..|xs| - 1], alerts, quiet, from, to);
      LastRunCountSnoc(xs, alerts, quiet, from, to);
    }
  }

  lemma {:induction false} TrailingIsLastRun(xs: seq<Time>, quiet: int, from: Time, to: Time)
    requires Ascending(xs) && quiet > 0 && AllUpTo(xs, to)
    ensures Trailing(xs, quiet, from) == LastRunCount(xs, Elems(xs), quiet, from, to)
  {
    if xs != [] {
      var n := |xs| - 1;
      var init := xs[..n];
      LastRunCountSnoc(xs, Elems(xs), quiet, from, to);
      AscendingElems(xs);
      if n > 0 { AscendingElems(init); }
      if xs[n] < from {
        forall i | 0 <= i < n ensures init[i] < from { ElemsMembers(xs, init[i]); }
        LastRunCountNone(init, Elems(xs), quiet, from, to);
      } else if n > 0 && xs[n] - xs[n - 1] > quiet {
        forall i | 0 <= i < n ensures !InLastRun(Elems(xs), quiet, init[i]) {
          ElemsMembers(init, init[i]);
          GapEndsRun(Elems(init), xs[n - 1], xs[n], quiet, init[i]);
        }
        LastRunCountNone(init, Elems(xs), quiet, from, to);
      } else if n > 0 {
        TrailingIsLastRun(init, quiet, from, to);
        forall i | 0 <= i < n ensures InLastRun(Elems(xs), quiet, init[i]) <==> InLastRun(Elems(init), quiet, init[i]) {
          ElemsMembers(init, init[i]);
          SmallGapKeepsRun(Elems(init), xs[n - 1], xs[n], quiet, init[i]);
        }
        LastRunCountSame(init, Elems(xs), Elems(init), quiet, from, to);
      }
    }
  }

  datatype Tally = Tally(episodes: nat, alertCount: nat, current: nat)

  /** What the pass has counted once it has seen `xs`. */
  function Scan(xs: seq<Time>, quiet: int, from: Time): Tally {
    if xs == [] then Tally(0, 0, 0)
    else
      var n := |xs| - 1;
      var before := Scan(xs[..n], quiet, from);
      var starts := n == 0 || xs[n] - xs[n - 1] > quiet;
      if xs[n] < from then before.(current := 0)
      else Tally(
        if Opens(xs, quiet, from) then before.episodes + 1 else before.episodes,
        before.alertCount + 1,
        if starts then 1 else before.current + 1)
  }

  lemma {:induction false} ScanEpisodes(xs: seq<Time>, quiet: int, from: Time, to: Time)
    requires Ascending(xs) && quiet > 0 && AllUpTo(xs, to)
    ensures Scan(xs, quiet, from).episodes == |Leaders(Elems(xs), quiet, from, to)|
  {
    if xs == [] {
      assert Leaders(Elems(xs), quiet, from, to) == {};
    } else {
      ScanEpisodes(xs[..|xs| - 1], quiet, from, to);
      LeadersSnoc(xs, quiet, from, to);
    }
  }

  lemma {:induction false} ScanCounts(xs: seq<Time>, quiet: int, from: Time, to: Time)
    requires Ascending(xs) && AllUpTo(xs, to)
    ensures Scan(xs, quiet, from).alertCount == WindowCount(xs, from, to)
    ensures Scan(xs, quiet, from).current == Trailing(xs, quiet, from)
  {
    if xs != [] {
      ScanCounts(xs[..|xs| - 1], quiet, from, to);
    }
  }

  /** The loop of DetectFlapping over the sorted times. */
  method ScanTimes(times: seq<Time>, quiet: int, cutoff: Time) returns (tally: Tally)
    requires Ascending(times)
    ensures tally == Scan(times, quiet, cutoff)
  {
    var episodes, alertCount, current := 0, 0, 0;
    var currentEpisodeInWindow := false;
    for i := 0 to |times|
      invariant currentEpisodeInWindow == (i > 0 && times[i - 1] >= cutoff)
      invariant !currentEpisodeInWindow ==> current == 0
      invariant Tally(episodes, alertCount, current) == Scan(times[..i], quiet, cutoff)
    {
      assert times[..i + 1][..i] == times[..i];
      PrefixAscends(times, i + 1);
      var startsEpisode := i == 0 || times[i] - times[i - 1] > quiet;
      if startsEpisode {
        currentEpisodeInWindow, current := false, 0;
      }
      if !(times[i] < cutoff) {
        alertCount := alertCount + 1;
        if startsEpisode || !currentEpisodeInWindow {
          episodes := episodes + 1;
        }
        currentEpisodeInWindow := true;
      }
      if currentEpisodeInWindow {
        current := current + 1;
      }
    }
    assert times[..|times|] == times;
    tally := Tally(episodes, alertCount, current);
  }

  lemma SelectedAreNotLater(xs: seq<Time>, since: Time, to: Time, sorted: seq<Time>)
    requires multiset(sorted) == multiset(Select(xs, since, to))
    ensures AllUpTo(sorted, to)
  {
    forall i | 0 <= i < |sorted| ensures sorted[i] <= to {
      assert sorted[i] in multiset(Select(xs, since, to));
      SelectMembers(xs, since, to, sorted[i]);
    }
    AllUpToMembers(sorted, to);
  }

  lemma HistoryIsElems(xs: seq<Time>, at: Time)
    requires AllUpTo(xs, at)
    ensures History(xs, at) == Elems(xs)
  {
  }

  /** What the pass counts is the state of the alerts it is given. */
  lemma ScanIsReference(sorted: seq<Time>, at: Time, config: Config)
    requires Ascending(sorted) && AllUpTo(sorted, at)
    ensures
      var c := Effective(config);
      var tally := Scan(sorted, c.quietAfter, at - c.window);
      Reference(sorted, at, config) == State(tally.episodes >= c.episodes, tally.episodes, tally.alertCount, tally.current)
  {
    var c := Effective(config);
    var from := at - c.window;
    HistoryIsElems(sorted, at);
    EpisodesAreLeaders(Elems(sorted), c.quietAfter, from, at);
    ScanEpisodes(sorted, c.quietAfter, from, at);
    ScanCounts(sorted, c.quietAfter, from, at);
    TrailingIsLastRun(sorted, c.quietAfter, from, at);
  }

  method SelectTimes(alertTimes: seq<Time>, since: Time, at: Time) returns (times: seq<Time>)
    ensures times == Select(alertTimes, since, at)
  {
    times := [];
    for i := 0 to |alertTimes|
      invariant times == Select(alertTimes[..i], since, at)
    {
      assert alertTimes[..i + 1][..i] == alertTimes[..i];
      if !(alertTimes[i] < since || alertTimes[i] > at) {
        times := times + [alertTimes[i]];
      }
    }
    assert alertTimes[..|alertTimes|] == alertTimes;
  }

  predicate NotLater(x: Time, y: Time) {
    x <= y
  }

  lemma {:induction false} SortedAscends(xs: seq<Time>)
    requires Sorted(xs, NotLater)
    ensures Ascending(xs)
  {
    if |xs| > 1 {
      SortedAscends(xs[..|xs| - 1]);
      assert NotLater(xs[|xs| - 2], xs[|xs| - 1]);
    }
  }

  method SortTimes(times: seq<Time>) returns (sorted: seq<Time>)
    ensures Ascending(sorted) && multiset(sorted) == multiset(times)
  {
    assert TotalOrder(NotLater);
    sorted := SortSeq(times, NotLater);
    SortedAscends(sorted);
  }

  /** Filtering and sorting do not change the state. */
  lemma SortedSelectionKeepsReference(alertTimes: seq<Time>, sorted: seq<Time>, since: Time, at: Time, config: Config)
    requires since <= at - Effective(config).window
    requires multiset(sorted) == multiset(Select(alertTimes, since, at))
    ensures Reference(sorted, at, config) == Reference(alertTimes, at, config)
  {
    SelectKeepsReference(alertTimes, since, at, config);
    ReferencePermutation(Select(alertTimes, since, at), sorted, at, config);
  }

  /** The state that a history and a configuration call for; a setting that is not positive stands for
      its default: three episodes, fifteen minutes, two minutes. */
  ghost predicate IsState(alertTimes: seq<Time>, at: Time, config: Config, state: State) {
    var episodes := if config.episodes > 0 then config.episodes else 3;
    var window := if config.window > 0 then config.window else 900_000_000_000;
    var quiet := if config.quietAfter > 0 then config.quietAfter else 120_000_000_000;
    var alerts, from := History(alertTimes, at), at - window;
    && (state.flapping <==> state.episodes >= episodes)
    && state.episodes == |Episodes(alerts, quiet, from, at)|
    && state.alertCount == WindowCount(alertTimes, from, at)
    && state.currentEpisodeAlerts == LastRunCount(alertTimes, alerts, quiet, from, at)
  }

  lemma ReferenceIsState(alertTimes: seq<Time>, at: Time, config: Config)
    ensures IsState(alertTimes, at, config, Reference(alertTimes, at, config))
  {
  }

  /** The pass over the sorted selection gives the state of the whole history. */
  lemma DetectionIsReference(alertTimes: seq<Time>, sorted: seq<Time>, at: Time, config: Config)
    requires var c := Effective(config); multiset(sorted) == multiset(Select(alertTimes, at - c.window - c.quietAfter, at))
    requires Ascending(sorted)
    ensures
      var c := Effective(config);
      var tally := Scan(sorted, c.quietAfter, at - c.window);
      State(tally.episodes >= c.episodes, tally.episodes, tally.alertCount, tally.current) == Reference(alertTimes, at, config)
  {
    var c := Effective(config);
    var since := at - c.window - c.quietAfter;
    SelectedAreNotLater(alertTimes, since, at, sorted);
    ScanIsReference(sorted, at, config);
    SortedSelectionKeepsReference(alertTimes, sorted, since, at, config);
  }

  method DetectFlapping(alertTimes: seq<Time>, at: Time, config: Config) returns (state: State)
    ensures state == Reference(alertTimes, at, config)
    ensures IsState(alertTimes, at, config, state)
  {
    var c := Effective(config);
    var cutoff := at - c.window;
    var times := SelectTimes(alertTimes, cutoff - c.quietAfter, at);
    var sorted := SortTimes(times);
    var tally := ScanTimes(sorted, c.quietAfter, cutoff);
    state := State(tally.episodes >= c.episodes, tally.episodes, tally.alertCount, tally.current);
    DetectionIsReference(alertTimes, sorted, at, config);
    ReferenceIsState(alertTimes, at, config);
  }

  // ----- how many episodes there can be -----

  lemma LeadersUpTo(alerts: set<Time>, quiet: nat, from: Time, to: Time)
    ensures
      var leaders := Leaders(alerts, quiet, from, to);
      if to in leaders then
        && to !in Leaders(alerts, quiet, from, to - quiet - 1)
        && leaders == Leaders(alerts, quiet, from, to - quiet - 1) + {to}
      else leaders == Leaders(alerts, quiet, from, to - 1)
  {
  }

  lemma OneMoreGap(n: nat, step: nat, room: int)
    requires n >= 1 && (n - 1) * step <= room
    ensures n * step <= room + step
  {
    assert n * step == (n - 1) * step + step;
  }

  lemma {:induction false} LeadersAreSpreadOut(alerts: set<Time>, quiet: nat, from: Time, to: Time)
    ensures
      var n := |Leaders(alerts, quiet, from, to)|;
      n >= 1 ==> (n - 1) * (quiet + 1) <= to - from
    decreases if to < from then 0 else to - from + 1
  {
    if to < from {
      NoLeaders(alerts, quiet, from, to);
    } else {
      LeadersUpTo(alerts, quiet, from, to);
      if to in Leaders(alerts, quiet, from, to) {
        var m := |Leaders(alerts, quiet, from, to - quiet - 1)|;
        assert |Leaders(alerts, quiet, from, to)| == m + 1;
        LeadersAreSpreadOut(alerts, quiet, from, to - quiet - 1);
        if m >= 1 {
          OneMoreGap(m, quiet + 1, to - quiet - 1 - from);
        }
      } else {
        LeadersAreSpreadOut(alerts, quiet, from, to - 1);
      }
    }
  }

  lemma NoLeaders(alerts: set<Time>, quiet: int, from: Time, to: Time)
    requires to < from
    ensures |Leaders(alerts, quiet, from, to)| == 0
  {
    assert Leaders(alerts, quiet, from, to) == {};
  }

  lemma EpisodesBound(alerts: set<Time>, quiet: nat, from: Time, to: Time)
    ensures
      var n := |Episodes(alerts, quiet, from, to)|;
      n >= 2 ==> (n - 1) * quiet < to - from
  {
    EpisodesAreLeaders(alerts, quiet, from, to);
    var leaders := Leaders(alerts, quiet, from, to);
    var n := |leaders|;
    if n >= 2 {
      LeadersAreSpreadOut(alerts, quiet, from, to);
      assert (n - 1) * (quiet + 1) == (n - 1) * quiet + (n - 1);
    }
  }

  /** Episodes are separated by quiet periods, so the window bounds their number; a threshold the
      window has no room for is never reached. */
  lemma EpisodesFitTheWindow(xs: seq<Time>, at: Time, config: Config)
    ensures
      var c, state := Effective(config), Reference(xs, at, config);
      && (state.episodes >= 2 ==> (state.episodes - 1) * c.quietAfter < c.window)
      && (c.episodes >= 2 && (c.episodes - 1) * c.quietAfter >= c.window ==> !state.flapping)
  {
    var c := Effective(config);
    EpisodesBound(History(xs, at), c.quietAfter, at - c.window, at);
    var n := |Episodes(History(xs, at), c.quietAfter, at - c.window, at)|;
    if n >= c.episodes {
      Monotone(c.episodes - 1, n - 1, c.quietAfter);
    }
  }

  lemma Monotone(a: int, b: int, k: nat)
    requires a <= b
    ensures a * k <= b * k
  {
  }

  /** The leaders that an alert at `x` would end. */
  function Overtaken(alerts: set<Time>, quiet: int, from: Time, to: Time, x: Time): set<Time> {
    set s | s in Leaders(alerts, quiet, from, to) && from <= x < s && s - x <= quiet
  }

  lemma AtMostOneOvertaken(alerts: set<Time>, quiet: int, from: Time, to: Time, x: Time)
    ensures |Overtaken(alerts, quiet, from, to, x)| <= 1
  {
    var lost := Overtaken(alerts, quiet, from, to, x);
    if s :| s in lost {
      forall t | t in lost ensures t == s {
        assert s in alerts && t in alerts;
        assert Leads(alerts, quiet, from, s) && Leads(alerts, quiet, from, t);
      }
      assert lost == {s};
    }
  }

  lemma LeadersInsert(alerts: set<Time>, quiet: int, from: Time, to: Time, x: Time)
    ensures
      var before, now := Leaders(alerts, quiet, from, to), Leaders(alerts + {x}, quiet, from, to);
      now == before - Overtaken(alerts, quiet, from, to, x) + (if x in now then {x} else {})
  {
  }

  lemma EpisodesInsert(alerts: set<Time>, quiet: int, from: Time, to: Time, x: Time)
    ensures
      var before, now := |Episodes(alerts, quiet, from, to)|, |Episodes(alerts + {x}, quiet, from, to)|;
      before - 1 <= now <= before + 1
  {
    EpisodesAreLeaders(alerts, quiet, from, to);
    EpisodesAreLeaders(alerts + {x}, quiet, from, to);
    LeadersInsert(alerts, quiet, from, to, x);
    AtMostOneOvertaken(alerts, quiet, from, to, x);
    CardinalityChange(Leaders(alerts, quiet, from, to), Overtaken(alerts, quiet, from, to, x), x);
  }

  lemma HistoryInsert(xs: seq<Time>, t: Time, at: Time)
    ensures History(xs + [t], at) == History(xs, at) + (if t <= at then {t} else {})
  {
  }

  lemma WindowCountInsert(xs: seq<Time>, t: Time, from: Time, to: Time)
    ensures WindowCount(xs + [t], from, to) == WindowCount(xs, from, to) + (if Within(t, from, to) then 1 else 0)
  {
  }

  /** One more alert, whenever it arrives, changes the number of episodes by at most one: it may
      start one, lengthen one, or join two. The alert count takes it in exactly when it lies in
      the window. */
  lemma OneMoreAlert(xs: seq<Time>, t: Time, at: Time, config: Config)
    ensures
      var before, now := Reference(xs, at, config), Reference(xs + [t], at, config);
      && before.episodes - 1 <= now.episodes <= before.episodes + 1
      && now.alertCount == before.alertCount + (if Within(t, at - Effective(config).window, at) then 1 else 0)
  {
    var c := Effective(config);
    HistoryInsert(xs, t, at);
    WindowCountInsert(xs, t, at - c.window, at);
    EpisodesInsert(History(xs, at), c.quietAfter, at - c.window, at, t);
    assert History(xs, at) + {} == History(xs, at);
  }

  lemma CardinalityChange(before: set<Time>, lost: set<Time>, x: Time)
    requires lost <= before && |lost| <= 1
    ensures |before| - 1 <= |before - lost| <= |before|
    ensures |before| - 1 <= |before - lost + {x}| <= |before| + 1
  {
    assert |before - lost| == |before| - |lost|;
    if x in before - lost {
      assert before - lost + {x} == before - lost;
    }
  }
}
