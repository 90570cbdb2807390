/** The route table: the value a route requires, found by its most specific pattern. */
module Routes {
  import opened Wrappers
  import opened Text
  import opened Sorting
  import opened Counting

  // ----- strings -----

  /** A character's upper case, and the representative of the characters that differ from it in case
      only: Unicode's simple mappings, which keep a text's length. */
  datatype Casing = Casing(upper: char -> char, fold: char -> char)

  function MapChars(s: string, f: char -> char): string {
    if s == "" then "" else [f(s[0])] + MapChars(s[1..], f)
  }

  function ToUpper(casing: Casing, s: string): string {
    MapChars(s, casing.upper)
  }

  predicate EqualFold(casing: Casing, a: string, b: string) {
    MapChars(a, casing.fold) == MapChars(b, casing.fold)
  }

  function TrimSlashesLeft(s: string): string {
    if s != "" && s[0] == '/' then TrimSlashesLeft(s[1..]) else s
  }

  function TrimSlashesRight(s: string): string {
    if s != "" && s[|s| - 1] == '/' then TrimSlashesRight(s[..|s| - 1]) else s
  }

  function Split(s: string, sep: char): seq<string>
    decreases |s|
  {
    match Cut(s, sep)
    case None => [s]
    case Some((before, after)) => assert |after| < |s| by { CutShorter(s, sep); } [before] + Split(after, sep)
  }

  // ----- paths and patterns -----

  function NormalizeRoute(path: string): string {
    var s := TrimSpace(path);
    if s == "" then "/"
    else
      var rooted := if s[0] == '/' then s else "/" + s;
      var trimmed := if |rooted| > 1 then TrimSlashesRight(rooted) else rooted;
      if trimmed == "" then "/" else trimmed
  }

  function Segments(path: string): seq<string> {
    var s := NormalizeRoute(path);
    if s == "/" then [] else Split(TrimSlashesRight(TrimSlashesLeft(s)), '/')
  }

  predicate IsParam(segment: string) {
    segment != "" && segment[0] == '{' && segment[|segment| - 1] == '}'
  }

  predicate SegmentMatches(pattern: string, segment: string) {
    IsParam(pattern) || pattern == segment
  }

  predicate Matches(pattern: seq<string>, path: seq<string>) {
    |pattern| == |path| && forall i :: 0 <= i < |pattern| ==> SegmentMatches(pattern[i], path[i])
  }

  function Literals(segments: seq<string>): nat {
    if segments == [] then 0
    else Literals(segments[..|segments| - 1]) + (if IsParam(segments[|segments| - 1]) then 0 else 1)
  }

  method PatternMatches(pattern: string, path: string) returns (ok: bool)
    ensures ok <==> Matches(Segments(pattern), Segments(path))
  {
    var pat, seg := Segments(pattern), Segments(path);
    if |pat| != |seg| {
      return false;
    }
    ok := AllMatch(pat, seg);
  }

  method AllMatch(pat: seq<string>, seg: seq<string>) returns (ok: bool)
    requires |pat| == |seg|
    ensures ok <==> Matches(pat, seg)
  {
    for i := 0 to |pat|
      invariant forall k :: 0 <= k < i ==> SegmentMatches(pat[k], seg[k])
    {
      if !IsParam(pat[i]) && pat[i] != seg[i] {
        assert !SegmentMatches(pat[i], seg[i]);
        return false;
      }
    }
    ok := true;
  }

  method LiteralSegments(pattern: string) returns (n: nat)
    ensures n == Literals(Segments(pattern))
  {
    var segments := Segments(pattern);
    n := 0;
    for i := 0 to |segments|
      invariant n == Literals(segments[..i])
    {
      assert segments[..i + 1][..i] == segments[..i];
      if !IsParam(segments[i]) {
        n := n + 1;
      }
    }
    assert segments[..|segments|] == segments;
  }

  ghost predicate Braced(segment: string) {
    exists name :: segment == "{" + name + "}"
  }

  lemma BracedIff(segment: string)
    ensures Braced(segment) <==> IsParam(segment)
  {
    if IsParam(segment) { assert segment == "{" + segment[1..|segment| - 1] + "}"; }
  }

  /** A pattern segment in braces matches anything, and any other only itself. */
  lemma SegmentMatchesIff(pattern: string, segment: string)
    ensures SegmentMatches(pattern, segment) <==> pattern == segment || Braced(pattern)
  {
    BracedIff(pattern);
  }

  lemma {:induction false} LiteralsUpTo(segments: seq<string>, p: nat -> bool, k: nat)
    requires k <= |segments| && forall i: nat :: i < |segments| ==> p(i) == !IsParam(segments[i])
    ensures Literals(segments[..k]) == |set i: nat | i < k && p(i)|
  {
    if k > 0 {
      assert segments[..k][..k - 1] == segments[..k - 1] && segments[..k][k - 1] == segments[k - 1];
      LiteralsUpTo(segments, p, k - 1);
      CountNext(p, k - 1);
    }
  }

  /** The literals are the segments that are not in braces. */
  lemma LiteralsCount(segments: seq<string>)
    ensures Literals(segments) == |set i: nat | i < |segments| && !Braced(segments[i])|
  {
    var p := (i: nat) => i < |segments| && !IsParam(segments[i]);
    LiteralsUpTo(segments, p, |segments|);
    assert segments[..|segments|] == segments;
    forall i: nat | i < |segments| ensures Braced(segments[i]) <==> IsParam(segments[i]) { BracedIff(segments[i]); }
    assert (set i: nat | i < |segments| && p(i)) == set i: nat | i < |segments| && !Braced(segments[i]);
  }

  /** The text that matches a pattern pins down its literal segments: among the patterns a text
      matches, the text itself has the most literals. */
  lemma {:induction false} ExactIsMostSpecific(pattern: seq<string>, path: seq<string>)
    requires Matches(pattern, path)
    ensures Literals(pattern) <= Literals(path)
  {
    if pattern != [] {
      var n := |pattern| - 1;
      forall i | 0 <= i < n ensures SegmentMatches(pattern[..n][i], path[..n][i]) {
        assert SegmentMatches(pattern[i], path[i]);
      }
      ExactIsMostSpecific(pattern[..n], path[..n]);
      assert SegmentMatches(pattern[n], path[n]);
    }
  }

  lemma {:induction false} TrimSlashesRightEnds(s: string)
    ensures var r := TrimSlashesRight(s); r == "" || (r[|r| - 1] != '/' && r[0] == s[0])
  {
    if s != "" && s[|s| - 1] == '/' { TrimSlashesRightEnds(s[..|s| - 1]); }
  }

  /** A normalized path is the root, or starts with a slash and does not end with one. */
  lemma NormalizedForm(path: string)
    ensures var r := NormalizeRoute(path); r == "/" || (|r| > 1 && r[0] == '/' && r[|r| - 1] != '/')
  {
    var s := TrimSpace(path);
    if s != "" {
      TrimSlashesRightEnds(if s[0] == '/' then s else "/" + s);
    }
  }

  lemma {:induction false} TrimSlashesRightDrops(s: string) returns (tail: string)
    ensures s == TrimSlashesRight(s) + tail && forall c :: c in tail ==> c == '/'
  {
    tail := "";
    if s != "" && s[|s| - 1] == '/' {
      var rest := TrimSlashesRightDrops(s[..|s| - 1]);
      tail := rest + "/";
    }
  }

  lemma {:induction false} TrimSlashesLeftDrops(s: string) returns (head: string)
    ensures s == head + TrimSlashesLeft(s) && forall c :: c in head ==> c == '/'
    ensures TrimSlashesLeft(s) != "" ==> TrimSlashesLeft(s)[0] != '/'
  {
    head := "";
    if s != "" && s[0] == '/' {
      var rest := TrimSlashesLeftDrops(s[1..]);
      head := "/" + rest;
    }
  }

  lemma RootedDrops(rooted: string) returns (tail: string)
    requires rooted != "" && rooted[0] == '/'
    ensures rooted == (if TrimSlashesRight(rooted) == "" then "/" else TrimSlashesRight(rooted)) + tail
    ensures forall c :: c in tail ==> c == '/'
  {
    tail := TrimSlashesRightDrops(rooted);
    if TrimSlashesRight(rooted) == "" {
      assert tail == rooted;
      forall c | c in rooted[1..] ensures c == '/' { assert c in tail; }
      tail := rooted[1..];
    }
  }

  /** Normalizing drops slashes from the end of the trimmed path, with a slash put before it if it has
      none, and nothing else. */
  lemma NormalizedDrops(path: string) returns (tail: string)
    ensures
      var s := TrimSpace(path);
      (if s != "" && s[0] == '/' then s else "/" + s) == NormalizeRoute(path) + tail
    ensures forall c :: c in tail ==> c == '/'
  {
    var s := TrimSpace(path);
    var rooted := if s != "" && s[0] == '/' then s else "/" + s;
    tail := RootedDrops(rooted);
    if |rooted| == 1 { assert rooted[..0] == "" && TrimSlashesRight(rooted) == ""; }
  }

  function Join(parts: seq<string>, sep: char): string {
    if parts == [] then "" else if |parts| == 1 then parts[0] else parts[0] + [sep] + Join(parts[1..], sep)
  }

  lemma {:induction false} SplitJoins(s: string, sep: char)
    ensures Join(Split(s, sep), sep) == s && Split(s, sep) != []
    ensures forall i :: 0 <= i < |Split(s, sep)| ==> sep !in Split(s, sep)[i]
    decreases |s|
  {
    match Cut(s, sep)
    case None => UncutHasNone(s, sep);
    case Some((before, after)) =>
      CutShorter(s, sep);
      CutJoins(s, sep);
      SplitJoins(after, sep);
      assert Split(s, sep)[1..] == Split(after, sep);
  }

  /** The segments are what stands between the slashes: none of them holds one, and the normalized
      path is its leading slashes followed by the segments with a slash between them. The root has no
      segment. */
  lemma SegmentsJoin(path: string) returns (head: string)
    ensures NormalizeRoute(path) == head + Join(Segments(path), '/')
    ensures head != "" && forall c :: c in head ==> c == '/'
    ensures forall i :: 0 <= i < |Segments(path)| ==> '/' !in Segments(path)[i]
    ensures Segments(path) == [] <==> NormalizeRoute(path) == "/"
    ensures Segments(path) != [] ==> Segments(path)[0] != ""
  {
    var s := NormalizeRoute(path);
    NormalizedForm(path);
    head := "/";
    if s != "/" {
      head := TrimSlashesLeftDrops(s);
      var bare := TrimSlashesLeft(s);
      assert bare != "" && bare[|bare| - 1] != '/' by {
        assert s[|s| - 1] != '/';
        assert head != "" ==> head[|head| - 1] in head;
      }
      SplitJoins(bare, '/');
      FirstPart(bare, '/');
    }
  }

  lemma FirstPart(s: string, sep: char)
    requires s != "" && s[0] != sep
    ensures Split(s, sep)[0] != ""
  {
  }

  lemma LastSpaceIff(path: string)
    ensures
      var r := NormalizeRoute(path);
      NormalizeRoute(r) == r <==> !IsSpace(r[|r| - 1])
  {
    var r := NormalizeRoute(path);
    NormalizedForm(path);
    assert TrimLeft(r) == r;
    TrimRightShrinks(r);
    if IsSpace(r[|r| - 1]) {
      TrimSlashesRightShrinks(TrimRight(r));
      TrimRightKeepsFirst(r);
    }
  }

  lemma {:induction false} TrimRooted(s: string)
    ensures TrimSlashesRight("/" + s) == if TrimSlashesRight(s) == "" then "" else "/" + TrimSlashesRight(s)
  {
    if s == "" {
      assert "/" + s == "/" && "/"[..0] == "";
    } else {
      var n := |s| - 1;
      assert ("/" + s)[..n + 1] == "/" + s[..n];
      if s[n] == '/' { TrimRooted(s[..n]); }
    }
  }

  /** Normalizing trims spaces before slashes, so a space may be uncovered: a second pass changes
      the result exactly when the trimmed path, without its trailing slashes, ends in a space. */
  lemma NormalizedTwiceIff(path: string)
    ensures
      var bare := TrimSlashesRight(TrimSpace(path));
      NormalizeRoute(NormalizeRoute(path)) == NormalizeRoute(path) <==> bare == "" || !IsSpace(bare[|bare| - 1])
  {
    LastSpaceIff(path);
    TrimRooted(TrimSpace(path));
  }

  lemma {:induction false} TrimSlashesRightShrinks(s: string)
    ensures |TrimSlashesRight(s)| <= |s|
  {
    if s != "" && s[|s| - 1] == '/' { TrimSlashesRightShrinks(s[..|s| - 1]); }
  }

  lemma NormalizingTwiceCanChange()
    ensures NormalizeRoute("/a /") == "/a " && NormalizeRoute("/a ") == "/a"
  {
  }

  // ----- the table -----

  /** Keys are "METHOD /pattern"; `patterns` lists them in order. */
  datatype RouteTable<T> = RouteTable(entries: map<string, T>, patterns: seq<string>)

  ghost predicate ValidTable<T>(t: RouteTable<T>) {
    Sorted(t.patterns, LexLe) && forall k :: k in t.patterns <==> k in t.entries
  }

  method NewRouteTable<T>(entries: map<string, T>) returns (t: RouteTable<T>)
    ensures t.entries == entries && ValidTable(t)
  {
    var patterns := SortedKeys(entries.Keys);
    forall k ensures k in patterns <==> k in entries {
      assert k in multiset(patterns) <==> k in multiset(entries.Keys);
    }
    t := RouteTable(entries, patterns);
  }

  /** Keyed by an upper-case method without spaces and a normalized pattern. */
  ghost predicate WellKeyed<T>(casing: Casing, entries: map<string, T>) {
    forall k :: k in entries ==>
      && Cut(k, ' ').Some?
      && ToUpper(casing, Cut(k, ' ').value.0) == Cut(k, ' ').value.0
      && NormalizeRoute(Cut(k, ' ').value.1) == Cut(k, ' ').value.1
  }

  function RequestMethod(casing: Casing, verb: string): string {
    ToUpper(casing, TrimSpace(verb))
  }

  function KeySegments(key: string): seq<string> {
    match Cut(key, ' ')
    case None => []
    case Some((_, pattern)) => Segments(pattern)
  }

  /** The entry `key` covers the request. */
  predicate Covers(casing: Casing, key: string, verb: string, path: string) {
    && Cut(key, ' ').Some?
    && EqualFold(casing, Cut(key, ' ').value.0, RequestMethod(casing, verb))
    && Matches(KeySegments(key), Segments(path))
  }

  lemma {:induction false} MapCharsAt(s: string, f: char -> char, i: nat)
    requires i < |s|
    ensures |MapChars(s, f)| == |s| && MapChars(s, f)[i] == f(s[i])
  {
    MapCharsLength(s, f);
    if i > 0 { MapCharsAt(s[1..], f, i - 1); }
  }

  /** The texts agree up to case. */
  predicate SameButCase(casing: Casing, a: string, b: string) {
    |a| == |b| && forall i :: 0 <= i < |a| ==> casing.fold(a[i]) == casing.fold(b[i])
  }

  lemma EqualFoldIff(casing: Casing, a: string, b: string)
    ensures EqualFold(casing, a, b) <==> SameButCase(casing, a, b)
  {
    MapCharsLength(a, casing.fold);
    MapCharsLength(b, casing.fold);
    forall i | 0 <= i < |a| ensures MapChars(a, casing.fold)[i] == casing.fold(a[i]) { MapCharsAt(a, casing.fold, i); }
    forall i | 0 <= i < |b| ensures MapChars(b, casing.fold)[i] == casing.fold(b[i]) { MapCharsAt(b, casing.fold, i); }
  }

  /** An entry covers a request when its method is the request's, trimmed and in upper case, up to case,
      and its pattern, which is what stands behind the first space, matches the path segment by segment. */
  lemma CoversIff(casing: Casing, verb: string, pattern: string, request: string, path: string)
    requires ' ' !in verb
    ensures Covers(casing, verb + " " + pattern, request, path) <==>
              && SameButCase(casing, verb, ToUpper(casing, TrimSpace(request)))
              && |Segments(pattern)| == |Segments(path)|
              && forall i :: 0 <= i < |Segments(path)| ==>
                   IsParam(Segments(pattern)[i]) || Segments(pattern)[i] == Segments(path)[i]
  {
    CutOf(verb, ' ', pattern);
    assert verb + [' '] + pattern == verb + " " + pattern;
    EqualFoldIff(casing, verb, RequestMethod(casing, request));
    var p, q := Segments(pattern), Segments(path);
    assert |p| == |q| ==> forall i :: 0 <= i < |q| ==> (SegmentMatches(p[i], q[i]) <==> IsParam(p[i]) || p[i] == q[i]);
  }

  function ExactKey(casing: Casing, verb: string, path: string): string {
    RequestMethod(casing, verb) + [' '] + NormalizeRoute(path)
  }

  /** The key tried first: the request's method, trimmed and in upper case, a space and the normalized
      path. */
  lemma ExactKeyText(casing: Casing, verb: string, path: string)
    ensures
      var m, s := TrimSpace(verb), ExactKey(casing, verb, path);
      && |s| > |m| && s[|m|] == ' ' && s[|m| + 1..] == NormalizeRoute(path)
      && forall i :: 0 <= i < |m| ==> s[i] == casing.upper(m[i])
  {
    var m := TrimSpace(verb);
    MapCharsLength(m, casing.upper);
    forall i | 0 <= i < |m| ensures MapChars(m, casing.upper)[i] == casing.upper(m[i]) { MapCharsAt(m, casing.upper, i); }
  }

  /** `key` covers the request and no covering entry has more literal segments. */
  ghost predicate MostSpecific<T>(casing: Casing, entries: map<string, T>, verb: string, path: string, key: string) {
    && key in entries
    && Covers(casing, key, verb, path)
    && forall k :: k in entries && Covers(casing, k, verb, path) ==> Literals(KeySegments(k)) <= Literals(KeySegments(key))
  }

  /** The one entry that answers: the exact key, or else the first of the most specific ones. */
  ghost predicate Answers<T>(casing: Casing, entries: map<string, T>, verb: string, path: string, key: string) {
    if ExactKey(casing, verb, path) in entries then key == ExactKey(casing, verb, path)
    else
      && MostSpecific(casing, entries, verb, path, key)
      && forall k :: k in entries && MostSpecific(casing, entries, verb, path, k) ==> LexLe(key, k)
  }

  lemma {:induction false} MapCharsLength(s: string, f: char -> char)
    ensures |MapChars(s, f)| == |s|
  {
    if s != "" { MapCharsLength(s[1..], f); }
  }

  /** A method with a space in it never agrees with the method of the key it forms. */
  lemma SpacedMethod(casing: Casing, verb: string, path: string)
    requires ' ' in RequestMethod(casing, verb)
    ensures !Covers(casing, ExactKey(casing, verb, path), verb, path)
  {
    var m, key := RequestMethod(casing, verb), ExactKey(casing, verb, path);
    var k :| 0 <= k < |m| && m[k] == ' ';
    if Cut(key, ' ').Some? {
      CutJoins(key, ' ');
      var before := Cut(key, ' ').value.0;
      forall j | 0 <= j < |before| ensures key[j] != ' ' { assert key[j] == before[j]; }
      assert key[k] == ' ' && |before| <= k;
      MapCharsLength(before, casing.fold);
      MapCharsLength(m, casing.fold);
    }
  }

  /** The shortcut through the exact key finds a most specific entry, unless the method has a space. */
  lemma ExactKeyIff<T>(casing: Casing, entries: map<string, T>, verb: string, path: string)
    requires WellKeyed(casing, entries) && ExactKey(casing, verb, path) in entries
    ensures MostSpecific(casing, entries, verb, path, ExactKey(casing, verb, path)) <==> ' ' !in RequestMethod(casing, verb)
  {
    var m, key := RequestMethod(casing, verb), ExactKey(casing, verb, path);
    if ' ' in m {
      SpacedMethod(casing, verb, path);
    } else {
      CutOf(m, ' ', NormalizeRoute(path));
      assert KeySegments(key) == Segments(path);
      forall k | k in entries && Covers(casing, k, verb, path) ensures Literals(KeySegments(k)) <= Literals(KeySegments(key)) {
        ExactIsMostSpecific(KeySegments(k), Segments(path));
      }
    }
  }

  /** What the loop has found among the patterns `seen`. */
  ghost predicate BestSoFar(casing: Casing, seen: seq<string>, verb: string, path: string, best: string, literals: int) {
    if literals < 0 then best == "" && forall k :: k in seen ==> !Covers(casing, k, verb, path)
    else
      && best in seen
      && Covers(casing, best, verb, path)
      && Literals(KeySegments(best)) == literals
      && forall k :: k in seen && Covers(casing, k, verb, path) ==> NotBetter(k, best)
  }

  predicate NotBetter(k: string, best: string) {
    || Literals(KeySegments(k)) < Literals(KeySegments(best))
    || (Literals(KeySegments(k)) == Literals(KeySegments(best)) && LexLe(best, k))
  }

  lemma {:induction false} LexAntisymmetric(a: string, b: string)
    requires LexLe(a, b) && LexLe(b, a)
    ensures a == b
  {
    if a != "" { LexAntisymmetric(a[1..], b[1..]); }
  }

  lemma BestKept(casing: Casing, seen: seq<string>, verb: string, path: string, best: string, literals: int, next: string)
    requires BestSoFar(casing, seen, verb, path, best, literals)
    requires forall k :: k in seen ==> LexLe(k, next)
    requires Covers(casing, next, verb, path) ==> Literals(KeySegments(next)) <= literals
    ensures BestSoFar(casing, seen + [next], verb, path, best, literals)
  {
  }

  lemma BestReplaced(casing: Casing, seen: seq<string>, verb: string, path: string, best: string, literals: int, next: string)
    requires BestSoFar(casing, seen, verb, path, best, literals)
    requires Covers(casing, next, verb, path) && Literals(KeySegments(next)) > literals
    ensures BestSoFar(casing, seen + [next], verb, path, next, Literals(KeySegments(next)))
  {
    LexReflexive(next);
    if literals >= 0 {
      forall k | k in seen && Covers(casing, k, verb, path) ensures NotBetter(k, next) {
        assert NotBetter(k, best);
      }
    }
  }

  lemma SortedBefore(patterns: seq<string>, i: nat)
    requires Sorted(patterns, LexLe) && i < |patterns|
    ensures forall k :: k in patterns[..i] ==> LexLe(k, patterns[i])
  {
  }

  /** The literal segments of an entry that covers the request, or -1. */
  function Score(casing: Casing, key: string, verb: string, path: string): int {
    if Covers(casing, key, verb, path) then Literals(KeySegments(key)) else -1
  }

  lemma NextBest(casing: Casing, patterns: seq<string>, i: nat, verb: string, path: string, best: string, literals: int)
    requires Sorted(patterns, LexLe) && i < |patterns| && -1 <= literals
    requires BestSoFar(casing, patterns[..i], verb, path, best, literals)
    ensures
      var n := Score(casing, patterns[i], verb, path);
      BestSoFar(casing, patterns[..i + 1], verb, path, if n > literals then patterns[i] else best, if n > literals then n else literals)
  {
    assert patterns[..i + 1] == patterns[..i] + [patterns[i]];
    SortedBefore(patterns, i);
    if Score(casing, patterns[i], verb, path) > literals {
      BestReplaced(casing, patterns[..i], verb, path, best, literals, patterns[i]);
    } else {
      BestKept(casing, patterns[..i], verb, path, best, literals, patterns[i]);
    }
  }

  method LiteralsIfCovering(casing: Casing, key: string, verb: string, path: string) returns (n: int)
    ensures n == Score(casing, key, verb, path)
  {
    var cut := Cut(key, ' ');
    if cut.None? || !EqualFold(casing, cut.value.0, RequestMethod(casing, verb)) {
      return -1;
    }
    var matches := PatternMatches(cut.value.1, path);
    if !matches {
      return -1;
    }
    n := LiteralSegments(cut.value.1);
  }

  /** The loop of Lookup over the sorted patterns. */
  method FindBest(casing: Casing, patterns: seq<string>, verb: string, path: string) returns (best: string, literals: int)
    requires Sorted(patterns, LexLe)
    ensures BestSoFar(casing, patterns, verb, path, best, literals) && -1 <= literals
  {
    best, literals := "", -1;
    for i := 0 to |patterns|
      invariant -1 <= literals && BestSoFar(casing, patterns[..i], verb, path, best, literals)
    {
      var n := LiteralsIfCovering(casing, patterns[i], verb, path);
      NextBest(casing, patterns, i, verb, path, best, literals);
      if n > literals {
        best, literals := patterns[i], n;
      }
    }
    assert patterns[..|patterns|] == patterns;
  }

  lemma BestAnswers<T>(casing: Casing, t: RouteTable<T>, verb: string, path: string, best: string, literals: nat)
    requires ValidTable(t) && ExactKey(casing, verb, path) !in t.entries
    requires BestSoFar(casing, t.patterns, verb, path, best, literals)
    ensures Answers(casing, t.entries, verb, path, best)
  {
  }

  method Lookup<T>(casing: Casing, t: RouteTable<T>, verb: string, path: string) returns (value: Option<T>, ghost key: string)
    requires ValidTable(t)
    ensures value.Some? ==> Answers(casing, t.entries, verb, path, key) && key in t.entries && value.value == t.entries[key]
    ensures value.None? ==>
      ExactKey(casing, verb, path) !in t.entries && forall k :: k in t.entries ==> !Covers(casing, k, verb, path)
  {
    key := ExactKey(casing, verb, path);
    var exact := RequestMethod(casing, verb) + [' '] + NormalizeRoute(path);
    if exact in t.entries {
      return Some(t.entries[exact]), key;
    }
    var best, literals := FindBest(casing, t.patterns, verb, path);
    key := best;
    if best == "" {
      assert !Covers(casing, "", verb, path);
      value := None;
    } else {
      BestAnswers(casing, t, verb, path, best, literals);
      value := Some(t.entries[best]);
    }
  }

  /** The answer is fixed by the entries alone: the order a Go map is walked in does not matter. */
  lemma AnswerIsDetermined<T>(casing: Casing, entries: map<string, T>, verb: string, path: string, a: string, b: string)
    requires Answers(casing, entries, verb, path, a) && Answers(casing, entries, verb, path, b)
    ensures a == b
  {
    if ExactKey(casing, verb, path) !in entries {
      LexAntisymmetric(a, b);
    }
  }

  /** Every answer is a most specific covering entry, and there is one whenever an entry covers
      the request; the only exception is a method with a space in it that forms an exact key. */
  lemma AnswerIsMostSpecificIff<T>(casing: Casing, entries: map<string, T>, verb: string, path: string, key: string)
    requires WellKeyed(casing, entries) && Answers(casing, entries, verb, path, key)
    ensures MostSpecific(casing, entries, verb, path, key) <==>
            !(ExactKey(casing, verb, path) in entries && ' ' in RequestMethod(casing, verb))
  {
    if ExactKey(casing, verb, path) in entries {
      ExactKeyIff(casing, entries, verb, path);
    }
  }

  /** Such a request exists, though HTTP itself allows no space in a method. */
  lemma SpacedMethodIsMisrouted(casing: Casing) returns (entries: map<string, int>, verb: string, path: string, key: string)
    requires casing.upper('G') == 'G' && casing.upper(' ') == ' ' && casing.upper('/') == '/' && casing.upper('A') == 'A'
    ensures WellKeyed(casing, entries) && Answers(casing, entries, verb, path, key)
    ensures !MostSpecific(casing, entries, verb, path, key)
  {
    verb, path, key := "G /A", "/b", "G /A /b";
    entries := map[key := 0];
    SpacedIsWellKeyed(casing, entries);
    SpacedExactKey(casing);
    SpacedAnswer(casing, entries, verb, path);
  }

  lemma SpacedAnswer(casing: Casing, entries: map<string, int>, verb: string, path: string)
    requires WellKeyed(casing, entries) && ExactKey(casing, verb, path) in entries && ' ' in RequestMethod(casing, verb)
    ensures Answers(casing, entries, verb, path, ExactKey(casing, verb, path))
    ensures !MostSpecific(casing, entries, verb, path, ExactKey(casing, verb, path))
  {
    ExactKeyIff(casing, entries, verb, path);
  }

  lemma SpacedIsWellKeyed(casing: Casing, entries: map<string, int>)
    requires casing.upper('G') == 'G' && entries.Keys == {"G /A /b"}
    ensures WellKeyed(casing, entries)
  {
    CutOf("G", ' ', "/A /b");
    assert "G" + [' '] + "/A /b" == "G /A /b";
    assert TrimLeft("/A /b") == "/A /b" && TrimRight("/A /b") == "/A /b";
    assert NormalizeRoute("/A /b") == "/A /b";
    assert "G"[1..] == "" && ToUpper(casing, "G") == "G";
  }

  lemma SpacedExactKey(casing: Casing)
    requires casing.upper('G') == 'G' && casing.upper(' ') == ' ' && casing.upper('/') == '/' && casing.upper('A') == 'A'
    ensures ExactKey(casing, "G /A", "/b") == "G /A /b" && ' ' in RequestMethod(casing, "G /A")
  {
    UpperOfSpaced(casing);
    assert "G /A"[1] == ' ';
    assert TrimLeft("/b") == "/b" && TrimRight("/b") == "/b" && NormalizeRoute("/b") == "/b";
    assert "G /A" + [' '] + "/b" == "G /A /b";
  }

  lemma UpperOfSpaced(casing: Casing)
    requires casing.upper('G') == 'G' && casing.upper(' ') == ' ' && casing.upper('/') == '/' && casing.upper('A') == 'A'
    ensures RequestMethod(casing, "G /A") == "G /A"
  {
    var f := casing.upper;
    assert "A"[1..] == "" && MapChars("A", f) == "A";
    assert "/A"[1..] == "A" && MapChars("/A", f) == "/A";
    assert " /A"[1..] == "/A" && MapChars(" /A", f) == " /A";
    assert "G /A"[1..] == " /A" && MapChars("G /A", f) == "G /A";
    assert TrimLeft("G /A") == "G /A" && TrimRight("G /A") == "G /A";
  }
}
