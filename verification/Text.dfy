/** The string functions of Go's standard library that the modelled code relies on. */
module Text {
  import opened Wrappers

  /** Unicode White_Space, the set strings.TrimSpace trims. */
  predicate IsSpace(c: char) {
    || c == ' ' || ('\t' <= c <= '\r') || c == '\U{0085}' || c == '\U{00A0}' || c == '\U{1680}'
    || ('\U{2000}' <= c <= '\U{200A}') || c == '\U{2028}' || c == '\U{2029}' || c == '\U{202F}'
    || c == '\U{205F}' || c == '\U{3000}'
  }

  function TrimLeft(s: string): string {
    if s != "" && IsSpace(s[0]) then TrimLeft(s[1..]) else s
  }

  function TrimRight(s: string): string {
    if s != "" && IsSpace(s[|s| - 1]) then TrimRight(s[..|s| - 1]) else s
  }

  function TrimSpace(s: string): string {
    TrimRight(TrimLeft(s))
  }

  lemma {:induction false} TrimRightShrinks(s: string)
    ensures |TrimRight(s)| <= |s| && (s != "" && IsSpace(s[|s| - 1]) ==> |TrimRight(s)| < |s|)
  {
    if s != "" && IsSpace(s[|s| - 1]) { TrimRightShrinks(s[..|s| - 1]); }
  }

  lemma {:induction false} TrimRightKeepsFirst(s: string)
    requires s != "" && !IsSpace(s[0])
    ensures TrimRight(s) != "" && TrimRight(s)[0] == s[0]
  {
    if IsSpace(s[|s| - 1]) { TrimRightKeepsFirst(s[..|s| - 1]); }
  }

  lemma {:induction false} TrimLeftDrops(s: string) returns (i: nat)
    ensures i <= |s| && TrimLeft(s) == s[i..] && forall k :: 0 <= k < i ==> IsSpace(s[k])
    ensures i < |s| ==> !IsSpace(s[i])
  {
    i := 0;
    if s != "" && IsSpace(s[0]) {
      var rest := TrimLeftDrops(s[1..]);
      i := rest + 1;
    }
  }

  lemma {:induction false} TrimRightDrops(s: string) returns (j: nat)
    ensures j <= |s| && TrimRight(s) == s[..j] && forall k :: j <= k < |s| ==> IsSpace(s[k])
    ensures j > 0 ==> !IsSpace(s[j - 1])
  {
    j := |s|;
    if s != "" && IsSpace(s[|s| - 1]) {
      j := TrimRightDrops(s[..|s| - 1]);
    }
  }

  /** Trimming drops the spaces at both ends and nothing else. */
  lemma TrimSpaceDrops(s: string) returns (i: nat, j: nat)
    ensures i <= j <= |s| && TrimSpace(s) == s[i..j]
    ensures forall k :: 0 <= k < i || j <= k < |s| ==> IsSpace(s[k])
    ensures i < j ==> !IsSpace(s[i]) && !IsSpace(s[j - 1])
  {
    i := TrimLeftDrops(s);
    var n := TrimRightDrops(s[i..]);
    j := i + n;
    forall k | j <= k < |s| ensures IsSpace(s[k]) { assert s[k] == s[i..][k - i]; }
    if n > 0 { assert s[j - 1] == s[i..][n - 1]; }
  }

  predicate Blank(s: string) {
    TrimSpace(s) == ""
  }

  /** The text up to the first separator and the rest after it. */
  function Cut(s: string, sep: char): Option<(string, string)> {
    if s == "" then None
    else if s[0] == sep then Some(("", s[1..]))
    else match Cut(s[1..], sep)
         case None => None
         case Some((before, after)) => Some(([s[0]] + before, after))
  }

  lemma {:induction false} CutOf(before: string, sep: char, after: string)
    requires sep !in before
    ensures Cut(before + [sep] + after, sep) == Some((before, after))
  {
    var s := before + [sep] + after;
    if before == "" {
      assert s[1..] == after;
    } else {
      CutOf(before[1..], sep, after);
      assert s[1..] == before[1..] + [sep] + after;
      assert [before[0]] + before[1..] == before;
    }
  }

  lemma {:induction false} CutShorter(s: string, sep: char)
    ensures Cut(s, sep).Some? ==> |Cut(s, sep).value.1| < |s|
  {
    if s != "" && s[0] != sep { CutShorter(s[1..], sep); }
  }

  lemma {:induction false} CutJoins(s: string, sep: char)
    requires Cut(s, sep).Some?
    ensures var (before, after) := Cut(s, sep).value; s == before + [sep] + after && sep !in before
  {
    if s[0] != sep { CutJoins(s[1..], sep); }
  }

  lemma {:induction false} UncutHasNone(s: string, sep: char)
    requires Cut(s, sep).None?
    ensures sep !in s
  {
    if s != "" { UncutHasNone(s[1..], sep); }
  }
}
