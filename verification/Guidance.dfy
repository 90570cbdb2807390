/** Runbook links and response guidance: what the store makes of them before it writes them. */
module Guidance {
  import opened Wrappers
  import opened Text

  const MAX_RUNBOOK_URL_LEN := 2048
  const MAX_RESPONSE_GUIDANCE_LEN := 500

  predicate IsControl(c: char) {
    c < ' ' || '\U{007F}' <= c <= '\U{009F}'
  }

  /** The length of a text in UTF-8. */
  function ByteLength(s: string): nat {
    if s == "" then 0
    else
      var c := s[0];
      (if c < '\U{0080}' then 1 else if c < '\U{0800}' then 2 else if c < '\U{10000}' then 3 else 4) + ByteLength(s[1..])
  }

  // ----- runbook links -----

  predicate NoBlanks(s: string) {
    forall i :: 0 <= i < |s| ==> s[i] > ' ' && !IsSpace(s[i]) && !IsControl(s[i])
  }

  /** ValidateRunbookURL: the link to store, or None. `scheme` stands for url.Parse: the lower-case
      scheme of a text that parses as a link with a host. */
  function ValidateRunbookURL(raw: string, scheme: string -> Option<string>): Option<string> {
    var t := TrimSpace(raw);
    if t == "" then Some("")
    else if ByteLength(t) > MAX_RUNBOOK_URL_LEN || !NoBlanks(t) || scheme(t).None? then None
    else
      var x := scheme(t).value;
      if (x != "http" && x != "https") || |x| > |t| then None else Some(x + t[|x|..])
  }

  /** Writing the scheme of a link in lower case leaves it the same link. */
  ghost predicate LawfulUrls(scheme: string -> Option<string>) {
    forall t {:trigger scheme(t)} :: scheme(t).Some? && |scheme(t).value| <= |t| ==>
      scheme(scheme(t).value + t[|scheme(t).value|..]) == scheme(t)
  }

  lemma {:induction false} BytesOfTail(s: string, k: nat)
    requires k <= |s|
    ensures k + ByteLength(s[k..]) <= ByteLength(s)
  {
    if k > 0 {
      BytesOfTail(s[1..], k - 1);
      assert s[1..][k - 1..] == s[k..];
    }
  }

  lemma {:induction false} BytesOfJoin(a: string, b: string)
    requires forall i :: 0 <= i < |a| ==> a[i] < '\U{0080}'
    ensures ByteLength(a + b) == |a| + ByteLength(b)
  {
    if a == "" {
      assert a + b == b;
    } else {
      BytesOfJoin(a[1..], b);
      assert (a + b)[1..] == a[1..] + b;
    }
  }

  lemma NothingToTrim(s: string)
    requires s == "" || (!IsSpace(s[0]) && !IsSpace(s[|s| - 1]))
    ensures TrimSpace(s) == s
  {
  }

  lemma JoinIsPlain(a: string, b: string)
    requires NoBlanks(a) && NoBlanks(b)
    ensures NoBlanks(a + b)
  {
  }

  lemma PlainIsTrimmed(s: string)
    requires NoBlanks(s)
    ensures TrimSpace(s) == s
  {
    NothingToTrim(s);
  }

  lemma SchemeIsPlain(x: string)
    requires x == "http" || x == "https"
    ensures NoBlanks(x) && forall i :: 0 <= i < |x| ==> x[i] < '\U{0080}'
  {
    forall i | 0 <= i < |x| ensures 'a' <= x[i] <= 'z' {
      assert x[i] in ['h', 't', 'p', 's'];
    }
  }

  lemma LowerSchemeIsPlain(x: string, t: string)
    requires NoBlanks(x) && (forall i :: 0 <= i < |x| ==> x[i] < '\U{0080}') && |x| <= |t| && NoBlanks(t)
    ensures NoBlanks(x + t[|x|..]) && TrimSpace(x + t[|x|..]) == x + t[|x|..]
    ensures ByteLength(x + t[|x|..]) <= ByteLength(t)
  {
    JoinIsPlain(x, t[|x|..]);
    PlainIsTrimmed(x + t[|x|..]);
    BytesOfJoin(x, t[|x|..]);
    BytesOfTail(t, |x|);
  }

  /** A stored link is stored as it is when it is written again. */
  lemma RunbookURLStays(raw: string, scheme: string -> Option<string>)
    requires LawfulUrls(scheme) && ValidateRunbookURL(raw, scheme).Some?
    ensures var u := ValidateRunbookURL(raw, scheme).value; ValidateRunbookURL(u, scheme) == Some(u)
  {
    var t := TrimSpace(raw);
    if t == "" {
      NothingToTrim("");
    } else {
      var x := scheme(t).value;
      SchemeIsPlain(x);
      LowerSchemeIsPlain(x, t);
      var u := x + t[|x|..];
      assert scheme(u) == Some(x) && u[|x|..] == t[|x|..];
    }
  }

  /** On the text: a link is stored as it is exactly when nothing is to be trimmed and its scheme is
      in lower case. */
  predicate LinkKept(u: string, scheme: string -> Option<string>) {
    TrimSpace(u) == u && (u == "" || (scheme(u).Some? && scheme(u).value <= u))
  }

  lemma LinkKeptIff(u: string, scheme: string -> Option<string>)
    requires ValidateRunbookURL(u, scheme).Some?
    ensures ValidateRunbookURL(u, scheme) == Some(u) <==> LinkKept(u, scheme)
  {
    var t := TrimSpace(u);
    if t != "" {
      var x := scheme(t).value;
      SchemeIsPlain(x);
      if t == u {
        assert x + u[|x|..] == u <==> x <= u;
      } else {
        TrimShrinks(u);
      }
    }
  }

  lemma {:induction false} TrimLeftShrinks(s: string)
    ensures TrimLeft(s) == s || |TrimLeft(s)| < |s|
  {
    if s != "" && IsSpace(s[0]) { TrimLeftShrinks(s[1..]); }
  }

  lemma TrimShrinks(s: string)
    ensures TrimSpace(s) == s || |TrimSpace(s)| < |s|
  {
    TrimLeftShrinks(s);
    TrimRightShrinks(TrimLeft(s));
  }

  /** A link is stored as none exactly when it is blank. */
  lemma BlankLinkIff(u: string, scheme: string -> Option<string>)
    requires ValidateRunbookURL(u, scheme).Some?
    ensures ValidateRunbookURL(u, scheme) == Some("") <==> Blank(u)
  {
  }

  // ----- response guidance -----

  /** "\r\n" and "\r" become "\n". */
  function PlainNewlines(s: string): string {
    if s == "" then ""
    else if s[0] == '\r' then "\n" + PlainNewlines(if |s| > 1 && s[1] == '\n' then s[2..] else s[1..])
    else [s[0]] + PlainNewlines(s[1..])
  }

  predicate Printable(s: string) {
    forall i :: 0 <= i < |s| ==> s[i] == '\n' || s[i] == '\t' || !IsControl(s[i])
  }

  /** ValidateResponseGuidance: the note to store, or None. */
  function ValidateResponseGuidance(raw: string): Option<string> {
    var t := TrimSpace(PlainNewlines(raw));
    if |t| <= MAX_RESPONSE_GUIDANCE_LEN && Printable(t) then Some(t) else None
  }

  lemma {:induction false} PrintableIsPlain(s: string)
    requires Printable(s)
    ensures PlainNewlines(s) == s
  {
    if s != "" {
      PrintableIsPlain(s[1..]);
      assert s == [s[0]] + s[1..];
    }
  }

  lemma {:induction false} TrimRightEnds(s: string)
    ensures var r := TrimRight(s); r == "" || !IsSpace(r[|r| - 1])
  {
    if s != "" && IsSpace(s[|s| - 1]) { TrimRightEnds(s[..|s| - 1]); }
  }

  lemma {:induction false} TrimLeftStarts(s: string)
    ensures var r := TrimLeft(s); r == "" || !IsSpace(r[0])
  {
    if s != "" && IsSpace(s[0]) { TrimLeftStarts(s[1..]); }
  }

  lemma {:induction false} TrimRightStarts(s: string)
    requires s == "" || !IsSpace(s[0])
    ensures var r := TrimRight(s); r == "" || r[0] == s[0]
  {
    if s != "" && IsSpace(s[|s| - 1]) { TrimRightStarts(s[..|s| - 1]); }
  }

  lemma TrimmedTwice(s: string)
    ensures TrimSpace(TrimSpace(s)) == TrimSpace(s)
  {
    TrimLeftStarts(s);
    TrimRightStarts(TrimLeft(s));
    TrimRightEnds(TrimLeft(s));
    NothingToTrim(TrimSpace(s));
  }

  /** A stored note is stored as it is when it is written again. */
  lemma ResponseGuidanceStays(raw: string)
    requires ValidateResponseGuidance(raw).Some?
    ensures var g := ValidateResponseGuidance(raw).value; ValidateResponseGuidance(g) == Some(g)
  {
    var t := TrimSpace(PlainNewlines(raw));
    PrintableIsPlain(t);
    TrimmedTwice(PlainNewlines(raw));
  }

  lemma {:induction false} NoReturns(s: string)
    ensures '\r' !in PlainNewlines(s)
  {
    if s != "" {
      NoReturns(if s[0] == '\r' && |s| > 1 && s[1] == '\n' then s[2..] else s[1..]);
    }
  }

  lemma {:induction false} WithoutReturns(s: string)
    requires '\r' !in s
    ensures PlainNewlines(s) == s
  {
    if s != "" {
      WithoutReturns(s[1..]);
      assert s == [s[0]] + s[1..];
    }
  }

  /** The first carriage return of a text becomes a newline, together with the newline behind it if
      there is one; what stands before it stays. */
  lemma {:induction false} NewlinesAreReplaced(before: string, after: string)
    requires '\r' !in before
    ensures PlainNewlines(before + "\r\n" + after) == before + "\n" + PlainNewlines(after)
    ensures after == "" || after[0] != '\n' ==>
              PlainNewlines(before + "\r" + after) == before + "\n" + PlainNewlines(after)
  {
    var pair, single := before + "\r\n" + after, before + "\r" + after;
    if before == "" {
      assert pair[2..] == after && single[1..] == after;
    } else {
      NewlinesAreReplaced(before[1..], after);
      assert pair[1..] == before[1..] + "\r\n" + after && single[1..] == before[1..] + "\r" + after;
      assert before == [before[0]] + before[1..];
    }
  }

  lemma {:induction false} TrimLeftMembers(s: string, c: char)
    ensures c in TrimLeft(s) ==> c in s
  {
    if s != "" && IsSpace(s[0]) { TrimLeftMembers(s[1..], c); }
  }

  lemma {:induction false} TrimRightMembers(s: string, c: char)
    ensures c in TrimRight(s) ==> c in s
  {
    if s != "" && IsSpace(s[|s| - 1]) { TrimRightMembers(s[..|s| - 1], c); }
  }

  /** On the text: a note is stored as it is exactly when nothing is to be trimmed and it has no
      carriage return. */
  predicate NoteKept(g: string) {
    TrimSpace(g) == g && '\r' !in g
  }

  lemma NoteKeptIff(g: string)
    requires ValidateResponseGuidance(g).Some?
    ensures ValidateResponseGuidance(g) == Some(g) <==> NoteKept(g)
  {
    var plain := PlainNewlines(g);
    NoReturns(g);
    TrimLeftMembers(plain, '\r');
    TrimRightMembers(TrimLeft(plain), '\r');
    if '\r' !in g {
      WithoutReturns(g);
    }
  }

  predicate AllSpace(s: string) {
    forall i :: 0 <= i < |s| ==> IsSpace(s[i])
  }

  lemma {:induction false} TrimLeftEmptyIff(s: string)
    ensures TrimLeft(s) == "" <==> AllSpace(s)
  {
    if s != "" && IsSpace(s[0]) {
      TrimLeftEmptyIff(s[1..]);
      assert s == [s[0]] + s[1..];
    }
  }

  lemma BlankIff(s: string)
    ensures Blank(s) <==> AllSpace(s)
  {
    TrimLeftEmptyIff(s);
    TrimLeftStarts(s);
    if TrimLeft(s) != "" {
      TrimRightKeepsFirst(TrimLeft(s));
    }
  }

  lemma {:induction false} PlainAllSpaceIff(s: string)
    ensures AllSpace(PlainNewlines(s)) <==> AllSpace(s)
  {
    if s != "" {
      var n := if s[0] == '\r' && |s| > 1 && s[1] == '\n' then 2 else 1;
      var c := if s[0] == '\r' then '\n' else s[0];
      PlainAllSpaceIff(s[n..]);
      assert PlainNewlines(s) == [c] + PlainNewlines(s[n..]);
      AllSpaceJoin([c], PlainNewlines(s[n..]));
      assert s == s[..n] + s[n..];
      AllSpaceJoin(s[..n], s[n..]);
      OneSpace(c);
      OneSpace(s[0]);
      assert s[..n] == if n == 1 then [s[0]] else ['\r', '\n'];
    }
  }

  lemma OneSpace(c: char)
    ensures AllSpace([c]) <==> IsSpace(c)
  {
    assert [c][0] == c;
  }

  lemma AllSpaceJoin(a: string, b: string)
    ensures AllSpace(a + b) <==> AllSpace(a) && AllSpace(b)
  {
    if AllSpace(a + b) {
      forall i | 0 <= i < |a| ensures IsSpace(a[i]) { assert (a + b)[i] == a[i]; }
      forall i | 0 <= i < |b| ensures IsSpace(b[i]) { assert (a + b)[|a| + i] == b[i]; }
    }
  }

  /** A note is stored as none exactly when it is blank. */
  lemma BlankNoteIff(g: string)
    requires ValidateResponseGuidance(g).Some?
    ensures ValidateResponseGuidance(g) == Some("") <==> Blank(g)
  {
    BlankIff(g);
    BlankIff(PlainNewlines(g));
    PlainAllSpaceIff(g);
  }
}
