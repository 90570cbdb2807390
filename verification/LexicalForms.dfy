/** The tokens of the rewriter in closed form: what a number, an integer and a string literal look like. */
module LexicalForms {
  import opened WideInts

  // ----- numbers -----

  predicate IntPart(s: string) {
    s != "" && (s[0] == '-' || IsDigit(s[0])) && AllDigits(s[1..])
  }

  predicate FracPart(s: string) {
    s == "" || (s[0] == '.' && AllDigits(s[1..]))
  }

  predicate ExpPart(s: string) {
    || s == ""
    || (s[0] in {'e', 'E'} && (|s| == 1 || ((s[1] in {'+', '-'} || IsDigit(s[1])) && AllDigits(s[2..]))))
  }

  /** An integer part up to `i`, a fraction up to `j` and an exponent behind it. */
  predicate HasParts(s: string, i: nat, j: nat) {
    i <= j <= |s| && IntPart(s[..i]) && FracPart(s[i..j]) && ExpPart(s[j..])
  }

  /** How far such a text has got. */
  function Reached(s: string, i: nat, j: nat): NumberState
    requires i <= j <= |s|
  {
    if |s| == j + 1 then Exp
    else if |s| == j + 2 && s[j + 1] in {'+', '-'} then ExpSign
    else if |s| > j then ExpDigits
    else if i < j then Frac
    else if s == "-" then Sign
    else Int
  }

  /** The parts without the last character. */
  predicate OneLess(s: string, i: nat, j: nat, i': nat, j': nat) {
    && |s| > 0 && i <= j <= |s| && HasParts(s[..|s| - 1], i', j')
    && Next(Reached(s[..|s| - 1], i', j'), s[|s| - 1]) == Reached(s, i, j)
  }

  lemma LessExponent(s: string, i: nat, j: nat)
    requires HasParts(s, i, j) && j < |s|
    ensures OneLess(s, i, j, i, j)
  {
    var n := |s| - 1;
    var p, e := s[..n], s[j..];
    assert p[..i] == s[..i] && p[i..j] == s[i..j] && p[j..] == e[..n - j];
    assert s[n] == e[n - j];
    if n > j + 1 { assert e[2..][n - j - 2] == s[n] && e[..n - j][2..] == e[2..][..n - j - 2]; }
  }

  lemma LessFraction(s: string, i: nat, j: nat)
    requires HasParts(s, i, j) && i < j == |s|
    ensures OneLess(s, i, j, i, j - 1)
  {
    var n := |s| - 1;
    var p, f := s[..n], s[i..j];
    assert p[..i] == s[..i] && p[i..n] == f[..n - i] && p[n..] == "";
    assert s[n] == f[n - i];
    if n > i { assert f[1..][n - i - 1] == s[n] && f[..n - i][1..] == f[1..][..n - i - 1]; }
  }

  lemma LessInteger(s: string)
    requires HasParts(s, |s|, |s|) && |s| > 1
    ensures OneLess(s, |s|, |s|, |s| - 1, |s| - 1)
  {
    var n := |s| - 1;
    var p := s[..n];
    assert s[..|s|] == s && p[..n] == p && p[n..n] == "" && p[n..] == "";
    assert s[1..][n - 1] == s[n] && p[1..] == s[1..][..n - 1];
  }

  lemma {:induction false} PartsReach(s: string, i: nat, j: nat)
    requires HasParts(s, i, j)
    ensures Scan(s) == Reached(s, i, j)
  {
    if |s| == 1 {
      assert s[..0] == "" && i == j == 1;
    } else {
      var i', j' := i, j;
      if j < |s| {
        LessExponent(s, i, j);
      } else if i < j {
        LessFraction(s, i, j);
        j' := j - 1;
      } else {
        LessInteger(s);
        i', j' := i - 1, j - 1;
      }
      PartsReach(s[..|s| - 1], i', j');
    }
  }

  lemma {:induction false} NumberSplits(s: string) returns (i: nat, j: nat)
    requires IsNumber(s)
    ensures HasParts(s, i, j)
  {
    var n := |s| - 1;
    if n == 0 {
      i, j := 1, 1;
      assert s[..n] == "" && Scan(s[..n]) == Start && s[..1] == s;
    } else {
      i, j := NumberSplits(s[..n]);
      PartsReach(s[..n], i, j);
      i, j := PartsWithNext(s, i, j);
    }
  }

  lemma MoreExponent(e: string, c: char)
    requires ExpPart(e) && Next(Reached("0" + e, 1, 1), c) != Dead && (e == "" ==> c in {'e', 'E'})
    ensures ExpPart(e + [c])
  {
    var t := "0" + e;
    if e == "" {
      assert e + [c] == [c];
    } else if |e| == 1 {
      assert Reached(t, 1, 1) == Exp && (e + [c])[2..] == "";
    } else {
      assert t[2] == e[1] && IsDigit(c);
      assert (e + [c])[2..] == e[2..] + [c];
    }
  }

  lemma SameExponent(p: string, i: nat, j: nat)
    requires i <= j < |p|
    ensures Reached(p, i, j) == Reached("0" + p[j..], 1, 1)
  {
  }

  lemma PartsWithNext(s: string, i: nat, j: nat) returns (i': nat, j': nat)
    requires |s| > 1 && HasParts(s[..|s| - 1], i, j) && Next(Reached(s[..|s| - 1], i, j), s[|s| - 1]) != Dead
    ensures HasParts(s, i', j')
  {
    var n, p := |s| - 1, s[..|s| - 1];
    var c := s[n];
    if j < n || c in {'e', 'E'} {
      i', j' := i, j;
      assert s[..i] == p[..i] && s[i..j] == p[i..j] && s[j..] == p[j..] + [c];
      if j < n { SameExponent(p, i, j); }
      MoreExponent(p[j..], c);
    } else if i < j || c == '.' {
      i', j' := i, |s|;
      assert s[..i] == p[..i] && s[i..|s|] == p[i..j] + [c] && s[|s|..] == "";
      assert (p[i..j] + [c])[1..] == if i < j then p[i..j][1..] + [c] else "";
    } else {
      i', j' := |s|, |s|;
      assert s[..|s|] == p[..i] + [c] && (p[..i] + [c])[1..] == p[..i][1..] + [c];
    }
  }

  /** A number literal is an integer part, which may be a sign alone, then a fraction and an exponent,
      either of which may be missing or without digits. */
  lemma NumberIff(s: string)
    ensures IsNumber(s) <==> exists i: nat, j: nat :: HasParts(s, i, j)
  {
    if IsNumber(s) {
      var i, j := NumberSplits(s);
    }
    forall i: nat, j: nat | HasParts(s, i, j) ensures IsNumber(s) { PartsReach(s, i, j); }
  }

  /** An integer literal is an optional sign and at least one digit, and is unsafe when its digits make
      more than 2^53 - 1. */
  lemma IntegerIff(t: string)
    ensures IsInteger(t) <==> t != "" && t != "-" && IntPart(t)
    ensures IsUnsafe(t) <==> IsInteger(t) && DigitsValue(if t[0] == '-' then t[1..] else t) > 9_007_199_254_740_991
  {
    if IsInteger(t) {
      IntegerShape(t);
    } else if t != "" && t != "-" && IntPart(t) {
      assert t[..|t|] == t;
      PartsReach(t, |t|, |t|);
    }
  }

  // ----- strings -----

  /** What may stand between the quotes: escapes, each with the character it escapes, and any other
      character but a quote. */
  predicate IsBody(b: string) {
    || b == ""
    || (|b| >= 2 && b[0] == BACKSLASH && IsBody(b[2..]))
    || (b[0] != BACKSLASH && b[0] != QUOTE && IsBody(b[1..]))
  }

  lemma {:induction false} PastStays(a: string, b: string)
    requires ScanString(a) in {Closed, Past}
    ensures ScanString(a + b) in {Closed, Past} && (b != "" ==> ScanString(a + b) == Past)
  {
    if b == "" {
      assert a + b == a;
    } else {
      PastStays(a, b[..|b| - 1]);
      assert (a + b)[..|a + b| - 1] == a + b[..|b| - 1];
    }
  }

  lemma ScanOneMore(a: string, c: char)
    ensures ScanString(a + [c]) == NextInString(ScanString(a), c)
  {
    assert (a + [c])[..|a|] == a;
  }

  lemma {:induction false} InsideIff(a: string, b: string)
    requires ScanString(a) == Inside
    ensures ScanString(a + b) == Inside <==> IsBody(b)
    decreases |b|
  {
    if b == "" {
      assert a + b == a;
    } else {
      ScanOneMore(a, b[0]);
      assert a + b == a + [b[0]] + b[1..];
      if b[0] == QUOTE {
        PastStays(a + [b[0]], b[1..]);
      } else if b[0] != BACKSLASH {
        InsideIff(a + [b[0]], b[1..]);
      } else if |b| > 1 {
        ScanOneMore(a + [b[0]], b[1]);
        assert a + b == a + [b[0]] + [b[1]] + b[2..];
        InsideIff(a + [b[0]] + [b[1]], b[2..]);
      } else {
        assert a + b == a + [b[0]];
      }
    }
  }

  /** A closed string literal is a body between quotes. */
  lemma ClosedIff(t: string)
    ensures ScanString(t) == Closed <==> |t| >= 2 && t[0] == QUOTE && t[|t| - 1] == QUOTE && IsBody(t[1..|t| - 1])
  {
    if |t| >= 2 {
      var n := |t| - 1;
      assert t[..n] == t[..1] + t[1..n];
      assert t[..1][..0] == "";
      if t[0] == QUOTE {
        InsideIff(t[..1], t[1..n]);
      } else {
        PastStays(t[..1], t[1..n]);
      }
    } else if |t| == 1 {
      assert t[..0] == "";
    }
  }

  // ----- the output, token by token -----

  /** The output is its tokens written one after the other, an integer beyond 2^53 - 1 either way in
      quotes and every other token as it was. */
  ghost predicate TokenByToken(ts: seq<string>, pieces: seq<string>) {
    && |pieces| == |ts|
    && forall i :: 0 <= i < |ts| ==>
         if ts[i] != "-" && IntPart(ts[i]) && DigitsValue(if ts[i][0] == '-' then ts[i][1..] else ts[i]) > 9_007_199_254_740_991
         then pieces[i] == "\"" + ts[i] + "\""
         else pieces[i] == ts[i]
  }

  lemma {:induction false} RenderedByToken(ts: seq<string>) returns (pieces: seq<string>)
    ensures TokenByToken(ts, pieces) && RenderAll(ts) == Concat(pieces)
  {
    pieces := [];
    if ts != [] {
      var rest := RenderedByToken(ts[1..]);
      pieces := [Render(ts[0])] + rest;
      IntegerIff(ts[0]);
      assert pieces[1..] == rest;
      forall i | 0 <= i < |ts[1..]| ensures ts[i + 1] == ts[1..][i] && pieces[i + 1] == rest[i] {}
    }
  }

  /** For every division of a text into tokens of the grammar. */
  lemma QuotedByToken(raw: string, ts: seq<string>) returns (pieces: seq<string>)
    requires IsLexing(raw, ts)
    ensures raw == Concat(ts) && Quoted(raw) == Concat(pieces) && TokenByToken(ts, pieces)
  {
    QuotesExactlyTheUnsafeTokens(raw, ts);
    pieces := RenderedByToken(ts);
  }
}
