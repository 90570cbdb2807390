/** The TypeScript client's rewriter that quotes the integers JSON.parse would round: a lexer over
    arbitrary text, proved against a lexical grammar, the safe-integer bounds and itself. */
module WideInts {
  const MAX_SAFE := 9007199254740991
  const MIN_SAFE := -9007199254740991

  const QUOTE: char := '"'
  const BACKSLASH: char := '\\'

  // ----- the lexical grammar -----

  predicate IsDigit(c: char) {
    '0' <= c <= '9'
  }

  predicate StartsNumber(c: char) {
    c == '-' || IsDigit(c)
  }

  /** How far into a number literal (section 6 of RFC 8259, with optional digits) a text has got. */
  datatype NumberState = Start | Sign | Int | Frac | Exp | ExpSign | ExpDigits | Dead

  function Next(st: NumberState, c: char): NumberState {
    match st
    case Start => if c == '-' then Sign else if IsDigit(c) then Int else Dead
    case Sign => AfterInt(c)
    case Int => AfterInt(c)
    case Frac => if IsDigit(c) then Frac else if c == 'e' || c == 'E' then Exp else Dead
    case Exp => if c == '+' || c == '-' then ExpSign else if IsDigit(c) then ExpDigits else Dead
    case ExpSign => if IsDigit(c) then ExpDigits else Dead
    case ExpDigits => if IsDigit(c) then ExpDigits else Dead
    case Dead => Dead
  }

  function AfterInt(c: char): NumberState {
    if IsDigit(c) then Int else if c == '.' then Frac else if c == 'e' || c == 'E' then Exp else Dead
  }

  function Scan(s: string): NumberState {
    if s == "" then Start else Next(Scan(s[..|s| - 1]), s[|s| - 1])
  }

  predicate IsNumber(s: string) {
    s != "" && Scan(s) != Dead
  }

  predicate IsInteger(s: string) {
    Scan(s) == Int
  }

  /** A string literal (section 7 of RFC 8259): what the scan of one has just read. */
  datatype StringState = Outside | Inside | Escaped | Closed | Past

  function NextInString(st: StringState, c: char): StringState {
    match st
    case Outside => if c == QUOTE then Inside else Past
    case Inside => if c == BACKSLASH then Escaped else if c == QUOTE then Closed else Inside
    case Escaped => Inside
    case Closed => Past
    case Past => Past
  }

  function ScanString(s: string): StringState {
    if s == "" then Outside else NextInString(ScanString(s[..|s| - 1]), s[|s| - 1])
  }

  /** `t` is the first token of `rest`: a string literal up to its closing quote or the end of the
      text, a number literal that the next character cannot extend, or any other character. */
  predicate IsFirstToken(t: string, rest: string) {
    && t != "" && t <= rest
    && if rest[0] == QUOTE then ScanString(t) == Closed || (t == rest && ScanString(t) in {Inside, Escaped})
       else if StartsNumber(rest[0]) then IsNumber(t) && (t == rest || !IsNumber(rest[..|t| + 1]))
       else |t| == 1
  }

  function Concat(ts: seq<string>): string {
    if ts == [] then "" else ts[0] + Concat(ts[1..])
  }

  ghost predicate IsLexing(raw: string, ts: seq<string>)
    decreases |ts|
  {
    if ts == [] then raw == "" else IsFirstToken(ts[0], raw) && IsLexing(raw[|ts[0]|..], ts[1..])
  }

  // ----- which tokens are unsafe, and what happens to them -----

  predicate AllDigits(s: string) {
    forall i :: 0 <= i < |s| ==> IsDigit(s[i])
  }

  function DigitsValue(s: string): nat
    requires AllDigits(s)
  {
    if s == "" then 0 else 10 * DigitsValue(s[..|s| - 1]) + (s[|s| - 1] as int - '0' as int)
  }

  /** An integer token is an optional sign and at least one digit. */
  lemma {:induction false} IntegerShape(t: string)
    requires t != "" && (Scan(t) == Int || Scan(t) == Sign)
    ensures Scan(t) == Int ==> if t[0] == '-' then |t| > 1 && AllDigits(t[1..]) else AllDigits(t)
    ensures Scan(t) == Sign ==> t == "-"
  {
    var p := t[..|t| - 1];
    if p != "" {
      IntegerShape(p);
      assert t == p + [t[|t| - 1]];
      assert p[0] == t[0] && t[1..] == p[1..] + [t[|t| - 1]];
    } else {
      assert t == [t[0]];
      assert t[1..] == "";
    }
  }

  function IntegerValue(t: string): int
    requires IsInteger(t)
  {
    IntegerShape(t);
    if t[0] == '-' then 0 - DigitsValue(t[1..]) as int else DigitsValue(t)
  }

  predicate IsUnsafe(t: string) {
    IsInteger(t) && !(MIN_SAFE <= IntegerValue(t) <= MAX_SAFE)
  }

  function Render(t: string): string {
    if IsUnsafe(t) then [QUOTE] + t + [QUOTE] else t
  }

  function RenderAll(ts: seq<string>): string {
    if ts == [] then "" else Render(ts[0]) + RenderAll(ts[1..])
  }

  // ----- fifteen characters cannot hold an unsafe integer -----

  function Pow10(n: nat): nat {
    if n == 0 then 1 else 10 * Pow10(n - 1)
  }

  lemma {:induction false} DigitsBound(s: string)
    requires AllDigits(s)
    ensures DigitsValue(s) < Pow10(|s|)
  {
    if s != "" {
      DigitsBound(s[..|s| - 1]);
    }
  }

  lemma {:induction false} Pow10Grows(m: nat, n: nat)
    requires m <= n
    ensures Pow10(m) <= Pow10(n)
  {
    if m < n {
      Pow10Grows(m, n - 1);
    }
  }

  lemma Pow10Of15()
    ensures Pow10(15) == 1000000000000000
  {
    assert Pow10(5) == 100000;
    assert Pow10(10) == 10000000000;
  }

  /** The sixteen-character test in front of the BigInt comparison hides no unsafe integer. */
  lemma ShortIntegersAreSafe(t: string)
    requires IsInteger(t) && |t| < 16
    ensures !IsUnsafe(t)
  {
    IntegerShape(t);
    var digits := if t[0] == '-' then t[1..] else t;
    DigitsBound(digits);
    Pow10Grows(|digits|, 15);
    Pow10Of15();
  }

  // ----- the grammar determines the tokens -----

  lemma {:induction false} PrefixAlive(s: string, k: nat)
    requires k <= |s| && Scan(s) != Dead
    ensures Scan(s[..k]) != Dead
  {
    if k < |s| {
      PrefixAlive(s[..|s| - 1], k);
      assert s[..|s| - 1][..k] == s[..k];
    } else {
      assert s[..k] == s;
    }
  }

  lemma {:induction false} ClosedThenPast(s: string, k: nat)
    requires k < |s| && ScanString(s[..k]) in {Closed, Past}
    ensures ScanString(s) == Past
  {
    if k < |s| - 1 {
      assert s[..|s| - 1][..k] == s[..k];
      ClosedThenPast(s[..|s| - 1], k);
    }
  }

  lemma FirstTokenNotShorter(t: string, u: string, rest: string)
    requires IsFirstToken(t, rest) && IsFirstToken(u, rest)
    ensures |u| <= |t|
  {
    if |t| < |u| {
      assert u[..|t|] == t && u[..|t| + 1] == rest[..|t| + 1];
      if rest[0] == QUOTE {
        ClosedThenPast(u, |t|);
      } else if StartsNumber(rest[0]) {
        PrefixAlive(u, |t| + 1);
      }
    }
  }

  lemma FirstTokenUnique(t: string, u: string, rest: string)
    requires IsFirstToken(t, rest) && IsFirstToken(u, rest)
    ensures t == u
  {
    FirstTokenNotShorter(t, u, rest);
    FirstTokenNotShorter(u, t, rest);
  }

  function MunchNumber(rest: string, k: nat): (n: nat)
    requires k <= |rest| && IsNumber(rest[..k])
    ensures k <= n <= |rest| && IsNumber(rest[..n])
    ensures n == |rest| || !IsNumber(rest[..n + 1])
    decreases |rest| - k
  {
    if k == |rest| || !IsNumber(rest[..k + 1]) then k else MunchNumber(rest, k + 1)
  }

  function MunchString(rest: string, k: nat): (n: nat)
    requires k <= |rest| && ScanString(rest[..k]) in {Inside, Escaped}
    ensures k <= n <= |rest|
    ensures ScanString(rest[..n]) == Closed || (n == |rest| && ScanString(rest[..n]) in {Inside, Escaped})
    decreases |rest| - k
  {
    if k == |rest| then k
    else
      assert rest[..k + 1][..k] == rest[..k];
      if ScanString(rest[..k + 1]) == Closed then k + 1 else MunchString(rest, k + 1)
  }

  function FirstToken(rest: string): (t: string)
    requires rest != ""
    ensures IsFirstToken(t, rest)
  {
    assert rest[..1][..0] == "";
    if rest[0] == QUOTE then rest[..MunchString(rest, 1)]
    else if StartsNumber(rest[0]) then rest[..MunchNumber(rest, 1)]
    else rest[..1]
  }

  function Tokens(raw: string): seq<string> {
    if raw == "" then [] else [FirstToken(raw)] + Tokens(raw[|FirstToken(raw)|..])
  }

  lemma {:induction false} TokensLex(raw: string)
    ensures IsLexing(raw, Tokens(raw))
  {
    if raw != "" {
      TokensLex(raw[|FirstToken(raw)|..]);
    }
  }

  /** What the rewriter returns: every token rendered, in place. */
  function Quoted(raw: string): string {
    if raw == "" then "" else Render(FirstToken(raw)) + Quoted(raw[|FirstToken(raw)|..])
  }

  lemma {:induction false} LexingUnique(raw: string, ts: seq<string>)
    requires IsLexing(raw, ts)
    ensures ts == Tokens(raw)
    decreases |ts|
  {
    if ts != [] {
      FirstTokenUnique(ts[0], FirstToken(raw), raw);
      LexingUnique(raw[|ts[0]|..], ts[1..]);
    }
  }

  lemma {:induction false} LexingCovers(raw: string, ts: seq<string>)
    requires IsLexing(raw, ts)
    ensures raw == Concat(ts)
    decreases |ts|
  {
    if ts != [] {
      LexingCovers(raw[|ts[0]|..], ts[1..]);
      assert raw == ts[0] + raw[|ts[0]|..];
    }
  }

  lemma {:induction false} QuotedRendersTokens(raw: string)
    ensures Quoted(raw) == RenderAll(Tokens(raw))
  {
    if raw != "" {
      var t, ts := FirstToken(raw), Tokens(raw);
      assert ts == [t] + Tokens(raw[|t|..]);
      assert ts[1..] == Tokens(raw[|t|..]);
      QuotedRendersTokens(raw[|t|..]);
    }
  }

  /** Any division of the text into tokens of the grammar is the same division; the output is the
      input with a pair of quotes put around exactly its unsafe integer tokens. */
  lemma QuotesExactlyTheUnsafeTokens(raw: string, ts: seq<string>)
    requires IsLexing(raw, ts)
    ensures ts == Tokens(raw)
    ensures raw == Concat(ts)
    ensures Quoted(raw) == RenderAll(ts)
  {
    LexingUnique(raw, ts);
    LexingCovers(raw, ts);
    QuotedRendersTokens(raw);
  }

  // ----- rewriting twice is rewriting once -----

  lemma {:induction false} NoNumberStart(u: string)
    requires u != "" && !StartsNumber(u[0])
    ensures Scan(u) == Dead
  {
    if |u| > 1 {
      NoNumberStart(u[..|u| - 1]);
    } else {
      assert u[..0] == "";
    }
  }

  lemma HeadOfQuoted(rest: string)
    ensures Quoted(rest) == "" <==> rest == ""
    ensures rest != "" ==> Quoted(rest)[0] == QUOTE || Quoted(rest)[0] == rest[0]
  {
  }

  lemma NumberTokenStays(t: string, rest: string, q: string)
    requires rest != "" && StartsNumber(rest[0]) && IsFirstToken(t, rest)
    requires q == "" || q[0] == QUOTE || (|t| < |rest| && q[0] == rest[|t|])
    ensures IsFirstToken(t, t + q)
  {
    if q != "" {
      var longer := (t + q)[..|t| + 1];
      assert longer == t + [q[0]] && longer[..|t|] == t;
      if q[0] != QUOTE {
        assert longer == rest[..|t| + 1];
      }
    } else {
      assert t + q == t;
    }
  }

  lemma StringTokenStays(t: string, rest: string, q: string)
    requires rest != "" && rest[0] == QUOTE && IsFirstToken(t, rest)
    requires t == rest ==> q == ""
    ensures IsFirstToken(t, t + q)
  {
  }

  predicate NoQuoting(s: string) {
    QUOTE !in s && BACKSLASH !in s
  }

  lemma {:induction false} PlainStaysInside(s: string)
    requires NoQuoting(s)
    ensures ScanString([QUOTE] + s) == Inside
  {
    var u := [QUOTE] + s;
    if s != "" {
      PlainStaysInside(s[..|s| - 1]);
      assert u[..|u| - 1] == [QUOTE] + s[..|s| - 1];
    } else {
      assert u[..0] == "";
    }
  }

  lemma QuotedIntegerIsToken(t: string, q: string)
    requires IsInteger(t)
    ensures IsFirstToken([QUOTE] + t + [QUOTE], [QUOTE] + t + [QUOTE] + q)
  {
    IntegerShape(t);
    assert forall i :: 0 <= i < |t| ==> t[i] == '-' || IsDigit(t[i]) by {
      assert t[0] == '-' ==> forall i :: 1 <= i < |t| ==> t[i] == t[1..][i - 1];
    }
    PlainStaysInside(t);
    var u := [QUOTE] + t + [QUOTE];
    assert u[..|u| - 1] == [QUOTE] + t;
  }

  lemma RenderedTokenStays(t: string, rest: string)
    requires rest != "" && IsFirstToken(t, rest)
    ensures IsFirstToken(Render(t), Render(t) + Quoted(rest[|t|..]))
    ensures Render(Render(t)) == Render(t)
  {
    var q := Quoted(rest[|t|..]);
    HeadOfQuoted(rest[|t|..]);
    if IsUnsafe(t) {
      QuotedIntegerIsToken(t, q);
      NoNumberStart(Render(t));
    } else if rest[0] == QUOTE {
      StringTokenStays(t, rest, q);
    } else if StartsNumber(rest[0]) {
      NumberTokenStays(t, rest, q);
    }
  }

  lemma {:induction false} QuotedIdempotent(raw: string)
    ensures Quoted(Quoted(raw)) == Quoted(raw)
  {
    if raw != "" {
      var t := FirstToken(raw);
      var u, q := Render(t), Quoted(raw[|t|..]);
      RenderedTokenStays(t, raw);
      FirstTokenUnique(u, FirstToken(u + q), u + q);
      QuotedIdempotent(raw[|t|..]);
      assert (u + q)[|u|..] == q;
    }
  }

  lemma {:induction false} QuotedNotShorter(raw: string)
    ensures |Quoted(raw)| >= |raw|
  {
    if raw != "" {
      QuotedNotShorter(raw[|FirstToken(raw)|..]);
    }
  }

  predicate AllSafe(ts: seq<string>) {
    ts == [] || (!IsUnsafe(ts[0]) && AllSafe(ts[1..]))
  }

  lemma {:induction false} AllSafeAt(ts: seq<string>, i: nat)
    requires AllSafe(ts) && i < |ts|
    ensures !IsUnsafe(ts[i])
  {
    if i > 0 {
      AllSafeAt(ts[1..], i - 1);
    }
  }

  /** The text is left alone exactly when it has no unsafe integer token. */
  lemma {:induction false} UnchangedIffSafe(raw: string)
    ensures Quoted(raw) == raw <==> AllSafe(Tokens(raw))
  {
    if raw != "" {
      var t := FirstToken(raw);
      var rest := raw[|t|..];
      UnchangedIffSafe(rest);
      QuotedNotShorter(rest);
      SplitEqual(Render(t), Quoted(rest), t, rest);
      TokensCons(raw);
    }
  }

  lemma TokensCons(raw: string)
    requires raw != ""
    ensures
      var t := FirstToken(raw);
      raw == t + raw[|t|..] && Tokens(raw) != [] && Tokens(raw)[0] == t && Tokens(raw)[1..] == Tokens(raw[|t|..])
  {
  }

  lemma SplitEqual(u: string, q: string, t: string, rest: string)
    requires u == t || u == [QUOTE] + t + [QUOTE]
    requires |q| >= |rest|
    ensures u + q == t + rest <==> u == t && q == rest
  {
    if u + q == t + rest {
      assert |u| == |t|;
      assert u == (u + q)[..|t|] && t == (t + rest)[..|t|];
      assert q == (u + q)[|t|..] && rest == (t + rest)[|t|..];
    }
  }

  /** No unsafe integer is left outside the string literals of the output. */
  lemma NothingUnsafeIsLeft(raw: string, t: string)
    requires t in Tokens(Quoted(raw))
    ensures !IsUnsafe(t)
  {
    QuotedIdempotent(raw);
    UnchangedIffSafe(Quoted(raw));
    var i :| 0 <= i < |Tokens(Quoted(raw))| && Tokens(Quoted(raw))[i] == t;
    AllSafeAt(Tokens(Quoted(raw)), i);
  }

  // ----- the scanner -----

  /** quoteUnsafeIntegersInJSON: one pass over the text. */
  method QuoteUnsafeIntegers(raw: string) returns (out: string)
    ensures out == Quoted(raw)
  {
    out := "";
    var i := 0;
    while i < |raw|
      invariant 0 <= i <= |raw|
      invariant Emitted(raw, i, out)
    {
      var end, piece := ScanToken(raw, i);
      Emit(raw, i, end, out);
      out := out + piece;
      i := end;
    }
  }

  /** The body of the loop: copy a string literal, a number token or one character. */
  method ScanToken(raw: string, start: nat) returns (i: nat, piece: string)
    requires start < |raw|
    ensures start < i <= |raw| && IsFirstToken(raw[start..i], raw[start..]) && piece == Render(raw[start..i])
  {
    if raw[start] == QUOTE {
      i := SkipString(raw, start);
      piece := raw[start..i];
      NoNumberStart(piece);
    } else if StartsNumber(raw[start]) {
      var isInteger: bool;
      i, isInteger := SkipNumber(raw, start);
      piece := raw[start..i];
      if isInteger && |piece| < 16 {
        ShortIntegersAreSafe(piece);
      }
      if isInteger && |piece| >= 16 && !(MIN_SAFE <= IntegerValue(piece) <= MAX_SAFE) {
        piece := [QUOTE] + piece + [QUOTE];
      }
    } else {
      i := start + 1;
      piece := raw[start..i];
      NoNumberStart(piece);
    }
  }

  /** `out` is what the text before `i` becomes. */
  predicate Emitted(raw: string, i: nat, out: string)
    requires i <= |raw|
  {
    out + Quoted(raw[i..]) == Quoted(raw)
  }

  lemma Emit(raw: string, i: nat, end: nat, out: string)
    requires i < end <= |raw| && IsFirstToken(raw[i..end], raw[i..]) && Emitted(raw, i, out)
    ensures Emitted(raw, end, out + Render(raw[i..end]))
  {
    SliceOfSlice(raw, i, end);
    QuotedStep(raw[i..], raw[i..end], raw[end..]);
    Join(out, Render(raw[i..end]), Quoted(raw[end..]), Quoted(raw[i..]), Quoted(raw));
  }

  lemma QuotedStep(rest: string, t: string, tail: string)
    requires rest != "" && IsFirstToken(t, rest) && tail == rest[|t|..]
    ensures Quoted(rest) == Render(t) + Quoted(tail)
  {
    FirstTokenUnique(t, FirstToken(rest), rest);
  }

  lemma SliceOfSlice(raw: string, i: nat, end: nat)
    requires i <= end <= |raw|
    ensures raw[i..][|raw[i..end]|..] == raw[end..]
  {
  }

  lemma Join(out: string, piece: string, tail: string, rest: string, whole: string)
    requires out + rest == whole && rest == piece + tail
    ensures out + piece + tail == whole
  {
  }

  lemma ScanStringSnoc(raw: string, start: nat, i: nat)
    requires start <= i < |raw|
    ensures ScanString(raw[start..i + 1]) == NextInString(ScanString(raw[start..i]), raw[i])
  {
    assert raw[start..i + 1][..i - start] == raw[start..i];
  }

  /** The loop over a string literal; an escape skips two characters, possibly past the end. */
  method SkipString(raw: string, start: nat) returns (end: nat)
    requires start < |raw| && raw[start] == QUOTE
    ensures start < end <= |raw| && IsFirstToken(raw[start..end], raw[start..])
  {
    var i := start + 1;
    assert raw[start..start] == "";
    ScanStringSnoc(raw, start, start);
    while i < |raw|
      invariant start < i <= |raw| + 1
      invariant i <= |raw| ==> ScanString(raw[start..i]) == Inside
      invariant i == |raw| + 1 ==> ScanString(raw[start..|raw|]) == Escaped
    {
      ScanStringSnoc(raw, start, i);
      if raw[i] == BACKSLASH {
        if i + 1 < |raw| {
          ScanStringSnoc(raw, start, i + 1);
        }
        i := i + 2;
      } else if raw[i] == QUOTE {
        return i + 1;
      } else {
        i := i + 1;
      }
    }
    end := if i <= |raw| then i else |raw|;
    assert raw[start..end] == raw[start..];
  }

  function AfterDigits(st: NumberState): NumberState {
    match st
    case Start => Int
    case Sign => Int
    case Int => Int
    case Frac => Frac
    case Dead => Dead
    case _ => ExpDigits
  }

  lemma ScanSnoc(raw: string, start: nat, i: nat)
    requires start <= i < |raw|
    ensures Scan(raw[start..i + 1]) == Next(Scan(raw[start..i]), raw[i])
  {
    assert raw[start..i + 1][..i - start] == raw[start..i];
  }

  /** One run of digits inside a number token. */
  method SkipDigits(raw: string, start: nat, from: nat) returns (i: nat)
    requires start <= from <= |raw|
    ensures from <= i <= |raw|
    ensures Scan(raw[start..i]) == if i == from then Scan(raw[start..from]) else AfterDigits(Scan(raw[start..from]))
    ensures i < |raw| ==> !IsDigit(raw[i])
  {
    i := from;
    while i < |raw| && IsDigit(raw[i])
      invariant from <= i <= |raw|
      invariant Scan(raw[start..i]) == if i == from then Scan(raw[start..from]) else AfterDigits(Scan(raw[start..from]))
    {
      ScanSnoc(raw, start, i);
      i := i + 1;
    }
  }

  method SkipFraction(raw: string, start: nat, from: nat) returns (i: nat, fraction: bool)
    requires start <= from <= |raw| && Scan(raw[start..from]) in {Sign, Int}
    requires from < |raw| ==> !IsDigit(raw[from])
    ensures from <= i <= |raw| && fraction == (i > from)
    ensures Scan(raw[start..i]) == if fraction then Frac else Scan(raw[start..from])
    ensures i < |raw| ==> !IsDigit(raw[i]) && (!fraction ==> raw[i] != '.')
  {
    i, fraction := from, false;
    if i < |raw| && raw[i] == '.' {
      fraction := true;
      ScanSnoc(raw, start, i);
      i := SkipDigits(raw, start, i + 1);
    }
  }

  /** What may follow the "e" of an exponent. */
  method SkipExponentDigits(raw: string, start: nat, from: nat) returns (i: nat)
    requires start <= from <= |raw| && Scan(raw[start..from]) == Exp
    ensures from <= i <= |raw|
    ensures var st := Scan(raw[start..i]); st == Exp || st == ExpSign || st == ExpDigits
    ensures i < |raw| ==> Next(Scan(raw[start..i]), raw[i]) == Dead
  {
    i := from;
    if i < |raw| && (raw[i] == '+' || raw[i] == '-') {
      ScanSnoc(raw, start, i);
      i := i + 1;
    }
    i := SkipDigits(raw, start, i);
  }

  method SkipExponent(raw: string, start: nat, from: nat) returns (i: nat, exponent: bool)
    requires start <= from <= |raw| && Scan(raw[start..from]) in {Sign, Int, Frac}
    requires from < |raw| ==> !IsDigit(raw[from]) && (Scan(raw[start..from]) != Frac ==> raw[from] != '.')
    ensures from <= i <= |raw| && exponent == (i > from)
    ensures Scan(raw[start..i]) in if exponent then {Exp, ExpSign, ExpDigits} else {Scan(raw[start..from])}
    ensures i < |raw| ==> Next(Scan(raw[start..i]), raw[i]) == Dead
  {
    i, exponent := from, false;
    if i < |raw| && (raw[i] == 'e' || raw[i] == 'E') {
      exponent := true;
      ScanSnoc(raw, start, i);
      i := SkipExponentDigits(raw, start, i + 1);
    }
  }

  /** The number token at `start`, and whether it is an integer: digits, no fraction, no exponent. */
  method SkipNumber(raw: string, start: nat) returns (i: nat, isInteger: bool)
    requires start < |raw| && StartsNumber(raw[start])
    ensures start < i <= |raw| && IsFirstToken(raw[start..i], raw[start..])
    ensures isInteger <==> IsInteger(raw[start..i])
  {
    i := start;
    if raw[i] == '-' {
      ScanSnoc(raw, start, i);
      i := i + 1;
    }
    var digitsStart := i;
    i := SkipDigits(raw, start, digitsStart);
    var hasDigits := i > digitsStart;
    var fraction, exponent: bool;
    i, fraction := SkipFraction(raw, start, i);
    i, exponent := SkipExponent(raw, start, i);
    isInteger := hasDigits && !fraction && !exponent;
    NumberTokenEnds(raw, start, i);
  }

  lemma NumberTokenEnds(raw: string, start: nat, i: nat)
    requires start < i <= |raw| && StartsNumber(raw[start])
    requires Scan(raw[start..i]) != Dead && (i < |raw| ==> Next(Scan(raw[start..i]), raw[i]) == Dead)
    ensures IsFirstToken(raw[start..i], raw[start..])
  {
    if i < |raw| {
      ScanSnoc(raw, start, i);
      assert raw[start..i + 1] == raw[start..][..i - start + 1];
    } else {
      assert raw[start..i] == raw[start..];
    }
  }
}
