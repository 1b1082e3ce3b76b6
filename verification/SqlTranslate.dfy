/**
  Placeholder numbering (server/sql-translate.ts).

  `Lex` is the reference reading of a statement: it cuts the text into whole literals,
  quoted identifiers and comments, single plain characters, and placeholders.
  `TranslateSql` is the source's character loop over five states.
 */
module SqlTranslate {

  datatype Token = Plain(c: char) | Verbatim(text: string) | Placeholder
  datatype Tokens = Nil | Cons(head: Token, tail: Tokens)

  type Digit = c: char | '0' <= c <= '9' witness '0'

  /** The body of a literal or quoted identifier, closing quote included; a doubled quote does not close it. */
  function QuotedLen(s: string, q: char): (n: nat)
    ensures n <= |s|
    ensures n < |s| ==> s[n] != q
  {
    if s == "" then 0
    else if s[0] != q then 1 + QuotedLen(s[1..], q)
    else if 1 < |s| && s[1] == q then 2 + QuotedLen(s[2..], q)
    else 1
  }

  function LineLen(s: string): (n: nat)
    ensures n <= |s|
  {
    if s == "" then 0 else if s[0] == '\n' then 1 else 1 + LineLen(s[1..])
  }

  function BlockLen(s: string): (n: nat)
    ensures n <= |s|
  {
    if s == "" then 0
    else if 1 < |s| && s[0] == '*' && s[1] == '/' then 2
    else 1 + BlockLen(s[1..])
  }

  datatype State = Normal | Single | Double | LineComment | BlockComment

  /** The region that starts at the head of `s`; `Normal` when none does. */
  function Opening(s: string): State {
    if s == "" then Normal
    else if s[0] == '\'' then Single
    else if s[0] == '"' then Double
    else if 1 < |s| && s[0] == '-' && s[1] == '-' then LineComment
    else if 1 < |s| && s[0] == '/' && s[1] == '*' then BlockComment
    else Normal
  }

  function OpeningLen(st: State): nat {
    if st == Normal then 0 else if st == Single || st == Double then 1 else 2
  }

  /** How much of `s`, entered in state `st`, still belongs to the region. */
  function BodyLen(s: string, st: State): (n: nat)
    ensures n <= |s|
  {
    match st
    case Normal => 0
    case Single => QuotedLen(s, '\'')
    case Double => QuotedLen(s, '"')
    case LineComment => LineLen(s)
    case BlockComment => BlockLen(s)
  }

  function RegionLen(s: string): (n: nat)
    requires Opening(s) != Normal
    ensures 0 < n <= |s|
  {
    var k := OpeningLen(Opening(s));
    k + BodyLen(s[k..], Opening(s))
  }

  function Lex(s: string): Tokens
    decreases |s|
  {
    if s == "" then Nil
    else if Opening(s) != Normal then Cons(Verbatim(s[..RegionLen(s)]), Lex(s[RegionLen(s)..]))
    else Cons(if s[0] == '?' then Placeholder else Plain(s[0]), Lex(s[1..]))
  }

  function Count(ts: Tokens): nat {
    match ts
    case Nil => 0
    case Cons(t, rest) => (if t.Placeholder? then 1 else 0) + Count(rest)
  }

  /** The statement text the tokens were read from. */
  function Source(ts: Tokens): string {
    match ts
    case Nil => ""
    case Cons(Plain(c), rest) => [c] + Source(rest)
    case Cons(Verbatim(w), rest) => w + Source(rest)
    case Cons(Placeholder, rest) => "?" + Source(rest)
  }

  function Decimal(n: nat): (s: seq<Digit>)
    ensures s != []
  {
    if n < 10 then [('0' as int + n) as char]
    else Decimal(n / 10) + [('0' as int + n % 10) as char]
  }

  /** Verbatim regions and plain text unchanged, placeholders numbered from `k + 1`. */
  function Render(ts: Tokens, k: nat): string {
    match ts
    case Nil => ""
    case Cons(Plain(c), rest) => [c] + Render(rest, k)
    case Cons(Verbatim(w), rest) => w + Render(rest, k)
    case Cons(Placeholder, rest) => "$" + Decimal(k + 1) + Render(rest, k + 1)
  }

  // --- The source's loop ---

  /** What the loop still has to emit from `rest`, entered in state `st` with `k` numbers used. */
  ghost function Remaining(rest: string, st: State, k: nat): string {
    rest[..BodyLen(rest, st)] + Render(Lex(rest[BodyLen(rest, st)..]), k)
  }

  ghost function RemainingCount(rest: string, st: State): nat {
    Count(Lex(rest[BodyLen(rest, st)..]))
  }

  /** Inside a region: `n` characters are copied and the region, open or just closed, continues. */
  lemma CopyInside(rest: string, st: State, k: nat, n: nat, st': State)
    requires n <= |rest| && BodyLen(rest, st) == n + BodyLen(rest[n..], st')
    ensures Remaining(rest, st, k) == rest[..n] + Remaining(rest[n..], st', k)
    ensures RemainingCount(rest, st) == RemainingCount(rest[n..], st')
  {
    hide Lex, Render, Count, BodyLen;
    var m := BodyLen(rest[n..], st');
    assert rest[n..][m..] == rest[n + m..];
    assert rest[..n + m] == rest[..n] + rest[n..][..m];
  }

  lemma Open(rest: string, k: nat)
    requires Opening(rest) != Normal
    ensures var st, n := Opening(rest), OpeningLen(Opening(rest));
            Remaining(rest, Normal, k) == rest[..n] + Remaining(rest[n..], st, k)
            && RemainingCount(rest, Normal) == RemainingCount(rest[n..], st)
  {
    var st := Opening(rest);
    var n := OpeningLen(st);
    var m := BodyLen(rest[n..], st);
    assert rest[0..] == rest && rest[..0] == "";
    assert rest[n..][m..] == rest[n + m..];
    assert rest[..n + m] == rest[..n] + rest[n..][..m];
  }

  lemma CopyPlain(rest: string, k: nat)
    requires rest != "" && Opening(rest) == Normal
    ensures rest[0] != '?' ==> Remaining(rest, Normal, k) == rest[..1] + Remaining(rest[1..], Normal, k)
    ensures rest[0] == '?' ==> Remaining(rest, Normal, k) == "$" + Decimal(k + 1) + Remaining(rest[1..], Normal, k + 1)
    ensures RemainingCount(rest, Normal) == RemainingCount(rest[1..], Normal) + if rest[0] == '?' then 1 else 0
  {
    var tail := rest[1..];
    assert rest[0..] == rest && rest[..0] == "" && tail[0..] == tail && tail[..0] == "";
    assert rest[..1] == [rest[0]];
  }

  /** One iteration of the scan outside plain text: the characters consumed and the next state. */
  method InsideStep(rest: string, st: State) returns (n: nat, st': State)
    requires rest != "" && st != Normal
    ensures 0 < n <= |rest| && BodyLen(rest, st) == n + BodyLen(rest[n..], st')
  {
    n, st' := 1, st;
    var next := if 1 < |rest| then [rest[1]] else "";
    match st
    case Normal =>
    case Single =>
      if rest[0] == '\'' && next == "'" { n := 2; } else if rest[0] == '\'' { st' := Normal; }
    case Double =>
      if rest[0] == '"' && next == "\"" { n := 2; } else if rest[0] == '"' { st' := Normal; }
    case LineComment =>
      if rest[0] == '\n' { st' := Normal; }
    case BlockComment =>
      if rest[0] == '*' && next == "/" { n, st' := 2, Normal; }
  }

  /** What the loop has emitted, together with what it still has to emit, is the whole rendering. */
  ghost predicate Progress(sql: string, i: nat, text: string, st: State, k: nat) {
    && i <= |sql|
    && text + Remaining(sql[i..], st, k) == Render(Lex(sql), 0)
    && k + RemainingCount(sql[i..], st) == Count(Lex(sql))
  }

  lemma ProgressStarts(sql: string)
    ensures Progress(sql, 0, "", Normal, 0)
  {
    assert sql[0..] == sql && sql[..0] == "";
  }

  lemma ProgressEnds(sql: string, text: string, st: State, k: nat)
    requires Progress(sql, |sql|, text, st, k)
    ensures text == Render(Lex(sql), 0) && k == Count(Lex(sql))
  {
    assert sql[|sql|..] == "";
  }

  lemma Advance(sql: string, i: nat, text: string, st: State, k: nat, n: nat, piece: string, st': State, k': nat)
    requires Progress(sql, i, text, st, k) && i + n <= |sql|
    requires var rest := sql[i..];
             Remaining(rest, st, k) == piece + Remaining(rest[n..], st', k')
             && k + RemainingCount(rest, st) == k' + RemainingCount(rest[n..], st')
    ensures Progress(sql, i + n, text + piece, st', k')
  {
    assert sql[i..][n..] == sql[i + n..];
    assert text + (piece + Remaining(sql[i + n..], st', k')) == (text + piece) + Remaining(sql[i + n..], st', k');
  }

  method TranslateSql(sql: string) returns (text: string, paramCount: nat)
    ensures text == Render(Lex(sql), 0)
    ensures paramCount == Count(Lex(sql))
  {
    hide Progress, Remaining, RemainingCount, Lex, Render, Count, BodyLen;
    text, paramCount := "", 0;
    var state := Normal;
    var i := 0;
    ProgressStarts(sql);
    while i < |sql|
      invariant 0 <= i <= |sql|
      invariant Progress(sql, i, text, state, paramCount)
    {
      var rest := sql[i..];
      ghost var was, k := state, paramCount;
      var n, piece := 1, rest[..1];
      if state != Normal {
        n, state := InsideStep(rest, state);
        piece := rest[..n];
        CopyInside(rest, was, k, n, state);
      } else if Opening(rest) != Normal {
        state := Opening(rest);
        n := OpeningLen(state);
        piece := rest[..n];
        Open(rest, k);
      } else if rest[0] == '?' {
        paramCount := paramCount + 1;
        piece := "$" + Decimal(paramCount);
        CopyPlain(rest, k);
      } else {
        CopyPlain(rest, k);
      }
      Advance(sql, i, text, was, k, n, piece, state, paramCount);
      text, i := text + piece, i + n;
    }
    ProgressEnds(sql, text, state, paramCount);
  }

  // --- What the numbering means ---

  /** Nothing of the statement is lost: putting `?` back for every number gives the input. */
  lemma {:induction false} LexKeepsSource(s: string)
    ensures Source(Lex(s)) == s
    decreases |s|
  {
    if s == "" {
    } else if Opening(s) != Normal {
      var n := RegionLen(s);
      LexKeepsSource(s[n..]);
      assert s == s[..n] + s[n..];
    } else {
      LexKeepsSource(s[1..]);
      assert s == [s[0]] + s[1..];
    }
  }

  function PushPlain(d: string, ts: Tokens): Tokens {
    if d == "" then ts else Cons(Plain(d[0]), PushPlain(d[1..], ts))
  }

  /** The tokens of the translated text: each placeholder becomes a dollar sign and plain digits. */
  function Numbered(ts: Tokens, k: nat): Tokens {
    match ts
    case Nil => Nil
    case Cons(Placeholder, rest) => Cons(Plain('$'), PushPlain(Decimal(k + 1), Numbered(rest, k + 1)))
    case Cons(t, rest) => Cons(t, Numbered(rest, k))
  }

  lemma {:induction false} QuotedLenSwap(s: string, q: char, r: string)
    requires r == "" <==> QuotedLen(s, q) == |s|
    requires r != "" ==> r[0] != q
    ensures QuotedLen(s[..QuotedLen(s, q)] + r, q) == QuotedLen(s, q)
  {
    var n := QuotedLen(s, q);
    var t := s[..n] + r;
    if s == "" || r == "" {
      assert t == s;
    } else if s[0] != q {
      QuotedLenSwap(s[1..], q, r);
      assert t[1..] == s[1..][..n - 1] + r;
    } else if 1 < |s| && s[1] == q {
      QuotedLenSwap(s[2..], q, r);
      assert t[2..] == s[2..][..n - 2] + r;
    }
  }

  lemma {:induction false} LineLenSwap(s: string, r: string)
    requires r == "" <==> LineLen(s) == |s|
    ensures LineLen(s[..LineLen(s)] + r) == LineLen(s)
  {
    var n := LineLen(s);
    var t := s[..n] + r;
    if s == "" || r == "" {
      assert t == s;
    } else if s[0] != '\n' {
      LineLenSwap(s[1..], r);
      assert t[1..] == s[1..][..n - 1] + r;
    }
  }

  lemma {:induction false} BlockLenSwap(s: string, r: string)
    requires r == "" <==> BlockLen(s) == |s|
    ensures BlockLen(s[..BlockLen(s)] + r) == BlockLen(s)
  {
    var n := BlockLen(s);
    var t := s[..n] + r;
    if s == "" || r == "" {
      assert t == s;
    } else if !(1 < |s| && s[0] == '*' && s[1] == '/') {
      BlockLenSwap(s[1..], r);
      BlockLenLong(s[1..]);
      assert t[1..] == s[1..][..n - 1] + r;
    }
  }

  lemma {:induction false} BlockLenLong(s: string)
    ensures BlockLen(s) < |s| ==> 2 <= BlockLen(s)
  {
    if s != "" && !(1 < |s| && s[0] == '*' && s[1] == '/') {
      BlockLenLong(s[1..]);
    }
  }

  lemma DropOfPrefix(s: string, k: nat, n: nat, r: string)
    requires k <= n <= |s|
    ensures (s[..n] + r)[k..] == s[k..][..n - k] + r
  {
    assert |(s[..n] + r)[k..]| == |s[k..][..n - k] + r|;
    forall i | 0 <= i < n - k + |r| ensures (s[..n] + r)[k..][i] == (s[k..][..n - k] + r)[i] {
      assert (s[..n] + r)[k..][i] == (s[..n] + r)[k + i];
    }
  }

  /** Renumbering what follows a region never changes where the region ends. */
  lemma RegionLenSwap(s: string, r: string)
    requires Opening(s) != Normal
    requires r == "" <==> RegionLen(s) == |s|
    requires r != "" ==> r[0] == s[RegionLen(s)] || (s[RegionLen(s)] == '?' && r[0] == '$')
    ensures var t := s[..RegionLen(s)] + r; Opening(t) == Opening(s) && RegionLen(t) == RegionLen(s)
  {
    var st, n := Opening(s), RegionLen(s);
    var k := OpeningLen(st);
    var t := s[..n] + r;
    DropOfPrefix(s, k, n, r);
    assert n < |s| ==> s[n] == s[k..][n - k];
    match st
    case Single => QuotedLenSwap(s[k..], '\'', r);
    case Double => QuotedLenSwap(s[k..], '"', r);
    case LineComment => LineLenSwap(s[k..], r);
    case BlockComment => BlockLenSwap(s[k..], r);
    case Normal =>
  }

  /** The first character of the translation, which is all a lookahead can see. */
  lemma RenderHead(s: string, k: nat)
    ensures var r := Render(Lex(s), k);
            (r == "" <==> s == "") && (s != "" ==> r[0] == s[0] || (s[0] == '?' && r[0] == '$'))
  {
    if s != "" && Opening(s) != Normal {
      var n := RegionLen(s);
      assert Render(Lex(s), k) == s[..n] + Render(Lex(s[n..]), k);
    }
  }

  lemma DigitOpensNothing(c: Digit, r: string)
    ensures Lex([c] + r) == Cons(Plain(c), Lex(r))
  {
    assert ([c] + r)[1..] == r;
  }

  lemma {:induction false} LexDigits(d: seq<Digit>, r: string)
    ensures Lex(d + r) == PushPlain(d, Lex(r))
  {
    if d == [] {
      assert d + r == r;
    } else {
      LexDigits(d[1..], r);
      DigitOpensNothing(d[0], d[1..] + r);
      assert d + r == [d[0]] + (d[1..] + r);
    }
  }

  lemma RelexRegion(s: string, r: string)
    requires Opening(s) != Normal
    requires r == "" <==> RegionLen(s) == |s|
    requires r != "" ==> r[0] == s[RegionLen(s)] || (s[RegionLen(s)] == '?' && r[0] == '$')
    ensures Lex(s[..RegionLen(s)] + r) == Cons(Verbatim(s[..RegionLen(s)]), Lex(r))
  {
    RegionLenSwap(s, r);
    var n := RegionLen(s);
    var t := s[..n] + r;
    assert t[..n] == s[..n] && t[n..] == r;
  }

  lemma RelexPlain(c: char, s: string, r: string)
    requires Opening([c] + s) == Normal && c != '?'
    requires r == "" <==> s == ""
    requires r != "" ==> r[0] == s[0] || (s[0] == '?' && r[0] == '$')
    ensures Lex([c] + r) == Cons(Plain(c), Lex(r))
  {
    assert ([c] + r)[1..] == r;
    assert s != "" ==> ([c] + s)[1] == s[0];
  }

  lemma RelexNumber(d: seq<Digit>, r: string)
    ensures Lex("$" + d + r) == Cons(Plain('$'), PushPlain(d, Lex(r)))
  {
    LexDigits(d, r);
    assert ("$" + d + r)[1..] == d + r;
  }

  /** Reading the translated text again finds the same regions, and every number as plain text. */
  lemma {:induction false} Relex(s: string, k: nat)
    ensures Lex(Render(Lex(s), k)) == Numbered(Lex(s), k)
    decreases |s|
  {
    if s == "" {
    } else if Opening(s) != Normal {
      var tail := s[RegionLen(s)..];
      Relex(tail, k);
      RenderHead(tail, k);
      RelexRegion(s, Render(Lex(tail), k));
    } else if s[0] == '?' {
      Relex(s[1..], k + 1);
      RelexNumber(Decimal(k + 1), Render(Lex(s[1..]), k + 1));
    } else {
      Relex(s[1..], k);
      RenderHead(s[1..], k);
      assert s == [s[0]] + s[1..];
      RelexPlain(s[0], s[1..], Render(Lex(s[1..]), k));
    }
  }

  lemma {:induction false} PushRenders(d: string, ts: Tokens, j: nat)
    ensures Render(PushPlain(d, ts), j) == d + Render(ts, j)
    ensures Count(PushPlain(d, ts)) == Count(ts)
  {
    if d != "" {
      PushRenders(d[1..], ts, j);
      assert d == [d[0]] + d[1..];
    }
  }

  lemma {:induction false} NumberedRenders(ts: Tokens, k: nat, j: nat)
    ensures Render(Numbered(ts, k), j) == Render(ts, k) && Count(Numbered(ts, k)) == 0
  {
    match ts
    case Nil =>
    case Cons(Placeholder, rest) =>
      NumberedRenders(rest, k + 1, j);
      PushRenders(Decimal(k + 1), Numbered(rest, k + 1), j);
    case Cons(_, rest) =>
      NumberedRenders(rest, k, j);
  }

  /** Translating twice equals translating once: the translation holds no placeholder of its own. */
  lemma TranslateTwice(sql: string)
    ensures var text := Render(Lex(sql), 0);
            Render(Lex(text), 0) == text && Count(Lex(text)) == 0
  {
    Relex(sql, 0);
    NumberedRenders(Lex(sql), 0, 0);
  }

  // --- Which parameter the server reads at each placeholder ---

  function Value(d: seq<Digit>, acc: nat): nat {
    if d == [] then acc else Value(d[1..], acc * 10 + (d[0] as int - '0' as int))
  }

  /** The digits a plain-text number at the head of `ts` would take in. */
  function DigitRun(ts: Tokens): seq<Digit> {
    match ts
    case Cons(Plain(c), rest) => if '0' <= c <= '9' then [c] + DigitRun(rest) else []
    case _ => []
  }

  /** The parameter numbers a server reads: each dollar sign in plain text with the digits after it. */
  function ParamsRead(ts: Tokens): seq<nat> {
    match ts
    case Nil => []
    case Cons(t, rest) =>
      if t == Plain('$') && DigitRun(rest) != [] then [Value(DigitRun(rest), 0)] + ParamsRead(rest)
      else ParamsRead(rest)
  }

  function UpFrom(k: nat, n: nat): (s: seq<nat>)
    ensures |s| == n
    decreases n
  {
    if n == 0 then [] else [k + 1] + UpFrom(k + 1, n - 1)
  }

  /** No number would run into a digit, and none is written in the statement already. */
  predicate Separated(ts: Tokens) {
    match ts
    case Nil => true
    case Cons(t, rest) => ((t == Placeholder || t == Plain('$')) ==> DigitRun(rest) == []) && Separated(rest)
  }

  lemma {:induction false} ValueAppend(a: seq<Digit>, b: seq<Digit>, acc: nat)
    ensures Value(a + b, acc) == Value(b, Value(a, acc))
  {
    if a == [] {
      assert a + b == b;
    } else {
      ValueAppend(a[1..], b, acc * 10 + (a[0] as int - '0' as int));
      assert (a + b)[1..] == a[1..] + b;
    }
  }

  lemma {:induction false} ValueOfDecimal(n: nat)
    ensures Value(Decimal(n), 0) == n
  {
    if n < 10 {
      assert Decimal(n)[1..] == [];
    } else {
      ValueOfDecimal(n / 10);
      var last: seq<Digit> := [('0' as int + n % 10) as char];
      ValueAppend(Decimal(n / 10), last, 0);
      assert last[1..] == [];
    }
  }

  lemma {:induction false} ValueGrows(d: seq<Digit>, acc: nat)
    requires acc >= 1
    ensures d != [] ==> Value(d, acc) > acc
  {
    if d != [] {
      ValueGrows(d[1..], acc * 10 + (d[0] as int - '0' as int));
    }
  }

  lemma {:induction false} NumberedDigits(ts: Tokens, k: nat)
    ensures DigitRun(Numbered(ts, k)) == DigitRun(ts)
  {
    match ts
    case Cons(Plain(_), rest) => NumberedDigits(rest, k);
    case _ =>
  }

  lemma {:induction false} PushDigits(d: seq<Digit>, ts: Tokens)
    ensures DigitRun(PushPlain(d, ts)) == d + DigitRun(ts)
    ensures ParamsRead(PushPlain(d, ts)) == ParamsRead(ts)
  {
    if d != [] {
      PushDigits(d[1..], ts);
      assert d == [d[0]] + d[1..];
    }
  }

  /** Each placeholder is read as exactly one number: its own, unless digits follow it. */
  lemma PlaceholderRead(rest: Tokens, k: nat)
    ensures exists v :: ParamsRead(Numbered(Cons(Placeholder, rest), k)) == [v] + ParamsRead(Numbered(rest, k + 1))
                        && (v == k + 1 <==> DigitRun(rest) == [])
  {
    var d, next := Decimal(k + 1), Numbered(rest, k + 1);
    PushDigits(d, next);
    NumberedDigits(rest, k + 1);
    ValueAppend(d, DigitRun(rest), 0);
    ValueOfDecimal(k + 1);
    ValueGrows(DigitRun(rest), k + 1);
    var v := Value(d + DigitRun(rest), 0);
    assert ParamsRead(Numbered(Cons(Placeholder, rest), k)) == [v] + ParamsRead(next);
  }

  lemma {:induction false} ReadsAtLeast(ts: Tokens, k: nat)
    ensures |ParamsRead(Numbered(ts, k))| >= Count(ts)
  {
    match ts
    case Nil =>
    case Cons(Placeholder, rest) =>
      PlaceholderRead(rest, k);
      ReadsAtLeast(rest, k + 1);
    case Cons(_, rest) =>
      ReadsAtLeast(rest, k);
  }

  lemma {:induction false} ReadsInOrder(ts: Tokens, k: nat)
    ensures ParamsRead(Numbered(ts, k)) == UpFrom(k, Count(ts)) <==> Separated(ts)
  {
    match ts
    case Nil =>
    case Cons(Placeholder, rest) =>
      PlaceholderRead(rest, k);
      ReadsInOrder(rest, k + 1);
      var got, tail := ParamsRead(Numbered(ts, k)), ParamsRead(Numbered(rest, k + 1));
      assert got[1..] == tail && UpFrom(k, Count(ts))[1..] == UpFrom(k + 1, Count(rest));
    case Cons(Verbatim(_), rest) =>
      ReadsInOrder(rest, k);
    case Cons(Plain(c), rest) =>
      ReadsInOrder(rest, k);
      NumberedDigits(rest, k);
      if c == '$' && DigitRun(rest) != [] {
        ReadsAtLeast(rest, k);
        assert |ParamsRead(Numbered(ts, k))| > Count(ts);
      }
  }

  /**
    The server reads the parameters 1 to `paramCount`, in order, exactly when no placeholder is
    directly followed by a digit and the statement writes no numbered parameter of its own.
   */
  lemma ParametersInOrder(sql: string)
    ensures ParamsRead(Lex(Render(Lex(sql), 0))) == UpFrom(0, Count(Lex(sql))) <==> Separated(Lex(sql))
  {
    Relex(sql, 0);
    ReadsInOrder(Lex(sql), 0);
  }

  /** The failing family is not empty: `?1` names one parameter, and the server would read number 11. */
  lemma DigitAfterPlaceholder()
    ensures Render(Lex("?1"), 0) == "$11" && ParamsRead(Lex("$11")) == [11]
  {
    assert "1"[1..] == "" && "?1"[1..] == "1";
    assert Lex("1") == Cons(Plain('1'), Nil);
    var one: seq<Digit> := ['1'];
    assert Decimal(1) == one;
    Relex("?1", 0);
    assert Render(Lex("?1"), 0) == "$11";
    PlaceholderRead(Lex("1"), 0);
    var both: seq<Digit> := ['1', '1'];
    PushDigits(one, Lex("1"));
    assert DigitRun(PushPlain(Decimal(1), Lex("1"))) == both;
    assert both[1..] == one && one[1..] == [];
    assert Value(both, 0) == Value(one, 1) == Value([], 11) == 11;
    PushDigits(one, Lex("1"));
  }
}
