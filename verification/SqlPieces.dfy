/**
  What a statement consists of, and how it is translated piece by piece (server/sql-translate.ts).

  A statement is written as quoted literals and identifiers, comments, single characters and parameters.
  The pieces say in their own terms where each begins and ends; the translation is proved to read every
  statement as exactly one such list, to number its parameters and to copy all the rest.
 */
module SqlPieces {
  import opened SqlTranslate

  /** A piece that is not closed runs to the end of the statement. */
  datatype Piece =
    | Quoted(quote: char, inner: string, closed: bool)
    | Line(body: string, closed: bool)
    | Block(body: string, closed: bool)
    | Letter(c: char)
    | Parameter

  function Doubled(inner: string, quote: char): string {
    if inner == "" then "" else (if inner[0] == quote then [quote, quote] else [inner[0]]) + Doubled(inner[1..], quote)
  }

  function Ends(closed: bool, mark: string): string { if closed then mark else "" }

  function Text(p: Piece): string {
    match p
    case Quoted(quote, inner, closed) => [quote] + Doubled(inner, quote) + Ends(closed, [quote])
    case Line(body, closed) => "--" + body + Ends(closed, "\n")
    case Block(body, closed) => "/*" + body + Ends(closed, "*/")
    case Letter(c) => [c]
    case Parameter => "?"
  }

  predicate At(body: string, i: nat, mark: string) { i + |mark| <= |body| && body[i..i + |mark|] == mark }

  ghost predicate Holds(body: string, mark: string) { exists i: nat :: At(body, i, mark) }

  /** The piece may stand in front of `rest`: it ends where it says, and opens nothing it does not say. */
  ghost predicate Stands(p: Piece, rest: string) {
    match p
    case Quoted(quote, _, closed) =>
      (quote == '\'' || quote == '"') && if closed then !([quote] <= rest) else rest == ""
    case Line(body, closed) => !Holds(body, "\n") && (closed || rest == "")
    case Block(body, closed) => !Holds(body, "*/") && (closed || rest == "")
    case Letter(c) =>
      c != '\'' && c != '"' && c != '?' && !("--" <= [c] + rest) && !("/*" <= [c] + rest)
    case Parameter => true
  }

  function Written(ps: seq<Piece>): string { if ps == [] then "" else Text(ps[0]) + Written(ps[1..]) }

  ghost predicate WellWritten(ps: seq<Piece>) {
    ps == [] || (Stands(ps[0], Written(ps[1..])) && WellWritten(ps[1..]))
  }

  function Parameters(ps: seq<Piece>): nat {
    if ps == [] then 0 else (if ps[0].Parameter? then 1 else 0) + Parameters(ps[1..])
  }

  /** The statement with its parameters numbered from `k + 1`, everything else as it is. */
  function Numbers(ps: seq<Piece>, k: nat): string {
    if ps == [] then ""
    else if ps[0].Parameter? then "$" + Decimal(k + 1) + Numbers(ps[1..], k + 1)
    else Text(ps[0]) + Numbers(ps[1..], k)
  }

  // --- How far a region reaches ---

  lemma {:induction false} QuotedReaches(inner: string, quote: char, closed: bool, rest: string)
    requires if closed then !([quote] <= rest) else rest == ""
    ensures QuotedLen(Doubled(inner, quote) + Ends(closed, [quote]) + rest, quote)
            == |Doubled(inner, quote)| + |Ends(closed, [quote])|
  {
    var end := Ends(closed, [quote]);
    if inner == "" {
      EndReaches(quote, closed, rest);
      assert Doubled(inner, quote) + end + rest == end + rest;
    } else {
      QuotedReaches(inner[1..], quote, closed, rest);
      var head, d := if inner[0] == quote then [quote, quote] else [inner[0]], Doubled(inner[1..], quote);
      hide Ends;
      assert Doubled(inner, quote) + end + rest == head + (d + end + rest);
      HeadReaches(inner[0], quote, d + end + rest);
    }
  }

  lemma EndReaches(quote: char, closed: bool, rest: string)
    requires if closed then !([quote] <= rest) else rest == ""
    ensures QuotedLen(Ends(closed, [quote]) + rest, quote) == |Ends(closed, [quote])|
  {
    if closed {
      assert ([quote] + rest)[0] == quote;
    } else {
      assert Ends(closed, [quote]) + rest == "";
    }
  }

  lemma HeadReaches(c: char, quote: char, tail: string)
    ensures c == quote ==> QuotedLen([quote, quote] + tail, quote) == 2 + QuotedLen(tail, quote)
    ensures c != quote ==> QuotedLen([c] + tail, quote) == 1 + QuotedLen(tail, quote)
  {
    assert ([quote, quote] + tail)[2..] == tail && ([c] + tail)[1..] == tail;
  }

  lemma {:induction false} LineReaches(body: string, closed: bool, rest: string)
    requires !Holds(body, "\n") && (closed || rest == "")
    ensures LineLen(body + Ends(closed, "\n") + rest) == |body| + |Ends(closed, "\n")|
  {
    var s := body + Ends(closed, "\n") + rest;
    if body != "" {
      assert body[0..1] == [body[0]] && !At(body, 0, "\n");
      ShorterHoldsNot(body, "\n");
      LineReaches(body[1..], closed, rest);
      assert s[1..] == body[1..] + Ends(closed, "\n") + rest;
    } else if closed {
      assert s[0] == '\n';
    }
  }

  lemma {:induction false} BlockReaches(body: string, closed: bool, rest: string)
    requires !Holds(body, "*/") && (closed || rest == "")
    ensures BlockLen(body + Ends(closed, "*/") + rest) == |body| + |Ends(closed, "*/")|
  {
    var s := body + Ends(closed, "*/") + rest;
    if body != "" {
      ShorterHoldsNot(body, "*/");
      BlockReaches(body[1..], closed, rest);
      assert s[1..] == body[1..] + Ends(closed, "*/") + rest;
      assert !At(body, 0, "*/");
      assert |body| > 1 ==> body[0..2] == [body[0], body[1]] && s[1] == body[1];
      assert |body| == 1 && closed ==> s[1] == '*';
    } else if closed {
      assert s[0] == '*' && s[1] == '/';
    }
  }

  lemma ShorterHoldsNot(body: string, mark: string)
    requires body != "" && !Holds(body, mark)
    ensures !Holds(body[1..], mark)
  {
    if i: nat :| At(body[1..], i, mark) {
      assert body[i + 1..i + 1 + |mark|] == mark;
      assert At(body, i + 1, mark);
    }
  }

  // --- How each piece is read ---

  lemma ReadsRegion(p: Piece, rest: string)
    requires Stands(p, rest) && (p.Quoted? || p.Line? || p.Block?)
    ensures Lex(Text(p) + rest) == Cons(Verbatim(Text(p)), Lex(rest))
  {
    var s := Text(p) + rest;
    RegionReaches(p, rest);
    hide RegionLen, Opening, Stands, Text;
    assert s[..|Text(p)|] == Text(p) && s[|Text(p)|..] == rest;
  }

  lemma RegionReaches(p: Piece, rest: string)
    requires Stands(p, rest) && (p.Quoted? || p.Line? || p.Block?)
    ensures Opening(Text(p) + rest) != Normal && RegionLen(Text(p) + rest) == |Text(p)|
  {
    hide Opening, RegionLen, QuotedLen, LineLen, BlockLen, Doubled, Ends, Holds;
    match p
    case Quoted(quote, inner, closed) =>
      var d, end := Doubled(inner, quote), Ends(closed, [quote]);
      QuotedReaches(inner, quote, closed, rest);
      EntersQuoted(quote, d + end + rest);
      Regrouped([quote], d, end, rest);
    case Line(body, closed) =>
      var end := Ends(closed, "\n");
      LineReaches(body, closed, rest);
      EntersComment(body + end + rest);
      Regrouped("--", body, end, rest);
    case Block(body, closed) =>
      var end := Ends(closed, "*/");
      BlockReaches(body, closed, rest);
      EntersComment(body + end + rest);
      Regrouped("/*", body, end, rest);
  }

  lemma Regrouped(mark: string, body: string, end: string, rest: string)
    ensures mark + body + end + rest == mark + (body + end + rest)
  {
  }

  lemma EntersQuoted(quote: char, tail: string)
    requires quote == '\'' || quote == '"'
    ensures Opening([quote] + tail) != Normal && RegionLen([quote] + tail) == 1 + QuotedLen(tail, quote)
  {
    assert ([quote] + tail)[1..] == tail;
  }

  lemma EntersComment(tail: string)
    ensures Opening("--" + tail) != Normal && RegionLen("--" + tail) == 2 + LineLen(tail)
    ensures Opening("/*" + tail) != Normal && RegionLen("/*" + tail) == 2 + BlockLen(tail)
  {
    assert ("--" + tail)[2..] == tail && ("/*" + tail)[2..] == tail;
  }

  lemma ReadsCharacter(p: Piece, rest: string)
    requires Stands(p, rest) && (p.Letter? || p.Parameter?)
    ensures Lex(Text(p) + rest) == Cons(if p.Letter? then Plain(p.c) else Token.Placeholder, Lex(rest))
  {
    var s := Text(p) + rest;
    assert s[1..] == rest;
    if |s| > 1 {
      assert s[..2] == [s[0], s[1]];
    }
  }

  /** The translation of a statement numbers its parameters from the first to the last and copies every other piece. */
  lemma {:induction false} PiecesAreTranslated(ps: seq<Piece>, k: nat)
    requires WellWritten(ps)
    ensures Render(Lex(Written(ps)), k) == Numbers(ps, k) && Count(Lex(Written(ps))) == Parameters(ps)
  {
    if ps != [] {
      var p, rest := ps[0], Written(ps[1..]);
      if p.Letter? || p.Parameter? {
        ReadsCharacter(p, rest);
      } else {
        ReadsRegion(p, rest);
      }
      hide Lex, Stands;
      PiecesAreTranslated(ps[1..], if p.Parameter? then k + 1 else k);
    }
  }

  // --- Every statement is written in pieces ---

  lemma {:induction false} QuotedSplits(s: string, quote: char) returns (inner: string, closed: bool)
    ensures var n := QuotedLen(s, quote);
      && s[..n] == Doubled(inner, quote) + Ends(closed, [quote])
      && if closed then !([quote] <= s[n..]) else n == |s|
  {
    inner, closed := "", false;
    if s != "" {
      var k := if s[0] != quote then 1 else 2;
      if s[0] != quote || (1 < |s| && s[1] == quote) {
        inner, closed := QuotedSplits(s[k..], quote);
        LongerSplits(s, quote, k, QuotedLen(s[k..], quote), Ends(closed, [quote]), inner);
        inner := [s[0]] + inner;
      } else {
        closed := true;
        assert s[..1] == [quote];
      }
    }
  }

  /** One more character of a literal, or a doubled quote, in front of what was split. */
  lemma LongerSplits(s: string, quote: char, k: nat, n: nat, end: string, inner: string)
    requires s != "" && k == (if s[0] != quote then 1 else 2) && k <= |s| && n <= |s| - k
    requires s[0] == quote ==> s[1] == quote
    requires s[k..][..n] == Doubled(inner, quote) + end
    ensures s[..k + n] == Doubled([s[0]] + inner, quote) + end && s[k + n..] == s[k..][n..]
  {
    assert ([s[0]] + inner)[1..] == inner;
    assert s[..k] == if s[0] == quote then [quote, quote] else [s[0]];
    assert s[..k + n] == s[..k] + s[k..][..n];
  }

  lemma {:induction false} LineSplits(s: string) returns (body: string, closed: bool)
    ensures s[..LineLen(s)] == body + Ends(closed, "\n") && !Holds(body, "\n") && (closed || LineLen(s) == |s|)
  {
    body, closed := "", false;
    if s != "" {
      if s[0] == '\n' {
        closed := true;
      } else {
        body, closed := LineSplits(s[1..]);
        assert s[..LineLen(s)] == [s[0]] + s[1..][..LineLen(s) - 1];
        assert ([s[0]] + body)[0..1] == [s[0]];
        LongerHoldsNot(s[0], body, "\n");
        body := [s[0]] + body;
      }
    }
  }

  lemma {:induction false} BlockSplits(s: string) returns (body: string, closed: bool)
    ensures s[..BlockLen(s)] == body + Ends(closed, "*/") && !Holds(body, "*/") && (closed || BlockLen(s) == |s|)
  {
    body, closed := "", false;
    if s != "" {
      if 1 < |s| && s[0] == '*' && s[1] == '/' {
        closed := true;
        assert s[..2] == "*/";
      } else {
        var n := BlockLen(s[1..]);
        body, closed := BlockSplits(s[1..]);
        hide Ends, Holds;
        FrontOf(s, n, body, Ends(closed, "*/"));
        NoMarkAhead(s, n, body, Ends(closed, "*/"));
        LongerHoldsNot(s[0], body, "*/");
        body := [s[0]] + body;
      }
    }
  }

  lemma FrontOf(s: string, n: nat, body: string, end: string)
    requires s != "" && n <= |s| - 1 && s[1..][..n] == body + end
    ensures s[..n + 1] == ([s[0]] + body) + end
  {
    assert s[..n + 1] == [s[0]] + s[1..][..n];
  }

  lemma NoMarkAhead(s: string, n: nat, body: string, end: string)
    requires s != "" && n <= |s| - 1 && s[1..][..n] == body + end
    requires !(1 < |s| && s[0] == '*' && s[1] == '/')
    ensures !At([s[0]] + body, 0, "*/")
  {
    if |body| > 0 {
      assert s[1] == s[1..][..n][0] == body[0];
      assert ([s[0]] + body)[0..2] == [s[0], s[1]];
    }
  }

  lemma LongerHoldsNot(c: char, body: string, mark: string)
    requires !Holds(body, mark) && !At([c] + body, 0, mark)
    ensures !Holds([c] + body, mark)
  {
    if i: nat :| At([c] + body, i, mark) {
      if i > 0 {
        assert body[i - 1..i - 1 + |mark|] == ([c] + body)[i..i + |mark|];
        assert At(body, i - 1, mark);
      }
    }
  }

  lemma FirstPiece(s: string) returns (p: Piece)
    requires s != ""
    ensures Text(p) != "" && Text(p) <= s && Stands(p, s[|Text(p)|..])
  {
    if Opening(s) == Normal {
      p := if s[0] == '?' then Parameter else Letter(s[0]);
      assert s == [s[0]] + s[1..];
    } else {
      p := FirstRegion(s);
    }
  }

  lemma FirstRegion(s: string) returns (p: Piece)
    requires Opening(s) != Normal
    ensures Text(p) != "" && Text(p) <= s && Stands(p, s[|Text(p)|..])
  {
    if Opening(s) == Single || Opening(s) == Double {
      p := FirstQuoted(s, s[0]);
    } else {
      p := FirstComment(s);
    }
  }

  lemma FirstQuoted(s: string, quote: char) returns (p: Piece)
    requires s != "" && s[0] == quote && (quote == '\'' || quote == '"')
    ensures Text(p) != "" && Text(p) <= s && Stands(p, s[|Text(p)|..])
  {
    var inner, closed := QuotedSplits(s[1..], quote);
    p := Quoted(quote, inner, closed);
    hide QuotedLen, Doubled, Ends;
    assert s[..1] == [quote];
    assert Text(p) == s[..1] + s[1..][..QuotedLen(s[1..], quote)];
    Continues(s, 1, QuotedLen(s[1..], quote), Text(p));
  }

  lemma FirstComment(s: string) returns (p: Piece)
    requires Opening(s) == LineComment || Opening(s) == BlockComment
    ensures Text(p) != "" && Text(p) <= s && Stands(p, s[|Text(p)|..])
  {
    var tail := s[2..];
    if Opening(s) == LineComment {
      var body, closed := LineSplits(tail);
      p := Line(body, closed);
      hide LineLen, Ends, Holds;
      assert s[..2] == "--" && Text(p) == s[..2] + tail[..LineLen(tail)];
      Continues(s, 2, LineLen(tail), Text(p));
    } else {
      var body, closed := BlockSplits(tail);
      p := Block(body, closed);
      hide BlockLen, Ends, Holds;
      assert s[..2] == "/*" && Text(p) == s[..2] + tail[..BlockLen(tail)];
      Continues(s, 2, BlockLen(tail), Text(p));
    }
  }

  lemma Continues(s: string, k: nat, n: nat, text: string)
    requires k <= |s| && n <= |s| - k && text == s[..k] + s[k..][..n]
    ensures text <= s && |text| == k + n && s[k..][n..] == s[|text|..]
  {
    assert s[..k + n] == s[..k] + s[k..][..n];
  }

  /** Every statement is written in pieces; by `PiecesAreTranslated` the translation finds exactly these. */
  lemma {:induction false} StatementsArePieces(sql: string) returns (ps: seq<Piece>)
    ensures WellWritten(ps) && Written(ps) == sql
    decreases |sql|
  {
    if sql == "" {
      ps := [];
    } else {
      var p := FirstPiece(sql);
      var rest := StatementsArePieces(sql[|Text(p)|..]);
      ps := [p] + rest;
      hide Stands, Text;
      assert ps[1..] == rest;
      assert sql == Text(p) + sql[|Text(p)|..];
    }
  }

  /** Whatever stands in a comment or between quotes: none of it is numbered, and nothing of it changes. */
  lemma RegionsAreCopied(p: Piece, rest: string, k: nat)
    requires Stands(p, rest) && (p.Quoted? || p.Line? || p.Block?)
    ensures Render(Lex(Text(p) + rest), k) == Text(p) + Render(Lex(rest), k)
    ensures Count(Lex(Text(p) + rest)) == Count(Lex(rest))
  {
    ReadsRegion(p, rest);
    hide Lex;
  }
}
