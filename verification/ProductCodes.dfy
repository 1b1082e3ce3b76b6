/**
  The product-code recognisers (server/code-search-parser.ts, server/jellyfin-match.ts).

  Three patterns are written separately in the source: a whole-text one (`ArchiveKey`,
  `NormalizeProductCode`), one that searches a text (`ProductCodesIn`), and one that searches
  media names (`MediaKeys`). A fourth, the LIKE patterns, pre-filters rows in the database.
  Each is given here as the scan a regular-expression engine performs, and then characterised
  by the positions where a code stands.
 */
module ProductCodes {

  import opened Options

  // --- Characters: the patterns are case-insensitive and ASCII only ---

  predicate IsLetter(c: char) { 'a' <= c <= 'z' || 'A' <= c <= 'Z' }
  predicate IsDigit(c: char) { '0' <= c <= '9' }
  predicate IsAlnum(c: char) { IsLetter(c) || IsDigit(c) }

  /** The class `\s`, which is also what `trim` removes. */
  predicate IsSpace(c: char) {
    '\t' <= c <= '\r' || c == ' ' || c == '\U{A0}' || c == '\U{1680}' || '\U{2000}' <= c <= '\U{200A}'
    || c == '\U{2028}' || c == '\U{2029}' || c == '\U{202F}' || c == '\U{205F}' || c == '\U{3000}' || c == '\U{FEFF}'
  }

  predicate IsBlank(c: char) { c == '_' || IsSpace(c) }
  predicate IsSep(c: char) { c == '-' || IsBlank(c) }

  predicate Letters(s: string) { forall i :: 0 <= i < |s| ==> IsLetter(s[i]) }
  predicate Digits(s: string) { forall i :: 0 <= i < |s| ==> IsDigit(s[i]) }
  predicate Spaces(s: string) { forall i :: 0 <= i < |s| ==> IsSpace(s[i]) }

  /** The classes by code points; `[a-z]` is read without regard to case. */
  lemma CharacterClasses(c: char)
    ensures IsLetter(c) <==> 65 <= c as int <= 90 || 97 <= c as int <= 122
    ensures IsDigit(c) <==> 48 <= c as int <= 57
    ensures IsSpace(c) <==>
            c as int in {9, 10, 11, 12, 13, 32, 160, 5760, 8192, 8193, 8194, 8195, 8196, 8197, 8198, 8199, 8200, 8201,
                         8202, 8232, 8233, 8239, 8287, 12288, 65279}
    ensures IsSep(c) <==> c == '-' || c == '_' || IsSpace(c)
  {
    assert 0x2000 == 8192 && 0x200A == 8202;
  }

  function Lower(c: char): char { if 'A' <= c <= 'Z' then (c as int + 32) as char else c }
  function Upper(c: char): char { if 'a' <= c <= 'z' then (c as int - 32) as char else c }

  function LowerAll(s: string): (r: string)
    ensures |r| == |s| && forall i :: 0 <= i < |s| ==> r[i] == Lower(s[i])
  {
    seq(|s|, i requires 0 <= i < |s| => Lower(s[i]))
  }

  function UpperAll(s: string): (r: string)
    ensures |r| == |s| && forall i :: 0 <= i < |s| ==> r[i] == Upper(s[i])
  {
    seq(|s|, i requires 0 <= i < |s| => Upper(s[i]))
  }

  lemma LowerUpper(s: string)
    ensures LowerAll(UpperAll(s)) == LowerAll(s)
  {
    forall i | 0 <= i < |s| ensures LowerAll(UpperAll(s))[i] == LowerAll(s)[i] {
    }
  }

  function LetterRun(s: string): (n: nat)
    ensures n <= |s| && Letters(s[..n]) && (n < |s| ==> !IsLetter(s[n]))
  {
    if s != "" && IsLetter(s[0]) then
      assert forall m :: 0 <= m < |s| ==> s[..m + 1] == [s[0]] + s[1..][..m];
      1 + LetterRun(s[1..])
    else 0
  }

  function DigitRun(s: string): (n: nat)
    ensures n <= |s| && Digits(s[..n]) && (n < |s| ==> !IsDigit(s[n]))
  {
    if s != "" && IsDigit(s[0]) then
      assert forall m :: 0 <= m < |s| ==> s[..m + 1] == [s[0]] + s[1..][..m];
      1 + DigitRun(s[1..])
    else 0
  }

  // --- A code at the head of a text ---

  /** A code as it stands in a text: letters, an optional separator, digits. */
  datatype Code = Code(prefix: string, sep: string, number: string) {
    predicate Valid() {
      && 2 <= |prefix| <= 16 && Letters(prefix)
      && |sep| <= 1 && (sep != "" ==> IsSep(sep[0]))
      && 2 <= |number| <= 8 && Digits(number)
    }
    function Text(): string { prefix + sep + number }
    function Key(): string { LowerAll(prefix) + "-" + number }
  }

  /** `s` starts with this code and no letter or digit follows it; `wide` also admits blank separators. */
  predicate StartsWith(s: string, wide: bool, code: Code) {
    && code.Valid() && (code.sep == "" || code.sep == "-" || wide)
    && code.Text() <= s
    && (|code.Text()| < |s| ==> !IsAlnum(s[|code.Text()|]))
  }

  /** The lengths of the letters, the separator and the digits the greedy match would take. */
  function HeadLengths(s: string, wide: bool): (r: (nat, nat, nat))
    ensures r.0 + r.1 + r.2 <= |s| && r.1 <= 1
  {
    var l := LetterRun(s);
    var h := if l < |s| && (s[l] == '-' || (wide && IsSep(s[l]))) then 1 else 0;
    (l, h, DigitRun(s[l + h..]))
  }

  /** The only way the pattern can match at the head of `s`, if there is one. */
  function MatchHead(s: string, wide: bool): (r: Option<Code>)
    ensures r.Some? ==> 4 <= |r.value.Text()| <= |s|
  {
    var (l, h, d) := HeadLengths(s, wide);
    if 2 <= l <= 16 && 2 <= d <= 8 && (l + h + d < |s| ==> !IsAlnum(s[l + h + d]))
    then Some(Code(s[..l], s[l..l + h], s[l + h..l + h + d])) else None
  }

  lemma MatchHeadSound(s: string, wide: bool)
    ensures MatchHead(s, wide).Some? ==> StartsWith(s, wide, MatchHead(s, wide).value)
  {
    var (l, h, d) := HeadLengths(s, wide);
    if MatchHead(s, wide).Some? {
      var code := MatchHead(s, wide).value;
      assert s[..l] + s[l..l + h] + s[l + h..l + h + d] == s[..l + h + d];
      assert s[l + h..][..d] == code.number;
      assert code.Valid();
    }
  }

  /** What each character of a match, and the character after it, can be. */
  lemma CharInside(s: string, i: nat, wide: bool, code: Code, m: nat)
    requires i <= |s| && StartsWith(s[i..], wide, code) && m <= |code.Text()|
    ensures i + |code.Text()| <= |s|
    ensures m < |code.prefix| ==> IsLetter(s[i + m])
    ensures |code.prefix| <= m < |code.prefix| + |code.sep| ==> s[i + m] == code.sep[0]
    ensures |code.prefix| + |code.sep| <= m < |code.Text()| ==> IsDigit(s[i + m])
    ensures m == |code.Text()| && i + m < |s| ==> !IsAlnum(s[i + m])
  {
    hide IsLetter, IsDigit, IsAlnum, IsSep;
    var t := s[i..];
    if i + m < |s| { assert s[i + m] == t[m]; }
    if m < |code.Text()| { assert t[m] == code.Text()[m]; }
  }

  lemma {:induction false} LetterRunAt(s: string, n: nat)
    requires n < |s| && !IsLetter(s[n]) && forall m :: 0 <= m < n ==> IsLetter(s[m])
    ensures LetterRun(s) == n
  {
    if n > 0 { LetterRunAt(s[1..], n - 1); }
  }

  lemma {:induction false} DigitRunAt(s: string, n: nat)
    requires n <= |s| && (n < |s| ==> !IsDigit(s[n])) && forall m :: 0 <= m < n ==> IsDigit(s[m])
    ensures DigitRun(s) == n
  {
    if n > 0 { DigitRunAt(s[1..], n - 1); }
  }

  lemma CodeFacts(s: string, wide: bool, code: Code)
    requires StartsWith(s, wide, code)
    ensures code.Valid() && |code.Text()| == |code.prefix| + |code.sep| + |code.number| <= |s|
    ensures code.sep != "" ==> !IsLetter(code.sep[0]) && (code.sep[0] == '-' || (wide && IsSep(code.sep[0])))
    ensures forall c :: !IsAlnum(c) ==> !IsDigit(c)
    ensures forall c :: IsDigit(c) ==> !IsSep(c) && c != '-' && !IsLetter(c)
    ensures |code.Text()| < |s| ==> !IsAlnum(s[|code.Text()|])
  {
  }

  lemma HeadLengthsAre(s: string, wide: bool, code: Code)
    requires StartsWith(s, wide, code)
    ensures HeadLengths(s, wide) == (|code.prefix|, |code.sep|, |code.number|)
  {
    hide LetterRun, DigitRun, IsLetter, IsDigit, IsSep;
    var l, h, d := |code.prefix|, |code.sep|, |code.number|;
    assert s[0..] == s;
    forall m | 0 <= m <= l + h + d
      ensures m < l ==> IsLetter(s[m])
      ensures l <= m < l + h ==> s[m] == code.sep[0]
      ensures l + h <= m < l + h + d ==> IsDigit(s[m])
      ensures m == l + h + d < |s| ==> !IsAlnum(s[m])
    {
      CharInside(s, 0, wide, code, m);
    }
    CodeFacts(s, wide, code);
    hide StartsWith;
    LetterRunAt(s, l);
    DigitRunAt(s[l + h..], d);
  }

  /** Backtracking never helps: whatever way a code starts `s`, the greedy match finds that way. */
  lemma MatchHeadComplete(s: string, wide: bool, code: Code)
    requires StartsWith(s, wide, code)
    ensures MatchHead(s, wide) == Some(code)
  {
    HeadLengthsAre(s, wide, code);
    CodeFacts(s, wide, code);
    TextSlices(s, code);
    hide StartsWith, HeadLengths, IsAlnum, IsSep, IsLetter, IsDigit, Letters, Digits;
  }

  lemma TextSlices(s: string, code: Code)
    requires code.Text() <= s
    ensures var l, h, d := |code.prefix|, |code.sep|, |code.number|;
            s[..l] == code.prefix && s[l..l + h] == code.sep && s[l + h..l + h + d] == code.number
  {
    var l, h, d := |code.prefix|, |code.sep|, |code.number|;
    var t := code.Text();
    assert t == s[..l + h + d];
    assert t[..l] == code.prefix && t[l..l + h] == code.sep && t[l + h..] == code.number;
    assert s[..l] == t[..l] && s[l..l + h] == t[l..l + h] && s[l + h..l + h + d] == t[l + h..];
  }

  // --- Whole-text recognisers ---

  function TrimLeft(s: string): string {
    if s != "" && IsSpace(s[0]) then TrimLeft(s[1..]) else s
  }

  function TrimRight(s: string): string {
    if s != "" && IsSpace(s[|s| - 1]) then TrimRight(s[..|s| - 1]) else s
  }

  function Trim(s: string): string { TrimRight(TrimLeft(s)) }

  /** The pattern anchored at both ends. */
  function WholeCode(s: string): Option<Code> {
    match MatchHead(s, true)
    case Some(code) => if |code.Text()| == |s| then Some(code) else None
    case None => None
  }

  function ArchiveKey(value: string): Option<string> {
    match WholeCode(Trim(value))
    case Some(code) => Some(code.Key())
    case None => None
  }

  function NormalizeProductCode(value: string): Option<string> {
    match WholeCode(Trim(value))
    case Some(code) => Some(UpperAll(code.prefix) + "-" + code.number)
    case None => None
  }

  function ProductCodeKey(value: string): Option<string> {
    match NormalizeProductCode(value)
    case Some(text) => Some(LowerAll(text))
    case None => None
  }

  lemma {:induction false} TrimLeftSplit(s: string) returns (n: nat)
    ensures n <= |s| && TrimLeft(s) == s[n..] && forall i :: 0 <= i < n ==> IsSpace(s[i])
  {
    n := 0;
    if s != "" && IsSpace(s[0]) {
      var m := TrimLeftSplit(s[1..]);
      n := m + 1;
    }
  }

  lemma {:induction false} TrimRightSplit(s: string) returns (n: nat)
    ensures n <= |s| && TrimRight(s) == s[..n] && forall i :: n <= i < |s| ==> IsSpace(s[i])
  {
    n := |s|;
    if s != "" && IsSpace(s[|s| - 1]) {
      n := TrimRightSplit(s[..|s| - 1]);
    }
  }

  lemma TrimSplit(s: string) returns (a: string, b: string)
    ensures Spaces(a) && Spaces(b) && s == a + Trim(s) + b
  {
    hide IsSpace;
    var n := TrimLeftSplit(s);
    var t := s[n..];
    var m := TrimRightSplit(t);
    a, b := s[..n], t[m..];
    assert forall i :: 0 <= i < |b| ==> b[i] == t[m + i];
  }

  /** Only one part of a text is left between blanks around it. */
  lemma TrimIs(a: string, core: string, b: string)
    requires Spaces(a) && Spaces(b) && core != "" && !IsSpace(core[0]) && !IsSpace(core[|core| - 1])
    ensures Trim(a + core + b) == core
  {
    LeftStrips(a, core + b);
    assert a + core + b == a + (core + b);
    RightStrips(core, b);
  }

  lemma {:induction false} LeftStrips(a: string, s: string)
    requires Spaces(a) && s != "" && !IsSpace(s[0])
    ensures TrimLeft(a + s) == s
  {
    hide IsSpace;
    if a == "" {
      assert a + s == s;
    } else {
      LeftStrips(a[1..], s);
      assert (a + s)[1..] == a[1..] + s;
    }
  }

  lemma {:induction false} RightStrips(s: string, b: string)
    requires Spaces(b) && s != "" && !IsSpace(s[|s| - 1])
    ensures TrimRight(s + b) == s
  {
    hide IsSpace;
    if b == "" {
      assert s + b == s;
    } else {
      RightStrips(s, b[..|b| - 1]);
      assert (s + b)[..|s + b| - 1] == s + b[..|b| - 1];
    }
  }

  lemma TrimCode(code: Code)
    requires code.Valid()
    ensures Trim(code.Text()) == code.Text() && WholeCode(code.Text()) == Some(code)
  {
    var s := code.Text();
    NothingToTrim(code);
    assert StartsWith(s, true, code);
    hide StartsWith, MatchHead;
    MatchHeadComplete(s, true, code);
  }

  lemma NothingToTrim(code: Code)
    requires code.Valid()
    ensures Trim(code.Text()) == code.Text()
  {
    var s := code.Text();
    assert s[0] == code.prefix[0];
    assert s[|s| - 1] == code.number[|code.number| - 1];
  }

  /** A text has an archive key exactly when it is one code, with blanks around it at most. */
  lemma ArchiveKeyExact(a: string, code: Code, b: string)
    requires code.Valid() && Spaces(a) && Spaces(b)
    ensures ArchiveKey(a + code.Text() + b) == Some(LowerAll(code.prefix) + "-" + code.number)
    ensures NormalizeProductCode(a + code.Text() + b) == Some(UpperAll(code.prefix) + "-" + code.number)
  {
    TrimCode(code);
    BareCode(code);
    TrimIs(a, code.Text(), b);
    hide Trim, WholeCode, LowerAll, UpperAll, IsSpace;
  }

  lemma BareCode(code: Code)
    requires code.Valid()
    ensures var s := code.Text(); s != "" && !IsSpace(s[0]) && !IsSpace(s[|s| - 1])
  {
    var s := code.Text();
    assert s[0] == code.prefix[0] && s[|s| - 1] == code.number[|code.number| - 1];
  }

  lemma CaseKeepsValid(code: Code)
    requires code.Valid()
    ensures Code(LowerAll(code.prefix), "-", code.number).Valid()
    ensures Code(UpperAll(code.prefix), "-", code.number).Valid()
    ensures LowerAll(LowerAll(code.prefix)) == LowerAll(code.prefix)
    ensures UpperAll(LowerAll(code.prefix)) == UpperAll(code.prefix)
    ensures UpperAll(UpperAll(code.prefix)) == UpperAll(code.prefix)
    ensures LowerAll(UpperAll(code.prefix) + "-" + code.number) == code.Key()
  {
    LowerUpper(code.prefix);
    var p, n := code.prefix, code.number;
    assert forall m :: 0 <= m < |n| ==> Lower(n[m]) == n[m];
    var t := UpperAll(p) + "-" + n;
    forall m | 0 <= m < |t| ensures Lower(t[m]) == code.Key()[m] {
      if m < |p| { assert Lower(t[m]) == LowerAll(UpperAll(p))[m]; }
    }
  }

  /** A key is already in normal form: normalising it again gives the same key. */
  lemma KeyIsNormal(code: Code)
    requires code.Valid()
    ensures ArchiveKey(code.Key()) == Some(code.Key())
    ensures NormalizeProductCode(code.Key()) == Some(UpperAll(code.prefix) + "-" + code.number)
    ensures ProductCodeKey(UpperAll(code.prefix) + "-" + code.number) == Some(code.Key())
  {
    CaseKeepsValid(code);
    var low := Code(LowerAll(code.prefix), "-", code.number);
    var up := Code(UpperAll(code.prefix), "-", code.number);
    TrimCode(low);
    TrimCode(up);
    hide WholeCode, Trim, LowerAll, UpperAll;
  }

  /** A key is its own key, and it is never empty. */
  lemma KeyOfKey(value: string, key: string)
    requires ArchiveKey(value) == Some(key)
    ensures ArchiveKey(key) == Some(key) && key != ""
  {
    var t := Trim(value);
    MatchHeadSound(t, true);
    hide MatchHead, Trim;
    var c := WholeCode(t).value;
    hide WholeCode, LowerAll, UpperAll;
    KeyIsNormal(c);
  }

  /** The lower-case form of a normalised code is its archive key, and normalising it again changes nothing. */
  lemma NormalizedKey(value: string, code: string)
    requires NormalizeProductCode(value) == Some(code)
    ensures ArchiveKey(code) == Some(LowerAll(code)) && NormalizeProductCode(code) == Some(code)
    ensures ArchiveKey(value) == Some(LowerAll(code)) && LowerAll(code) != ""
  {
    var t := Trim(value);
    MatchHeadSound(t, true);
    hide MatchHead, Trim;
    var c := WholeCode(t).value;
    CaseKeepsValid(c);
    var up := Code(UpperAll(c.prefix), "-", c.number);
    TrimCode(up);
    LowerUpper(c.prefix);
    hide WholeCode, LowerAll, UpperAll;
  }

  // --- Searching a text ---

  /** Every `%2d`, in either case, becomes a hyphen. */
  function DecodeHyphens(s: string): string {
    if s == "" then ""
    else if 3 <= |s| && s[0] == '%' && s[1] == '2' && (s[2] == 'd' || s[2] == 'D') then "-" + DecodeHyphens(s[3..])
    else [s[0]] + DecodeHyphens(s[1..])
  }

  function BlankRun(s: string): (n: nat)
    ensures n <= |s| && (n < |s| ==> !IsBlank(s[n]))
    ensures s != "" && IsBlank(s[0]) ==> 0 < n
  {
    if s != "" && IsBlank(s[0]) then 1 + BlankRun(s[1..]) else 0
  }

  /** Every run of underscores and white space becomes one hyphen. */
  function CollapseBlanks(s: string): string
    decreases |s|
  {
    if s == "" then ""
    else if IsBlank(s[0]) then "-" + CollapseBlanks(s[BlankRun(s)..])
    else [s[0]] + CollapseBlanks(s[1..])
  }

  function Decode(s: string): string { CollapseBlanks(DecodeHyphens(s)) }

  /** `%2d`, in either case, stands at `i`. */
  predicate EncodedAt(s: string, i: nat) { i + 3 <= |s| && (s[i..i + 3] == "%2d" || s[i..i + 3] == "%2D") }

  lemma EncodedHead(s: string)
    ensures EncodedAt(s, 0) <==> 3 <= |s| && s[0] == '%' && s[1] == '2' && (s[2] == 'd' || s[2] == 'D')
  {
    if 3 <= |s| {
      assert s[0..3] == [s[0], s[1], s[2]];
    }
  }

  lemma EncodedTail(s: string, i: nat)
    requires s != ""
    ensures EncodedAt(s[1..], i) <==> EncodedAt(s, i + 1)
  {
    if i + 4 <= |s| {
      assert s[1..][i..i + 3] == s[i + 1..i + 4];
    }
  }

  /** Decoding replaces the first `%2d` and goes on behind it; a text without one stays as it is. */
  lemma {:induction false} DecodeFirst(s: string, i: nat)
    requires i <= |s| && forall j :: 0 <= j < i ==> !EncodedAt(s, j)
    ensures EncodedAt(s, i) ==> DecodeHyphens(s) == s[..i] + "-" + DecodeHyphens(s[i + 3..])
    ensures i == |s| ==> DecodeHyphens(s) == s
  {
    EncodedHead(s);
    if i > 0 {
      forall j | 0 <= j < i - 1 ensures !EncodedAt(s[1..], j) { EncodedTail(s, j); }
      EncodedTail(s, i - 1);
      DecodeFirst(s[1..], i - 1);
      assert EncodedAt(s, i) ==> s[1..][i - 1 + 3..] == s[i + 3..];
      assert s == [s[0]] + s[1..] && s[..i] == [s[0]] + s[1..][..i - 1];
    }
  }

  /** The leftmost, non-overlapping matches from position `i` on. */
  function CodesFrom(s: string, i: nat): seq<Code>
    requires i <= |s|
    decreases |s| - i
  {
    if i == |s| then []
    else match MatchHead(s[i..], false)
      case Some(code) => [code] + CodesFrom(s, i + |code.Text()|)
      case None => CodesFrom(s, i + 1)
  }

  function ProductCodesIn(value: string): seq<Code> { CodesFrom(Decode(value), 0) }

  function Distinct<T(==, !new)>(s: seq<T>): (r: seq<T>)
    ensures forall x :: x in r <==> x in s
    ensures forall i, j :: 0 <= i < j < |r| ==> r[i] != r[j]
  {
    if s == [] then []
    else
      var init, last := s[..|s| - 1], s[|s| - 1];
      assert s == init + [last];
      if last in Distinct(init) then Distinct(init) else Distinct(init) + [last]
  }

  function Keys(codes: seq<Code>): (r: seq<string>)
    ensures |r| == |codes| && forall i :: 0 <= i < |codes| ==> r[i] == codes[i].Key()
  {
    seq(|codes|, i requires 0 <= i < |codes| => codes[i].Key())
  }

  function ProductCodeKeys(value: string): seq<string> { Distinct(Keys(ProductCodesIn(value))) }

  /**
    A code stands at `j` of a decoded text: the pattern matches there, and it would not also match
    one letter earlier. Only a prefix of the full 16 letters may continue a longer run of letters.
   */
  predicate CodeStandsAt(s: string, j: nat, code: Code) {
    && j <= |s| && StartsWith(s[j..], false, code)
    && (j == 0 || !IsLetter(s[j - 1]) || |code.prefix| == 16)
  }

  /** Inside a match no other code stands. */
  lemma NothingInside(s: string, i: nat, code: Code, j: nat, other: Code)
    requires i < j <= |s| && StartsWith(s[i..], false, code) && j <= i + |code.Text()|
    ensures !CodeStandsAt(s, j, other)
  {
    hide StartsWith;
    if CodeStandsAt(s, j, other) {
      PrefixBound(s[i..], false, code);
      PrefixBound(s[j..], false, other);
      var m, l: nat := j - i, |code.prefix|;
      CharInside(s, i, false, code, m - 1);
      CharInside(s, i, false, code, l);
      if m < l {
        // `other` would need 16 letters, but the letters end within the match.
        CharInside(s, j, false, other, l - m);
      } else {
        CharInside(s, i, false, code, m);
        CharInside(s, j, false, other, 0);
      }
    }
  }

  /** The match one letter earlier, when a code with room for another letter matches. */
  lemma OneLetterEarlier(s: string, i: nat, code: Code)
    requires i + 1 <= |s| && StartsWith(s[i + 1..], false, code) && IsLetter(s[i]) && |code.prefix| < 16
    ensures MatchHead(s[i..], false).Some?
  {
    var longer := Code([s[i]] + code.prefix, code.sep, code.number);
    assert s[i..] == [s[i]] + s[i + 1..];
    assert longer.Text() == [s[i]] + code.Text();
    MatchHeadComplete(s[i..], false, longer);
  }

  /** Where a code stands for a scan that begins at `i` with no memory of what came before. */
  predicate StandsFrom(s: string, i: nat, j: nat, code: Code) {
    && i <= j <= |s| && StartsWith(s[j..], false, code)
    && (j == i || !IsLetter(s[j - 1]) || |code.prefix| == 16)
  }

  lemma MatchEnds(s: string, i: nat, wide: bool, code: Code)
    requires i <= |s| && StartsWith(s[i..], wide, code)
    ensures i + 4 <= i + |code.Text()| <= |s| && IsDigit(s[i + |code.Text()| - 1]) && IsLetter(s[i])
  {
    CharInside(s, i, wide, code, 0);
    CharInside(s, i, wide, code, |code.Text()| - 1);
  }

  lemma {:induction false} CodesFromSound(s: string, i: nat, code: Code) returns (j: nat)
    requires i <= |s| && code in CodesFrom(s, i)
    ensures StandsFrom(s, i, j, code)
    decreases |s| - i
  {
    hide StartsWith, MatchHead, IsLetter;
    MatchHeadSound(s[i..], false);
    match MatchHead(s[i..], false)
    case Some(c) =>
      MatchEnds(s, i, false, c);
      if code == c {
        j := i;
      } else {
        j := CodesFromSound(s, i + |c.Text()|, code);
        DigitIsNoLetter(s[i + |c.Text()| - 1]);
      }
    case None =>
      j := CodesFromSound(s, i + 1, code);
      PrefixBound(s[j..], false, code);
      if j == i + 1 && IsLetter(s[i]) && |code.prefix| != 16 {
        OneLetterEarlier(s, i, code);
        assert false;
      }
  }

  /** A code that stands later stands beyond the whole of the match found here. */
  lemma StandsBeyond(s: string, i: nat, j: nat, code: Code, c: Code)
    requires StandsFrom(s, i, j, code) && i < j && MatchHead(s[i..], false) == Some(c)
    ensures i < i + |c.Text()| <= |s| && StandsFrom(s, i + |c.Text()|, j, code)
  {
    hide StartsWith, MatchHead, IsLetter;
    MatchHeadSound(s[i..], false);
    MatchEnds(s, i, false, c);
    if j <= i + |c.Text()| {
      NothingInside(s, i, c, j, code);
      assert false;
    }
  }

  lemma StandsStarts(s: string, i: nat, j: nat, code: Code)
    requires StandsFrom(s, i, j, code)
    ensures i <= j <= |s|
    ensures i == j ==> i < |s| && MatchHead(s[i..], false) == Some(code)
    ensures i < j ==> StandsFrom(s, i + 1, j, code)
  {
    hide StartsWith, MatchHead;
    MatchEnds(s, j, false, code);
    if i == j {
      MatchHeadComplete(s[i..], false, code);
    }
  }

  lemma {:induction false} CodesFromComplete(s: string, i: nat, j: nat, code: Code)
    requires StandsFrom(s, i, j, code)
    ensures code in CodesFrom(s, i)
    decreases |s| - i
  {
    hide StartsWith, MatchHead, StandsFrom;
    StandsStarts(s, i, j, code);
    if i < j {
      match MatchHead(s[i..], false)
      case Some(c) =>
        StandsBeyond(s, i, j, code, c);
        CodesFromComplete(s, i + |c.Text()|, j, code);
      case None =>
        CodesFromComplete(s, i + 1, j, code);
    }
  }

  lemma DigitIsNoLetter(c: char)
    requires IsDigit(c)
    ensures !IsLetter(c) && IsAlnum(c)
  {
  }

  lemma PrefixBound(s: string, wide: bool, code: Code)
    requires StartsWith(s, wide, code)
    ensures |code.prefix| <= 16 && code.Valid()
  {
  }

  /** The codes found in a text are exactly the codes that stand somewhere in its decoded form. */
  lemma CodesExact(value: string, code: Code)
    ensures code in ProductCodesIn(value) <==> exists j :: CodeStandsAt(Decode(value), j, code)
  {
    hide StartsWith, MatchHead, CodesFrom, Decode;
    var s := Decode(value);
    if code in ProductCodesIn(value) {
      var j := CodesFromSound(s, 0, code);
      assert CodeStandsAt(s, j, code);
    }
    if j: nat :| CodeStandsAt(s, j, code) {
      CodesFromComplete(s, 0, j, code);
    }
  }

  lemma KeysExact(value: string, key: string)
    ensures key in ProductCodeKeys(value) <==>
            exists j, code :: CodeStandsAt(Decode(value), j, code) && code.Key() == key
  {
    hide StartsWith, MatchHead, CodesFrom, Decode, CodeStandsAt;
    var codes := ProductCodesIn(value);
    if key in ProductCodeKeys(value) {
      var i :| 0 <= i < |codes| && Keys(codes)[i] == key;
      CodesExact(value, codes[i]);
    }
    if j, code :| CodeStandsAt(Decode(value), j, code) && code.Key() == key {
      CodesExact(value, code);
      var i :| 0 <= i < |codes| && codes[i] == code;
      assert Keys(codes)[i] == key;
    }
  }

  // --- Media names ---

  /** The position at which a scan standing at `i` finds its next match, if it finds one there. */
  function MediaHit(s: string, i: nat): (r: Option<nat>)
    requires i <= |s|
    ensures r.Some? ==> i <= r.value <= |s| && MatchHead(s[r.value..], true).Some?
  {
    if i == 0 && MatchHead(s[0..], true).Some? then Some(0)
    else if i < |s| && !IsAlnum(s[i]) && MatchHead(s[i + 1..], true).Some? then Some(i + 1)
    else None
  }

  /** The pattern that also asks for a boundary before the letters, and consumes that boundary. */
  function MediaCodesFrom(s: string, i: nat): seq<Code>
    requires i <= |s|
    decreases |s| - i
  {
    match MediaHit(s, i)
    case Some(o) =>
      var code := MatchHead(s[o..], true).value;
      [code] + MediaCodesFrom(s, o + |code.Text()|)
    case None => if i == |s| then [] else MediaCodesFrom(s, i + 1)
  }

  function MediaKeys(source: string): (keys: set<string>) {
    set code <- MediaCodesFrom(source, 0) :: code.Key()
  }

  predicate MediaCodeStandsAt(s: string, j: nat, code: Code) {
    j <= |s| && StartsWith(s[j..], true, code) && (j == 0 || !IsAlnum(s[j - 1]))
  }

  lemma NothingInsideMedia(s: string, i: nat, code: Code, j: nat, other: Code)
    requires i < j <= |s| && StartsWith(s[i..], true, code) && j <= i + |code.Text()|
    ensures !MediaCodeStandsAt(s, j, other)
  {
    hide StartsWith;
    if MediaCodeStandsAt(s, j, other) {
      PrefixBound(s[i..], true, code);
      PrefixBound(s[j..], true, other);
      var m: nat := j - i - 1;
      CharInside(s, i, true, code, m);
      CharInside(s, i, true, code, m + 1);
      CharInside(s, j, true, other, 0);
    }
  }

  predicate MediaStandsFrom(s: string, i: nat, j: nat, code: Code) {
    MediaCodeStandsAt(s, j, code) && (i < j || i == j == 0)
  }

  /** One match of the scan, unfolded. */
  lemma MediaHitStep(s: string, i: nat) returns (c: Code, e: nat)
    requires i <= |s| && MediaHit(s, i).Some?
    ensures var o := MediaHit(s, i).value;
            StartsWith(s[o..], true, c) && o < e == o + |c.Text()| <= |s| && IsAlnum(s[e - 1])
            && MediaCodesFrom(s, i) == [c] + MediaCodesFrom(s, e) && MediaStandsFrom(s, i, o, c)
  {
    hide StartsWith, MatchHead;
    var o := MediaHit(s, i).value;
    c := MatchHead(s[o..], true).value;
    MatchHeadSound(s[o..], true);
    MatchEnds(s, o, true, c);
    e := o + |c.Text()|;
  }

  lemma {:induction false} MediaCodesFromSound(s: string, i: nat, code: Code) returns (j: nat)
    requires i <= |s| && code in MediaCodesFrom(s, i)
    ensures MediaStandsFrom(s, i, j, code)
    decreases |s| - i
  {
    hide StartsWith, MatchHead, IsAlnum;
    if MediaHit(s, i).Some? {
      var c, e := MediaHitStep(s, i);
      if code == c {
        j := MediaHit(s, i).value;
      } else {
        j := MediaCodesFromSound(s, e, code);
      }
    } else {
      j := MediaCodesFromSound(s, i + 1, code);
    }
  }

  lemma {:induction false} MediaCodesFromComplete(s: string, i: nat, j: nat, code: Code)
    requires i <= |s| && MediaStandsFrom(s, i, j, code)
    ensures code in MediaCodesFrom(s, i)
    decreases |s| - i
  {
    hide StartsWith, MatchHead, IsAlnum;
    assert s[0..] == s;
    MatchEnds(s, j, true, code);
    MatchHeadComplete(s[j..], true, code);
    if MediaHit(s, i).Some? {
      var c, e := MediaHitStep(s, i);
      var o := MediaHit(s, i).value;
      if j == o {
        MatchHeadSame(s[o..], true, c, code);
      } else {
        if j <= e {
          NothingInsideMedia(s, o, c, j, code);
          assert false;
        }
        MediaCodesFromComplete(s, e, j, code);
      }
    } else {
      MediaCodesFromComplete(s, i + 1, j, code);
    }
  }

  lemma MatchHeadSame(s: string, wide: bool, c: Code, d: Code)
    requires StartsWith(s, wide, c) && StartsWith(s, wide, d)
    ensures c == d
  {
    hide StartsWith, MatchHead;
    MatchHeadComplete(s, wide, c);
    MatchHeadComplete(s, wide, d);
  }

  /** A media name carries a key exactly when a code with that key stands in it between boundaries. */
  lemma MediaKeysExact(source: string, key: string)
    ensures key in MediaKeys(source) <==> exists j, code :: MediaCodeStandsAt(source, j, code) && code.Key() == key
  {
    hide StartsWith, MatchHead, MediaCodesFrom;
    if key in MediaKeys(source) {
      var code :| code in MediaCodesFrom(source, 0) && code.Key() == key;
      var j := MediaCodesFromSound(source, 0, code);
      assert MediaCodeStandsAt(source, j, code);
    }
    if j, code :| MediaCodeStandsAt(source, j, code) && code.Key() == key {
      assert MediaStandsFrom(source, 0, j, code);
      MediaCodesFromComplete(source, 0, j, code);
    }
  }

  // --- LIKE ---

  /** The database's LIKE: `%` stands for any text and `_` for any one character. */
  predicate Like(pattern: string, t: string)
    decreases |pattern| + |t|
  {
    if pattern == "" then t == ""
    else if pattern[0] == '%' then Like(pattern[1..], t) || (t != "" && Like(pattern, t[1..]))
    else t != "" && (pattern[0] == '_' || pattern[0] == t[0]) && Like(pattern[1..], t[1..])
  }

  function SearchPatterns(value: string): seq<string> {
    match WholeCode(Trim(value))
    case None => []
    case Some(code) =>
      var p, n := LowerAll(UpperAll(code.prefix)), code.number;
      ["%" + p + "-" + n + "%", "%" + p + "_" + n + "%", "%" + p + " " + n + "%", "%" + p + n + "%"]
  }

  predicate MatchesSome(patterns: seq<string>, t: string) {
    exists p <- patterns :: Like(p, t)
  }

  /** `core` with its wildcards, read at the head of `t`. */
  predicate Fits(core: string, t: string) {
    |core| <= |t| && forall i :: 0 <= i < |core| ==> core[i] == '_' || core[i] == t[i]
  }

  lemma {:induction false} LikePrefix(core: string, t: string)
    requires '%' !in core
    ensures Like(core + "%", t) <==> Fits(core, t)
  {
    if core == "" {
      LikeAnything(t);
      assert core + "%" == "%";
    } else {
      assert (core + "%")[1..] == core[1..] + "%";
      if t != "" {
        LikePrefix(core[1..], t[1..]);
        if Fits(core, t) {
          assert forall i :: 0 <= i < |core| - 1 ==> core[1..][i] == core[i + 1] && t[1..][i] == t[i + 1];
        }
        if Fits(core[1..], t[1..]) && (core[0] == '_' || core[0] == t[0]) {
          forall i | 0 <= i < |core| ensures core[i] == '_' || core[i] == t[i] {
            if i > 0 { assert core[1..][i - 1] == core[i] && t[1..][i - 1] == t[i]; }
          }
        }
      }
    }
  }

  lemma {:induction false} LikeAnything(t: string)
    ensures Like("%", t)
  {
    assert "%"[1..] == "";
    if t != "" { LikeAnything(t[1..]); }
  }

  lemma {:induction false} LikeContains(core: string, t: string)
    requires '%' !in core
    ensures Like("%" + core + "%", t) <==> exists i :: 0 <= i <= |t| && Fits(core, t[i..])
  {
    var pattern := "%" + core + "%";
    assert pattern[1..] == core + "%";
    LikePrefix(core, t);
    assert t[0..] == t;
    if t != "" {
      LikeContains(core, t[1..]);
      if i :| 0 <= i <= |t| - 1 && Fits(core, t[1..][i..]) {
        assert t[1..][i..] == t[i + 1..];
      }
      if i :| 0 <= i <= |t| && Fits(core, t[i..]) {
        if i > 0 { assert t[1..][i - 1..] == t[i..]; }
      }
    }
  }

  /** `prefix` and `number` stand in `t` with nothing, or any one character, between them. */
  predicate WrittenAt(t: string, prefix: string, number: string, i: nat) {
    && i <= |t| && prefix <= t[i..]
    && (number <= t[i..][|prefix|..] || (|prefix| < |t[i..]| && number <= t[i..][|prefix| + 1..]))
  }

  lemma FitsAcross(p: string, mid: string, n: string, t: string)
    requires '_' !in p && '_' !in n && |mid| <= 1
    ensures Fits(p + mid + n, t) <==> p <= t && |p| + |mid| <= |t| && Fits(mid, t[|p|..]) && n <= t[|p| + |mid|..]
  {
    if Fits(p + mid + n, t) {
      FitsInParts(p, mid, n, t);
    }
    if p <= t && |p| + |mid| <= |t| && Fits(mid, t[|p|..]) && n <= t[|p| + |mid|..] {
      PartsFit(p, mid, n, t);
    }
  }

  lemma FitsInParts(p: string, mid: string, n: string, t: string)
    requires '_' !in p && '_' !in n && |mid| <= 1 && Fits(p + mid + n, t)
    ensures p <= t && |p| + |mid| <= |t| && Fits(mid, t[|p|..]) && n <= t[|p| + |mid|..]
  {
    var core := p + mid + n;
    assert forall i :: 0 <= i < |p| ==> core[i] == p[i];
    assert forall i :: 0 <= i < |mid| ==> core[|p| + i] == mid[i];
    assert forall i :: 0 <= i < |n| ==> core[|p| + |mid| + i] == n[i];
    assert p == t[..|p|];
    assert n == t[|p| + |mid|..][..|n|];
  }

  lemma PartsFit(p: string, mid: string, n: string, t: string)
    requires p <= t && |p| + |mid| <= |t| && |mid| <= 1 && Fits(mid, t[|p|..]) && n <= t[|p| + |mid|..]
    ensures Fits(p + mid + n, t)
  {
    var core, tail := p + mid + n, t[|p| + |mid|..];
    assert forall i :: 0 <= i < |p| ==> p[i] == t[i];
    assert forall i :: 0 <= i < |mid| ==> t[|p|..][i] == t[|p| + i];
    assert forall i :: 0 <= i < |n| ==> tail[i] == n[i];
    assert forall i :: |p| + |mid| <= i < |core| ==> t[i] == tail[i - |p| - |mid|] && core[i] == n[i - |p| - |mid|];
  }

  /** The four texts a pattern looks for, wildcard included. */
  function Cores(p: string, n: string): seq<string> {
    [p + "-" + n, p + "_" + n, p + " " + n, p + n]
  }

  lemma PatternsOfCores(code: Code)
    requires code.Valid()
    ensures var cores, pats := Cores(LowerAll(code.prefix), code.number), SearchPatterns(code.Key());
            |pats| == |cores| == 4
            && forall m :: 0 <= m < 4 ==> pats[m] == "%" + cores[m] + "%" && '%' !in cores[m]
  {
    KeyPatterns(code);
    PlainParts(code);
    Wrapped(LowerAll(code.prefix), code.number);
    hide SearchPatterns, LowerAll;
  }

  lemma Wrapped(p: string, n: string)
    requires '%' !in p && '%' !in n
    ensures ["%" + p + "-" + n + "%", "%" + p + "_" + n + "%", "%" + p + " " + n + "%", "%" + p + n + "%"]
            == ["%" + Cores(p, n)[0] + "%", "%" + Cores(p, n)[1] + "%", "%" + Cores(p, n)[2] + "%",
                 "%" + Cores(p, n)[3] + "%"]
    ensures forall m :: 0 <= m < 4 ==> '%' !in Cores(p, n)[m]
  {
    assert "%" + p + n + "%" == "%" + (p + n) + "%";
    assert "%" + p + "-" + n + "%" == "%" + (p + "-" + n) + "%";
    assert "%" + p + "_" + n + "%" == "%" + (p + "_" + n) + "%";
    assert "%" + p + " " + n + "%" == "%" + (p + " " + n) + "%";
  }

  /**
    The pre-filter, exactly: a text passes for a code when the code is written in it with nothing
    or a single character, of any kind, between letters and digits.
   */
  lemma PatternsExact(code: Code, t: string)
    requires code.Valid()
    ensures MatchesSome(SearchPatterns(code.Key()), t)
            <==> exists i: nat :: WrittenAt(t, LowerAll(code.prefix), code.number, i)
  {
    PatternsOfCores(code);
    PlainParts(code);
    hide Like, SearchPatterns, WrittenAt, Fits, LowerAll, Cores;
    var p, n := LowerAll(code.prefix), code.number;
    var cores, pats := Cores(p, n), SearchPatterns(code.Key());
    if MatchesSome(pats, t) {
      var m :| 0 <= m < 4 && Like(pats[m], t);
      LikeContains(cores[m], t);
      var i: nat :| i <= |t| && Fits(cores[m], t[i..]);
      CoresAreWritten(p, n, t, i);
      assert WrittenAt(t, p, n, i);
    }
    if i: nat :| WrittenAt(t, p, n, i) {
      CoresAreWritten(p, n, t, i);
      var m :| 0 <= m < 4 && Fits(cores[m], t[i..]);
      LikeContains(cores[m], t);
      assert pats[m] in pats;
    }
  }

  lemma PlainParts(code: Code)
    requires code.Valid()
    ensures var p := LowerAll(code.prefix);
            '%' !in p && '_' !in p && '%' !in code.number && '_' !in code.number
  {
  }

  lemma CoresAreWritten(p: string, n: string, t: string, i: nat)
    requires '_' !in p && '_' !in n
    ensures |Cores(p, n)| == 4
    ensures WrittenAt(t, p, n, i) ==> i <= |t|
    ensures i <= |t| ==> (WrittenAt(t, p, n, i) <==> exists m :: 0 <= m < 4 && Fits(Cores(p, n)[m], t[i..]))
  {
    if i <= |t| {
      var u, cores := t[i..], Cores(p, n);
      FitsAcross(p, "-", n, u);
      FitsAcross(p, "_", n, u);
      FitsAcross(p, " ", n, u);
      FitsAcross(p, "", n, u);
      assert p + "" + n == p + n;
      assert |p| < |u| ==> Fits("_", u[|p|..]);
      assert Fits(cores[0], u) ==> Fits(cores[1], u);
      assert Fits(cores[2], u) ==> Fits(cores[1], u);
      assert WrittenAt(t, p, n, i) <==> Fits(cores[1], u) || Fits(cores[3], u);
    }
  }

  lemma KeyPatterns(code: Code)
    requires code.Valid()
    ensures var p, n := LowerAll(code.prefix), code.number;
            SearchPatterns(code.Key())
            == ["%" + p + "-" + n + "%", "%" + p + "_" + n + "%", "%" + p + " " + n + "%", "%" + p + n + "%"]
  {
    CaseKeepsValid(code);
    var low := Code(LowerAll(code.prefix), "-", code.number);
    TrimCode(low);
    LowerUpper(low.prefix);
    hide WholeCode, Trim;
    assert low.Text() == code.Key();
  }

  // --- How the recognisers agree ---

  lemma {:induction false} NoPercentNoHyphen(s: string)
    requires forall i :: 0 <= i < |s| ==> s[i] != '%'
    ensures DecodeHyphens(s) == s
  {
    if s != "" {
      NoPercentNoHyphen(s[1..]);
      assert s == [s[0]] + s[1..];
    }
  }

  lemma {:induction false} BlankRunIs(a: string, r: string)
    requires (forall i :: 0 <= i < |a| ==> IsBlank(a[i])) && (r == "" || !IsBlank(r[0]))
    ensures BlankRun(a + r) == |a|
  {
    if a == "" {
      assert a + r == r;
    } else {
      BlankRunIs(a[1..], r);
      assert (a + r)[1..] == a[1..] + r;
    }
  }

  lemma CollapseBlank(a: string, r: string)
    requires (forall i :: 0 <= i < |a| ==> IsBlank(a[i])) && (r == "" || !IsBlank(r[0]))
    ensures CollapseBlanks(a + r) == (if a == "" then "" else "-") + CollapseBlanks(r)
  {
    if a == "" {
      assert a + r == r;
    } else {
      BlankRunIs(a, r);
      assert (a + r)[|a|..] == r;
    }
  }

  lemma {:induction false} CollapsePlain(p: string, r: string)
    requires forall i :: 0 <= i < |p| ==> !IsBlank(p[i])
    ensures CollapseBlanks(p + r) == p + CollapseBlanks(r)
  {
    if p == "" {
      assert p + r == r;
    } else {
      CollapsePlain(p[1..], r);
      assert (p + r)[1..] == p[1..] + r;
      assert p == [p[0]] + p[1..];
    }
  }

  lemma CollapseSep(sep: string, r: string)
    requires |sep| <= 1 && (sep != "" ==> IsSep(sep[0])) && (r == "" || !IsBlank(r[0]))
    ensures CollapseBlanks(sep + r) == (if sep == "" then "" else "-") + CollapseBlanks(r)
  {
    if sep == "-" {
      CollapsePlain(sep, r);
    } else {
      CollapseBlank(sep, r);
    }
  }

  /** What each part of a padded code can contain. */
  lemma CodeCharacters(code: Code)
    requires code.Valid()
    ensures forall i :: 0 <= i < |code.prefix| ==> !IsBlank(code.prefix[i]) && code.prefix[i] != '%'
    ensures forall i :: 0 <= i < |code.number| ==> !IsBlank(code.number[i]) && code.number[i] != '%'
    ensures code.sep != "" ==> code.sep[0] != '%'
  {
  }

  lemma Regroup(a: string, p: string, sep: string, n: string, b: string)
    ensures a + (p + sep + n) + b == a + (p + (sep + (n + b))) == a + p + sep + n + b
  {
  }

  function Hyphen(s: string): string { if s == "" then "" else "-" }

  lemma DecodePadded(a: string, code: Code, b: string)
    requires Spaces(a) && Spaces(b) && code.Valid()
    ensures Decode(a + code.Text() + b) == Hyphen(a) + code.prefix + Hyphen(code.sep) + code.number + Hyphen(b)
  {
    var p, sep, n := code.prefix, code.sep, code.number;
    NoPercentPadded(a, code, b);
    NoPercentNoHyphen(a + code.Text() + b);
    Regroup(a, p, sep, n, b);
    hide DecodeHyphens, IsSpace, IsLetter, IsDigit, Letters, Digits;
    CollapsePadded(a, code, b);
    hide CollapseBlanks;
    Regroup(Hyphen(a), p, Hyphen(sep), n, Hyphen(b));
  }

  lemma CollapsePadded(a: string, code: Code, b: string)
    requires Spaces(a) && Spaces(b) && code.Valid()
    ensures CollapseBlanks(a + (code.prefix + (code.sep + (code.number + b))))
            == Hyphen(a) + (code.prefix + (Hyphen(code.sep) + (code.number + Hyphen(b))))
  {
    var p, sep, n := code.prefix, code.sep, code.number;
    CodeCharacters(code);
    NoPercentPadded(a, code, b);
    assert CollapseBlanks("") == "";
    hide CollapseBlanks, IsBlank, IsSpace, IsLetter, IsDigit, Letters, Digits;
    var r3 := n + b;
    var r2 := sep + r3;
    var r1 := p + r2;
    assert r3[0] == n[0] && r1[0] == p[0];
    CollapseBlank(a, r1);
    CollapsePlain(p, r2);
    CollapseSep(sep, r3);
    CollapsePlain(n, b);
    CollapseBlank(b, "");
    assert b + "" == b && Hyphen(b) + "" == Hyphen(b);
  }

  lemma NoPercentPadded(a: string, code: Code, b: string)
    requires Spaces(a) && Spaces(b) && code.Valid()
    ensures var t := a + code.Text() + b; forall i :: 0 <= i < |t| ==> t[i] != '%'
    ensures forall i :: 0 <= i < |a| ==> IsBlank(a[i])
    ensures forall i :: 0 <= i < |b| ==> IsBlank(b[i])
  {
    PercentIsPlain();
    CodeCharacters(code);
    hide Letters, Digits, IsSep;
  }

  lemma PercentIsPlain()
    ensures !IsBlank('%') && !IsAlnum('-') && !IsBlank('-')
  {
  }

  lemma SpacesAreBoundaries(a: string)
    requires Spaces(a)
    ensures forall i :: 0 <= i < |a| ==> !IsAlnum(a[i])
  {
  }

  lemma PaddedStands(lead: string, code: Code, tail: string, wide: bool)
    requires code.Valid() && (code.sep == "" || code.sep == "-" || wide)
    requires tail != "" ==> !IsAlnum(tail[0])
    ensures StartsWith((lead + code.Text() + tail)[|lead|..], wide, code)
  {
    var t := lead + code.Text() + tail;
    assert t[|lead|..] == code.Text() + tail;
    hide IsAlnum, IsSep, Letters, Digits;
  }

  /** A text that, taken whole, is a code is found by the search of a text, and under the same key. */
  lemma ArchiveKeyIsFound(value: string, key: string)
    requires ArchiveKey(value) == Some(key)
    ensures key in ProductCodeKeys(value)
  {
    hide Decode, StartsWith, IsSep, Letters, Digits, Spaces, ArchiveKey;
    var a, code, b := ArchiveKeyParts(value);
    DecodePadded(a, code, b);
    PercentIsPlain();
    var lead, tail := Hyphen(a), Hyphen(b);
    var found := Hyphenated(code);
    Regroup(lead, found.prefix, found.sep, found.number, tail);
    PaddedStands(lead, found, tail, false);
    assert CodeStandsAt(Decode(value), |lead|, found);
    KeysExact(value, key);
  }

  /** In a text that is a code between two hyphens at most, no other code stands. */
  lemma StandsAlone(lead: string, found: Code, tail: string, j: nat, c: Code)
    requires found.Valid() && (found.sep == "" || found.sep == "-")
    requires (lead == "" || lead == "-") && (tail == "" || tail == "-")
    requires CodeStandsAt(lead + found.Text() + tail, j, c)
    ensures c == found
  {
    var s, i := lead + found.Text() + tail, |lead|;
    PaddedStands(lead, found, tail, false);
    hide StartsWith, IsLetter, IsDigit;
    MatchEnds(s, j, false, c);
    MatchEnds(s, i, false, found);
    assert lead == "-" ==> s[0] == '-';
    HyphenIsNoLetter();
    if i < j <= i + |found.Text()| {
      NothingInside(s, i, found, j, c);
      assert false;
    } else {
      assert j == i;
      MatchHeadSame(s[i..], false, c, found);
    }
  }

  lemma HyphenIsNoLetter()
    ensures !IsLetter('-')
  {
  }

  /** A text that, taken whole, is a code contains no other: its key is its only key. */
  lemma OnlyOwnKey(value: string, key: string, other: string)
    requires ArchiveKey(value) == Some(key) && other in ProductCodeKeys(value)
    ensures other == key
  {
    hide Decode, StartsWith, IsSep, Letters, Digits, Spaces, ArchiveKey, CodeStandsAt;
    var a, code, b := ArchiveKeyParts(value);
    DecodePadded(a, code, b);
    var found := Hyphenated(code);
    Regroup(Hyphen(a), found.prefix, found.sep, found.number, Hyphen(b));
    KeysExact(value, other);
    var j, c :| CodeStandsAt(Decode(value), j, c) && c.Key() == other;
    StandsAlone(Hyphen(a), found, Hyphen(b), j, c);
  }

  lemma Hyphenated(code: Code) returns (found: Code)
    requires code.Valid()
    ensures found == Code(code.prefix, Hyphen(code.sep), code.number) && found.Valid() && found.Key() == code.Key()
  {
    found := Code(code.prefix, Hyphen(code.sep), code.number);
  }

  lemma ArchiveKeyParts(value: string) returns (a: string, code: Code, b: string)
    requires ArchiveKey(value).Some?
    ensures Spaces(a) && Spaces(b) && code.Valid() && value == a + code.Text() + b
    ensures ArchiveKey(value) == Some(code.Key())
  {
    a, b := TrimSplit(value);
    var t := Trim(value);
    MatchHeadSound(t, true);
    hide Trim, MatchHead, Letters, Digits, IsSep;
    code := WholeCode(t).value;
    assert t == code.Text();
  }

  /** A text that holds a code with at most one separator character passes the LIKE pre-filter for it. */
  lemma SingleSeparatorPasses(a: string, code: Code, b: string)
    requires code.Valid()
    ensures MatchesSome(SearchPatterns(code.Key()), LowerAll(a + code.Text() + b))
  {
    var t := LowerAll(a + code.Text() + b);
    PatternsExact(code, t);
    LowerOfParts(a, code, b);
    hide WrittenAt, MatchesSome, LowerAll;
    assert WrittenAt(t, LowerAll(code.prefix), code.number, |a|);
  }

  lemma LowerOfParts(a: string, code: Code, b: string)
    requires code.Valid()
    ensures WrittenAt(LowerAll(a + code.Text() + b), LowerAll(code.prefix), code.number, |a|)
  {
    var p, sep, n := code.prefix, code.sep, code.number;
    assert LowerAll(n) == n;
    hide LowerAll, IsLetter, IsDigit, IsSep, Letters, Digits, WrittenAt;
    Regroup(a, p, sep, n, b);
    LowerConcat(a, p + (sep + (n + b)));
    LowerConcat(p, sep + (n + b));
    LowerConcat(sep, n + b);
    LowerConcat(n, b);
    WrittenInside(LowerAll(a), LowerAll(p), LowerAll(sep), n, LowerAll(b));
  }

  lemma WrittenInside(a: string, p: string, sep: string, n: string, b: string)
    requires |sep| <= 1
    ensures WrittenAt(a + (p + (sep + (n + b))), p, n, |a|)
  {
    var u := p + (sep + (n + b));
    assert (a + u)[|a|..] == u;
    assert u[|p|..] == sep + (n + b);
    if sep == "" {
      assert u[|p|..] == n + b;
    } else {
      assert u[|p| + 1..] == n + b;
    }
  }

  lemma LowerConcat(s: string, t: string)
    ensures LowerAll(s + t) == LowerAll(s) + LowerAll(t)
  {
  }

  /** A row whose content is a code always passes the LIKE pre-filter for its own key. */
  lemma ArchiveKeyPasses(value: string, key: string)
    requires ArchiveKey(value) == Some(key)
    ensures MatchesSome(SearchPatterns(key), LowerAll(value))
  {
    var a, code, b := ArchiveKeyParts(value);
    SingleSeparatorPasses(a, code, b);
  }

  /** A media item named by the content of an entry carries the key of that entry. */
  lemma ArchiveKeyIsMediaKey(value: string, key: string)
    requires ArchiveKey(value) == Some(key)
    ensures key in MediaKeys(value)
  {
    var a, code, b := ArchiveKeyParts(value);
    SpacesAreBoundaries(a);
    SpacesAreBoundaries(b);
    PaddedStands(a, code, b, true);
    hide StartsWith, IsAlnum, MediaKeys;
    assert MediaCodeStandsAt(value, |a|, code);
    MediaKeysExact(value, key);
  }

  /** The family the pre-filter misses: two or more blanks inside a code, which the search still finds. */
  lemma WideGapMissed(prefix: string, gap: string, number: string)
    requires Code(prefix, "-", number).Valid()
    requires |gap| >= 2 && forall i :: 0 <= i < |gap| ==> IsBlank(gap[i])
    ensures var key, t := Code(prefix, "-", number).Key(), prefix + gap + number;
            key in ProductCodeKeys(t) && !MatchesSome(SearchPatterns(key), LowerAll(t))
  {
    var code, t := Code(prefix, "-", number), prefix + gap + number;
    GapDecodes(prefix, gap, number);
    PaddedStands("", code, "", false);
    assert "" + code.Text() + "" == code.Text();
    hide Decode, StartsWith, SearchPatterns, Like, LowerAll, IsBlank, Letters, Digits;
    assert CodeStandsAt(Decode(t), 0, code);
    KeysExact(t, code.Key());
    PatternsExact(code, LowerAll(t));
    forall i: nat ensures !WrittenAt(LowerAll(t), LowerAll(prefix), number, i) {
      GapNotWritten(prefix, gap, number, i);
    }
  }

  lemma GapDecodes(prefix: string, gap: string, number: string)
    requires Code(prefix, "-", number).Valid()
    requires gap != "" && forall i :: 0 <= i < |gap| ==> IsBlank(gap[i])
    ensures Decode(prefix + gap + number) == Code(prefix, "-", number).Text()
  {
    CodeCharacters(Code(prefix, "-", number));
    PercentIsPlain();
    assert CollapseBlanks("") == "";
    hide DecodeHyphens, CollapseBlanks, BlankRun, IsBlank, Letters, Digits, IsSep;
    NoPercentNoHyphen(prefix + gap + number);
    assert prefix + gap + number == prefix + (gap + number) && number + "" == number;
    CollapsePlain(prefix, gap + number);
    CollapseBlank(gap, number);
    CollapsePlain(number, "");
    assert prefix + ("-" + number) == prefix + "-" + number;
  }

  /** What a code written at `i` puts into single places of the text. */
  lemma WrittenPlaces(t: string, p: string, n: string, i: nat)
    requires WrittenAt(t, p, n, i) && p != "" && n != ""
    ensures i + |p| <= |t| && t[i + |p| - 1] == p[|p| - 1]
    ensures (i + |p| < |t| && t[i + |p|] == n[0]) || (i + |p| + 1 < |t| && t[i + |p| + 1] == n[0])
  {
    var u := t[i..];
    assert u[|p| - 1] == p[|p| - 1];
    if n <= u[|p|..] {
      assert u[|p|..][0] == n[0];
    } else {
      assert u[|p| + 1..][0] == n[0];
    }
  }

  lemma GapNotWritten(prefix: string, gap: string, number: string, i: nat)
    requires Code(prefix, "-", number).Valid()
    requires |gap| >= 2 && forall j :: 0 <= j < |gap| ==> IsBlank(gap[j])
    ensures !WrittenAt(LowerAll(prefix + gap + number), LowerAll(prefix), number, i)
  {
    var t, l := LowerAll(prefix + gap + number), |prefix|;
    GapCharacters(prefix, gap, number);
    assert IsLetter(LowerAll(prefix)[l - 1]) && IsDigit(number[0]);
    assert i > 0 && i + l <= |t| ==> !IsLetter(t[i + l - 1]);
    hide LowerAll, IsBlank;
    if WrittenAt(t, LowerAll(prefix), number, i) {
      WrittenPlaces(t, LowerAll(prefix), number, i);
    }
  }

  lemma GapCharacters(prefix: string, gap: string, number: string)
    requires Code(prefix, "-", number).Valid()
    requires |gap| >= 2 && forall j :: 0 <= j < |gap| ==> IsBlank(gap[j])
    ensures var t, l := LowerAll(prefix + gap + number), |prefix|;
            |t| == l + |gap| + |number| && !IsDigit(t[l]) && !IsDigit(t[l + 1])
            && forall j :: l <= j < |t| ==> !IsLetter(t[j])
  {
    var s, l := prefix + gap + number, |prefix|;
    assert s[l] == gap[0] && s[l + 1] == gap[1];
    forall j | l <= j < |s| ensures !IsLetter(Lower(s[j])) {
      assert s[j] == if j < l + |gap| then gap[j - l] else number[j - l - |gap|];
    }
  }
}
