/** exclusionPattern in preload/discovery.php: a Composer glob is rewritten, as text, into a
    regular expression. The expression is read back here the way PCRE reads it, and shown to
    match what the glob means. */
module Glob {
  import opened Basics
  import opened Paths

  const NUL: char := '\0'
  const SENTINEL: char := '\U{0001}'
  const NEWLINE: char := '\n'

  // ---- What a glob means

  /** `*` stands for any text without a slash, `**` for any text, stars paired from the left. */
  datatype Token = Lit(c: char) | Star | Any

  function Tokens(glob: string): seq<Token> {
    if glob == "" then []
    else if |glob| >= 2 && glob[0] == '*' && glob[1] == '*' then [Any] + Tokens(glob[2..])
    else if glob[0] == '*' then [Star] + Tokens(glob[1..])
    else [Lit(glob[0])] + Tokens(glob[1..])
  }

  ghost predicate Matches(glob: seq<Token>, text: string) {
    if glob == [] then text == ""
    else match glob[0]
      case Lit(c) => text != "" && text[0] == c && Matches(glob[1..], text[1..])
      case Star => exists k :: 0 <= k <= |text| && '/' !in text[..k] && Matches(glob[1..], text[k..])
      case Any => exists k :: 0 <= k <= |text| && Matches(glob[1..], text[k..])
  }

  // ---- The rewriting

  /** preg_quote with "~" as the delimiter. */
  predicate Special(c: char) {
    c in ".\\+*?[^]$(){}=!<>|:-#~"
  }

  function QuoteChar(c: char): string {
    if c == NUL then "\\000" else if Special(c) then ['\\', c] else [c]
  }

  function Quote(s: string): string {
    if s == "" then "" else QuoteChar(s[0]) + Quote(s[1..])
  }

  /** str_replace: occurrences from left to right, none overlapping. */
  function ReplaceAll(s: string, needle: string, with: string): string
    requires needle != ""
    decreases |s|
  {
    if |s| < |needle| then s
    else if s[..|needle|] == needle then with + ReplaceAll(s[|needle|..], needle, with)
    else [s[0]] + ReplaceAll(s[1..], needle, with)
  }

  /** ltrim(str_replace('\\', '/', pattern), '/') */
  function Normal(pattern: string): string {
    TrimLeft(ReplaceAll(pattern, "\\", "/"))
  }

  function TrimLeft(s: string): string {
    if s != "" && s[0] == '/' then TrimLeft(s[1..]) else s
  }

  const STARS := "\\*\\*"
  const STAR := "\\*"

  function Rewrite(glob: string): string {
    var quoted := Quote(glob);
    var once := ReplaceAll(quoted, STARS, [SENTINEL]);
    var twice := ReplaceAll(once, STAR, "[^/]*");
    ReplaceAll(twice, [SENTINEL], ".*")
  }

  function ExclusionPattern(pattern: string, base: string): string {
    "~^" + Quote(TrimRight(base) + "/") + Rewrite(Normal(pattern)) + ".*$~"
  }

  // ---- The rewriting, token by token

  /** What the code makes of a glob: the sentinel character is taken for a pair of stars. */
  function CodeTokens(glob: string): seq<Token> {
    if glob == "" then []
    else if |glob| >= 2 && glob[0] == '*' && glob[1] == '*' then [Any] + CodeTokens(glob[2..])
    else if glob[0] == '*' then [Star] + CodeTokens(glob[1..])
    else if glob[0] == SENTINEL then [Any] + CodeTokens(glob[1..])
    else [Lit(glob[0])] + CodeTokens(glob[1..])
  }

  /** The text of a token, with the two wildcards spelled as given. */
  function Spell(t: Token, star: string, any: string): string {
    match t
    case Lit(c) => QuoteChar(c)
    case Star => star
    case Any => any
  }

  function SpellAll(ts: seq<Token>, star: string, any: string): string {
    if ts == [] then "" else Spell(ts[0], star, any) + SpellAll(ts[1..], star, any)
  }

  /** The code translates exactly as it should if the glob is free of the sentinel. */
  lemma {:induction false} SentinelIsMistaken(glob: string)
    ensures |CodeTokens(glob)| == |Tokens(glob)|
    ensures CodeTokens(glob) == Tokens(glob) <==> SENTINEL !in glob
  {
    if glob == "" {
    } else {
      var n := if |glob| >= 2 && glob[0] == '*' && glob[1] == '*' then 2 else 1;
      SentinelIsMistaken(glob[n..]);
      assert glob == glob[..n] + glob[n..];
      assert Tokens(glob)[1..] == Tokens(glob[n..]) && CodeTokens(glob)[1..] == CodeTokens(glob[n..]);
      assert Tokens(glob) == [Tokens(glob)[0]] + Tokens(glob[n..]);
      assert CodeTokens(glob) == [CodeTokens(glob)[0]] + CodeTokens(glob[n..]);
    }
  }

  /** A character is copied if the needle differs from the text at some index. */
  lemma CopyOne(c: char, rest: string, needle: string, with: string, i: nat)
    requires i < |needle| && (i > |rest| || ([c] + rest)[i] != needle[i])
    ensures ReplaceAll([c] + rest, needle, with) == [c] + ReplaceAll(rest, needle, with)
  {
    var s := [c] + rest;
    assert s[1..] == rest;
    if |s| >= |needle| { assert s[..|needle|][i] == s[i]; }
  }

  lemma ReplaceHead(needle: string, rest: string, with: string)
    requires needle != ""
    ensures ReplaceAll(needle + rest, needle, with) == with + ReplaceAll(rest, needle, with)
  {
    assert (needle + rest)[..|needle|] == needle && (needle + rest)[|needle|..] == rest;
  }

  /** No needle of the rewriting begins inside a quoted character. */
  lemma CopyQuoted(c: char, rest: string, needle: string, with: string)
    requires c != '*' && c != '\\' && c != SENTINEL
    requires needle == STARS || needle == STAR || needle == [SENTINEL]
    ensures ReplaceAll(QuoteChar(c) + rest, needle, with) == QuoteChar(c) + ReplaceAll(rest, needle, with)
  {
    hide ReplaceAll, Special;
    if c == NUL {
      CopyOne('0', rest, needle, with, 0);
      CopyOne('0', "0" + rest, needle, with, 0);
      CopyOne('0', "00" + rest, needle, with, 0);
      assert "0" + ("0" + rest) == "00" + rest && "0" + ("00" + rest) == "000" + rest;
      CopyOne('\\', "000" + rest, needle, with, if needle == [SENTINEL] then 0 else 1);
      assert QuoteChar(c) + rest == "\\" + ("000" + rest);
    } else if Special(c) {
      CopyOne(c, rest, needle, with, 0);
      CopyOne('\\', [c] + rest, needle, with, if needle == [SENTINEL] then 0 else 1);
      assert QuoteChar(c) + rest == "\\" + ([c] + rest);
    } else {
      CopyOne(c, rest, needle, with, 0);
    }
  }

  /** The text does not start with an escaped star. */
  predicate NoStar(s: string) {
    |s| < 2 || s[0] != '\\' || s[1] != '*'
  }

  lemma NoStarAhead(glob: string)
    requires '\\' !in glob && (glob == "" || glob[0] != '*')
    ensures NoStar(Quote(glob))
  {
    if glob != "" {
      assert glob[0] in glob;
      assert Quote(glob)[0] == QuoteChar(glob[0])[0];
    }
  }

  lemma CopyStar(rest: string, with: string)
    requires NoStar(rest)
    ensures ReplaceAll(STAR + rest, STARS, with) == STAR + ReplaceAll(rest, STARS, with)
  {
    hide ReplaceAll;
    CopyOne('*', rest, STARS, with, 0);
    CopyOne('\\', "*" + rest, STARS, with, if rest == "" || rest[0] != '\\' then 2 else 3);
    assert STAR + rest == "\\" + ("*" + rest);
  }

  lemma QuotedStar()
    ensures QuoteChar('*') == STAR && QuoteChar(SENTINEL) == [SENTINEL]
  {}

  lemma QuotedPair(glob: string)
    requires |glob| >= 2 && glob[0] == '*' && glob[1] == '*'
    ensures Quote(glob) == STARS + Quote(glob[2..])
  {
    hide QuoteChar;
    QuotedStar();
    assert glob[1..][1..] == glob[2..];
    assert Quote(glob[1..]) == STAR + Quote(glob[2..]);
    assert STAR + (STAR + Quote(glob[2..])) == STARS + Quote(glob[2..]);
  }

  /** The first replacement: pairs of stars, and no others, become the sentinel. */
  lemma {:induction false} FirstPass(glob: string)
    requires '\\' !in glob
    ensures ReplaceAll(Quote(glob), STARS, [SENTINEL]) == SpellAll(CodeTokens(glob), STAR, [SENTINEL])
  {
    hide ReplaceAll, QuoteChar, Special, NoStar;
    QuotedStar();
    if glob == "" {
      ReplaceNone(STARS, [SENTINEL]);
    } else if |glob| >= 2 && glob[0] == '*' && glob[1] == '*' {
      FirstPass(glob[2..]);
      QuotedPair(glob);
      ReplaceHead(STARS, Quote(glob[2..]), [SENTINEL]);
    } else if glob[0] == '*' {
      FirstPass(glob[1..]);
      NoStarAhead(glob[1..]);
      CopyStar(Quote(glob[1..]), [SENTINEL]);
    } else {
      FirstPass(glob[1..]);
      if glob[0] == SENTINEL {
        CopyOne(SENTINEL, Quote(glob[1..]), STARS, [SENTINEL], 0);
      } else {
        CopyQuoted(glob[0], Quote(glob[1..]), STARS, [SENTINEL]);
      }
    }
  }

  lemma ReplaceNone(needle: string, with: string)
    requires needle != ""
    ensures ReplaceAll("", needle, with) == ""
  {}

  /** Tokens whose literals no replacement touches. */
  predicate Plain(ts: seq<Token>) {
    forall i :: 0 <= i < |ts| && ts[i].Lit? ==> ts[i].c != '*' && ts[i].c != '\\' && ts[i].c != SENTINEL
  }

  lemma {:induction false} CodeTokensPlain(glob: string)
    requires '\\' !in glob
    ensures Plain(CodeTokens(glob))
  {
    if glob == "" {
    } else {
      CodeTokensPlain(glob[1..]);
      if |glob| >= 2 { CodeTokensPlain(glob[2..]); }
    }
  }

  /** The second replacement: the stars that are left. */
  lemma {:induction false} SecondPass(ts: seq<Token>)
    requires Plain(ts)
    ensures ReplaceAll(SpellAll(ts, STAR, [SENTINEL]), STAR, "[^/]*") == SpellAll(ts, "[^/]*", [SENTINEL])
  {
    hide ReplaceAll;
    if ts == [] {
      ReplaceNone(STAR, "[^/]*");
    } else {
      SecondPass(ts[1..]);
      var rest := SpellAll(ts[1..], STAR, [SENTINEL]);
      match ts[0]
      case Lit(c) => CopyQuoted(c, rest, STAR, "[^/]*");
      case Star => ReplaceHead(STAR, rest, "[^/]*");
      case Any => CopyOne(SENTINEL, rest, STAR, "[^/]*", 0);
    }
  }

  lemma CopyClass(rest: string, with: string)
    ensures ReplaceAll("[^/]*" + rest, [SENTINEL], with) == "[^/]*" + ReplaceAll(rest, [SENTINEL], with)
  {
    hide ReplaceAll;
    CopyOne('*', rest, [SENTINEL], with, 0);
    CopyOne(']', "*" + rest, [SENTINEL], with, 0);
    assert "]" + ("*" + rest) == "]*" + rest;
    CopyOne('/', "]*" + rest, [SENTINEL], with, 0);
    assert "/" + ("]*" + rest) == "/]*" + rest;
    CopyOne('^', "/]*" + rest, [SENTINEL], with, 0);
    assert "^" + ("/]*" + rest) == "^/]*" + rest;
    CopyOne('[', "^/]*" + rest, [SENTINEL], with, 0);
    assert "[" + ("^/]*" + rest) == "[^/]*" + rest;
  }

  /** The third replacement: the sentinels. */
  lemma {:induction false} ThirdPass(ts: seq<Token>)
    requires Plain(ts)
    ensures ReplaceAll(SpellAll(ts, "[^/]*", [SENTINEL]), [SENTINEL], ".*") == SpellAll(ts, "[^/]*", ".*")
  {
    hide ReplaceAll;
    if ts == [] {
      ReplaceNone([SENTINEL], ".*");
    } else {
      ThirdPass(ts[1..]);
      var rest := SpellAll(ts[1..], "[^/]*", [SENTINEL]);
      match ts[0]
      case Lit(c) => CopyQuoted(c, rest, [SENTINEL], ".*");
      case Star => CopyClass(rest, ".*");
      case Any => ReplaceHead([SENTINEL], rest, ".*");
    }
  }

  /** Three replacements on escaped text amount to a translation token by token, for every run of
      stars. */
  lemma {:induction false} RewriteIsTokenwise(glob: string)
    requires '\\' !in glob
    ensures Rewrite(glob) == SpellAll(CodeTokens(glob), "[^/]*", ".*")
  {
    FirstPass(glob);
    CodeTokensPlain(glob);
    SecondPass(CodeTokens(glob));
    ThirdPass(CodeTokens(glob));
  }

  // ---- Reading the expression back

  predicate Alphanumeric(c: char) {
    '0' <= c <= '9' || 'A' <= c <= 'Z' || 'a' <= c <= 'z'
  }

  /** PCRE's reading of the part between the anchors: escapes, the two wildcards and ordinary
      characters; anything else is not in the fragment, and a bare delimiter would end it early. */
  function ParseRegex(s: string): Option<seq<Token>>
    decreases |s|
  {
    if s == "" then Some([])
    else if |s| >= 4 && s[..4] == "\\000" then Prepend(Lit(NUL), ParseRegex(s[4..]))
    else if |s| >= 2 && s[0] == '\\' && !Alphanumeric(s[1]) then Prepend(Lit(s[1]), ParseRegex(s[2..]))
    else if |s| >= 5 && s[..5] == "[^/]*" then Prepend(Star, ParseRegex(s[5..]))
    else if |s| >= 2 && s[..2] == ".*" then Prepend(Any, ParseRegex(s[2..]))
    else if s[0] in "\\^$.[|()?*+{~" then None
    else Prepend(Lit(s[0]), ParseRegex(s[1..]))
  }

  function Prepend(t: Token, ts: Option<seq<Token>>): Option<seq<Token>> {
    if ts.None? then None else Some([t] + ts.value)
  }

  lemma ParseQuoted(c: char, rest: string)
    ensures ParseRegex(QuoteChar(c) + rest) == Prepend(Lit(c), ParseRegex(rest))
  {
    var s := QuoteChar(c) + rest;
    if c == NUL {
      assert s[..4] == "\\000" && s[4..] == rest;
    } else if Special(c) {
      assert s[0] == '\\' && s[1] == c && s[2..] == rest;
      assert |s| >= 4 ==> s[..4][1] == c;
    } else {
      assert s[0] == c && s[1..] == rest;
      assert |s| >= 4 ==> s[..4][0] == c;
      assert |s| >= 5 ==> s[..5][0] == c;
      assert |s| >= 2 ==> s[..2][0] == c;
    }
  }

  lemma ParseToken(t: Token, rest: string)
    ensures ParseRegex(Spell(t, "[^/]*", ".*") + rest) == Prepend(t, ParseRegex(rest))
  {
    var s := Spell(t, "[^/]*", ".*") + rest;
    match t
    case Lit(c) => ParseQuoted(c, rest);
    case Star =>
      assert s[..5] == "[^/]*" && s[5..] == rest;
      assert s[..4][0] == '[';
      assert s[..2][0] == '[';
    case Any =>
      assert s[..2] == ".*" && s[2..] == rest;
      assert |s| >= 4 ==> s[..4][0] == '.';
      assert |s| >= 5 ==> s[..5][0] == '.';
  }

  lemma {:induction false} ParseTokens(ts: seq<Token>, rest: string)
    requires ParseRegex(rest).Some?
    ensures ParseRegex(SpellAll(ts, "[^/]*", ".*") + rest) == Some(ts + ParseRegex(rest).value)
  {
    hide ParseRegex;
    if ts == [] {
      assert SpellAll(ts, "[^/]*", ".*") + rest == rest;
      assert ts + ParseRegex(rest).value == ParseRegex(rest).value;
    } else {
      ParseTokens(ts[1..], rest);
      ParseToken(ts[0], SpellAll(ts[1..], "[^/]*", ".*") + rest);
      assert SpellAll(ts, "[^/]*", ".*") + rest == Spell(ts[0], "[^/]*", ".*") + (SpellAll(ts[1..], "[^/]*", ".*") + rest);
      assert [ts[0]] + (ts[1..] + ParseRegex(rest).value) == ts + ParseRegex(rest).value;
    }
  }

  function Lits(s: string): seq<Token> {
    if s == "" then [] else [Lit(s[0])] + Lits(s[1..])
  }

  lemma {:induction false} QuoteSpells(s: string)
    ensures Quote(s) == SpellAll(Lits(s), "[^/]*", ".*")
  {
    if s == "" {
    } else {
      QuoteSpells(s[1..]);
    }
  }

  /** What stands between the delimiters and anchors of a pattern; None if they are missing. */
  function Anchored(pattern: string): Option<string> {
    var n := |pattern|;
    if n >= 4 && pattern[..2] == "~^" && pattern[n - 2..] == "$~" then Some(pattern[2..n - 2]) else None
  }

  function Compiled(pattern: string): Option<seq<Token>> {
    var inner := Anchored(pattern);
    if inner.None? then None else ParseRegex(inner.value)
  }

  function Prefix(base: string): string { TrimRight(base) + "/" }

  lemma {:induction false} NoBackslash(s: string)
    ensures '\\' !in ReplaceAll(s, "\\", "/")
  {
    if s == "" {
    } else {
      NoBackslash(s[1..]);
    }
  }

  lemma {:induction false} TrimKeeps(s: string, c: char)
    requires c !in s
    ensures c !in TrimLeft(s)
  {
    if s == "" {
    } else {
      TrimKeeps(s[1..], c);
    }
  }

  lemma {:induction false} SlashesOnly(s: string, c: char)
    requires c !in s && c != '/'
    ensures c !in ReplaceAll(s, "\\", "/")
  {
    if s == "" {
    } else {
      SlashesOnly(s[1..], c);
    }
  }

  lemma NormalAddsOnlySlashes(pattern: string, c: char)
    requires c !in pattern && c != '/'
    ensures c !in Normal(pattern)
  {
    SlashesOnly(pattern, c);
    TrimKeeps(ReplaceAll(pattern, "\\", "/"), c);
  }

  lemma NormalHasNoBackslash(pattern: string)
    ensures '\\' !in Normal(pattern)
  {
    NoBackslash(pattern);
    TrimKeeps(ReplaceAll(pattern, "\\", "/"), '\\');
  }

  lemma Anchoring(first: string, second: string)
    ensures Anchored("~^" + first + second + ".*$~") == Some(first + (second + ".*"))
  {
    var inner := first + (second + ".*");
    var whole := "~^" + first + second + ".*$~";
    assert whole == "~^" + inner + "$~";
    assert whole[2..|whole| - 2] == inner;
  }

  /** The compiled expression is the base directory literally, the glob, and any rest. */
  lemma {:induction false} ExclusionCompiles(pattern: string, base: string)
    ensures Compiled(ExclusionPattern(pattern, base)) == Some(Lits(Prefix(base)) + CodeTokens(Normal(pattern)) + [Any])
  {
    hide ParseRegex, CodeTokens, Lits, Normal, Anchored, Rewrite, Quote, SpellAll;
    var lits, glob := Lits(Prefix(base)), CodeTokens(Normal(pattern));
    var whole := ExclusionPattern(pattern, base);
    NormalHasNoBackslash(pattern);
    RewriteIsTokenwise(Normal(pattern));
    QuoteSpells(Prefix(base));
    var first, second := SpellAll(lits, "[^/]*", ".*"), SpellAll(glob, "[^/]*", ".*");
    Anchoring(first, second);
    ParseSuffix();
    ParseTokens(glob, ".*");
    ParseTokens(lits, second + ".*");
    assert lits + (glob + [Any]) == lits + glob + [Any];
  }

  lemma ParseSuffix()
    ensures ParseRegex(".*") == Some([Any])
  {
    ParseToken(Any, "");
    assert ParseRegex("") == Some([]);
    assert Spell(Any, "[^/]*", ".*") + "" == ".*";
    var none: seq<Token> := [];
    assert [Any] + none == [Any];
  }

  // ---- Matching

  /** PCRE without modifiers: a dot takes anything but a newline, and the final "$" also matches
      before a newline at the very end. */
  predicate Accepts(ts: seq<Token>, s: string)
    decreases |ts| + |s|
  {
    if ts == [] then s == "" || s == [NEWLINE]
    else match ts[0]
      case Lit(c) => s != "" && s[0] == c && Accepts(ts[1..], s[1..])
      case Star => Accepts(ts[1..], s) || (s != "" && s[0] != '/' && Accepts(ts, s[1..]))
      case Any => Accepts(ts[1..], s) || (s != "" && s[0] != NEWLINE && Accepts(ts, s[1..]))
  }

  /** preg_match(exclusionPattern($pattern, $base), $path) === 1 */
  predicate Excludes(pattern: string, base: string, path: string) {
    var compiled := Compiled(ExclusionPattern(pattern, base));
    compiled.Some? && Accepts(compiled.value, path)
  }

  /** The character a wildcard stops at. */
  function Stop(t: Token): char
    requires !t.Lit?
  {
    if t.Star? then '/' else NEWLINE
  }

  /** The same language without a matcher: each wildcard takes a piece of the text. */
  ghost predicate Fits(ts: seq<Token>, text: string) {
    if ts == [] then text == ""
    else if ts[0].Lit? then text != "" && text[0] == ts[0].c && Fits(ts[1..], text[1..])
    else exists k :: 0 <= k <= |text| && Stop(ts[0]) !in text[..k] && Fits(ts[1..], text[k..])
  }

  ghost predicate Takes(ts: seq<Token>, text: string, k: nat)
    requires ts != [] && !ts[0].Lit?
  {
    k <= |text| && Stop(ts[0]) !in text[..k] && Fits(ts[1..], text[k..])
  }

  lemma FitsTakes(ts: seq<Token>, text: string)
    requires ts != [] && !ts[0].Lit?
    ensures Fits(ts, text) <==> exists k: nat :: Takes(ts, text, k)
  {
    if Fits(ts, text) {
      var k :| 0 <= k <= |text| && Stop(ts[0]) !in text[..k] && Fits(ts[1..], text[k..]);
      assert Takes(ts, text, k);
    }
    if k: nat :| Takes(ts, text, k) {
      assert 0 <= k <= |text| && Stop(ts[0]) !in text[..k] && Fits(ts[1..], text[k..]);
    }
  }

  lemma TakesOneMore(ts: seq<Token>, text: string, k: nat)
    requires ts != [] && !ts[0].Lit? && text != ""
    ensures Takes(ts, text, k + 1) <==> text[0] != Stop(ts[0]) && Takes(ts, text[1..], k)
  {
    hide Fits;
    if k + 1 <= |text| {
      assert text[..k + 1] == [text[0]] + text[1..][..k];
      assert text[1..][k..] == text[k + 1..];
    }
  }

  lemma WildcardStep(ts: seq<Token>, text: string)
    requires ts != [] && !ts[0].Lit?
    ensures Fits(ts, text) <==>
      Fits(ts[1..], text) || (text != "" && text[0] != Stop(ts[0]) && Fits(ts, text[1..]))
  {
    hide Fits;
    FitsTakes(ts, text);
    assert text[0..] == text && text[..0] == "";
    assert Takes(ts, text, 0) <==> Fits(ts[1..], text);
    if text != "" { FitsTakes(ts, text[1..]); }
    if Fits(ts, text) {
      var k: nat :| Takes(ts, text, k);
      if k > 0 { TakesOneMore(ts, text, k - 1); }
    }
    if text != "" && text[0] != Stop(ts[0]) && Fits(ts, text[1..]) {
      var k: nat :| Takes(ts, text[1..], k);
      TakesOneMore(ts, text, k);
    }
  }

  ghost predicate EndsLine(s: string) { s != "" && s[|s| - 1] == NEWLINE }

  /** The text fits, as a whole or up to a newline at its very end. */
  ghost predicate FitsLine(ts: seq<Token>, s: string) {
    Fits(ts, s) || (EndsLine(s) && Fits(ts, s[..|s| - 1]))
  }

  lemma LitLine(ts: seq<Token>, s: string)
    requires ts != [] && ts[0].Lit?
    ensures FitsLine(ts, s) <==> s != "" && s[0] == ts[0].c && FitsLine(ts[1..], s[1..])
  {
    if |s| >= 2 { assert s[..|s| - 1][1..] == s[1..][..|s| - 2]; }
  }

  lemma WildcardLine(ts: seq<Token>, s: string)
    requires ts != [] && !ts[0].Lit?
    ensures FitsLine(ts, s) <==>
      FitsLine(ts[1..], s) || (s != "" && s[0] != Stop(ts[0]) && FitsLine(ts, s[1..]))
  {
    hide Fits;
    WildcardStep(ts, s);
    if s != "" {
      WildcardStep(ts, s[..|s| - 1]);
      if |s| >= 2 { assert s[..|s| - 1][1..] == s[1..][..|s| - 2]; }
      if |s| == 1 { assert s[..0] == "" == s[1..]; }
    }
  }

  /** The matcher accepts exactly what fits. */
  lemma {:induction false} AcceptsIsFits(ts: seq<Token>, s: string)
    ensures Accepts(ts, s) <==> FitsLine(ts, s)
    decreases |ts| + |s|
  {
    hide Fits, FitsLine;
    if ts == [] {
      FitsNothing(s);
    } else if ts[0].Lit? {
      LitLine(ts, s);
      if s != "" { AcceptsIsFits(ts[1..], s[1..]); }
    } else {
      WildcardLine(ts, s);
      AcceptsIsFits(ts[1..], s);
      if s != "" { AcceptsIsFits(ts, s[1..]); }
    }
  }

  lemma FitsNothing(s: string)
    ensures FitsLine([], s) <==> s == "" || s == [NEWLINE]
  {}

  /** A concatenation fits what can be cut in two. */
  lemma {:induction false} FitsJoin(a: seq<Token>, b: seq<Token>, text: string)
    ensures Fits(a + b, text) <==> exists k :: 0 <= k <= |text| && Fits(a, text[..k]) && Fits(b, text[k..])
    decreases |a| + |text|
  {
    hide Fits;
    if a == [] {
      assert a + b == b;
      FitsEmpty(b, text);
    } else {
      assert (a + b)[1..] == a[1..] + b && (a + b)[0] == a[0];
      if a[0].Lit? {
        if text != "" { FitsJoin(a[1..], b, text[1..]); }
        JoinLit(a, b, text);
      } else {
        WildcardStep(a + b, text);
        FitsJoin(a[1..], b, text);
        if text != "" { FitsJoin(a, b, text[1..]); }
        JoinWildcard(a, b, text);
      }
    }
  }

  ghost predicate Cut(a: seq<Token>, b: seq<Token>, text: string) {
    exists k :: 0 <= k <= |text| && Fits(a, text[..k]) && Fits(b, text[k..])
  }

  lemma FitsEmpty(b: seq<Token>, text: string)
    ensures Cut([], b, text) <==> Fits(b, text)
  {
    assert text[..0] == "" && text[0..] == text;
  }

  lemma JoinLit(a: seq<Token>, b: seq<Token>, text: string)
    requires a != [] && a[0].Lit?
    ensures Cut(a, b, text) <==> text != "" && text[0] == a[0].c && Cut(a[1..], b, text[1..])
    ensures Fits(a + b, text) <==> text != "" && text[0] == a[0].c && Fits(a[1..] + b, text[1..])
  {
    assert (a + b)[1..] == a[1..] + b && (a + b)[0] == a[0];
    if Cut(a, b, text) {
      var k :| 0 <= k <= |text| && Fits(a, text[..k]) && Fits(b, text[k..]);
      assert text[..k][1..] == text[1..][..k - 1] && text[1..][k - 1..] == text[k..];
    }
    if text != "" && text[0] == a[0].c && Cut(a[1..], b, text[1..]) {
      var k :| 0 <= k <= |text[1..]| && Fits(a[1..], text[1..][..k]) && Fits(b, text[1..][k..]);
      assert text[..k + 1][1..] == text[1..][..k] && text[1..][k..] == text[k + 1..];
    }
  }

  lemma JoinWildcard(a: seq<Token>, b: seq<Token>, text: string)
    requires a != [] && !a[0].Lit?
    ensures Cut(a, b, text) <==>
      Cut(a[1..], b, text) || (text != "" && text[0] != Stop(a[0]) && Cut(a, b, text[1..]))
  {
    hide Fits;
    if Cut(a, b, text) {
      var k :| 0 <= k <= |text| && Fits(a, text[..k]) && Fits(b, text[k..]);
      WildcardStep(a, text[..k]);
      if k > 0 { assert text[..k][1..] == text[1..][..k - 1] && text[1..][k - 1..] == text[k..]; }
    }
    if Cut(a[1..], b, text) {
      var k :| 0 <= k <= |text| && Fits(a[1..], text[..k]) && Fits(b, text[k..]);
      WildcardStep(a, text[..k]);
    }
    if text != "" && text[0] != Stop(a[0]) && Cut(a, b, text[1..]) {
      var k :| 0 <= k <= |text[1..]| && Fits(a, text[1..][..k]) && Fits(b, text[1..][k..]);
      WildcardStep(a, text[..k + 1]);
      assert text[..k + 1][1..] == text[1..][..k] && text[1..][k..] == text[k + 1..];
    }
  }

  lemma {:induction false} FitsLits(word: string, text: string)
    ensures Fits(Lits(word), text) <==> text == word
  {
    if word == "" || text == "" {
    } else {
      FitsLits(word[1..], text[1..]);
      assert text == [text[0]] + text[1..] && word == [word[0]] + word[1..];
    }
  }

  lemma FitsRest(text: string)
    ensures Fits([Any], text) <==> NEWLINE !in text
  {
    if NEWLINE !in text { assert text[..|text|] == text && text[|text|..] == ""; }
    if Fits([Any], text) {
      var k :| 0 <= k <= |text| && NEWLINE !in text[..k] && Fits([Any][1..], text[k..]);
      assert text[..k] == text;
    }
  }

  /** Below the base directory the text starts with a piece that fits the glob, and the rest stays
      on one line. */
  ghost predicate Covered(glob: seq<Token>, base: string, text: string) {
    && Prefix(base) <= text
    && exists k :: |Prefix(base)| <= k <= |text| && Fits(glob, text[|Prefix(base)|..k]) && NEWLINE !in text[k..]
  }

  lemma CoveredIsFits(glob: seq<Token>, base: string, text: string)
    ensures Fits(Lits(Prefix(base)) + glob + [Any], text) <==> Covered(glob, base, text)
  {
    hide Fits, Lits;
    var lits, b := Lits(Prefix(base)), |Prefix(base)|;
    FitsJoin(lits + glob, [Any], text);
    if Fits(lits + glob + [Any], text) {
      var k :| 0 <= k <= |text| && Fits(lits + glob, text[..k]) && Fits([Any], text[k..]);
      FitsRest(text[k..]);
      FitsJoin(lits, glob, text[..k]);
      var j :| 0 <= j <= k && Fits(lits, text[..k][..j]) && Fits(glob, text[..k][j..]);
      FitsLits(Prefix(base), text[..k][..j]);
      assert j == b && text[..k][j..] == text[b..k];
    }
    if Covered(glob, base, text) {
      var k :| b <= k <= |text| && Fits(glob, text[b..k]) && NEWLINE !in text[k..];
      FitsRest(text[k..]);
      FitsLits(Prefix(base), text[..k][..b]);
      assert text[..k][..b] == Prefix(base) && text[..k][b..] == text[b..k];
      FitsJoin(lits, glob, text[..k]);
    }
  }

  /** What an exclusion pattern matches, for every pattern, base and path. */
  lemma {:induction false} ExclusionExact(pattern: string, base: string, path: string)
    ensures var glob := CodeTokens(Normal(pattern));
      Excludes(pattern, base, path) <==>
        Covered(glob, base, path) || (EndsLine(path) && Covered(glob, base, path[..|path| - 1]))
  {
    hide Accepts, Fits, Covered, CodeTokens, Normal, Lits, Compiled, ExclusionPattern;
    ExclusionCompiles(pattern, base);
    var glob := CodeTokens(Normal(pattern));
    AcceptsIsFits(Lits(Prefix(base)) + glob + [Any], path);
    CoveredIsFits(glob, base, path);
    if path != "" { CoveredIsFits(glob, base, path[..|path| - 1]); }
  }

  /** On one line there is no difference between the two meanings of "**". */
  lemma {:induction false} FitsIsMatches(glob: seq<Token>, text: string)
    requires NEWLINE !in text
    ensures Fits(glob, text) <==> Matches(glob, text)
  {
    if glob == [] {
    } else {
      match glob[0]
      case Lit(_) => if text != "" { FitsIsMatches(glob[1..], text[1..]); }
      case _ =>
        forall k | 0 <= k <= |text| ensures Fits(glob[1..], text[k..]) <==> Matches(glob[1..], text[k..]) {
          FitsIsMatches(glob[1..], text[k..]);
        }
    }
  }

  /** How a pattern is to be read: its leading slashes of either kind do not count, and every
      backslash is a slash. */
  ghost predicate Reads(pattern: string, glob: string) {
    exists n: nat :: ReadsFrom(pattern, glob, n)
  }

  ghost predicate ReadsFrom(pattern: string, glob: string, n: nat) {
    && n + |glob| == |pattern|
    && (forall i :: 0 <= i < n ==> pattern[i] == '/' || pattern[i] == '\\')
    && (n < |pattern| ==> pattern[n] != '/' && pattern[n] != '\\')
    && (forall i :: 0 <= i < |glob| ==> glob[i] == if pattern[n + i] == '\\' then '/' else pattern[n + i])
  }

  lemma {:induction false} SlashesAre(s: string)
    ensures var r := ReplaceAll(s, "\\", "/");
      |r| == |s| && forall i :: 0 <= i < |s| ==> r[i] == if s[i] == '\\' then '/' else s[i]
  {
    if s == "" {
    } else {
      SlashesAre(s[1..]);
      assert s[..1] == [s[0]];
      assert forall i :: 0 < i < |s| ==> s[i] == s[1..][i - 1];
    }
  }

  lemma {:induction false} TrimLeftIs(s: string) returns (n: nat)
    ensures n <= |s| && TrimLeft(s) == s[n..]
    ensures forall i :: 0 <= i < n ==> s[i] == '/'
    ensures n < |s| ==> s[n] != '/'
  {
    if s == "" || s[0] != '/' {
      n := 0;
      assert s[0..] == s;
    } else {
      var m := TrimLeftIs(s[1..]);
      n := m + 1;
      assert s[1..][m..] == s[n..];
      assert forall i :: 0 < i < |s| ==> s[i] == s[1..][i - 1];
    }
  }

  lemma NormalReads(pattern: string, glob: string)
    ensures Reads(pattern, glob) <==> glob == Normal(pattern)
  {
    hide ReplaceAll, TrimLeft;
    SlashesAre(pattern);
    var n := TrimLeftIs(ReplaceAll(pattern, "\\", "/"));
    assert ReadsFrom(pattern, Normal(pattern), n);
    if m: nat :| ReadsFrom(pattern, glob, m) {
      assert m == n;
      assert glob == Normal(pattern);
    }
  }

  /** What the documentation promises: below the base directory the path begins with a match of the
      glob. */
  ghost predicate Meant(pattern: string, base: string, path: string) {
    && Prefix(base) <= path
    && exists glob, k :: Reads(pattern, glob) && |Prefix(base)| <= k <= |path| && Matches(Tokens(glob), path[|Prefix(base)|..k])
  }

  lemma MeantIs(pattern: string, base: string, path: string)
    ensures Meant(pattern, base, path) <==>
      && Prefix(base) <= path
      && exists k :: |Prefix(base)| <= k <= |path| && Matches(Tokens(Normal(pattern)), path[|Prefix(base)|..k])
  {
    hide Reads, Normal, Matches, Tokens, Prefix;
    forall glob ensures Reads(pattern, glob) <==> glob == Normal(pattern) { NormalReads(pattern, glob); }
    if Prefix(base) <= path && exists k :: |Prefix(base)| <= k <= |path| && Matches(Tokens(Normal(pattern)), path[|Prefix(base)|..k]) {
      assert Reads(pattern, Normal(pattern));
    }
  }

  /** A slash of either kind in front of a pattern makes no difference, nor does the kind of one inside. */
  lemma {:induction false} SlashesAreAlike(pattern: string, rest: string, base: string, path: string)
    ensures Excludes("/" + pattern, base, path) <==> Excludes(pattern, base, path)
    ensures Excludes("\\" + pattern, base, path) <==> Excludes(pattern, base, path)
    ensures Excludes(pattern + "\\" + rest, base, path) <==> Excludes(pattern + "/" + rest, base, path)
  {
    hide Accepts, Compiled, Rewrite, Normal;
    SameReading("/" + pattern, pattern);
    SameReading("\\" + pattern, pattern);
    SameReading(pattern + "\\" + rest, pattern + "/" + rest);
  }

  lemma SameReading(a: string, b: string)
    requires a == "/" + b || a == "\\" + b ||
      (|a| == |b| && forall i :: 0 <= i < |a| ==> a[i] == b[i] || (a[i] == '\\' && b[i] == '/'))
    ensures Normal(a) == Normal(b)
  {
    hide ReplaceAll;
    var s, t := ReplaceAll(a, "\\", "/"), ReplaceAll(b, "\\", "/");
    SlashesAre(a);
    SlashesAre(b);
    if |a| == |b| {
      assert s == t;
    } else {
      assert s[1..] == t by { assert forall i :: 0 <= i < |b| ==> a[i + 1] == b[i]; }
      assert s[0] == '/';
    }
  }

  /** A pattern excludes a path exactly if that is meant: for patterns without the sentinel and paths
      without a newline. */
  lemma {:induction false} ExclusionMeaning(pattern: string, base: string, path: string)
    requires SENTINEL !in pattern && NEWLINE !in path
    ensures Excludes(pattern, base, path) <==> Meant(pattern, base, path)
  {
    hide Reads, Fits, Matches, Excludes, CodeTokens, Tokens, Normal;
    MeantIs(pattern, base, path);
    var glob, b := Tokens(Normal(pattern)), |Prefix(base)|;
    NormalAddsOnlySlashes(pattern, SENTINEL);
    SentinelIsMistaken(Normal(pattern));
    ExclusionExact(pattern, base, path);
    if Prefix(base) <= path {
      forall k | b <= k <= |path| ensures Fits(glob, path[b..k]) <==> Matches(glob, path[b..k]) {
        FitsIsMatches(glob, path[b..k]);
      }
    }
  }

  // ---- Both conditions are needed: the sentinel

  /** Normalising keeps every other character. */
  lemma NormalKeeps(pattern: string, c: char)
    requires c in pattern && c != '/' && c != '\\'
    ensures c in Normal(pattern)
  {
    SlashesKeep(pattern, c);
    TrimLeftKeeps(ReplaceAll(pattern, "\\", "/"), c);
  }

  lemma {:induction false} SlashesKeep(s: string, c: char)
    requires c in s && c != '\\'
    ensures c in ReplaceAll(s, "\\", "/")
  {
    if c == s[0] {
      assert s[..1][0] == c;
    } else {
      SlashesKeep(s[1..], c);
    }
  }

  lemma {:induction false} TrimLeftKeeps(s: string, c: char)
    requires c in s && c != '/'
    ensures c in TrimLeft(s)
  {
    if s[0] != '/' {
    } else {
      TrimLeftKeeps(s[1..], c);
    }
  }

  /** Every character that is no wildcard is asked for by a token, and no other is. */
  lemma {:induction false} Asked(glob: string, c: char)
    ensures c in glob && c != '*' ==> Lit(c) in Tokens(glob)
    ensures c in glob && c != '*' && c != SENTINEL ==> Lit(c) in CodeTokens(glob)
    ensures Lit(c) in CodeTokens(glob) ==> c in glob && c != SENTINEL
  {
    if glob == "" {
    } else {
      var n := if |glob| >= 2 && glob[0] == '*' && glob[1] == '*' then 2 else 1;
      Asked(glob[n..], c);
      assert glob == glob[..n] + glob[n..];
      assert CodeTokens(glob) == [CodeTokens(glob)[0]] + CodeTokens(glob[n..]);
      assert Tokens(glob) == [Tokens(glob)[0]] + Tokens(glob[n..]);
    }
  }

  lemma {:induction false} MatchesAsks(ts: seq<Token>, text: string, c: char)
    requires Lit(c) in ts && Matches(ts, text)
    ensures c in text
  {
    match ts[0]
    case Lit(d) => if d != c { MatchesAsks(ts[1..], text[1..], c); }
    case Star =>
      var k :| 0 <= k <= |text| && '/' !in text[..k] && Matches(ts[1..], text[k..]);
      MatchesAsks(ts[1..], text[k..], c);
    case Any =>
      var k :| 0 <= k <= |text| && Matches(ts[1..], text[k..]);
      MatchesAsks(ts[1..], text[k..], c);
  }

  lemma {:induction false} FitsAsks(ts: seq<Token>, text: string, c: char)
    requires Lit(c) in ts && Fits(ts, text)
    ensures c in text
  {
    if ts[0].Lit? {
      if ts[0].c != c { FitsAsks(ts[1..], text[1..], c); }
    } else {
      var k :| 0 <= k <= |text| && Stop(ts[0]) !in text[..k] && Fits(ts[1..], text[k..]);
      FitsAsks(ts[1..], text[k..], c);
    }
  }

  /** The text of the tokens with every wildcard taken for nothing. */
  function Shortest(ts: seq<Token>): string {
    if ts == [] then ""
    else if ts[0].Lit? then [ts[0].c] + Shortest(ts[1..])
    else Shortest(ts[1..])
  }

  lemma {:induction false} ShortestFits(ts: seq<Token>)
    ensures Fits(ts, Shortest(ts)) && Matches(ts, Shortest(ts))
    ensures forall c :: c in Shortest(ts) ==> Lit(c) in ts
  {
    if ts == [] {
    } else {
      var text, rest := Shortest(ts), Shortest(ts[1..]);
      ShortestFits(ts[1..]);
      if ts[0].Lit? {
        assert text[1..] == rest;
      } else {
        assert text[..0] == "" && text[0..] == rest;
      }
    }
  }

  /** A pattern with the sentinel excludes a path it does not mean. */
  lemma SentinelExcludes(pattern: string, base: string)
    requires SENTINEL in pattern && NEWLINE !in pattern && NEWLINE !in base
    ensures exists path :: NEWLINE !in path && Excludes(pattern, base, path) && !Meant(pattern, base, path)
  {
    hide Reads, Excludes, Fits, Matches, Normal, Tokens, CodeTokens, Prefix;
    var glob := Normal(pattern);
    var ts := CodeTokens(glob);
    var text, b := Shortest(ts), |Prefix(base)|;
    var path := Prefix(base) + text;
    MeantIs(pattern, base, path);
    ShortestFits(ts);
    NormalAddsOnlySlashes(pattern, NEWLINE);
    Asked(glob, NEWLINE);
    PrefixAddsOnlySlashes(base, NEWLINE);
    assert path[b..|path|] == text && path[|path|..] == "";
    ExclusionExact(pattern, base, path);
    NormalKeeps(pattern, SENTINEL);
    Asked(glob, SENTINEL);
    forall k | b <= k <= |path| ensures !Matches(Tokens(glob), path[b..k]) {
      assert path[b..k] == text[..k - b];
      if Matches(Tokens(glob), path[b..k]) { MatchesAsks(Tokens(glob), path[b..k], SENTINEL); }
    }
  }

  lemma {:induction false} TrimRightKeeps(s: string, c: char)
    requires c != '/'
    ensures c in TrimRight(s) <==> c in s
  {
    if s == "" || s[|s| - 1] != '/' {
    } else {
      TrimRightKeeps(s[..|s| - 1], c);
      assert s == s[..|s| - 1] + "/";
    }
  }

  lemma PrefixAddsOnlySlashes(base: string, c: char)
    requires c != '/'
    ensures c in Prefix(base) <==> c in base
  {
    TrimRightKeeps(base, c);
  }

  lemma PrefixHolds(prefix: string, s: string, c: char)
    requires c in prefix && c !in s
    ensures !(prefix <= s)
  {
    var i :| 0 <= i < |prefix| && prefix[i] == c;
    assert i < |s| ==> s[i] != c;
  }

  /** A newline in the pattern or the base is asked for by both, and no other path has one. */
  lemma NewlineAsked(pattern: string, base: string, path: string)
    requires (NEWLINE in pattern || NEWLINE in base) && NEWLINE !in path
    ensures !Excludes(pattern, base, path) && !Meant(pattern, base, path)
  {
    hide Reads, Excludes, Fits, Matches, Normal, Tokens, CodeTokens, Prefix;
    var glob, b := Normal(pattern), |Prefix(base)|;
    MeantIs(pattern, base, path);
    ExclusionExact(pattern, base, path);
    PrefixAddsOnlySlashes(base, NEWLINE);
    if NEWLINE in base {
      PrefixHolds(Prefix(base), path, NEWLINE);
    } else {
      NormalKeeps(pattern, NEWLINE);
      Asked(glob, NEWLINE);
      forall k | b <= k <= |path| ensures !Matches(Tokens(glob), path[b..k]) && !Fits(CodeTokens(glob), path[b..k]) {
        if Matches(Tokens(glob), path[b..k]) { MatchesAsks(Tokens(glob), path[b..k], NEWLINE); }
        if Fits(CodeTokens(glob), path[b..k]) { FitsAsks(CodeTokens(glob), path[b..k], NEWLINE); }
      }
    }
  }

  /** Over all paths on one line a pattern excludes what it means exactly if it is free of the
      sentinel; or it excludes, and means, nothing, because it or its base holds a newline. */
  lemma {:induction false} MeaningExactly(pattern: string, base: string)
    ensures (forall path :: NEWLINE !in path ==> (Excludes(pattern, base, path) <==> Meant(pattern, base, path))) <==>
      SENTINEL !in pattern || NEWLINE in pattern || NEWLINE in base
  {
    hide Excludes, Meant;
    if SENTINEL !in pattern {
      forall path | NEWLINE !in path ensures Excludes(pattern, base, path) <==> Meant(pattern, base, path) {
        ExclusionMeaning(pattern, base, path);
      }
    } else if NEWLINE in pattern || NEWLINE in base {
      forall path | NEWLINE !in path ensures Excludes(pattern, base, path) <==> Meant(pattern, base, path) {
        NewlineAsked(pattern, base, path);
      }
    } else {
      SentinelExcludes(pattern, base);
    }
  }

  // ---- Both conditions are needed: the newline

  /** How often a newline stands before a slash. */
  function Breaks(s: string): nat {
    if |s| < 2 then 0 else (if s[0] == NEWLINE && s[1] == '/' then 1 else 0) + Breaks(s[1..])
  }

  lemma {:induction false} BreaksSplit(s: string, k: nat)
    requires k <= |s|
    ensures Breaks(s[k..]) <= Breaks(s) <= Breaks(s[..k]) + 1 + Breaks(s[k..])
  {
    if k == 0 {
      assert s[0..] == s;
    } else if |s| < 2 {
    } else {
      BreaksSplit(s[1..], k - 1);
      assert s[1..][k - 1..] == s[k..] && s[1..][..k - 1] == s[..k][1..];
      if k == 1 {
        assert s[..1][1..] == "";
      } else {
        assert s[..k][0] == s[0] && s[..k][1] == s[1];
      }
    }
  }

  lemma {:induction false} NoBreaks(s: string)
    requires NEWLINE !in s || '/' !in s
    ensures Breaks(s) == 0
  {
    if |s| < 2 {
    } else {
      NoBreaks(s[1..]);
    }
  }

  /** A star stops at the slash, and nothing else takes a newline: one token, one break. */
  lemma {:induction false} FitsBreaks(ts: seq<Token>, text: string)
    requires Fits(ts, text)
    ensures Breaks(text) <= |ts|
  {
    if ts == [] {
    } else {
      var k := 1;
      if ts[0].Lit? {
        FitsBreaks(ts[1..], text[1..]);
      } else {
        k :| 0 <= k <= |text| && Stop(ts[0]) !in text[..k] && Fits(ts[1..], text[k..]);
        FitsBreaks(ts[1..], text[k..]);
        NoBreaks(text[..k]);
      }
      BreaksSplit(text, k);
    }
  }

  function Broken(n: nat): string { if n == 0 then "" else [NEWLINE, '/'] + Broken(n - 1) }

  lemma {:induction false} BrokenBreaks(n: nat)
    ensures |Broken(n)| == 2 * n && Breaks(Broken(n)) >= n
    ensures n > 0 ==> Broken(n)[|Broken(n)| - 1] == '/'
  {
    if n == 0 {
    } else {
      BrokenBreaks(n - 1);
      var s := Broken(n);
      assert s[2..] == Broken(n - 1);
      BreaksSplit(s[1..], 1);
      assert s[1..][1..] == s[2..];
      assert Breaks(s) == 1 + Breaks(s[1..]);
    }
  }

  /** With more breaks than tokens a text cannot fit up to where it is on one line. */
  lemma TooManyBreaks(ts: seq<Token>, text: string, k: nat)
    requires k <= |text| && Breaks(text) >= |ts| + 2
    ensures !(Fits(ts, text[..k]) && NEWLINE !in text[k..])
  {
    hide Fits;
    BreaksSplit(text, k);
    if NEWLINE !in text[k..] { NoBreaks(text[k..]); }
    if Fits(ts, text[..k]) { FitsBreaks(ts, text[..k]); }
  }

  lemma NotCovered(ts: seq<Token>, base: string, text: string)
    requires Breaks(text) >= |ts| + 2
    ensures !Covered(ts, base, Prefix(base) + text)
  {
    hide Fits, Prefix, Breaks;
    var path, b := Prefix(base) + text, |Prefix(base)|;
    forall k | b <= k <= |path| ensures !(Fits(ts, path[b..k]) && NEWLINE !in path[k..]) {
      assert path[b..k] == text[..k - b] && path[k..] == text[k - b..];
      TooManyBreaks(ts, text, k - b);
    }
  }

  /** Whatever the pattern, some path with newlines is meant and not excluded. */
  lemma {:induction false} NewlineEscapes(pattern: string, base: string)
    ensures exists path :: Meant(pattern, base, path) && !Excludes(pattern, base, path)
  {
    hide Reads, Excludes, Fits, Matches, Normal, Tokens, CodeTokens, Prefix, Covered, Breaks, Broken, Shortest;
    var ts, n := Tokens(Normal(pattern)), |CodeTokens(Normal(pattern))| + 2;
    var head, tail := Shortest(ts), Broken(n);
    var path, b := Prefix(base) + (head + tail), |Prefix(base)|;
    MeantIs(pattern, base, path);
    ShortestFits(ts);
    assert path[b..b + |head|] == head;
    assert Meant(pattern, base, path);
    BrokenBreaks(n);
    assert (head + tail)[|head|..] == tail;
    BreaksSplit(head + tail, |head|);
    NotCovered(CodeTokens(Normal(pattern)), base, head + tail);
    assert path[|path| - 1] == tail[|tail| - 1];
    ExclusionExact(pattern, base, path);
  }

  /** For example, a lone sentinel excludes everything. */
  lemma {:induction false} SentinelExcludesTooMuch()
    ensures Excludes([SENTINEL], "/b", "/b/x") && !Meant([SENTINEL], "/b", "/b/x")
  {
    hide Excludes, Accepts, Reads, Compiled, Meant;
    var pattern := [SENTINEL];
    assert ReplaceAll(pattern[1..], "\\", "/") == "";
    assert Normal(pattern) == pattern;
    assert CodeTokens(pattern) == [Any] + CodeTokens(pattern[1..]) && Tokens(pattern) == [Lit(SENTINEL)] + Tokens(pattern[1..]);
    assert TrimRight("/b") == "/b" && Prefix("/b") == "/b/";
    MeantIs(pattern, "/b", "/b/x");
    ExclusionExact(pattern, "/b", "/b/x");
    FitsRest("");
    assert "/b/x"[3..3] == "" && "/b/x"[..3] == "/b/";
    assert "/b/x"[3..4][0] == 'x';
  }
}
