/** The CGI header block: what send_headers prints and what the client in tests/fcgi.py reads
    back from it (section 6 of RFC 3875). */
module Cgi {
  import opened Basics
  import opened Bytes

  const COLON: byte := 58
  const SPACE: byte := 32
  const MINUS: byte := 45
  const STATUS: Text := [115, 116, 97, 116, 117, 115]            // "status"
  const STATUS_PREFIX: bytes := [83, 116, 97, 116, 117, 115, 58, 32]  // "Status: "
  const BLANK: bytes := [CR, LF, CR, LF]

  /** Text as code points; the bytes of an ASCII text are its code points. */
  type Text = seq<nat>

  function LowerCode(c: nat): nat {
    if 65 <= c <= 90 then c + 32 else c
  }

  function LowerAll(s: Text): (r: Text)
    ensures |r| == |s| && forall i :: 0 <= i < |s| ==> r[i] == LowerCode(s[i])
  {
    seq(|s|, i requires 0 <= i < |s| => LowerCode(s[i]))
  }

  // ---- The printer

  /** !strncasecmp(header, "Status:", 7) */
  predicate IsStatus(header: bytes) {
    |header| >= 7 && LowerAll(header[..7]) == STATUS + [COLON]
  }

  /** %d */
  function Printed(n: int): bytes {
    if n < 0 then [MINUS] + Decimal(-n) else Decimal(n)
  }

  function StatusLine(code: int): bytes {
    STATUS_PREFIX + Printed(code)
  }

  predicate Kept(header: bytes) {
    header != [] && !IsStatus(header)
  }

  function HeaderLines(headers: seq<bytes>): seq<bytes> {
    if headers == [] then []
    else (if Kept(headers[0]) then [headers[0]] else []) + HeaderLines(headers[1..])
  }

  /** Lines, each ended by CR LF. */
  function Terminated(lines: seq<bytes>): bytes {
    if lines == [] then [] else lines[0] + CRLF + Terminated(lines[1..])
  }

  /** The whole block, up to and including its blank line. */
  function Block(code: int, headers: seq<bytes>): bytes {
    Terminated([StatusLine(code)] + HeaderLines(headers)) + CRLF
  }

  // ---- The parser

  predicate IsSpace(c: nat) {
    9 <= c <= 13 || 28 <= c <= 32
  }

  predicate Ascii(s: Text) {
    forall i :: 0 <= i < |s| ==> s[i] < 128
  }

  function StripLeft(s: Text): Text {
    if s != [] && IsSpace(s[0]) then StripLeft(s[1..]) else s
  }

  function StripRight(s: Text): Text {
    if s != [] && IsSpace(s[|s| - 1]) then StripRight(s[..|s| - 1]) else s
  }

  /** str.strip() of an ASCII text. */
  function Strip(s: Text): Text { StripRight(StripLeft(s)) }

  /** str.split()[0] of a stripped string: everything before its first space. */
  function FirstWord(s: bytes): bytes {
    if s == [] || IsSpace(s[0]) then [] else [s[0]] + FirstWord(s[1..])
  }

  /** int(s), for an optional minus sign and decimal digits; None is ValueError. */
  function ParseInt(s: bytes): Option<int> {
    if s != [] && AllDigits(s) then Some(Value(s))
    else if |s| > 1 && s[0] == MINUS && AllDigits(s[1..]) then Some(0 - Value(s[1..]))
    else None
  }

  /** Python's text functions: bytes.decode(), str.lower(), str.strip() and int(s.split()[0]), None
      being an exception. Outside ASCII they may do what they like within LikePython. */
  datatype Functions = Functions(
    decode: bytes -> Option<Text>, lower: Text -> Text, strip: Text -> Text, number: Text -> Option<int>)

  /** They agree with the functions above on ASCII, and no other bytes and no other letters come out
      as ASCII or as the word "status". */
  ghost predicate LikePython(py: Functions) {
    && (forall s: bytes :: Ascii(s) ==> py.decode(s) == Some(s))
    && (forall s: bytes :: py.decode(s).Some? && Ascii(py.decode(s).value) ==> py.decode(s).value == s)
    && (forall s: Text :: Ascii(s) ==> py.lower(s) == LowerAll(s))
    && (forall s: Text :: py.lower(s) == STATUS ==> Ascii(s))
    && (forall s: Text :: Ascii(s) ==> py.strip(s) == Strip(s))
    && (forall s: bytes :: Ascii(s) && ParseInt(FirstWord(s)).Some? ==> py.number(s) == ParseInt(FirstWord(s)))
  }

  type Python = py: Functions | LikePython(py)
    ghost witness (AsciiOnlyIsLike(); ASCII_ONLY)

  /** A Python that knows nothing outside ASCII. */
  const ASCII_ONLY: Functions := Functions(
    s => if Ascii(s) then Some(s) else None, LowerAll, Strip, s => ParseInt(FirstWord(AsBytes(s))))

  function AsBytes(s: Text): bytes {
    seq(|s|, i requires 0 <= i < |s| => if s[i] < 128 then s[i] else 128)
  }

  lemma OnlyAsciiLowers(s: Text)
    requires LowerAll(s) == STATUS
    ensures Ascii(s)
  {
    assert forall i :: 0 <= i < |STATUS| ==> STATUS[i] < 128;
    forall i | 0 <= i < |s| ensures s[i] < 128 {
      assert LowerAll(s)[i] == LowerCode(s[i]);
    }
  }

  lemma AsciiIsBytes(s: bytes)
    requires Ascii(s)
    ensures AsBytes(s) == s
  {}

  lemma AsciiOnlyIsLike()
    ensures LikePython(ASCII_ONLY)
  {
    hide Strip, ParseInt, FirstWord, LowerAll, AsBytes, Ascii;
    var py := ASCII_ONLY;
    forall s: bytes | Ascii(s) && ParseInt(FirstWord(s)).Some? ensures py.number(s) == ParseInt(FirstWord(s)) {
      AsciiIsBytes(s);
    }
    forall s: Text | py.lower(s) == STATUS ensures Ascii(s) { OnlyAsciiLowers(s); }
  }

  /** line.partition(b":"), or None if the line has no colon. */
  function Field(line: bytes): Option<(bytes, bytes)> {
    var at := Find(line, [COLON]);
    if at.None? then None else Some((line[..at.value], line[at.value + 1..]))
  }

  /** Both halves of the line can be decoded, or it has no colon. */
  predicate Decodes(py: Python, line: bytes) {
    var field := Field(line);
    field.Some? ==> py.decode(field.value.0).Some? && py.decode(field.value.1).Some?
  }

  /** The name in lower case and the value without surrounding space. */
  function ReadField(py: Python, line: bytes): (Text, Text)
    requires Field(line).Some? && Decodes(py, line)
  {
    var field := Field(line).value;
    (py.lower(py.decode(field.0).value), py.strip(py.decode(field.1).value))
  }

  datatype Parsed = Parsed(status: int, headers: seq<(Text, Text)>)

  /** The loop over the header lines; None is the exception int() or decode() raises. */
  function ReadLines(py: Python, lines: seq<bytes>, so: Parsed): Option<Parsed> {
    if lines == [] then Some(so)
    else if Field(lines[0]).None? then ReadLines(py, lines[1..], so)
    else if !Decodes(py, lines[0]) then None
    else
      var (name, value) := ReadField(py, lines[0]);
      if name == STATUS then
        var code := py.number(value);
        if code.None? then None else ReadLines(py, lines[1..], so.(status := code.value))
      else ReadLines(py, lines[1..], so.(headers := so.headers + [(name, value)]))
  }

  /** What receive_response returns for the bytes of the output stream. */
  function ReadResponse(py: Python, output: bytes): Option<(Parsed, bytes)> {
    var at := Find(output, BLANK);
    var raw := if at.None? then output else output[..at.value];
    var body := if at.None? then [] else output[at.value + 4..];
    var r := ReadLines(py, Split(raw, CRLF), Parsed(200, []));
    if r.None? then None else Some((r.value, body))
  }

  /** The loop over the header lines as the client runs it. */
  method ReadLinesLoop(py: Python, lines: seq<bytes>) returns (r: Option<Parsed>)
    ensures r == ReadLines(py, lines, Parsed(200, []))
  {
    var status, headers := 200, [];
    var i := 0;
    while i < |lines|
      invariant 0 <= i <= |lines|
      invariant ReadLines(py, lines[i..], Parsed(status, headers)) == ReadLines(py, lines, Parsed(200, []))
    {
      var line := lines[i];
      assert lines[i..][1..] == lines[i + 1..];
      i := i + 1;
      var field := Field(line);
      if field.None? { continue; }
      var decoded := py.decode(field.value.0);
      if decoded.None? { return None; }
      var name := py.lower(decoded.value);
      decoded := py.decode(field.value.1);
      if decoded.None? { return None; }
      var value := py.strip(decoded.value);
      if name == STATUS {
        var code := py.number(value);
        if code.None? { return None; }
        status := code.value;
      } else {
        headers := headers + [(name, value)];
      }
    }
    return Some(Parsed(status, headers));
  }

  // ---- Lines

  /** A line that cannot be mistaken for a line end, and is not empty. */
  predicate Clean(line: bytes) {
    line != [] && forall i :: 0 <= i < |line| ==> line[i] != CR && line[i] != LF
  }

  predicate AllClean(lines: seq<bytes>) {
    forall i :: 0 <= i < |lines| ==> Clean(lines[i])
  }

  lemma TerminatedLength(lines: seq<bytes>)
    requires lines != [] && AllClean(lines)
    ensures |Terminated(lines)| >= 3
  {}

  /** No blank line begins inside a clean line or at the end of one that another follows. */
  lemma NoBlankInLine(line: bytes, rest: bytes, i: nat)
    requires Clean(line) && i < |line| + 2 && (i == |line| ==> rest != [] && rest[0] != CR)
    ensures !OccursAt(line + CRLF + rest, BLANK, i)
  {
    var all := line + CRLF + rest;
    if i + 4 <= |all| {
      assert all[i..i + 4][0] == all[i] && all[i..i + 4][2] == all[i + 2];
    }
  }

  /** The blank line behind clean lines is the first one. */
  lemma {:induction false} NoEarlierBlank(lines: seq<bytes>, tail: bytes, i: nat)
    requires lines != [] && AllClean(lines) && i + 2 < |Terminated(lines)|
    ensures !OccursAt(Terminated(lines) + CRLF + tail, BLANK, i)
  {
    var first, more := lines[0], lines[1..];
    var all, rest := Terminated(lines) + CRLF + tail, Terminated(more) + CRLF + tail;
    assert all == first + CRLF + rest;
    if i < |first| + 2 {
      if i == |first| { assert rest[0] == more[0][0]; }
      NoBlankInLine(first, rest, i);
    } else {
      var j := i - |first| - 2;
      NoEarlierBlank(more, tail, j);
      assert i + 4 <= |all| ==> rest[j..j + 4] == all[i..i + 4];
    }
  }

  lemma FindBlank(lines: seq<bytes>, tail: bytes)
    requires lines != [] && AllClean(lines)
    ensures Find(Terminated(lines) + CRLF + tail, BLANK) == Some(|Terminated(lines)| - 2)
  {
    var all, at := Terminated(lines) + CRLF + tail, |Terminated(lines)| - 2;
    TerminatedLength(lines);
    EndsInLineEnd(lines);
    assert all[at..at + 4] == BLANK;
    assert OccursAt(all, BLANK, at);
    var found := Find(all, BLANK).value;
    if found < at { NoEarlierBlank(lines, tail, found); }
  }

  lemma {:induction false} EndsInLineEnd(lines: seq<bytes>)
    requires lines != []
    ensures |Terminated(lines)| >= 2 && Terminated(lines)[|Terminated(lines)| - 2..] == CRLF
  {
    if |lines| > 1 { EndsInLineEnd(lines[1..]); }
    else { assert lines[1..] == []; assert Terminated(lines[1..]) == []; }
  }

  lemma FindLineEnd(line: bytes, rest: bytes)
    requires Clean(line)
    ensures Find(line + CRLF + rest, CRLF) == Some(|line|) && Find(line, CRLF) == None
  {
    var all := line + CRLF + rest;
    assert OccursAt(all, CRLF, |line|);
    var found := Find(all, CRLF).value;
    assert all[found] == CR;
    assert forall i :: 0 <= i < |line| ==> all[i] == line[i];
    forall i: nat ensures !OccursAt(line, CRLF, i) {
      if i + 2 <= |line| { assert line[i..i + 2][0] == line[i]; }
    }
  }

  lemma {:induction false} SplitLines(lines: seq<bytes>)
    requires lines != [] && AllClean(lines)
    ensures |Terminated(lines)| >= 2
    ensures Split(Terminated(lines)[..|Terminated(lines)| - 2], CRLF) == lines
  {
    hide Find;
    EndsInLineEnd(lines);
    var first, more := lines[0], lines[1..];
    var raw := Terminated(lines)[..|Terminated(lines)| - 2];
    if more == [] {
      assert raw == first;
      FindLineEnd(first, []);
    } else {
      SplitLines(more);
      var rest := Terminated(more)[..|Terminated(more)| - 2];
      assert raw == first + CRLF + rest;
      FindLineEnd(first, rest);
      assert raw[..|first|] == first && raw[|first| + 2..] == rest;
      assert lines == [first] + more;
    }
  }

  // ---- The round trip

  predicate AllDecode(py: Python, lines: seq<bytes>) {
    forall i :: 0 <= i < |lines| ==> Decodes(py, lines[i])
  }

  /** The headers a client can see: those with a colon. */
  function Visible(py: Python, lines: seq<bytes>): seq<(Text, Text)>
    requires AllDecode(py, lines)
  {
    if lines == [] then []
    else (if Field(lines[0]).Some? then [ReadField(py, lines[0])] else []) + Visible(py, lines[1..])
  }

  /** Only a line that send_headers drops reads as a status. */
  lemma NotStatus(py: Python, line: bytes)
    requires Field(line).Some? && Decodes(py, line) && !IsStatus(line)
    ensures ReadField(py, line).0 != STATUS
  {
    hide Find;
    var name := Field(line).value.0;
    var text := py.decode(name).value;
    if py.lower(text) == STATUS {
      assert Ascii(text) && text == name;
      assert LowerAll(name) == STATUS;
      StatusPrefix(line);
    }
  }

  lemma StatusPrefix(line: bytes)
    requires Field(line).Some? && |Field(line).value.0| == 6
    ensures |line| >= 7 && LowerAll(line[..7]) == LowerAll(Field(line).value.0) + [COLON]
  {
    var at := Find(line, [COLON]).value;
    assert line[at..at + 1] == [COLON];
    assert line[..7] == line[..6] + [COLON];
  }

  lemma {:induction false} ReadHeaderLines(py: Python, lines: seq<bytes>, so: Parsed)
    requires forall i :: 0 <= i < |lines| ==> !IsStatus(lines[i])
    ensures ReadLines(py, lines, so) ==
      if AllDecode(py, lines) then Some(so.(headers := so.headers + Visible(py, lines))) else None
  {
    hide Decodes, ReadField, IsStatus;
    if lines == [] {
      assert so.headers + Visible(py, lines) == so.headers;
    } else {
      var next := so;
      assert AllDecode(py, lines) <==> Decodes(py, lines[0]) && AllDecode(py, lines[1..]) by {
        assert forall i :: 0 < i < |lines| ==> lines[i] == lines[1..][i - 1];
      }
      if Field(lines[0]).None? {
        NoFieldDecodes(py, lines[0]);
      } else if Decodes(py, lines[0]) {
        NotStatus(py, lines[0]);
        next := so.(headers := so.headers + [ReadField(py, lines[0])]);
      }
      ReadHeaderLines(py, lines[1..], next);
      if AllDecode(py, lines) {
        assert next.headers + Visible(py, lines[1..]) == so.headers + Visible(py, lines);
      }
    }
  }

  lemma NoFieldDecodes(py: Python, line: bytes)
    requires Field(line).None?
    ensures Decodes(py, line)
  {}

  lemma {:induction false} DigitsAreOneWord(s: bytes)
    requires forall i :: 0 <= i < |s| ==> !IsSpace(s[i])
    ensures FirstWord(s) == s && Strip(s) == s
  {
    if s == [] {
    } else {
      DigitsAreOneWord(s[1..]);
    }
  }

  lemma PrintedParses(code: int)
    ensures ParseInt(Printed(code)) == Some(code)
    ensures Clean(Printed(code)) && Ascii(Printed(code))
    ensures forall i :: 0 <= i < |Printed(code)| ==> !IsSpace(Printed(code)[i]) && Printed(code)[i] != COLON
  {
    ValueOfDecimal(if code < 0 then -code else code);
    if code < 0 {
      assert Printed(code)[1..] == Decimal(-code);
      assert !IsDigit(Printed(code)[0]);
    }
  }

  lemma StatusColon(code: int)
    ensures Find(StatusLine(code), [COLON]) == Some(6)
  {
    hide Find, Printed;
    var line := StatusLine(code);
    assert line[6..7] == [COLON] && OccursAt(line, [COLON], 6);
    var at := Find(line, [COLON]).value;
    assert line[at..at + 1][0] == line[at];
    assert forall i :: 0 <= i < 6 ==> line[i] == STATUS_PREFIX[i];
  }

  lemma StripSpace(s: bytes)
    requires forall i :: 0 <= i < |s| ==> !IsSpace(s[i])
    ensures Strip([SPACE] + s) == s
  {
    assert ([SPACE] + s)[1..] == s;
    DigitsAreOneWord(s);
  }

  lemma StatusField(code: int)
    ensures Clean(StatusLine(code))
    ensures Field(StatusLine(code)) == Some((STATUS_PREFIX[..6], [SPACE] + Printed(code)))
  {
    hide Find, Printed;
    var line := StatusLine(code);
    PrintedParses(code);
    StatusColon(code);
    assert line[..6] == STATUS_PREFIX[..6];
    assert line[7..] == [SPACE] + Printed(code);
  }

  lemma StatusName()
    ensures Ascii(STATUS_PREFIX[..6]) && LowerAll(STATUS_PREFIX[..6]) == STATUS
  {}

  lemma StatusLineParses(py: Python, code: int)
    ensures Clean(StatusLine(code)) && Field(StatusLine(code)).Some? && Decodes(py, StatusLine(code))
    ensures ReadField(py, StatusLine(code)) == (STATUS, Printed(code)) && py.number(Printed(code)) == Some(code)
  {
    hide Field, Strip, ParseInt, Printed, LowerAll, StatusLine;
    var digits := Printed(code);
    PrintedParses(code);
    StatusField(code);
    StatusName();
    StripSpace(digits);
    DigitsAreOneWord(digits);
    assert Ascii([SPACE] + digits);
  }

  lemma {:induction false} KeptLines(headers: seq<bytes>)
    requires forall h :: h in headers && h != [] ==> Clean(h)
    ensures AllClean(HeaderLines(headers))
    ensures forall i :: 0 <= i < |HeaderLines(headers)| ==> !IsStatus(HeaderLines(headers)[i])
  {
    if headers == [] {
    } else {
      assert headers[0] in headers;
      assert forall h :: h in headers[1..] ==> h in headers;
      KeptLines(headers[1..]);
    }
  }

  /** For headers free of CR and LF the client reads back the status code, every header other
      than Status in order, and the body byte for byte; unless a header is not UTF-8, which ends in
      the exception decode() raises. */
  lemma {:induction false} HeadersRoundTrip(py: Python, code: int, headers: seq<bytes>, body: bytes)
    requires forall h :: h in headers && h != [] ==> Clean(h)
    ensures var rest := HeaderLines(headers);
      ReadResponse(py, Block(code, headers) + body) ==
        if AllDecode(py, rest) then Some((Parsed(code, Visible(py, rest)), body)) else None
  {
    hide ReadField, Decodes, Field;
    var rest := HeaderLines(headers);
    var lines := [StatusLine(code)] + rest;
    KeptLines(headers);
    StatusLineParses(py, code);
    assert AllClean(lines);
    FindBlank(lines, body);
    SplitLines(lines);
    var text := Terminated(lines);
    var output := Block(code, headers) + body;
    assert output[..|text| - 2] == text[..|text| - 2];
    assert output[|text| + 2..] == body;
    assert lines[1..] == rest;
    ReadHeaderLines(py, rest, Parsed(code, []));
    if AllDecode(py, rest) { assert [] + Visible(py, rest) == Visible(py, rest); }
  }

  // ---- The round trip in terms of names and values

  /** A name that can stand before a colon, in ASCII, and is not "status" in letters of either case. */
  ghost predicate IsName(n: bytes) {
    && (forall i :: 0 <= i < |n| ==> n[i] < 128 && n[i] != 58 && n[i] != 13 && n[i] != 10)
    && !SpellsStatus(n)
  }

  ghost predicate SpellsStatus(n: bytes) {
    |n| == 6 && forall i :: 0 <= i < 6 ==>
      n[i] == [115, 116, 97, 116, 117, 115][i] || n[i] == [83, 84, 65, 84, 85, 83][i]
  }

  /** An ASCII value on one line. */
  ghost predicate IsValue(v: bytes) {
    forall i :: 0 <= i < |v| ==> v[i] < 128 && v[i] != 13 && v[i] != 10
  }

  /** All of it is white space, to which Python counts the four separators before the space. */
  ghost predicate AllSpace(s: Text) {
    forall i :: 0 <= i < |s| ==> s[i] in {9, 10, 11, 12, 13, 28, 29, 30, 31, 32}
  }

  /** What is left of a value without the white space around it. */
  ghost predicate Trims(v: Text, t: Text) {
    exists i, j :: 0 <= i <= j <= |v| && TrimsTo(v, t, i, j)
  }

  ghost predicate TrimsTo(v: Text, t: Text, i: nat, j: nat)
    requires i <= j <= |v|
  {
    && t == v[i..j] && AllSpace(v[..i]) && AllSpace(v[j..])
    && (t != [] ==> !AllSpace(t[..1]) && !AllSpace(t[|t| - 1..]))
  }

  lemma SpaceIs(c: nat)
    ensures IsSpace(c) <==> AllSpace([c])
  {
    assert [c][0] == c;
  }

  lemma {:induction false} StripLeftIs(v: Text) returns (i: nat)
    ensures i <= |v| && StripLeft(v) == v[i..] && AllSpace(v[..i]) && (i < |v| ==> !IsSpace(v[i]))
  {
    hide IsSpace;
    if v == [] || !IsSpace(v[0]) {
      i := 0;
      assert v[0..] == v;
    } else {
      var k := StripLeftIs(v[1..]);
      i := k + 1;
      SpaceIs(v[0]);
      assert [v[0]][0] == v[0];
      assert v[1..][k..] == v[i..] && v[..i] == [v[0]] + v[1..][..k];
      assert i < |v| ==> v[i] == v[1..][k];
    }
  }

  lemma {:induction false} StripRightIs(v: Text) returns (j: nat)
    ensures j <= |v| && StripRight(v) == v[..j] && AllSpace(v[j..]) && (j > 0 ==> !IsSpace(v[j - 1]))
  {
    hide IsSpace;
    var n := |v|;
    if v == [] || !IsSpace(v[n - 1]) {
      j := n;
      assert v[..n] == v;
    } else {
      j := StripRightIs(v[..n - 1]);
      SpaceIs(v[n - 1]);
      assert [v[n - 1]][0] == v[n - 1];
      assert v[..n - 1][..j] == v[..j] && v[j..] == v[..n - 1][j..] + [v[n - 1]];
    }
  }

  lemma StripIs(v: Text)
    ensures Trims(v, Strip(v))
  {
    hide IsSpace, StripLeft, StripRight, AllSpace;
    var i := StripLeftIs(v);
    var k := StripRightIs(v[i..]);
    var t := v[i..][..k];
    assert t == v[i..i + k] && v[i..][k..] == v[i + k..];
    if t != [] {
      SpaceIs(v[i]);
      SpaceIs(v[i..][k - 1]);
      assert t[..1] == [v[i]] && t[|t| - 1..] == [v[i..][k - 1]];
    }
    assert TrimsTo(v, Strip(v), i, i + k);
  }

  /** The name with its capital letters made small. */
  ghost predicate IsLower(n: bytes, t: Text) {
    |t| == |n| && forall i :: 0 <= i < |n| ==> t[i] == if 65 <= n[i] <= 90 then n[i] + 32 else n[i]
  }

  /** `n:v` for each pair. */
  function Lines(pairs: seq<(bytes, bytes)>): seq<bytes> {
    if pairs == [] then [] else [pairs[0].0 + ([58] + pairs[0].1)] + Lines(pairs[1..])
  }

  lemma LineField(n: bytes, v: bytes)
    requires IsName(n) && IsValue(v)
    ensures var line := n + ([58] + v);
      Clean(line) && Field(line) == Some((n, v)) && Kept(line)
  {
    hide Find;
    var line := n + ([58] + v);
    assert line[|n|..|n| + 1] == [COLON] && OccursAt(line, [COLON], |n|);
    var at := Find(line, [COLON]).value;
    assert line[at..at + 1][0] == line[at];
    assert forall i :: 0 <= i < |n| ==> line[i] == n[i];
    assert line[..|n|] == n && line[|n| + 1..] == v;
    StatusSpells(n, v);
  }

  lemma StatusSpells(n: bytes, rest: bytes)
    requires forall i :: 0 <= i < |n| ==> n[i] != 58
    ensures IsStatus(n + ([58] + rest)) ==> SpellsStatus(n)
  {
    var line := n + ([58] + rest);
    assert forall i :: 0 <= i < |n| ==> line[i] == n[i];
    assert line[|n|] == 58;
    assert |n| > 6 ==> line[6] != 58;
    if IsStatus(line) {
      var low := LowerAll(line[..7]);
      assert forall i :: 0 <= i < 7 ==> low[i] == LowerCode(line[i]) && low[i] == (STATUS + [COLON])[i];
      assert low[6] == 58;
    }
  }

  lemma FieldReads(py: Python, n: bytes, v: bytes)
    requires IsName(n) && IsValue(v)
    ensures var line := n + ([58] + v);
      Field(line).Some? && Decodes(py, line) && IsLower(n, ReadField(py, line).0) && Trims(v, ReadField(py, line).1)
  {
    hide Strip, Field, LowerAll, Trims;
    LineField(n, v);
    StripIs(v);
    assert Ascii(n) && Ascii(v);
    LowerIs(n);
  }

  lemma LowerIs(n: bytes)
    ensures IsLower(n, LowerAll(n))
  {}

  lemma {:induction false} LinesAreKept(pairs: seq<(bytes, bytes)>)
    requires forall pair :: pair in pairs ==> IsName(pair.0) && IsValue(pair.1)
    ensures HeaderLines(Lines(pairs)) == Lines(pairs)
    ensures forall h :: h in Lines(pairs) ==> Clean(h)
  {
    hide Kept, Clean, IsName, IsValue;
    if pairs == [] {
    } else {
      assert pairs[0] in pairs;
      LineField(pairs[0].0, pairs[0].1);
      LinesAreKept(pairs[1..]);
    }
  }

  lemma {:induction false} LinesRead(py: Python, pairs: seq<(bytes, bytes)>)
    requires forall pair :: pair in pairs ==> IsName(pair.0) && IsValue(pair.1)
    ensures |Lines(pairs)| == |pairs| && AllDecode(py, Lines(pairs))
    ensures var h := Visible(py, Lines(pairs));
      |h| == |pairs| && forall i :: 0 <= i < |pairs| ==> IsLower(pairs[i].0, h[i].0) && Trims(pairs[i].1, h[i].1)
  {
    hide IsName, IsValue, IsLower, Trims, Decodes, ReadField, Field;
    if pairs == [] {
    } else {
      assert pairs[0] in pairs;
      var line, more := pairs[0].0 + ([58] + pairs[0].1), pairs[1..];
      LineField(pairs[0].0, pairs[0].1);
      FieldReads(py, pairs[0].0, pairs[0].1);
      LinesRead(py, more);
      var lines := Lines(pairs);
      assert lines == [line] + Lines(more) && lines[1..] == Lines(more);
      assert AllDecode(py, lines);
      assert Visible(py, lines) == [ReadField(py, line)] + Visible(py, Lines(more));
    }
  }

  /** For a header `n:v` the client has the name in small letters and the value without the white space
      around it, in order; with them the code and the body. */
  lemma {:induction false} PairsRoundTrip(py: Python, code: int, pairs: seq<(bytes, bytes)>, body: bytes)
    requires forall pair :: pair in pairs ==> IsName(pair.0) && IsValue(pair.1)
    ensures var r := ReadResponse(py, Block(code, Lines(pairs)) + body);
      && r.Some? && r.value.0.status == code && r.value.1 == body
      && |r.value.0.headers| == |pairs|
      && forall i :: 0 <= i < |pairs| ==>
           IsLower(pairs[i].0, r.value.0.headers[i].0) && Trims(pairs[i].1, r.value.0.headers[i].1)
  {
    hide IsName, IsValue, IsLower, Trims, ReadResponse, Block, HeaderLines, Visible;
    LinesAreKept(pairs);
    LinesRead(py, pairs);
    HeadersRoundTrip(py, code, Lines(pairs), body);
  }

  lemma {:induction false} HeaderLinesJoin(a: seq<bytes>, b: seq<bytes>)
    ensures HeaderLines(a + b) == HeaderLines(a) + HeaderLines(b)
  {
    if a == [] {
      assert a + b == b;
    } else {
      HeaderLinesJoin(a[1..], b);
      assert (a + b)[0] == a[0] && (a + b)[1..] == a[1..] + b;
      Regroup(if Kept(a[0]) then [a[0]] else [], HeaderLines(a[1..]), HeaderLines(b));
    }
  }

  /** An empty header, and one whose name is "status" in letters of either case, is not printed. */
  lemma {:induction false} StatusIsDropped(code: int, a: seq<bytes>, n: bytes, rest: bytes, b: seq<bytes>)
    requires SpellsStatus(n)
    ensures Block(code, a + [n + ([58] + rest)] + b) == Block(code, a + b) == Block(code, a + [[]] + b)
  {
    hide Kept;
    var h := n + ([58] + rest);
    SpelledIsStatus(n, rest);
    DropsOne(h);
    DropsOne([]);
    HeaderLinesJoin(a, b);
    HeaderLinesJoin(a, [h]);
    HeaderLinesJoin(a + [h], b);
    HeaderLinesJoin(a, [[]]);
    HeaderLinesJoin(a + [[]], b);
    assert HeaderLines(a) + [] == HeaderLines(a);
  }

  lemma DropsOne(h: bytes)
    requires !Kept(h)
    ensures HeaderLines([h]) == []
  {
    assert [h][1..] == [];
  }

  lemma SpelledIsStatus(n: bytes, rest: bytes)
    requires SpellsStatus(n)
    ensures !Kept(n + ([58] + rest)) && !Kept([])
  {
    var h := n + ([58] + rest);
    assert h[..7] == n + [58];
    assert forall i :: 0 <= i < 6 ==> LowerCode(n[i]) == STATUS[i];
    assert LowerAll(h[..7]) == STATUS + [COLON];
  }
}
