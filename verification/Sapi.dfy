/** native/sapi.c while one request is served: the output callbacks, the early end of a response,
    the budget of the request body, and the limits on what a request may ask for. */
module Sapi {
  import opened Basics
  import opened Bytes
  import opened Cgi

  const INT_MAX: nat := 0x7FFF_FFFF
  const LONG_MAX: nat := 0x7FFF_FFFF_FFFF_FFFF

  /** The status and headers PHP has collected by the time it sends them. */
  datatype Headers = Headers(code: int, lines: seq<bytes>)

  // ---- The output machine

  /** The program's view of its response: everything it has produced for the client, whether the
      headers were among it, whether the response is over and how often it was ended. */
  datatype Output = Output(sent: bytes, headersSent: bool, finished: bool, ended: nat)

  datatype Op =
    | Write(data: bytes)                        // ub_write
    | SendHeaders(headers: Headers)             // sapi_send_headers
    | Flush(headers: Headers)
    | Finish(headers: Headers, buffered: bytes) // fastcgi_finish_request with this much buffered

  function WithHeaders(o: Output, h: Headers): Output {
    if o.headersSent then o else o.(sent := o.sent + Block(h.code, h.lines), headersSent := true)
  }

  function Apply(o: Output, op: Op): Output {
    if o.finished then o else
    match op
    case Write(data) => o.(sent := o.sent + data)
    case SendHeaders(h) => WithHeaders(o, h)
    case Flush(h) => WithHeaders(o, h)
    case Finish(h, buffered) =>
      var flushed := if buffered == [] then o else WithHeaders(o, h).(sent := WithHeaders(o, h).sent + buffered);
      WithHeaders(flushed, h).(finished := true, ended := o.ended + 1)
  }

  function ApplyAll(o: Output, ops: seq<Op>): Output {
    if ops == [] then o else Apply(ApplyAll(o, ops[..|ops| - 1]), ops[|ops| - 1])
  }

  /** The end of poly_serve_one: a response not ended early is ended now. */
  function Close(o: Output): Output {
    if o.finished then o else o.(ended := o.ended + 1)
  }

  const SILENT := Output([], false, false, 0)

  lemma OneMoreLine(before: bytes, line: bytes, rest: seq<bytes>)
    ensures before + (line + CRLF) + Terminated(rest) == before + Terminated([line] + rest)
  {
    assert ([line] + rest)[1..] == rest;
  }

  lemma HeaderLinesFrom(lines: seq<bytes>, i: nat)
    requires i < |lines|
    ensures HeaderLines(lines[i..]) ==
      if Kept(lines[i]) then [lines[i]] + HeaderLines(lines[i + 1..]) else HeaderLines(lines[i + 1..])
  {
    assert lines[i..][1..] == lines[i + 1..];
  }

  lemma NoLines()
    ensures HeaderLines([]) == [] && Terminated([]) == []
  {}

  // ---- The module's state

  /** `wire` is what the FastCGI layer accepted for the client; `results` decides how much it takes
      at each call, 0 meaning that the connection is lost, which it then stays. */
  class Request {
    var request: bool            // request != NULL
    var wire: bytes
    var diagnostics: bytes       // stderr
    var headersSent: bool        // SG(headers_sent)
    var finished: bool           // response_finished
    var ended: nat               // END_REQUEST records
    var lost: bool
    var results: seq<nat>
    var input: bytes             // the body the client is sending
    var contentLength: nat       // SG(request_info).content_length
    var readBytes: nat           // SG(read_post_bytes)
    ghost var sent: bytes

    /** What reached the connection is what the program produced, up to where it was lost. */
    ghost predicate Valid()
      reads this
    {
      && wire <= sent && (!lost ==> wire == sent)
      && readBytes <= contentLength
      && (finished ==> headersSent)
      && ended == (if finished then 1 else 0)
    }

    ghost function View(): Output
      reads this
    {
      Output(sent, headersSent, finished, ended)
    }

    constructor (results: seq<nat>, input: bytes, contentLength: nat)
      ensures Valid() && View() == SILENT && request && !lost
      ensures this.input == input && this.contentLength == contentLength && readBytes == 0
    {
      request, wire, diagnostics, headersSent, finished, ended, lost := true, [], [], false, false, 0, false;
      this.results, this.input, this.contentLength, readBytes, sent := results, input, contentLength, 0, [];
    }

    /** fcgi_write: a positive count of bytes taken, or failure for good. */
    method FcgiWrite(data: bytes) returns (n: int)
      requires data != []
      modifies this`wire, this`lost, this`results
      ensures n <= |data| && wire == old(wire) + data[..if n > 0 then n else 0]
      ensures lost <==> n <= 0
      ensures old(lost) ==> lost
    {
      var take := |data|;
      if results != [] {
        take, results := results[0], results[1..];
      }
      if lost || take == 0 {
        lost, n := true, -1;
      } else {
        n := if take < |data| then take else |data|;
        wire := wire + data[..n];
      }
      assert n <= 0 ==> data[..0] == [];
    }

    /** ub_write: after the early finish nothing is sent but the full length is reported. */
    method WriteOutput(data: bytes) returns (written: nat)
      requires Valid()
      modifies this`wire, this`lost, this`results, this`sent, this`diagnostics
      ensures Valid()
      ensures View() == if request then Apply(old(View()), Write(data)) else old(View())
      ensures !request || finished ==> written == |data| && wire == old(wire)
      ensures request && !finished ==> written <= |data| && wire == old(wire) + data[..written]
      ensures request && !finished && data != [] ==> (written == |data| <==> !lost)
    {
      if !request {
        diagnostics := diagnostics + data;
        return |data|;
      }
      if finished { return |data|; }
      sent := sent + data;
      written := 0;
      while written < |data|
        invariant 0 <= written <= |data|
        invariant wire == old(wire) + data[..written]
        invariant written > 0 ==> !lost
        invariant written == 0 ==> lost == old(lost)
        invariant old(lost) ==> written == 0
        modifies this`wire, this`lost, this`results
      {
        var part := if |data| - written > INT_MAX then INT_MAX else |data| - written;
        var n := FcgiWrite(data[written..written + part]);
        if n <= 0 {
          break;
        }
        assert data[..written + n] == data[..written] + data[written..written + part][..n];
        written := written + n;
      }
      assert written == |data| ==> data[..written] == data;
    }

    /** The send_headers callback. */
    method SendHeaderLines(h: Headers)
      requires Valid()
      modifies this`wire, this`lost, this`results, this`sent, this`diagnostics
      ensures Valid()
      ensures sent == if request && !finished then old(sent) + Block(h.code, h.lines) else old(sent)
      ensures headersSent == old(headersSent) && finished == old(finished) && ended == old(ended)
    {
      if !request || finished { return; }
      hide Terminated, HeaderLines, StatusLine, Kept;
      ghost var all := Terminated([StatusLine(h.code)] + HeaderLines(h.lines));
      var _ := WriteOutput(StatusLine(h.code) + CRLF);
      OneMoreLine(old(sent), StatusLine(h.code), HeaderLines(h.lines));
      assert h.lines[0..] == h.lines;
      var i := 0;
      while i < |h.lines|
        invariant 0 <= i <= |h.lines| && Valid() && request && !finished
        invariant headersSent == old(headersSent) && ended == old(ended)
        invariant sent + Terminated(HeaderLines(h.lines[i..])) == old(sent) + all
      {
        HeaderLinesFrom(h.lines, i);
        if Kept(h.lines[i]) {
          OneMoreLine(sent, h.lines[i], HeaderLines(h.lines[i + 1..]));
          SendLine(h.lines[i]);
        }
        i := i + 1;
      }
      assert h.lines[i..] == [];
      NoLines();
      assert sent + [] == sent;
      var _ := WriteOutput(CRLF);
      assert sent == old(sent) + (all + CRLF);
    }

    /** One header and its line end. */
    method SendLine(line: bytes)
      requires Valid() && request && !finished
      modifies this`wire, this`lost, this`results, this`sent, this`diagnostics
      ensures Valid() && sent == old(sent) + (line + CRLF)
    {
      var _ := WriteOutput(line);
      var _ := WriteOutput(CRLF);
    }

    /** PHP calls the callback once for a request. */
    method SapiSendHeaders(h: Headers)
      requires Valid() && request
      modifies this`wire, this`lost, this`results, this`sent, this`diagnostics, this`headersSent
      ensures Valid() && View() == Apply(old(View()), SendHeaders(h))
    {
      if !headersSent {
        headersSent := true;
        SendHeaderLines(h);
      }
    }

    method FlushOutput(h: Headers, delivered: bool)
      requires Valid()
      modifies this`wire, this`lost, this`results, this`sent, this`diagnostics, this`headersSent
      ensures Valid()
      ensures View() == if request then Apply(old(View()), Flush(h)) else old(View())
    {
      if !request || finished { return; }
      SapiSendHeaders(h);
      if !delivered { lost := true; }
    }

    /** fastcgi_finish_request: PHP's buffers go out, headers first, and the response is over. */
    method FinishRequest(h: Headers, buffered: bytes) returns (ok: bool)
      requires Valid()
      modifies this`wire, this`lost, this`results, this`sent, this`diagnostics, this`headersSent, this`finished, this`ended
      ensures Valid() && ok == (request && !old(finished))
      ensures View() == if request then Apply(old(View()), Finish(h, buffered)) else old(View())
      ensures !ok ==> wire == old(wire)
    {
      if !request || finished { return false; }
      if buffered != [] {
        SapiSendHeaders(h);
        var _ := WriteOutput(buffered);
      }
      SapiSendHeaders(h);
      ended := ended + 1;
      finished := true;
      return true;
    }

    /** The tail of poly_serve_one, on every path out of the request, bailouts included. */
    method EndRequest()
      requires Valid() && request
      modifies this`ended, this`request
      ensures !request && ended == Close(old(View())).ended == 1
    {
      if !finished { ended := ended + 1; }
      request := false;
    }

    /** read_post, with the count PHP keeps of what it was given. */
    method ReadPost(length: nat) returns (data: bytes)
      requires Valid()
      modifies this`input, this`readBytes, this`results
      ensures Valid() && data + input == old(input)
      ensures readBytes == old(readBytes) + |data| && |data| <= length
      ensures !request || finished ==> data == []
      ensures request && !finished && length > 0 && old(readBytes) < contentLength && old(input) != [] ==> data != []
      ensures request && !finished && old(results) == [] ==>
        |data| == Min(Min(Min(length, contentLength - old(readBytes)), 0x7FFF_FFFF), |old(input)|)
    {
      if !request || finished { return []; }
      var remaining := if contentLength > readBytes then contentLength - readBytes else 0;
      var wanted := if length > remaining then remaining else length;
      data := FcgiRead(if wanted > INT_MAX then INT_MAX else wanted);
      readBytes := readBytes + |data|;
    }

    /** Any sequence of reads together gets a prefix of the body, never longer than the budget. */
    method ReadBody(sizes: seq<nat>) returns (body: bytes)
      requires Valid()
      modifies this`input, this`readBytes, this`results
      ensures Valid() && body + input == old(input)
      ensures readBytes == old(readBytes) + |body| <= contentLength
    {
      body := [];
      for i := 0 to |sizes|
        invariant Valid() && body + input == old(input) && readBytes == old(readBytes) + |body|
      {
        var data := ReadPost(sizes[i]);
        body := body + data;
      }
    }

    /** fcgi_read: at most the count asked for, and something if there is something. */
    method FcgiRead(count: nat) returns (data: bytes)
      modifies this`input, this`results
      ensures |data| <= count && data + input == old(input)
      ensures count > 0 && old(input) != [] ==> data != []
      ensures old(results) == [] ==> |data| == Min(count, |old(input)|)
    {
      var take := count;
      if results != [] {
        take, results := if 0 < results[0] < count then results[0] else count, results[1..];
      }
      var n := if take < |input| then take else |input|;
      data, input := input[..n], input[n..];
    }
  }

  // ---- Over a whole request

  /** What one operation adds to an unfinished response that has or has not sent its headers. */
  function Adds(op: Op, headersSent: bool): bytes {
    match op
    case Write(data) => data
    case SendHeaders(h) => if headersSent then [] else Block(h.code, h.lines)
    case Flush(h) => if headersSent then [] else Block(h.code, h.lines)
    case Finish(h, buffered) => (if headersSent then [] else Block(h.code, h.lines)) + buffered
  }

  predicate Opens(op: Op) { !op.Write? }

  /** Everything the operations produce up to and including the first finish. */
  function Produced(ops: seq<Op>, headersSent: bool): bytes {
    if ops == [] then []
    else if ops[0].Finish? then Adds(ops[0], headersSent)
    else Adds(ops[0], headersSent) + Produced(ops[1..], headersSent || Opens(ops[0]))
  }

  predicate Finishes(ops: seq<Op>) {
    exists i :: 0 <= i < |ops| && ops[i].Finish?
  }

  lemma FinishesFirst(op: Op, rest: seq<Op>)
    ensures Finishes([op] + rest) <==> op.Finish? || Finishes(rest)
  {
    var ops := [op] + rest;
    assert ops[0] == op;
    assert forall i :: 0 <= i < |rest| ==> ops[i + 1] == rest[i];
  }

  lemma ApplyAllFirst(o: Output, op: Op, rest: seq<Op>)
    ensures ApplyAll(o, [op] + rest) == ApplyAll(Apply(o, op), rest)
    decreases |rest|
  {
    var ops := [op] + rest;
    if rest == [] {
      assert ops[..0] == [];
    } else {
      ApplyAllFirst(o, op, rest[..|rest| - 1]);
      assert ops[..|ops| - 1] == [op] + rest[..|rest| - 1];
    }
  }

  lemma {:induction false} FinishedIsFinal(o: Output, ops: seq<Op>)
    requires o.finished
    ensures ApplyAll(o, ops) == o
  {
    if ops == [] {
    } else {
      FinishedIsFinal(o, ops[..|ops| - 1]);
    }
  }

  lemma ApplyAdds(o: Output, op: Op)
    requires !o.finished
    ensures var p := Apply(o, op);
      && p.sent == o.sent + Adds(op, o.headersSent)
      && p.finished == op.Finish? && p.ended == o.ended + (if op.Finish? then 1 else 0)
      && p.headersSent == (o.headersSent || Opens(op))
  {}

  /** Over any sequence of calls the response is exactly what was produced up to the first finish,
      in order, with the headers once, and it has been ended early exactly if it was finished. */
  lemma {:induction false} OutputStopsAtFinish(o: Output, ops: seq<Op>)
    requires !o.finished
    ensures var p := ApplyAll(o, ops);
      && p.sent == o.sent + Produced(ops, o.headersSent)
      && p.finished == Finishes(ops)
      && p.ended == o.ended + (if p.finished then 1 else 0)
    decreases |ops|
  {
    hide Apply, Adds;
    if ops == [] {
      assert o.sent + [] == o.sent;
    } else {
      var op, rest := ops[0], ops[1..];
      var p := Apply(o, op);
      assert ops == [op] + rest;
      ApplyAllFirst(o, op, rest);
      ApplyAdds(o, op);
      FinishesFirst(op, rest);
      if op.Finish? {
        FinishedIsFinal(p, rest);
      } else {
        OutputStopsAtFinish(p, rest);
        assert p.sent + Produced(rest, p.headersSent) == o.sent + Produced(ops, o.headersSent);
      }
    }
  }

  /** An accepted request is ended exactly once, early or at the end. */
  lemma {:induction false} EndedOnce(ops: seq<Op>)
    ensures Close(ApplyAll(SILENT, ops)).ended == 1
  {
    OutputStopsAtFinish(SILENT, ops);
  }

  // ---- CONTENT_LENGTH

  /** What strtol(s, &end, 10) returns, where it stops and whether it sets errno to ERANGE. */
  datatype Strtol = Strtol(value: int, end: nat, range: bool)

  predicate CSpace(b: byte) { b == 32 || 9 <= b <= 13 }

  function SkipSpaces(s: bytes, i: nat): (j: nat)
    requires i <= |s|
    ensures i <= j <= |s| && (j < |s| ==> !CSpace(s[j])) && forall k :: i <= k < j ==> CSpace(s[k])
    decreases |s| - i
  {
    if i < |s| && CSpace(s[i]) then SkipSpaces(s, i + 1) else i
  }

  function SkipDigits(s: bytes, i: nat): (j: nat)
    requires i <= |s|
    ensures i <= j <= |s| && (j < |s| ==> !IsDigit(s[j])) && forall k :: i <= k < j ==> IsDigit(s[k])
    decreases |s| - i
  {
    if i < |s| && IsDigit(s[i]) then SkipDigits(s, i + 1) else i
  }

  /** Section 7.22.1.4 of the C standard, for a 64-bit long and base ten. */
  function StrToL(s: bytes): Strtol {
    var blank := SkipSpaces(s, 0);
    var signed := blank < |s| && (s[blank] == 43 || s[blank] == MINUS);
    var first := if signed then blank + 1 else blank;
    var last := SkipDigits(s, first);
    if first == last then Strtol(0, 0, false) else
    var magnitude := Value(s[first..last]);
    if signed && s[blank] == MINUS then
      if magnitude > LONG_MAX + 1 then Strtol(-(LONG_MAX as int) - 1, last, true) else Strtol(-(magnitude as int), last, false)
    else if magnitude > LONG_MAX then Strtol(LONG_MAX, last, true)
    else Strtol(magnitude, last, false)
  }

  /** A C string ends at its first NUL. */
  function CString(s: bytes): (r: bytes)
    ensures r <= s && 0 !in r && (r == s || s[|r|] == 0)
  {
    if s == [] || s[0] == 0 then []
    else
      var rest := CString(s[1..]);
      assert s == [s[0]] + s[1..];
      [s[0]] + rest
  }

  /** The length poly_serve_one takes from the header; None answers 400. */
  function BodyLength(header: Option<bytes>): Option<nat> {
    var s := if header.Some? then CString(header.value) else [];
    if s == [] then Some(0)
    else
      var r := StrToL(s);
      if !r.range && r.end == |s| && r.value >= 0 && 48 <= s[0] <= 57 then Some(r.value) else None
  }

  /** Accepted is exactly an absent or empty header, or digits and nothing else with a value of at
      most LONG_MAX, and the length is that value; a header ends at its first NUL. */
  lemma {:induction false} BodyLengthIsDecimal(header: Option<bytes>)
    ensures var s := if header.Some? then CString(header.value) else [];
      && (BodyLength(header).Some? <==> AllDigits(s) && Value(s) <= 9223372036854775807)
      && (BodyLength(header).Some? ==> BodyLength(header).value == Value(s))
  {
    var s := if header.Some? then CString(header.value) else [];
    if s == [] {
    } else if IsDigit(s[0]) {
      assert SkipSpaces(s, 0) == 0;
      var last := SkipDigits(s, 0);
      assert last > 0;
      assert s[0..last] == s[..last];
      if last == |s| { assert s[..last] == s; }
    }
  }
}
