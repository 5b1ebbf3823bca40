/** receive_response as a whole, against a server that prints with send_headers. */
module Client {
  import opened Basics
  import opened Bytes
  import opened Fcgi
  import opened Cgi

  datatype Reply = Reply(status: int, headers: seq<(Text, Text)>, body: bytes, errors: bytes)

  /** What the client makes of a byte stream; None is any of its exceptions. */
  function Understand(py: Python, b: bytes): Option<Reply> {
    var streams := Streams(b, [], []);
    if !streams.Complete? then None else
    var r := Cgi.ReadResponse(py, streams.output);
    if r.None? then None else
    var (parsed, body) := r.value;
    Some(Reply(parsed.status, parsed.headers, body, streams.errors))
  }

  /** receive_response depends on the bytes alone, not on the pieces they arrive in. */
  method ReceiveResponse(py: Python, sock: Socket) returns (reply: Option<Reply>)
    modifies sock
    ensures reply == Understand(py, old(sock.incoming))
  {
    hide Streams, ReadLines, Split, Find;
    var streams := ReceiveStreams(sock);
    if !streams.Complete? { return None; }
    var at := Find(streams.output, BLANK);
    var raw := if at.None? then streams.output else streams.output[..at.value];
    var body := if at.None? then [] else streams.output[at.value + 4..];
    var parsed := ReadLinesLoop(py, Split(raw, CRLF));
    if parsed.None? { return None; }
    return Some(Reply(parsed.value.status, parsed.value.headers, body, streams.errors));
  }

  /** Whatever way a server cuts, pads and interleaves its output and error streams, a client that
      is sent a header block and a body reads the status code, the headers and the body; an exception
      ends it exactly if a header is not UTF-8. */
  lemma {:induction false} ReplyRoundTrip(py: Python, recs: seq<Rec>, end: Rec, rest: bytes,
    code: int, headers: seq<bytes>, body: bytes)
    requires Response(recs) && AllSendable(recs) && Sendable(end) && end.id == 1 && end.kind == 3
    requires Contents(recs, 6) == Block(code, headers) + body
    requires forall h :: h in headers && h != [] ==> Clean(h)
    ensures var lines := HeaderLines(headers);
      Understand(py, EncodeAll(recs) + Encode(end) + rest) ==
        if AllDecode(py, lines) then Some(Reply(code, Visible(py, lines), body, Contents(recs, 7))) else None
  {
    hide Streams, Cgi.ReadResponse, Encode, EncodeAll;
    ResponseRoundTrip(recs, end, rest, [], []);
    assert [] + Contents(recs, 6) == Contents(recs, 6);
    assert [] + Contents(recs, 7) == Contents(recs, 7);
    HeadersRoundTrip(py, code, headers, body);
  }
}
