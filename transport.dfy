/** Talking to a Gopher or PH server. A connection is abstracted as what the server does:
    it cannot be reached, or it accepts the request (or not) and then answers with a
    stream of reads. */
module Transport {
  import opened GoStrings

  /** How a read ends: end of file, the connection deadline, or any other error. */
  datatype ReadError = EOF | Timeout | Failed(reason: string)

  /** The successive results of `ReadString('\n')` on a connection: the reads that
      succeed, each a line with its newline, then the one that fails, with the text it
      returned before failing. The deadline set on every connection makes some read
      fail, so every stream has such a last read. */
  datatype Stream = Stream(chunks: seq<string>, last: string, end: ReadError)

  /** The server at the other end of one connection attempt. */
  datatype Peer = Unreachable(reason: string) | Connected(writeOk: bool, reply: Stream)

  /** Why a request failed. */
  datatype FetchError = DialFailed(reason: string) | WriteFailed | ReadFailed(error: ReadError)

  datatype Outcome = Fetched(text: string) | Failure(error: FetchError)

  /** The result of the read with index `k`. */
  datatype Read = Read(data: string, failed: bool, error: ReadError)

  function ReadAt(s: Stream, k: nat): (r: Read)
    requires k <= |s.chunks|
    ensures r.failed <==> k == |s.chunks|
    ensures r.failed ==> r.data == s.last && r.error == s.end
    ensures !r.failed ==> r.data == s.chunks[k]
  {
    if k < |s.chunks| then Read(s.chunks[k], false, EOF) else Read(s.last, true, s.end)
  }

  /** All the text of some reads, in order. */
  function Concat(chunks: seq<string>): string {
    if chunks == [] then "" else chunks[0] + Concat(chunks[1..])
  }

  lemma {:induction false} ConcatSnoc(chunks: seq<string>, c: string)
    ensures Concat(chunks + [c]) == Concat(chunks) + c
  {
    if chunks != [] {
      assert (chunks + [c])[1..] == chunks[1..] + [c];
      ConcatSnoc(chunks[1..], c);
    }
  }

  /** Everything the server sent on the connection, from read `from` on. */
  function ReceivedFrom(s: Stream, from: nat): string
    requires from <= |s.chunks|
  {
    Concat(s.chunks[from..]) + s.last
  }

  function Received(s: Stream): string {
    ReceivedFrom(s, 0)
  }

  /** The request line for a selector (RFC 1436, section 2). */
  function RequestLine(selector: string): (line: string)
    ensures |line| == |selector| + 2
    ensures line[..|selector|] == selector && line[|selector|..] == "\r\n"
  {
    selector + "\r\n"
  }

  /** The request is exactly one line, ended by CR LF, when the selector holds no
      newline: the server reads the selector, and nothing after the line. */
  lemma RequestLineIsOneLine(selector: string)
    requires '\n' !in selector
    ensures Split(RequestLine(selector), '\n') == [selector + "\r", ""]
  {
    var head := selector + "\r";
    assert '\n' !in head by {
      assert forall i | 0 <= i < |head| :: head[i] == (if i < |selector| then selector[i] else '\r');
    }
    assert RequestLine(selector) == head + ['\n'] + "";
    SplitCons(head, '\n', "");
    SplitNone("", '\n');
  }

  /** The read loop shared by the PH and search clients: every read's text is kept, and
      the first failing read, whatever its error, ends the loop. */
  method ReadUntilError(s: Stream, from: nat) returns (text: string, err: ReadError)
    requires from <= |s.chunks|
    ensures text == ReceivedFrom(s, from) && err == s.end
  {
    var k := from;
    text := "";
    while true
      invariant from <= k <= |s.chunks|
      invariant text == Concat(s.chunks[from..k])
      decreases |s.chunks| - k
    {
      var r := ReadAt(s, k);
      ghost var before := text;
      if |r.data| > 0 {
        text := text + r.data;
      }
      assert text == before + r.data;
      if r.failed {
        assert s.chunks[from..k] == s.chunks[from..];
        err := r.error;
        return;
      }
      assert s.chunks[from..k + 1] == s.chunks[from..k] + [s.chunks[k]];
      ConcatSnoc(s.chunks[from..k], s.chunks[k]);
      k := k + 1;
    }
  }

  /** What `gopherRequest` of the current gateway yields (gofer.go:81-128): the whole text
      when reading ends at end of file or at the deadline, a failure otherwise. */
  function Fetch(peer: Peer): Outcome {
    match peer
    case Unreachable(reason) => Failure(DialFailed(reason))
    case Connected(writeOk, reply) =>
      if !writeOk then Failure(WriteFailed)
      else if reply.end == EOF || reply.end == Timeout then Fetched(Received(reply))
      else Failure(ReadFailed(reply.end))
  }

  /** `gopherRequest` of the current gateway: sends the request line, then keeps every
      read's text until a read fails; the text is returned when that failure is end of
      file or the deadline, and discarded otherwise. */
  method GopherRequest(peer: Peer, selector: string) returns (sent: string, outcome: Outcome)
    ensures sent == (if peer.Connected? then RequestLine(selector) else "")
    ensures outcome == Fetch(peer)
  {
    if peer.Unreachable? {
      return "", Failure(DialFailed(peer.reason));
    }
    sent := RequestLine(selector);
    if !peer.writeOk {
      return sent, Failure(WriteFailed);
    }
    var s := peer.reply;
    var text := "";
    var k := 0;
    while true
      invariant 0 <= k <= |s.chunks|
      invariant text == Concat(s.chunks[..k])
      decreases |s.chunks| - k
    {
      var r := ReadAt(s, k);
      ghost var before := text;
      if |r.data| > 0 {
        text := text + r.data;
      }
      assert text == before + r.data;
      if r.failed {
        assert s.chunks[..k] == s.chunks[0..];
        if r.error == EOF || r.error == Timeout {
          return sent, Fetched(text);
        }
        return sent, Failure(ReadFailed(r.error));
      }
      assert s.chunks[..k + 1] == s.chunks[..k] + [s.chunks[k]];
      ConcatSnoc(s.chunks[..k], s.chunks[k]);
      k := k + 1;
    }
  }

  /** What `gopherRequestBytes` of version 0.5 yields (gofer-0.5/gofer.go:88-115): reading
      everything succeeds only at end of file; reaching the deadline is an error. */
  function FetchAll(peer: Peer): Outcome {
    match peer
    case Unreachable(reason) => Failure(DialFailed(reason))
    case Connected(writeOk, reply) =>
      if !writeOk then Failure(WriteFailed)
      else if reply.end == EOF then Fetched(Received(reply))
      else Failure(ReadFailed(reply.end))
  }

  /** The current gateway keeps whatever arrived before any read failure other than a
      generic one, and discards it on a generic one. */
  lemma FetchKeepsTextUntilDeadline(writeOk: bool, chunks: seq<string>, last: string, end: ReadError)
    ensures Fetch(Connected(writeOk, Stream(chunks, last, end))).Fetched?
        <==> writeOk && !end.Failed?
    ensures writeOk && !end.Failed? ==>
      Fetch(Connected(writeOk, Stream(chunks, last, end))).text == Concat(chunks) + last
  {
    assert Stream(chunks, last, end).chunks[0..] == chunks;
  }

  /** The two versions agree except on a connection that reaches its deadline: there the
      current gateway returns the text received so far and version 0.5 reports an error. */
  lemma FetchVersionsDiffer(peer: Peer)
    ensures !(peer.Connected? && peer.writeOk && peer.reply.end == Timeout) ==> Fetch(peer) == FetchAll(peer)
    ensures peer.Connected? && peer.writeOk && peer.reply.end == Timeout ==>
      Fetch(peer) == Fetched(Received(peer.reply)) && FetchAll(peer) == Failure(ReadFailed(Timeout))
  {
  }
}
