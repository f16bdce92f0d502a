/** The clamd client (`evidence_scanner_clamd.py`): INSTREAM framing, bounded reply
    reading under one deadline, and a verdict that fails closed. */
module Clamd {
  import opened Wrappers

  type Byte = n: nat | n < 256

  const MAX_EVIDENCE_BYTES := 10 * 1024 * 1024
  const CHUNK := 65536
  const MAX_REPLY := 4096

  datatype Error = InvalidEvidence | Threat | Unavailable

  function Code(c: char): Byte
    requires c < 128 as char
  {
    c as nat
  }

  /** A byte string literal. */
  function Ascii(s: string): (r: seq<Byte>)
    requires forall i :: 0 <= i < |s| ==> s[i] < 128 as char
    ensures |r| == |s| && forall i :: 0 <= i < |s| ==> r[i] == s[i] as nat
  {
    seq(|s|, i requires 0 <= i < |s| => Code(s[i]))
  }

  // ---- framing ---------------------------------------------------------------------------------

  function Octets(n: nat, k: nat): (r: seq<Byte>)
    ensures |r| == k
    decreases k, n
  {
    if k == 0 then [] else Octets(n / 256, k - 1) + [n % 256]
  }

  function Number(octets: seq<Byte>): nat {
    if octets == [] then 0 else Number(octets[..|octets| - 1]) * 256 + octets[|octets| - 1] as nat
  }

  function Power(k: nat): nat {
    if k == 0 then 1 else 256 * Power(k - 1)
  }

  /** An unsigned 32-bit length, most significant byte first. */
  function BigEndian(n: nat): (r: seq<Byte>)
    ensures |r| == 4
  {
    Octets(n, 4)
  }

  function Frame(chunk: seq<Byte>): (r: seq<Byte>)
    ensures |r| == 4 + |chunk|
  {
    BigEndian(|chunk|) + chunk
  }

  /** What the stream looks like on the wire: length-prefixed chunks and a zero length. */
  function Frames(content: seq<Byte>): seq<Byte> {
    if content == [] then BigEndian(0)
    else if |content| <= CHUNK then Frame(content) + BigEndian(0)
    else Frame(content[..CHUNK]) + Frames(content[CHUNK..])
  }

  // ---- the socket ------------------------------------------------------------------------------

  /** A connection whose peer sends `inbox` and closes.  What the clock reads, whether an
      operation raises and how much a receive finds ready is up to the surroundings.  An
      operation uses up the time it was granted: each needs a grant of its own. */
  class Socket {
    const now: nat -> int
    const fault: nat -> bool
    const ready: nat -> nat
    var readings: nat
    var operations: nat
    var timeout: int
    var sent: seq<Byte>
    var inbox: seq<Byte>

    constructor (now: nat -> int, fault: nat -> bool, ready: nat -> nat, inbox: seq<Byte>)
      ensures this.now == now && this.fault == fault && this.ready == ready
      ensures sent == [] && this.inbox == inbox && readings == 0 && operations == 0 && timeout == 0
    {
      this.now, this.fault, this.ready := now, fault, ready;
      this.readings, this.operations, this.timeout, this.sent, this.inbox := 0, 0, 0, [], inbox;
    }

    /** Grant what is left until the deadline, if anything is. */
    method Remaining(deadline: int) returns (ok: bool)
      modifies this`readings, this`timeout
      ensures readings == old(readings) + 1
      ensures ok <==> now(old(readings)) < deadline
      ensures ok ==> timeout == deadline - now(old(readings)) > 0
    {
      var budget := deadline - now(readings);
      readings := readings + 1;
      ok := budget > 0;
      if ok {
        timeout := budget;
      }
    }

    method Connect() returns (ok: bool)
      requires timeout > 0
      modifies this`operations, this`timeout
      ensures ok <==> !fault(old(operations))
    {
      ok := !fault(operations);
      operations, timeout := operations + 1, 0;
    }

    /** All of it, or after a failure some of it. */
    method SendAll(data: seq<Byte>) returns (ok: bool)
      requires timeout > 0
      modifies this`operations, this`timeout, this`sent
      ensures ok <==> !fault(old(operations))
      ensures ok ==> sent == old(sent) + data
    {
      ok := !fault(operations);
      var n := if ok || ready(operations) > |data| then |data| else ready(operations);
      sent := sent + data[..n];
      operations, timeout := operations + 1, 0;
    }

    /** Up to `size` bytes, and none only at the end of the reply. */
    method Recv(size: nat) returns (part: Option<seq<Byte>>)
      requires timeout > 0 && 1 <= size <= MAX_REPLY + 1
      modifies this`operations, this`timeout, this`inbox
      ensures part.Some? <==> !fault(old(operations))
      ensures part.Some? ==> old(inbox) == part.value + inbox && |part.value| <= size
      ensures part.Some? ==> (part.value == [] <==> old(inbox) == [])
      ensures part.None? ==> inbox == old(inbox)
    {
      part := None;
      if !fault(operations) {
        var n := if ready(operations) < 1 then 1 else ready(operations);
        n := if n > size then size else n;
        n := if n > |inbox| then |inbox| else n;
        part := Some(inbox[..n]);
        inbox := inbox[n..];
      }
      operations, timeout := operations + 1, 0;
    }
  }

  /** No operation raises and the deadline is never reached. */
  ghost predicate Smooth(sock: Socket, deadline: int) {
    (forall i :: !sock.fault(i)) && forall i :: sock.now(i) < deadline
  }

  /** Terminated by the reply's only NUL, and not too long. */
  predicate Complete(reply: seq<Byte>) {
    0 < |reply| <= MAX_REPLY && reply[|reply| - 1] == 0 && 0 !in reply[..|reply| - 1]
  }

  lemma CompleteExactly(reply: seq<Byte>)
    ensures Complete(reply) <==> exists body: seq<Byte> :: reply == body + [0] && 0 !in body && |body| <= 4095
  {
    if Complete(reply) {
      var body := reply[..|reply| - 1];
      assert reply == body + [0];
    }
    if body: seq<Byte> :| reply == body + [0] && 0 !in body && |body| <= 4095 {
      assert reply[..|reply| - 1] == body;
    }
  }

  function OnTheWire(command: seq<Byte>, content: Option<seq<Byte>>): seq<Byte> {
    command + if content.Some? then Frames(content.value) else []
  }

  method SendFrames(sock: Socket, deadline: int, content: seq<Byte>) returns (ok: bool)
    modifies sock`readings, sock`operations, sock`timeout, sock`sent
    ensures ok ==> sock.sent == old(sock.sent) + Frames(content)
    ensures Smooth(sock, deadline) ==> ok
  {
    ghost var all := old(sock.sent) + Frames(content);
    ghost var rest := content;
    var offset := 0;
    while offset < |content|
      invariant 0 <= offset && rest == content[Min(offset, |content|)..]
      invariant sock.sent + Frames(rest) == all
    {
      var chunk := content[offset..Min(offset + CHUNK, |content|)];
      rest := content[Min(offset + CHUNK, |content|)..];
      NextFrame(content, offset, chunk, rest);
      Regrouped(sock.sent, Frame(chunk), Frames(rest));
      ok := sock.Remaining(deadline);
      if !ok { return; }
      ok := sock.SendAll(BigEndian(|chunk|) + chunk);
      if !ok { return; }
      offset := offset + CHUNK;
    }
    ZeroLength();
    assert rest == [];
    ok := sock.Remaining(deadline);
    if !ok { return; }
    ok := sock.SendAll([0, 0, 0, 0]);
  }

  lemma ZeroLength()
    ensures Frames([]) == [0, 0, 0, 0]
  {
    assert Octets(0, 3) == [0, 0, 0] by { assert Octets(0, 1) == [0]; }
  }

  lemma NextFrame(content: seq<Byte>, offset: nat, chunk: seq<Byte>, rest: seq<Byte>)
    requires offset < |content|
    requires chunk == content[offset..Min(offset + CHUNK, |content|)] && rest == content[Min(offset + CHUNK, |content|)..]
    ensures Frames(content[offset..]) == Frame(chunk) + Frames(rest)
  {
    assert content[offset..] == chunk + rest;
    FramesStep(chunk, rest);
  }

  function Min(a: nat, b: nat): nat {
    if a < b then a else b
  }

  lemma FramesStep(chunk: seq<Byte>, rest: seq<Byte>)
    requires 0 < |chunk| <= CHUNK && (|chunk| < CHUNK ==> rest == [])
    ensures Frames(chunk + rest) == Frame(chunk) + Frames(rest)
  {
    var content := chunk + rest;
    if |content| <= CHUNK {
      assert content == chunk;
    } else {
      assert content[..CHUNK] == chunk && content[CHUNK..] == rest;
    }
  }

  /** Receive until the peer closes, keeping one byte more than the limit at the most. */
  method ReadReply(sock: Socket, deadline: int) returns (r: Option<seq<Byte>>)
    modifies sock`readings, sock`operations, sock`timeout, sock`inbox
    ensures r.Some? ==> r.value == old(sock.inbox) && |r.value| <= MAX_REPLY && sock.inbox == []
    ensures |old(sock.inbox)| - |sock.inbox| <= MAX_REPLY + 1
    ensures Smooth(sock, deadline) ==> (r.Some? <==> |old(sock.inbox)| <= MAX_REPLY)
  {
    var reply: seq<Byte> := [];
    while true
      invariant |reply| <= MAX_REPLY && old(sock.inbox) == reply + sock.inbox
      decreases |sock.inbox|
    {
      var ok := sock.Remaining(deadline);
      if !ok { return None; }
      var part := sock.Recv(MAX_REPLY + 1 - |reply|);
      if part.None? { return None; }
      if part.value == [] { return Some(reply); }
      reply := reply + part.value;
      if |reply| > MAX_REPLY { return None; }
    }
  }

  method Send(sock: Socket, command: seq<Byte>, deadline: int, content: Option<seq<Byte>>) returns (ok: bool)
    modifies sock`readings, sock`operations, sock`timeout, sock`sent
    ensures ok ==> sock.sent == old(sock.sent) + OnTheWire(command, content)
    ensures Smooth(sock, deadline) ==> ok
  {
    ok := sock.Remaining(deadline);
    if !ok { return; }
    ok := sock.Connect();
    if !ok { return; }
    ok := sock.Remaining(deadline);
    if !ok { return; }
    ok := sock.SendAll(command);
    if ok && content.Some? {
      Regrouped(old(sock.sent), command, Frames(content.value));
      ok := SendFrames(sock, deadline, content.value);
    }
  }

  /** One command on a connection of its own: everything it sends and the whole reply. */
  method Request(sock: Socket, command: seq<Byte>, deadline: int, content: Option<seq<Byte>>) returns (r: Option<seq<Byte>>)
    modifies sock`readings, sock`operations, sock`timeout, sock`sent, sock`inbox
    ensures r.Some? ==> sock.sent == old(sock.sent) + OnTheWire(command, content)
    ensures r.Some? ==> Complete(old(sock.inbox)) && old(sock.inbox) == r.value + [0]
    ensures |old(sock.inbox)| - |sock.inbox| <= MAX_REPLY + 1
    ensures Smooth(sock, deadline) ==> (r.Some? <==> Complete(old(sock.inbox)))
  {
    var ok := Send(sock, command, deadline, content);
    if !ok { return None; }
    var reply := ReadReply(sock, deadline);
    if reply.None? { return None; }
    OneNul(reply.value);
    if reply.value == [] || reply.value[|reply.value| - 1] != 0 || multiset(reply.value)[0] != 1 {
      return None;
    }
    return Some(reply.value[..|reply.value| - 1]);
  }

  lemma OneNul(reply: seq<Byte>)
    requires |reply| <= MAX_REPLY
    ensures Complete(reply) <==> reply != [] && reply[|reply| - 1] == 0 && multiset(reply)[0] == 1
  {
    if reply != [] {
      assert reply == reply[..|reply| - 1] + [reply[|reply| - 1]];
    }
  }

  /** A printable signature name between the fixed words. */
  predicate IsFound(reply: seq<Byte>) {
    var (head, tail) := (Ascii("stream: "), Ascii(" FOUND"));
    && |reply| > |head| + |tail|
    && reply[..|head|] == head && reply[|reply| - |tail|..] == tail
    && forall i :: |head| <= i < |reply| - |tail| ==> 0x20 <= reply[i] <= 0x7e
  }

  ghost predicate Printable(name: seq<Byte>) {
    forall b :: b in name ==> ' ' as nat <= b <= '~' as nat
  }

  /** At least one byte of a name, printable throughout, and nothing else around it. */
  lemma FoundExactly(reply: seq<Byte>)
    ensures IsFound(reply) <==>
      exists name: seq<Byte> :: reply == Ascii("stream: ") + name + Ascii(" FOUND") && name != [] && Printable(name)
  {
    var (head, tail) := (Ascii("stream: "), Ascii(" FOUND"));
    if IsFound(reply) {
      var name := reply[|head|..|reply| - |tail|];
      assert reply == head + name + tail;
    }
    if name: seq<Byte> :| reply == head + name + tail && name != [] && Printable(name) {
      assert reply[..|head|] == head && reply[|reply| - |tail|..] == tail;
      forall i | |head| <= i < |reply| - |tail| ensures 0x20 <= reply[i] <= 0x7e {
        assert reply[i] == name[i - |head|] && name[i - |head|] in name;
      }
    }
  }

  /** `capable` says which version replies name a signature database and the command. */
  method Scan(capable: seq<Byte> -> bool, versions: Socket, stream: Socket, content: seq<Byte>, start: int, timeout: nat)
    returns (r: Result<(), Error>)
    requires versions != stream
    modifies versions`readings, versions`operations, versions`timeout, versions`sent, versions`inbox
    modifies stream`readings, stream`operations, stream`timeout, stream`sent, stream`inbox
    ensures r == Failure(InvalidEvidence) <==> !(0 < |content| <= MAX_EVIDENCE_BYTES)
    ensures r.Success? ==>
      && stream.sent == old(stream.sent) + Ascii("zINSTREAM\0") + Frames(content)
      && old(stream.inbox) == Ascii("stream: OK") + [0]
      && (exists version :: old(versions.inbox) == version + [0] && capable(version))
    ensures r == Failure(Threat) ==> old(stream.inbox) != [] && IsFound(old(stream.inbox)[..|old(stream.inbox)| - 1])
    ensures 0 < |content| <= MAX_EVIDENCE_BYTES
            && Smooth(versions, start + timeout) && Smooth(stream, start + timeout)
            && Complete(old(versions.inbox)) && capable(old(versions.inbox)[..|old(versions.inbox)| - 1]) ==>
      && (r.Success? <==> old(stream.inbox) == Ascii("stream: OK") + [0])
      && (r == Failure(Threat) <==> Complete(old(stream.inbox)) && IsFound(old(stream.inbox)[..|old(stream.inbox)| - 1]))
  {
    if !(0 < |content| <= MAX_EVIDENCE_BYTES) {
      return Failure(InvalidEvidence);
    }
    var deadline := start + timeout;
    var version := Request(versions, Ascii("zVERSIONCOMMANDS\0"), deadline, None);
    if version.None? || !capable(version.value) {
      return Failure(Unavailable);
    }
    var reply := Request(stream, Ascii("zINSTREAM\0"), deadline, Some(content));
    OkIsComplete();
    if reply.None? {
      return Failure(Unavailable);
    }
    assert reply.value == old(stream.inbox)[..|old(stream.inbox)| - 1];
    if reply.value == Ascii("stream: OK") {
      return Success(());
    }
    if IsFound(reply.value) {
      return Failure(Threat);
    }
    return Failure(Unavailable);
  }

  lemma OkIsComplete()
    ensures Complete(Ascii("stream: OK") + [0])
    ensures !IsFound(Ascii("stream: OK"))
  {
    var ok := Ascii("stream: OK");
    assert (ok + [0])[..|ok|] == ok;
  }

  // ---- what the other side reads back ------------------------------------------------------------

  datatype Read = Read(chunks: seq<seq<Byte>>, rest: seq<Byte>)

  /** Length, then that many bytes, until a zero length; None if the stream ends early. */
  function ReadStream(wire: seq<Byte>): Option<Read>
    decreases |wire|
  {
    if |wire| < 4 then None
    else
      var n := Number(wire[..4]);
      if n == 0 then Some(Read([], wire[4..]))
      else if |wire| < 4 + n then None
      else
        var after := ReadStream(wire[4 + n..]);
        if after.None? then None else Some(Read([wire[4..4 + n]] + after.value.chunks, after.value.rest))
  }

  function Joined(chunks: seq<seq<Byte>>): seq<Byte> {
    if chunks == [] then [] else chunks[0] + Joined(chunks[1..])
  }

  lemma {:induction false} NumberReadsBack(n: nat, k: nat)
    requires n < Power(k)
    ensures Number(Octets(n, k)) == n
    decreases k
  {
    if k > 0 {
      NumberReadsBack(n / 256, k - 1);
      assert Octets(n, k)[..k - 1] == Octets(n / 256, k - 1);
    }
  }

  lemma LengthReadsBack(n: nat)
    requires n <= CHUNK
    ensures Number(BigEndian(n)) == n
  {
    assert Power(4) == 0x1_0000_0000 by { assert Power(2) == 0x1_0000; }
    NumberReadsBack(n, 4);
  }

  lemma ReadsOneChunk(chunk: seq<Byte>, after: seq<Byte>)
    requires 0 < |chunk| <= CHUNK
    ensures ReadStream(Frame(chunk) + after) ==
      var read := ReadStream(after);
      if read.None? then None else Some(Read([chunk] + read.value.chunks, read.value.rest))
  {
    var wire := Frame(chunk) + after;
    LengthReadsBack(|chunk|);
    assert wire[..4] == BigEndian(|chunk|);
    assert wire[4..4 + |chunk|] == chunk;
    assert wire[4 + |chunk|..] == after;
  }

  lemma ReadsTheEnd(after: seq<Byte>)
    ensures ReadStream(BigEndian(0) + after) == Some(Read([], after))
  {
    var wire := BigEndian(0) + after;
    LengthReadsBack(0);
    assert wire[..4] == BigEndian(0);
    assert wire[4..] == after;
  }

  /** Reading the frames back gives the content exactly, in chunks that are never empty and
      never too long, and stops where the frames stop. */
  lemma {:induction false} FramesReadBack(content: seq<Byte>, after: seq<Byte>)
    ensures var read := ReadStream(Frames(content) + after);
      && read.Some? && read.value.rest == after && Joined(read.value.chunks) == content
      && forall c :: c in read.value.chunks ==> 0 < |c| <= CHUNK
    decreases |content|
  {
    if content == [] {
      ReadsTheEnd(after);
    } else {
      var chunk, rest := content[..Min(CHUNK, |content|)], content[Min(CHUNK, |content|)..];
      FramesReadBack(rest, after);
      FramesStep(chunk, rest);
      assert content == chunk + rest;
      Regrouped(Frame(chunk), Frames(rest), after);
      ReadsOneChunk(chunk, Frames(rest) + after);
      JoinedGrows(chunk, ReadStream(Frames(rest) + after).value.chunks);
    }
  }

  lemma JoinedGrows(chunk: seq<Byte>, chunks: seq<seq<Byte>>)
    ensures Joined([chunk] + chunks) == chunk + Joined(chunks)
  {
    assert ([chunk] + chunks)[1..] == chunks;
  }
}
