/**
  The encrypted byte stream (internal/transport/transport.go), after the handshake, in one
  direction: a writer that seals numbered frames and a reader facing an arbitrary network.
  The cipher is ideal: a frame opens only if the writer sealed exactly it under that number.
*/
module Transport {
  import opened Dag
  import opened Wire

  const MAX_FRAME_PLAIN: nat := 16384
  const MAX_FRAME_WIRE: nat := MAX_FRAME_PLAIN + 12 + 16 + 4 + 12
  const COUNTER_LIMIT: nat := 18_446_744_073_709_551_616

  /** Sealing under a frame's number adds a tag of sixteen bytes. */
  ghost predicate Sealing(seal: (nat, Bytes) -> Bytes) {
    forall n, p :: |seal(n, p)| == |p| + 16
  }

  function Nonce(n: nat): Bytes {
    BigEndian(0, 4) + BigEndian(n, 8)
  }

  /** The bytes of frame `n`. */
  function Frame(seal: (nat, Bytes) -> Bytes, n: nat, plain: Bytes): Bytes {
    BigEndian(12 + |seal(n, plain)|, 4) + Nonce(n) + seal(n, plain)
  }

  /** The bytes of the frames from number `n` on. */
  function Frames(seal: (nat, Bytes) -> Bytes, n: nat, plains: seq<Bytes>): Bytes
    decreases |plains|
  {
    if plains == [] then [] else Frame(seal, n, plains[0]) + Frames(seal, n + 1, plains[1..])
  }

  /** The ideal cipher: `log` holds what the writer sealed, by number. */
  function Open(seal: (nat, Bytes) -> Bytes, log: seq<Bytes>, nonce: Bytes, sealed: Bytes): Option<Bytes>
    requires |nonce| == 12
  {
    var n := FromBigEndian(nonce[4..]);
    if nonce == Nonce(n) && n < |log| && sealed == seal(n, log[n]) then Some(log[n]) else None
  }

  lemma {:induction false} FramesAppend(seal: (nat, Bytes) -> Bytes, n: nat, plains: seq<Bytes>, plain: Bytes)
    ensures Frames(seal, n, plains + [plain]) == Frames(seal, n, plains) + Frame(seal, n + |plains|, plain)
    decreases |plains|
  {
    if plains == [] {
      assert plains + [plain] == [plain];
      assert [plain][1..] == [];
      assert Frames(seal, n + 1, []) == [];
    } else {
      FramesAppend(seal, n + 1, plains[1..], plain);
      assert (plains + [plain])[1..] == plains[1..] + [plain];
      JoinLeft(Frame(seal, n, plains[0]), Frames(seal, n + 1, plains[1..]), Frame(seal, n + |plains|, plain));
    }
  }

  /** The parts of a frame read back as they were written, and its length passes the reader's check. */
  lemma FrameReads(seal: (nat, Bytes) -> Bytes, n: nat, plain: Bytes)
    requires Sealing(seal) && |plain| <= MAX_FRAME_PLAIN && n < COUNTER_LIMIT
    ensures var f, ln := Frame(seal, n, plain), 12 + |seal(n, plain)|;
      && |f| == 4 + ln && FromBigEndian(f[..4]) == ln && 12 + 16 <= ln <= MAX_FRAME_WIRE
      && f[4..16] == Nonce(n) && f[16..] == seal(n, plain) && FromBigEndian(Nonce(n)[4..]) == n
  {
    var ln := 12 + |seal(n, plain)|;
    assert Pow256(4) == 256 * Pow256(3) && Pow256(3) == 256 * Pow256(2) && Pow256(2) == 256 * Pow256(1)
      && Pow256(1) == 256;
    BigEndianReads(ln, 4);
    assert Pow256(8) == 256 * Pow256(7) && Pow256(7) == 256 * Pow256(6) && Pow256(6) == 256 * Pow256(5)
      && Pow256(5) == 256 * Pow256(4);
    BigEndianReads(n, 8);
    var f := Frame(seal, n, plain);
    assert f[..4] == BigEndian(ln, 4);
    assert Nonce(n)[4..] == BigEndian(n, 8);
  }

  /** What readFrame makes of the front of a byte stream: a number, sealed bytes, and what is behind them. */
  function FrontFrame(bs: Bytes): Option<(Bytes, Bytes, Bytes)> {
    if |bs| < 4 then None
    else
      var ln := FromBigEndian(bs[..4]);
      if ln < 12 + 16 || ln > MAX_FRAME_WIRE || |bs| < 4 + ln then None
      else Some((bs[4..16], bs[16..4 + ln], bs[4 + ln..]))
  }

  /** A frame of the writer's is taken whole. */
  lemma HonestFrame(seal: (nat, Bytes) -> Bytes, n: nat, plain: Bytes, bs: Bytes)
    requires Sealing(seal) && |plain| <= MAX_FRAME_PLAIN && n < COUNTER_LIMIT && Frame(seal, n, plain) <= bs
    ensures FrontFrame(bs) == Some((Nonce(n), seal(n, plain), bs[|Frame(seal, n, plain)|..]))
    ensures FromBigEndian(Nonce(n)[4..]) == n && bs == Frame(seal, n, plain) + bs[|Frame(seal, n, plain)|..]
  {
    FrameReads(seal, n, plain);
    var f := Frame(seal, n, plain);
    assert bs == f + bs[|f|..];
    assert bs[..4] == f[..4] && bs[4..16] == f[4..16] && bs[16..|f|] == f[16..];
  }

  class Writer {
    const seal: (nat, Bytes) -> Bytes
    var sendCtr: nat
    var raw: Bytes
    ghost var log: seq<Bytes>

    ghost predicate Valid()
      reads this
    {
      && Sealing(seal) && sendCtr == |log|
      && raw == Frames(seal, 0, log)
      && forall k :: 0 <= k < |log| ==> 0 < |log[k]| <= MAX_FRAME_PLAIN
    }

    constructor (seal: (nat, Bytes) -> Bytes)
      requires Sealing(seal)
      ensures Valid() && log == [] && this.seal == seal
    {
      this.seal, sendCtr, raw, log := seal, 0, [], [];
    }

    method WriteFrame(plain: Bytes)
      requires Valid() && 0 < |plain| <= MAX_FRAME_PLAIN
      modifies this
      ensures Valid() && log == old(log) + [plain]
    {
      var nonce := Nonce(sendCtr);
      var sealed := seal(sendCtr, plain);
      FramesAppend(seal, 0, log, plain);
      sendCtr := sendCtr + 1;
      raw := raw + (BigEndian(12 + |sealed|, 4) + nonce + sealed);
      log := log + [plain];
    }

    /** Write: frames of at most 16 KiB, each under its own number, spelling what was asked for. */
    method Write(p: Bytes) returns (total: nat)
      requires Valid()
      modifies this
      ensures Valid() && total == |p|
      ensures log == old(log) + Pieces(p, MAX_FRAME_PLAIN)
      ensures Concat(log) == Concat(old(log)) + p
    {
      PiecesSpell(p, MAX_FRAME_PLAIN);
      ConcatAppend(log, Pieces(p, MAX_FRAME_PLAIN));
      total := 0;
      var rest := p;
      while |rest| > 0
        invariant Valid() && total + |rest| == |p|
        invariant log + Pieces(rest, MAX_FRAME_PLAIN) == old(log) + Pieces(p, MAX_FRAME_PLAIN)
        decreases |rest|
      {
        var n := if |rest| > MAX_FRAME_PLAIN then MAX_FRAME_PLAIN else |rest|;
        PiecesCut(log, rest, MAX_FRAME_PLAIN, n);
        WriteFrame(rest[..n]);
        rest := rest[n..];
        total := total + n;
      }
    }
  }

  class Reader {
    const seal: (nat, Bytes) -> Bytes
    var input: Bytes
    var recvCtr: nat
    var readBuf: Bytes
    ghost var delivered: Bytes

    /** What was delivered, with what is buffered, is what the writer sealed first. */
    ghost predicate Valid(log: seq<Bytes>)
      reads this
    {
      && Sealing(seal) && recvCtr <= |log|
      && delivered + readBuf == Concat(log[..recvCtr])
    }

    constructor (seal: (nat, Bytes) -> Bytes)
      requires Sealing(seal)
      ensures Valid([]) && delivered == [] && input == [] && this.seal == seal
    {
      this.seal, input, recvCtr, readBuf, delivered := seal, [], 0, [], [];
    }

    /** The network hands over bytes of its own choosing; meanwhile the writer may have gone on sealing. */
    method Arrive(bytes: Bytes, ghost log: seq<Bytes>, ghost log': seq<Bytes>)
      requires Valid(log) && log <= log'
      modifies this`input
      ensures Valid(log') && input == old(input) + bytes
    {
      StaysValid(this, log, log');
      input := input + bytes;
    }

    method ReadFull(n: nat) returns (r: Option<Bytes>)
      modifies this`input
      ensures r.Some? <==> n <= |old(input)|
      ensures r.Some? ==> r.value == old(input)[..n] && input == old(input)[n..]
      ensures |input| <= |old(input)| && (n > 0 && old(input) != [] ==> |input| < |old(input)|)
    {
      if n <= |input| {
        r := Some(input[..n]);
        input := input[n..];
      } else {
        r := None;
        input := [];
      }
    }

    /** The next frame's number and sealed bytes, if the length is acceptable. */
    method TakeFrame() returns (r: Result<(Bytes, Bytes)>)
      modifies this`input
      ensures r.Ok? ==> |input| < |old(input)| && |r.value.0| == 12
      ensures match FrontFrame(old(input)) {
        case None => r.Err?
        case Some((nonce, sealed, rest)) => r == Ok((nonce, sealed)) && input == rest
      }
    {
      ghost var before := input;
      var hdr := ReadFull(4);
      if hdr.None? { return Err("unexpected end"); }
      var ln := FromBigEndian(hdr.value);
      if ln < 12 + 16 || ln > MAX_FRAME_WIRE { return Err("bad secure frame length"); }
      var buf := ReadFull(ln);
      if buf.None? { return Err("unexpected end"); }
      var nonce, sealed := buf.value[..12], buf.value[12..];
      assert nonce == before[4..16] && sealed == before[16..4 + ln] && input == before[4 + ln..];
      return Ok((nonce, sealed));
    }

    /**
      readFrame, whatever the bytes: on success it took the writer's next frame, on failure
      none. A whole frame of the writer's, next in order, is always accepted.
     */
    method ReadFrame(log: seq<Bytes>) returns (r: Result<nat>)
      requires Valid(log)
      modifies this`input, this`recvCtr, this`readBuf
      ensures Valid(log)
      ensures r.Ok? ==>
        old(recvCtr) < |log| && recvCtr == old(recvCtr) + 1 && readBuf == old(readBuf) + log[old(recvCtr)]
      ensures r.Err? ==> recvCtr == old(recvCtr) && readBuf == old(readBuf)
      ensures r.Ok? ==> |input| < |old(input)|
      ensures Next(log, old(recvCtr)) && Frame(seal, old(recvCtr), log[old(recvCtr)]) <= old(input) ==>
        r.Ok? && old(input) == Frame(seal, old(recvCtr), log[old(recvCtr)]) + input
    {
      ghost var n := recvCtr;
      if Next(log, n) && Frame(seal, n, log[n]) <= input { HonestFrame(seal, n, log[n], input); }
      var frame := TakeFrame();
      if frame.Err? { return Err(frame.error); }
      var (nonce, sealed) := frame.value;
      var ctr := FromBigEndian(nonce[4..]);
      if ctr != recvCtr { return Err("secure frame nonce out of order"); }
      var plain := Open(seal, log, nonce, sealed);
      if plain.None? { return Err("secure frame decrypt failed"); }
      assert log[..n + 1] == log[..n] + [log[n]];
      ConcatOne(log[..n], log[n]);
      JoinLeft(delivered, readBuf, plain.value);
      recvCtr := recvCtr + 1;
      readBuf := readBuf + plain.value;
      return Ok(ctr);
    }

    /** Read: up to `n` bytes, waiting for a frame when none are buffered. */
    method Read(n: nat, log: seq<Bytes>) returns (r: Result<Bytes>)
      requires Valid(log)
      modifies this
      ensures Valid(log)
      ensures delivered == old(delivered) + if r.Ok? then r.value else []
      ensures r.Ok? ==> |r.value| <= n && (n > 0 ==> |r.value| > 0)
      ensures delivered <= Concat(log)
    {
      while |readBuf| == 0
        invariant Valid(log) && delivered == old(delivered)
        decreases |input|
      {
        var got := ReadFrame(log);
        if got.Err? {
          DeliveredIsPrefix(log, recvCtr, delivered, readBuf);
          return Err(got.error);
        }
      }
      var k := if n < |readBuf| then n else |readBuf|;
      r := Ok(readBuf[..k]);
      assert readBuf == readBuf[..k] + readBuf[k..];
      delivered := delivered + readBuf[..k];
      readBuf := readBuf[k..];
      DeliveredIsPrefix(log, recvCtr, delivered, readBuf);
    }
  }

  /** The writer's frame number `n` exists and fits the counter. */
  predicate Next(log: seq<Bytes>, n: nat) {
    n < |log| && |log[n]| <= MAX_FRAME_PLAIN && n < COUNTER_LIMIT
  }

  lemma DeliveredIsPrefix(log: seq<Bytes>, n: nat, delivered: Bytes, buffered: Bytes)
    requires n <= |log| && delivered + buffered == Concat(log[..n])
    ensures delivered <= Concat(log)
  {
    assert log == log[..n] + log[n..];
    ConcatAppend(log[..n], log[n..]);
  }

  /** What more the writer seals leaves the reader's account right. */
  lemma StaysValid(r: Reader, log: seq<Bytes>, log': seq<Bytes>)
    requires r.Valid(log) && log <= log'
    ensures r.Valid(log')
  {
    assert log'[..r.recvCtr] == log[..r.recvCtr];
  }
}
