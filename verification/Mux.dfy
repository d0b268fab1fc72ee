/**
  Many byte streams over one connection (internal/mux/mux.go). Two endpoints exchange frames;
  each method is one atomic step of one of them, so any interleaving of writers, readers and
  read loops is a sequence of calls.
*/
module Mux {
  import opened Dag
  import opened Wire

  const MAX_PAYLOAD: nat := 32768
  const QUEUE: nat := 16
  const BACKLOG: nat := 64
  const ID_LIMIT: nat := 4_294_967_296

  datatype Flag = DATA | FIN | RST

  datatype Frame = Frame(id: nat, flag: Flag, payload: Bytes)

  // ---------- Frames as bytes ----------

  function FlagByte(f: Flag): Byte {
    match f
    case DATA => 1
    case FIN => 2
    case RST => 4
  }

  /** dispatch looks at the reset bit first, then at the end bit; anything else is data. */
  function FlagOf(b: Byte): Flag {
    if (b / 4) % 2 == 1 then RST else if (b / 2) % 2 == 1 then FIN else DATA
  }

  function Encode(f: Frame): Bytes {
    BigEndian(f.id, 4) + [FlagByte(f.flag)] + BigEndian(|f.payload|, 4) + f.payload
  }

  function EncodeAll(fs: seq<Frame>): Bytes {
    if fs == [] then [] else Encode(fs[0]) + EncodeAll(fs[1..])
  }

  /** One turn of readLoop: a frame and the bytes behind it, unless the bytes end or the length is too large. */
  function FirstFrame(bs: Bytes): Option<(Frame, Bytes)> {
    if |bs| < 9 then None
    else
      var ln := FromBigEndian(bs[5..9]);
      if ln > MAX_PAYLOAD || |bs| < 9 + ln then None
      else Some((Frame(FromBigEndian(bs[..4]), FlagOf(bs[4]), bs[9..9 + ln]), bs[9 + ln..]))
  }

  /** The frames readLoop takes out of a byte stream. */
  function Decoded(bs: Bytes): seq<Frame>
    decreases |bs|
  {
    match FirstFrame(bs)
    case None => []
    case Some((f, rest)) => [f] + Decoded(rest)
  }

  predicate Sendable(f: Frame) {
    f.id < ID_LIMIT && |f.payload| <= MAX_PAYLOAD
  }

  lemma EncodeReads(f: Frame)
    requires Sendable(f)
    ensures var e := Encode(f);
      && |e| == 9 + |f.payload| && FromBigEndian(e[..4]) == f.id && FlagOf(e[4]) == f.flag
      && FromBigEndian(e[5..9]) == |f.payload| && e[9..] == f.payload
  {
    assert Pow256(4) == 256 * Pow256(3) && Pow256(3) == 256 * Pow256(2) && Pow256(2) == 256 * Pow256(1)
      && Pow256(1) == 256;
    BigEndianReads(f.id, 4);
    BigEndianReads(|f.payload|, 4);
    var e := Encode(f);
    assert e[..4] == BigEndian(f.id, 4) && e[5..9] == BigEndian(|f.payload|, 4);
  }

  lemma FirstOfEncoded(f: Frame, rest: Bytes)
    requires Sendable(f)
    ensures FirstFrame(Encode(f) + rest) == Some((f, rest))
  {
    EncodeReads(f);
    var e, bs := Encode(f), Encode(f) + rest;
    assert bs[..4] == e[..4] && bs[4] == e[4] && bs[5..9] == e[5..9];
    assert bs[9..9 + |f.payload|] == e[9..] && bs[9 + |f.payload|..] == rest;
  }

  /** A frame cut short gives nothing. */
  lemma CutFrame(f: Frame, bs: Bytes)
    requires Sendable(f) && bs <= Encode(f) && bs != Encode(f)
    ensures FirstFrame(bs) == None
  {
    EncodeReads(f);
    if |bs| >= 9 {
      assert bs[5..9] == Encode(f)[5..9];
    }
  }

  /**
    Whatever front of the written bytes arrives, the frames taken out are a front of the
    frames written, and all of them when all bytes arrive.
   */
  lemma {:induction false} DecodedIsPrefix(fs: seq<Frame>, bs: Bytes)
    requires (forall f :: f in fs ==> Sendable(f)) && bs <= EncodeAll(fs)
    ensures Decoded(bs) <= fs
    ensures bs == EncodeAll(fs) ==> Decoded(bs) == fs
    decreases |fs|
  {
    if fs != [] {
      var e := Encode(fs[0]);
      FrontOf(bs, e, EncodeAll(fs[1..]));
      if |bs| < |e| {
        CutFrame(fs[0], bs);
        assert Decoded(bs) == [];
      } else {
        var rest := bs[|e|..];
        FirstOfEncoded(fs[0], rest);
        DecodedIsPrefix(fs[1..], rest);
        assert Decoded(bs) == [fs[0]] + Decoded(rest);
        assert fs == [fs[0]] + fs[1..];
      }
    }
  }

  lemma FrontOf(bs: Bytes, e: Bytes, more: Bytes)
    requires bs <= e + more
    ensures |bs| < |e| ==> bs <= e && bs != e
    ensures |bs| >= |e| ==> bs == e + bs[|e|..] && bs[|e|..] <= more && (bs == e + more ==> bs[|e|..] == more)
  {
    if |bs| >= |e| {
      assert bs[..|e|] == (e + more)[..|bs|][..|e|] == e;
      assert bs[|e|..] == (e + more)[..|bs|][|e|..] == more[..|bs| - |e|];
    } else {
      assert bs == (e + more)[..|bs|] == e[..|bs|];
    }
  }

  // ---------- Endpoints ----------

  /** A stream's queue of chunks (None marks the end), its read buffer, and whether the end was read. */
  datatype Stream = Stream(queue: seq<Option<Bytes>>, buf: Bytes, finSeen: bool)

  const FRESH: Stream := Stream([], [], false)

  class Endpoint {
    var streams: map<nat, Stream>
    /** Streams the application holds, and those of them it has closed or reset. */
    var handles: set<nat>
    var closed: set<nat>
    var nextID: nat
    var accept: seq<nat>
    /** Frames written and not yet taken by the other side's read loop. */
    var wire: seq<Frame>
    ghost var written: map<nat, Bytes>
    ghost var taken: map<nat, Bytes>
    /** Ids closed here, and ids reset from either side. */
    ghost var shut: set<nat>
    ghost var dead: set<nat>
    /** Every id that ever came up here. */
    ghost var known: set<nat>

    constructor (initiator: bool)
      ensures streams == map[] && handles == {} && closed == {} && accept == [] && wire == []
      ensures nextID == (if initiator then 1 else 2)
      ensures written == map[] && taken == map[] && shut == {} && dead == {} && known == {}
    {
      streams, handles, closed, accept, wire := map[], {}, {}, [], [];
      nextID := if initiator then 1 else 2;
      written, taken, shut, dead, known := map[], map[], {}, {}, {};
    }
  }

  ghost function Of(m: map<nat, Bytes>, id: nat): Bytes {
    if id in m then m[id] else []
  }

  /** Only stream `id` grew, by these bytes. */
  ghost predicate Grown(before: map<nat, Bytes>, after: map<nat, Bytes>, id: nat, bytes: Bytes) {
    Of(after, id) == Of(before, id) + bytes && forall i: nat {:trigger Of(after, i)} :: i != id ==>
      Of(after, i) == Of(before, i)
  }

  lemma GrownOn(a: map<nat, Bytes>, b: map<nat, Bytes>, c: map<nat, Bytes>, id: nat, p: Bytes, q: Bytes)
    requires Grown(a, b, id, p) && Grown(b, c, id, q)
    ensures Grown(a, c, id, p + q)
  {
    assert Of(a, id) + p + q == Of(a, id) + (p + q);
  }

  function StreamOf(m: map<nat, Stream>, id: nat): Stream {
    if id in m then m[id] else FRESH
  }

  /** The chunks and end marks of one stream among frames. */
  ghost function OnWire(wire: seq<Frame>, id: nat): seq<Option<Bytes>> {
    if wire == [] then [] else Chunk(wire[0], id) + OnWire(wire[1..], id)
  }

  ghost function Chunk(f: Frame, id: nat): seq<Option<Bytes>> {
    if f.id != id || f.flag == RST then [] else if f.flag == FIN then [None] else [Some(f.payload)]
  }

  ghost function Spelled(cs: seq<Option<Bytes>>): Bytes {
    if cs == [] then [] else (if cs[0].Some? then cs[0].value else []) + Spelled(cs[1..])
  }

  /** Nothing follows an end mark. */
  ghost predicate EndLast(cs: seq<Option<Bytes>>) {
    forall k :: 0 <= k < |cs| - 1 ==> cs[k] != None
  }

  /**
    One stream in one direction: what was written is what was read, what is buffered, what is
    queued and what is on the wire, in this order; an end mark comes last and only from a
    writer that has closed.
   */
  ghost predicate FlowOk(written: Bytes, taken: Bytes, s: Stream, coming: seq<Option<Bytes>>, shut: bool) {
    && written == taken + s.buf + Spelled(s.queue + coming)
    && EndLast(s.queue + coming)
    && (None in s.queue + coming || s.finSeen ==> shut)
    && (s.finSeen ==> s.buf == [] && s.queue + coming == [])
  }

  /** What one side has sent. */
  datatype Sent = Sent(written: map<nat, Bytes>, wire: seq<Frame>, shut: set<nat>, dead: set<nat>)

  /** What the other side has done with it. */
  datatype Received = Received(taken: map<nat, Bytes>, streams: map<nat, Stream>, shut: set<nat>, dead: set<nat>)

  /** The stream is undisturbed in this direction: not reset, and its reader has not closed it. */
  predicate Undisturbed(s: Sent, r: Received, id: nat) {
    id !in r.shut && id !in r.dead && id !in s.dead
  }

  ghost predicate FlowAt(s: Sent, r: Received, id: nat) {
    FlowOk(Of(s.written, id), Of(r.taken, id), StreamOf(r.streams, id), OnWire(s.wire, id), id in s.shut)
  }

  ghost predicate Conserved(s: Sent, r: Received) {
    forall id: nat {:trigger FlowAt(s, r, id)} {:trigger Undisturbed(s, r, id)} :: Undisturbed(s, r, id) ==>
      FlowAt(s, r, id)
  }

  ghost function SentBy(x: Endpoint): Sent
    reads x
  {
    Sent(x.written, x.wire, x.shut, x.dead)
  }

  ghost function ReceivedBy(x: Endpoint): Received
    reads x
  {
    Received(x.taken, x.streams, x.shut, x.dead)
  }

  ghost predicate Intact(x: Endpoint, y: Endpoint, id: nat)
    reads x, y
  {
    Undisturbed(SentBy(x), ReceivedBy(y), id)
  }

  ghost predicate Flow(x: Endpoint, y: Endpoint)
    reads x, y
  {
    Conserved(SentBy(x), ReceivedBy(y))
  }

  /** An id of either side's parity was handed out by that side, whose next id is `mine` or `theirs`. */
  predicate Given(mine: nat, theirs: nat, id: nat) {
    id < if id % 2 == mine % 2 then mine else theirs
  }

  /** Everything either side knows was handed out, and the two sides hand out different ids. */
  ghost predicate Numbered(mine: nat, theirs: nat, known: set<nat>, others: set<nat>) {
    && mine % 2 != theirs % 2
    && (forall id: nat :: id in known ==> Given(mine, theirs, id))
    && (forall id: nat :: id in others ==> Given(mine, theirs, id))
  }

  ghost predicate Ids(x: Endpoint, y: Endpoint)
    reads x, y
  {
    Numbered(x.nextID, y.nextID, x.known, y.known)
  }

  /** The next id is new to both sides. */
  lemma NextIsNew(mine: nat, theirs: nat, known: set<nat>, others: set<nat>)
    requires Numbered(mine, theirs, known, others)
    ensures mine !in known && mine !in others && Numbered(mine + 2, theirs, known + {mine}, others)
  {
    assert !Given(mine, theirs, mine);
  }

  ghost predicate Tidy(x: Endpoint)
    reads x
  {
    && x.shut <= x.closed <= x.shut + x.dead
    && x.streams.Keys <= x.known && x.handles <= x.known && x.shut <= x.known && x.dead <= x.known
    && x.written.Keys <= x.known && x.taken.Keys <= x.known
    && (forall id :: id in x.accept ==> id in x.known)
    && (forall f :: f in x.wire ==>
      f.id in x.known && |f.payload| <= MAX_PAYLOAD && (f.flag == DATA ==> f.payload != []))
  }

  ghost predicate Linked(x: Endpoint, y: Endpoint)
    reads x, y
  {
    x != y && Flow(x, y) && Flow(y, x) && Ids(x, y) && Tidy(x) && Tidy(y)
  }

  // ---------- Lemmas on chunks ----------

  lemma {:induction false} SpelledAppend(cs: seq<Option<Bytes>>, ds: seq<Option<Bytes>>)
    ensures Spelled(cs + ds) == Spelled(cs) + Spelled(ds)
    decreases |cs|
  {
    if cs == [] {
      assert cs + ds == ds;
    } else {
      SpelledAppend(cs[1..], ds);
      assert (cs + ds)[1..] == cs[1..] + ds;
      JoinLeft(if cs[0].Some? then cs[0].value else [], Spelled(cs[1..]), Spelled(ds));
    }
  }

  lemma {:induction false} OnWireAppend(wire: seq<Frame>, f: Frame, id: nat)
    ensures OnWire(wire + [f], id) == OnWire(wire, id) + Chunk(f, id)
    decreases |wire|
  {
    if wire == [] {
      assert wire + [f] == [f] && [f][1..] == [];
    } else {
      OnWireAppend(wire[1..], f, id);
      assert (wire + [f])[1..] == wire[1..] + [f];
      JoinLeft(Chunk(wire[0], id), OnWire(wire[1..], id), Chunk(f, id));
    }
  }

  lemma OnWireTail(wire: seq<Frame>, id: nat)
    requires wire != []
    ensures Chunk(wire[0], id) == [] ==> OnWire(wire, id) == OnWire(wire[1..], id)
    ensures Chunk(wire[0], id) != [] ==>
      OnWire(wire, id) == Chunk(wire[0], id) + OnWire(wire[1..], id) && OnWire(wire, id)[1..] == OnWire(wire[1..], id)
  {
  }

  /** A written chunk joins the end. */
  lemma FlowWrite(written: Bytes, taken: Bytes, s: Stream, coming: seq<Option<Bytes>>, chunk: Bytes)
    requires FlowOk(written, taken, s, coming, false)
    ensures FlowOk(written + chunk, taken, s, coming + [Some(chunk)], false)
  {
    var cs := s.queue + coming;
    SpelledAppend(cs, [Some(chunk)]);
    assert s.queue + (coming + [Some(chunk)]) == cs + [Some(chunk)];
    assert Spelled([Some(chunk)]) == chunk + Spelled([]);
  }

  /** So does an end mark. */
  lemma FlowEnd(written: Bytes, taken: Bytes, s: Stream, coming: seq<Option<Bytes>>)
    requires FlowOk(written, taken, s, coming, false)
    ensures FlowOk(written, taken, s, coming + [None], true)
  {
    var cs := s.queue + coming;
    SpelledAppend(cs, [None]);
    assert s.queue + (coming + [None]) == cs + [None];
    assert Spelled([None]) == Spelled([]);
  }

  /** A frame moves from the wire into the queue; an end mark may also get lost. */
  lemma FlowArrive(written: Bytes, taken: Bytes, s: Stream, coming: seq<Option<Bytes>>, shut: bool)
    requires coming != [] && FlowOk(written, taken, s, coming, shut)
    ensures FlowOk(written, taken, s.(queue := s.queue + [coming[0]]), coming[1..], shut)
    ensures coming[0] == None ==> FlowOk(written, taken, s, coming[1..], shut)
  {
    assert s.queue + [coming[0]] + coming[1..] == s.queue + coming;
    if coming[0] == None {
      var cs := s.queue + coming;
      assert cs[|s.queue|] == None;
      assert coming[1..] == [] && coming == [None];
      SpelledAppend(s.queue, [None]);
      assert Spelled([None]) == Spelled([]);
      assert s.queue + coming[1..] == s.queue;
      assert forall k :: 0 <= k < |s.queue| ==> s.queue[k] == cs[k];
    }
  }

  /** Reading takes from the buffer. */
  lemma FlowRead(written: Bytes, taken: Bytes, s: Stream, coming: seq<Option<Bytes>>, shut: bool, n: nat)
    requires FlowOk(written, taken, s, coming, shut) && n <= |s.buf|
    ensures FlowOk(written, taken + s.buf[..n], s.(buf := s.buf[n..]), coming, shut)
    ensures taken + s.buf[..n] <= written
  {
    assert s.buf == s.buf[..n] + s.buf[n..];
    JoinLeft(taken, s.buf[..n], s.buf[n..]);
  }

  /** With an empty buffer, the next chunk moves into it, or the end mark is read when all was read. */
  lemma FlowPull(written: Bytes, taken: Bytes, s: Stream, coming: seq<Option<Bytes>>, shut: bool)
    requires FlowOk(written, taken, s, coming, shut) && s.buf == []
    ensures s.finSeen ==> written == taken
    ensures s.queue != [] && s.queue[0].Some? ==>
      FlowOk(written, taken, s.(buf := s.queue[0].value, queue := s.queue[1..]), coming, shut)
    ensures s.queue != [] && s.queue[0] == None ==>
      written == taken && FlowOk(written, taken, s.(queue := s.queue[1..], finSeen := true), coming, shut)
  {
    if s.queue != [] {
      var cs := s.queue + coming;
      assert cs[0] == s.queue[0] && cs[1..] == s.queue[1..] + coming;
      if s.queue[0] == None {
        assert |cs| == 1;
      }
    }
  }

  // ---------- What each step keeps ----------

  lemma SendKeeps(s: Sent, r: Received, s': Sent, f: Frame)
    requires Conserved(s, r) && s'.wire == s.wire + [f] && s.dead <= s'.dead
    requires f.flag == DATA ==>
      f.id !in s.shut && s'.written == s.written[f.id := Of(s.written, f.id) + f.payload] && s'.shut == s.shut
    requires f.flag == FIN ==> f.id !in s.shut && s'.written == s.written && s'.shut == s.shut + {f.id}
    requires f.flag == RST ==> f.id in s'.dead && s'.written == s.written && s'.shut == s.shut
    ensures Conserved(s', r)
  {
    forall i: nat | Undisturbed(s', r, i)
      ensures FlowAt(s', r, i)
    {
      assert Undisturbed(s, r, i) && FlowAt(s, r, i);
      OnWireAppend(s.wire, f, i);
      if i == f.id {
        if f.flag == DATA {
          FlowWrite(Of(s.written, i), Of(r.taken, i), StreamOf(r.streams, i), OnWire(s.wire, i), f.payload);
        } else {
          FlowEnd(Of(s.written, i), Of(r.taken, i), StreamOf(r.streams, i), OnWire(s.wire, i));
        }
      } else {
        assert OnWire(s.wire, i) + [] == OnWire(s.wire, i);
      }
    }
  }

  /** Forgetting a stream that is closed or reset here says nothing about the others. */
  lemma ForgetKeeps(s: Sent, r: Received, r': Received, id: nat)
    requires Conserved(s, r) && r'.taken == r.taken && r.shut <= r'.shut && r.dead <= r'.dead && id in r'.shut + r'.dead
    requires forall i :: i != id ==> StreamOf(r'.streams, i) == StreamOf(r.streams, i)
    ensures Conserved(s, r')
  {
    forall i: nat | Undisturbed(s, r', i)
      ensures FlowAt(s, r', i)
    {
      assert Undisturbed(s, r, i) && FlowAt(s, r, i);
    }
  }

  /** A reset seen by the sender's side only disturbs that stream. */
  lemma DeadKeeps(s: Sent, r: Received, s': Sent)
    requires Conserved(s, r) && s'.written == s.written && s'.wire == s.wire && s'.shut == s.shut && s.dead <= s'.dead
    ensures Conserved(s', r)
  {
    forall i: nat | Undisturbed(s', r, i)
      ensures FlowAt(s', r, i)
    {
      assert Undisturbed(s, r, i) && FlowAt(s, r, i);
    }
  }

  lemma ReplaceKeeps(s: Sent, r: Received, r': Received, id: nat)
    requires Conserved(s, r) && r'.shut == r.shut && r'.dead == r.dead
    requires forall i :: i != id ==>
      StreamOf(r'.streams, i) == StreamOf(r.streams, i) && Of(r'.taken, i) == Of(r.taken, i)
    requires Undisturbed(s, r, id) ==> FlowAt(s, r', id)
    ensures Conserved(s, r')
  {
    forall i: nat | Undisturbed(s, r', i)
      ensures FlowAt(s, r', i)
    {
      assert Undisturbed(s, r, i) && FlowAt(s, r, i);
    }
  }

  /** dispatch of a data or end frame. */
  lemma ArriveKeeps(s: Sent, r: Received, s': Sent, r': Received)
    requires Conserved(s, r) && s.wire != [] && s' == s.(wire := s.wire[1..]) && s.wire[0].flag != RST
    requires r'.shut == r.shut && r'.dead == r.dead && r'.taken == r.taken
    requires var f := s.wire[0];
      && (forall i :: i != f.id ==> StreamOf(r'.streams, i) == StreamOf(r.streams, i))
      && (var st, st' := StreamOf(r.streams, f.id), StreamOf(r'.streams, f.id);
          st' == st.(queue := st.queue + Chunk(f, f.id)) || (f.flag == FIN && st' == st))
    ensures Conserved(s', r')
  {
    var f := s.wire[0];
    forall i: nat | Undisturbed(s', r', i)
      ensures FlowAt(s', r', i)
    {
      assert Undisturbed(s, r, i) && FlowAt(s, r, i);
      OnWireTail(s.wire, i);
      if i == f.id {
        FlowArrive(Of(s.written, i), Of(r.taken, i), StreamOf(r.streams, i), OnWire(s.wire, i), i in s.shut);
      }
    }
  }

  /** dispatch of a reset. */
  lemma ResetArrives(s: Sent, r: Received, s': Sent, r': Received)
    requires Conserved(s, r) && s.wire != [] && s' == s.(wire := s.wire[1..]) && s.wire[0].flag == RST
    requires r'.shut == r.shut && r.dead <= r'.dead && r'.taken == r.taken
    requires forall i :: i != s.wire[0].id || s.wire[0].id !in r'.dead ==>
      StreamOf(r'.streams, i) == StreamOf(r.streams, i)
    ensures Conserved(s', r')
  {
    forall i: nat | Undisturbed(s', r', i)
      ensures FlowAt(s', r', i)
    {
      assert Undisturbed(s, r, i) && FlowAt(s, r, i);
      OnWireTail(s.wire, i);
    }
  }

  // ---------- Steps ----------

  /** NewSession on both ends of a connection. */
  method Connect() returns (x: Endpoint, y: Endpoint)
    ensures fresh(x) && fresh(y) && Linked(x, y)
  {
    x := new Endpoint(true);
    y := new Endpoint(false);
  }

  /** OpenStream: a fresh id of this side's parity. */
  method OpenStream(x: Endpoint, ghost y: Endpoint) returns (id: nat)
    requires Linked(x, y)
    modifies x
    ensures Linked(x, y)
    ensures id == old(x.nextID) && id % 2 == x.nextID % 2 && x.handles == old(x.handles) + {id} && id in x.streams
    ensures id !in old(x.known) + old(y.known)
  {
    id := x.nextID;
    NextIsNew(x.nextID, y.nextID, x.known, y.known);
    ghost var r := ReceivedBy(x);
    x.nextID := x.nextID + 2;
    x.streams := x.streams[id := FRESH];
    assert StreamOf(r.streams, id) == FRESH;
    ReplaceKeeps(SentBy(y), r, ReceivedBy(x), id);
    x.handles, x.known := x.handles + {id}, x.known + {id};
  }

  /** writeFrame of a data frame. It fails on a closed stream and changes nothing then. */
  method WriteChunk(x: Endpoint, ghost y: Endpoint, id: nat, chunk: Bytes) returns (ok: bool)
    requires Linked(x, y) && id in x.handles && 0 < |chunk| <= MAX_PAYLOAD
    modifies x`wire, x`written
    ensures Linked(x, y) && (ok <==> id !in x.closed)
    ensures Grown(old(x.written), x.written, id, if ok then chunk else [])
    ensures !ok ==> x.wire == old(x.wire)
  {
    if id in x.closed { return false; }
    ghost var s := SentBy(x);
    x.wire := x.wire + [Frame(id, DATA, chunk)];
    x.written := x.written[id := Of(x.written, id) + chunk];
    SendKeeps(s, ReceivedBy(y), SentBy(x), Frame(id, DATA, chunk));
    return true;
  }

  /** Write: pieces of at most 32 KiB, in order. */
  method Write(x: Endpoint, ghost y: Endpoint, id: nat, p: Bytes) returns (ok: bool)
    requires Linked(x, y) && id in x.handles
    modifies x`wire, x`written
    ensures Linked(x, y) && (ok <==> id !in x.closed)
    ensures Grown(old(x.written), x.written, id, if ok then p else [])
  {
    if id in x.closed { return false; }
    var total := 0;
    while total < |p|
      invariant total <= |p| && Linked(x, y) && id in x.handles && id !in x.closed
      invariant Grown(old(x.written), x.written, id, p[..total])
    {
      var n := if |p| - total > MAX_PAYLOAD then MAX_PAYLOAD else |p| - total;
      assert p[..total + n] == p[..total] + p[total..total + n];
      ghost var before := x.written;
      ok := WriteChunk(x, y, id, p[total..total + n]);
      GrownOn(old(x.written), before, x.written, id, p[..total], p[total..total + n]);
      total := total + n;
    }
    assert p[..total] == p;
    return true;
  }

  /** Close: an end mark is sent and the stream forgotten; closing again does nothing. */
  method Close(x: Endpoint, ghost y: Endpoint, id: nat)
    requires Linked(x, y) && id in x.handles
    modifies x
    ensures Linked(x, y) && id in x.closed && x.written == old(x.written) && x.taken == old(x.taken)
    ensures id in old(x.closed) ==> x.wire == old(x.wire) && x.streams == old(x.streams)
    ensures id !in old(x.closed) ==> x.wire == old(x.wire) + [Frame(id, FIN, [])] && id in x.shut && id !in x.streams
  {
    if id in x.closed { return; }
    ghost var s, r := SentBy(x), ReceivedBy(x);
    x.closed := x.closed + {id};
    x.wire := x.wire + [Frame(id, FIN, [])];
    x.streams := x.streams - {id};
    x.shut := x.shut + {id};
    SendKeeps(s, ReceivedBy(y), SentBy(x), Frame(id, FIN, []));
    ForgetKeeps(SentBy(y), r, ReceivedBy(x), id);
  }

  /** Reset: aborts both directions of the stream. */
  method Reset(x: Endpoint, ghost y: Endpoint, id: nat)
    requires Linked(x, y) && id in x.handles
    modifies x
    ensures Linked(x, y) && id in x.closed && id in x.dead && id !in x.streams
    ensures x.wire == old(x.wire) + [Frame(id, RST, [])]
  {
    ghost var s, r := SentBy(x), ReceivedBy(x);
    x.closed := x.closed + {id};
    x.wire := x.wire + [Frame(id, RST, [])];
    x.streams := x.streams - {id};
    x.dead := x.dead + {id};
    SendKeeps(s, ReceivedBy(y), SentBy(x), Frame(id, RST, []));
    ForgetKeeps(SentBy(y), r, ReceivedBy(x), id);
  }

  /** AcceptStream: the next stream the other side has started. */
  method AcceptStream(x: Endpoint, ghost y: Endpoint) returns (r: Option<nat>)
    requires Linked(x, y)
    modifies x`accept, x`handles
    ensures Linked(x, y)
    ensures r.None? <==> old(x.accept) == []
    ensures r.Some? ==> old(x.accept) == [r.value] + x.accept && x.handles == old(x.handles) + {r.value}
    ensures r.None? ==> x.accept == [] && x.handles == old(x.handles)
  {
    if x.accept == [] { return None; }
    var id := x.accept[0];
    x.accept := x.accept[1..];
    x.handles := x.handles + {id};
    assert old(x.accept) == [id] + x.accept;
    return Some(id);
  }

  /** The reader's step on its stream. */
  method Replace(y: Endpoint, ghost x: Endpoint, id: nat, s: Stream, bytes: Bytes)
    requires Linked(x, y) && id in y.streams
    requires Intact(x, y, id) ==>
      FlowOk(Of(x.written, id), Of(y.taken, id) + bytes, s, OnWire(x.wire, id), id in x.shut)
    modifies y`streams, y`taken
    ensures Linked(x, y) && y.streams == old(y.streams)[id := s]
    ensures Grown(old(y.taken), y.taken, id, bytes) && (bytes == [] ==> y.taken == old(y.taken))
  {
    ghost var r := ReceivedBy(y);
    y.streams := y.streams[id := s];
    if bytes != [] { y.taken := y.taken[id := Of(y.taken, id) + bytes]; }
    assert Of(y.taken, id) == Of(old(y.taken), id) + bytes;
    ReplaceKeeps(SentBy(x), r, ReceivedBy(y), id);
  }

  datatype ReadResult = Got(bytes: Bytes) | Eof | Blocked

  /** With an empty buffer: the next chunk into it, or the end, or nothing yet. */
  method Pull(y: Endpoint, ghost x: Endpoint, id: nat) returns (state: ReadResult)
    requires Linked(x, y) && id in y.streams && y.streams[id].buf == []
    modifies y`streams, y`taken
    ensures Linked(x, y) && id in y.streams && y.taken == old(y.taken)
    ensures state.Got? ==> state == Got([]) && |y.streams[id].queue| < |old(y.streams)[id].queue|
    ensures state.Eof? && Intact(x, y, id) ==> Of(y.taken, id) == Of(x.written, id)
  {
    var s := y.streams[id];
    if Intact(x, y, id) { FlowPull(Of(x.written, id), Of(y.taken, id), s, OnWire(x.wire, id), id in x.shut); }
    if s.finSeen { return Eof; }
    if s.queue == [] { return Blocked; }
    var chunk := s.queue[0];
    if chunk == None {
      Replace(y, x, id, s.(queue := s.queue[1..], finSeen := true), []);
      return Eof;
    }
    Replace(y, x, id, s.(queue := s.queue[1..], buf := chunk.value), []);
    return Got([]);
  }

  /**
    Read: from the buffer, or from the next chunk. It ends only at the end mark, and then
    everything the other side wrote has been read.
   */
  method Read(y: Endpoint, ghost x: Endpoint, id: nat, n: nat) returns (r: ReadResult)
    requires Linked(x, y) && id in y.streams
    modifies y`streams, y`taken
    ensures Linked(x, y)
    ensures Grown(old(y.taken), y.taken, id, if r.Got? then r.bytes else [])
    ensures r.Got? ==> |r.bytes| <= n
    ensures r.Eof? && Intact(x, y, id) ==> Of(y.taken, id) == Of(x.written, id)
    ensures r.Got? && Intact(x, y, id) ==> Of(y.taken, id) <= Of(x.written, id)
  {
    while y.streams[id].buf == []
      invariant Linked(x, y) && id in y.streams && y.taken == old(y.taken)
      decreases |y.streams[id].queue|
    {
      var state := Pull(y, x, id);
      if state != Got([]) { return state; }
    }
    var s := y.streams[id];
    var k := if n < |s.buf| then n else |s.buf|;
    if Intact(x, y, id) { FlowRead(Of(x.written, id), Of(y.taken, id), s, OnWire(x.wire, id), id in x.shut, k); }
    r := Got(s.buf[..k]);
    Replace(y, x, id, s.(buf := s.buf[k..]), s.buf[..k]);
  }

  /**
    The streams after a frame: a reset ends its stream, anything else joins the queue of
    its stream if there is room.
   */
  function Dispatched(streams: map<nat, Stream>, f: Frame): map<nat, Stream> {
    var st := StreamOf(streams, f.id);
    if f.flag == RST then streams - {f.id}
    else if (f.flag == FIN && f.id !in streams) || |st.queue| >= QUEUE then streams
    else streams[f.id := st.(queue := st.queue + [if f.flag == FIN then None else Some(f.payload)])]
  }

  /** A stream that a data frame starts is offered for acceptance, unless too many are waiting. */
  function Offered(streams: map<nat, Stream>, accept: seq<nat>, f: Frame): seq<nat> {
    if f.flag == DATA && f.id !in streams && |accept| < BACKLOG then [f.id] else []
  }

  /**
    dispatch at `y` of the next frame from `x`. A data frame for a full queue waits; an end
    mark for a full queue is lost; the first frame of an unknown stream creates it.
   */
  method Deliver(x: Endpoint, y: Endpoint) returns (delivered: bool)
    requires Linked(x, y) && x.wire != []
    modifies x`wire, y`streams, y`accept, y`dead, y`known
    ensures Linked(x, y)
    ensures delivered ==> x.wire == old(x.wire)[1..]
    ensures !delivered ==> x.wire == old(x.wire)
    ensures delivered <==>
      !(old(x.wire)[0].flag == DATA && |StreamOf(old(y.streams), old(x.wire)[0].id).queue| >= QUEUE)
    ensures y.streams == Dispatched(old(y.streams), old(x.wire)[0]) && y.taken == old(y.taken)
    ensures y.accept == old(y.accept) + Offered(old(y.streams), old(y.accept), old(x.wire)[0])
  {
    var f := x.wire[0];
    if f.flag == RST {
      TakeReset(x, y);
      return true;
    }
    var st := StreamOf(y.streams, f.id);
    if f.flag == FIN && f.id !in y.streams {
      TakeFrame(x, y, y.streams);
      return true;
    }
    if f.id !in y.streams && |y.accept| < BACKLOG { Announce(x, y, f.id); }
    if |st.queue| < QUEUE {
      var chunk := if f.flag == FIN then None else Some(f.payload);
      TakeFrame(x, y, y.streams[f.id := st.(queue := st.queue + [chunk])]);
      return true;
    }
    if f.flag == FIN {
      TakeFrame(x, y, y.streams);
      return true;
    }
    return false;
  }

  /** A stream the other side started is offered for acceptance. */
  method Announce(x: Endpoint, y: Endpoint, id: nat)
    requires Linked(x, y) && id in x.known
    modifies y`accept, y`known
    ensures Linked(x, y) && y.accept == old(y.accept) + [id]
  {
    y.accept := y.accept + [id];
    y.known := y.known + {id};
  }

  /** A data or end frame leaves the wire for its stream's queue. */
  method TakeFrame(x: Endpoint, y: Endpoint, streams: map<nat, Stream>)
    requires Linked(x, y) && x.wire != [] && x.wire[0].flag != RST
    requires streams.Keys <= y.streams.Keys + {x.wire[0].id}
    requires var f := x.wire[0];
      && (forall i :: i != f.id ==> StreamOf(streams, i) == StreamOf(y.streams, i))
      && (var st, st' := StreamOf(y.streams, f.id), StreamOf(streams, f.id);
          st' == st.(queue := st.queue + Chunk(f, f.id)) || (f.flag == FIN && st' == st))
    modifies x`wire, y`streams, y`known
    ensures Linked(x, y) && x.wire == old(x.wire)[1..] && y.streams == streams
  {
    ghost var s, r := SentBy(x), ReceivedBy(y);
    y.known := y.known + {x.wire[0].id};
    x.wire := x.wire[1..];
    y.streams := streams;
    ArriveKeeps(s, r, SentBy(x), ReceivedBy(y));
    assert forall f :: f in x.wire ==> f in old(x.wire);
  }

  method TakeReset(x: Endpoint, y: Endpoint)
    requires Linked(x, y) && x.wire != [] && x.wire[0].flag == RST
    modifies x`wire, y`streams, y`dead
    ensures Linked(x, y) && x.wire == old(x.wire)[1..]
    ensures var id := old(x.wire)[0].id; y.streams == old(y.streams) - {id} && (id in old(y.streams) ==> id in y.dead)
  {
    var id := x.wire[0].id;
    ghost var s, r, back := SentBy(x), ReceivedBy(y), SentBy(y);
    x.wire := x.wire[1..];
    if id in y.streams {
      y.streams := y.streams - {id};
      y.dead := y.dead + {id};
    }
    ResetArrives(s, r, SentBy(x), ReceivedBy(y));
    DeadKeeps(back, ReceivedBy(x), SentBy(y));
    assert forall f :: f in x.wire ==> f in old(x.wire);
  }
}
