/** The byte stream over RDMA of src/rdma.c: each peer writes into the other's receive buffer
    and may reuse it only when the other registers it again. Two peers, in-order channels. */
module Rdma {
  import opened Bytes

  /** One peer's context. `lent` is where the bytes handed to the caller by a zero-copy read
      start, until the caller is done with them. */
  datatype Side = Side(txLength: nat, txOffset: nat, sendBuf: seq<Byte>,
                       recvBuf: seq<Byte>, rxOffset: nat, recvOffset: nat, lent: Option<nat>)

  /** What travels: a remote write of sendBuf[off..off + len] to the same place of the receive
      buffer, announced with its length; the registration of a receive buffer; a keepalive. */
  datatype Msg = Write(off: nat, len: nat) | Register(length: nat) | Keepalive

  function Min(a: nat, b: nat): nat {
    if a < b then a else b
  }

  /** s with data stored at off. */
  function Store(s: seq<Byte>, off: nat, data: seq<Byte>): (r: seq<Byte>)
    requires off + |data| <= |s|
    ensures |r| == |s|
  {
    s[..off] + data + s[off + |data|..]
  }

  function Zeros(n: nat): (r: seq<Byte>)
    ensures |r| == n
  {
    seq(n, _ => 0)
  }

  // ------------------------------------------------------------------ one peer

  /** `connRdmaRegisterRx`: what is sent, and the offsets start over. */
  function RegisterRx(s: Side): (Side, Msg) {
    (s.(rxOffset := 0, recvOffset := 0), Register(|s.recvBuf|))
  }

  /** `connRdmaHandleRecv`. */
  function HandleRecv(s: Side, m: Msg): Side {
    match m
    case Register(n) =>
      s.(txLength := n, txOffset := 0, sendBuf := if n == |s.sendBuf| then s.sendBuf else Zeros(n))
    case _ => s
  }

  /** The assertion of `connRdmaHandleRecvImm`. */
  predicate ImmFits(s: Side, n: nat) {
    n + s.rxOffset <= |s.recvBuf|
  }

  function HandleRecvImm(s: Side, n: nat): Side {
    s.(rxOffset := s.rxOffset + n)
  }

  /** `valkeyRdmaReadZC`, when there is something to read: the range of the receive buffer handed to the caller. */
  function ReadZC(s: Side): (Side, (nat, nat))
    requires s.recvOffset < s.rxOffset
  {
    (s.(recvOffset := s.rxOffset, lent := Some(s.recvOffset)), (s.recvOffset, s.rxOffset))
  }

  /** `valkeyRdmaReadZCDone`: a used up buffer is registered again. */
  function ReadZCDone(s: Side): (Side, Option<Msg>) {
    var s' := s.(lent := None);
    if s'.recvOffset == |s'.recvBuf| then
      var (r, m) := RegisterRx(s');
      (r, Some(m))
    else (s', None)
  }

  /** How much of the data one iteration of `valkeyRdmaWrite` sends; 0 space means waiting. */
  function ToWrite(s: Side, data: seq<Byte>): nat
    requires s.txOffset <= s.txLength
  {
    Min(s.txLength - s.txOffset, |data|)
  }

  /** The assertion of `connRdmaSend`, and the bounds of its copy into the send buffer. */
  predicate SendFits(s: Side, n: nat) {
    n <= s.txLength && s.txOffset + n <= |s.sendBuf|
  }

  /** `connRdmaSend`. */
  function Send(s: Side, data: seq<Byte>): (Side, Msg)
    requires SendFits(s, |data|)
  {
    (s.(sendBuf := Store(s.sendBuf, s.txOffset, data), txOffset := s.txOffset + |data|), Write(s.txOffset, |data|))
  }

  // ------------------------------------------------------------------ two peers

  /** One direction: messages not yet in the receiver's memory, and messages whose completion
      the receiver has not handled yet. */
  datatype Channel = Channel(wire: seq<Msg>, cq: seq<Msg>)

  /** Peer a, peer b, the channels between them; all bytes each peer has written to the other, all
      that its caller was shown by reads, and all it was delivered, which are those in the buffer when
      the caller is done with them; whether an assertion or a bound was violated. */
  datatype System = System(a: Side, b: Side, ab: Channel, ba: Channel,
                           writtenA: seq<Byte>, writtenB: seq<Byte>, shownA: seq<Byte>, shownB: seq<Byte>,
                           deliveredA: seq<Byte>, deliveredB: seq<Byte>, fault: bool)

  /** The same system seen from the other peer. */
  function Mirror(s: System): System {
    System(s.b, s.a, s.ba, s.ab, s.writtenB, s.writtenA, s.shownB, s.shownA, s.deliveredB, s.deliveredA, s.fault)
  }

  datatype Event = DoSend(data: seq<Byte>) | DoPlace | DoPoll | DoRead | DoDone | DoKeepalive

  function Post(c: Channel, m: Msg): Channel {
    c.(wire := c.wire + [m])
  }

  /** One event at peer a; an event that is not possible changes nothing. */
  function StepA(s: System, e: Event): System {
    match e
    case DoSend(data) => SendA(s, data)
    case DoPlace => PlaceA(s)
    case DoPoll => PollA(s)
    case DoRead => ReadA(s)
    case DoDone => DoneA(s)
    case DoKeepalive => s.(ab := Post(s.ab, Keepalive))
  }

  function SendA(s: System, data: seq<Byte>): System {
    if s.a.txOffset > s.a.txLength then s.(fault := true)
    else if s.a.txOffset == s.a.txLength then s
    else
      var n := ToWrite(s.a, data);
      if !SendFits(s.a, n) then s.(fault := true)
      else
        var (a, m) := Send(s.a, data[..n]);
        s.(a := a, ab := Post(s.ab, m), writtenA := s.writtenA + data[..n])
  }

  /** The oldest message on the wire to a reaches a's memory. */
  function PlaceA(s: System): System {
    if s.ba.wire == [] then s
    else
      var m, ba := s.ba.wire[0], Channel(s.ba.wire[1..], s.ba.cq + [s.ba.wire[0]]);
      if m.Write? then
        if m.off + m.len > |s.a.recvBuf| || m.off + m.len > |s.b.sendBuf| then s.(fault := true)
        else s.(a := s.a.(recvBuf := Store(s.a.recvBuf, m.off, s.b.sendBuf[m.off..m.off + m.len])), ba := ba)
      else s.(ba := ba)
  }

  /** a handles its oldest completion. */
  function PollA(s: System): System {
    if s.ba.cq == [] then s
    else
      var m, ba := s.ba.cq[0], s.ba.(cq := s.ba.cq[1..]);
      if m.Write? then
        if !ImmFits(s.a, m.len) then s.(fault := true)
        else s.(a := HandleRecvImm(s.a, m.len), ba := ba)
      else s.(a := HandleRecv(s.a, m), ba := ba)
  }

  /** The caller is shown the range of the receive buffer that it is handed. */
  function ReadA(s: System): System {
    if s.a.recvOffset >= s.a.rxOffset || s.a.lent.Some? then s
    else
      var (a, (from, to)) := ReadZC(s.a);
      if !(from <= to <= |s.a.recvBuf|) then s.(fault := true)
      else s.(a := a, shownA := s.shownA + s.a.recvBuf[from..to])
  }

  /** The caller has used the bytes it was lent: what the buffer holds now is what it got. */
  function DoneA(s: System): System {
    if s.a.lent.None? then s
    else if !(s.a.lent.value <= s.a.recvOffset <= |s.a.recvBuf|) then s.(fault := true)
    else
      var got := s.a.recvBuf[s.a.lent.value..s.a.recvOffset];
      var (a, m) := ReadZCDone(s.a);
      s.(a := a, ab := if m.Some? then Post(s.ab, m.value) else s.ab, deliveredA := s.deliveredA + got)
  }

  /** An event at peer a (true) or b (false). */
  function Step(s: System, atA: bool, e: Event): System {
    if atA then StepA(s, e) else Mirror(StepA(Mirror(s), e))
  }

  /** After connecting, both peers have allocated their buffers and sent their first registration. */
  function Initial(lengthA: nat, lengthB: nat): System {
    System(Side(0, 0, [], Zeros(lengthA), 0, 0, None), Side(0, 0, [], Zeros(lengthB), 0, 0, None),
           Channel([Register(lengthA)], []), Channel([Register(lengthB)], []), [], [], [], [], [], [], false)
  }

  function Run(s: System, events: seq<(bool, Event)>): System {
    if events == [] then s
    else Step(Run(s, events[..|events| - 1]), events[|events| - 1].0, events[|events| - 1].1)
  }

  // ------------------------------------------------------------------ the invariant

  function Writes(ms: seq<Msg>): seq<Msg> {
    if ms == [] then [] else (if ms[0].Write? then [ms[0]] else []) + Writes(ms[1..])
  }

  function Registers(ms: seq<Msg>): seq<Msg> {
    if ms == [] then [] else (if ms[0].Register? then [ms[0]] else []) + Registers(ms[1..])
  }

  lemma {:induction false} FilterAppend(ms: seq<Msg>, m: Msg)
    ensures Writes(ms + [m]) == Writes(ms) + (if m.Write? then [m] else [])
    ensures Registers(ms + [m]) == Registers(ms) + (if m.Register? then [m] else [])
  {
    if ms != [] {
      FilterAppend(ms[1..], m);
      assert (ms + [m])[1..] == ms[1..] + [m];
    } else {
      assert (ms + [m])[1..] == [];
    }
  }

  /** The writes follow each other without a gap, each starting inside the buffer. */
  predicate Chain(ws: seq<Msg>, from: nat, to: nat, length: nat) {
    if ws == [] then from == to
    else ws[0].Write? && ws[0].off == from < length && Chain(ws[1..], from + ws[0].len, to, length)
  }

  lemma {:induction false} ChainAppend(ws: seq<Msg>, from: nat, mid: nat, length: nat, m: Msg)
    requires Chain(ws, from, mid, length) && m.Write? && m.off == mid < length
    ensures Chain(ws + [m], from, mid + m.len, length)
  {
    if ws != [] {
      ChainAppend(ws[1..], from + ws[0].len, mid, length, m);
      assert (ws + [m])[1..] == ws[1..] + [m];
    } else {
      assert (ws + [m])[1..] == [];
    }
  }

  lemma {:induction false} ChainUp(ws: seq<Msg>, from: nat, to: nat, length: nat)
    requires Chain(ws, from, to, length)
    ensures from <= to && (from >= length ==> ws == [])
  {
    if ws != [] {
      ChainUp(ws[1..], from + ws[0].len, to, length);
    }
  }

  function Base(r: Side): nat {
    if r.lent.Some? then r.lent.value else r.recvOffset
  }

  /** A registration of r's buffer is on its way to w, which waits for it: nothing is in flight,
      and everything written has been delivered. */
  predicate Waiting(w: Side, r: Side, regs: seq<Msg>, cqW: seq<Msg>, wireW: seq<Msg>, written: seq<Byte>, delivered: seq<Byte>) {
    && regs == [Register(|r.recvBuf|)] && w.txOffset == w.txLength && cqW == [] && wireW == []
    && r.rxOffset == 0 && r.recvOffset == 0 && r.lent == None && written == delivered
  }

  /** w owns r's buffer from txOffset on. Up to `placed` the stream is in r's buffer, from there
      on it is still in w's send buffer. */
  predicate Flowing(w: Side, r: Side, regs: seq<Msg>, cqW: seq<Msg>, wireW: seq<Msg>, written: seq<Byte>, delivered: seq<Byte>, placed: nat) {
    && regs == [] && w.txLength == |r.recvBuf| == |w.sendBuf|
    && Chain(cqW, r.rxOffset, placed, w.txLength) && Chain(wireW, placed, w.txOffset, w.txLength)
    && Base(r) <= r.recvOffset <= r.rxOffset <= placed <= w.txOffset <= w.txLength
    && (r.lent.None? ==> r.recvOffset < w.txLength)
    && written == delivered + r.recvBuf[Base(r)..placed] + w.sendBuf[placed..w.txOffset]
  }

  /** The stream from w to r, over the channel `fwd` and with registrations coming back on `back`. */
  ghost predicate Stream(w: Side, r: Side, fwd: Channel, back: Channel, written: seq<Byte>, delivered: seq<Byte>) {
    var regs := Registers(back.cq) + Registers(back.wire);
    && |r.recvBuf| > 0
    && (Waiting(w, r, regs, Writes(fwd.cq), Writes(fwd.wire), written, delivered)
        || exists placed: nat :: Flowing(w, r, regs, Writes(fwd.cq), Writes(fwd.wire), written, delivered, placed))
  }

  /** The caller was shown what was delivered, and what it is lent, as the buffer holds it now. */
  predicate Shows(r: Side, shown: seq<Byte>, delivered: seq<Byte>) {
    Base(r) <= r.recvOffset <= |r.recvBuf| && shown == delivered + r.recvBuf[Base(r)..r.recvOffset]
  }

  ghost predicate Inv(s: System) {
    && !s.fault && Shows(s.a, s.shownA, s.deliveredA) && Shows(s.b, s.shownB, s.deliveredB)
    && Stream(s.a, s.b, s.ab, s.ba, s.writtenA, s.deliveredB)
    && Stream(s.b, s.a, s.ba, s.ab, s.writtenB, s.deliveredA)
  }

  // ------------------------------------------------------------------ every step keeps it

  /** What a stream does not mention does not matter to it. */
  lemma StreamFrame(w: Side, r: Side, fwd: Channel, back: Channel, w': Side, r': Side, fwd': Channel, back': Channel,
                    written: seq<Byte>, delivered: seq<Byte>)
    requires Stream(w, r, fwd, back, written, delivered)
    requires w'.txLength == w.txLength && w'.txOffset == w.txOffset && w'.sendBuf == w.sendBuf
    requires r'.recvBuf == r.recvBuf && r'.rxOffset == r.rxOffset && r'.recvOffset == r.recvOffset && r'.lent == r.lent
    requires Writes(fwd'.cq) == Writes(fwd.cq) && Writes(fwd'.wire) == Writes(fwd.wire)
    requires Registers(back'.cq) + Registers(back'.wire) == Registers(back.cq) + Registers(back.wire)
    ensures Stream(w', r', fwd', back', written, delivered)
  {
    var regs := Registers(back.cq) + Registers(back.wire);
    if !Waiting(w, r, regs, Writes(fwd.cq), Writes(fwd.wire), written, delivered) {
      var placed: nat :| Flowing(w, r, regs, Writes(fwd.cq), Writes(fwd.wire), written, delivered, placed);
      assert Flowing(w', r', regs, Writes(fwd'.cq), Writes(fwd'.wire), written, delivered, placed);
    }
  }

  lemma SliceStore(s: seq<Byte>, off: nat, data: seq<Byte>, from: nat)
    requires from <= off && off + |data| <= |s|
    ensures Store(s, off, data)[from..off + |data|] == s[from..off] + data
    ensures Store(s, off, data)[off + |data|..] == s[off + |data|..]
  {
  }

  lemma SliceJoin(s: seq<Byte>, i: nat, j: nat, k: nat)
    requires i <= j <= k <= |s|
    ensures s[i..j] + s[j..k] == s[i..k]
  {
  }

  /** Sending stays within the credit, the send buffer and the receive buffer. */
  lemma SendKeeps(w: Side, r: Side, fwd: Channel, back: Channel, written: seq<Byte>, delivered: seq<Byte>, data: seq<Byte>)
    requires Stream(w, r, fwd, back, written, delivered) && w.txOffset < w.txLength
    ensures SendFits(w, ToWrite(w, data))
    ensures var n := ToWrite(w, data);
            var (w', m) := Send(w, data[..n]);
            Stream(w', r, Post(fwd, m), back, written + data[..n], delivered)
  {
    var n := ToWrite(w, data);
    var regs, cqW, wireW := Registers(back.cq) + Registers(back.wire), Writes(fwd.cq), Writes(fwd.wire);
    var placed: nat :| Flowing(w, r, regs, cqW, wireW, written, delivered, placed);
    var (w', m) := Send(w, data[..n]);
    FilterAppend(fwd.wire, m);
    ChainAppend(wireW, placed, w.txOffset, w.txLength, m);
    SliceStore(w.sendBuf, w.txOffset, data[..n], placed);
    Regroup(delivered + r.recvBuf[Base(r)..placed], w.sendBuf[placed..w.txOffset], data[..n]);
    assert Flowing(w', r, regs, cqW, wireW + [m], written + data[..n], delivered, placed);
  }

  /** Moving the oldest message from the wire into memory loses and reorders nothing. */
  lemma PlaceMoves(c: Channel)
    requires c.wire != []
    ensures Registers(c.cq + [c.wire[0]]) + Registers(c.wire[1..]) == Registers(c.cq) + Registers(c.wire)
    ensures c.wire[0].Write? ==> Writes(c.cq + [c.wire[0]]) == Writes(c.cq) + [c.wire[0]] && Writes(c.wire) == [c.wire[0]] + Writes(c.wire[1..])
    ensures !c.wire[0].Write? ==> Writes(c.cq + [c.wire[0]]) == Writes(c.cq) && Writes(c.wire) == Writes(c.wire[1..])
  {
    FilterAppend(c.cq, c.wire[0]);
    Regroup(Registers(c.cq), if c.wire[0].Register? then [c.wire[0]] else [], Registers(c.wire[1..]));
  }

  /** The oldest write in flight continues the stream where the placed part ends. */
  lemma NextPlaced(w: Side, r: Side, regs: seq<Msg>, cqW: seq<Msg>, wireW: seq<Msg>, written: seq<Byte>, delivered: seq<Byte>,
                   placed: nat)
    requires Flowing(w, r, regs, cqW, wireW, written, delivered, placed) && wireW != []
    ensures var m := wireW[0];
            && m.Write? && m.off == placed && placed + m.len <= w.txOffset
            && var r' := r.(recvBuf := Store(r.recvBuf, placed, w.sendBuf[placed..placed + m.len]));
            && Flowing(w, r', regs, cqW + [m], wireW[1..], written, delivered, placed + m.len)
  {
    hide Store;
    var m := wireW[0];
    var end := placed + m.len;
    ChainUp(wireW[1..], end, w.txOffset, w.txLength);
    ChainAppend(cqW, r.rxOffset, placed, w.txLength, m);
    hide Chain;
    PlacedBytes(delivered, r.recvBuf, w.sendBuf, Base(r), placed, end, w.txOffset);
  }

  lemma PlacedBytes(delivered: seq<Byte>, recvBuf: seq<Byte>, sendBuf: seq<Byte>, base: nat, placed: nat, end: nat, txOffset: nat)
    requires base <= placed <= end <= |recvBuf| && end <= txOffset <= |sendBuf|
    ensures delivered + recvBuf[base..placed] + sendBuf[placed..txOffset]
         == delivered + Store(recvBuf, placed, sendBuf[placed..end])[base..end] + sendBuf[end..txOffset]
  {
    hide Store;
    var data := sendBuf[placed..end];
    SliceStore(recvBuf, placed, data, base);
    SliceJoin(sendBuf, placed, end, txOffset);
    StreamSplit(delivered, recvBuf[base..placed], data, sendBuf[end..txOffset]);
  }

  /** A remote write hits exactly the free part of the buffer, and carries the next bytes. */
  lemma PlaceKeeps(w: Side, r: Side, fwd: Channel, back: Channel, written: seq<Byte>, delivered: seq<Byte>)
    requires Stream(w, r, fwd, back, written, delivered) && fwd.wire != [] && fwd.wire[0].Write?
    ensures var m := fwd.wire[0];
            m.off + m.len <= |r.recvBuf| && m.off + m.len <= |w.sendBuf| && Base(r) <= r.rxOffset <= m.off
    ensures var m := fwd.wire[0];
            var r' := r.(recvBuf := Store(r.recvBuf, m.off, w.sendBuf[m.off..m.off + m.len]));
            Stream(w, r', Channel(fwd.wire[1..], fwd.cq + [m]), back, written, delivered)
  {
    hide Registers, Writes, Store, Chain;
    var regs, cqW, wireW := Registers(back.cq) + Registers(back.wire), Writes(fwd.cq), Writes(fwd.wire);
    PlaceMoves(fwd);
    var placed: nat :| Flowing(w, r, regs, cqW, wireW, written, delivered, placed);
    assert wireW[0] == fwd.wire[0] && wireW[1..] == Writes(fwd.wire[1..]);
    NextPlaced(w, r, regs, cqW, wireW, written, delivered, placed);
  }

  lemma StreamSplit(a: seq<Byte>, b: seq<Byte>, c: seq<Byte>, d: seq<Byte>)
    ensures a + b + (c + d) == a + (b + c) + d
  {
  }

  /** Handling a write's completion uncovers its bytes; the assertion on the length holds. */
  lemma ImmKeeps(w: Side, r: Side, fwd: Channel, back: Channel, written: seq<Byte>, delivered: seq<Byte>)
    requires Stream(w, r, fwd, back, written, delivered) && fwd.cq != [] && fwd.cq[0].Write?
    ensures ImmFits(r, fwd.cq[0].len)
    ensures Stream(w, HandleRecvImm(r, fwd.cq[0].len), fwd.(cq := fwd.cq[1..]), back, written, delivered)
  {
    var regs, cqW, wireW := Registers(back.cq) + Registers(back.wire), Writes(fwd.cq), Writes(fwd.wire);
    var placed: nat :| Flowing(w, r, regs, cqW, wireW, written, delivered, placed);
    var m, rest := fwd.cq[0], Writes(fwd.cq[1..]);
    assert cqW[0] == m && cqW[1..] == rest;
    ChainUp(rest, r.rxOffset + m.len, placed, w.txLength);
    assert Flowing(w, HandleRecvImm(r, m.len), regs, rest, wireW, written, delivered, placed);
  }

  /** A registration reaches a writer that has used up its buffer and has nothing in flight. */
  lemma RegisterKeeps(w: Side, r: Side, fwd: Channel, back: Channel, written: seq<Byte>, delivered: seq<Byte>)
    requires Stream(w, r, fwd, back, written, delivered) && back.cq != [] && back.cq[0].Register?
    ensures w.txOffset == w.txLength && Writes(fwd.cq) == [] && Writes(fwd.wire) == []
    ensures Stream(HandleRecv(w, back.cq[0]), r, fwd, back.(cq := back.cq[1..]), written, delivered)
  {
    var m := back.cq[0];
    var regs, cqW, wireW := Registers(back.cq) + Registers(back.wire), Writes(fwd.cq), Writes(fwd.wire);
    assert Registers(back.cq) == [m] + Registers(back.cq[1..]);
    assert regs[0] == m;
    assert Waiting(w, r, regs, cqW, wireW, written, delivered);
    var w' := HandleRecv(w, m);
    assert Registers(back.cq[1..]) + Registers(back.wire) == [] by { assert |regs| == 1; }
    assert Flowing(w', r, [], cqW, wireW, written, delivered, 0);
  }

  lemma ReadKeeps(w: Side, r: Side, fwd: Channel, back: Channel, written: seq<Byte>, delivered: seq<Byte>)
    requires Stream(w, r, fwd, back, written, delivered) && r.recvOffset < r.rxOffset && r.lent.None?
    ensures r.rxOffset <= |r.recvBuf| && Stream(w, ReadZC(r).0, fwd, back, written, delivered)
  {
    var regs, cqW, wireW := Registers(back.cq) + Registers(back.wire), Writes(fwd.cq), Writes(fwd.wire);
    var placed: nat :| Flowing(w, r, regs, cqW, wireW, written, delivered, placed);
    assert Flowing(w, ReadZC(r).0, regs, cqW, wireW, written, delivered, placed);
  }

  /** The lent bytes are delivered; a used up buffer is registered only when everything that was
      written has been read. */
  lemma DoneKeeps(w: Side, r: Side, fwd: Channel, back: Channel, written: seq<Byte>, delivered: seq<Byte>)
    requires Stream(w, r, fwd, back, written, delivered) && r.lent.Some?
    ensures r.lent.value <= r.recvOffset <= |r.recvBuf|
    ensures var (r', m) := ReadZCDone(r);
            Stream(w, r', fwd, if m.Some? then Post(back, m.value) else back, written, delivered + r.recvBuf[r.lent.value..r.recvOffset])
  {
    hide Registers, Writes, Chain;
    var regs, cqW, wireW := Registers(back.cq) + Registers(back.wire), Writes(fwd.cq), Writes(fwd.wire);
    var placed: nat :| Flowing(w, r, regs, cqW, wireW, written, delivered, placed);
    var (r', m) := ReadZCDone(r);
    var got := r.recvBuf[r.lent.value..r.recvOffset];
    SliceJoin(r.recvBuf, r.lent.value, r.recvOffset, placed);
    Regroup(delivered, got, r.recvBuf[r.recvOffset..placed]);
    if m.Some? {
      ChainUp(cqW, r.rxOffset, placed, w.txLength);
      ChainUp(wireW, placed, w.txOffset, w.txLength);
      FilterAppend(back.wire, m.value);
      assert Registers(back.cq) == [] && Registers(back.wire) == [];
      assert Waiting(w, r', [m.value], cqW, wireW, written, delivered + got);
    } else {
      assert Flowing(w, r', regs, cqW, wireW, written, delivered + got, placed);
    }
  }

  lemma SendStep(s: System, data: seq<Byte>)
    requires Inv(s)
    ensures Inv(SendA(s, data))
  {
    if s.a.txOffset < s.a.txLength {
      SendKeeps(s.a, s.b, s.ab, s.ba, s.writtenA, s.deliveredB, data);
      var s' := SendA(s, data);
      FilterAppend(s.ab.wire, s'.ab.wire[|s.ab.wire|]);
      StreamFrame(s.b, s.a, s.ba, s.ab, s'.b, s'.a, s'.ba, s'.ab, s.writtenB, s.deliveredA);
    }
  }

  lemma PlaceStep(s: System)
    requires Inv(s)
    ensures Inv(PlaceA(s))
  {
    if s.ba.wire != [] {
      PlaceMoves(s.ba);
      if s.ba.wire[0].Write? {
        PlaceKeeps(s.b, s.a, s.ba, s.ab, s.writtenB, s.deliveredA);
        var s' := PlaceA(s);
        StreamFrame(s.a, s.b, s.ab, s.ba, s'.a, s'.b, s'.ab, s'.ba, s.writtenA, s.deliveredB);
        var m := s.ba.wire[0];
        StreamBase(s.b, s.a, s.ba, s.ab, s.writtenB, s.deliveredA);
        StoreBelow(s.a.recvBuf, m.off, s.b.sendBuf[m.off..m.off + m.len], Base(s.a), s.a.recvOffset);
      } else {
        var s' := PlaceA(s);
        StreamFrame(s.b, s.a, s.ba, s.ab, s'.b, s'.a, s'.ba, s'.ab, s.writtenB, s.deliveredA);
        StreamFrame(s.a, s.b, s.ab, s.ba, s'.a, s'.b, s'.ab, s'.ba, s.writtenA, s.deliveredB);
      }
    }
  }

  lemma PollStep(s: System)
    requires Inv(s)
    ensures Inv(PollA(s))
  {
    if s.ba.cq != [] {
      var m := s.ba.cq[0];
      if m.Write? {
        ImmKeeps(s.b, s.a, s.ba, s.ab, s.writtenB, s.deliveredA);
        var s' := PollA(s);
        StreamFrame(s.a, s.b, s.ab, s.ba, s'.a, s'.b, s'.ab, s'.ba, s.writtenA, s.deliveredB);
      } else {
        var s' := PollA(s);
        StreamFrame(s.b, s.a, s.ba, s.ab, s'.b, s'.a, s'.ba, s'.ab, s.writtenB, s.deliveredA);
        if m.Register? {
          RegisterKeeps(s.a, s.b, s.ab, s.ba, s.writtenA, s.deliveredB);
        } else {
          StreamFrame(s.a, s.b, s.ab, s.ba, s'.a, s'.b, s'.ab, s'.ba, s.writtenA, s.deliveredB);
        }
      }
    }
  }

  lemma ReadStep(s: System)
    requires Inv(s)
    ensures Inv(ReadA(s))
  {
    if s.a.recvOffset < s.a.rxOffset && s.a.lent.None? {
      hide Stream;
      var s' := ReadA(s);
      ReadKeeps(s.b, s.a, s.ba, s.ab, s.writtenB, s.deliveredA);
      StreamFrame(s.a, s.b, s.ab, s.ba, s'.a, s'.b, s'.ab, s'.ba, s.writtenA, s.deliveredB);
    }
  }

  lemma DoneStep(s: System)
    requires Inv(s)
    ensures Inv(DoneA(s))
  {
    if s.a.lent.Some? {
      DoneKeeps(s.b, s.a, s.ba, s.ab, s.writtenB, s.deliveredA);
      var s' := DoneA(s);
      if ReadZCDone(s.a).1.Some? {
        FilterAppend(s.ab.wire, ReadZCDone(s.a).1.value);
      }
      StreamFrame(s.a, s.b, s.ab, s.ba, s'.a, s'.b, s'.ab, s'.ba, s.writtenA, s.deliveredB);
    }
  }

  lemma StepKeepsA(s: System, e: Event)
    requires Inv(s)
    ensures Inv(StepA(s, e))
  {
    var s' := StepA(s, e);
    match e {
      case DoSend(data) => SendStep(s, data);
      case DoPlace => PlaceStep(s);
      case DoPoll => PollStep(s);
      case DoDone => DoneStep(s);
      case DoRead => ReadStep(s);
      case DoKeepalive =>
        FilterAppend(s.ab.wire, Keepalive);
        StreamFrame(s.b, s.a, s.ba, s.ab, s'.b, s'.a, s'.ba, s'.ab, s.writtenB, s.deliveredA);
        StreamFrame(s.a, s.b, s.ab, s.ba, s'.a, s'.b, s'.ab, s'.ba, s.writtenA, s.deliveredB);
    }
  }

  /** The invariant holds in every state of every run, so no assertion and no bound ever fails. */
  lemma {:induction false} RunKeeps(lengthA: nat, lengthB: nat, events: seq<(bool, Event)>)
    requires lengthA > 0 && lengthB > 0
    ensures Inv(Run(Initial(lengthA, lengthB), events))
  {
    var s0 := Initial(lengthA, lengthB);
    if events == [] {
      assert Waiting(s0.a, s0.b, [Register(lengthB)], [], [], [], []);
      assert Waiting(s0.b, s0.a, [Register(lengthA)], [], [], [], []);
    } else {
      var n := |events| - 1;
      RunKeeps(lengthA, lengthB, events[..n]);
      var s := Run(s0, events[..n]);
      if events[n].0 {
        StepKeepsA(s, events[n].1);
      } else {
        StepKeepsA(Mirror(s), events[n].1);
      }
    }
  }

  // ------------------------------------------------------------------ what it means

  predicate Prefix(p: seq<Byte>, s: seq<Byte>) {
    |p| <= |s| && p == s[..|p|]
  }

  /** What a writer may rely on: what b's caller was shown, every byte once and in order, is a prefix of
      what a wrote, and what it had when it was done is a prefix of that; at most one registration is under way to a, and then a has used up its buffer and has no write in flight. */
  ghost predicate Safe(s: System) {
    var regs := Registers(s.ba.cq) + Registers(s.ba.wire);
    && Prefix(s.shownB, s.writtenA) && Prefix(s.deliveredB, s.shownB) && s.a.txOffset <= s.a.txLength && s.b.rxOffset <= |s.b.recvBuf|
    && |regs| <= 1
    && (|regs| == 1 ==> s.a.txOffset == s.a.txLength && Writes(s.ab.cq) == [] && Writes(s.ab.wire) == [])
  }

  /** Every run is safe in both directions, and none violates an assertion or a bound. */
  lemma Safety(lengthA: nat, lengthB: nat, events: seq<(bool, Event)>)
    requires lengthA > 0 && lengthB > 0
    ensures var s := Run(Initial(lengthA, lengthB), events);
            !s.fault && Safe(s) && Safe(Mirror(s))
  {
    RunKeeps(lengthA, lengthB, events);
    var s := Run(Initial(lengthA, lengthB), events);
    StreamPrefix(s.a, s.b, s.ab, s.ba, s.writtenA, s.shownB, s.deliveredB);
    StreamPrefix(s.b, s.a, s.ba, s.ab, s.writtenB, s.shownA, s.deliveredA);
  }

  lemma StreamPrefix(w: Side, r: Side, fwd: Channel, back: Channel, written: seq<Byte>, shown: seq<Byte>, delivered: seq<Byte>)
    requires Stream(w, r, fwd, back, written, delivered) && Shows(r, shown, delivered)
    ensures Prefix(shown, written) && Prefix(delivered, shown) && w.txOffset <= w.txLength && r.rxOffset <= |r.recvBuf|
  {
    var regs, cqW, wireW := Registers(back.cq) + Registers(back.wire), Writes(fwd.cq), Writes(fwd.wire);
    if !Waiting(w, r, regs, cqW, wireW, written, delivered) {
      var placed: nat :| Flowing(w, r, regs, cqW, wireW, written, delivered, placed);
      SliceJoin(r.recvBuf, Base(r), r.recvOffset, placed);
      Regroup(delivered, r.recvBuf[Base(r)..r.recvOffset], r.recvBuf[r.recvOffset..placed]);
      Regroup(shown, r.recvBuf[r.recvOffset..placed], w.sendBuf[placed..w.txOffset]);
    }
  }

  /** What r was lent or has not read yet is within its buffer, and still there afterwards. */
  predicate Untouched(r: Side, after: Side) {
    && Base(r) <= r.rxOffset <= |r.recvBuf|
    && |after.recvBuf| == |r.recvBuf| && Base(after) == Base(r) && r.rxOffset <= after.rxOffset
    && after.recvBuf[Base(r)..r.rxOffset] == r.recvBuf[Base(r)..r.rxOffset]
  }

  lemma StepUntouched(s: System, atA: bool, e: Event)
    requires Inv(s) && (atA ==> e != DoDone)
    ensures Untouched(s.a, Step(s, atA, e).a)
  {
    hide Registers, Writes, Store, Flowing, Waiting;
    StreamBase(s.b, s.a, s.ba, s.ab, s.writtenB, s.deliveredA);
    if !atA {
      OnlyOwnSide(Mirror(s), e);
    } else if e == DoPlace {
      PlaceElsewhere(s);
    }
  }

  lemma UntouchedOn(r: Side, mid: Side, after: Side)
    requires Untouched(r, mid) && Untouched(mid, after)
    ensures Untouched(r, after)
  {
    Narrower(after.recvBuf, mid.recvBuf, Base(r), r.rxOffset, mid.rxOffset);
  }

  lemma Narrower(s: seq<Byte>, t: seq<Byte>, from: nat, to: nat, end: nat)
    requires from <= to <= end <= |s| == |t| && s[from..end] == t[from..end]
    ensures s[from..to] == t[from..to]
  {
    assert s[from..to] == s[from..end][..to - from];
    assert t[from..to] == t[from..end][..to - from];
  }

  /** Whatever happens at either peer, no byte that a was lent or has not read yet is changed
      until a says it is done with what it was lent. */
  lemma {:induction false} UnreadUntouched(lengthA: nat, lengthB: nat, events: seq<(bool, Event)>, more: seq<(bool, Event)>)
    requires lengthA > 0 && lengthB > 0 && (true, DoDone) !in more
    ensures Untouched(Run(Initial(lengthA, lengthB), events).a, Run(Initial(lengthA, lengthB), events + more).a)
    decreases |more|
  {
    hide Inv, StepA, Untouched;
    var s0 := Initial(lengthA, lengthB);
    RunKeeps(lengthA, lengthB, events);
    var s := Run(s0, events);
    if more == [] {
      assert events + more == events;
      Unmoved(s);
    } else {
      var n := |more| - 1;
      var before, last := events + more[..n], more[n];
      UnreadUntouched(lengthA, lengthB, events, more[..n]);
      RunKeeps(lengthA, lengthB, before);
      assert (events + more)[..|events| + n] == before && (events + more)[|events| + n] == last;
      assert last in more;
      StepUntouched(Run(s0, before), last.0, last.1);
      UntouchedOn(s.a, Run(s0, before).a, Run(s0, events + more).a);
    }
  }

  lemma Unmoved(s: System)
    requires Inv(s)
    ensures Untouched(s.a, s.a)
  {
    StreamBase(s.b, s.a, s.ba, s.ab, s.writtenB, s.deliveredA);
  }

  lemma PlaceElsewhere(s: System)
    requires Inv(s) && Base(s.a) <= s.a.rxOffset <= |s.a.recvBuf|
    ensures Untouched(s.a, PlaceA(s).a)
  {
    if s.ba.wire != [] && s.ba.wire[0].Write? {
      var m := s.ba.wire[0];
      PlaceKeeps(s.b, s.a, s.ba, s.ab, s.writtenB, s.deliveredA);
      StoreBelow(s.a.recvBuf, m.off, s.b.sendBuf[m.off..m.off + m.len], Base(s.a), s.a.rxOffset);
    }
  }

  /** An event at one peer does not touch the other peer's memory or offsets. */
  lemma OnlyOwnSide(s: System, e: Event)
    ensures StepA(s, e).b == s.b
  {
  }

  lemma StoreBelow(s: seq<Byte>, off: nat, data: seq<Byte>, from: nat, to: nat)
    requires from <= to <= off && off + |data| <= |s|
    ensures Store(s, off, data)[from..to] == s[from..to]
  {
  }

  lemma StreamBase(w: Side, r: Side, fwd: Channel, back: Channel, written: seq<Byte>, delivered: seq<Byte>)
    requires Stream(w, r, fwd, back, written, delivered)
    ensures Base(r) <= r.recvOffset <= r.rxOffset <= |r.recvBuf|
  {
  }

  /** Nothing gets lost or stuck: once both channels are empty and b has read all it was sent,
      b was shown and delivered everything a wrote, and a has room to write more. */
  lemma Quiescent(lengthA: nat, lengthB: nat, events: seq<(bool, Event)>)
    requires lengthA > 0 && lengthB > 0
    requires var s := Run(Initial(lengthA, lengthB), events);
             s.ab == Channel([], []) && s.ba == Channel([], []) && s.b.lent.None? && s.b.recvOffset == s.b.rxOffset
    ensures var s := Run(Initial(lengthA, lengthB), events);
            s.shownB == s.deliveredB == s.writtenA && s.a.txOffset < s.a.txLength
  {
    RunKeeps(lengthA, lengthB, events);
    var s := Run(Initial(lengthA, lengthB), events);
    var placed: nat :| Flowing(s.a, s.b, [], [], [], s.writtenA, s.deliveredB, placed);
    assert s.b.recvBuf[Base(s.b)..placed] == [] && s.a.sendBuf[placed..s.a.txOffset] == [];
  }

  // ------------------------------------------------------------------ the context in memory

  /** `memcpy` of data to buf + off. */
  method CopyTo(buf: array<Byte>, off: nat, data: seq<Byte>)
    requires off + |data| <= buf.Length
    modifies buf
    ensures buf[..] == Store(old(buf[..]), off, data)
  {
    var i := 0;
    while i < |data|
      invariant 0 <= i <= |data|
      invariant forall k :: 0 <= k < i ==> buf[off + k] == data[k]
      invariant forall k :: 0 <= k < off || off + i <= k < buf.Length ==> buf[k] == old(buf[k])
    {
      buf[off + i] := data[i];
      i := i + 1;
    }
  }

  /** The connection context: its buffers are updated in place, messages go to the queue pair. */
  class RdmaContext {
    var txLength: nat
    var txOffset: nat
    var sendBuf: array<Byte>
    var recvBuf: array<Byte>
    var rxOffset: nat
    var recvOffset: nat
    ghost var lent: Option<nat>
    var posted: seq<Msg>

    ghost function Abs(): Side
      reads this, sendBuf, recvBuf
    {
      Side(txLength, txOffset, sendBuf[..], recvBuf[..], rxOffset, recvOffset, lent)
    }

    /** Connection set-up: buffers allocated, the receive buffer registered. */
    constructor (length: nat)
      ensures Abs() == Side(0, 0, [], Zeros(length), 0, 0, None) && posted == [Register(length)]
      ensures fresh(sendBuf) && fresh(recvBuf) && sendBuf != recvBuf
    {
      txLength, txOffset, rxOffset, recvOffset, lent := 0, 0, 0, 0, None;
      sendBuf := new Byte[0];
      recvBuf := new Byte[length](_ => 0);
      posted := [Register(length)];
    }

    method PostRegister()
      modifies this`rxOffset, this`recvOffset, this`posted
      ensures var (s, m) := RegisterRx(old(Abs()));
              Abs() == s && posted == old(posted) + [m]
    {
      rxOffset, recvOffset := 0, 0;
      posted := posted + [Register(recvBuf.Length)];
    }

    method Receive(m: Msg)
      modifies this`txLength, this`txOffset, this`sendBuf
      ensures Abs() == HandleRecv(old(Abs()), m)
      ensures sendBuf == old(sendBuf) || fresh(sendBuf)
    {
      if m.Register? {
        txLength, txOffset := m.length, 0;
        if m.length != sendBuf.Length {
          sendBuf := new Byte[m.length](_ => 0);
        }
      }
    }

    method ReceiveImm(n: nat)
      requires ImmFits(Abs(), n)
      modifies this`rxOffset
      ensures Abs() == HandleRecvImm(old(Abs()), n)
    {
      rxOffset := rxOffset + n;
    }

    /** The bytes read, as a range of the receive buffer: all that has arrived and was not read before. */
    method BeginRead() returns (r: Option<(nat, nat)>)
      requires lent.None?
      modifies this`recvOffset, this`lent
      ensures if old(recvOffset) < old(rxOffset)
              then var (s, range) := ReadZC(old(Abs())); Abs() == s && r == Some(range)
              else r == None && Abs() == old(Abs())
      ensures r.Some? ==> lent == Some(r.value.0) && r.value == (old(recvOffset), recvOffset)
      ensures recvOffset >= rxOffset
    {
      if recvOffset < rxOffset {
        r := Some((recvOffset, rxOffset));
        lent := Some(recvOffset);
        recvOffset := rxOffset;
      } else {
        r := None;
      }
    }

    method EndRead()
      modifies this`rxOffset, this`recvOffset, this`lent, this`posted
      ensures var (s, m) := ReadZCDone(old(Abs()));
              Abs() == s && posted == old(posted) + if m.Some? then [m.value] else []
    {
      lent := None;
      if recvOffset == recvBuf.Length {
        PostRegister();
      }
    }

    method SendBytes(data: seq<Byte>)
      requires SendFits(Abs(), |data|)
      modifies this`txOffset, this`posted, sendBuf
      ensures var (s, m) := Send(old(Abs()), data);
              txLength == s.txLength && txOffset == s.txOffset && sendBuf[..] == s.sendBuf && posted == old(posted) + [m]
    {
      CopyTo(sendBuf, txOffset, data);
      posted := posted + [Write(txOffset, |data|)];
      txOffset := txOffset + |data|;
    }

    /** The loop of `valkeyRdmaWrite` up to where it has to wait: everything is sent, or the
        credit is used up. */
    method WriteBytes(data: seq<Byte>) returns (wrote: nat)
      requires txOffset <= txLength && txLength == sendBuf.Length && txOffset < txLength
      modifies this`txOffset, this`posted, sendBuf
      ensures wrote == ToWrite(old(Abs()), data) && SendFits(old(Abs()), wrote)
      ensures wrote == |data| || txOffset == txLength
      ensures var (s, m) := Send(old(Abs()), data[..wrote]);
              txOffset == s.txOffset && sendBuf[..] == s.sendBuf && posted == old(posted) + [m]
    {
      wrote := Min(txLength - txOffset, |data|);
      SendBytes(data[..wrote]);
    }
  }
}
