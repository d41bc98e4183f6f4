/** The CTCI driver as a concurrent step system (src/nsfctcib.c, with the pass of src/nsfevt.c and
    src/nsfdev.c around it and the channel of src/nsfctcio_host.c under it).

    Four agents share un-locked flags and event control blocks (ECBs): the executive's pass, the
    read subtask, the write subtask and the channel. Every access to a shared flag, every clear or
    post of an ECB and every start of channel I/O is one atomic step; words only one agent touches
    ride along with the step that reads or writes them. */
module CtciMachine {
  import opened Options
  import opened Bytes
  import opened Codec

  const POST_NORMAL: Byte := 0x7F
  const POST_PURGED: Byte := 0x48
  const BUF_MAX: nat := 0xFFFF
  const SENDQ_MAX: nat := 32
  const INJECT_MAX: nat := 8
  const EVT_POOL: nat := 128
  const DRAIN_BUDGET: nat := 64

  /** A packet buffer: on the way out `id` numbers the `dev_send` call that handed it over, on the way in
      the `buf_alloc` that supplied it. */
  datatype Pbuf = Pbuf(id: nat, data: Octets)

  /** What becomes of a decoded packet: no buffer left; a buffer too small for it; no event to carry the
      buffer; or handed up. */
  datatype Fate = NoBuffer | NoRoom | NoEvent | Up

  // ---- the executive's pass ------------------------------------------------------------------

  datatype ExecPc =
    | Gate | GateWrite | Blocked                                // the WAIT gate and the WAIT
    | ClearWake | ClearDev                                      // reset the wake ECB, then dev->ecb
    | TestReady | DecodeBlock | ClearReady | SetHold            // service: read half
    | TestWready | Reap | ClearWready | ClearTxbusy             // service: write half
    | Handlers                                                  // dispatch up to the drain budget
    | Kick | TestArmed | SetHalting | HaltRead                  // kick: park the READ
    | Dequeue | EncodePacket | SetTxbusy | PostGo               // kick: start one WRITE
    | ClearHold | ClearHalting | PostReturn                     // kick: release the READ
    | SetStop | StopRecb | StopWecb | StopReturn | StopGo | Join | FreeTx | Flush | Down

  datatype Exec = Exec(
    pc: ExecPc,
    rhold: bool, halting: bool, txbusy: bool,
    hand: Option<Pbuf>,                   // dequeued by kick, not yet encoded or dropped
    txpbuf: Option<Pbuf>, txlen: nat,     // in flight
    sendq: seq<Pbuf>,
    evq: seq<Pbuf>, budget: nat,          // the buffers of the queued inbound events, what is left of the drain budget
    retained: bool)                       // a subtask would not stop: storage kept

  // ---- the read subtask and its channel --------------------------------------------------------

  datatype ReadPc =
    | RTop | RClearRecb | RExcp                                 // about to start a READ
    | RSetArmed | RPostArmed | RStopA | RTestA | RBlockA        // READ started, waiting on recb
    | RClearArmed | RStatus | RClearReturn | RSetReady          // completion in hand
    | RPostReady | RStopB | RTestB | RBlockB                    // handed up, waiting on returnecb
    | RClose | REnd

  /** A READ not started or fully completed; outstanding; completed with its ECB post on the way. */
  datatype Chan = Idle | Out | Posting

  datatype ReadSide = ReadSide(
    pc: ReadPc,
    rready: bool, rarmed: bool, rpost: Byte, rlen: nat,
    recb: bool, returnecb: bool,
    ch: Chan, chPost: Byte, chResid: nat,
    inq: seq<Octets>, force: Option<(Byte, nat)>,
    rbuf: Octets)

  // ---- the write subtask and its channel -------------------------------------------------------

  datatype WritePc =
    | WTop | WStopG | WTestG | WBlockG                          // waiting on txgoecb
    | WClearGo | WTestStop | WClearWecb | WExcp                 // about to start a WRITE
    | WStopC | WTestC | WBlockC                                 // WRITE started, waiting on wecb
    | WStatus | WSetReady                                       // completion in hand
    | WPostReady
    | WClose | WEnd

  datatype WriteSide = WriteSide(
    pc: WritePc,
    wready: bool, wpost: Byte,
    wecb: bool, txgoecb: bool,
    ch: Chan, chPost: Byte,
    wbuf: Octets,
    onwire: bool)                         // the block now in wbuf has been started on the channel

  // ---- histories, for stating what was handed over ---------------------------------------------

  /** Of every packet decoded, what became of it; of the inbound buffers, how many were allocated, which
      the decode freed again, and which were dispatched to their handler, who owns them from there. */
  datatype Receipts = Receipts(fates: seq<Fate>, allocs: nat, freed: seq<nat>, handed: seq<Pbuf>)

  datatype History = History(
    completed: seq<Octets>,               // data of every READ the channel completed normally
    decoded: seq<Octets>,                 // data of every block the executive decoded
    started: nat,                         // READs started
    lastHalt: nat,                        // number of the READ the latest halt was aimed at
    sends: nat,                           // dev_send calls so far
    accepted: seq<Octets>,                // packets dev_send queued
    taken: seq<Octets>,                   // packets kick encoded or dropped
    wire: seq<Octets>,                    // blocks the WRITEs carried
    freed: multiset<nat>,                 // ids of the PBUFs freed
    rx: Receipts,
    out: nat, oerr: nat, inp: nat, ierr: nat, rpurge: nat)

  datatype State = State(
    bufsize: nat,
    x: Exec, r: ReadSide, w: WriteSide,
    devecb: bool, wakeecb: bool, stop: bool,
    h: History)

  // ---- actions -----------------------------------------------------------------------------------

  datatype Action =
    // internal steps
    | ExecStep(fates: seq<Fate>)          // `fates`: what becomes of the packets, where a block is decoded
    | ReadStep
    | WriteStep
    | ReadPosts                           // the channel's post of recb arrives
    | WriteEnds(code: Byte)               // the channel finishes the WRITE
    | WritePosts                          // ... and its post of wecb arrives
    // the environment
    | Frame(blk: Octets)                  // an inbound block reaches the channel
    | Force(code: Byte, resid: nat)       // the next READ completion is an error or is short
    | Send(data: Octets)                  // a handler calls dev_send
    | Wake                                // any other source posts its ECB
    | Stop                                // orderly shutdown begins
    | PollRead | PollWrite                // a subtask's timed wait expires
    | JoinTimeout

  predicate Internal(a: Action) {
    a.ExecStep? || a.ReadStep? || a.WriteStep? || a.ReadPosts? || a.WriteEnds? || a.WritePosts?
  }

  // ---- lengths ------------------------------------------------------------------------------------

  /** The length `buf_chain_len` reports: a halfword. */
  function IpLen(data: Octets): (n: nat)
    ensures n <= |data|
  {
    |data| % 0x1_0000
  }

  predicate Fits(bufsize: nat, data: Octets) {
    0 < IpLen(data) && HDR + SEG + IpLen(data) + HDR <= bufsize <= BUF_MAX
  }

  function FrameOf(bufsize: nat, data: Octets): (f: Octets)
    requires Fits(bufsize, data)
    ensures |f| == HDR + SEG + IpLen(data) + HDR <= bufsize
  {
    Codec.Frame(data[..IpLen(data)])
  }

  /** The blocks a run of packets puts on the wire: each packet that fits, encoded, in order. */
  function Frames(bufsize: nat, ps: seq<Octets>): (fs: seq<Octets>) {
    if ps == [] then []
    else
      var p := ps[|ps| - 1];
      Frames(bufsize, ps[..|ps| - 1]) + if Fits(bufsize, p) then [FrameOf(bufsize, p)] else []
  }

  function Datas(q: seq<Pbuf>): (ds: seq<Octets>)
    ensures |ds| == |q|
  {
    seq(|q|, i requires 0 <= i < |q| => q[i].data)
  }

  function Ids(q: seq<Pbuf>): multiset<nat> {
    if q == [] then multiset{} else Ids(q[..|q| - 1]) + multiset{q[|q| - 1].id}
  }

  function OptIds(p: Option<Pbuf>): multiset<nat> {
    if p.Some? then multiset{p.value.id} else multiset{}
  }

  function OptData(p: Option<Pbuf>): seq<Octets> {
    if p.Some? then [p.value.data] else []
  }

  /** How many of the packets take a buffer out of the pool. */
  function Taken(fates: seq<Fate>): (n: nat)
    ensures n <= |fates|
  {
    if fates == [] then 0 else Taken(fates[..|fates| - 1]) + if fates[|fates| - 1].NoBuffer? then 0 else 1
  }

  /** How many are handed up. */
  function Ups(fates: seq<Fate>): (n: nat)
    ensures n <= |fates|
  {
    if fates == [] then 0 else Ups(fates[..|fates| - 1]) + if fates[|fates| - 1].Up? then 1 else 0
  }

  /** The buffers that go up, the first allocated being number `id`. */
  function HandedUp(ps: seq<Octets>, fates: seq<Fate>, id: nat): (bs: seq<Pbuf>)
    requires |ps| == |fates|
    ensures |bs| == Ups(fates)
  {
    if fates == [] then []
    else
      var n := |fates| - 1;
      HandedUp(ps[..n], fates[..n], id) + if fates[n].Up? then [Pbuf(id + Taken(fates[..n]), ps[n])] else []
  }

  /** The buffers that go straight back to the pool. */
  function Returned(fates: seq<Fate>, id: nat): seq<nat> {
    if fates == [] then []
    else
      var n := |fates| - 1;
      Returned(fates[..n], id) + if fates[n].NoRoom? || fates[n].NoEvent? then [id + Taken(fates[..n])] else []
  }

  function ChLen(bufsize: nat, resid: nat): nat {
    if resid <= bufsize then bufsize - resid else 0
  }

  // ---- the channel ---------------------------------------------------------------------------------

  /** A block lands in the read buffer and the completion status is set; the ECB post follows. */
  function Complete(s: State, blk: Octets): State
    requires |s.r.rbuf| == s.bufsize
  {
    var n := if |blk| <= s.bufsize then |blk| else s.bufsize;
    var rbuf := Overlay(s.r.rbuf, 0, blk[..n]);
    var (code, resid) := if s.r.force.Some? then s.r.force.value else (POST_NORMAL, s.bufsize - n);
    var h := if code == POST_NORMAL
             then s.h.(completed := s.h.completed + [rbuf[..ChLen(s.bufsize, resid)]]) else s.h;
    s.(r := s.r.(ch := Posting, chPost := code, chResid := resid, force := None, rbuf := rbuf), h := h)
  }

  // ---- the executive ---------------------------------------------------------------------------------

  predicate ExecEnabled(s: State, fates: seq<Fate>) {
    match s.x.pc
    case Blocked => s.devecb || s.wakeecb
    case DecodeBlock =>
      if s.r.rpost == POST_NORMAL && s.r.rlen <= |s.r.rbuf|
      then |fates| == |Decode(s.r.rbuf[..s.r.rlen])| && |s.x.evq| + Ups(fates) <= EVT_POOL
      else fates == []
    case EncodePacket => s.x.hand.Some? && |s.w.wbuf| == s.bufsize <= BUF_MAX
    case Join => s.r.pc.REnd? && s.w.pc.WEnd?
    case Down => false
    case _ => true
  }

  predicate AtService(pc: ExecPc) {
    || pc.TestReady? || pc.DecodeBlock? || pc.ClearReady? || pc.SetHold?
    || pc.TestWready? || pc.Reap? || pc.ClearWready? || pc.ClearTxbusy?
  }

  function Received(rx: Receipts, fates: seq<Fate>): Receipts {
    rx.(fates := rx.fates + fates, allocs := rx.allocs + Taken(fates), freed := rx.freed + Returned(fates, rx.allocs))
  }

  /** The account of one block decoded. */
  function Decoded(h: History, blk: Octets, fates: seq<Fate>): History {
    h.(decoded := h.decoded + [blk], rx := Received(h.rx, fates),
       inp := h.inp + Ups(fates), ierr := h.ierr + (|fates| - Ups(fates)))
  }

  /** The filled read block, decoded if it carries data, else counted by its post code. */
  function Unpack(s: State, fates: seq<Fate>): State
    requires s.x.pc.DecodeBlock? && ExecEnabled(s, fates)
  {
    if s.r.rpost == POST_NORMAL && s.r.rlen <= |s.r.rbuf| then
      var blk := s.r.rbuf[..s.r.rlen];
      s.(x := s.x.(pc := ClearReady, evq := s.x.evq + HandedUp(Decode(blk), fates, s.h.rx.allocs)), h := Decoded(s.h, blk, fates))
    else
      var h := if s.r.rpost == POST_PURGED then s.h.(rpurge := s.h.rpurge + 1)
               else if s.r.rpost == POST_NORMAL then s.h
               else s.h.(ierr := s.h.ierr + 1);
      s.(x := s.x.(pc := ClearReady), h := h)
  }

  /** `ctci_io_service`: consume a filled read block, then reap a completed WRITE. */
  function DoService(s: State, fates: seq<Fate>): State
    requires ExecEnabled(s, fates) && AtService(s.x.pc)
  {
    match s.x.pc
    case TestReady => s.(x := s.x.(pc := if s.r.rready then DecodeBlock else TestWready))
    case DecodeBlock => Unpack(s, fates)
    case ClearReady => s.(x := s.x.(pc := SetHold), r := s.r.(rready := false))
    case SetHold => s.(x := s.x.(pc := TestWready, rhold := true))
    case TestWready => s.(x := s.x.(pc := if s.w.wready && s.x.txbusy then Reap else Handlers, budget := DRAIN_BUDGET))
    case Reap =>
      var h := if s.w.wpost == POST_NORMAL then s.h.(out := s.h.out + 1) else s.h.(oerr := s.h.oerr + 1);
      s.(x := s.x.(pc := ClearWready, txpbuf := None), h := h.(freed := h.freed + OptIds(s.x.txpbuf)))
    case ClearWready => s.(x := s.x.(pc := ClearTxbusy), w := s.w.(wready := false))
    case ClearTxbusy => s.(x := s.x.(pc := Handlers, txbusy := false))
  }

  predicate AtPark(pc: ExecPc) { pc.Kick? || pc.TestArmed? || pc.SetHalting? || pc.HaltRead? }

  /** `ctci_io_kick` up to the READ being parked. */
  function DoPark(s: State): State
    requires AtPark(s.x.pc)
  {
    match s.x.pc
    case Kick =>
      s.(x := s.x.(pc := if s.x.txbusy then Gate
                         else if s.x.rhold then Dequeue
                         else if s.x.sendq != [] && !s.x.halting then TestArmed
                         else Gate))
    case TestArmed => s.(x := s.x.(pc := if s.r.rarmed then SetHalting else Gate))
    case SetHalting => s.(x := s.x.(pc := HaltRead, halting := true))
    case HaltRead =>
      s.(x := s.x.(pc := Gate), h := s.h.(lastHalt := s.h.started),
         r := if s.r.ch.Out? then s.r.(ch := Posting, chPost := POST_PURGED, chResid := s.bufsize) else s.r)
  }

  predicate AtSend(pc: ExecPc) { pc.Dequeue? || pc.EncodePacket? || pc.SetTxbusy? || pc.PostGo? }

  /** `ctci_io_kick` with the READ parked: drop what does not fit, start at most one WRITE. */
  function DoSend(s: State): State
    requires AtSend(s.x.pc) && (s.x.pc.EncodePacket? ==> s.x.hand.Some? && |s.w.wbuf| == s.bufsize <= BUF_MAX)
  {
    match s.x.pc
    case Dequeue =>
      if s.x.sendq == [] then s.(x := s.x.(pc := ClearHold))
      else s.(x := s.x.(pc := EncodePacket, hand := Some(s.x.sendq[0]), sendq := s.x.sendq[1..]))
    case EncodePacket =>
      var p := s.x.hand.value;
      var h := s.h.(taken := s.h.taken + [p.data]);
      if !Fits(s.bufsize, p.data) then
        s.(x := s.x.(pc := Dequeue, hand := None),
           h := h.(oerr := h.oerr + 1, freed := h.freed + multiset{p.id}))
      else
        s.(x := s.x.(pc := SetTxbusy, hand := None, txpbuf := Some(p), txlen := HDR + SEG + IpLen(p.data) + HDR),
           w := s.w.(wbuf := Overlay(s.w.wbuf, 0, FrameOf(s.bufsize, p.data)), onwire := false),
           h := h)
    case SetTxbusy => s.(x := s.x.(pc := PostGo, txbusy := true))
    case PostGo => s.(x := s.x.(pc := Gate), w := s.w.(txgoecb := true))
  }

  predicate AtRelease(pc: ExecPc) { pc.ClearHold? || pc.ClearHalting? || pc.PostReturn? }

  /** `ctci_io_kick` once outbound work has drained: release the held READ. */
  function DoRelease(s: State): State
    requires AtRelease(s.x.pc)
  {
    match s.x.pc
    case ClearHold => s.(x := s.x.(pc := ClearHalting, rhold := false))
    case ClearHalting => s.(x := s.x.(pc := PostReturn, halting := false))
    case PostReturn => s.(x := s.x.(pc := Gate), r := s.r.(returnecb := true))
  }

  predicate AtShutdown(pc: ExecPc) {
    pc.SetStop? || pc.StopRecb? || pc.StopWecb? || pc.StopReturn? || pc.StopGo? || pc.Join? || pc.FreeTx? || pc.Flush?
  }

  /** `ctci_stop_and_join`, `ctci_op_shutdown` and the flush of `dev_shutdown`. */
  function DoShutdown(s: State): State
    requires AtShutdown(s.x.pc)
  {
    match s.x.pc
    case SetStop => s.(x := s.x.(pc := StopRecb), stop := true)
    case StopRecb => s.(x := s.x.(pc := StopWecb), r := s.r.(recb := true))
    case StopWecb => s.(x := s.x.(pc := StopReturn), w := s.w.(wecb := true))
    case StopReturn => s.(x := s.x.(pc := StopGo), r := s.r.(returnecb := true))
    case StopGo => s.(x := s.x.(pc := Join), w := s.w.(txgoecb := true))
    case Join => s.(x := s.x.(pc := FreeTx))
    case FreeTx =>
      s.(x := s.x.(pc := Flush, txpbuf := None), h := s.h.(freed := s.h.freed + OptIds(s.x.txpbuf)))
    case Flush =>
      s.(x := s.x.(pc := Down, sendq := []), h := s.h.(freed := s.h.freed + Ids(s.x.sendq)))
  }

  /** One event to its handler, with the buffer it carries. */
  function HandOver(s: State): State
    requires s.x.evq != [] && s.x.budget > 0
  {
    var rx := s.h.rx.(handed := s.h.rx.handed + [s.x.evq[0]]);
    s.(x := s.x.(evq := s.x.evq[1..], budget := s.x.budget - 1), h := s.h.(rx := rx))
  }

  predicate AtPass(pc: ExecPc) {
    pc.Gate? || pc.GateWrite? || pc.Blocked? || pc.ClearWake? || pc.ClearDev? || pc.Handlers?
  }

  /** The WAIT gate, the resets and the dispatch of one pass of the main loop. */
  function DoPass(s: State): State
    requires AtPass(s.x.pc)
  {
    match s.x.pc
    case Gate => s.(x := s.x.(pc := if s.x.evq != [] || s.r.rready then ClearWake else GateWrite))
    case GateWrite => s.(x := s.x.(pc := if s.w.wready && s.x.txbusy then ClearWake else Blocked))
    case Blocked => s.(x := s.x.(pc := ClearWake))
    case ClearWake => s.(x := s.x.(pc := ClearDev), wakeecb := false)
    case ClearDev => s.(x := s.x.(pc := TestReady), devecb := false)
    case Handlers =>
      if s.x.evq != [] && s.x.budget > 0 then HandOver(s) else s.(x := s.x.(pc := Kick))
  }

  function DoExec(s: State, fates: seq<Fate>): State
    requires ExecEnabled(s, fates)
  {
    if AtPass(s.x.pc) then DoPass(s)
    else if AtService(s.x.pc) then DoService(s, fates)
    else if AtPark(s.x.pc) then DoPark(s)
    else if AtSend(s.x.pc) then DoSend(s)
    else if AtRelease(s.x.pc) then DoRelease(s)
    else DoShutdown(s)
  }

  // ---- the read subtask -------------------------------------------------------------------------------

  predicate ReadEnabled(s: State) {
    match s.r.pc
    case RExcp => |s.r.rbuf| == s.bufsize
    case RBlockA => s.r.recb
    case RBlockB => s.r.returnecb
    case REnd => false
    case _ => true
  }

  /** The EXCP of a READ: a block already waiting completes it at once. */
  function StartRead(s: State): State
    requires |s.r.rbuf| == s.bufsize
  {
    var t := s.(r := s.r.(pc := RSetArmed, recb := false), h := s.h.(started := s.h.started + 1));
    if s.r.inq != [] then Complete(t.(r := t.r.(inq := t.r.inq[1..])), s.r.inq[0])
    else t.(r := t.r.(ch := Out))
  }

  function DoRead(s: State): State
    requires ReadEnabled(s)
  {
    match s.r.pc
    case RTop => s.(r := s.r.(pc := if s.stop then RClose else RClearRecb))
    case RClearRecb => s.(r := s.r.(pc := RExcp, recb := false))
    case RExcp => StartRead(s)
    case RSetArmed => s.(r := s.r.(pc := RPostArmed, rarmed := true))
    case RPostArmed => s.(r := s.r.(pc := RStopA), devecb := true)
    case RStopA => s.(r := s.r.(pc := if s.stop then RClose else RTestA))
    case RTestA => s.(r := s.r.(pc := if s.r.recb then RClearArmed else RBlockA))
    case RBlockA => s.(r := s.r.(pc := RStopA))
    case RClearArmed => s.(r := s.r.(pc := RStatus, rarmed := false))
    case RStatus => s.(r := s.r.(pc := RClearReturn, rpost := s.r.chPost, rlen := ChLen(s.bufsize, s.r.chResid)))
    case RClearReturn => s.(r := s.r.(pc := RSetReady, returnecb := false))
    case RSetReady => s.(r := s.r.(pc := RPostReady, rready := true))
    case RPostReady => s.(r := s.r.(pc := RStopB), devecb := true)
    case RStopB => s.(r := s.r.(pc := if s.stop then RClose else RTestB))
    case RTestB => s.(r := s.r.(pc := if s.r.returnecb then RTop else RBlockB))
    case RBlockB => s.(r := s.r.(pc := RStopB))
    case RClose => s.(r := s.r.(pc := REnd, ch := if s.r.ch.Out? then Idle else s.r.ch, inq := []))
  }

  // ---- the write subtask ------------------------------------------------------------------------------

  predicate WriteEnabled(s: State) {
    match s.w.pc
    case WBlockG => s.w.txgoecb
    case WBlockC => s.w.wecb
    case WExcp => s.x.txlen <= |s.w.wbuf|
    case WEnd => false
    case _ => true
  }

  function DoWrite(s: State): State
    requires WriteEnabled(s)
  {
    match s.w.pc
    case WTop => s.(w := s.w.(pc := if s.stop then WClose else WStopG))
    case WStopG => s.(w := s.w.(pc := if s.stop then WClose else WTestG))
    case WTestG => s.(w := s.w.(pc := if s.w.txgoecb then WClearGo else WBlockG))
    case WBlockG => s.(w := s.w.(pc := WStopG))
    case WClearGo => s.(w := s.w.(pc := WTestStop, txgoecb := false))
    case WTestStop => s.(w := s.w.(pc := if s.stop then WClose else WClearWecb))
    case WClearWecb => s.(w := s.w.(pc := WExcp, wecb := false))
    case WExcp =>
      s.(w := s.w.(pc := WStopC, ch := Out, wecb := false, onwire := true),
         h := s.h.(wire := s.h.wire + [s.w.wbuf[..s.x.txlen]]))
    case WStopC => s.(w := s.w.(pc := if s.stop then WClose else WTestC))
    case WTestC => s.(w := s.w.(pc := if s.w.wecb then WStatus else WBlockC))
    case WBlockC => s.(w := s.w.(pc := WStopC))
    case WStatus => s.(w := s.w.(pc := WSetReady, wpost := s.w.chPost))
    case WSetReady => s.(w := s.w.(pc := WPostReady, wready := true))
    case WPostReady => s.(w := s.w.(pc := WTop), devecb := true)
    case WClose => s.(w := s.w.(pc := WEnd, ch := if s.w.ch.Out? then Idle else s.w.ch))
  }

  // ---- one step of the whole system ------------------------------------------------------------------

  predicate Enabled(s: State, a: Action) {
    match a
    case ExecStep(fates) => ExecEnabled(s, fates)
    case ReadStep => ReadEnabled(s)
    case WriteStep => WriteEnabled(s)
    case ReadPosts => s.r.ch.Posting?
    case WriteEnds(code) => s.w.ch.Out?
    case WritePosts => s.w.ch.Posting?
    case Frame(blk) => |s.r.rbuf| == s.bufsize
    case Force(code, resid) => true
    case Send(data) => s.x.pc.Gate? || s.x.pc.Handlers?
    case Wake => true
    case Stop => s.x.pc.Gate?
    case PollRead => s.r.pc.RBlockA? || s.r.pc.RBlockB?
    case PollWrite => s.w.pc.WBlockG? || s.w.pc.WBlockC?
    case JoinTimeout => s.x.pc.Join?
  }

  function Step(s: State, a: Action): State
    requires Enabled(s, a)
  {
    match a
    case ExecStep(fates) => DoExec(s, fates)
    case ReadStep => DoRead(s)
    case WriteStep => DoWrite(s)
    case ReadPosts => s.(r := s.r.(ch := Idle, recb := true))
    case WriteEnds(code) => s.(w := s.w.(ch := Posting, chPost := code))
    case WritePosts => s.(w := s.w.(ch := Idle, wecb := true))
    case Frame(blk) =>
      if s.r.ch.Out? then Complete(s, blk)
      else if |s.r.inq| < INJECT_MAX then s.(r := s.r.(inq := s.r.inq + [blk]))
      else s
    case Force(code, resid) => s.(r := s.r.(force := Some((code, resid))))
    case Send(data) =>
      var h := s.h.(sends := s.h.sends + 1);
      if |s.x.sendq| >= SENDQ_MAX then
        s.(h := h.(oerr := h.oerr + 1, freed := h.freed + multiset{s.h.sends}))
      else
        s.(x := s.x.(sendq := s.x.sendq + [Pbuf(s.h.sends, data)]), wakeecb := true,
           h := h.(accepted := h.accepted + [data]))
    case Wake => s.(wakeecb := true)
    case Stop => s.(x := s.x.(pc := SetStop))
    case PollRead => s.(r := s.r.(pc := if s.r.pc.RBlockA? then RStopA else RStopB))
    case PollWrite => s.(w := s.w.(pc := if s.w.pc.WBlockG? then WStopG else WStopC))
    case JoinTimeout => s.(x := s.x.(pc := Flush, retained := true))
  }

  /** Both subchannels opened, both subtasks started, the loop about to make its first pass. */
  function Init(bufsize: nat, rbuf: Octets, wbuf: Octets): State {
    State(bufsize,
      Exec(Gate, false, false, false, None, None, 0, [], [], 0, false),
      ReadSide(RTop, false, false, 0, 0, false, false, Idle, 0, 0, [], None, rbuf),
      WriteSide(WTop, false, 0, false, false, Idle, 0, wbuf, false),
      false, false, false,
      History([], [], 0, 0, 0, [], [], [], multiset{}, Receipts([], 0, [], []), 0, 0, 0, 0, 0))
  }

  ghost predicate Initial(s: State) {
    && HDR + SEG + HDR < s.bufsize <= BUF_MAX
    && |s.r.rbuf| == |s.w.wbuf| == s.bufsize
    && s == Init(s.bufsize, s.r.rbuf, s.w.wbuf)
  }

  ghost predicate Run(ss: seq<State>, acts: seq<Action>) {
    && |ss| == |acts| + 1
    && forall i :: 0 <= i < |acts| ==> Enabled(ss[i], acts[i]) && ss[i + 1] == Step(ss[i], acts[i])
  }

  ghost predicate Reachable(s: State) {
    exists ss: seq<State>, acts: seq<Action> :: Run(ss, acts) && Initial(ss[0]) && ss[|acts|] == s
  }
}
