/**
  The UDP handle (`src/uv_udp.c`). It takes its self-reference without testing
  the bit: `setCallback` relies on `READ_START` alone. `UdpSteps` says what each
  call and event does, `UdpRuns` what every run keeps, and `UdpHandles` does it
  in place.
*/
module UdpSteps {
  import opened Basics
  import opened Callbacks
  import opened Streams

  /** libuv's side: buffers accepted for sending, those completed, and the requests and buffers
      allocated, freed and lost. */
  datatype UdpUv = UdpUv(receiving: bool, closes: nat, closed: bool, accepted: seq<seq<byte>>, completed: nat,
                         requests: nat, requestsFreed: nat, buffers: nat, buffersFreed: nat, lost: nat)

  datatype UdpCall = RecvCall(data: seq<byte>) | RecvError(nread: int) | SendCall(status: int)

  /** The handle; of the flags only the first three bits exist. `hasObject`: the zval that callbacks get
      as their first argument has been set, which only a successful `setCallback` does. */
  datatype Udp = Udp(hasObject: bool, flags: Flags, refs: Refs, slots: Slots, sock: Cache, uv: UdpUv, log: seq<UdpCall>)

  const UDP_SLOTS := 3

  /** The part of `release` before the self-reference. */
  function StopUdp(h: Udp): Udp {
    h.(sock := ReleaseCache(Tcp, h.sock),
       flags := h.flags.(readStart := false, handleStart := false),
       uv := h.uv.(receiving := h.uv.receiving && !h.flags.readStart && !h.flags.handleStart))
  }

  /** `release`. */
  function ReleaseUdp(h: Udp): Udp
    decreases Bit(h.flags.internalRef), 0
  {
    var s := StopUdp(h);
    if s.flags.internalRef then
      DropUdp(s.(flags := s.flags.(internalRef := false), refs := s.refs.(dropped := s.refs.dropped + 1)))
    else s
  }

  function DropUdp(h: Udp): Udp
    decreases Bit(h.flags.internalRef), 2
  {
    var s := h.(refs := h.refs.(count := h.refs.count - 1));
    if s.refs.count == 0 then FreeUdp(s) else s
  }

  /** `freeUVUdpResource`. */
  function FreeUdp(h: Udp): Udp
    decreases Bit(h.flags.internalRef), 1
  {
    var s := ReleaseUdp(h.(refs := h.refs.(freed := h.refs.freed + 1,
                                           freedWhilePinned := h.refs.freedWhilePinned || h.flags.internalRef)));
    s.(slots := FreeFirst(s.slots, UDP_SLOTS))
  }

  /** `ZVAL_COPY` of the object: one more reference, whatever the bit says. */
  function PinUdp(h: Udp): Udp {
    h.(hasObject := true, flags := h.flags.(internalRef := true, handleStart := true, readStart := true),
       refs := h.refs.(count := h.refs.count + 1, taken := h.refs.taken + 1),
       uv := h.uv.(receiving := true))
  }

  function SetUdpCallback(h: Udp, fns: Parsed, recvRet: int): (Udp, Ret) {
    if h.flags.readStart then (h, Long(-1))
    else
      var s := ParseCallbacks(h.slots, fns);
      if |fns| < 3 then (h.(slots := s), Null)
      else if recvRet != 0 then (h.(slots := s), Long(recvRet))
      else (PinUdp(h.(slots := OwnCallbacks(s))), Long(0))
  }

  datatype BindArgs = BindArgs(host: string, addrRet: int, bindRet: int)

  function BindTo(h: Udp, args: Option<BindArgs>): (Udp, Ret) {
    match args
    case None => (h, Null)
    case Some(a) =>
      if BadHost(Tcp, a.host) then (h, Long(-1))
      else if a.addrRet != 0 then (h, Long(a.addrRet))
      else if a.bindRet != 0 then (h, Long(a.bindRet))
      else (h.(flags := h.flags.(handleStart := true)), Long(0))
  }

  datatype SendArgs = SendArgs(host: string, message: seq<byte>, addrRet: int, sendRet: int)

  function SendTo(h: Udp, args: Option<SendArgs>): (Udp, Ret) {
    match args
    case None => (h, Null)
    case Some(a) =>
      if BadHost(Tcp, a.host) then (h, Long(-1))
      else
        var u := h.uv.(requests := h.uv.requests + 1);
        if a.addrRet != 0 then (h.(uv := u.(requestsFreed := u.requestsFreed + 1)), Long(a.addrRet))
        else
          var v := u.(buffers := u.buffers + 1);
          (h.(uv := if a.sendRet == 0 then v.(accepted := v.accepted + [a.message]) else v.(lost := v.lost + 1)),
           Long(a.sendRet))
  }

  datatype UdpAct =
    | CopyUdp
    | DropUdpRef
    | CloseUdp
    | Bind(bindArgs: Option<BindArgs>)
    | UdpCallback(fns: Parsed, recvRet: int)
    | Send(args: Option<SendArgs>)
    | GetName(reply: NameReply)

  predicate UdpCallable(h: Udp) {
    h.refs.freed == 0 && h.refs.external + h.refs.frames > 0
  }

  /** One call of user code; `close` is called at most once. */
  function PerformUdp(h: Udp, a: UdpAct): Udp {
    if !UdpCallable(h) then h
    else match a
      case CopyUdp => h.(refs := h.refs.(count := h.refs.count + 1, external := h.refs.external + 1))
      case DropUdpRef =>
        if h.refs.external == 0 then h else DropUdp(h.(refs := h.refs.(external := h.refs.external - 1)))
      case CloseUdp => if h.uv.closes > 0 then h else h.(uv := h.uv.(closes := h.uv.closes + 1))
      case Bind(args) => BindTo(h, args).0
      case UdpCallback(fns, ret) => SetUdpCallback(h, fns, ret).0
      case Send(args) => SendTo(h, args).0
      case GetName(reply) => h.(sock := Resolve(Tcp, h.sock, reply))
  }

  function RunUdpScript(h: Udp, script: seq<UdpAct>): Udp
    decreases |script|
  {
    if script == [] then h else RunUdpScript(PerformUdp(h, script[0]), script[1..])
  }

  /** The arguments of the callback hold a reference, if there is an object to pass. */
  function EnterUdp(h: Udp, call: UdpCall): Udp {
    var s := h.(log := h.log + [call]);
    if h.hasObject then s.(refs := s.refs.(count := s.refs.count + 1, frames := s.refs.frames + 1)) else s
  }

  function LeaveUdp(h: Udp, held: bool): Udp {
    if held then DropUdp(h.(refs := h.refs.(frames := h.refs.frames - 1))) else h
  }

  function CallUdp(h: Udp, slot: Slot, call: UdpCall, script: seq<UdpAct>): Udp {
    if h.slots.cell[slot].None? then h
    else LeaveUdp(RunUdpScript(EnterUdp(h, call), script), h.hasObject)
  }

  datatype UdpEvent =
    | UdpCode(script: seq<UdpAct>)
    | Received(nread: int, data: seq<byte>, script: seq<UdpAct>)
    | Sent(status: int, script: seq<UdpAct>)
    | UdpClosed

  /** libuv owes the event. */
  predicate UdpDue(u: UdpUv, e: UdpEvent) {
    !u.closed &&
    match e
    case UdpCode(_) => false
    case Received(_, _, _) => u.receiving && u.closes == 0
    case Sent(_, _) => u.completed < |u.accepted|
    case UdpClosed => u.closes > 0 && u.completed >= |u.accepted|
  }

  predicate UdpEnabled(h: Udp, e: UdpEvent) {
    e.UdpCode? || (h.refs.freed == 0 && UdpDue(h.uv, e))
  }

  function StepUdp(h: Udp, e: UdpEvent): Udp {
    if !UdpEnabled(h, e) then h
    else match e
      case UdpCode(script) => RunUdpScript(h, script)
      case Received(nread, data, script) =>
        if nread > 0 then CallUdp(h, READ, RecvCall(data), script) else CallUdp(h, ERROR, RecvError(nread), script)
      case Sent(status, script) =>
        var s := CallUdp(h, WRITE, SendCall(status), script);
        s.(uv := s.uv.(completed := s.uv.completed + 1, requestsFreed := s.uv.requestsFreed + 1,
                       buffersFreed := s.uv.buffersFreed + 1))
      case UdpClosed => ReleaseUdp(h.(uv := h.uv.(closed := true)))
  }

  function RunUdp(h: Udp, events: seq<UdpEvent>): Udp
    decreases |events|
  {
    if events == [] then h else RunUdp(StepUdp(h, events[0]), events[1..])
  }
}

module UdpRuns {
  import opened Basics
  import opened Callbacks
  import opened Streams
  import opened StreamSteps
  import opened Ownership
  import opened UdpSteps

  /** `INTERNAL_REF` equals `READ_START`, so that the latter guards the self-reference; and libuv
      receives only under that bit. */
  ghost predicate Coupled(f: Flags, u: UdpUv) {
    f.internalRef == f.readStart && (f.readStart ==> f.handleStart) && (u.receiving ==> f.readStart)
  }

  ghost predicate UdpUvOk(u: UdpUv) {
    && u.completed <= |u.accepted| && u.closes <= 1
    && u.requests == u.requestsFreed + (|u.accepted| - u.completed) + u.lost
    && u.buffers == u.buffersFreed + (|u.accepted| - u.completed) + u.lost
  }

  ghost predicate UdpBare(h: Udp) {
    && !h.flags.handleStart && !IsCached(Tcp, h.sock)
    && h.slots.cell[READ].None? && h.slots.cell[WRITE].None? && h.slots.cell[ERROR].None?
  }

  ghost predicate UdpFilled(s: Slots) {
    s.cell[READ].Some? && s.cell[WRITE].Some? && s.cell[ERROR].Some?
  }

  /** With the ledgers: a handle that receives has its three callbacks. */
  ghost predicate UdpBalanced(h: Udp, owed: nat) {
    && LedgerOk(h.flags, h.refs, owed)
    && CacheOk(Tcp, h.sock)
    && UdpUvOk(h.uv)
    && (h.flags.readStart ==> UdpFilled(h.slots))
    && (h.refs.freed > 0 ==> UdpBare(h))
  }

  ghost predicate UdpInv(h: Udp) { UdpBalanced(h, 0) && Coupled(h.flags, h.uv) }

  lemma DropUdpKeeps(h: Udp)
    requires UdpBalanced(h, 1) && Coupled(h.flags, h.uv)
    ensures UdpInv(DropUdp(h)) && DropUdp(h).refs.frames == h.refs.frames
    ensures DropUdp(h).uv == h.uv.(receiving := DropUdp(h).uv.receiving)
    ensures DropUdp(h).flags.internalRef == h.flags.internalRef
  {
    var s := h.(refs := h.refs.(count := h.refs.count - 1));
    if s.refs.count == 0 {
      var t := s.(refs := s.refs.(freed := s.refs.freed + 1,
                                  freedWhilePinned := s.refs.freedWhilePinned || s.flags.internalRef));
      assert ReleaseUdp(t) == StopUdp(t);
    }
  }

  lemma StopUdpKeeps(h: Udp)
    requires UdpInv(h)
    ensures UdpBalanced(StopUdp(h), 0) && !StopUdp(h).flags.readStart && !StopUdp(h).uv.receiving
  {
  }

  lemma ReleaseUdpKeeps(h: Udp)
    requires UdpInv(h)
    ensures UdpInv(ReleaseUdp(h)) && !ReleaseUdp(h).flags.internalRef && ReleaseUdp(h).refs.frames == h.refs.frames
  {
    var s := StopUdp(h);
    StopUdpKeeps(h);
    if s.flags.internalRef {
      var t := s.(flags := s.flags.(internalRef := false), refs := s.refs.(dropped := s.refs.dropped + 1));
      assert UdpBalanced(t, 1) && Coupled(t.flags, t.uv);
      DropUdpKeeps(t);
    }
  }

  lemma SetUdpCallbackKeeps(h: Udp, fns: Parsed, recvRet: int)
    requires UdpInv(h) && h.refs.freed == 0
    ensures UdpInv(SetUdpCallback(h, fns, recvRet).0)
    ensures SetUdpCallback(h, fns, recvRet).0.refs.frames == h.refs.frames
    ensures h.flags.internalRef ==> SetUdpCallback(h, fns, recvRet).0.flags.internalRef
    ensures SetUdpCallback(h, fns, recvRet).0.uv == h.uv.(receiving := SetUdpCallback(h, fns, recvRet).0.uv.receiving)
  {
    if !h.flags.readStart && |fns| == 3 && recvRet == 0 {
      UdpCells(h.slots, fns);
      PinUdpKeeps(h, OwnCallbacks(ParseCallbacks(h.slots, fns)));
    }
  }

  lemma PinUdpKeeps(h: Udp, s: Slots)
    requires UdpInv(h) && h.refs.freed == 0 && !h.flags.readStart && UdpFilled(s)
    ensures UdpInv(PinUdp(h.(slots := s)))
  {
  }

  /** What user code keeps: the frames, the self-reference, and that nothing is completed meanwhile. */
  ghost predicate UdpSteady(h: Udp, k: Udp) {
    && k.refs.frames == h.refs.frames && (h.flags.internalRef ==> k.flags.internalRef)
    && k.uv.completed == h.uv.completed && h.uv.accepted <= k.uv.accepted
  }

  lemma SmallUdpKeeps(h: Udp, a: UdpAct)
    requires UdpInv(h) && UdpCallable(h) && (a.CopyUdp? || a.CloseUdp? || a.Bind? || a.GetName?)
    ensures UdpInv(PerformUdp(h, a)) && UdpSteady(h, PerformUdp(h, a))
  {
    assert PerformUdp(h, a).slots == h.slots;
  }

  lemma DropUdpRefKeeps(h: Udp)
    requires UdpInv(h) && UdpCallable(h) && h.refs.external > 0
    ensures UdpInv(PerformUdp(h, DropUdpRef)) && UdpSteady(h, PerformUdp(h, DropUdpRef))
  {
    var d := h.(refs := h.refs.(external := h.refs.external - 1));
    DropUdpKeeps(d);
    assert PerformUdp(h, DropUdpRef) == DropUdp(d);
  }

  lemma PerformUdpKeeps(h: Udp, a: UdpAct)
    requires UdpInv(h)
    ensures UdpInv(PerformUdp(h, a)) && UdpSteady(h, PerformUdp(h, a))
  {
    if UdpCallable(h) {
      match a
      case DropUdpRef => if h.refs.external > 0 { DropUdpRefKeeps(h); }
      case UdpCallback(fns, ret) =>
        SetUdpCallbackKeeps(h, fns, ret);
        assert PerformUdp(h, a) == SetUdpCallback(h, fns, ret).0;
      case Send(args) =>
        SendToKeeps(h, args);
        assert PerformUdp(h, a) == SendTo(h, args).0;
      case _ => SmallUdpKeeps(h, a);
    }
  }

  lemma SendToKeeps(h: Udp, args: Option<SendArgs>)
    requires UdpInv(h)
    ensures UdpInv(SendTo(h, args).0) && UdpSteady(h, SendTo(h, args).0)
  {
    var k := SendTo(h, args).0;
    assert k == h.(uv := k.uv);
    assert UdpUvOk(k.uv);
  }

  lemma {:induction false} UdpScriptKeeps(h: Udp, script: seq<UdpAct>)
    requires UdpInv(h)
    ensures UdpInv(RunUdpScript(h, script)) && UdpSteady(h, RunUdpScript(h, script))
    decreases |script|
  {
    if script != [] {
      PerformUdpKeeps(h, script[0]);
      UdpScriptKeeps(PerformUdp(h, script[0]), script[1..]);
    }
  }

  lemma LeaveUdpKeeps(r: Udp, held: bool)
    requires UdpInv(r) && (held ==> r.refs.frames > 0)
    ensures var k := LeaveUdp(r, held);
            && UdpInv(k) && k.refs.frames == r.refs.frames - Bit(held) && k.flags.internalRef == r.flags.internalRef
            && k.uv == r.uv.(receiving := k.uv.receiving)
  {
    if held {
      var d := r.(refs := r.refs.(frames := r.refs.frames - 1));
      assert UdpBalanced(d, 1);
      DropUdpKeeps(d);
    }
  }

  lemma EnterUdpKeeps(h: Udp, call: UdpCall)
    requires UdpInv(h) && h.refs.freed == 0
    ensures UdpInv(EnterUdp(h, call)) && EnterUdp(h, call).refs.frames == h.refs.frames + Bit(h.hasObject)
    ensures EnterUdp(h, call) == h.(log := EnterUdp(h, call).log, refs := EnterUdp(h, call).refs)
    ensures EnterUdp(h, call).refs.freed == 0 && EnterUdp(h, call).refs.external == h.refs.external
  {
  }

  lemma CallUdpKeeps(h: Udp, slot: Slot, call: UdpCall, script: seq<UdpAct>)
    requires UdpInv(h) && slot < UDP_SLOTS
    ensures UdpInv(CallUdp(h, slot, call, script)) && UdpSteady(h, CallUdp(h, slot, call, script))
  {
    if h.slots.cell[slot].Some? {
      var e := EnterUdp(h, call);
      EnterUdpKeeps(h, call);
      UdpScriptKeeps(e, script);
      LeaveUdpKeeps(RunUdpScript(e, script), h.hasObject);
      CallUdpUnfold(h, slot, call, script);
    }
  }

  lemma CallUdpUnfold(h: Udp, slot: Slot, call: UdpCall, script: seq<UdpAct>)
    requires h.slots.cell[slot].Some?
    ensures CallUdp(h, slot, call, script) == LeaveUdp(RunUdpScript(EnterUdp(h, call), script), h.hasObject)
  {
  }

  ghost predicate UdpSafe(h: Udp) { UdpInv(h) && h.refs.frames == 0 }

  lemma StepUdpSafe(h: Udp, e: UdpEvent)
    requires UdpSafe(h)
    ensures UdpSafe(StepUdp(h, e))
  {
    if UdpEnabled(h, e) {
      match e
      case UdpCode(script) => UdpScriptKeeps(h, script);
      case Received(nread, data, script) =>
        CallUdpKeeps(h, READ, RecvCall(data), script);
        CallUdpKeeps(h, ERROR, RecvError(nread), script);
      case Sent(status, script) => CallUdpKeeps(h, WRITE, SendCall(status), script);
      case UdpClosed => ReleaseUdpKeeps(h.(uv := h.uv.(closed := true)));
    }
  }

  lemma {:induction false} RunUdpSafe(h: Udp, events: seq<UdpEvent>)
    requires UdpSafe(h)
    ensures UdpSafe(RunUdp(h, events))
    decreases |events|
  {
    if events != [] {
      StepUdpSafe(h, events[0]);
      RunUdpSafe(StepUdp(h, events[0]), events[1..]);
    }
  }

  /** A handle after `__construct`. */
  ghost predicate UdpInitial(h: Udp) {
    && !h.flags.internalRef && !h.flags.handleStart && !h.flags.readStart
    && h.refs.count == h.refs.external == 1 && h.refs.frames == 0
    && h.refs.taken == h.refs.dropped && h.refs.freed == 0 && !h.refs.freedWhilePinned
    && h.sock.port == 0 && h.sock.made == h.sock.freed && h.sock.lost == 0
    && h.uv.completed == |h.uv.accepted| && h.uv.closes == 0
    && h.uv.requests == h.uv.requestsFreed && h.uv.buffers == h.uv.buffersFreed && h.uv.lost == 0
    && !h.hasObject && !h.uv.receiving && h.slots.borrowed == multiset{} && h.slots.taken == h.slots.dropped
    && forall i :: 0 <= i < SLOTS ==> h.slots.cell[i].None?
  }

  ghost predicate UdpReachable(h: Udp) {
    exists start: Udp, events: seq<UdpEvent> :: UdpInitial(start) && h == RunUdp(start, events)
  }

  lemma InitialUdpSafe(start: Udp)
    requires UdpInitial(start)
    ensures UdpSafe(start)
  {
  }

  lemma UdpReachableSafe(h: Udp)
    requires UdpReachable(h)
    ensures UdpSafe(h)
  {
    var start: Udp, events: seq<UdpEvent> :| UdpInitial(start) && h == RunUdp(start, events);
    InitialUdpSafe(start);
    RunUdpSafe(start, events);
  }

  /**
    The flag coupling. In every reachable state `INTERNAL_REF` equals
    `READ_START`; so a `setCallback` that gets past the `READ_START` guard finds
    no self-reference held, and the handle holds at most one.
  */
  lemma UdpFlagCoupling(h: Udp)
    requires UdpReachable(h)
    ensures h.flags.internalRef == h.flags.readStart && (h.flags.readStart ==> h.flags.handleStart)
    ensures h.refs.taken == h.refs.dropped + Bit(h.flags.readStart)
    ensures h.refs.count == h.refs.external + Bit(h.flags.readStart)
    ensures h.refs.freed == Bit(h.refs.count == 0) && !h.refs.freedWhilePinned
  {
    UdpReachableSafe(h);
  }

  /** Every send request and buffer is freed, in flight, or lost to a refused `uv_udp_send`. */
  lemma SendLedger(h: Udp)
    requires UdpReachable(h)
    ensures h.uv.requests == h.uv.requestsFreed + (|h.uv.accepted| - h.uv.completed) + h.uv.lost
    ensures h.uv.buffers == h.uv.buffersFreed + (|h.uv.accepted| - h.uv.completed) + h.uv.lost
  {
    UdpReachableSafe(h);
  }

  /** `setCallback` leaves the slots owned exactly if they were, unless it parses a counted callable and
      then does not start receiving. */
  lemma UdpCallbackOwnership(h: Udp, fns: Parsed, recvRet: int)
    requires Accounted(h.slots)
    ensures Owned(SetUdpCallback(h, fns, recvRet).0.slots)
        <==> if h.flags.readStart || (|fns| == 3 && recvRet == 0) then Owned(h.slots)
             else Owned(h.slots) && AllNamed(fns, |fns|)
  {
    ParseAccount(h.slots, fns);
    if |fns| == 3 { OwnAccount(h.slots, fns); }
    OwnedExactly(h.slots);
    OwnedExactly(SetUdpCallback(h, fns, recvRet).0.slots);
    NamesWeighNothing(fns, |fns|);
    NoneOfTwo(h.slots.borrowed, Weights(fns, |fns|));
  }

  /** Data and errors find the self-reference held, on every run, so that the handle outlives their callbacks. */
  lemma UdpReceivesPinned(h: Udp, e: UdpEvent)
    requires UdpReachable(h) && UdpEnabled(h, e) && e.Received?
    ensures h.flags.internalRef && StepUdp(h, e).flags.internalRef && StepUdp(h, e).refs.freed == 0
  {
    UdpReachableSafe(h);
    CallUdpKeeps(h, READ, RecvCall(e.data), e.script);
    CallUdpKeeps(h, ERROR, RecvError(e.nread), e.script);
  }

  /** libuv owes a freed handle exactly its pending send callbacks and close callback. */
  lemma UdpOwedToFreed(h: Udp, e: UdpEvent)
    requires UdpReachable(h) && h.refs.freed > 0
    ensures UdpDue(h.uv, e) <==>
              || (e.Sent? && !h.uv.closed && h.uv.completed < |h.uv.accepted|)
              || (e.UdpClosed? && !h.uv.closed && h.uv.closes > 0 && h.uv.completed >= |h.uv.accepted|)
  {
    UdpReachableSafe(h);
  }

  // ---------- what the user is told, and what the calls do ----------

  function ToUdp(h: Udp, slot: Slot, call: UdpCall): seq<UdpCall> {
    if h.slots.cell[slot].Some? then [call] else []
  }

  lemma CallUdpTells(h: Udp, slot: Slot, call: UdpCall, script: seq<UdpAct>)
    requires UdpInv(h) && slot < UDP_SLOTS
    ensures CallUdp(h, slot, call, script).log == h.log + ToUdp(h, slot, call)
  {
    assert h.log + [] == h.log;
    if h.slots.cell[slot].Some? {
      var e := EnterUdp(h, call);
      EnterUdpKeeps(h, call);
      UdpScriptKeeps(e, script);
      UdpScriptSilent(e, script);
      var r := RunUdpScript(e, script);
      if h.hasObject {
        var d := r.(refs := r.refs.(frames := r.refs.frames - 1));
        assert UdpBalanced(d, 1);
        DropUdpSilent(d);
      }
      CallUdpUnfold(h, slot, call, script);
    }
  }

  lemma DropUdpSilent(h: Udp)
    requires UdpBalanced(h, 1)
    ensures DropUdp(h).log == h.log
  {
    var s := h.(refs := h.refs.(count := h.refs.count - 1));
    if s.refs.count == 0 {
      var t := s.(refs := s.refs.(freed := s.refs.freed + 1,
                                  freedWhilePinned := s.refs.freedWhilePinned || s.flags.internalRef));
      assert ReleaseUdp(t) == StopUdp(t);
    }
  }

  lemma PerformUdpSilent(h: Udp, a: UdpAct)
    requires UdpInv(h)
    ensures PerformUdp(h, a).log == h.log
  {
    if UdpCallable(h) {
      match a
      case DropUdpRef =>
        if h.refs.external > 0 { DropUdpSilent(h.(refs := h.refs.(external := h.refs.external - 1))); }
      case _ =>
    }
  }

  lemma {:induction false} UdpScriptSilent(h: Udp, script: seq<UdpAct>)
    requires UdpInv(h)
    ensures RunUdpScript(h, script).log == h.log
    decreases |script|
  {
    if script != [] {
      PerformUdpKeeps(h, script[0]);
      PerformUdpSilent(h, script[0]);
      UdpScriptSilent(PerformUdp(h, script[0]), script[1..]);
    }
  }

  /** What an event has the user told: a datagram goes to the receive callback, an error or an empty read to
      the error callback, the status of a send to the send callback. */
  function ToldUdp(h: Udp, e: UdpEvent): seq<UdpCall> {
    match e
    case Received(nread, data, _) =>
      if nread > 0 then ToUdp(h, READ, RecvCall(data)) else ToUdp(h, ERROR, RecvError(nread))
    case Sent(status, _) => ToUdp(h, WRITE, SendCall(status))
    case _ => []
  }

  lemma UdpEventTells(h: Udp, e: UdpEvent)
    requires UdpSafe(h) && UdpEnabled(h, e)
    ensures StepUdp(h, e).log == h.log + ToldUdp(h, e)
  {
    match e
    case UdpCode(script) => UdpScriptSilent(h, script);
    case Received(nread, data, script) =>
      CallUdpTells(h, READ, RecvCall(data), script);
      CallUdpTells(h, ERROR, RecvError(nread), script);
    case Sent(status, script) => CallUdpTells(h, WRITE, SendCall(status), script);
    case UdpClosed => ReleaseUdpSilent(h.(uv := h.uv.(closed := true)));
  }

  lemma ReleaseUdpSilent(h: Udp)
    requires UdpInv(h)
    ensures ReleaseUdp(h).log == h.log
  {
    var s := StopUdp(h);
    StopUdpKeeps(h);
    if s.flags.internalRef {
      var t := s.(flags := s.flags.(internalRef := false), refs := s.refs.(dropped := s.refs.dropped + 1));
      assert UdpBalanced(t, 1);
      DropUdpSilent(t);
    }
  }

  /** A callback that does nothing is told, and changes nothing; a finished send has its request and buffer
      freed. */
  lemma UdpEventLeaves(h: Udp, e: UdpEvent)
    requires UdpSafe(h) && UdpEnabled(h, e) && (h.flags.internalRef || h.refs.external > 0)
    requires (e.Received? || e.Sent?) && e.script == []
    ensures var told := h.(log := h.log + ToldUdp(h, e));
            StepUdp(h, e)
            == if e.Received? then told
               else told.(uv := h.uv.(completed := h.uv.completed + 1, requestsFreed := h.uv.requestsFreed + 1,
                                      buffersFreed := h.uv.buffersFreed + 1))
  {
    if e.Received? {
      IdleUdpCall(h, READ, RecvCall(e.data));
      IdleUdpCall(h, ERROR, RecvError(e.nread));
    } else {
      IdleUdpCall(h, WRITE, SendCall(e.status));
    }
  }

  lemma IdleUdpCall(h: Udp, slot: Slot, call: UdpCall)
    requires UdpInv(h) && slot < UDP_SLOTS && h.refs.freed == 0 && (h.flags.internalRef || h.refs.external > 0)
    ensures CallUdp(h, slot, call, []) == h.(log := h.log + ToUdp(h, slot, call))
  {
    assert h.log + [] == h.log;
    if h.slots.cell[slot].Some? {
      var e := EnterUdp(h, call);
      EnterUdpKeeps(h, call);
      assert RunUdpScript(e, []) == e;
      if h.hasObject {
        var d := e.(refs := e.refs.(frames := e.refs.frames - 1));
        assert UdpBalanced(d, 1) && d.refs.count > 1;
        DropUdpExternal(d);
      }
      CallUdpUnfold(h, slot, call, []);
    }
  }

  /** The getters answer from the cache; else they cache the kernel's answer, where a port of zero counts as none. */
  lemma UdpGetterMeans(h: Udp, reply: NameReply)
    requires UdpCallable(h) && CacheOk(Tcp, h.sock)
    ensures var k := PerformUdp(h, GetName(reply));
            && k == h.(sock := k.sock)
            && if h.sock.port != 0 then k == h
               else match reply
                 case Failed => k == h
                 case Reply(port, name) => k.sock.port == port && k.sock.addr == Some(name)
  {
  }

  /** The datagrams that a run delivers. */
  function Datagrams(h: Udp, events: seq<UdpEvent>): seq<seq<byte>>
    decreases |events|
  {
    if events == [] then []
    else
      (if UdpEnabled(h, events[0]) && events[0].Received? && events[0].nread > 0 then [events[0].data] else [])
      + Datagrams(StepUdp(h, events[0]), events[1..])
  }

  /** The data that the receive callback was given. */
  function ReceivedData(log: seq<UdpCall>): seq<seq<byte>> {
    if log == [] then []
    else (if log[0].RecvCall? then [log[0].data] else []) + ReceivedData(log[1..])
  }

  lemma {:induction false} ReceivedAppend(a: seq<UdpCall>, b: seq<UdpCall>)
    ensures ReceivedData(a + b) == ReceivedData(a) + ReceivedData(b)
  {
    if a == [] {
      assert a + b == b;
    } else {
      ReceivedAppend(a[1..], b);
      assert (a + b)[1..] == a[1..] + b;
      Regroup(if a[0].RecvCall? then [a[0].data] else [], ReceivedData(a[1..]), ReceivedData(b));
    }
  }

  lemma ReceivedOne(h: Udp, e: UdpEvent)
    requires UdpSafe(h)
    ensures ReceivedData(StepUdp(h, e).log)
         == ReceivedData(h.log)
            + if UdpEnabled(h, e) && e.Received? && e.nread > 0 then [e.data] else []
  {
    assert ReceivedData(h.log) + [] == ReceivedData(h.log);
    if UdpEnabled(h, e) {
      UdpEventTells(h, e);
      var told := ToldUdp(h, e);
      ReceivedAppend(h.log, told);
      if told != [] { assert told[1..] == [] && ReceivedData(told[1..]) == []; }
    }
  }

  /** Over every run, the receive callback is given exactly the datagrams that arrive, in order: a handle that
      receives has all its callbacks, since none can be replaced meanwhile. */
  lemma {:induction false} DatagramsArrive(h: Udp, events: seq<UdpEvent>)
    requires UdpSafe(h)
    ensures ReceivedData(RunUdp(h, events).log) == ReceivedData(h.log) + Datagrams(h, events)
    decreases |events|
  {
    if events == [] {
      assert ReceivedData(h.log) + [] == ReceivedData(h.log);
    } else {
      var s := StepUdp(h, events[0]);
      StepUdpSafe(h, events[0]);
      ReceivedOne(h, events[0]);
      DatagramsArrive(s, events[1..]);
      var arrives := UdpEnabled(h, events[0]) && events[0].Received? && events[0].nread > 0;
      var one := if arrives then [events[0].data] else [];
      Regroup(ReceivedData(h.log), one, Datagrams(s, events[1..]));
    }
  }

  /** `bind` succeeds exactly if the host has 1 to 29 characters and both answers are zero; then it starts the
      handle. Otherwise it returns -1 or the first answer that is not zero, and changes nothing. */
  lemma BindMeans(h: Udp, a: BindArgs)
    requires UdpCallable(h)
    ensures var (k, ret) := BindTo(h, Some(a));
            var good := 1 <= |a.host| <= 29;
            && PerformUdp(h, Bind(Some(a))) == k
            && (ret == Long(0) <==> good && a.addrRet == 0 && a.bindRet == 0)
            && (ret != Long(0) ==> ret == Long(if !good then -1 else if a.addrRet != 0 then a.addrRet else a.bindRet))
            && k == if ret == Long(0) then h.(flags := h.flags.(handleStart := true)) else h
  {
  }

  /** `sendTo` queues its message, last, exactly if the host is good and both answers are zero. A refused address
      frees the request; a refused send loses request and buffer. */
  lemma SendToMeans(h: Udp, a: SendArgs)
    requires UdpCallable(h)
    ensures var (k, ret) := SendTo(h, Some(a));
            var good := 1 <= |a.host| <= 29;
            && PerformUdp(h, Send(Some(a))) == k
            && ret == Long(if !good then -1 else if a.addrRet != 0 then a.addrRet else a.sendRet)
            && (if ret == Long(0) then
                  k == h.(uv := h.uv.(accepted := h.uv.accepted + [a.message], requests := h.uv.requests + 1,
                                      buffers := h.uv.buffers + 1))
                else if !good then k == h
                else if a.addrRet != 0 then
                  k == h.(uv := h.uv.(requests := h.uv.requests + 1, requestsFreed := h.uv.requestsFreed + 1))
                else
                  k == h.(uv := h.uv.(requests := h.uv.requests + 1, buffers := h.uv.buffers + 1,
                                      lost := h.uv.lost + 1)))
  {
  }

  /**
    `setCallback` on a handle that does not receive yet, when three callables parse and
    libuv starts to receive: they are the receive, send and error callbacks, in this
    order, owned; the handle is started, receiving and pinned, and has an object to pass.
  */
  lemma UdpCallbackStarts(h: Udp, fns: Parsed)
    requires UdpCallable(h) && Accounted(h.slots) && !h.flags.readStart && |fns| == 3
    ensures var (k, ret) := SetUdpCallback(h, fns, 0);
            && PerformUdp(h, UdpCallback(fns, 0)) == k && ret == Long(0)
            && k.slots.cell[READ] == Some(fns[0]) && k.slots.cell[WRITE] == Some(fns[1])
            && k.slots.cell[ERROR] == Some(fns[2])
            && k.slots.borrowed == h.slots.borrowed
            && k == h.(slots := k.slots, hasObject := true, uv := h.uv.(receiving := true),
                       flags := h.flags.(internalRef := true, handleStart := true, readStart := true),
                       refs := h.refs.(count := h.refs.count + 1, taken := h.refs.taken + 1))
  {
    OwnAccount(h.slots, fns);
    UdpCells(h.slots, fns);
    var t := OwnCallbacks(ParseCallbacks(h.slots, fns));
    assert SetUdpCallback(h, fns, 0) == (PinUdp(h.(slots := t)), Long(0));
  }

  /** On one that receives it returns -1 and changes nothing. */
  lemma UdpCallbackRefused(h: Udp, fns: Parsed, recvRet: int)
    requires UdpCallable(h) && h.flags.readStart
    ensures SetUdpCallback(h, fns, recvRet) == (h, Long(-1)) && PerformUdp(h, UdpCallback(fns, recvRet)) == h
  {
  }

  /** Where fewer parse or libuv refuses, those that parse are in their slots, borrowed, and nothing else has
      changed. */
  lemma UdpCallbackFails(h: Udp, fns: Parsed, recvRet: int)
    requires UdpCallable(h) && Accounted(h.slots) && !h.flags.readStart && (|fns| < 3 || recvRet != 0)
    ensures var (k, ret) := SetUdpCallback(h, fns, recvRet);
            && PerformUdp(h, UdpCallback(fns, recvRet)) == k
            && ret == (if |fns| < 3 then Null else Long(recvRet))
            && UdpParsed(h.slots, k.slots, fns)
            && k == h.(slots := k.slots)
  {
    UdpParses(h.slots, fns);
    assert SetUdpCallback(h, fns, recvRet)
        == (h.(slots := ParseCallbacks(h.slots, fns)), if |fns| < 3 then Null else Long(recvRet));
  }

  ghost predicate UdpParsed(s: Slots, t: Slots, fns: Parsed) {
    && t.cell[READ] == (if |fns| > 0 then Some(fns[0]) else None)
    && t.cell[WRITE] == (if |fns| > 1 then Some(fns[1]) else None)
    && t.cell[ERROR] == (if |fns| > 2 then Some(fns[2]) else None)
    && t.borrowed == s.borrowed + Weights(fns, |fns|)
  }

  lemma UdpParses(s: Slots, fns: Parsed)
    requires Accounted(s)
    ensures UdpParsed(s, ParseCallbacks(s, fns), fns)
  {
    ParseAccount(s, fns);
    UdpCells(s, fns);
  }

  lemma UdpCells(s: Slots, fns: Parsed)
    ensures var t := ParseCallbacks(s, fns).cell;
            && t[READ] == (if |fns| > 0 then Some(fns[0]) else None)
            && t[WRITE] == (if |fns| > 1 then Some(fns[1]) else None)
            && t[ERROR] == (if |fns| > 2 then Some(fns[2]) else None)
  {
  }

  /** `close` has `uv_close` issued. */
  lemma UdpCloseMeans(h: Udp)
    requires UdpInv(h) && UdpCallable(h)
    ensures PerformUdp(h, CloseUdp) == h.(uv := h.uv.(closes := 1))
  {
  }

  /** The address is freed, the bits are cleared, and libuv receives no more. */
  lemma UdpStopMeans(h: Udp)
    requires UdpInv(h)
    ensures StopUdp(h)
         == h.(flags := h.flags.(handleStart := false, readStart := false), uv := h.uv.(receiving := false),
               sock := if h.sock.port != 0 then h.sock.(port := 0, addr := None, freed := h.sock.freed + 1)
                       else h.sock)
  {
  }

  /** A release does that and gives the self-reference back; while a variable holds the object that is all. */
  lemma UdpReleaseMeans(h: Udp)
    requires UdpInv(h) && h.refs.freed == 0 && h.refs.external > 0
    ensures var s := StopUdp(h);
            ReleaseUdp(h)
            == s.(flags := s.flags.(internalRef := false),
                  refs := if h.flags.internalRef
                          then h.refs.(count := h.refs.count - 1, dropped := h.refs.dropped + 1) else h.refs)
  {
    var s := StopUdp(h);
    StopUdpKeeps(h);
    if s.flags.internalRef {
      var t := s.(flags := s.flags.(internalRef := false), refs := s.refs.(dropped := s.refs.dropped + 1));
      assert UdpBalanced(t, 1) && t.refs.count > 1;
      DropUdpExternal(t);
      assert ReleaseUdp(h) == DropUdp(t);
    } else {
      assert ReleaseUdp(h) == s;
    }
  }

  // ---------- a send callback and the last reference ----------

  function UdpDrops(n: nat): seq<UdpAct> { if n == 0 then [] else [DropUdpRef] + UdpDrops(n - 1) }

  /** Dropping every variable frees the object, or leaves it to the frame that still holds it. */
  lemma {:induction false} UdpDropsAll(h: Udp)
    requires UdpInv(h) && h.refs.freed == 0 && !h.flags.internalRef
    ensures var k := RunUdpScript(h, UdpDrops(h.refs.external));
            UdpInv(k) && k.refs.external == 0 && k.refs.frames == h.refs.frames && !k.flags.internalRef
    decreases h.refs.external
  {
    if h.refs.external > 0 {
      var script := UdpDrops(h.refs.external);
      assert script[0] == DropUdpRef && script[1..] == UdpDrops(h.refs.external - 1);
      var d := h.(refs := h.refs.(external := h.refs.external - 1));
      DropUdpKeeps(d);
      var s := PerformUdp(h, DropUdpRef);
      assert s == DropUdp(d);
      DropUdpExternal(d);
      if s.refs.freed == 0 { UdpDropsAll(s); } else { FreedUdpRests(s, script[1..]); }
    }
  }

  lemma DropUdpExternal(h: Udp)
    requires UdpBalanced(h, 1)
    ensures DropUdp(h).refs.external == h.refs.external
    ensures h.refs.count > 1 ==> DropUdp(h) == h.(refs := h.refs.(count := h.refs.count - 1))
  {
    var s := h.(refs := h.refs.(count := h.refs.count - 1));
    if s.refs.count == 0 {
      var t := s.(refs := s.refs.(freed := s.refs.freed + 1,
                                  freedWhilePinned := s.refs.freedWhilePinned || s.flags.internalRef));
      assert ReleaseUdp(t) == StopUdp(t);
    }
  }

  lemma {:induction false} FreedUdpRests(h: Udp, script: seq<UdpAct>)
    requires h.refs.freed > 0
    ensures RunUdpScript(h, script) == h
    decreases |script|
  {
    if script != [] { FreedUdpRests(h, script[1..]); }
  }

  lemma SendFrees(h: Udp, status: int)
    requires UdpSafe(h) && h.refs.freed == 0 && h.slots.cell[WRITE].Some? && !h.flags.internalRef
    ensures CallUdp(h, WRITE, SendCall(status), UdpDrops(h.refs.external)).refs.freed > 0
  {
    var e := EnterUdp(h, SendCall(status));
    EnterUdpKeeps(h, SendCall(status));
    UdpDropsAll(e);
    var r := RunUdpScript(e, UdpDrops(h.refs.external));
    LeaveUdpKeeps(r, h.hasObject);
    if h.hasObject {
      DropUdpExternal(r.(refs := r.refs.(frames := r.refs.frames - 1)));
    }
    CallUdpUnfold(h, WRITE, SendCall(status), UdpDrops(h.refs.external));
  }

  /** A send callback can free its handle exactly if the handle holds no reference on itself, whether or
      not the callback is passed the object. */
  lemma FreedInSendExactly(h: Udp, status: int)
    requires UdpSafe(h) && h.refs.freed == 0 && UdpDue(h.uv, Sent(status, []))
    ensures (exists script :: StepUdp(h, Sent(status, script)).refs.freed > 0)
        <==> h.slots.cell[WRITE].Some? && !h.flags.internalRef
  {
    if h.slots.cell[WRITE].Some? && !h.flags.internalRef {
      SendFrees(h, status);
      assert StepUdp(h, Sent(status, UdpDrops(h.refs.external))).refs.freed > 0;
    } else {
      forall script ensures StepUdp(h, Sent(status, script)).refs.freed == 0 {
        CallUdpKeeps(h, WRITE, SendCall(status), script);
      }
    }
  }

  // ---------- the references of the slots, over runs ----------

  /** The slots stay accounted for, and what is borrowed stays borrowed. */
  ghost predicate Lending(s: Slots, t: Slots) {
    Accounted(s) ==> Accounted(t) && s.borrowed <= t.borrowed
  }

  lemma LendingTrans(s: Slots, t: Slots, u: Slots)
    requires Lending(s, t) && Lending(t, u)
    ensures Lending(s, u)
  {
  }

  lemma FreeFirstLends(s: Slots, n: nat)
    requires n <= SLOTS
    ensures Lending(s, FreeFirst(s, n))
  {
    FreeFirstKeepsAccount(s, n);
  }

  lemma DropUdpSlots(h: Udp)
    requires UdpBalanced(h, 1)
    ensures Lending(h.slots, DropUdp(h).slots)
  {
    var s := h.(refs := h.refs.(count := h.refs.count - 1));
    if s.refs.count == 0 {
      var t := s.(refs := s.refs.(freed := s.refs.freed + 1,
                                  freedWhilePinned := s.refs.freedWhilePinned || s.flags.internalRef));
      assert ReleaseUdp(t) == StopUdp(t);
      assert DropUdp(h).slots == FreeFirst(h.slots, UDP_SLOTS);
      FreeFirstLends(h.slots, UDP_SLOTS);
    }
  }

  lemma ParseLends(s: Slots, fns: Parsed)
    ensures Lending(s, ParseCallbacks(s, fns))
    ensures |fns| == 3 ==> Lending(s, OwnCallbacks(ParseCallbacks(s, fns)))
  {
    if Accounted(s) {
      ParseAccount(s, fns);
      if |fns| == 3 { OwnAccount(s, fns); }
    }
  }

  lemma SetUdpCallbackSlots(h: Udp, fns: Parsed, recvRet: int)
    ensures Lending(h.slots, SetUdpCallback(h, fns, recvRet).0.slots)
  {
    var t := ParseCallbacks(h.slots, fns);
    ParseLends(h.slots, fns);
    assert SetUdpCallback(h, fns, recvRet).0.slots
        == if h.flags.readStart then h.slots
           else if |fns| == 3 && recvRet == 0 then OwnCallbacks(t) else t;
  }

  lemma PerformUdpSlots(h: Udp, a: UdpAct)
    requires UdpInv(h)
    ensures Lending(h.slots, PerformUdp(h, a).slots)
  {
    if UdpCallable(h) {
      match a
      case DropUdpRef => if h.refs.external > 0 { DropUdpSlots(h.(refs := h.refs.(external := h.refs.external - 1))); }
      case UdpCallback(fns, ret) => SetUdpCallbackSlots(h, fns, ret);
      case _ => assert PerformUdp(h, a).slots == h.slots;
    }
  }

  lemma {:induction false} UdpScriptSlots(h: Udp, script: seq<UdpAct>)
    requires UdpInv(h)
    ensures Lending(h.slots, RunUdpScript(h, script).slots)
    decreases |script|
  {
    if script != [] {
      var s := PerformUdp(h, script[0]);
      PerformUdpKeeps(h, script[0]);
      PerformUdpSlots(h, script[0]);
      UdpScriptSlots(s, script[1..]);
      LendingTrans(h.slots, s.slots, RunUdpScript(h, script).slots);
    }
  }

  lemma CallUdpSlots(h: Udp, slot: Slot, call: UdpCall, script: seq<UdpAct>)
    requires UdpInv(h) && slot < UDP_SLOTS
    ensures Lending(h.slots, CallUdp(h, slot, call, script).slots)
  {
    if h.slots.cell[slot].Some? {
      var e := EnterUdp(h, call);
      EnterUdpKeeps(h, call);
      UdpScriptKeeps(e, script);
      UdpScriptSlots(e, script);
      var r := RunUdpScript(e, script);
      if h.hasObject {
        var d := r.(refs := r.refs.(frames := r.refs.frames - 1));
        assert UdpBalanced(d, 1);
        DropUdpSlots(d);
      }
      CallUdpUnfold(h, slot, call, script);
      LendingTrans(h.slots, r.slots, LeaveUdp(r, h.hasObject).slots);
    }
  }

  lemma ReleaseUdpSlots(h: Udp)
    requires UdpInv(h)
    ensures Lending(h.slots, ReleaseUdp(h).slots)
  {
    var s := StopUdp(h);
    StopUdpKeeps(h);
    if s.flags.internalRef {
      var t := s.(flags := s.flags.(internalRef := false), refs := s.refs.(dropped := s.refs.dropped + 1));
      assert UdpBalanced(t, 1);
      DropUdpSlots(t);
    }
  }

  lemma StepUdpSlots(h: Udp, e: UdpEvent)
    requires UdpSafe(h)
    ensures Lending(h.slots, StepUdp(h, e).slots)
  {
    if UdpEnabled(h, e) {
      match e
      case UdpCode(script) => UdpScriptSlots(h, script);
      case Received(nread, data, script) =>
        CallUdpSlots(h, READ, RecvCall(data), script);
        CallUdpSlots(h, ERROR, RecvError(nread), script);
      case Sent(status, script) => CallUdpSlots(h, WRITE, SendCall(status), script);
      case UdpClosed => ReleaseUdpSlots(h.(uv := h.uv.(closed := true)));
    }
  }

  lemma {:induction false} RunUdpSlots(h: Udp, events: seq<UdpEvent>)
    requires UdpSafe(h)
    ensures Lending(h.slots, RunUdp(h, events).slots)
    decreases |events|
  {
    if events != [] {
      var s := StepUdp(h, events[0]);
      StepUdpSafe(h, events[0]);
      StepUdpSlots(h, events[0]);
      RunUdpSlots(s, events[1..]);
      LendingTrans(h.slots, s.slots, RunUdp(h, events).slots);
    }
  }

  lemma UdpReachableAccounted(h: Udp)
    requires UdpReachable(h)
    ensures Accounted(h.slots)
  {
    var start: Udp, events: seq<UdpEvent> :| UdpInitial(start) && h == RunUdp(start, events);
    InitialUdpSafe(start);
    InitialUdpAccounted(start);
    RunUdpSlots(start, events);
  }

  lemma InitialUdpAccounted(start: Udp)
    requires UdpInitial(start)
    ensures Accounted(start.slots)
  {
    NothingHeld(start.slots.cell);
  }

  /** Over every run the references on a closure are accounted for, and owned exactly if none is borrowed. */
  lemma UdpSlotsAccounted(h: Udp, f: Fn)
    requires UdpReachable(h) && f.Closure?
    ensures h.slots.taken[f] + h.slots.borrowed[f] == h.slots.dropped[f] + Occurrences(h.slots.cell, f)
    ensures Owned(h.slots) <==> h.slots.borrowed == multiset{}
  {
    UdpReachableAccounted(h);
    AccountedOccurrences(h.slots, f);
    OwnedExactly(h.slots);
  }

  /** What a call left borrowed is never given back. */
  lemma UdpBorrowedStays(h: Udp, events: seq<UdpEvent>)
    requires UdpReachable(h)
    ensures h.slots.borrowed <= RunUdp(h, events).slots.borrowed
  {
    UdpReachableAccounted(h);
    UdpReachableSafe(h);
    RunUdpSlots(h, events);
  }
}

/** The same, in place. */
module UdpHandles {
  import opened Basics
  import opened Callbacks
  import opened Streams
  import opened StreamSteps
  import opened StreamHandles
  import opened UdpSteps
  import opened UdpRuns

  class UdpHandle {
    var flag: bv32
    var refs: Refs
    var slots: Slots
    var sock: Cache
    var uv: UdpUv
    var hasObject: bool   // the zval is set
    ghost var log: seq<UdpCall>

    ghost function View(): Udp
      reads this
    {
      Udp(hasObject, Decode(flag), refs, slots, sock, uv, log)
    }

    constructor ()
      ensures UdpInitial(View())
    {
      flag, refs, slots, sock := 0, NO_REFS, EMPTY, NO_CACHE;
      uv, hasObject, log := UdpUv(false, 0, false, [], 0, 0, 0, 0, 0, 0), false, [];
    }

    method ClearReadStart()
      modifies this`flag
      ensures View() == old(View()).(flags := old(View()).flags.(readStart := false))
    {
      ReadStartBit(flag);
      flag := flag & !READ_START;
    }

    method ClearHandleStart()
      modifies this`flag
      ensures View() == old(View()).(flags := old(View()).flags.(handleStart := false))
    {
      HandleStartBit(flag);
      flag := flag & !HANDLE_START;
    }

    method Stop()
      modifies this
      ensures View() == StopUdp(old(View()))
    {
      if sock.port != 0 { sock := sock.(port := 0, addr := None, freed := sock.freed + 1); }
      if flag & READ_START != 0 {
        ClearReadStart();
        uv := uv.(receiving := false);
      }
      if flag & HANDLE_START != 0 {
        ClearHandleStart();
        uv := uv.(receiving := false);
      }
    }

    method ClearInternalRef()
      modifies this`flag
      ensures View() == old(View()).(flags := old(View()).flags.(internalRef := false))
    {
      InternalRefBit(flag);
      flag := flag & !INTERNAL_REF;
    }

    /** `release`. */
    method Release()
      modifies this
      ensures View() == ReleaseUdp(old(View()))
      decreases Bit(Decode(flag).internalRef), 0
    {
      Stop();
      if flag & INTERNAL_REF != 0 {
        ClearInternalRef();
        refs := refs.(dropped := refs.dropped + 1);
        DropReference();
      }
    }

    method DropReference()
      modifies this
      ensures View() == DropUdp(old(View()))
      decreases Bit(Decode(flag).internalRef), 2
    {
      refs := refs.(count := refs.count - 1);
      if refs.count == 0 { FreeObject(); }
    }

    method CountFree()
      modifies this`refs
      ensures var h := old(View());
              View() == h.(refs := h.refs.(freed := h.refs.freed + 1,
                                           freedWhilePinned := h.refs.freedWhilePinned || h.flags.internalRef))
    {
      refs := refs.(freed := refs.freed + 1, freedWhilePinned := refs.freedWhilePinned || flag & INTERNAL_REF != 0);
    }

    method FreeObject()
      modifies this
      ensures View() == FreeUdp(old(View()))
      decreases Bit(Decode(flag).internalRef), 1
    {
      CountFree();
      Release();
      slots := FreeFirst(slots, UDP_SLOTS);
    }

    method SetFlags()
      modifies this`flag
      ensures var f := old(View()).flags;
              View() == old(View()).(flags := f.(internalRef := true, handleStart := true, readStart := true))
    {
      InternalRefBit(flag);
      flag := flag | INTERNAL_REF;
      HandleStartBit(flag);
      flag := flag | HANDLE_START;
      ReadStartBit(flag);
      flag := flag | READ_START;
    }

    /** The end of a successful `setCallback`: the bits, and one reference more. */
    method Pin()
      modifies this
      ensures View() == PinUdp(old(View()))
    {
      uv := uv.(receiving := true);
      SetFlags();
      hasObject := true;
      refs := refs.(count := refs.count + 1, taken := refs.taken + 1);
    }

    method SetCallback(fns: Parsed, recvRet: int) returns (ret: Ret)
      modifies this
      ensures (View(), ret) == SetUdpCallback(old(View()), fns, recvRet)
    {
      ghost var h := View();
      if flag & READ_START != 0 { return Long(-1); }
      slots := ParseCallbacks(slots, fns);
      assert View() == h.(slots := slots);
      if |fns| < 3 { return Null; }
      if recvRet != 0 { return Long(recvRet); }
      slots := OwnCallbacks(slots);
      assert View() == h.(slots := slots);
      Pin();
      return Long(0);
    }

    method SendTo(args: Option<SendArgs>) returns (ret: Ret)
      modifies this`uv
      ensures (View(), ret) == UdpSteps.SendTo(old(View()), args)
    {
      if args.None? { return Null; }
      var a := args.value;
      if BadHost(Tcp, a.host) { return Long(-1); }
      uv := uv.(requests := uv.requests + 1);
      if a.addrRet != 0 {
        uv := uv.(requestsFreed := uv.requestsFreed + 1);
        return Long(a.addrRet);
      }
      uv := uv.(buffers := uv.buffers + 1);
      if a.sendRet == 0 {
        uv := uv.(accepted := uv.accepted + [a.message]);
      } else {
        uv := uv.(lost := uv.lost + 1);
      }
      return Long(a.sendRet);
    }

    method Bind(args: Option<BindArgs>) returns (ret: Ret)
      modifies this`flag
      ensures (View(), ret) == BindTo(old(View()), args)
    {
      if args.None? { return Null; }
      var a := args.value;
      if BadHost(Tcp, a.host) { return Long(-1); }
      if a.addrRet != 0 { return Long(a.addrRet); }
      if a.bindRet != 0 { return Long(a.bindRet); }
      HandleStartBit(flag);
      flag := flag | HANDLE_START;
      return Long(0);
    }

    method ResolveSocket(reply: NameReply)
      modifies this`sock
      ensures View() == old(View()).(sock := Resolve(Tcp, old(View()).sock, reply))
    {
      if sock.port != 0 { return; }
      match reply
      case Failed =>
      case Reply(port, name) =>
        sock := Cache(port, Some(name), sock.made + 1, sock.freed, sock.lost + Bit(port == 0));
    }

    // ---------- user code and events ----------

    /** One call of user code; `close` is called at most once. */
    method Perform(a: UdpAct)
      modifies this
      ensures View() == PerformUdp(old(View()), a)
    {
      if refs.freed != 0 || refs.external + refs.frames <= 0 { return; }
      var ignored: Ret;
      match a
      case CopyUdp => refs := refs.(count := refs.count + 1, external := refs.external + 1);
      case DropUdpRef =>
        if refs.external == 0 { return; }
        refs := refs.(external := refs.external - 1);
        DropReference();
      case CloseUdp => if uv.closes == 0 { uv := uv.(closes := 1); }
      case Bind(args) => ignored := Bind(args);
      case UdpCallback(fns, ret) => ignored := SetCallback(fns, ret);
      case Send(args) => ignored := SendTo(args);
      case GetName(reply) => ResolveSocket(reply);
    }

    method UserCode(script: seq<UdpAct>)
      modifies this
      ensures View() == RunUdpScript(old(View()), script)
    {
      var rest := script;
      while rest != []
        invariant RunUdpScript(View(), rest) == RunUdpScript(old(View()), script)
        decreases |rest|
      {
        Perform(rest[0]);
        rest := rest[1..];
      }
    }

    method CallBack(slot: Slot, call: UdpCall, script: seq<UdpAct>)
      modifies this
      ensures View() == CallUdp(old(View()), slot, call, script)
    {
      if slots.cell[slot].None? { return; }
      log := log + [call];
      var held := hasObject;
      if held { refs := refs.(count := refs.count + 1, frames := refs.frames + 1); }
      assert View() == EnterUdp(old(View()), call);
      UserCode(script);
      if held {
        refs := refs.(frames := refs.frames - 1);
        DropReference();
      }
    }

    /** `recv_cb`. */
    method RecvCb(nread: int, data: seq<byte>, script: seq<UdpAct>)
      requires UdpEnabled(View(), Received(nread, data, script))
      modifies this
      ensures View() == StepUdp(old(View()), Received(nread, data, script))
    {
      if nread > 0 {
        CallBack(READ, RecvCall(data), script);
      } else {
        CallBack(ERROR, RecvError(nread), script);
      }
    }

    /** `send_cb`. */
    method SendCb(status: int, script: seq<UdpAct>)
      requires UdpEnabled(View(), Sent(status, script))
      modifies this
      ensures View() == StepUdp(old(View()), Sent(status, script))
    {
      CallBack(WRITE, SendCall(status), script);
      uv := uv.(completed := uv.completed + 1, requestsFreed := uv.requestsFreed + 1,
                buffersFreed := uv.buffersFreed + 1);
    }

    /** `close_cb`. */
    method CloseCb()
      modifies this
      ensures View() == ReleaseUdp(old(View()).(uv := old(View()).uv.(closed := true)))
    {
      uv := uv.(closed := true);
      Release();
    }

    // ---------- the loop ----------

    method Dispatch(e: UdpEvent)
      requires UdpSafe(View()) && UdpEnabled(View(), e)
      modifies this
      ensures View() == StepUdp(old(View()), e) && UdpSafe(View())
    {
      StepUdpSafe(View(), e);
      match e
      case UdpCode(script) => UserCode(script);
      case Received(nread, data, script) => RecvCb(nread, data, script);
      case Sent(status, script) => SendCb(status, script);
      case UdpClosed => CloseCb();
    }

    /** `uv_run`, as far as this handle goes. */
    method RunLoop(events: seq<UdpEvent>)
      requires UdpSafe(View())
      modifies this
      ensures View() == RunUdp(old(View()), events) && UdpSafe(View())
    {
      var rest := events;
      while rest != []
        invariant UdpSafe(View()) && RunUdp(View(), rest) == RunUdp(old(View()), events)
        decreases |rest|
      {
        var e := rest[0];
        if e.UdpCode? || (refs.freed == 0 && UdpDue(uv, e)) { Dispatch(e); }
        rest := rest[1..];
      }
    }

    /** What a run of a handle leaves in its fields, whatever happens in the run. */
    ghost predicate Sound()
      reads this
    {
      && (flag & INTERNAL_REF != 0 <==> flag & READ_START != 0)
      && (flag & READ_START != 0 ==> flag & HANDLE_START != 0)
      && refs.count == refs.external + Bit(flag & READ_START != 0)
      && refs.taken == refs.dropped + Bit(flag & READ_START != 0)
      && refs.freed == Bit(refs.count == 0) && !refs.freedWhilePinned
      && uv.closes <= 1 && (uv.receiving ==> flag & READ_START != 0)
      && uv.requests == uv.requestsFreed + (|uv.accepted| - uv.completed) + uv.lost
      && uv.buffers == uv.buffersFreed + (|uv.accepted| - uv.completed) + uv.lost
      && CacheOk(Tcp, sock)
    }

    /** A run from any state between events. */
    method Continue(events: seq<UdpEvent>)
      requires UdpSafe(View())
      modifies this
      ensures View() == RunUdp(old(View()), events) && Sound()
    {
      RunLoop(events);
    }
  }

  /** From the constructor to the end of any run. */
  method Live(events: seq<UdpEvent>) returns (handle: UdpHandle, ghost start: Udp)
    ensures fresh(handle) && handle.Sound()
    ensures UdpInitial(start) && handle.View() == RunUdp(start, events)
  {
    handle := new UdpHandle();
    start := handle.View();
    InitialUdpSafe(start);
    handle.Continue(events);
  }
}
