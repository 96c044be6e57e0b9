/**
  What a run keeps, given what its user code and its answers keep: the
  references of the callback slots, the self-reference while requests are
  pending, slots that stay filled or empty, and the cached addresses.
*/
module Promises {
  import opened Basics
  import opened Records
  import opened Callbacks
  import opened CertificateNames
  import opened Streams
  import opened StreamSteps
  import opened TlsSteps
  import opened StreamRuns
  import opened Ownership

  // ---------- what user code may promise ----------

  /** When an open handle holds its self-reference: not said, or whenever libuv has a request of it
      other than writes, or whenever it also has read, write or error callbacks, or always. */
  datatype Pin = Loose | Requests | Callbacks | Always

  /**
    What to follow over a run. `counted`: that the slots stay accounted for, with at least
    that much borrowed. `pin`: see `Pin`; no name resolution fails, and for `Callbacks`
    no `setCallback` parses partly. `held`: the self-reference; nothing releases the handle.
    `keeps`: the three callbacks; every `setCallback` parses. `silent`: no handshake
    callback is set. `sock` and `peer`: the caches that the run started from. `sockReplies`
    and `peerReplies`: sets that hold all answers of the kernel. `host`: the stored host; no
    TLS `connect` names a host of acceptable length. `receiving`: libuv reads; nothing releases
    the handle.
  */
  datatype Terms = Terms(counted: Option<multiset<Fn>>, pin: Pin, held: bool, keeps: bool, silent: bool,
                         sock: Option<Cache>, peer: Option<Cache>,
                         sockReplies: Option<iset<NameReply>>, peerReplies: Option<iset<NameReply>>,
                         host: Option<string>, receiving: bool)

  /** The answer is one of the allowed ones; a pipe ignores the port. */
  ghost predicate Allows(kind: Kind, replies: Option<iset<NameReply>>, reply: NameReply) {
    replies.Some? && reply.Reply? ==> Reply(if kind.Pipe? then 0 else reply.port, reply.name) in replies.value
  }

  ghost predicate ActHonours(kind: Kind, a: Act, p: Terms) {
    match a
    case SetCallback(fns) => (p.pin == Callbacks ==> |fns| == 0 || |fns| == 3) && (p.keeps ==> |fns| == 3)
    case SetHandshake(fn) => p.silent ==> fn.None?
    case Connect(args) => p.host.Some? && kind.Ssl? && args.Some? ==> BadHost(kind, args.value.host)
    case GetSock(reply) => Allows(kind, p.sockReplies, reply)
    case GetPeer(reply) => Allows(kind, p.peerReplies, reply)
    case _ => true
  }

  ghost predicate Honours(kind: Kind, script: Script, p: Terms) {
    forall i :: 0 <= i < |script| ==> ActHonours(kind, script[i], p)
  }

  ghost predicate AllHonour(kind: Kind, scripts: seq<Script>, p: Terms) {
    forall i :: 0 <= i < |scripts| ==> Honours(kind, scripts[i], p)
  }

  ghost predicate HandshakeHonours(kind: Kind, hs: Handshake, p: Terms) {
    && (hs.serverName.Some? ==> Honours(kind, hs.serverName.value, p))
    && (forall i :: 0 <= i < |hs.verify| ==> Honours(kind, hs.verify[i].verdict.script, p))
    && Honours(kind, hs.onMismatch.script, p) && Honours(kind, hs.onDone.script, p)
  }

  ghost predicate EventHonours(kind: Kind, e: Event, p: Terms) {
    match e
    case UserCode(s) => Honours(kind, s, p)
    case ReadData(_, s) => Honours(kind, s, p)
    case ReadFailed(_, s) => Honours(kind, s, p)
    case Connected(_, _, _, _, s) => Honours(kind, s, p)
    case Incoming(_, s) => Honours(kind, s, p)
    case ShutdownDone(_, s) => Honours(kind, s, p)
    case WriteDone(_, s) => Honours(kind, s, p)
    case Resolved(ret, s) => Honours(kind, s, p) && (p.pin != Loose || p.held || p.receiving ==> ret == 0)
    case TlsRead(_, hs, ss) => HandshakeHonours(kind, hs, p) && AllHonour(kind, ss, p)
    case CloseDone => !p.held && !p.receiving
  }

  ghost predicate RunHonours(kind: Kind, events: seq<Event>, p: Terms) {
    forall i :: 0 <= i < |events| ==> EventHonours(kind, events[i], p)
  }

  // ---------- what the handle then keeps ----------

  /** libuv has no request of the handle but writes and the close. */
  ghost predicate NoRequests(u: Uv) {
    !u.connecting && !u.listening && u.resolving == 0 && u.shutdowns == 0
  }

  ghost predicate ThreeEmpty(s: Slots) {
    s.cell[READ].None? && s.cell[WRITE].None? && s.cell[ERROR].None?
  }

  ghost predicate PinOk(h: Handle, pin: Pin) {
    h.uv.closed || h.flags.internalRef ||
    match pin
    case Loose => true
    case Requests => NoRequests(h.uv)
    case Callbacks => NoRequests(h.uv) && ThreeEmpty(h.slots)
    case Always => false
  }

  ghost predicate ThreeFilled(h: Handle) {
    h.slots.cell[READ].Some? && h.slots.cell[WRITE].Some? && h.slots.cell[ERROR].Some?
  }

  ghost predicate NoReport(log: seq<Call>) {
    forall i :: 0 <= i < |log| ==> !log[i].HandshakeCall?
  }

  /** `first` is cached still, or has been freed. */
  ghost predicate CacheKept(now: Cache, first: Cache) {
    first.freed <= now.freed && (now.freed == first.freed ==> now == first)
  }

  ghost predicate CachesKept(h: Handle, p: Terms) {
    && (p.sock.Some? ==> IsCached(h.kind, p.sock.value) && CacheKept(h.sock, p.sock.value))
    && (p.peer.Some? ==> IsCached(h.kind, p.peer.value) && CacheKept(h.peer, p.peer.value))
  }

  /** A cached address and its port come from one answer. */
  ghost predicate FromReply(kind: Kind, c: Cache, replies: Option<iset<NameReply>>) {
    replies.Some? && IsCached(kind, c) ==> c.addr.Some? && Reply(c.port, c.addr.value) in replies.value
  }

  ghost predicate RepliesKept(h: Handle, p: Terms) {
    && FromReply(h.kind, h.sock, p.sockReplies) && FromReply(h.kind, h.peer, p.peerReplies)
    && (h.kind.Pipe? ==> h.sock.port == 0 && h.peer.port == 0)
  }

  /** The slots are accounted for, and what was borrowed is borrowed. */
  ghost predicate SlotsKept(s: Slots, counted: Option<multiset<Fn>>) {
    counted.Some? ==> Accounted(s) && counted.value <= s.borrowed
  }

  ghost predicate CellsKept(h: Handle, p: Terms) {
    && (p.keeps ==> h.refs.freed > 0 || ThreeFilled(h))
    && (p.silent ==> h.slots.cell[HANDSHAKE].None? && NoReport(h.log))
    && (p.host.Some? ==> h.tls.host == p.host.value)
    && (p.receiving ==> h.refs.freed > 0 || h.uv.reading)
  }

  ghost predicate Kept(h: Handle, p: Terms) {
    && SlotsKept(h.slots, p.counted)
    && PinOk(h, p.pin)
    && (p.held ==> h.flags.internalRef)
    && CellsKept(h, p)
    && CachesKept(h, p) && RepliesKept(h, p)
  }

  lemma DropKept(h: Handle, p: Terms)
    requires Balanced(h, 1) && Kept(h, p)
    ensures Kept(Drop(h), p)
  {
    DropAccount(h);
    DropPin(h, p.pin);
    DropCells(h, p);
    DropCaches(h, p);
  }

  lemma DropPin(h: Handle, pin: Pin)
    requires Balanced(h, 1) && PinOk(h, pin)
    ensures PinOk(Drop(h), pin) && Drop(h).flags.internalRef == h.flags.internalRef
  {
    DropSlots(h);
    DropFrame(h);
  }

  lemma DropCells(h: Handle, p: Terms)
    requires Balanced(h, 1) && CellsKept(h, p)
    ensures CellsKept(Drop(h), p)
  {
    DropSlots(h);
    DropKeeps(h);
    DropFrame(h);
  }

  /** The last drop releases the cached addresses; any other leaves them alone. */
  lemma DropReleases(h: Handle)
    requires Balanced(h, 1)
    ensures Drop(h).kind == h.kind
    ensures Drop(h).sock == if h.refs.count == 1 then ReleaseCache(h.kind, h.sock) else h.sock
    ensures Drop(h).peer == if h.refs.count == 1 then ReleaseCache(h.kind, h.peer) else h.peer
  {
    var s := h.(refs := h.refs.(count := h.refs.count - 1));
    if s.refs.count == 0 {
      var t := s.(refs := s.refs.(freed := s.refs.freed + 1,
                                  freedWhilePinned := s.refs.freedWhilePinned || s.flags.internalRef));
      assert Release(t) == StopActivity(t);
    }
  }

  lemma DropCaches(h: Handle, p: Terms)
    requires Balanced(h, 1) && CachesKept(h, p) && RepliesKept(h, p)
    ensures CachesKept(Drop(h), p) && RepliesKept(Drop(h), p)
  {
    DropReleases(h);
    ReleasedCache(h.kind, h.sock);
    ReleasedCache(h.kind, h.peer);
  }

  lemma ReleasedCache(kind: Kind, c: Cache)
    ensures var r := ReleaseCache(kind, c);
            && !IsCached(kind, r) && c.freed <= r.freed && (r.freed == c.freed ==> r == c)
            && (c.port == 0 ==> r.port == 0)
  {
  }

  /** A change that leaves the promised parts alone, unless it pins the handle. */
  ghost predicate Apart(h: Handle, k: Handle) {
    && k.kind == h.kind && k.log == h.log && k.sock == h.sock && k.peer == h.peer
    && k.refs.freed == h.refs.freed && k.uv.closed == h.uv.closed
    && (h.flags.internalRef ==> k.flags.internalRef)
    && (h.uv.reading ==> k.uv.reading)
    && (k.flags.internalRef ||
        (&& k.uv.connecting == h.uv.connecting && k.uv.listening == h.uv.listening
         && k.uv.resolving == h.uv.resolving && k.uv.shutdowns == h.uv.shutdowns))
  }

  predicate SameCells(s: Slots, t: Slots) {
    && t.cell[READ] == s.cell[READ] && t.cell[WRITE] == s.cell[WRITE] && t.cell[ERROR] == s.cell[ERROR]
    && t.cell[HANDSHAKE] == s.cell[HANDSHAKE]
  }

  lemma ApartKept(h: Handle, k: Handle, p: Terms)
    requires Kept(h, p) && Apart(h, k) && SameCells(h.slots, k.slots) && SlotsKept(k.slots, p.counted)
    requires p.host.Some? ==> k.tls.host == h.tls.host
    ensures Kept(k, p)
  {
  }

  lemma ListenApart(h: Handle, args: Option<ListenArgs>)
    ensures Apart(h, DoListen(h, args).0) && SameCells(h.slots, DoListen(h, args).0.slots)
    ensures DoListen(h, args).0.tls == h.tls
  {
    if h.flags.handleStart {
      assert DoListen(h, args).0 == h;
    } else if args.Some? {
      StartApart(h, AddRef(Fill(Free(h.slots, CONNECT), CONNECT, args.value.fn), CONNECT), false,
                 h.uv.(listening := true), h.tls);
    }
  }

  /** Every successful start pins the handle. */
  lemma StartApart(h: Handle, s: Slots, reading: bool, u: Uv, t: Tls)
    requires u.closed == h.uv.closed && u.reading == h.uv.reading
    ensures Apart(h, Start(h, s, reading, u, t)) && Start(h, s, reading, u, t).slots == s
    ensures Start(h, s, reading, u, t).tls == t
  {
  }

  lemma ConnectApart(h: Handle, args: Option<ConnectArgs>)
    ensures Apart(h, DoConnect(h, args).0) && SameCells(h.slots, DoConnect(h, args).0.slots)
    ensures args.None? || !h.kind.Ssl? || BadHost(h.kind, args.value.host) ==> DoConnect(h, args).0.tls == h.tls
  {
    if args.Some? {
      var a := args.value;
      var s := Install(h.slots, CONNECT, a.fn);
      match StartConnect(h.kind, a)
      case Refused(_) =>
      case Resolving => StartApart(h, s, false, h.uv.(resolving := h.uv.resolving + 1), ConnectTls(h, a));
      case Connecting => StartApart(h, s, false, h.uv.(connecting := true), ConnectTls(h, a));
    }
  }

  lemma ShutdownApart(h: Handle, fn: Option<Fn>, ret: int)
    ensures Apart(h, DoShutdown(h, fn, ret).0) && SameCells(h.slots, DoShutdown(h, fn, ret).0.slots)
    ensures DoShutdown(h, fn, ret).0.tls == h.tls
  {
  }

  lemma AttachApart(h: Handle, openRet: int, fn: Option<Fn>, readRet: int)
    ensures Apart(h, DoAttachIpc(h, openRet, fn, readRet).0)
    ensures SameCells(h.slots, DoAttachIpc(h, openRet, fn, readRet).0.slots)
    ensures DoAttachIpc(h, openRet, fn, readRet).0.tls == h.tls
  {
  }

  lemma WriteBioApart(h: Handle, rets: seq<int>)
    ensures Apart(h, WriteBio(h, rets).0) && WriteBio(h, rets).0.slots == h.slots
    ensures WriteBio(h, rets).0.tls.host == h.tls.host
  {
    WriteBioFrame(h, rets);
  }

  lemma TlsWriteApart(h: Handle, message: seq<byte>, rets: seq<int>)
    ensures Apart(h, DoTlsWrite(h, message, rets).0) && DoTlsWrite(h, message, rets).0.slots == h.slots
    ensures DoTlsWrite(h, message, rets).0.tls.host == h.tls.host
  {
    var s := h.(tls := SslWrite(h.tls, message).0);
    WriteBioApart(s, rets);
    assert DoTlsWrite(h, message, rets).0 == s || DoTlsWrite(h, message, rets).0 == WriteBio(s, rets).0;
  }

  lemma SetCallbacksKept(h: Handle, fns: Parsed, p: Terms)
    requires Kept(h, p) && ActHonours(h.kind, SetCallback(fns), p) && h.refs.freed == 0
    requires SlotsKept(SetCallbacks(h, fns).slots, p.counted)
    ensures Kept(SetCallbacks(h, fns), p)
  {
    var s := ParseCallbacks(h.slots, fns);
    ParsedCells(h.slots, fns);
    if |fns| < 3 {
      assert SetCallbacks(h, fns) == h.(slots := s);
    } else {
      var t := h.(slots := OwnCallbacks(s));
      assert SetCallbacks(h, fns) == SetSelfReference(t);
      assert t.slots.cell == s.cell;
      assert PinOk(SetSelfReference(t), p.pin);
    }
  }

  lemma GetSockKept(h: Handle, reply: NameReply, p: Terms)
    requires Inv(h) && Kept(h, p) && Allows(h.kind, p.sockReplies, reply)
    ensures Kept(h.(sock := Resolve(h.kind, h.sock, reply)), p)
  {
  }

  lemma GetPeerKept(h: Handle, reply: NameReply, p: Terms)
    requires Inv(h) && Kept(h, p) && Allows(h.kind, p.peerReplies, reply)
    ensures Kept(h.(peer := Resolve(h.kind, h.peer, reply)), p)
  {
  }

  lemma HandshakeSlotKept(h: Handle, s: Slots, p: Terms)
    requires Kept(h, p) && SlotsKept(s, p.counted) && (p.silent ==> s.cell[HANDSHAKE].None?)
    requires forall i :: 0 <= i < HANDSHAKE ==> s.cell[i] == h.slots.cell[i]
    ensures Kept(h.(slots := s), p)
  {
  }

  lemma SetHandshakeKept(h: Handle, fn: Option<Fn>, p: Terms)
    requires Kept(h, p) && ActHonours(h.kind, SetHandshake(fn), p) && Callable(h)
    requires SlotsKept(Perform(h, SetHandshake(fn)).slots, p.counted)
    ensures Kept(Perform(h, SetHandshake(fn)), p)
  {
    var k := Perform(h, SetHandshake(fn));
    SetHandshakeSlots(h, fn);
    assert k == h.(slots := k.slots);
    if h.kind.Ssl? { HandshakeSlotKept(h, k.slots, p); }
  }

  lemma SettingKept(h: Handle, a: Act, p: Terms)
    requires Inv(h) && Kept(h, p) && ActHonours(h.kind, a, p) && Callable(h)
    requires SlotsKept(Perform(h, a).slots, p.counted)
    requires a.SetCallback? || a.SetHandshake? || a.GetSock? || a.GetPeer?
    ensures Kept(Perform(h, a), p)
  {
    match a
    case SetCallback(fns) =>
      assert Perform(h, a) == SetCallbacks(h, fns);
      SetCallbacksKept(h, fns, p);
    case SetHandshake(fn) => SetHandshakeKept(h, fn, p);
    case GetSock(reply) =>
      GetSockKept(h, reply, p);
      assert Perform(h, a) == h.(sock := Resolve(h.kind, h.sock, reply));
    case GetPeer(reply) =>
      GetPeerKept(h, reply, p);
      assert Perform(h, a) == h.(peer := Resolve(h.kind, h.peer, reply));
  }

  lemma StartKept(h: Handle, a: Act, p: Terms)
    requires Kept(h, p) && Callable(h) && SlotsKept(Perform(h, a).slots, p.counted)
    requires ActHonours(h.kind, a, p) && (a.Listen? || a.Connect?)
    ensures Kept(Perform(h, a), p)
  {
    match a
    case Listen(args) =>
      ListenApart(h, args);
      assert Perform(h, a) == DoListen(h, args).0;
      ApartKept(h, Perform(h, a), p);
    case Connect(args) =>
      ConnectApart(h, args);
      assert Perform(h, a) == DoConnect(h, args).0;
      ApartKept(h, Perform(h, a), p);
  }

  lemma ShutdownKept(h: Handle, fn: Option<Fn>, ret: int, p: Terms)
    requires Kept(h, p) && SlotsKept(DoShutdown(h, fn, ret).0.slots, p.counted)
    ensures Kept(DoShutdown(h, fn, ret).0, p)
  {
    ShutdownApart(h, fn, ret);
    ApartKept(h, DoShutdown(h, fn, ret).0, p);
  }

  lemma AttachKept(h: Handle, openRet: int, fn: Option<Fn>, readRet: int, p: Terms)
    requires Kept(h, p) && SlotsKept(DoAttachIpc(h, openRet, fn, readRet).0.slots, p.counted)
    ensures Kept(DoAttachIpc(h, openRet, fn, readRet).0, p)
  {
    AttachApart(h, openRet, fn, readRet);
    ApartKept(h, DoAttachIpc(h, openRet, fn, readRet).0, p);
  }

  lemma TlsWriteKept(h: Handle, message: seq<byte>, rets: seq<int>, p: Terms)
    requires Kept(h, p)
    ensures Kept(DoTlsWrite(h, message, rets).0, p)
  {
    TlsWriteApart(h, message, rets);
    ApartKept(h, DoTlsWrite(h, message, rets).0, p);
  }

  lemma RequestKept(h: Handle, a: Act, p: Terms)
    requires Kept(h, p) && Callable(h) && SlotsKept(Perform(h, a).slots, p.counted)
    requires a.Shutdown? || a.AttachIpc? || a.TlsWrite?
    ensures Kept(Perform(h, a), p)
  {
    var k := Perform(h, a);
    match a
    case TlsWrite(message, rets) =>
      assert k == if h.kind.Ssl? then DoTlsWrite(h, message, rets).0 else h;
      TlsWriteKept(h, message, rets, p);
    case Shutdown(fn, ret) =>
      assert k == DoShutdown(h, fn, ret).0;
      ShutdownKept(h, fn, ret, p);
    case AttachIpc(openRet, fn, readRet) =>
      assert k == if h.kind.Pipe? then DoAttachIpc(h, openRet, fn, readRet).0 else h;
      if h.kind.Pipe? { AttachKept(h, openRet, fn, readRet, p); }
  }

  lemma PlainApart(h: Handle, a: Act)
    requires Callable(h) && (a.CopyRef? || a.Close? || a.Write?)
    ensures Apart(h, Perform(h, a)) && Perform(h, a).slots == h.slots && Perform(h, a).tls == h.tls
  {
  }

  lemma PlainKept(h: Handle, a: Act, p: Terms)
    requires Inv(h) && Kept(h, p) && Callable(h)
    requires a.CopyRef? || a.Close? || a.Write?
    ensures Kept(Perform(h, a), p)
  {
    PlainApart(h, a);
    ApartKept(h, Perform(h, a), p);
  }

  lemma SlotsKeptBy(h: Handle, a: Act, counted: Option<multiset<Fn>>)
    requires Inv(h) && SlotsKept(h.slots, counted)
    ensures SlotsKept(Perform(h, a).slots, counted)
  {
    PerformAccount(h, a);
  }

  /** A call that honours the terms keeps what they promise. */
  lemma PerformKept(h: Handle, a: Act, p: Terms)
    requires Inv(h) && Kept(h, p) && ActHonours(h.kind, a, p)
    ensures Kept(Perform(h, a), p)
  {
    if Callable(h) {
      SlotsKeptBy(h, a, p.counted);
      if a.DropRef? {
        if h.refs.external > 0 { DropKept(h.(refs := h.refs.(external := h.refs.external - 1)), p); }
      } else if a.SetCallback? || a.SetHandshake? || a.GetSock? || a.GetPeer? {
        SettingKept(h, a, p);
      } else if a.Listen? || a.Connect? {
        StartKept(h, a, p);
      } else if a.Shutdown? || a.AttachIpc? || a.TlsWrite? {
        RequestKept(h, a, p);
      } else {
        PlainKept(h, a, p);
      }
    }
  }

  // ---------- scripts, callbacks and events ----------

  lemma {:induction false} ScriptKept(h: Handle, script: Script, p: Terms)
    requires Inv(h) && Kept(h, p) && Honours(h.kind, script, p)
    ensures Kept(RunScript(h, script), p)
    decreases |script|
  {
    if script != [] {
      var s := Perform(h, script[0]);
      PerformKeeps(h, script[0]);
      PerformKept(h, script[0], p);
      assert forall i :: 0 <= i < |script[1..]| ==> script[1..][i] == script[i + 1];
      ScriptKept(s, script[1..], p);
    }
  }

  lemma EnterCallKept(h: Handle, call: Call, p: Terms)
    requires Inv(h) && Kept(h, p) && h.refs.freed == 0 && (p.silent ==> !call.HandshakeCall?)
    ensures Inv(EnterCall(h, call)) && Kept(EnterCall(h, call), p)
  {
  }

  lemma LeaveCallKept(h: Handle, p: Terms)
    requires Inv(h) && Kept(h, p) && h.refs.frames > 0 && h.refs.freed == 0
    ensures Kept(LeaveCall(h), p)
  {
    var d := h.(refs := h.refs.(frames := h.refs.frames - 1));
    assert Balanced(d, 1) && Kept(d, p);
    DropKept(d, p);
  }

  lemma CallBackKept(h: Handle, slot: Slot, call: Call, script: Script, p: Terms)
    requires Inv(h) && Kept(h, p) && Honours(h.kind, script, p)
    requires call.HandshakeCall? ==> slot == HANDSHAKE
    ensures Kept(CallBack(h, slot, call, script), p)
  {
    if h.slots.cell[slot].Some? {
      var e := EnterCall(h, call);
      EnterCallKept(h, call, p);
      ScriptKeeps(e, script);
      ScriptKept(e, script, p);
      LeaveCallKept(RunScript(e, script), p);
    }
  }

  lemma CloseKept(h: Handle, p: Terms)
    requires Kept(h, p)
    ensures Kept(CloseSocket(h), p)
  {
  }

  lemma HandshakeCallbackKept(h: Handle, err: int, v: Verdict, p: Terms)
    requires Inv(h) && Kept(h, p) && Honours(h.kind, v.script, p)
    ensures Kept(HandshakeCallback(h, err, v).0, p)
  {
    CallBackKept(h, HANDSHAKE, HandshakeCall(err, v.accepts), v.script, p);
    CloseKept(CallBack(h, HANDSHAKE, HandshakeCall(err, v.accepts), v.script), p);
  }

  lemma {:induction false} VerifyAllKept(h: Handle, vs: seq<Verify>, p: Terms)
    requires Inv(h) && Kept(h, p)
    requires forall i :: 0 <= i < |vs| ==> Honours(h.kind, vs[i].verdict.script, p)
    ensures Kept(VerifyAll(h, vs).0, p)
    decreases |vs|
  {
    if vs != [] {
      var (s, ok) := VerifyCallback(h, vs[0]);
      var added := VerifyCallbackKeeps(h, vs[0]);
      if vs[0].err != X509_V_OK {
        var err := if vs[0].depth > VERIFY_DEPTH then X509_V_ERR_CERT_CHAIN_TOO_LONG else vs[0].err;
        HandshakeCallbackKept(h, err, vs[0].verdict, p);
      }
      assert Kept(s, p);
      if ok { VerifyAllKept(s, vs[1..], p); }
      assert VerifyAll(h, vs).0 == if ok then VerifyAll(s, vs[1..]).0 else s;
    }
  }

  lemma WriteBioKept(h: Handle, rets: seq<int>, p: Terms)
    requires Kept(h, p)
    ensures Kept(WriteBio(h, rets).0, p)
  {
    WriteBioApart(h, rets);
    ApartKept(h, WriteBio(h, rets).0, p);
  }

  lemma ServerNameKept(h: Handle, hs: Handshake, p: Terms)
    requires Inv(h) && Kept(h, p) && HandshakeHonours(h.kind, hs, p)
    ensures Kept(ServerName(h, hs), p)
  {
    if hs.serverName.Some? { ScriptKept(h, hs.serverName.value, p); }
  }

  lemma AttemptKept(h: Handle, hs: Handshake, p: Terms)
    requires Inv(h) && Kept(h, p) && HandshakeHonours(h.kind, hs, p)
    ensures Kept(Attempt(h, hs).0, p)
  {
    ServerNameKept(h, hs, p);
    ServerNameKeeps(h, hs);
    VerifyAllKept(ServerName(h, hs), hs.verify, p);
    var (s, verified) := VerifyAll(ServerName(h, hs), hs.verify);
    var a := s.(tls := Advance(s.tls, hs, verified).0);
    assert Kept(a, p);
    WriteBioKept(a, hs.rets, p);
    assert Attempt(h, hs).0 == WriteBio(a, hs.rets).0;
  }

  /** The engine is no part of what is promised. */
  lemma TlsKept(h: Handle, t: Tls, p: Terms)
    requires Inv(h) && Kept(h, p) && t.host == h.tls.host
    ensures Inv(h.(tls := t)) && Kept(h.(tls := t), p)
  {
  }

  lemma MismatchKept(h: Handle, v: Verdict, p: Terms)
    requires Inv(h) && Kept(h, p) && Honours(h.kind, v.script, p)
    ensures var k := HandshakeCallback(h, X509_V_ERR_SUBJECT_ISSUER_MISMATCH, v).0; Inv(k) && Kept(k, p)
  {
    HandshakeCallbackKept(h, X509_V_ERR_SUBJECT_ISSUER_MISMATCH, v, p);
    HandshakeCallbackKeeps(h, X509_V_ERR_SUBJECT_ISSUER_MISMATCH, v);
  }

  lemma CertsKept(h: Handle, p: Terms)
    requires Inv(h) && Kept(h, p)
    ensures Inv(TakeCert(h)) && Kept(TakeCert(h), p) && Inv(FreeCert(h)) && Kept(FreeCert(h), p)
  {
    TlsKept(h, TakeCert(h).tls, p);
    TlsKept(h, FreeCert(h).tls, p);
  }

  lemma CheckPeerKept(h: Handle, hs: Handshake, fits: bool, p: Terms)
    requires Inv(h) && Kept(h, p) && Honours(h.kind, hs.onMismatch.script, p)
    ensures Kept(CheckPeer(h, hs, fits).0, p)
  {
    if h.tls.clientMode && hs.cert.Some? {
      CertsKept(h, p);
      if fits {
        CertsKept(TakeCert(h), p);
      } else {
        MismatchKept(TakeCert(h), hs.onMismatch, p);
        CertsKept(HandshakeCallback(TakeCert(h), X509_V_ERR_SUBJECT_ISSUER_MISMATCH, hs.onMismatch).0, p);
      }
    }
  }

  lemma FinishKept(h: Handle, hs: Handshake, fits: bool, p: Terms)
    requires Inv(h) && Kept(h, p) && HandshakeHonours(h.kind, hs, p)
    ensures Kept(Finish(h, hs, fits).0, p)
  {
    CheckPeerKept(h, hs, fits, p);
    var added := CheckPeerKeeps(h, hs, fits);
    var (s, ok) := CheckPeer(h, hs, fits);
    if ok {
      HandshakeCallbackKept(s, X509_V_OK, hs.onDone, p);
      assert Finish(h, hs, fits) == HandshakeCallback(s, X509_V_OK, hs.onDone);
    }
  }

  lemma HandshakeKept(h: Handle, hs: Handshake, p: Terms)
    requires Inv(h) && h.kind.Ssl? && Kept(h, p) && HandshakeHonours(h.kind, hs, p)
    ensures Kept(HandleHandshake(h, hs).0, p)
  {
    if h.tls.initFinished {
      assert HandleHandshake(h, hs).0 == h.(flags := h.flags.(writeEnable := true));
    } else {
      AttemptKept(h, hs, p);
      var added := AttemptKeeps(h, hs);
      var (s, outcome) := Attempt(h, hs);
      match outcome {
        case WantRead => assert HandleHandshake(h, hs).0 == s;
        case WantWrite =>
          WriteBioKept(s, hs.retsAgain, p);
          assert HandleHandshake(h, hs).0 == WriteBio(s, hs.retsAgain).0;
        case Fatal =>
          CloseKept(s, p);
          assert HandleHandshake(h, hs).0 == CloseSocket(s);
        case Done =>
          var fits := CertificateFits(s, hs);
          FinishKept(s, hs, fits, p);
          assert HandleHandshake(h, hs).0 == Finish(s, hs, fits).0;
      }
    }
  }

  lemma HonoursNext(kind: Kind, scripts: seq<Script>, p: Terms)
    requires AllHonour(kind, scripts, p)
    ensures Honours(kind, Next(scripts), p) && AllHonour(kind, Tail(scripts), p)
  {
  }

  lemma {:induction false} DeliverKept(h: Handle, chunks: seq<seq<byte>>, scripts: seq<Script>, p: Terms)
    requires Inv(h) && Kept(h, p)
    requires AllHonour(h.kind, scripts, p)
    ensures Kept(Deliver(h, chunks, scripts), p)
    decreases |chunks|
  {
    if chunks != [] {
      var c := h.(tls := Consume(h.tls, chunks[0]));
      var s := CallBack(c, READ, ReadCall(chunks[0]), Next(scripts));
      DeliverOne(h, chunks[0], Next(scripts));
      TlsKept(h, c.tls, p);
      HonoursNext(h.kind, scripts, p);
      CallBackKept(c, READ, ReadCall(chunks[0]), Next(scripts), p);
      DeliverKept(s, chunks[1..], Tail(scripts), p);
      assert Deliver(h, chunks, scripts) == Deliver(s, chunks[1..], Tail(scripts));
    }
  }

  lemma TlsReadKept(h: Handle, e: Event, p: Terms)
    requires Safe(h) && Kept(h, p) && e.TlsRead? && Enabled(h, e) && EventHonours(h.kind, e, p)
    ensures Kept(Step(h, e), p)
  {
    var f := h.(tls := Feed(h.tls, e.data));
    assert Safe(f) && Kept(f, p);
    HandshakeKept(f, e.handshake, p);
    var added := HandshakeKeeps(f, e.handshake);
    var (s, goOn) := HandleHandshake(f, e.handshake);
    if goOn { DeliverKept(s, ReadChunks(s.tls.plain), e.scripts, p); }
    assert Step(h, e) == if goOn then Deliver(s, ReadChunks(s.tls.plain), e.scripts) else s;
  }

  lemma ReleaseKept(h: Handle, p: Terms)
    requires Inv(h) && Kept(h, p) && (p.pin != Loose ==> h.uv.closed) && !p.held && !p.receiving
    ensures Kept(Release(h), p)
  {
    StopActivityKeeps(h, 0);
    StopKept(h, p);
    if h.flags.internalRef { UnpinKept(StopActivity(h), p); }
  }

  lemma StopKept(h: Handle, p: Terms)
    requires Inv(h) && Kept(h, p) && !p.receiving
    ensures Kept(StopActivity(h), p)
  {
  }

  lemma UnpinKept(s: Handle, p: Terms)
    requires Inv(s) && Kept(s, p) && (p.pin != Loose ==> s.uv.closed) && !p.held && !p.receiving && s.flags.internalRef
    ensures var t := s.(flags := s.flags.(internalRef := false), refs := s.refs.(dropped := s.refs.dropped + 1));
            Kept(Drop(t), p)
  {
    var t := s.(flags := s.flags.(internalRef := false), refs := s.refs.(dropped := s.refs.dropped + 1));
    assert Balanced(t, 1) && Kept(t, p);
    DropKept(t, p);
  }

  lemma OpenEngineKept(h: Handle, hello: seq<byte>, rets: seq<int>, p: Terms)
    requires Inv(h) && Kept(h, p)
    ensures var k := OpenEngine(h, hello, rets);
            Inv(k) && Kept(k, p) && k.refs == h.refs && k.flags == h.flags && k.kind == h.kind
  {
    if h.kind.Ssl? {
      TlsKept(h, NewClient(h.tls, hello), p);
      var n := h.(tls := NewClient(h.tls, hello), log := h.log + [SslNew]);
      assert Inv(n) && Kept(n, p);
      WriteBioKeeps(n, rets);
      WriteBioFrame(n, rets);
      WriteBioKept(n, rets, p);
    }
  }

  lemma ConnectedKept(h: Handle, e: Event, p: Terms)
    requires Safe(h) && Kept(h, p) && e.Connected? && Enabled(h, e) && EventHonours(h.kind, e, p)
    ensures Kept(Step(h, e), p)
  {
    if e.readRet == 0 {
      var r := MarkReading(h.(uv := h.uv.(connecting := false, reading := true)));
      assert Inv(r) && Kept(r, p);
      OpenEngineKept(r, e.hello, e.rets, p);
      var s := OpenEngine(r, e.hello, e.rets);
      CallBackKept(s, CONNECT, ConnectCall(e.status), e.script, p);
      assert Step(h, e) == CallBack(s, CONNECT, ConnectCall(e.status), e.script);
    } else {
      assert Step(h, e) == h.(uv := h.uv.(connecting := false));
    }
  }

  lemma ResolvedKept(h: Handle, e: Event, p: Terms)
    requires Safe(h) && Kept(h, p) && e.Resolved? && Enabled(h, e) && EventHonours(h.kind, e, p)
    ensures Kept(Step(h, e), p)
  {
    var s := h.(uv := h.uv.(resolving := h.uv.resolving - 1));
    assert Safe(s) && Kept(s, p);
    if e.ret == 0 {
      assert Step(h, e) == s.(uv := s.uv.(connecting := true));
    } else {
      var c := CallBack(s, CONNECT, ConnectCall(e.ret), e.script);
      CallBackKept(s, CONNECT, ConnectCall(e.ret), e.script, p);
      CallBackSafe(s, CONNECT, ConnectCall(e.ret), e.script);
      ReleaseKept(c, p);
      assert Step(h, e) == Release(c);
    }
  }

  lemma CallEventKept(h: Handle, e: Event, p: Terms)
    requires Safe(h) && Kept(h, p) && Enabled(h, e) && EventHonours(h.kind, e, p)
    requires e.ReadData? || e.ReadFailed? || e.Incoming? || e.ShutdownDone?
    ensures Kept(Step(h, e), p)
  {
    match e
    case ReadData(data, script) => CallBackKept(h, READ, ReadCall(data), script, p);
    case ReadFailed(nread, script) =>
      CallBackKept(h, ERROR, ErrorCall(nread), script, p);
      CloseKept(CallBack(h, ERROR, ErrorCall(nread), script), p);
    case Incoming(status, script) => CallBackKept(h, CONNECT, ConnectCall(status), script, p);
    case ShutdownDone(status, script) =>
      var s := h.(uv := h.uv.(shutdowns := h.uv.shutdowns - 1));
      assert Inv(s) && Kept(s, p);
      CallBackKept(s, SHUTDOWN, ShutdownCall(status), script, p);
  }

  lemma WriteDoneKept(h: Handle, e: Event, p: Terms)
    requires Safe(h) && Kept(h, p) && e.WriteDone? && Enabled(h, e) && EventHonours(h.kind, e, p)
    ensures Kept(Step(h, e), p)
  {
    if h.flags.writeEnable {
      CallBackKept(h, WRITE, WriteCall(e.status, |h.uv.accepted[h.uv.completed]|), e.script, p);
    }
  }

  lemma StepKept(h: Handle, e: Event, p: Terms)
    requires Safe(h) && Kept(h, p) && EventHonours(h.kind, e, p)
    ensures Kept(Step(h, e), p)
  {
    if Enabled(h, e) {
      match e
      case UserCode(script) =>
        ScriptKept(h, script, p);
        assert Step(h, e) == RunScript(h, script);
      case Connected(_, _, _, _, _) => ConnectedKept(h, e, p);
      case WriteDone(_, _) => WriteDoneKept(h, e, p);
      case Resolved(_, _) => ResolvedKept(h, e, p);
      case TlsRead(_, _, _) => TlsReadKept(h, e, p);
      case CloseDone =>
        var c := h.(uv := h.uv.(closed := true));
        assert Inv(c) && Kept(c, p);
        ReleaseKept(c, p);
        assert Step(h, e) == Release(c);
      case _ => CallEventKept(h, e, p);
    }
  }

  /** A run whose user code honours the terms keeps what they promise. */
  lemma {:induction false} RunKept(h: Handle, events: seq<Event>, p: Terms)
    requires Safe(h) && Kept(h, p) && RunHonours(h.kind, events, p)
    ensures Kept(Run(h, events), p)
    decreases |events|
  {
    if events != [] {
      StepSafe(h, events[0]);
      StepKept(h, events[0], p);
      RunKept(Step(h, events[0]), events[1..], p);
    }
  }

  // ---------- the theorems ----------

  const NO_TERMS := Terms(None, Loose, false, false, false, None, None, None, None, None, false)

  /** `h` is the state after a run of a new or accepted handle whose user code honours the terms. */
  ghost predicate ReachableWith(h: Handle, p: Terms) {
    exists start: Handle, events: seq<Event> ::
      Initial(start) && RunHonours(start.kind, events, p) && h == Run(start, events)
  }

  /** Terms that every initial handle meets. */
  ghost predicate Startable(p: Terms) {
    && !p.held && !p.keeps && !p.receiving && p.sock.None? && p.peer.None? && p.host.None? && p.pin != Always
    && (p.counted.Some? ==> p.counted.value == multiset{})
  }

  lemma ReachableKept(h: Handle, p: Terms)
    requires ReachableWith(h, p) && Startable(p)
    ensures Safe(h) && Kept(h, p)
  {
    var start: Handle, events: seq<Event> :|
      Initial(start) && RunHonours(start.kind, events, p) && h == Run(start, events);
    InitialSafe(start);
    InitialKept(start, p);
    RunSafe(start, events);
    RunKept(start, events, p);
  }

  /** Some terms ask nothing of anybody. */
  ghost predicate AskNothing(p: Terms) {
    && !p.held && !p.keeps && !p.silent && !p.receiving && p.pin == Loose
    && p.sockReplies.None? && p.peerReplies.None? && p.host.None?
  }

  lemma NothingAsked(kind: Kind, events: seq<Event>, p: Terms)
    requires AskNothing(p)
    ensures RunHonours(kind, events, p)
  {
    forall i | 0 <= i < |events| ensures EventHonours(kind, events[i], p) { NoTermsHonoured(kind, events[i], p); }
  }

  lemma NoTermsHonoured(kind: Kind, e: Event, p: Terms)
    requires AskNothing(p)
    ensures EventHonours(kind, e, p)
  {
  }

  lemma InitialKept(start: Handle, p: Terms)
    requires Initial(start) && Startable(p)
    ensures Kept(start, p)
  {
    assert start.slots == EMPTY && start.sock == start.peer == NO_CACHE && start.log == [];
    assert start.uv == IDLE.(reading := start.uv.reading);
    assert Held(EMPTY_CELLS) == multiset{} by {
      assert EMPTY_CELLS[1..] == [None, None, None, None, None, None];
      NothingHeld(EMPTY_CELLS);
    }
  }

  const COUNTED := NO_TERMS.(counted := Some(multiset{}))

  lemma ReachableCounted(h: Handle)
    requires Reachable(h)
    ensures Safe(h) && Accounted(h.slots)
  {
    var start: Handle, events: seq<Event> :| Initial(start) && h == Run(start, events);
    NothingAsked(start.kind, events, COUNTED);
    ReachableKept(h, COUNTED);
  }

  /**
    Callback-slot ownership, over every run. Each reference that the extension took
    on a closure, and each it should have taken but borrowed, has been
    dropped once or stands in one slot; once the object is freed, in none.
  */
  lemma SlotsAccounted(h: Handle, f: Fn)
    requires Reachable(h) && f.Closure?
    ensures h.slots.taken[f] + h.slots.borrowed[f] == h.slots.dropped[f] + Occurrences(h.slots.cell, f)
    ensures h.refs.freed > 0 ==> Occurrences(h.slots.cell, f) == 0
  {
    ReachableCounted(h);
    AccountedOccurrences(h.slots, f);
    if h.refs.freed > 0 { EmptyHoldsNone(h.slots.cell, f); }
  }

  /** The slots own what they hold exactly if no call of the run left anything borrowed. */
  lemma OwnedUnlessBorrowed(h: Handle)
    requires Reachable(h)
    ensures Owned(h.slots) <==> h.slots.borrowed == multiset{}
  {
    ReachableCounted(h);
    OwnedExactly(h.slots);
  }

  /** What a call left borrowed is never given back. */
  lemma BorrowedStays(h: Handle, events: seq<Event>)
    requires Reachable(h)
    ensures h.slots.borrowed <= Run(h, events).slots.borrowed
  {
    ReachableCounted(h);
    var p := NO_TERMS.(counted := Some(h.slots.borrowed));
    NothingAsked(h.kind, events, p);
    RunKept(h, events, p);
  }

  /** Without a handshake callback nothing is delivered, and a finished handshake closes the socket. */
  lemma NoHandshakeNoDelivery(h: Handle)
    requires ReachableWith(h, NO_TERMS.(silent := true)) && h.kind.Ssl?
    ensures forall i :: 0 <= i < |h.log| ==> !h.log[i].ReadCall? && !h.log[i].WriteCall?
    ensures h.tls.initFinished ==> h.flags.closingStart && h.uv.closes == 1
  {
    ReachableKept(h, NO_TERMS.(silent := true));
    WatchMeaning(h.log);
  }

  // ---------- the stored host ----------

  /** The host that certificates are checked against stays over every run in which no `connect` names one of
      acceptable length; with `HostIsLastNamed`, it is the one that the last such `connect` named. */
  lemma HostStays(h: Handle, events: seq<Event>, cert: PeerCert, hs: Handshake)
    requires Reachable(h) && RunHonours(h.kind, events, NO_TERMS.(host := Some(h.tls.host)))
    requires hs.cert == Some(cert)
    ensures var k := Run(h, events);
            && k.tls.host == h.tls.host
            && (CertificateFits(k, hs) <==> cert.commonName || AltNamesAccept(cert.altNames, h.tls.host))
  {
    ReachableSafe(h);
    RunKept(h, events, NO_TERMS.(host := Some(h.tls.host)));
  }

  // ---------- the cached addresses ----------

  /** What the run's `getSockname` and `getSockport` calls return, from when the address is cached
      until it is released, is what it was at first. */
  lemma SockAnswersOnce(h: Handle, events: seq<Event>)
    requires Reachable(h) && IsCached(h.kind, h.sock)
    ensures var k := Run(h, events);
            k.sock.freed == h.sock.freed ==>
              && k.kind == h.kind && k.sock == h.sock
              && NameAnswer(k.kind, k.sock) == h.sock.addr
              && (!k.kind.Pipe? ==> PortAnswer(k.kind, k.sock) == Some(h.sock.port))
  {
    ReachableSafe(h);
    RunSafe(h, events);
    var p := NO_TERMS.(sock := Some(h.sock));
    NothingAsked(h.kind, events, p);
    RunKept(h, events, p);
  }

  /** The same for `getPeername` and `getPeerport`. */
  lemma PeerAnswersOnce(h: Handle, events: seq<Event>)
    requires Reachable(h) && IsCached(h.kind, h.peer)
    ensures var k := Run(h, events);
            k.peer.freed == h.peer.freed ==>
              && k.kind == h.kind && k.peer == h.peer
              && NameAnswer(k.kind, k.peer) == h.peer.addr
              && (!k.kind.Pipe? ==> PortAnswer(k.kind, k.peer) == Some(h.peer.port))
  {
    ReachableSafe(h);
    RunSafe(h, events);
    var p := NO_TERMS.(peer := Some(h.peer));
    NothingAsked(h.kind, events, p);
    RunKept(h, events, p);
  }

  /** The name and the port that the getters return come from one answer of the kernel: they are
      related by every relation that relates the name and the port of each answer of the run. */
  lemma AnswersFromOneReply(h: Handle, socks: iset<NameReply>, peers: iset<NameReply>)
    requires ReachableWith(h, NO_TERMS.(sockReplies := Some(socks), peerReplies := Some(peers)))
    ensures IsCached(h.kind, h.sock) ==>
              && NameAnswer(h.kind, h.sock).Some?
              && Reply(h.sock.port, NameAnswer(h.kind, h.sock).value) in socks
              && (!h.kind.Pipe? ==> PortAnswer(h.kind, h.sock) == Some(h.sock.port))
    ensures IsCached(h.kind, h.peer) ==>
              && NameAnswer(h.kind, h.peer).Some?
              && Reply(h.peer.port, NameAnswer(h.kind, h.peer).value) in peers
              && (!h.kind.Pipe? ==> PortAnswer(h.kind, h.peer) == Some(h.peer.port))
  {
    ReachableKept(h, NO_TERMS.(sockReplies := Some(socks), peerReplies := Some(peers)));
  }

  /** What a getter returns: what is cached; else what the kernel answers, a port of zero counting as
      no answer. Asked again, whatever the kernel would say by then, it returns the same. */
  lemma GetterAnswers(h: Handle, reply: NameReply, later: NameReply)
    requires Inv(h) && Callable(h)
    ensures var c, d := Perform(h, GetSock(reply)).sock, Perform(Perform(h, GetSock(reply)), GetSock(later)).sock;
            && GetterReturns(h.kind, h.sock, reply, NameAnswer(h.kind, c), PortAnswer(h.kind, c))
            && (IsCached(h.kind, c) ==> d == c)
    ensures var c, d := Perform(h, GetPeer(reply)).peer, Perform(Perform(h, GetPeer(reply)), GetPeer(later)).peer;
            && GetterReturns(h.kind, h.peer, reply, NameAnswer(h.kind, c), PortAnswer(h.kind, c))
            && (IsCached(h.kind, c) ==> d == c)
  {
    assert Perform(h, GetSock(reply)) == h.(sock := Resolve(h.kind, h.sock, reply));
    assert Perform(h, GetPeer(reply)) == h.(peer := Resolve(h.kind, h.peer, reply));
  }

  ghost predicate GetterReturns(kind: Kind, before: Cache, reply: NameReply, name: Option<string>, port: Option<nat>) {
    if IsCached(kind, before) then name == before.addr && (!kind.Pipe? ==> port == Some(before.port))
    else match reply
      case Failed => name.None? && port.None?
      case Reply(p, n) =>
        if !kind.Pipe? && p == 0 then name.None? && port.None?
        else name == Some(n) && (!kind.Pipe? ==> port == Some(p))
  }

  // ---------- the self-reference after the close callback ----------

  /** The calls that take the self-reference if it is not held. */
  predicate TakesSelf(h: Handle, a: Act) {
    && Callable(h)
    && match a
       case SetCallback(fns) => |fns| == 3
       case Listen(args) => !h.flags.handleStart && args.Some? && ListenCode(h.kind, args.value) == 0
       case Connect(args) => args.Some? && !StartConnect(h.kind, args.value).Refused?
       case Shutdown(fn, ret) => fn.Some? && ret == 0
       case AttachIpc(openRet, fn, readRet) => h.kind.Pipe? && openRet == 0 && fn.Some? && readRet == 0
       case _ => false
  }

  lemma ListenTakes(h: Handle, args: Option<ListenArgs>)
    requires !h.flags.internalRef
    ensures DoListen(h, args).0.flags.internalRef
        <==> !h.flags.handleStart && args.Some? && ListenCode(h.kind, args.value) == 0
  {
  }

  lemma ConnectTakes(h: Handle, args: Option<ConnectArgs>)
    requires !h.flags.internalRef
    ensures DoConnect(h, args).0.flags.internalRef <==> args.Some? && !StartConnect(h.kind, args.value).Refused?
  {
    if args.Some? { assert StoreHost(h, args.value).flags == h.flags; }
  }

  lemma RequestTakes(h: Handle, fn: Option<Fn>, ret: int, openRet: int)
    requires !h.flags.internalRef
    ensures DoShutdown(h, fn, ret).0.flags.internalRef <==> fn.Some? && ret == 0
    ensures DoAttachIpc(h, openRet, fn, ret).0.flags.internalRef <==> openRet == 0 && fn.Some? && ret == 0
  {
  }

  /** A call takes the self-reference exactly if it is one of those, before or after the close callback. */
  lemma SelfReferenceTaken(h: Handle, a: Act)
    requires Inv(h) && !h.flags.internalRef
    ensures Perform(h, a).flags.internalRef <==> TakesSelf(h, a)
  {
    if Callable(h) {
      match a
      case SetCallback(fns) => assert Perform(h, a) == SetCallbacks(h, fns);
      case Listen(args) =>
        ListenTakes(h, args);
        assert Perform(h, a) == DoListen(h, args).0;
      case Connect(args) =>
        ConnectTakes(h, args);
        assert Perform(h, a) == DoConnect(h, args).0;
      case Shutdown(fn, ret) =>
        RequestTakes(h, fn, ret, 0);
        assert Perform(h, a) == DoShutdown(h, fn, ret).0;
      case AttachIpc(openRet, fn, readRet) =>
        RequestTakes(h, fn, readRet, openRet);
        assert Perform(h, a) == if h.kind.Pipe? then DoAttachIpc(h, openRet, fn, readRet).0 else h;
      case DropRef =>
        if h.refs.external > 0 { DropFrame(h.(refs := h.refs.(external := h.refs.external - 1))); }
      case TlsWrite(message, rets) =>
        WriteBioFrame(h.(tls := SslWrite(h.tls, message).0), rets);
        assert Perform(h, a).flags == h.flags;
      case _ => assert Perform(h, a).flags.internalRef == h.flags.internalRef;
    }
  }

  /** After the close callback only the failing answer of a name resolution gives the self-reference back. */
  lemma GivenBackExactly(h: Handle, e: Event)
    requires Safe(h) && h.uv.closed && h.flags.internalRef
    ensures Step(h, e).uv.closed
    ensures Step(h, e).flags.internalRef <==> !(e.Resolved? && e.ret != 0 && h.kind.Ssl? && h.uv.resolving > 0)
  {
    if e.UserCode? {
      ScriptKeeps(h, e.script);
      assert Step(h, e) == RunScript(h, e.script);
    } else if Enabled(h, e) && e.ret != 0 {
      var s := h.(uv := h.uv.(resolving := h.uv.resolving - 1));
      CallBackSafe(s, CONNECT, ConnectCall(e.ret), e.script);
      var c := CallBack(s, CONNECT, ConnectCall(e.ret), e.script);
      ReleaseSafe(c);
      ReleaseFrame(c);
      assert Step(h, e) == Release(c);
    }
  }

  /** So what is taken after the close callback is never given back, and the object is never freed, as long
      as no name resolution fails then. */
  lemma {:induction false} TakenAfterCloseStays(h: Handle, events: seq<Event>)
    requires Safe(h) && h.uv.closed && h.flags.internalRef
    requires forall i :: 0 <= i < |events| ==> !(events[i].Resolved? && events[i].ret != 0)
    ensures var k := Run(h, events); k.uv.closed && k.flags.internalRef && k.refs.freed == 0
    decreases |events|
  {
    if events != [] {
      StepSafe(h, events[0]);
      GivenBackExactly(h, events[0]);
      TakenAfterCloseStays(Step(h, events[0]), events[1..]);
    }
  }
}
