/**
  The invariant of a stream handle in any state, also inside a callback: the
  reference ledger, the single close, the flags, the caches and the write
  requests. Every API call, every script and every callback keeps it.
*/
module StreamSteps {
  import opened Basics
  import opened Records
  import opened Callbacks
  import opened Streams

  // ---------- the invariant ----------

  ghost predicate CacheOk(kind: Kind, c: Cache) {
    && (IsCached(kind, c) ==> c.addr.Some?)
    && c.made == c.freed + c.lost + Bit(IsCached(kind, c))
    && (kind.Pipe? ==> c.port == 0 && c.lost == 0)
  }

  /** The handle is over: nothing is started, cached or held in a slot. */
  ghost predicate Bare(h: Handle) {
    && !h.flags.internalRef && !h.flags.handleStart && !h.flags.readStart
    && !IsCached(h.kind, h.sock) && !IsCached(h.kind, h.peer)
    && h.slots.cell == EMPTY_CELLS
  }

  /** The count is what PHP variables, callback arguments and the self-reference hold; `owed`
      references are about to be dropped. */
  ghost predicate LedgerOk(f: Flags, r: Refs, owed: nat) {
    && r.count == r.external + r.frames + Bit(f.internalRef) + owed
    && r.frames >= 0
    && r.taken == r.dropped + Bit(f.internalRef)
    && r.freed == Bit(r.count == 0)
    && !r.freedWhilePinned
  }

  ghost predicate FlagsOk(f: Flags) { f.readStart ==> f.handleStart }

  /** At most one `uv_close`; every write request is freed, in flight or refused; libuv reads only
      while the bit says so. */
  ghost predicate UvOk(f: Flags, u: Uv) {
    && u.closes == Bit(f.closingStart)
    && u.completed <= |u.accepted| && u.released == u.completed
    && u.made == |u.accepted| + |u.refused|
    && (u.reading ==> f.readStart)
  }

  ghost predicate SlotsOk(kind: Kind, s: Slots) {
    !kind.Ssl? ==> s.cell[SERVER_NAME].None? && s.cell[HANDSHAKE].None?
  }

  /** The invariant, for a handle of which `owed` references are about to be dropped. */
  ghost predicate Balanced(h: Handle, owed: nat) {
    && LedgerOk(h.flags, h.refs, owed)
    && FlagsOk(h.flags)
    && UvOk(h.flags, h.uv)
    && SlotsOk(h.kind, h.slots)
    && CacheOk(h.kind, h.sock) && CacheOk(h.kind, h.peer)
    && (h.refs.freed > 0 ==> Bare(h))
  }

  ghost predicate Inv(h: Handle) { Balanced(h, 0) }

  lemma StopActivityKeeps(h: Handle, owed: nat)
    requires Balanced(h, owed)
    ensures Balanced(StopActivity(h), owed)
    ensures !StopActivity(h).flags.handleStart && !StopActivity(h).flags.readStart
    ensures !IsCached(h.kind, StopActivity(h).sock) && !IsCached(h.kind, StopActivity(h).peer)
  {
  }

  lemma DropKeeps(h: Handle)
    requires Balanced(h, 1)
    ensures Inv(Drop(h))
    ensures Drop(h).refs.freed == 0 ==> Drop(h) == h.(refs := h.refs.(count := h.refs.count - 1))
    ensures h.flags.internalRef ==> Drop(h).refs.freed == 0
  {
    var s := h.(refs := h.refs.(count := h.refs.count - 1));
    if s.refs.count == 0 {
      var t := s.(refs := s.refs.(freed := s.refs.freed + 1,
                                  freedWhilePinned := s.refs.freedWhilePinned || s.flags.internalRef));
      assert Release(t) == StopActivity(t);
      var u := FreeObject(s);
      assert u.slots.cell == EMPTY_CELLS;
    }
  }

  lemma ReleaseKeeps(h: Handle)
    requires Inv(h)
    ensures Inv(Release(h))
    ensures !Release(h).flags.internalRef && !Release(h).flags.handleStart && !Release(h).flags.readStart
  {
    StopActivityKeeps(h, 0);
    var s := StopActivity(h);
    if s.flags.internalRef {
      var t := s.(flags := s.flags.(internalRef := false), refs := s.refs.(dropped := s.refs.dropped + 1));
      assert Balanced(t, 1);
      DropKeeps(t);
    }
  }

  /** `releaseResource` twice does what it does once. */
  lemma ReleaseIsIdempotent(h: Handle)
    requires Inv(h)
    ensures Release(Release(h)) == Release(h)
  {
    ReleaseKeeps(h);
    var r := Release(h);
    if r.refs.freed > 0 {
      assert StopActivity(r) == r;
    } else {
      var s := StopActivity(h);
      if s.flags.internalRef {
        DropKeeps(s.(flags := s.flags.(internalRef := false), refs := s.refs.(dropped := s.refs.dropped + 1)));
      }
      assert StopActivity(r) == r;
    }
  }

  // ---------- user code ----------

  ghost predicate TlsCalm(t: Tls, u: Tls) {
    && u.initFinished == t.initFinished && u.input == t.input
    && u.plain == t.plain && u.partial == t.partial && u.fed == t.fed
  }

  ghost predicate CertsCalm(t: Tls, u: Tls) {
    u.certsTaken == t.certsTaken && u.certsFreed == t.certsFreed
  }

  ghost predicate UvCalm(u: Uv, v: Uv) {
    && v.closed == u.closed && v.completed == u.completed && v.released == u.released
    && u.accepted <= v.accepted
  }

  ghost predicate FlagsCalm(kind: Kind, f: Flags, g: Flags) {
    && (kind.Ssl? ==> g.writeEnable == f.writeEnable)
    && (f.writeEnable ==> g.writeEnable)
    && (f.closingStart ==> g.closingStart)
    && (f.internalRef ==> g.internalRef)
  }

  /** What user code cannot change, the log and the certificate counts aside. */
  ghost predicate Settled(h: Handle, k: Handle) {
    && k.kind == h.kind && k.refs.frames == h.refs.frames
    && TlsCalm(h.tls, k.tls)
    && UvCalm(h.uv, k.uv)
    && FlagsCalm(h.kind, h.flags, k.flags)
  }

  ghost predicate Steady(h: Handle, k: Handle) {
    Settled(h, k) && CertsCalm(h.tls, k.tls)
  }

  ghost predicate Calm(h: Handle, k: Handle) {
    Steady(h, k) && k.log == h.log
  }

  /** One turn of the draining loop. */
  function WriteOne(h: Handle, ret: int): Handle {
    WriteRaw(h.(tls := h.tls.(output := h.tls.output[|Cut(h.tls.output)|..])), Cut(h.tls.output), ret)
  }

  lemma WriteBioUnfold(h: Handle, rets: seq<int>)
    requires h.tls.output != []
    ensures WriteBio(h, rets)
         == if Head(rets) != 0 then (WriteOne(h, Head(rets)), Head(rets)) else WriteBio(WriteOne(h, 0), Tail(rets))
  {
  }

  /** What draining can change: the BIO and the two lists of socket writes. */
  ghost predicate OnlyWrites(h: Handle, k: Handle) {
    && k == h.(tls := h.tls.(output := k.tls.output), uv := k.uv)
    && k.uv == h.uv.(accepted := k.uv.accepted, refused := k.uv.refused, made := k.uv.made)
    && h.uv.accepted <= k.uv.accepted
    && k.uv.made - |k.uv.accepted| - |k.uv.refused| == h.uv.made - |h.uv.accepted| - |h.uv.refused|
  }

  lemma {:induction false} WriteBioFrame(h: Handle, rets: seq<int>)
    ensures OnlyWrites(h, WriteBio(h, rets).0)
    decreases |h.tls.output|
  {
    if h.tls.output != [] {
      WriteBioUnfold(h, rets);
      var s := WriteOne(h, Head(rets));
      assert OnlyWrites(h, s);
      if Head(rets) == 0 {
        WriteBioFrame(s, Tail(rets));
        OnlyWritesTrans(h, s, WriteBio(h, rets).0);
      }
    }
  }

  lemma OnlyWritesTrans(h: Handle, s: Handle, k: Handle)
    requires OnlyWrites(h, s) && OnlyWrites(s, k)
    ensures OnlyWrites(h, k)
  {
  }

  lemma WriteBioKeeps(h: Handle, rets: seq<int>)
    requires Inv(h)
    ensures Inv(WriteBio(h, rets).0) && Calm(h, WriteBio(h, rets).0)
  {
    WriteBioFrame(h, rets);
  }

  /** Everything but the flags, the counts, the slots, the caches and `reading`. */
  ghost predicate SameRequests(h: Handle, k: Handle) {
    && k.kind == h.kind && k.log == h.log && k.tls == h.tls && k.refs.frames == h.refs.frames
    && k.refs.external == h.refs.external
    && k.uv == h.uv.(reading := k.uv.reading)
    && k.flags.writeEnable == h.flags.writeEnable && k.flags.closingStart == h.flags.closingStart
  }

  lemma DropRefKeeps(h: Handle)
    requires Inv(h) && Callable(h) && h.refs.external > 0
    ensures var k := Drop(h.(refs := h.refs.(external := h.refs.external - 1))); Inv(k) && Calm(h, k)
  {
    var s := h.(refs := h.refs.(external := h.refs.external - 1));
    DropKeeps(s);
    DropFrame(s);
  }

  /** Dropping a reference, even the last, touches neither the log nor the TLS engine. */
  lemma DropFrame(h: Handle)
    requires Balanced(h, 1)
    ensures SameRequests(h, Drop(h)) && Drop(h).flags.internalRef == h.flags.internalRef
  {
    var s := h.(refs := h.refs.(count := h.refs.count - 1));
    if s.refs.count == 0 {
      var t := s.(refs := s.refs.(freed := s.refs.freed + 1,
                                  freedWhilePinned := s.refs.freedWhilePinned || s.flags.internalRef));
      assert Release(t) == StopActivity(t);
    }
  }

  lemma SetSelfReferenceKeeps(h: Handle)
    requires Inv(h) && Callable(h)
    ensures Inv(SetSelfReference(h)) && Calm(h, SetSelfReference(h)) && Callable(SetSelfReference(h))
  {
  }

  lemma TlsWriteKeeps(h: Handle, message: seq<byte>, rets: seq<int>)
    requires Inv(h)
    ensures Inv(DoTlsWrite(h, message, rets).0) && Calm(h, DoTlsWrite(h, message, rets).0)
  {
    var s := h.(tls := SslWrite(h.tls, message).0);
    assert Inv(s) && Calm(h, s);
    WriteBioKeeps(s, rets);
  }

  /** Filling a slot, pinning the handle and starting it, as every successful start does. */
  lemma StartKeeps(h: Handle, s: Slots, reading: bool, u: Uv, t: Tls)
    requires Inv(h) && Callable(h) && SlotsOk(h.kind, s)
    requires UvCalm(h.uv, u) && UvOk(h.flags, u) && TlsCalm(h.tls, t) && CertsCalm(h.tls, t)
    ensures Inv(Start(h, s, reading, u, t)) && Calm(h, Start(h, s, reading, u, t))
  {
    SetSelfReferenceKeeps(h.(slots := s));
  }

  lemma SlotsKeep(h: Handle, s: Slots)
    requires Inv(h) && Callable(h) && SlotsOk(h.kind, s)
    ensures Inv(h.(slots := s)) && Calm(h, h.(slots := s))
  {
  }

  lemma ListenKeeps(h: Handle, args: Option<ListenArgs>)
    requires Inv(h) && Callable(h)
    ensures Inv(DoListen(h, args).0) && Calm(h, DoListen(h, args).0)
  {
    if !h.flags.handleStart {
      var freed := Free(h.slots, CONNECT);
      if args.None? {
        SlotsKeep(h, freed);
      } else {
        var s := Fill(freed, CONNECT, args.value.fn);
        if ListenCode(h.kind, args.value) != 0 {
          SlotsKeep(h, s);
          assert DoListen(h, args).0 == h.(slots := s);
        } else {
          StartKeeps(h, AddRef(s, CONNECT), false, h.uv.(listening := true), h.tls);
        }
      }
    }
  }

  lemma StoreHostKeeps(h: Handle, a: ConnectArgs, s: Slots)
    requires Inv(h) && Callable(h) && SlotsOk(h.kind, s)
    ensures Inv(StoreHost(h, a).(slots := s)) && Calm(h, StoreHost(h, a).(slots := s))
  {
  }

  lemma ConnectTlsCalm(h: Handle, a: ConnectArgs)
    ensures TlsCalm(h.tls, ConnectTls(h, a)) && CertsCalm(h.tls, ConnectTls(h, a))
  {
  }

  /** A connect that is not refused. */
  lemma ConnectStartsKeeps(h: Handle, a: ConnectArgs, u: Uv)
    requires Inv(h) && Callable(h)
    requires u == h.uv.(resolving := h.uv.resolving + 1) || u == h.uv.(connecting := true)
    ensures var k := Start(h, Install(h.slots, CONNECT, a.fn), false, u, ConnectTls(h, a)); Inv(k) && Calm(h, k)
  {
    ConnectTlsCalm(h, a);
    StartKeeps(h, Install(h.slots, CONNECT, a.fn), false, u, ConnectTls(h, a));
  }

  lemma ConnectKeeps(h: Handle, args: Option<ConnectArgs>)
    requires Inv(h) && Callable(h)
    ensures Inv(DoConnect(h, args).0) && Calm(h, DoConnect(h, args).0)
  {
    if args.None? {
      SlotsKeep(h, Free(h.slots, CONNECT));
    } else if StartConnect(h.kind, args.value).Refused? {
      StoreHostKeeps(h, args.value, Free(Install(h.slots, CONNECT, args.value.fn), CONNECT));
    } else {
      ConnectStartsKeeps(h, args.value, h.uv.(resolving := h.uv.resolving + 1));
      ConnectStartsKeeps(h, args.value, h.uv.(connecting := true));
    }
  }

  lemma SetCallbacksKeeps(h: Handle, fns: Parsed)
    requires Inv(h) && Callable(h)
    ensures Inv(SetCallbacks(h, fns)) && Calm(h, SetCallbacks(h, fns))
  {
    var s := ParseCallbacks(h.slots, fns);
    if |fns| < 3 {
      SlotsKeep(h, s);
    } else {
      SetSelfReferenceKeeps(h.(slots := OwnCallbacks(s)));
    }
  }

  lemma ShutdownKeeps(h: Handle, fn: Option<Fn>, ret: int)
    requires Inv(h) && Callable(h)
    ensures Inv(DoShutdown(h, fn, ret).0) && Calm(h, DoShutdown(h, fn, ret).0)
  {
    if fn.None? {
      SlotsKeep(h, Free(h.slots, SHUTDOWN));
    } else {
      SlotsKeep(h, Install(h.slots, SHUTDOWN, fn.value));
      SetSelfReferenceKeeps(h.(slots := Install(h.slots, SHUTDOWN, fn.value)));
    }
  }

  lemma AttachIpcKeeps(h: Handle, openRet: int, fn: Option<Fn>, readRet: int)
    requires Inv(h) && Callable(h)
    ensures Inv(DoAttachIpc(h, openRet, fn, readRet).0) && Calm(h, DoAttachIpc(h, openRet, fn, readRet).0)
  {
    if openRet == 0 {
      if fn.None? {
        SlotsKeep(h, Free(h.slots, CONNECT));
      } else {
        var s := Install(h.slots, CONNECT, fn.value);
        SlotsKeep(h, s);
        StartKeeps(h, s, true, h.uv.(listening := true), h.tls);
      }
    }
  }

  lemma GetNameKeeps(h: Handle, reply: NameReply)
    requires Inv(h) && Callable(h)
    ensures var k := h.(sock := Resolve(h.kind, h.sock, reply)); Inv(k) && Calm(h, k)
    ensures var k := h.(peer := Resolve(h.kind, h.peer, reply)); Inv(k) && Calm(h, k)
  {
  }

  lemma SetHandshakeKeeps(h: Handle, fn: Option<Fn>)
    requires Inv(h) && Callable(h) && h.kind.Ssl?
    ensures var k := Perform(h, SetHandshake(fn)); Inv(k) && Calm(h, k)
  {
    if fn.None? {
      SlotsKeep(h, Free(h.slots, HANDSHAKE));
    } else {
      SlotsKeep(h, Install(h.slots, HANDSHAKE, fn.value));
    }
  }

  lemma WriteRawKeeps(h: Handle, data: seq<byte>, ret: int)
    requires Inv(h)
    ensures Inv(WriteRaw(h, data, ret)) && Calm(h, WriteRaw(h, data, ret))
  {
  }

  lemma WriteKeeps(h: Handle, data: seq<byte>, ret: int)
    requires Inv(h) && Callable(h) && !h.kind.Ssl?
    ensures var k := WriteRaw(h.(flags := h.flags.(writeEnable := true)), data, ret); Inv(k) && Calm(h, k)
  {
    WriteRawKeeps(h.(flags := h.flags.(writeEnable := true)), data, ret);
  }

  /** Releasing touches neither the log nor the TLS engine nor libuv's requests. */
  lemma ReleaseFrame(h: Handle)
    requires Inv(h)
    ensures SameRequests(h, Release(h))
  {
    var s := StopActivity(h);
    StopActivityKeeps(h, 0);
    assert SameRequests(h, s);
    if s.flags.internalRef {
      var t := s.(flags := s.flags.(internalRef := false), refs := s.refs.(dropped := s.refs.dropped + 1));
      assert Balanced(t, 1);
      DropFrame(t);
      assert Release(h) == Drop(t);
      SameRequestsTrans(h, t, Drop(t));
    }
  }

  lemma SameRequestsTrans(h: Handle, s: Handle, k: Handle)
    requires SameRequests(h, s) && SameRequests(s, k)
    ensures SameRequests(h, k)
  {
  }

  lemma PerformPlainKeeps(h: Handle, a: Act)
    requires Inv(h) && Callable(h)
    requires a.CopyRef? || a.DropRef? || a.Close? || a.Write? || a.SetHandshake?
    ensures Inv(Perform(h, a)) && Calm(h, Perform(h, a))
  {
    match a
    case CopyRef =>
    case DropRef =>
      if h.refs.external > 0 { DropRefKeeps(h); }
    case Close =>
      assert Perform(h, a) == CloseSocket(h);
    case Write(data, ret) =>
      if h.kind.Ssl? {
        assert Perform(h, a) == h;
      } else {
        WriteKeeps(h, data, ret);
        assert Perform(h, a) == WriteRaw(h.(flags := h.flags.(writeEnable := true)), data, ret);
      }
    case SetHandshake(fn) =>
      if h.kind.Ssl? { SetHandshakeKeeps(h, fn); } else { assert Perform(h, a) == h; }
  }

  lemma PerformStartKeeps(h: Handle, a: Act)
    requires Inv(h) && Callable(h)
    requires a.SetCallback? || a.Listen? || a.Connect? || a.Shutdown? || a.AttachIpc?
    ensures Inv(Perform(h, a)) && Calm(h, Perform(h, a))
  {
    match a
    case SetCallback(fns) =>
      SetCallbacksKeeps(h, fns);
      assert Perform(h, a) == SetCallbacks(h, fns);
    case Listen(args) =>
      ListenKeeps(h, args);
      assert Perform(h, a) == DoListen(h, args).0;
    case Connect(args) =>
      ConnectKeeps(h, args);
      assert Perform(h, a) == DoConnect(h, args).0;
    case Shutdown(fn, ret) =>
      ShutdownKeeps(h, fn, ret);
      assert Perform(h, a) == DoShutdown(h, fn, ret).0;
    case AttachIpc(openRet, fn, readRet) =>
      AttachIpcKeeps(h, openRet, fn, readRet);
      assert Perform(h, a) == if h.kind.Pipe? then DoAttachIpc(h, openRet, fn, readRet).0 else h;
  }

  lemma PerformRestKeeps(h: Handle, a: Act)
    requires Inv(h) && Callable(h)
    requires a.TlsWrite? || a.GetSock? || a.GetPeer?
    ensures Inv(Perform(h, a)) && Calm(h, Perform(h, a))
  {
    match a
    case TlsWrite(message, rets) => TlsWriteKeeps(h, message, rets);
    case GetSock(reply) => GetNameKeeps(h, reply);
    case GetPeer(reply) => GetNameKeeps(h, reply);
  }

  lemma PerformKeeps(h: Handle, a: Act)
    requires Inv(h)
    ensures Inv(Perform(h, a)) && Calm(h, Perform(h, a))
  {
    if Callable(h) {
      if a.CopyRef? || a.DropRef? || a.Close? || a.Write? || a.SetHandshake? {
        PerformPlainKeeps(h, a);
      } else if a.TlsWrite? || a.GetSock? || a.GetPeer? {
        PerformRestKeeps(h, a);
      } else {
        PerformStartKeeps(h, a);
      }
    }
  }

  lemma {:induction false} ScriptKeeps(h: Handle, script: Script)
    requires Inv(h)
    ensures Inv(RunScript(h, script)) && Calm(h, RunScript(h, script))
    decreases |script|
  {
    if script != [] {
      PerformKeeps(h, script[0]);
      ScriptKeeps(Perform(h, script[0]), script[1..]);
    }
  }

  // ---------- callbacks ----------

  lemma LeaveCallKeeps(h: Handle)
    requires Inv(h) && h.refs.frames > 0 && h.refs.freed == 0
    ensures Inv(LeaveCall(h))
    ensures LeaveCall(h).log == h.log && LeaveCall(h).kind == h.kind && LeaveCall(h).refs.frames == h.refs.frames - 1
    ensures LeaveCall(h).tls == h.tls && UvCalm(h.uv, LeaveCall(h).uv)
    ensures FlagsCalm(h.kind, h.flags, LeaveCall(h).flags)
    ensures h.flags.internalRef ==> LeaveCall(h) == h.(refs := LeaveCall(h).refs) && LeaveCall(h).refs.freed == 0
  {
    var s := h.(refs := h.refs.(frames := h.refs.frames - 1));
    assert Balanced(s, 1);
    DropKeeps(s);
    DropFrame(s);
  }

  /** A callback keeps the invariant, adds its own entry to the log, and leaves a pinned handle alive. */
  lemma CallBackKeeps(h: Handle, slot: Slot, call: Call, script: Script)
    requires Inv(h)
    ensures var k := CallBack(h, slot, call, script);
            && Inv(k) && Steady(h, k)
            && k.log == h.log + (if h.slots.cell[slot].Some? then [call] else [])
            && (h.flags.internalRef ==> k.refs.freed == 0)
  {
    if h.slots.cell[slot].Some? {
      var e := EnterCall(h, call);
      assert Inv(e);
      ScriptKeeps(e, script);
      var r := RunScript(e, script);
      LeaveCallKeeps(r);
    }
  }

  lemma CloseKeeps(h: Handle)
    requires Inv(h)
    ensures Inv(CloseSocket(h)) && Calm(h, CloseSocket(h)) && CloseSocket(h).flags.closingStart
  {
  }

  lemma HandshakeCallbackKeeps(h: Handle, err: int, v: Verdict)
    requires Inv(h)
    ensures var (k, ok) := HandshakeCallback(h, err, v);
            && Inv(k) && Steady(h, k)
            && k.log == h.log + (if h.slots.cell[HANDSHAKE].Some? then [HandshakeCall(err, v.accepts)] else [])
            && (ok <==> h.slots.cell[HANDSHAKE].Some? && v.accepts)
            && (!ok ==> k.flags.closingStart)
  {
    CallBackKeeps(h, HANDSHAKE, HandshakeCall(err, v.accepts), v.script);
    CloseKeeps(CallBack(h, HANDSHAKE, HandshakeCall(err, v.accepts), v.script));
  }
}
