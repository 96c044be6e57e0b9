/**
  The resource struct of a stream handle and the C functions that work on it, in
  place. `View` gives its state as a value of `Streams`; every method is
  specified by the step of `Streams` it performs. `Dispatch` delivers an event,
  `RunLoop` a run of them, and `Live` says what then holds of the fields.
*/
module StreamHandles {
  import opened Basics
  import opened Records
  import opened Callbacks
  import opened CertificateNames
  import opened Streams
  import opened StreamSteps
  import opened TlsSteps
  import opened StreamRuns
  import opened Promises
  import opened TlsEngines

  // ---------- the bits of `flag` ----------

  const INTERNAL_REF: bv32 := 1
  const HANDLE_START: bv32 := 2
  const READ_START: bv32 := 4
  const CLOSING_START: bv32 := 8
  const WRITE_CALLBACK_ENABLE: bv32 := 16

  function Decode(flag: bv32): Flags {
    Flags(flag & INTERNAL_REF != 0, flag & HANDLE_START != 0, flag & READ_START != 0,
          flag & CLOSING_START != 0, flag & WRITE_CALLBACK_ENABLE != 0)
  }

  lemma OtherBit(flag: bv32, m: bv32, n: bv32)
    requires m & n == 0
    ensures (flag | m) & n == flag & n
    ensures (flag & !m) & n == flag & n
  {
  }

  lemma OwnBit(flag: bv32, m: bv32)
    ensures (flag | m) & m == m
    ensures (flag & !m) & m == 0
  {
  }

  /** Setting or clearing the bits of `m` leaves every bit outside `m` alone. */
  lemma OtherBits(flag: bv32, m: bv32)
    ensures m & INTERNAL_REF == 0 ==> (flag | m) & INTERNAL_REF == flag & INTERNAL_REF == (flag & !m) & INTERNAL_REF
    ensures m & HANDLE_START == 0 ==> (flag | m) & HANDLE_START == flag & HANDLE_START == (flag & !m) & HANDLE_START
    ensures m & READ_START == 0 ==> (flag | m) & READ_START == flag & READ_START == (flag & !m) & READ_START
    ensures m & CLOSING_START == 0 ==> (flag | m) & CLOSING_START == flag & CLOSING_START == (flag & !m) & CLOSING_START
    ensures m & WRITE_CALLBACK_ENABLE == 0 ==>
      (flag | m) & WRITE_CALLBACK_ENABLE == flag & WRITE_CALLBACK_ENABLE == (flag & !m) & WRITE_CALLBACK_ENABLE
  {
    if m & INTERNAL_REF == 0 { OtherBit(flag, m, INTERNAL_REF); }
    if m & HANDLE_START == 0 { OtherBit(flag, m, HANDLE_START); }
    if m & READ_START == 0 { OtherBit(flag, m, READ_START); }
    if m & CLOSING_START == 0 { OtherBit(flag, m, CLOSING_START); }
    if m & WRITE_CALLBACK_ENABLE == 0 { OtherBit(flag, m, WRITE_CALLBACK_ENABLE); }
  }

  lemma InternalRefBit(flag: bv32)
    ensures Decode(flag | INTERNAL_REF) == Decode(flag).(internalRef := true)
    ensures Decode(flag & !INTERNAL_REF) == Decode(flag).(internalRef := false)
  {
    OwnBit(flag, INTERNAL_REF);
    OtherBits(flag, INTERNAL_REF);
  }

  lemma HandleStartBit(flag: bv32)
    ensures Decode(flag | HANDLE_START) == Decode(flag).(handleStart := true)
    ensures Decode(flag & !HANDLE_START) == Decode(flag).(handleStart := false)
  {
    OwnBit(flag, HANDLE_START);
    OtherBits(flag, HANDLE_START);
  }

  lemma ReadStartBit(flag: bv32)
    ensures Decode(flag | READ_START) == Decode(flag).(readStart := true)
    ensures Decode(flag & !READ_START) == Decode(flag).(readStart := false)
  {
    OwnBit(flag, READ_START);
    OtherBits(flag, READ_START);
  }

  lemma ClosingStartBit(flag: bv32)
    ensures Decode(flag | CLOSING_START) == Decode(flag).(closingStart := true)
  {
    OwnBit(flag, CLOSING_START);
    OtherBits(flag, CLOSING_START);
  }

  lemma WriteEnableBit(flag: bv32)
    ensures Decode(flag | WRITE_CALLBACK_ENABLE) == Decode(flag).(writeEnable := true)
  {
    OwnBit(flag, WRITE_CALLBACK_ENABLE);
    OtherBits(flag, WRITE_CALLBACK_ENABLE);
  }

  class StreamHandle {
    const kind: Kind
    var flag: bv32
    var refs: Refs
    var slots: Slots
    var sock: Cache   // sockPort and sockAddr
    var peer: Cache   // peerPort and peerAddr
    var uv: Uv
    var clientMode: bool
    var sniConnectHostname: string
    const ssl: TlsEngine
    const gcTable: array<Fn>
    ghost var certsTaken: nat
    ghost var certsFreed: nat
    ghost var log: seq<Call>

    ghost function ViewTls(): Tls
      reads this, ssl
    {
      ssl.View().(clientMode := clientMode, host := sniConnectHostname,
                  certsTaken := certsTaken, certsFreed := certsFreed)
    }

    ghost function View(): Handle
      reads this, ssl
    {
      Handle(kind, Decode(flag), refs, slots, sock, peer, uv, ViewTls(), log)
    }

    /** `createUVTcpResource` and `__construct`. */
    constructor (kind: Kind)
      ensures View() == Constructed(kind)
      ensures fresh(ssl) && fresh(gcTable) && gcTable.Length == SLOTS
    {
      this.kind := kind;
      flag, refs, slots := 0, NO_REFS, EMPTY;
      sock, peer := NO_CACHE, NO_CACHE;
      uv, clientMode, sniConnectHostname := IDLE, false, "";
      ssl := new TlsEngine();
      gcTable := new Fn[SLOTS](_ => Named(""));
      certsTaken, certsFreed, log := 0, 0, [];
    }

    /** The handle that `accept` makes. */
    constructor Accept(kind: Kind)
      ensures View() == Accepted(kind)
      ensures fresh(ssl) && fresh(gcTable) && gcTable.Length == SLOTS
    {
      this.kind := kind;
      flag, refs, slots := HANDLE_START | READ_START, NO_REFS, EMPTY;
      sock, peer := NO_CACHE, NO_CACHE;
      uv, clientMode, sniConnectHostname := IDLE.(reading := true), false, "";
      ssl := new TlsEngine();
      gcTable := new Fn[SLOTS](_ => Named(""));
      certsTaken, certsFreed, log := 0, 0, [];
    }

    // ---------- closing, the self-reference and release ----------

    method CloseSocket()
      modifies this
      ensures View() == Streams.CloseSocket(old(View()))
    {
      if flag & CLOSING_START != 0 { return; }
      ClosingStartBit(flag);
      flag := flag | CLOSING_START;
      uv := uv.(closes := uv.closes + 1);
    }

    method SetSelfReference()
      modifies this
      ensures View() == Streams.SetSelfReference(old(View()))
    {
      if flag & INTERNAL_REF != 0 { return; }
      InternalRefBit(flag);
      refs := refs.(count := refs.count + 1, taken := refs.taken + 1);
      flag := flag | INTERNAL_REF;
    }

    method ReleaseAddresses()
      modifies this`sock, this`peer
      ensures var h := old(View());
              View() == h.(sock := ReleaseCache(h.kind, h.sock), peer := ReleaseCache(h.kind, h.peer))
    {
      if IsCached(kind, sock) { sock := sock.(port := 0, addr := None, freed := sock.freed + 1); }
      if IsCached(kind, peer) { peer := peer.(port := 0, addr := None, freed := peer.freed + 1); }
    }

    method ClearReadStart()
      modifies this`flag
      ensures View() == old(View()).(flags := old(View()).flags.(readStart := false))
    {
      ReadStartBit(flag);
      flag := flag & !READ_START;
    }

    method ClearHandleStart()
      modifies this`flag
      ensures View() == old(View()).(flags := old(View()).flags.(handleStart := false))
    {
      HandleStartBit(flag);
      flag := flag & !HANDLE_START;
    }

    method ClearInternalRef()
      modifies this`flag
      ensures View() == old(View()).(flags := old(View()).flags.(internalRef := false))
    {
      InternalRefBit(flag);
      flag := flag & !INTERNAL_REF;
    }

    /** The part of `releaseResource` before the self-reference. */
    method Stop()
      modifies this
      ensures View() == StopActivity(old(View()))
    {
      StopReading();
      if flag & HANDLE_START != 0 { ClearHandleStart(); }
    }

    method StopReading()
      modifies this
      ensures var h := old(View());
              View() == h.(sock := ReleaseCache(h.kind, h.sock), peer := ReleaseCache(h.kind, h.peer),
                           flags := h.flags.(readStart := false),
                           uv := h.uv.(reading := h.uv.reading && !h.flags.readStart))
    {
      ReleaseAddresses();
      if flag & READ_START != 0 {
        ClearReadStart();
        uv := uv.(reading := false);
      }
    }

    /** The nested call through the free handler finds the bit cleared, and ends. */
    method ReleaseResource()
      modifies this
      ensures View() == Release(old(View()))
      decreases Bit(Decode(flag).internalRef), 0
    {
      Stop();
      if flag & INTERNAL_REF != 0 {
        ClearInternalRef();
        refs := refs.(dropped := refs.dropped + 1);
        DropReference();
      }
    }

    /** `zval_ptr_dtor`. */
    method DropReference()
      modifies this
      ensures View() == Drop(old(View()))
      decreases Bit(Decode(flag).internalRef), 2
    {
      refs := refs.(count := refs.count - 1);
      if refs.count == 0 { FreeObject(); }
    }

    method FreeObject()
      modifies this
      ensures View() == Streams.FreeObject(old(View()))
      decreases Bit(Decode(flag).internalRef), 1
    {
      CountFree();
      ReleaseResource();
      FreeFunctionCaches();
    }

    method CountFree()
      modifies this`refs
      ensures var h := old(View());
              View() == h.(refs := h.refs.(freed := h.refs.freed + 1,
                                           freedWhilePinned := h.refs.freedWhilePinned || h.flags.internalRef))
    {
      refs := refs.(freed := refs.freed + 1, freedWhilePinned := refs.freedWhilePinned || flag & INTERNAL_REF != 0);
    }

    /** `releaseUVTcpFunctionCache`, and for TLS `releaseUVSSLFunctionCache`. */
    method FreeFunctionCaches()
      modifies this`slots
      ensures var h := old(View());
              View() == h.(slots := FreeFirst(h.slots, if h.kind.Ssl? then SLOTS else TCP_SLOTS))
    {
      ghost var first := slots;
      assert FreeFirst(first, 0) == first;
      slots := Free(slots, READ);
      assert slots == FreeFirst(first, READ + 1);
      slots := Free(slots, WRITE);
      assert slots == FreeFirst(first, WRITE + 1);
      slots := Free(slots, ERROR);
      assert slots == FreeFirst(first, ERROR + 1);
      slots := Free(slots, CONNECT);
      assert slots == FreeFirst(first, CONNECT + 1);
      slots := Free(slots, SHUTDOWN);
      assert slots == FreeFirst(first, TCP_SLOTS);
      if kind.Ssl? {
        slots := Free(slots, SERVER_NAME);
        assert slots == FreeFirst(first, SERVER_NAME + 1);
        slots := Free(slots, HANDSHAKE);
        assert slots == FreeFirst(first, SLOTS);
      }
    }

    // ---------- the collector's table ----------

    /** `FCI_GC_TABLE_EX` for one slot. */
    method TableEntry(i: Slot, index: nat) returns (next: nat)
      requires gcTable.Length == SLOTS && index <= i && gcTable[..index] == Filled(slots.cell[..i])
      modifies gcTable
      ensures next <= i + 1 && gcTable[..next] == Filled(slots.cell[..i + 1])
    {
      FilledSnoc(slots.cell, i);
      next := index;
      if slots.cell[i].Some? {
        gcTable[index] := slots.cell[i].value;
        next := index + 1;
      }
    }

    /** `get_gc_UVTcpResource`: the table is the filled slots, in order; of TCP handles and pipes, all of them. */
    method GetGc() returns (n: nat)
      requires gcTable.Length == SLOTS
      modifies gcTable
      ensures n <= 5 && gcTable[..n] == Filled(slots.cell[..TCP_SLOTS])
      ensures SlotsOk(kind, slots) && !kind.Ssl? ==> gcTable[..n] == Filled(slots.cell)
    {
      n := 0;
      n := TableEntry(READ, n);
      n := TableEntry(WRITE, n);
      n := TableEntry(ERROR, n);
      n := TableEntry(CONNECT, n);
      n := TableEntry(SHUTDOWN, n);
      if SlotsOk(kind, slots) && !kind.Ssl? { EmptyTail(slots.cell, TCP_SLOTS); }
    }

    /** `get_gc_UVSSLResource` extends that table without disturbing it, and never overruns it. */
    method GetGcSsl() returns (n: nat)
      requires gcTable.Length == SLOTS
      modifies gcTable
      ensures n <= 7 && gcTable[..n] == Filled(slots.cell)
      ensures Filled(slots.cell[..TCP_SLOTS]) <= gcTable[..n]
    {
      n := GetGc();
      n := TableEntry(SERVER_NAME, n);
      n := TableEntry(HANDSHAKE, n);
      assert slots.cell[..SLOTS] == slots.cell;
      assert slots.cell == slots.cell[..TCP_SLOTS] + slots.cell[TCP_SLOTS..];
      FilledAppend(slots.cell[..TCP_SLOTS], slots.cell[TCP_SLOTS..]);
    }

    // ---------- API methods ----------

    method ClearThree()
      modifies this`slots
      ensures slots == Cleared(old(slots))
    {
      slots := Free(slots, READ);
      slots := Free(slots, WRITE);
      slots := Free(slots, ERROR);
    }

    /** Parse the leading callables of a `"fff"` argument list into the freed slots. */
    method ParseArguments(fns: Parsed)
      modifies this`slots
      ensures View() == old(View()).(slots := ParseCallbacks(old(slots), fns))
    {
      ClearThree();
      ghost var cleared := slots;
      if |fns| > 0 {
        FillNext(cleared, fns, 0);
        slots := Fill(slots, READ, fns[0]);
      }
      if |fns| > 1 {
        FillNext(cleared, fns, 1);
        slots := Fill(slots, WRITE, fns[1]);
      }
      if |fns| > 2 {
        FillNext(cleared, fns, 2);
        slots := Fill(slots, ERROR, fns[2]);
      }
      FillNone(cleared, fns);
    }

    method AddReferences()
      modifies this`slots
      ensures View() == old(View()).(slots := OwnCallbacks(old(slots)))
    {
      slots := AddRef(slots, READ);
      slots := AddRef(slots, WRITE);
      slots := AddRef(slots, ERROR);
    }

    method SetCallback(fns: Parsed)
      modifies this
      ensures View() == SetCallbacks(old(View()), fns)
    {
      ParseArguments(fns);
      if |fns| < 3 { return; }
      AddReferences();
      SetSelfReference();
    }

    /** The end of every successful start. */
    method MarkStarted()
      modifies this`flag
      ensures View() == old(View()).(flags := old(View()).flags.(handleStart := true))
    {
      HandleStartBit(flag);
      flag := flag | HANDLE_START;
    }

    /** Pin and start. */
    method Begin()
      modifies this
      ensures var p := Streams.SetSelfReference(old(View())); View() == p.(flags := p.flags.(handleStart := true))
    {
      SetSelfReference();
      MarkStarted();
    }

    method MarkReading()
      modifies this`flag
      ensures View() == Streams.MarkReading(old(View()))
    {
      HandleStartBit(flag);
      flag := flag | HANDLE_START;
      ReadStartBit(flag);
      flag := flag | READ_START;
    }

    method Listen(args: Option<ListenArgs>) returns (ret: Ret)
      modifies this
      ensures (View(), ret) == DoListen(old(View()), args)
    {
      ghost var h := View();
      if flag & HANDLE_START != 0 { return Long(-1); }
      slots := Free(slots, CONNECT);
      assert View() == h.(slots := slots);
      if args.None? { return Null; }
      var a := args.value;
      slots := Fill(slots, CONNECT, a.fn);
      assert View() == h.(slots := slots);
      if BadHost(kind, a.host) { return Long(-1); }
      if !kind.Pipe? && a.addrRet != 0 { return Long(a.addrRet); }
      if a.bindRet != 0 { return Long(a.bindRet); }
      if a.listenRet != 0 { return Long(a.listenRet); }
      uv := uv.(listening := true);
      slots := AddRef(slots, CONNECT);
      assert View() == h.(slots := slots, uv := uv);
      Begin();
      assert View() == Start(h, AddRef(Fill(Free(h.slots, CONNECT), CONNECT, a.fn), CONNECT), false,
                             h.uv.(listening := true), h.tls);
      return Long(0);
    }

    /** `UVTcp::connect`, `UVPipe::connect`. */
    method Connect(args: Option<ConnectArgs>) returns (ret: Ret)
      requires !kind.Ssl?
      modifies this
      ensures (View(), ret) == DoConnect(old(View()), args)
    {
      ghost var h := View();
      slots := Free(slots, CONNECT);
      assert View() == h.(slots := slots);
      if args.None? { return Null; }
      var a := args.value;
      slots := AddRef(Fill(slots, CONNECT, a.fn), CONNECT);
      ghost var owned := slots;
      assert View() == h.(slots := Install(h.slots, CONNECT, a.fn));
      if BadHost(kind, a.host) {
        slots := Free(slots, CONNECT);
        assert View() == h.(slots := slots);
        return Long(-1);
      }
      if !kind.Pipe? && a.addrRet != 0 {
        slots := Free(slots, CONNECT);
        return Long(a.addrRet);
      }
      if !kind.Pipe? && a.connectRet != 0 {
        slots := Free(slots, CONNECT);
        return Long(a.connectRet);
      }
      uv := uv.(connecting := true);
      assert View() == h.(slots := owned, uv := uv);
      Begin();
      assert View() == Start(h, owned, false, h.uv.(connecting := true), h.tls);
      return Long(0);
    }

    /** `UVSSL::connect`: a host that is no address is resolved first. */
    method ConnectSsl(args: Option<ConnectArgs>) returns (ret: Ret)
      requires kind.Ssl?
      modifies this
      ensures (View(), ret) == DoConnect(old(View()), args)
    {
      ghost var h := View();
      slots := Free(slots, CONNECT);
      assert View() == h.(slots := slots);
      if args.None? { return Null; }
      var a := args.value;
      slots := AddRef(Fill(slots, CONNECT, a.fn), CONNECT);
      ghost var owned := slots;
      assert View() == h.(slots := Install(h.slots, CONNECT, a.fn));
      if BadHost(kind, a.host) {
        slots := Free(slots, CONNECT);
        assert View() == h.(slots := slots);
        return Long(-1);
      }
      StoreHostname(a);
      if a.addrRet == 0 && a.connectRet != 0 {
        slots := Free(slots, CONNECT);
        return Long(a.connectRet);
      }
      StartSsl(a);
      assert View() == Start(h, owned, false, uv, ConnectTls(h, a));
      return Long(0);
    }

    method StoreHostname(a: ConnectArgs)
      requires kind.Ssl? && !BadHost(kind, a.host)
      modifies this`sniConnectHostname
      ensures View() == StoreHost(old(View()), a)
    {
      sniConnectHostname := CString(a.host);
    }

    /** The end of a successful `UVSSL::connect`. */
    method StartSsl(a: ConnectArgs)
      requires kind.Ssl?
      modifies this
      ensures var h := old(View());
              View() == Start(h, h.slots, false, uv, h.tls.(clientMode := true))
      ensures uv == if a.addrRet != 0 then old(uv).(resolving := old(uv).resolving + 1)
                    else old(uv).(connecting := true)
    {
      uv := if a.addrRet != 0 then uv.(resolving := uv.resolving + 1) else uv.(connecting := true);
      Begin();
      clientMode := true;
    }

    method Shutdown(fn: Option<Fn>, shutdownRet: int) returns (ret: Ret)
      modifies this
      ensures (View(), ret) == DoShutdown(old(View()), fn, shutdownRet)
    {
      slots := Free(slots, SHUTDOWN);
      if fn.None? { return Null; }
      slots := AddRef(Fill(slots, SHUTDOWN, fn.value), SHUTDOWN);
      if shutdownRet != 0 { return Long(shutdownRet); }
      uv := uv.(shutdowns := uv.shutdowns + 1);
      SetSelfReference();
      return Long(0);
    }

    /** `tcp_write_raw`, `pipe_write_raw`. */
    method WriteRaw(data: seq<byte>, uvRet: int) returns (ret: int)
      modifies this`uv
      ensures View() == Streams.WriteRaw(old(View()), data, uvRet) && ret == uvRet
    {
      ghost var h := View();
      uv := uv.(made := uv.made + 1);
      if uvRet == 0 {
        uv := uv.(accepted := uv.accepted + [data]);
      } else {
        uv := uv.(refused := uv.refused + [data]);
      }
      assert View() == h.(uv := uv);
      return uvRet;
    }

    /** `UVTcp::write`, `UVPipe::write`. */
    method Write(data: seq<byte>, uvRet: int) returns (ret: int)
      requires !kind.Ssl?
      modifies this
      ensures var h := old(View());
              View() == Streams.WriteRaw(h.(flags := h.flags.(writeEnable := true)), data, uvRet)
      ensures ret == uvRet
    {
      ghost var h := View();
      WriteEnableBit(flag);
      flag := flag | WRITE_CALLBACK_ENABLE;
      assert View() == h.(flags := h.flags.(writeEnable := true));
      ret := WriteRaw(data, uvRet);
    }

    /** `write_bio_to_socket`, looping over the BIO in 512-byte pieces. */
    method WriteBioToSocket(uvRets: seq<int>) returns (ret: int)
      modifies this`uv, ssl
      ensures (View(), ret) == WriteBio(old(View()), uvRets)
      ensures ssl.initFinished == old(ssl.initFinished)
    {
      var rets := uvRets;
      ghost var target := WriteBio(View(), uvRets);
      while true
        invariant WriteBio(View(), rets) == target
        invariant ssl.initFinished == old(ssl.initFinished)
        decreases |ssl.output|
      {
        ghost var h := View();
        var chunk := ssl.TakeOutput();
        if chunk == [] {
          assert View() == h && h.tls.output == [];
          return 0;
        }
        assert View() == h.(tls := h.tls.(output := h.tls.output[|chunk|..]));
        ret := WriteRaw(chunk, Head(rets));
        assert View() == WriteOne(h, Head(rets));
        WriteBioUnfold(h, rets);
        if ret != 0 { return; }
        rets := Tail(rets);
      }
    }

    /** `UVSSL::write`. */
    method WriteSsl(message: seq<byte>, uvRets: seq<int>) returns (ret: Ret)
      modifies this`uv, ssl
      ensures (View(), ret) == DoTlsWrite(old(View()), message, uvRets)
      ensures ssl.initFinished == old(ssl.initFinished)
    {
      ghost var h := View();
      var size := ssl.Write(message);
      assert View() == h.(tls := SslWrite(h.tls, message).0);
      if size == 0 { return Long(0); }
      var code := WriteBioToSocket(uvRets);
      return Long(code);
    }

    /** `resolveSocket`. */
    method ResolveSocket(reply: NameReply)
      modifies this`sock
      ensures var h := old(View()); View() == h.(sock := Resolve(h.kind, h.sock, reply))
    {
      if IsCached(kind, sock) { return; }
      match reply
      case Failed =>
        if kind.Pipe? { sock := sock.(made := sock.made + 1, freed := sock.freed + 1); }
      case Reply(port, name) =>
        if !kind.Pipe? {
          sock := sock.(port := port);
          if port == 0 { sock := sock.(lost := sock.lost + 1); }
        }
        sock := sock.(addr := Some(name), made := sock.made + 1);
    }

    method ResolvePeerSocket(reply: NameReply)
      modifies this`peer
      ensures var h := old(View()); View() == h.(peer := Resolve(h.kind, h.peer, reply))
    {
      if IsCached(kind, peer) { return; }
      match reply
      case Failed =>
        if kind.Pipe? { peer := peer.(made := peer.made + 1, freed := peer.freed + 1); }
      case Reply(port, name) =>
        if !kind.Pipe? {
          peer := peer.(port := port);
          if port == 0 { peer := peer.(lost := peer.lost + 1); }
        }
        peer := peer.(addr := Some(name), made := peer.made + 1);
    }

    method GetSockname(reply: NameReply) returns (name: Option<string>)
      modifies this`sock
      ensures var h := old(View()); View() == h.(sock := Resolve(h.kind, h.sock, reply))
      ensures name == NameAnswer(kind, sock)
      ensures GetterReturns(kind, old(sock), reply, name, PortAnswer(kind, sock))
    {
      ResolveSocket(reply);
      if !IsCached(kind, sock) { return None; }
      return sock.addr;
    }

    method GetSockport(reply: NameReply) returns (port: Option<nat>)
      requires !kind.Pipe?
      modifies this`sock
      ensures var h := old(View()); View() == h.(sock := Resolve(h.kind, h.sock, reply))
      ensures port == PortAnswer(kind, sock)
      ensures GetterReturns(kind, old(sock), reply, NameAnswer(kind, sock), port)
    {
      ResolveSocket(reply);
      if sock.port == 0 { return None; }
      return Some(sock.port);
    }

    method GetPeername(reply: NameReply) returns (name: Option<string>)
      modifies this`peer
      ensures var h := old(View()); View() == h.(peer := Resolve(h.kind, h.peer, reply))
      ensures name == NameAnswer(kind, peer)
      ensures GetterReturns(kind, old(peer), reply, name, PortAnswer(kind, peer))
    {
      ResolvePeerSocket(reply);
      if !IsCached(kind, peer) { return None; }
      return peer.addr;
    }

    method GetPeerport(reply: NameReply) returns (port: Option<nat>)
      requires !kind.Pipe?
      modifies this`peer
      ensures var h := old(View()); View() == h.(peer := Resolve(h.kind, h.peer, reply))
      ensures port == PortAnswer(kind, peer)
      ensures GetterReturns(kind, old(peer), reply, NameAnswer(kind, peer), port)
    {
      ResolvePeerSocket(reply);
      if peer.port == 0 { return None; }
      return Some(peer.port);
    }

    method SetSSLHandshakeCallback(fn: Option<Fn>)
      modifies this`slots
      ensures var h := old(View());
              View() == h.(slots := match fn case None => Free(h.slots, HANDSHAKE)
                                             case Some(f) => Install(h.slots, HANDSHAKE, f))
    {
      slots := Free(slots, HANDSHAKE);
      if fn.None? { return; }
      slots := AddRef(Fill(slots, HANDSHAKE, fn.value), HANDSHAKE);
    }

    method AttachIPC(openRet: int, fn: Option<Fn>, readRet: int) returns (ret: Ret)
      requires kind.Pipe?
      modifies this
      ensures (View(), ret) == DoAttachIpc(old(View()), openRet, fn, readRet)
    {
      if openRet != 0 { return Long(openRet); }
      slots := Free(slots, CONNECT);
      if fn.None? { return Long(-1); }
      slots := AddRef(Fill(slots, CONNECT, fn.value), CONNECT);
      if readRet != 0 { return Long(readRet); }
      uv := uv.(listening := true);
      SetSelfReference();
      MarkReading();
      return Long(0);
    }

    // ---------- user code ----------

    /** One call of user code. */
    method Perform(a: Act)
      modifies this, ssl
      ensures View() == Streams.Perform(old(View()), a)
    {
      if refs.freed != 0 || refs.external + refs.frames <= 0 { return; }
      var ignored: Ret;
      match a
      case CopyRef => refs := refs.(count := refs.count + 1, external := refs.external + 1);
      case DropRef =>
        if refs.external == 0 { return; }
        refs := refs.(external := refs.external - 1);
        DropReference();
      case Close => CloseSocket();
      case SetCallback(fns) => SetCallback(fns);
      case Listen(args) => ignored := Listen(args);
      case Connect(args) => ignored := ConnectAny(args);
      case Shutdown(fn, ret) => ignored := Shutdown(fn, ret);
      case _ => PerformMore(a);
    }

    method ConnectAny(args: Option<ConnectArgs>) returns (ret: Ret)
      modifies this
      ensures (View(), ret) == DoConnect(old(View()), args)
    {
      if kind.Ssl? { ret := ConnectSsl(args); } else { ret := Connect(args); }
    }

    method PerformMore(a: Act)
      requires Callable(View())
      requires a.Write? || a.TlsWrite? || a.GetSock? || a.GetPeer? || a.SetHandshake? || a.AttachIpc?
      modifies this, ssl
      ensures View() == Streams.Perform(old(View()), a)
    {
      var ignored: Ret;
      var code: int;
      match a
      case Write(data, ret) => if !kind.Ssl? { code := Write(data, ret); }
      case TlsWrite(message, rets) => if kind.Ssl? { ignored := WriteSsl(message, rets); }
      case GetSock(reply) => var name := GetSockname(reply);
      case GetPeer(reply) => var name := GetPeername(reply);
      case SetHandshake(fn) => if kind.Ssl? { SetSSLHandshakeCallback(fn); }
      case AttachIpc(openRet, fn, readRet) => if kind.Pipe? { ignored := AttachIPC(openRet, fn, readRet); }
    }

    method UserCode(script: Script)
      modifies this, ssl
      ensures View() == RunScript(old(View()), script)
    {
      var rest := script;
      while rest != []
        invariant RunScript(View(), rest) == RunScript(old(View()), script)
        decreases |rest|
      {
        Perform(rest[0]);
        rest := rest[1..];
      }
    }

    /** `fci_call_function`; the arguments hold a reference while the callback runs. */
    method CallBack(slot: Slot, call: Call, script: Script)
      modifies this, ssl
      ensures View() == Streams.CallBack(old(View()), slot, call, script)
    {
      if slots.cell[slot].None? { return; }
      Enter(call);
      UserCode(script);
      Leave();
    }

    method Enter(call: Call)
      modifies this`log, this`refs
      ensures View() == EnterCall(old(View()), call)
    {
      log := log + [call];
      refs := refs.(count := refs.count + 1, frames := refs.frames + 1);
    }

    method Leave()
      modifies this
      ensures View() == LeaveCall(old(View()))
    {
      refs := refs.(frames := refs.frames - 1);
      DropReference();
    }

    // ---------- libuv events ----------

    /** `read_cb` of `src/uv_tcp.c` and `src/uv_pipe.c`. */
    method ReadCb(nread: int, data: seq<byte>, script: Script)
      modifies this, ssl
      ensures nread > 0 ==> View() == Streams.CallBack(old(View()), READ, ReadCall(data), script)
      ensures nread <= 0 ==> View() == OnReadFailed(old(View()), nread, script)
    {
      if nread > 0 {
        CallBack(READ, ReadCall(data), script);
      } else {
        CallBack(ERROR, ErrorCall(nread), script);
        CloseSocket();
      }
    }

    /** `write_cb`. */
    method WriteCb(status: int, script: Script)
      requires uv.completed < |uv.accepted|
      modifies this, ssl
      ensures View() == OnWriteDone(old(View()), status, script)
    {
      if flag & WRITE_CALLBACK_ENABLE != 0 {
        CallBack(WRITE, WriteCall(status, |uv.accepted[uv.completed]|), script);
      }
      uv := uv.(completed := uv.completed + 1, released := uv.released + 1);
    }

    /** `shutdown_cb`. */
    method ShutdownCb(status: int, script: Script)
      requires uv.shutdowns > 0
      modifies this, ssl
      ensures var h := old(View());
              View() == Streams.CallBack(h.(uv := h.uv.(shutdowns := h.uv.shutdowns - 1)), SHUTDOWN,
                                         ShutdownCall(status), script)
    {
      uv := uv.(shutdowns := uv.shutdowns - 1);
      CallBack(SHUTDOWN, ShutdownCall(status), script);
    }

    /** `client_connection_cb`. */
    method ClientConnectionCb(status: int, readRet: int, hello: seq<byte>, uvRets: seq<int>, script: Script)
      modifies this, ssl
      ensures View() == OnConnected(old(View()), status, readRet, hello, uvRets, script)
    {
      uv := uv.(connecting := false);
      if readRet != 0 { return; }
      uv := uv.(reading := true);
      MarkingCommutes(View(), hello, uvRets);
      OpenEngine(hello, uvRets);
      MarkReading();
      CallBack(CONNECT, ConnectCall(status), script);
    }

    /** `SSL_new` to `SSL_connect`, and the flush of the first flight. */
    method OpenEngine(hello: seq<byte>, uvRets: seq<int>)
      modifies this, ssl
      ensures View() == Streams.OpenEngine(old(View()), hello, uvRets)
    {
      if kind.Ssl? {
        ghost var h := View();
        ssl.Renew(hello);
        log := log + [SslNew];
        assert View() == h.(tls := NewClient(h.tls, hello), log := h.log + [SslNew]);
        var ignored := WriteBioToSocket(uvRets);
      }
    }

    /** `tcp_close_cb`, `pipe_close_cb`. */
    method CloseCb()
      modifies this
      ensures View() == Release(old(View()).(uv := old(View()).uv.(closed := true)))
    {
      uv := uv.(closed := true);
      ReleaseResource();
    }

    /** `on_addrinfo_resolved`. */
    method OnAddrinfoResolved(ret: int, script: Script)
      requires uv.resolving > 0
      modifies this, ssl
      ensures View() == OnResolved(old(View()), ret, script)
    {
      uv := uv.(resolving := uv.resolving - 1);
      if ret == 0 {
        uv := uv.(connecting := true);
      } else {
        CallBack(CONNECT, ConnectCall(ret), script);
        ReleaseResource();
      }
    }

    // ---------- the TLS pump ----------

    method HandleHandshakeCallback(err: int, v: Verdict) returns (ok: bool)
      modifies this, ssl
      ensures (View(), ok) == HandshakeCallback(old(View()), err, v)
    {
      ok := slots.cell[HANDSHAKE].Some? && v.accepts;
      CallBack(HANDSHAKE, HandshakeCall(err, v.accepts), v.script);
      if !ok { CloseSocket(); }
    }

    /** The `verify_callback` calls that `SSL_do_handshake` makes. */
    method VerifyCallbacks(vs: seq<Verify>) returns (ok: bool)
      modifies this, ssl
      ensures (View(), ok) == VerifyAll(old(View()), vs)
    {
      var rest := vs;
      ok := true;
      while rest != []
        invariant ok && VerifyAll(View(), rest) == VerifyAll(old(View()), vs)
        decreases |rest|
      {
        var v := rest[0];
        ghost var h := View();
        if v.err != X509_V_OK {
          var err := v.err;
          if v.depth > VERIFY_DEPTH { err := X509_V_ERR_CERT_CHAIN_TOO_LONG; }
          ok := HandleHandshakeCallback(err, v.verdict);
        }
        assert (View(), ok) == VerifyCallback(h, v);
        if !ok { return; }
        rest := rest[1..];
      }
    }

    /** The certificate check of `handleHandshake`. */
    method CheckCertificate(hs: Handshake) returns (ok: bool)
      modifies this, ssl
      ensures (View(), ok) == CheckPeer(old(View()), hs, CertificateFits(old(View()), hs))
    {
      if !clientMode || hs.cert.None? { return true; }
      var cert := hs.cert.value;
      ghost var h := View();
      var listed := MatchesSanList(cert.altNames, sniConnectHostname);
      assert CertificateFits(h, hs) == (cert.commonName || listed);
      ok := CheckNames(hs, cert.commonName || listed);
    }

    /** The rest of the check; the certificate is freed on both paths. */
    method CheckNames(hs: Handshake, fits: bool) returns (ok: bool)
      requires clientMode && hs.cert.Some?
      modifies this, ssl
      ensures (View(), ok) == CheckPeer(old(View()), hs, fits)
    {
      ok := true;
      certsTaken := certsTaken + 1;
      if !fits {
        ok := HandleHandshakeCallback(X509_V_ERR_SUBJECT_ISSUER_MISMATCH, hs.onMismatch);
      }
      certsFreed := certsFreed + 1;
    }

    /** `SSL_do_handshake` and the flush that follows it. */
    method DoHandshake(hs: Handshake) returns (outcome: Outcome)
      requires Inv(View()) && !ssl.initFinished
      modifies this, ssl
      ensures (View(), outcome) == Attempt(old(View()), hs)
    {
      ghost var h := View();
      if hs.serverName.Some? { UserCode(hs.serverName.value); }
      ghost var n := View();
      ServerNameKeeps(h, hs);
      assert n == ServerName(h, hs);
      var verified := VerifyCallbacks(hs.verify);
      ghost var added := VerifyAllKeeps(n, hs.verify);
      ghost var s := View();
      assert s.tls.initFinished == h.tls.initFinished;
      outcome := ssl.Handshake(hs, verified);
      assert View() == s.(tls := Advance(s.tls, hs, verified).0) by { AdvanceView(s.tls, hs, verified); }
      var ignored := WriteBioToSocket(hs.rets);
    }

    /** `handleHandshake`. */
    method HandleHandshake(hs: Handshake) returns (goOn: bool)
      requires Inv(View())
      modifies this, ssl
      ensures (View(), goOn) == Streams.HandleHandshake(old(View()), hs)
    {
      ghost var h := View();
      if ssl.initFinished {
        WriteEnableBit(flag);
        flag := flag | WRITE_CALLBACK_ENABLE;
        assert View() == h.(flags := h.flags.(writeEnable := true));
        return true;
      }
      var outcome := DoHandshake(hs);
      ghost var s := View();
      assert Attempt(h, hs) == (s, outcome);
      match outcome {
        case WantRead => return false;
        case WantWrite =>
          var ignored := WriteBioToSocket(hs.retsAgain);
          return false;
        case Fatal =>
          CloseSocket();
          return false;
        case Done =>
          var ok := CheckCertificate(hs);
          assert (View(), ok) == CheckPeer(s, hs, CertificateFits(s, hs));
          if !ok { return false; }
          goOn := HandleHandshakeCallback(X509_V_OK, hs.onDone);
      }
    }

    /** One `SSL_read` into the rest of the buffer, and the move of the index. */
    method ReadMore(buffer: array<byte>, index: nat) returns (size: int, next: nat)
      requires Inv(View()) && ssl.initFinished && index < buffer.Length
      modifies ssl, buffer
      ensures index <= next <= buffer.Length && ssl.initFinished
      ensures View() == WithPlain(old(View()), View().tls.plain) && Inv(View())
      ensures buffer[..next] + View().tls.plain == old(buffer[..index] + View().tls.plain)
      ensures if size <= 0 then next == index && View().tls.plain == []
              else |View().tls.plain| < |old(View()).tls.plain|
    {
      ghost var h, before := View(), buffer[..index];
      next := index;
      size := ssl.ReadInto(buffer, index);
      assert View() == WithPlain(h, View().tls.plain);
      if size > 0 {
        next := index + size;
        assert buffer[..next] == before + buffer[index..next];
        assert before + (buffer[index..next] + View().tls.plain) == buffer[..next] + View().tls.plain;
      }
    }

    /**
      The reading loop of `read_cb`: `SSL_read` fills a 256-byte buffer, which goes
      to the read callback when it is full and when nothing more can be read.
    */
    method ReadLoop(callbacks: seq<Script>)
      requires Inv(View()) && ssl.initFinished
      modifies this, ssl
      ensures View() == Deliver(old(View()), ReadChunks(old(View()).tls.plain), callbacks)
    {
      var buffer := new byte[READ_CHUNK];
      var index, size := 0, 0;
      var scripts := callbacks;
      assert buffer[..0] + View().tls.plain == View().tls.plain;
      assert WithPlain(View(), View().tls.plain) == View();
      ghost var target := DeliverRest(View(), View().tls.plain, callbacks);
      while true
        invariant 0 <= index < READ_CHUNK && fresh(buffer) && buffer.Length == READ_CHUNK
        invariant ssl.initFinished && Inv(View())
        invariant DeliverRest(View(), buffer[..index] + View().tls.plain, scripts) == target
        decreases |View().tls.plain|
      {
        ghost var h := View();
        size, index := ReadMore(buffer, index);
        ghost var s := View();
        SameRest(h, s.tls.plain, buffer[..index] + s.tls.plain, scripts);
        if size <= 0 || index >= READ_CHUNK {
          TurnOfLoop(s, buffer[..index], scripts);
          CallBack(READ, ReadCall(buffer[..index]), Next(scripts));
          scripts := Tail(scripts);
          index := 0;
          assert buffer[..0] + s.tls.plain == s.tls.plain;
        }
        if size <= 0 { return; }
      }
    }

    /** `read_cb` of `src/uv_ssl.c`. */
    method ReadCbSsl(nread: int, data: seq<byte>, hs: Handshake, callbacks: seq<Script>, onError: Script)
      requires Inv(View()) && kind.Ssl? && certsTaken == certsFreed
      modifies this, ssl
      ensures View() == if nread < 0 then OnReadFailed(old(View()), nread, onError)
                        else OnTlsRead(old(View()), data, hs, callbacks)
    {
      ghost var h := View();
      if nread < 0 {
        CallBack(ERROR, ErrorCall(nread), onError);
        CloseSocket();
        return;
      }
      ssl.Receive(data);
      assert View() == h.(tls := Feed(h.tls, data));
      ghost var f := View();
      assert Inv(f);
      var goOn := HandleHandshake(hs);
      ghost var added := HandshakeKeeps(f, hs);
      if goOn { ReadLoop(callbacks); }
    }

    // ---------- the loop ----------

    /** The reads, by the class of the handle. */
    method DeliverRead(e: Event)
      requires Safe(View()) && Enabled(View(), e) && (e.ReadData? || e.ReadFailed? || e.TlsRead?)
      modifies this, ssl
      ensures View() == Step(old(View()), e)
    {
      ghost var h := View();
      var quiet := Verdict([], false);
      var none := Handshake(None, [], WantRead, 0, [], [], [], None, quiet, quiet);
      match e
      case ReadData(data, script) => ReadCb(|data|, data, script);
      case ReadFailed(nread, script) =>
        if kind.Ssl? { ReadCbSsl(nread, [], none, [], script); } else { ReadCb(nread, [], script); }
        assert View() == OnReadFailed(h, nread, script);
      case TlsRead(data, hs, scripts) => ReadCbSsl(|data|, data, hs, scripts, []);
    }

    /** libuv delivers one event. */
    method Dispatch(e: Event)
      requires Safe(View()) && Enabled(View(), e)
      modifies this, ssl
      ensures View() == Step(old(View()), e) && Safe(View())
    {
      StepSafe(View(), e);
      match e
      case UserCode(script) => UserCode(script);
      case Connected(status, readRet, hello, rets, script) =>
        ClientConnectionCb(status, readRet, hello, rets, script);
      case Incoming(status, script) => CallBack(CONNECT, ConnectCall(status), script);
      case ShutdownDone(status, script) => ShutdownCb(status, script);
      case WriteDone(status, script) => WriteCb(status, script);
      case Resolved(ret, script) => OnAddrinfoResolved(ret, script);
      case CloseDone => CloseCb();
      case _ => DeliverRead(e);
    }

    /** `uv_run`, as far as this handle goes. */
    method RunLoop(events: seq<Event>)
      requires Safe(View())
      modifies this, ssl
      ensures View() == Run(old(View()), events) && Safe(View())
    {
      var rest := events;
      while rest != []
        invariant Safe(View()) && Run(View(), rest) == Run(old(View()), events)
        decreases |rest|
      {
        var e := rest[0];
        if e.UserCode? || (refs.freed == 0 && Due(kind, uv, e)) { Dispatch(e); }
        rest := rest[1..];
      }
    }

    /** What a run of a handle leaves in its fields, whatever happens in the run. */
    ghost predicate Sound()
      reads this, ssl
    {
      // the reference ledger, and the free handler
      && refs.count == refs.external + Bit(flag & INTERNAL_REF != 0)
      && refs.taken == refs.dropped + Bit(flag & INTERNAL_REF != 0)
      && refs.freed == Bit(refs.count == 0) && !refs.freedWhilePinned
      && (refs.freed > 0 ==> slots.cell == EMPTY_CELLS && flag & (HANDLE_START | READ_START) == 0)
      // one close, and the started state
      && uv.closes == Bit(flag & CLOSING_START != 0)
      && (flag & READ_START != 0 ==> flag & HANDLE_START != 0)
      && (uv.reading ==> flag & READ_START != 0)
      // write requests, addresses, callback slots
      && uv.made == uv.released + (|uv.accepted| - uv.completed) + |uv.refused|
      && CacheOk(kind, sock) && CacheOk(kind, peer)
      && Accounted(slots)
      // the handshake gate
      && (kind.Ssl? ==>
            && Respected(log) && certsTaken == certsFreed
            && (ssl.initFinished && !AcceptedBefore(log, |log|) ==> flag & CLOSING_START != 0))
    }

    /** A run from a reachable state on. */
    method Continue(events: seq<Event>)
      requires Reachable(View())
      modifies this, ssl
      ensures View() == Run(old(View()), events) && Reachable(View()) && Sound()
    {
      ghost var h := View();
      ReachableSafe(h);
      RunLoop(events);
      ReachableOnward(h, events);
      ReachableCounted(View());
      WatchMeaning(log);
      BitsOf(flag);
    }
  }

  /** From the constructor, or from `accept`, to the end of any run. */
  method Live(kind: Kind, accepted: bool, events: seq<Event>) returns (handle: StreamHandle)
    ensures fresh(handle) && handle.kind == kind && handle.Sound()
    ensures handle.View() == Run(if accepted then Accepted(kind) else Constructed(kind), events)
  {
    if accepted {
      handle := new StreamHandle.Accept(kind);
    } else {
      handle := new StreamHandle(kind);
    }
    InitialIsReachable(handle.View());
    handle.Continue(events);
  }

  lemma FillNext(s: Slots, fns: Parsed, n: nat)
    requires n < |fns|
    ensures FillSlots(s, fns, n + 1) == Fill(FillSlots(s, fns, n), n, fns[n])
  {
  }

  lemma FillNone(s: Slots, fns: Parsed)
    ensures FillSlots(s, fns, 0) == s
  {
  }

  lemma BitsOf(flag: bv32)
    ensures flag & (HANDLE_START | READ_START) == 0 <==> flag & HANDLE_START == 0 && flag & READ_START == 0
  {
  }

  lemma {:induction false} DrainMarked(h: Handle, rets: seq<int>)
    ensures WriteBio(Streams.MarkReading(h), rets).0 == Streams.MarkReading(WriteBio(h, rets).0)
    decreases |h.tls.output|
  {
    if h.tls.output != [] {
      var m := Streams.MarkReading(h);
      WriteBioUnfold(h, rets);
      WriteBioUnfold(m, rets);
      assert WriteOne(m, Head(rets)) == Streams.MarkReading(WriteOne(h, Head(rets)));
      if Head(rets) == 0 { DrainMarked(WriteOne(h, 0), Tail(rets)); }
    }
  }

  /** Nothing is called back between the two, so that the bits may as well be set first. */
  lemma MarkingCommutes(h: Handle, hello: seq<byte>, rets: seq<int>)
    ensures Streams.OpenEngine(Streams.MarkReading(h), hello, rets)
         == Streams.MarkReading(Streams.OpenEngine(h, hello, rets))
  {
    if h.kind.Ssl? { DrainMarked(h.(tls := NewClient(h.tls, hello), log := h.log + [SslNew]), rets); }
  }

  lemma AdvanceView(t: Tls, hs: Handshake, verified: bool)
    ensures Advance(t, hs, verified).0
         == Advance(t.(clientMode := false, host := "", certsTaken := 0, certsFreed := 0), hs, verified).0
              .(clientMode := t.clientMode, host := t.host, certsTaken := t.certsTaken, certsFreed := t.certsFreed)
  {
  }

  /** What delivering `plain` from `h` on comes to. */
  ghost function DeliverRest(h: Handle, plain: seq<byte>, scripts: seq<Script>): Handle {
    Deliver(WithPlain(h, plain), ReadChunks(plain), scripts)
  }

  lemma SameRest(h: Handle, left: seq<byte>, plain: seq<byte>, scripts: seq<Script>)
    requires Inv(h)
    ensures DeliverRest(WithPlain(h, left), plain, scripts) == DeliverRest(h, plain, scripts)
    ensures Inv(WithPlain(h, left))
  {
    assert WithPlain(WithPlain(h, left), plain) == WithPlain(h, plain);
  }

  /** One turn of the reading loop delivers one canonical chunk. */
  lemma TurnOfLoop(s: Handle, chunk: seq<byte>, scripts: seq<Script>)
    requires Inv(s) && |chunk| <= READ_CHUNK && (|chunk| == READ_CHUNK || s.tls.plain == [])
    ensures var plain, k := chunk + s.tls.plain, Streams.CallBack(s, READ, ReadCall(chunk), Next(scripts));
            && Inv(k) && k.tls.initFinished == s.tls.initFinished && k.tls.plain == s.tls.plain
            && DeliverRest(s, plain, scripts)
            == if |chunk| == READ_CHUNK then DeliverRest(k, s.tls.plain, Tail(scripts)) else k
  {
    var plain := chunk + s.tls.plain;
    var h := WithPlain(s, plain);
    var k := Streams.CallBack(s, READ, ReadCall(chunk), Next(scripts));
    CallBackKeeps(s, READ, ReadCall(chunk), Next(scripts));
    assert h.(tls := Consume(h.tls, chunk)) == s;
    assert WithPlain(k, s.tls.plain) == k;
    if |chunk| == READ_CHUNK {
      assert plain[..READ_CHUNK] == chunk && plain[READ_CHUNK..] == s.tls.plain;
      assert ReadChunks(plain) == [chunk] + ReadChunks(s.tls.plain);
      assert ReadChunks(plain)[0] == chunk && ReadChunks(plain)[1..] == ReadChunks(s.tls.plain);
    } else {
      assert plain == chunk && ReadChunks(plain) == [chunk];
      assert [chunk][1..] == [] && Deliver(k, [], Tail(scripts)) == k;
      assert Deliver(h, [chunk], scripts) == Deliver(k, [chunk][1..], Tail(scripts));
    }
  }
}
