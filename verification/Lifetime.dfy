/**
  The life of a handle: what a user callback can do to the handle that its event
  still uses, and what libuv can still owe to a handle whose object is gone. The
  self-reference exists for both; these are the cases it covers, and those it
  does not.
*/
module Lifetime {
  import opened Basics
  import opened Records
  import opened Callbacks
  import opened Streams
  import opened StreamSteps
  import opened TlsSteps
  import opened StreamRuns
  import opened Promises

  // ---------- one callback ----------

  /** Drop `n` PHP variables. */
  function Drops(n: nat): Script { if n == 0 then [] else [DropRef] + Drops(n - 1) }

  lemma {:induction false} DropsAll(h: Handle)
    requires Inv(h) && h.refs.freed == 0 && h.refs.frames > 0
    ensures RunScript(h, Drops(h.refs.external))
         == h.(refs := h.refs.(count := h.refs.count - h.refs.external, external := 0))
    decreases h.refs.external
  {
    if h.refs.external > 0 {
      var script := Drops(h.refs.external);
      assert script[0] == DropRef && script[1..] == Drops(h.refs.external - 1);
      var s := Perform(h, DropRef);
      assert s == h.(refs := h.refs.(count := h.refs.count - 1, external := h.refs.external - 1));
      DropsAll(s);
    }
  }

  /** Without the self-reference, a callback that drops every variable frees the object under its caller. */
  lemma LastDropFrees(h: Handle, slot: Slot, call: Call)
    requires Inv(h) && h.refs.freed == 0 && h.refs.frames == 0 && h.slots.cell[slot].Some? && !h.flags.internalRef
    ensures CallBack(h, slot, call, Drops(h.refs.external)).refs.freed == 1
  {
    var e := EnterCall(h, call);
    DropsAll(e);
    var r := RunScript(e, Drops(h.refs.external));
    var d := r.(refs := r.refs.(frames := r.refs.frames - 1));
    assert Balanced(d, 1) && d.refs.count == 1;
    DropKeeps(d);
    assert LeaveCall(r) == Drop(d);
  }

  /** The object outlives a callback, whatever the callback does, exactly if the handle holds its
      self-reference, or is called from inside another callback. */
  lemma OutlivesExactly(h: Handle, slot: Slot, call: Call)
    requires Inv(h) && h.refs.freed == 0 && h.slots.cell[slot].Some?
    ensures (forall script: Script :: CallBack(h, slot, call, script).refs.freed == 0)
        <==> h.flags.internalRef || h.refs.frames > 0
  {
    if h.flags.internalRef || h.refs.frames > 0 {
      forall script: Script ensures CallBack(h, slot, call, script).refs.freed == 0 {
        CallBackKeeps(h, slot, call, script);
      }
    } else {
      LastDropFrees(h, slot, call);
    }
  }

  /** One variable goes, outside this handle's callbacks. */
  lemma OneForgotten(h: Handle)
    requires Inv(h) && h.refs.freed == 0 && h.refs.frames == 0 && !h.flags.internalRef
    ensures h.refs.external > 0
    ensures var k := Perform(h, DropRef);
            if h.refs.external == 1 then k.refs.freed == 1
            else k == h.(refs := h.refs.(count := h.refs.count - 1, external := h.refs.external - 1))
  {
    var d := h.(refs := h.refs.(external := h.refs.external - 1));
    assert Balanced(d, 1);
    DropKeeps(d);
    assert Perform(h, DropRef) == Drop(d);
  }

  /** All of them go, and with them the object. */
  lemma {:induction false} ForgottenFrees(h: Handle)
    requires Inv(h) && h.refs.freed == 0 && h.refs.frames == 0 && !h.flags.internalRef
    ensures RunScript(h, Drops(h.refs.external)).refs.freed == 1
    decreases h.refs.external
  {
    OneForgotten(h);
    var script := Drops(h.refs.external);
    assert script[0] == DropRef && script[1..] == Drops(h.refs.external - 1);
    var s := Perform(h, DropRef);
    if h.refs.external > 1 {
      ForgottenFrees(s);
    } else {
      assert script[1..] == [] && RunScript(h, script) == RunScript(s, []);
    }
  }

  // ---------- one event ----------

  /** The slot of this handle that the event calls first. */
  function Called(h: Handle, e: Event): Option<Slot> {
    match e
    case ReadData(_, _) => Some(READ)
    case ReadFailed(_, _) => Some(ERROR)
    case Connected(_, readRet, _, _, _) => if readRet == 0 then Some(CONNECT) else None
    case Incoming(_, _) => Some(CONNECT)
    case ShutdownDone(_, _) => Some(SHUTDOWN)
    case WriteDone(_, _) => if h.flags.writeEnable then Some(WRITE) else None
    case Resolved(ret, _) => if ret != 0 then Some(CONNECT) else None
    case TlsRead(_, _, _) => Some(if h.tls.initFinished then READ else HANDSHAKE)
    case _ => None
  }

  /** In the event OpenSSL calls the server-name callback of the server that accepted the handle. */
  predicate CallsServer(h: Handle, e: Event) {
    e.TlsRead? && !h.tls.initFinished && e.handshake.serverName.Some?
  }

  /** The event runs user code. */
  predicate CallsBack(h: Handle, e: Event) {
    (Called(h, e).Some? && h.slots.cell[Called(h, e).value].Some?) || CallsServer(h, e)
  }

  /** It does so while the handle holds no reference on itself. */
  predicate Exposed(h: Handle, e: Event) { CallsBack(h, e) && !h.flags.internalRef }

  /** What libuv delivers is the same, and whether there is a server-name callback to call; what the
      callbacks do, and how a handshake goes, may differ. */
  predicate SameEvent(e: Event, f: Event) {
    match e
    case ReadData(data, _) => f.ReadData? && f.data == data
    case ReadFailed(nread, _) => f.ReadFailed? && f.nread == nread
    case Connected(status, readRet, hello, rets, _) =>
      f.Connected? && f.status == status && f.readRet == readRet && f.hello == hello && f.rets == rets
    case Incoming(status, _) => f.Incoming? && f.status == status
    case ShutdownDone(status, _) => f.ShutdownDone? && f.status == status
    case WriteDone(status, _) => f.WriteDone? && f.status == status
    case Resolved(ret, _) => f.Resolved? && f.ret == ret
    case TlsRead(data, hs, _) =>
      f.TlsRead? && f.data == data && f.handshake.serverName.Some? == hs.serverName.Some?
    case _ => f == e
  }

  /** The events that do not themselves release the handle. */
  predicate Releases(e: Event) { e.CloseDone? || (e.Resolved? && e.ret != 0) }

  const HELD := NO_TERMS.(held := true)
  const REQUESTS := NO_TERMS.(pin := Requests)
  const CALLBACKS := NO_TERMS.(pin := Callbacks)

  lemma HeldAsksLittle(kind: Kind, e: Event)
    requires !Releases(e)
    ensures EventHonours(kind, e, HELD)
  {
  }

  lemma PinnedOutlives(h: Handle, e: Event)
    requires Safe(h) && h.flags.internalRef && !Releases(e)
    ensures Step(h, e).flags.internalRef && Step(h, e).refs.freed == 0
  {
    HeldAsksLittle(h.kind, e);
    StepKept(h, e, HELD);
    StepSafe(h, e);
  }

  lemma {:induction false} UncalledDelivery(h: Handle, chunks: seq<seq<byte>>, scripts: seq<Script>)
    requires h.slots.cell[READ].None?
    ensures Deliver(h, chunks, scripts).refs == h.refs
    decreases |chunks|
  {
    if chunks != [] { UncalledDelivery(h.(tls := Consume(h.tls, chunks[0])), chunks[1..], Tail(scripts)); }
  }

  lemma {:induction false} UncalledVerify(h: Handle, vs: seq<Verify>)
    requires h.slots.cell[HANDSHAKE].None?
    ensures VerifyAll(h, vs).0.refs == h.refs && VerifyAll(h, vs).0.slots == h.slots
    decreases |vs|
  {
    if vs != [] {
      var (s, ok) := VerifyCallback(h, vs[0]);
      if ok { UncalledVerify(s, vs[1..]); }
    }
  }

  lemma UncalledHandshake(h: Handle, hs: Handshake)
    requires h.slots.cell[HANDSHAKE].None? && !h.tls.initFinished && hs.serverName.None?
    ensures HandleHandshake(h, hs).0.refs == h.refs && !HandleHandshake(h, hs).1
  {
    UncalledVerify(h, hs.verify);
    var (s, verified) := VerifyAll(h, hs.verify);
    var a := s.(tls := Advance(s.tls, hs, verified).0);
    WriteBioFrame(a, hs.rets);
    var (t, outcome) := Attempt(h, hs);
    assert t == WriteBio(a, hs.rets).0 && t.refs == h.refs && t.slots == h.slots;
    WriteBioFrame(t, hs.retsAgain);
  }

  lemma UncalledTlsRead(h: Handle, e: Event)
    requires e.TlsRead? && h.slots.cell[if h.tls.initFinished then READ else HANDSHAKE].None?
    requires !CallsServer(h, e)
    ensures OnTlsRead(h, e.data, e.handshake, e.scripts).refs == h.refs
  {
    var f := h.(tls := Feed(h.tls, e.data));
    if h.tls.initFinished {
      var s := f.(flags := f.flags.(writeEnable := true));
      UncalledDelivery(s, ReadChunks(s.tls.plain), e.scripts);
      assert HandleHandshake(f, e.handshake) == (s, true);
    } else {
      UncalledHandshake(f, e.handshake);
    }
  }

  lemma UncalledOutlives(h: Handle, e: Event)
    requires Safe(h) && Enabled(h, e) && !e.UserCode? && !Releases(e)
    requires !CallsBack(h, e)
    ensures Step(h, e).refs.freed == 0
  {
    match e
    case Connected(status, readRet, hello, rets, script) =>
      if readRet == 0 {
        var r := MarkReading(h.(uv := h.uv.(connecting := false, reading := true)));
        OpenedSame(r, hello, rets);
        assert Step(h, e) == CallBack(OpenEngine(r, hello, rets), CONNECT, ConnectCall(status), script);
      }
    case TlsRead(data, hs, scripts) =>
      UncalledTlsRead(h, e);
      assert Step(h, e) == OnTlsRead(h, data, hs, scripts);
    case _ =>
  }

  lemma OpenedSame(h: Handle, hello: seq<byte>, rets: seq<int>)
    ensures var k := OpenEngine(h, hello, rets); k.refs == h.refs && k.slots == h.slots && k.flags == h.flags
  {
    if h.kind.Ssl? { WriteBioFrame(h.(tls := NewClient(h.tls, hello), log := h.log + [SslNew]), rets); }
  }

  lemma ExposedDelivery(h: Handle, chunks: seq<seq<byte>>)
    requires Inv(h) && h.refs.freed == 0 && h.refs.frames == 0 && h.slots.cell[READ].Some? && !h.flags.internalRef
    requires chunks != []
    ensures Deliver(h, chunks, [Drops(h.refs.external)]).refs.freed == 1
  {
    var script := Drops(h.refs.external);
    var c := h.(tls := Consume(h.tls, chunks[0]));
    assert Inv(c);
    LastDropFrees(c, READ, ReadCall(chunks[0]));
    CallBackKeeps(c, READ, ReadCall(chunks[0]), script);
    var s := CallBack(c, READ, ReadCall(chunks[0]), script);
    UncalledDelivery(s, chunks[1..], Tail([script]));
    assert Deliver(h, chunks, [script]) == Deliver(s, chunks[1..], Tail([script]));
  }

  /** A handshake in which a verification error is reported and the callback drops everything. */
  lemma ExposedHandshake(h: Handle, hs: Handshake)
    requires Inv(h) && h.refs.freed == 0 && h.refs.frames == 0 && h.slots.cell[HANDSHAKE].Some?
    requires !h.flags.internalRef && !h.tls.initFinished
    requires hs.serverName.None? && hs.verify == [Verify(1, 0, Verdict(Drops(h.refs.external), false))]
    ensures HandleHandshake(h, hs).0.refs.freed == 1 && !HandleHandshake(h, hs).1
  {
    var v := hs.verify[0];
    var c := CallBack(h, HANDSHAKE, HandshakeCall(1, false), v.verdict.script);
    LastDropFrees(h, HANDSHAKE, HandshakeCall(1, false));
    var s := CloseSocket(c);
    assert VerifyCallback(h, v) == (s, false);
    assert VerifyAll(h, hs.verify) == (s, false);
    var a := s.(tls := Advance(s.tls, hs, false).0);
    WriteBioFrame(a, hs.rets);
    assert Attempt(h, hs) == (WriteBio(a, hs.rets).0, Fatal);
  }

  /** A handshake in which the server's callback drops everything. */
  lemma ForgottenHandshake(h: Handle, hs: Handshake)
    requires Inv(h) && h.refs.freed == 0 && h.refs.frames == 0 && !h.flags.internalRef && !h.tls.initFinished
    requires hs == Handshake(Some(Drops(h.refs.external)), [], WantRead, 0, [], [], [], None,
                             hs.onMismatch, hs.onDone)
    ensures HandleHandshake(h, hs).0.refs.freed == 1 && !HandleHandshake(h, hs).1
  {
    ForgottenFrees(h);
    ServerNameKeeps(h, hs);
    var n := ServerName(h, hs);
    assert VerifyAll(n, hs.verify) == (n, true);
    var a := n.(tls := Advance(n.tls, hs, true).0);
    WriteBioFrame(a, hs.rets);
    assert Attempt(h, hs) == (WriteBio(a, hs.rets).0, WantRead);
  }

  lemma ExposedTlsRead(h: Handle, e: Event) returns (f: Event)
    requires Safe(h) && Enabled(h, e) && Exposed(h, e) && e.TlsRead?
    ensures SameEvent(e, f) && Enabled(h, f) && Step(h, f).refs.freed > 0
  {
    var script := Drops(h.refs.external);
    var g := h.(tls := Feed(h.tls, e.data));
    assert Inv(g);
    if h.tls.initFinished {
      f := TlsRead(e.data, e.handshake, [script]);
      var s := g.(flags := g.flags.(writeEnable := true));
      assert Inv(s) && HandleHandshake(g, e.handshake) == (s, true);
      ExposedDelivery(s, ReadChunks(s.tls.plain));
      assert Step(h, f) == Deliver(s, ReadChunks(s.tls.plain), [script]);
    } else if e.handshake.serverName.Some? {
      var none := Verdict([], false);
      f := TlsRead(e.data, Handshake(Some(script), [], WantRead, 0, [], [], [], None, none, none), []);
      ForgottenHandshake(g, f.handshake);
      assert Step(h, f) == HandleHandshake(g, f.handshake).0;
    } else {
      f := TlsRead(e.data, e.handshake.(verify := [Verify(1, 0, Verdict(script, false))]), []);
      ExposedHandshake(g, f.handshake);
      assert Step(h, f) == HandleHandshake(g, f.handshake).0;
    }
  }

  lemma ExposedConnected(h: Handle, e: Event) returns (f: Event)
    requires Safe(h) && Enabled(h, e) && Exposed(h, e) && e.Connected?
    ensures SameEvent(e, f) && Enabled(h, f) && Step(h, f).refs.freed > 0
  {
    f := Connected(e.status, e.readRet, e.hello, e.rets, Drops(h.refs.external));
    var r := MarkReading(h.(uv := h.uv.(connecting := false, reading := true)));
    assert Safe(r);
    OpenEngineSafe(r, e.hello, e.rets);
    OpenedSame(r, e.hello, e.rets);
    var s := OpenEngine(r, e.hello, e.rets);
    LastDropFrees(s, CONNECT, ConnectCall(e.status));
    assert Step(h, f) == CallBack(s, CONNECT, ConnectCall(e.status), f.script);
  }

  lemma ExposedDies(h: Handle, e: Event) returns (f: Event)
    requires Safe(h) && Enabled(h, e) && Exposed(h, e) && !Releases(e)
    ensures SameEvent(e, f) && Enabled(h, f) && Step(h, f).refs.freed > 0
  {
    var script := Drops(h.refs.external);
    match e
    case ReadData(data, _) =>
      f := ReadData(data, script);
      LastDropFrees(h, READ, ReadCall(data));
      assert Step(h, f) == CallBack(h, READ, ReadCall(data), script);
    case ReadFailed(nread, _) =>
      f := ReadFailed(nread, script);
      LastDropFrees(h, ERROR, ErrorCall(nread));
      assert Step(h, f) == CloseSocket(CallBack(h, ERROR, ErrorCall(nread), script));
    case Incoming(status, _) =>
      f := Incoming(status, script);
      LastDropFrees(h, CONNECT, ConnectCall(status));
      assert Step(h, f) == CallBack(h, CONNECT, ConnectCall(status), script);
    case ShutdownDone(status, _) =>
      f := ShutdownDone(status, script);
      var s := h.(uv := h.uv.(shutdowns := h.uv.shutdowns - 1));
      LastDropFrees(s, SHUTDOWN, ShutdownCall(status));
      assert Step(h, f) == CallBack(s, SHUTDOWN, ShutdownCall(status), script);
    case WriteDone(status, _) =>
      f := WriteDone(status, script);
      LastDropFrees(h, WRITE, WriteCall(status, |h.uv.accepted[h.uv.completed]|));
    case Connected(_, _, _, _, _) => f := ExposedConnected(h, e);
    case TlsRead(_, _, _) => f := ExposedTlsRead(h, e);
  }

  /**
    The exact condition, event by event: the callbacks of an event can free the
    handle under it exactly if it calls back while the handle holds no reference on
    itself. (The close callback and a failing name resolution release the handle
    as their last act; for the callback of the latter see `OutlivesExactly`.)
  */
  lemma FreedInEventExactly(h: Handle, e: Event)
    requires Safe(h) && Enabled(h, e) && !e.UserCode? && !Releases(e)
    ensures (exists f :: SameEvent(e, f) && Step(h, f).refs.freed > 0) <==> Exposed(h, e)
  {
    if Exposed(h, e) {
      var f := ExposedDies(h, e);
    } else {
      forall f | SameEvent(e, f) ensures Step(h, f).refs.freed == 0 {
        assert CallsBack(h, f) == CallsBack(h, e) && Enabled(h, f) && !Releases(f);
        if h.flags.internalRef { PinnedOutlives(h, f); } else { UncalledOutlives(h, f); }
      }
    }
  }

  // ---------- when the handle holds its self-reference ----------

  /** Until a name resolution has failed, an open handle holds its self-reference whenever libuv calls
      back for a connection, a shutdown or a resolution, whatever user code does. */
  lemma RequestsRunPinned(h: Handle, e: Event)
    requires ReachableWith(h, REQUESTS) && Enabled(h, e) && !h.uv.closed
    requires e.Connected? || e.Incoming? || e.ShutdownDone? || e.Resolved?
    ensures h.flags.internalRef
    ensures !Releases(e) ==> Step(h, e).flags.internalRef && Step(h, e).refs.freed == 0
  {
    ReachableKept(h, REQUESTS);
    if !Releases(e) { PinnedOutlives(h, e); }
  }

  /** If besides no `setCallback` parses only partly, two kinds of events call back unpinned: those of
      a handshake on a handle that nothing else has pinned, and a resolution after the close. */
  lemma ExposedOnlyInHandshake(h: Handle, e: Event)
    requires ReachableWith(h, CALLBACKS) && Enabled(h, e) && Exposed(h, e)
    ensures (e.TlsRead? && !h.tls.initFinished) || (e.Resolved? && h.uv.closed)
  {
    ReachableKept(h, CALLBACKS);
    OpenIsPinned(h, e);
  }

  lemma OpenIsPinned(h: Handle, e: Event)
    requires PinOk(h, Callbacks) && Enabled(h, e) && Exposed(h, e)
    ensures (e.TlsRead? && !h.tls.initFinished) || (e.Resolved? && h.uv.closed)
  {
  }

  // ---------- what libuv can owe to a freed handle ----------

  /** Reads stop when the object is freed, on every run. */
  lemma FreedNeverReads(h: Handle, e: Event)
    requires Reachable(h) && h.refs.freed > 0 && Due(h.kind, h.uv, e)
    ensures !e.ReadData? && !e.ReadFailed? && !e.TlsRead?
  {
    ReachableSafe(h);
  }

  /** Until a name resolution has failed, libuv owes a freed handle exactly its pending write callbacks
      and close callback; and after the close callback, the answer of a name resolution. */
  lemma OwedToFreed(h: Handle, e: Event)
    requires ReachableWith(h, REQUESTS) && h.refs.freed > 0
    ensures Due(h.kind, h.uv, e) <==>
              || (e.WriteDone? && !h.uv.closed && h.uv.completed < |h.uv.accepted|)
              || (e.CloseDone? && !h.uv.closed && h.uv.closes > 0 && h.uv.completed >= |h.uv.accepted|)
              || (e.Resolved? && h.uv.closed && h.kind.Ssl? && h.uv.resolving > 0)
  {
    ReachableKept(h, REQUESTS);
  }

  /** A handle that was pinned once is freed only after its close callback, which libuv makes after
      all other callbacks of the handle: then nothing is owed but the answer of a name resolution. */
  lemma PinnedOwesNothing(h: Handle, events: seq<Event>, e: Event)
    requires Safe(h) && h.flags.internalRef
    requires forall i :: 0 <= i < |events| ==> !(events[i].Resolved? && events[i].ret != 0)
    ensures var k := Run(h, events);
            k.refs.freed > 0 ==>
              k.uv.closed && (Due(k.kind, k.uv, e) <==> e.Resolved? && k.kind.Ssl? && k.uv.resolving > 0)
  {
    var p := NO_TERMS.(pin := Always);
    forall i | 0 <= i < |events| ensures EventHonours(h.kind, events[i], p) { AlwaysAsksLittle(h.kind, events[i], p); }
    RunKept(h, events, p);
    RunSafe(h, events);
  }

  lemma AlwaysAsksLittle(kind: Kind, e: Event, p: Terms)
    requires p == NO_TERMS.(pin := Always) && !(e.Resolved? && e.ret != 0)
    ensures EventHonours(kind, e, p)
  {
  }

  // ---------- inputs on which it fails ----------

  lemma OneCall(h: Handle, a: Act)
    ensures RunScript(h, [a]) == Perform(h, a) && Step(h, UserCode([a])) == Perform(h, a)
  {
    assert [a][1..] == [];
    assert RunScript(h, [a]) == RunScript(Perform(h, a), []);
  }

  lemma TwoCalls(h: Handle, a: Act, b: Act)
    ensures Step(h, UserCode([a, b])) == Perform(Perform(h, a), b)
  {
    assert [a, b][1..] == [b] && [b][1..] == [];
    assert RunScript(Perform(h, a), [b]) == RunScript(Perform(Perform(h, a), b), []);
  }

  lemma LongerRun(start: Handle, events: seq<Event>, e: Event, p: Terms)
    requires Safe(start) && RunHonours(start.kind, events, p) && EventHonours(Run(start, events).kind, e, p)
    ensures RunHonours(start.kind, events + [e], p) && Run(start, events + [e]) == Step(Run(start, events), e)
  {
    RunSafe(start, events);
    RunSnoc(start, events, e);
    var longer := events + [e];
    forall i | 0 <= i < |longer| ensures EventHonours(start.kind, longer[i], p) {
      if i < |events| { assert longer[i] == events[i]; } else { assert longer[i] == e; }
    }
  }

  lemma ReachesNext(h: Handle, e: Event, p: Terms)
    requires ReachableWith(h, p) && EventHonours(h.kind, e, p)
    ensures ReachableWith(Step(h, e), p)
  {
    var start: Handle, events: seq<Event> :|
      Initial(start) && RunHonours(start.kind, events, p) && h == Run(start, events);
    InitialSafe(start);
    LongerRun(start, events, e, p);
    EndOfRun(start, events + [e], Step(h, e), p);
  }

  lemma EndOfRun(start: Handle, events: seq<Event>, h: Handle, p: Terms)
    requires Initial(start) && RunHonours(start.kind, events, p) && Run(start, events) == h
    ensures ReachableWith(h, p)
  {
  }

  lemma WithTermsIsReachable(h: Handle, p: Terms)
    requires ReachableWith(h, p)
    ensures Reachable(h)
  {
  }

  /** A handle at rest: one variable refers to it, and nothing has happened. */
  ghost predicate Resting(h: Handle) {
    && Safe(h) && h.refs.freed == 0 && h.refs.external == 1 && !h.flags.internalRef
    && h.uv.closes == 0 && !h.uv.closed && h.uv.resolving == 0 && h.uv.shutdowns == 0
    && h.uv.accepted == [] && h.uv.completed == 0 && !h.uv.connecting
    && !h.tls.initFinished && !h.flags.writeEnable
  }

  ghost predicate AtRest(h: Handle, p: Terms) { Resting(h) && ReachableWith(h, p) }

  /** New and accepted handles are at rest. */
  lemma InitialRests(start: Handle, p: Terms)
    requires Initial(start)
    ensures AtRest(start, p) && start.slots == EMPTY
  {
    InitialSafe(start);
    InitialRestsIn(start);
    StartIsReachable(start, [], p);
  }

  lemma StartIsReachable(start: Handle, none: seq<Event>, p: Terms)
    requires Initial(start) && |none| == 0
    ensures ReachableWith(start, p)
  {
    RunOfNone(start, none);
    EndOfRun(start, none, start, p);
  }

  lemma InitialRestsIn(start: Handle)
    requires Initial(start) && Safe(start)
    ensures Resting(start)
  {
    assert start.uv == IDLE.(reading := start.uv.reading) && start.refs == NO_REFS && start.tls == NO_TLS;
    assert !start.flags.internalRef && !start.flags.writeEnable;
  }

  /** An accepted TLS handle on which only the handshake callback is set: a callback that drops the last
      variable leaves the rest of the read event with a freed handle. */
  lemma HandshakeOnlyDies(start: Handle, fn: Fn) returns (h: Handle, e: Event)
    requires AtRest(start, CALLBACKS) && start.kind.Ssl? && start.uv.reading
    ensures ReachableWith(h, CALLBACKS) && e.TlsRead? && e.handshake.serverName.None?
    ensures Enabled(h, e) && Step(h, e).refs.freed > 0
  {
    var p := CALLBACKS;
    var a := SetHandshake(Some(fn));
    OneCall(start, a);
    h := Perform(start, a);
    assert h == start.(slots := Install(start.slots, HANDSHAKE, fn));
    ReachesNext(start, UserCode([a]), p);
    var none := Verdict([], false);
    var hs := Handshake(None, [], WantRead, 0, [], [], [], None, none, none);
    ReachableKept(h, p);
    e := ExposedDies(h, TlsRead([], hs, []));
  }

  /** An accepted TLS handle on which nothing is set, from a server with a server-name callback: that
      callback can do the same. */
  lemma ServerNameDies(start: Handle) returns (e: Event)
    requires AtRest(start, CALLBACKS) && start.kind.Ssl? && start.uv.reading
    ensures e.TlsRead? && Enabled(start, e) && Step(start, e).refs.freed > 0
  {
    var none := Verdict([], false);
    e := ExposedDies(start, TlsRead([], Handshake(Some([]), [], WantRead, 0, [], [], [], None, none, none), []));
  }

  /** An accepted TCP handle on which `setCallback` got a read callback and nothing else that parses. */
  lemma PartlyParsedDies(start: Handle, fn: Fn) returns (h: Handle, e: Event)
    requires AtRest(start, REQUESTS) && start.kind.Tcp? && start.uv.reading
    ensures ReachableWith(h, REQUESTS) && e.ReadData? && Enabled(h, e) && Step(h, e).refs.freed > 0
  {
    var p := REQUESTS;
    var fns: Parsed := [fn];
    OneCall(start, SetCallback(fns));
    h := Perform(start, SetCallback(fns));
    assert h == start.(slots := ParseCallbacks(start.slots, fns)) && h.slots.cell[READ] == Some(fn);
    ReachesNext(start, UserCode([SetCallback(fns)]), p);
    ReachableKept(h, p);
    e := ExposedDies(h, ReadData([0], []));
  }

  /** `connect` by name, which nothing guards against a second time. */
  lemma ConnectsByName(h: Handle, args: ConnectArgs)
    requires Inv(h) && Callable(h) && h.kind.Ssl? && StartConnect(Ssl, args).Resolving?
    ensures var k := Perform(h, Connect(Some(args)));
            && Inv(k) && k.kind.Ssl? && k.uv == h.uv.(resolving := h.uv.resolving + 1)
            && k.flags.internalRef && k.refs.external == h.refs.external && k.refs.freed == 0
  {
    PerformKeeps(h, Connect(Some(args)));
    var k := Perform(h, Connect(Some(args)));
    assert k == DoConnect(h, Some(args)).0;
    assert k == Start(h, k.slots, false, h.uv.(resolving := h.uv.resolving + 1), k.tls);
  }

  lemma ShutsDown(h: Handle, fn: Fn)
    requires Inv(h) && h.flags.internalRef && h.refs.external == 1 && h.refs.freed == 0
    ensures var k := Perform(h, Shutdown(Some(fn), 0));
            && k.kind == h.kind && k.uv == h.uv.(shutdowns := h.uv.shutdowns + 1)
            && k.flags.internalRef && k.refs.external == 1 && k.slots.cell[SHUTDOWN].Some?
  {
    assert Callable(h);
    assert Perform(h, Shutdown(Some(fn), 0)) == DoShutdown(h, Some(fn), 0).0;
  }

  /** A host that is no address. */
  lemma NameResolves(args: ConnectArgs)
    requires args == ConnectArgs("localhost", args.fn, -1, 0)
    ensures StartConnect(Ssl, args).Resolving?
  {
    assert |args.host| == 9;
  }

  /** One event brings a TLS handle at rest to where it is connecting by name, with its shutdown requested. */
  lemma ConnectsAndShutsDown(start: Handle, fn: Fn) returns (k: Handle, e: Event)
    requires Resting(start) && start.kind.Ssl?
    ensures k == Step(start, e) && EventHonours(Ssl, e, REQUESTS) && EventHonours(Ssl, e, NO_TERMS)
    ensures k.kind.Ssl? && k.uv == start.uv.(resolving := start.uv.resolving + 1, shutdowns := start.uv.shutdowns + 1)
    ensures k.flags.internalRef && k.refs.external == 1 && k.slots.cell[SHUTDOWN].Some?
  {
    var args := ConnectArgs("localhost", fn, -1, 0);
    NameResolves(args);
    var a, b := Connect(Some(args)), Shutdown(Some(fn), 0);
    e := UserCode([a, b]);
    TwoCalls(start, a, b);
    ConnectsByName(start, args);
    ShutsDown(Perform(start, a), fn);
    k := Perform(Perform(start, a), b);
  }

  /** A failed name resolution gives the self-reference back. */
  lemma FailureUnpins(s: Handle) returns (k: Handle, e: Event)
    requires Safe(s) && s.kind.Ssl? && s.uv.resolving > 0 && s.flags.internalRef && s.refs.external > 0
    ensures k == Step(s, e) && EventHonours(Ssl, e, NO_TERMS)
    ensures !k.flags.internalRef && k.refs.freed == 0 && k.slots == s.slots
    ensures k.uv == s.uv.(resolving := s.uv.resolving - 1, reading := k.uv.reading)
  {
    var r := s.(uv := s.uv.(resolving := s.uv.resolving - 1));
    assert Inv(r);
    var c := CallBack(r, CONNECT, ConnectCall(-1), []);
    EmptyCallSame(r, CONNECT, ConnectCall(-1));
    e, k := Resolved(-1, []), Release(c);
    assert Step(s, e) == k;
    ReleaseKeeps(c);
    ReleaseFrame(c);
    ReleaseSlots(c);
  }

  lemma ShutdownDies(h: Handle) returns (e: Event)
    requires Safe(h) && h.refs.freed == 0 && !h.flags.internalRef && h.slots.cell[SHUTDOWN].Some?
    requires !h.uv.closed && h.uv.shutdowns > 0
    ensures e.ShutdownDone? && Enabled(h, e) && Step(h, e).refs.freed > 0
  {
    e := ExposedDies(h, ShutdownDone(0, []));
  }

  /** It does so while libuv still has a request to answer. */
  lemma FailedResolutionDies(start: Handle, fn: Fn) returns (h: Handle, e: Event)
    requires AtRest(start, NO_TERMS) && start.kind.Ssl?
    ensures Reachable(h) && e.ShutdownDone? && Enabled(h, e) && Step(h, e).refs.freed > 0
  {
    var s, first := ConnectsAndShutsDown(start, fn);
    ReachesNext(start, first, NO_TERMS);
    ReachableKept(s, NO_TERMS);
    var second;
    h, second := FailureUnpins(s);
    ReachesNext(s, second, NO_TERMS);
    WithTermsIsReachable(h, NO_TERMS);
    ReachableSafe(h);
    e := ShutdownDies(h);
  }

  /** A callback that does nothing changes nothing but the log. */
  lemma EmptyCallSame(h: Handle, slot: Slot, call: Call)
    requires Inv(h) && h.flags.internalRef
    ensures CallBack(h, slot, call, []) == h.(log := CallBack(h, slot, call, []).log)
    ensures Inv(CallBack(h, slot, call, []))
  {
    CallBackKeeps(h, slot, call, []);
    if h.slots.cell[slot].Some? {
      var e := EnterCall(h, call);
      assert RunScript(e, []) == e;
      var d := e.(refs := e.refs.(frames := e.refs.frames - 1));
      assert Drop(d) == h.(log := h.log + [call]);
    }
  }

  /** A release that does not free the object leaves the slots alone. */
  lemma ReleaseSlots(h: Handle)
    requires Inv(h) && h.refs.external > 0 && h.refs.freed == 0
    ensures Release(h).slots == h.slots && Release(h).refs.freed == 0
  {
    StopActivityKeeps(h, 0);
    var s := StopActivity(h);
    if s.flags.internalRef {
      var t := s.(flags := s.flags.(internalRef := false), refs := s.refs.(dropped := s.refs.dropped + 1));
      assert Balanced(t, 1);
      DropKeeps(t);
      DropFrame(t);
    }
  }

  /** `close` on a handle that was never pinned, and then the last variable goes: the close callback is
      owed to a freed handle. */
  lemma CloseOwedToFreed(start: Handle) returns (h: Handle)
    requires AtRest(start, NO_TERMS)
    ensures Reachable(h) && h.refs.freed == 1 && h.uv.closes == 1 && Due(h.kind, h.uv, CloseDone)
  {
    TwoCalls(start, Close, DropRef);
    var c := Perform(start, Close);
    PerformKeeps(start, Close);
    assert c == CloseSocket(start);
    h := LastVariableDropped(c);
    ReachesNext(start, UserCode([Close, DropRef]), NO_TERMS);
    WithTermsIsReachable(h, NO_TERMS);
  }

  /** The same for a write callback. */
  lemma WriteOwedToFreed(start: Handle, data: seq<byte>) returns (h: Handle)
    requires AtRest(start, NO_TERMS) && !start.kind.Ssl?
    ensures Reachable(h) && h.refs.freed == 1 && Due(h.kind, h.uv, WriteDone(0, []))
  {
    TwoCalls(start, Write(data, 0), DropRef);
    var c := Perform(start, Write(data, 0));
    PerformKeeps(start, Write(data, 0));
    assert c == WriteRaw(start.(flags := start.flags.(writeEnable := true)), data, 0);
    h := LastVariableDropped(c);
    ReachesNext(start, UserCode([Write(data, 0), DropRef]), NO_TERMS);
    WithTermsIsReachable(h, NO_TERMS);
  }

  lemma LastVariableDropped(h: Handle) returns (k: Handle)
    requires Inv(h) && h.refs.freed == 0 && h.refs.external == 1 && h.refs.frames == 0 && !h.flags.internalRef
    ensures k == Perform(h, DropRef) && k.refs.freed == 1 && k.kind == h.kind
    ensures k.uv == h.uv.(reading := k.uv.reading)
  {
    k := Perform(h, DropRef);
    var d := h.(refs := h.refs.(external := 0));
    assert Balanced(d, 1);
    DropKeeps(d);
    DropFrame(d);
    assert k == Drop(d);
  }

  /** The shutdown is answered, and the callback does nothing. */
  lemma ShutdownAnswered(s: Handle) returns (k: Handle, e: Event)
    requires Safe(s) && s.flags.internalRef && !s.uv.closed && s.uv.shutdowns > 0
    ensures k == Step(s, e) && EventHonours(s.kind, e, REQUESTS) && k.kind == s.kind
    ensures k.flags == s.flags && k.refs == s.refs && k.uv == s.uv.(shutdowns := s.uv.shutdowns - 1)
  {
    var r := s.(uv := s.uv.(shutdowns := s.uv.shutdowns - 1));
    assert Inv(r);
    EmptyCallSame(r, SHUTDOWN, ShutdownCall(0));
    e, k := ShutdownDone(0, []), CallBack(r, SHUTDOWN, ShutdownCall(0), []);
    assert Step(s, e) == k;
  }

  /** The user closes and forgets the handle, which is still pinned. */
  lemma ClosedAndForgotten(s: Handle) returns (k: Handle, e: Event)
    requires Safe(s) && s.flags.internalRef && s.refs.external == 1
    ensures k == Step(s, e) && EventHonours(s.kind, e, REQUESTS) && k.kind == s.kind
    ensures k.refs.freed == 0 && k.refs.external == 0 && k.uv.closes > 0 && k.uv == s.uv.(closes := k.uv.closes)
  {
    e := UserCode([Close, DropRef]);
    TwoCalls(s, Close, DropRef);
    var c := CloseSocket(s);
    CloseKeeps(s);
    assert Perform(s, Close) == c;
    var d := c.(refs := c.refs.(external := 0));
    assert Balanced(d, 1);
    DropKeeps(d);
    k := Drop(d);
    assert Perform(c, DropRef) == k;
  }

  /** `close` while a name is being resolved: after the close callback the answer is owed to a freed handle. */
  lemma ResolutionOwedToFreed(start: Handle, fn: Fn) returns (h: Handle)
    requires AtRest(start, REQUESTS) && start.kind.Ssl?
    ensures ReachableWith(h, REQUESTS) && h.refs.freed == 1 && h.uv.closed
    ensures Due(h.kind, h.uv, Resolved(0, []))
  {
    var s, first := ConnectsAndShutsDown(start, fn);
    ReachesNext(start, first, REQUESTS);
    ReachableKept(s, REQUESTS);
    var t, second := ShutdownAnswered(s);
    ReachesNext(s, second, REQUESTS);
    ReachableKept(t, REQUESTS);
    var u, third := ClosedAndForgotten(t);
    ReachesNext(t, third, REQUESTS);
    ReachableKept(u, REQUESTS);
    h := Step(u, CloseDone);
    ReachesNext(u, CloseDone, REQUESTS);
    ClosingFrees(u);
  }

  /** Two connects by name, and so two answers that libuv owes. */
  lemma ConnectsTwice(start: Handle, fn: Fn) returns (k: Handle, e: Event)
    requires Resting(start) && start.kind.Ssl?
    ensures k == Step(start, e) && EventHonours(Ssl, e, REQUESTS)
    ensures k.kind.Ssl? && k.uv == start.uv.(resolving := start.uv.resolving + 2)
    ensures k.flags.internalRef && k.refs.external == 1
  {
    var args := ConnectArgs("localhost", fn, -1, 0);
    NameResolves(args);
    var a := Connect(Some(args));
    e := UserCode([a, a]);
    TwoCalls(start, a, a);
    ConnectsByName(start, args);
    ConnectsByName(Perform(start, a), args);
    k := Perform(Perform(start, a), a);
  }

  /** The first name resolves. */
  lemma FirstAnswer(s: Handle) returns (k: Handle, e: Event)
    requires s.kind.Ssl? && s.uv.resolving > 0 && s.refs.freed == 0
    ensures k == Step(s, e) && EventHonours(Ssl, e, REQUESTS)
    ensures k == s.(uv := s.uv.(resolving := s.uv.resolving - 1, connecting := true))
  {
    e, k := Resolved(0, []), s.(uv := s.uv.(resolving := s.uv.resolving - 1, connecting := true));
  }

  /** libuv cancels the connection that `close` has overtaken. */
  lemma ConnectCancelled(s: Handle) returns (k: Handle, e: Event)
    requires s.uv.connecting && !s.uv.closed && s.refs.freed == 0
    ensures k == Step(s, e) && EventHonours(s.kind, e, REQUESTS)
    ensures k == s.(uv := s.uv.(connecting := false))
  {
    e, k := Connected(-125, -22, [], [], []), s.(uv := s.uv.(connecting := false));
  }

  /** Nor does it help to wait for an answer: after two connects by name the second one is still owed. */
  lemma SecondResolutionOwed(start: Handle, fn: Fn) returns (h: Handle)
    requires AtRest(start, REQUESTS) && start.kind.Ssl?
    ensures ReachableWith(h, REQUESTS) && h.refs.freed == 1 && h.uv.closed && !h.uv.connecting
    ensures Due(h.kind, h.uv, Resolved(0, []))
  {
    var s, first := ConnectsTwice(start, fn);
    ReachesNext(start, first, REQUESTS);
    ReachableKept(s, REQUESTS);
    var t, second := FirstAnswer(s);
    ReachesNext(s, second, REQUESTS);
    ReachableKept(t, REQUESTS);
    var u, third := ClosedAndForgotten(t);
    ReachesNext(t, third, REQUESTS);
    ReachableKept(u, REQUESTS);
    var v, fourth := ConnectCancelled(u);
    ReachesNext(u, fourth, REQUESTS);
    ReachableKept(v, REQUESTS);
    h := Step(v, CloseDone);
    ReachesNext(v, CloseDone, REQUESTS);
    ClosingFrees(v);
  }

  lemma ClosingFrees(h: Handle)
    requires Safe(h) && Enabled(h, CloseDone) && h.refs.external == 0
    ensures var k := Step(h, CloseDone);
            k.refs.freed == 1 && k.kind == h.kind && k.uv == h.uv.(closed := true, reading := k.uv.reading)
  {
    var closed := h.(uv := h.uv.(closed := true));
    assert Step(h, CloseDone) == Release(closed);
    ReleaseKeeps(closed);
    ReleaseFrame(closed);
  }

  lemma JustCloses(s: Handle) returns (k: Handle, e: Event)
    requires Resting(s)
    ensures k == Step(s, e) && EventHonours(s.kind, e, NO_TERMS)
    ensures Inv(k) && k.refs == s.refs && k.uv == s.uv.(closes := 1) && k.kind == s.kind
  {
    e, k := UserCode([Close]), CloseSocket(s);
    OneCall(s, Close);
    CloseKeeps(s);
  }

  lemma SetsCallbacks(s: Handle, fns: Parsed) returns (k: Handle, e: Event)
    requires Callable(s) && |fns| == 3
    ensures k == Step(s, e) && EventHonours(s.kind, e, NO_TERMS)
    ensures k.flags.internalRef && k.uv == s.uv
  {
    e, k := UserCode([SetCallback(fns)]), SetCallbacks(s, fns);
    OneCall(s, SetCallback(fns));
    assert Perform(s, SetCallback(fns)) == k;
  }

  lemma ReachesThird(h: Handle, first: Event, second: Event, third: Event, p: Terms)
    requires ReachableWith(h, p)
    requires EventHonours(h.kind, first, p) && EventHonours(Step(h, first).kind, second, p)
    requires EventHonours(Step(Step(h, first), second).kind, third, p)
    ensures ReachableWith(Step(Step(Step(h, first), second), third), p)
  {
    ReachesNext(h, first, p);
    ReachesNext(Step(h, first), second, p);
    ReachesNext(Step(Step(h, first), second), third, p);
  }

  lemma ClosesAndPins(s: Handle, fns: Parsed) returns (h: Handle, first: Event, second: Event, third: Event)
    requires Resting(s) && |fns| == 3
    ensures h == Step(Step(Step(s, first), second), third)
    ensures EventHonours(s.kind, first, NO_TERMS) && EventHonours(Step(s, first).kind, second, NO_TERMS)
    ensures EventHonours(Step(Step(s, first), second).kind, third, NO_TERMS)
    ensures h.uv.closed && h.flags.internalRef && h.uv.resolving == 0
  {
    var c, d;
    c, first := JustCloses(s);
    d, second := ClosesUnpinned(c);
    h, third := SetsCallbacks(d, fns);
  }

  /** `setCallback` after the close callback pins a handle that nothing then gives back. */
  lemma PinnedAfterClose(start: Handle, fns: Parsed) returns (h: Handle)
    requires AtRest(start, NO_TERMS) && |fns| == 3
    ensures Reachable(h) && h.uv.closed && h.flags.internalRef && h.uv.resolving == 0
  {
    var first, second, third;
    h, first, second, third := ClosesAndPins(start, fns);
    ReachesThird(start, first, second, third, NO_TERMS);
    WithTermsIsReachable(h, NO_TERMS);
  }

  lemma ClosesUnpinned(h: Handle) returns (k: Handle, e: Event)
    requires Inv(h) && Enabled(h, CloseDone) && h.refs.external > 0
    ensures k == Step(h, e) && EventHonours(h.kind, e, NO_TERMS) && k.kind == h.kind
    ensures Callable(k) && k.uv == h.uv.(closed := true, reading := k.uv.reading)
  {
    var closed := h.(uv := h.uv.(closed := true));
    e, k := CloseDone, Release(closed);
    assert Step(h, e) == k;
    ReleaseSlots(closed);
    ReleaseFrame(closed);
  }
}
