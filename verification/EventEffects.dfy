/**
  What libuv's events lead to, in the terms of what libuv delivers: which callback is
  called and what it is told, and the whole state that an event leaves when its
  callback does nothing else.
*/
module EventEffects {
  import opened Basics
  import opened Records
  import opened Callbacks
  import opened Streams
  import opened StreamSteps
  import opened TlsSteps
  import opened StreamRuns
  import opened Promises

  // ---------- what the callbacks are told ----------

  /** One call, if the slot is filled. */
  function To(h: Handle, slot: Slot, call: Call): seq<Call> {
    if h.slots.cell[slot].Some? then [call] else []
  }

  /** What the event has the user told: data, the error, a status, the length of the oldest write in flight. */
  function Told(h: Handle, e: Event): seq<Call>
    requires !e.TlsRead?
    requires e.WriteDone? ==> h.uv.completed < |h.uv.accepted|
  {
    match e
    case UserCode(_) => []
    case ReadData(data, _) => To(h, READ, ReadCall(data))
    case ReadFailed(nread, _) => To(h, ERROR, ErrorCall(nread))
    case Connected(status, readRet, _, _, _) =>
      if readRet != 0 then []
      else (if h.kind.Ssl? then [SslNew] else []) + To(h, CONNECT, ConnectCall(status))
    case Incoming(status, _) => To(h, CONNECT, ConnectCall(status))
    case ShutdownDone(status, _) => To(h, SHUTDOWN, ShutdownCall(status))
    case WriteDone(status, _) =>
      if h.flags.writeEnable then To(h, WRITE, WriteCall(status, |h.uv.accepted[h.uv.completed]|)) else []
    case Resolved(ret, _) => if ret != 0 then To(h, CONNECT, ConnectCall(ret)) else []
    case CloseDone => []
  }

  lemma OpenTells(h: Handle, hello: seq<byte>, rets: seq<int>)
    requires Inv(h)
    ensures var k := OpenEngine(h, hello, rets);
            Inv(k) && k.slots == h.slots && k.log == h.log + if h.kind.Ssl? then [SslNew] else []
  {
    assert h.log + [] == h.log;
    if h.kind.Ssl? {
      var n := h.(tls := NewClient(h.tls, hello), log := h.log + [SslNew]);
      assert Inv(n);
      WriteBioKeeps(n, rets);
      WriteBioFrame(n, rets);
    }
  }

  lemma ConnectedTells(h: Handle, e: Event)
    requires Safe(h) && Enabled(h, e) && e.Connected?
    ensures Step(h, e).log == h.log + Told(h, e)
  {
    if e.readRet == 0 {
      var r := MarkReading(h.(uv := h.uv.(connecting := false, reading := true)));
      assert Inv(r);
      OpenTells(r, e.hello, e.rets);
      var s := OpenEngine(r, e.hello, e.rets);
      CallBackKeeps(s, CONNECT, ConnectCall(e.status), e.script);
      Regroup(h.log, if h.kind.Ssl? then [SslNew] else [], To(h, CONNECT, ConnectCall(e.status)));
      assert Step(h, e) == CallBack(s, CONNECT, ConnectCall(e.status), e.script);
    }
  }

  lemma ReleasesTell(h: Handle, e: Event)
    requires Safe(h) && Enabled(h, e) && (e.Resolved? || e.CloseDone?)
    ensures Step(h, e).log == h.log + Told(h, e)
  {
    if e.CloseDone? {
      ReleaseFrame(h.(uv := h.uv.(closed := true)));
    } else if e.ret != 0 {
      var s := h.(uv := h.uv.(resolving := h.uv.resolving - 1));
      assert Inv(s);
      CallBackKeeps(s, CONNECT, ConnectCall(e.ret), e.script);
      ReleaseFrame(CallBack(s, CONNECT, ConnectCall(e.ret), e.script));
    }
  }

  /** Each event tells the user exactly this, whatever the callback then does. (What a TLS read tells is said
      in `TlsEffects` and `TlsStreams`.) */
  lemma EventTells(h: Handle, e: Event)
    requires Safe(h) && Enabled(h, e) && !e.TlsRead?
    ensures Step(h, e).log == h.log + Told(h, e)
  {
    match e
    case UserCode(script) =>
      ScriptKeeps(h, script);
      assert Step(h, e) == RunScript(h, script);
    case ReadData(data, script) => CallBackKeeps(h, READ, ReadCall(data), script);
    case ReadFailed(nread, script) => CallBackKeeps(h, ERROR, ErrorCall(nread), script);
    case Incoming(status, script) => CallBackKeeps(h, CONNECT, ConnectCall(status), script);
    case ShutdownDone(status, script) =>
      var s := h.(uv := h.uv.(shutdowns := h.uv.shutdowns - 1));
      assert Inv(s);
      CallBackKeeps(s, SHUTDOWN, ShutdownCall(status), script);
    case WriteDone(status, script) =>
      CallBackKeeps(h, WRITE, WriteCall(status, |h.uv.accepted[h.uv.completed]|), script);
    case Connected(_, _, _, _, _) => ConnectedTells(h, e);
    case Resolved(_, _) => ReleasesTell(h, e);
    case CloseDone => ReleasesTell(h, e);
  }

  /** An error or the end of the stream is reported once, and has `uv_close` issued: of TCP handles, pipes and
      TLS handles alike, and whatever the error callback does. */
  lemma FailedReadCloses(h: Handle, nread: int, script: Script)
    requires Safe(h) && Enabled(h, ReadFailed(nread, script))
    ensures var k := Step(h, ReadFailed(nread, script));
            && k.flags.closingStart && k.uv.closes == 1
            && k.log == h.log + if h.slots.cell[ERROR].Some? then [ErrorCall(nread)] else []
  {
    var c := CallBack(h, ERROR, ErrorCall(nread), script);
    CallBackKeeps(h, ERROR, ErrorCall(nread), script);
    CloseKeeps(c);
    assert Step(h, ReadFailed(nread, script)) == CloseSocket(c);
  }

  // ---------- what an event leaves ----------

  /** Something other than call frames holds the object. */
  predicate Lasting(h: Handle) { h.refs.freed == 0 && (h.flags.internalRef || h.refs.external > 0) }

  /** A callback that does nothing is told, and changes nothing. */
  lemma IdleCall(h: Handle, slot: Slot, call: Call)
    requires Inv(h) && Lasting(h)
    ensures CallBack(h, slot, call, []) == h.(log := h.log + To(h, slot, call))
  {
    if h.slots.cell[slot].Some? {
      var e := EnterCall(h, call);
      assert RunScript(e, []) == e;
      var d := e.(refs := e.refs.(frames := e.refs.frames - 1));
      assert Drop(d) == h.(log := h.log + [call]);
    } else {
      assert h.log + [] == h.log;
    }
  }

  /** Received data changes nothing but what the user is told; nor does a connection that waits for `accept`. */
  lemma DataLeaves(h: Handle, data: seq<byte>, status: int)
    requires Safe(h) && Lasting(h)
    ensures var e := ReadData(data, []); Enabled(h, e) ==> Step(h, e) == h.(log := h.log + Told(h, e))
    ensures var e := Incoming(status, []); Enabled(h, e) ==> Step(h, e) == h.(log := h.log + Told(h, e))
  {
    IdleCall(h, READ, ReadCall(data));
    IdleCall(h, CONNECT, ConnectCall(status));
  }

  /** An error starts the close, and nothing else. */
  lemma ErrorLeaves(h: Handle, nread: int)
    requires Safe(h) && Lasting(h) && Enabled(h, ReadFailed(nread, []))
    ensures Step(h, ReadFailed(nread, []))
         == h.(log := h.log + Told(h, ReadFailed(nread, [])), flags := h.flags.(closingStart := true),
               uv := h.uv.(closes := 1))
  {
    IdleCall(h, ERROR, ErrorCall(nread));
  }

  /** A shutdown that is over is no longer pending. */
  lemma ShutdownLeaves(h: Handle, status: int)
    requires Safe(h) && Lasting(h) && Enabled(h, ShutdownDone(status, []))
    ensures Step(h, ShutdownDone(status, []))
         == h.(log := h.log + Told(h, ShutdownDone(status, [])), uv := h.uv.(shutdowns := h.uv.shutdowns - 1))
  {
    var s := h.(uv := h.uv.(shutdowns := h.uv.shutdowns - 1));
    assert Inv(s);
    IdleCall(s, SHUTDOWN, ShutdownCall(status));
  }

  /** A finished write has its request freed. */
  lemma WriteLeaves(h: Handle, status: int)
    requires Safe(h) && Lasting(h)
    ensures var e := WriteDone(status, []);
            Enabled(h, e) ==>
              Step(h, e) == h.(log := h.log + Told(h, e),
                               uv := h.uv.(completed := h.uv.completed + 1, released := h.uv.released + 1))
  {
    if Enabled(h, WriteDone(status, [])) {
      IdleCall(h, WRITE, WriteCall(status, |h.uv.accepted[h.uv.completed]|));
      assert h.log + [] == h.log;
    }
  }

  /** A connection, once libuv reads from it, is started and reading; a TLS handle has also its new engine, on
      which see `TlsEffects.FirstFlight`. If reading cannot start, the request is over and nothing else. */
  lemma ConnectionLeaves(h: Handle, status: int, readRet: int)
    requires Safe(h) && Lasting(h) && !h.kind.Ssl? && Enabled(h, Connected(status, readRet, [], [], []))
    ensures var e := Connected(status, readRet, [], [], []);
            Step(h, e)
            == if readRet != 0 then h.(uv := h.uv.(connecting := false))
               else h.(log := h.log + Told(h, e), flags := h.flags.(handleStart := true, readStart := true),
                       uv := h.uv.(connecting := false, reading := true))
  {
    if readRet == 0 {
      var r := MarkReading(h.(uv := h.uv.(connecting := false, reading := true)));
      assert Inv(r);
      IdleCall(r, CONNECT, ConnectCall(status));
    }
  }

  /** The handle is released: stopped, its addresses freed, and the self-reference given back. */
  ghost predicate NowReleased(h: Handle, k: Handle) {
    && k.flags == h.flags.(internalRef := false, handleStart := false, readStart := false)
    && k.uv == h.uv.(reading := false)
    && k.refs == (if h.flags.internalRef then h.refs.(count := h.refs.count - 1, dropped := h.refs.dropped + 1)
                  else h.refs)
    && k.sock == (if IsCached(h.kind, h.sock) then h.sock.(port := 0, addr := None, freed := h.sock.freed + 1)
                  else h.sock)
    && k.peer == (if IsCached(h.kind, h.peer) then h.peer.(port := 0, addr := None, freed := h.peer.freed + 1)
                  else h.peer)
    && k == h.(flags := k.flags, uv := k.uv, refs := k.refs, sock := k.sock, peer := k.peer)
  }

  lemma ReleaseLeaves(h: Handle)
    requires Inv(h) && h.refs.external > 0 && h.refs.freed == 0
    ensures NowReleased(h, Release(h))
  {
    var s := StopActivity(h);
    if s.flags.internalRef {
      var t := s.(flags := s.flags.(internalRef := false), refs := s.refs.(dropped := s.refs.dropped + 1));
      assert t.refs.count > 1;
      assert Drop(t) == t.(refs := t.refs.(count := t.refs.count - 1));
    }
  }

  /** The close callback releases the handle; while a variable holds the object that is all. */
  lemma CloseLeaves(h: Handle)
    requires Safe(h) && Enabled(h, CloseDone) && h.refs.external > 0
    ensures NowReleased(h.(uv := h.uv.(closed := true)), Step(h, CloseDone))
  {
    ReleaseLeaves(h.(uv := h.uv.(closed := true)));
  }

  /** A resolved name is being connected to; one that does not resolve is reported and the handle released. */
  lemma ResolutionLeaves(h: Handle, ret: int)
    requires Safe(h) && Enabled(h, Resolved(ret, [])) && h.refs.external > 0
    ensures var s := h.(uv := h.uv.(resolving := h.uv.resolving - 1));
            var k := Step(h, Resolved(ret, []));
            if ret == 0 then k == s.(uv := s.uv.(connecting := true))
            else NowReleased(s.(log := h.log + Told(h, Resolved(ret, []))), k)
  {
    if ret != 0 {
      var s := h.(uv := h.uv.(resolving := h.uv.resolving - 1));
      assert Inv(s);
      IdleCall(s, CONNECT, ConnectCall(ret));
      var c := s.(log := h.log + Told(h, Resolved(ret, [])));
      assert Inv(c);
      ReleaseLeaves(c);
      assert Step(h, Resolved(ret, [])) == Release(c);
    }
  }

  // ---------- accepted handles read ----------

  /** libuv reads from an accepted handle from the start, and from no new one. */
  lemma AcceptedReads(start: Handle)
    requires Initial(start)
    ensures start.uv.reading == start.flags.readStart == start.flags.handleStart
    ensures start == Accepted(start.kind) ==> start.uv.reading
  {
  }

  /** Where libuv reads, it goes on until the handle is released or freed. */
  lemma ReadingStays(h: Handle, events: seq<Event>)
    requires Safe(h) && h.uv.reading
    requires forall i :: 0 <= i < |events| ==> !events[i].CloseDone? && !(events[i].Resolved? && events[i].ret != 0)
    ensures var k := Run(h, events);
            k.refs.freed > 0 || (k.uv.reading && k.flags.readStart && k.flags.handleStart)
  {
    var p := NO_TERMS.(receiving := true);
    forall i | 0 <= i < |events| ensures EventHonours(h.kind, events[i], p) { ReadsAsksLittle(h.kind, events[i], p); }
    RunKept(h, events, p);
    RunSafe(h, events);
  }

  lemma ReadsAsksLittle(kind: Kind, e: Event, p: Terms)
    requires p == NO_TERMS.(receiving := true) && !e.CloseDone? && !(e.Resolved? && e.ret != 0)
    ensures EventHonours(kind, e, p)
  {
  }
}
