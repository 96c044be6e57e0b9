/**
  The byte streams end to end. What one TLS handle's user writes from the moment
  its handshake is done, first in its handshake callback, is what the other
  handle's read callback receives, in order, however the network cuts the
  ciphertext, and whatever else the users do meanwhile.
*/
module TlsStreams {
  import opened Basics
  import opened Records
  import opened Callbacks
  import opened Streams
  import opened StreamSteps
  import opened TlsSteps
  import opened StreamRuns
  import opened Ownership
  import opened Promises
  import opened Lifetime

  // ---------- the sending side ----------

  predicate ActSends(a: Act) { a.TlsWrite? ==> AllAccepted(a.writeRets) }

  /** The socket takes every write of the script. */
  predicate Sending(script: Script) {
    forall i :: 0 <= i < |script| ==> ActSends(script[i])
  }

  /** The socket takes every write of the event's callbacks, and no new connection replaces the engine. */
  predicate EventSends(e: Event) {
    match e
    case UserCode(s) => Sending(s)
    case ReadData(_, s) => Sending(s)
    case ReadFailed(_, s) => Sending(s)
    case Connected(_, _, _, _, _) => false
    case Incoming(_, s) => Sending(s)
    case ShutdownDone(_, s) => Sending(s)
    case WriteDone(_, s) => Sending(s)
    case Resolved(_, s) => Sending(s)
    case TlsRead(_, _, ss) => forall i :: 0 <= i < |ss| ==> Sending(ss[i])
    case CloseDone => true
  }

  function Since<T>(now: seq<T>, before: seq<T>): seq<T> {
    if |before| <= |now| then now[|before|..] else []
  }

  lemma SinceTwice<T>(a: seq<T>, b: seq<T>, c: seq<T>)
    requires a <= b <= c
    ensures Since(c, a) == Since(b, a) + Since(c, b)
  {
  }

  /** The handshake is over and the BIO is drained. */
  predicate Ready(h: Handle) { h.kind.Ssl? && h.tls.initFinished && h.tls.output == [] }

  /** What the socket took from `h` to `k` decodes to what was written from `h` to `k`. */
  ghost predicate Sends(h: Handle, k: Handle) {
    && Ready(k)
    && h.uv.accepted <= k.uv.accepted && h.tls.written <= k.tls.written
    && var wire := Flatten(Since(k.uv.accepted, h.uv.accepted));
       Payload(wire) == Since(k.tls.written, h.tls.written) && Rest(wire) == []
  }

  predicate SameOutput(h: Handle, k: Handle) {
    && k.kind == h.kind && k.tls.initFinished == h.tls.initFinished && k.tls.output == h.tls.output
    && k.tls.written == h.tls.written && k.uv.accepted == h.uv.accepted
  }

  lemma SameSends(h: Handle, k: Handle)
    requires Ready(h) && SameOutput(h, k)
    ensures Sends(h, k)
  {
    assert Since(k.uv.accepted, h.uv.accepted) == [];
    assert Payload([]) == [] && Rest([]) == [];
  }

  lemma SendsTrans(h: Handle, s: Handle, k: Handle)
    requires Sends(h, s) && Sends(s, k)
    ensures Sends(h, k)
  {
    SinceTwice(h.uv.accepted, s.uv.accepted, k.uv.accepted);
    SinceTwice(h.tls.written, s.tls.written, k.tls.written);
    var first, second := Since(s.uv.accepted, h.uv.accepted), Since(k.uv.accepted, s.uv.accepted);
    FlattenAppend(first, second);
    Refragment(Flatten(first), Flatten(second));
    assert [] + Flatten(second) == Flatten(second);
  }

  lemma TlsWriteSends(h: Handle, message: seq<byte>, rets: seq<int>)
    requires Ready(h) && AllAccepted(rets)
    ensures Sends(h, DoTlsWrite(h, message, rets).0)
  {
    var s := h.(tls := SslWrite(h.tls, message).0);
    assert s.tls.output == Encode(message) by { assert [] + Encode(message) == Encode(message); }
    DecodeEncode(message, []);
    assert Encode(message) + [] == Encode(message) && message + [] == message;
    assert Since(h.tls.written + message, h.tls.written) == message;
    if message == [] {
      assert DoTlsWrite(h, message, rets).0 == s;
      SameSends(h, s);
    } else {
      DrainSucceeds(s, rets);
      DrainConserves(s, rets);
      WriteBioFrame(s, rets);
      var k := WriteBio(s, rets).0;
      assert DoTlsWrite(h, message, rets).0 == k;
      assert Queued(s, k) == Since(k.uv.accepted, h.uv.accepted);
      WriteChunksShape(s.tls.output);
    }
  }

  lemma EncodedPrefix(message: seq<byte>, wire: seq<byte>, rest: seq<byte>)
    requires Encode(message) == wire + rest
    ensures Payload(wire) <= message
  {
    DecodeEncode(message, []);
    assert Encode(message) + [] == Encode(message) && message + [] == message;
    PayloadPrefix(wire, Encode(message));
  }

  /** `write` on a drained engine drains what it has framed. */
  lemma WriteDrains(h: Handle, message: seq<byte>, rets: seq<int>) returns (s: Handle)
    requires Ready(h)
    ensures s == h.(tls := s.tls) && s.tls.output == Encode(message)
    ensures DoTlsWrite(h, message, rets).0 == WriteBio(s, rets).0
  {
    s := h.(tls := SslWrite(h.tls, message).0);
    assert [] + Encode(message) == Encode(message);
  }

  /** Whatever the socket answers, what it took of a message decodes to a prefix of it. */
  lemma RefusedWriteIsPrefix(h: Handle, message: seq<byte>, rets: seq<int>)
    requires Ready(h)
    ensures var k := DoTlsWrite(h, message, rets).0;
            h.uv.accepted <= k.uv.accepted && Payload(Flatten(Since(k.uv.accepted, h.uv.accepted))) <= message
  {
    var s := WriteDrains(h, message, rets);
    DrainConserves(s, rets);
    var k := WriteBio(s, rets).0;
    assert Queued(s, k) == Since(k.uv.accepted, h.uv.accepted);
    Regroup(Flatten(Queued(s, k)), Flatten(Lost(s, k)), k.tls.output);
    EncodedPrefix(message, Flatten(Queued(s, k)), Flatten(Lost(s, k)) + k.tls.output);
  }

  lemma PerformSends(h: Handle, a: Act)
    requires Inv(h) && Ready(h) && ActSends(a)
    ensures Sends(h, Perform(h, a))
  {
    if a.TlsWrite? && Callable(h) {
      TlsWriteSends(h, a.message, a.writeRets);
    } else {
      PerformSame(h, a);
      SameSends(h, Perform(h, a));
    }
  }

  lemma PerformSame(h: Handle, a: Act)
    requires Inv(h) && h.kind.Ssl? && (a.TlsWrite? ==> !Callable(h))
    ensures SameOutput(h, Perform(h, a))
  {
    if Callable(h) {
      match a
      case DropRef => if h.refs.external > 0 { DropFrame(h.(refs := h.refs.(external := h.refs.external - 1))); }
      case SetCallback(fns) => assert Perform(h, a) == SetCallbacks(h, fns);
      case Listen(args) => assert Perform(h, a) == DoListen(h, args).0;
      case Connect(args) => ConnectSame(h, args);
      case Shutdown(fn, ret) => assert Perform(h, a) == DoShutdown(h, fn, ret).0;
      case _ =>
    }
  }

  lemma ConnectSame(h: Handle, args: Option<ConnectArgs>)
    ensures SameOutput(h, DoConnect(h, args).0)
  {
  }

  lemma {:induction false} ScriptSends(h: Handle, script: Script)
    requires Inv(h) && Ready(h) && Sending(script)
    ensures Sends(h, RunScript(h, script))
    decreases |script|
  {
    if script == [] {
      SameSends(h, h);
    } else {
      var s := Perform(h, script[0]);
      PerformKeeps(h, script[0]);
      PerformSends(h, script[0]);
      assert forall i :: 0 <= i < |script[1..]| ==> script[1..][i] == script[i + 1];
      ScriptSends(s, script[1..]);
      SendsTrans(h, s, RunScript(h, script));
    }
  }

  lemma CallBackSends(h: Handle, slot: Slot, call: Call, script: Script)
    requires Inv(h) && Ready(h) && Sending(script)
    ensures Sends(h, CallBack(h, slot, call, script))
  {
    if h.slots.cell[slot].None? {
      SameSends(h, h);
    } else {
      var e := EnterCall(h, call);
      assert Inv(e);
      SameSends(h, e);
      ScriptKeeps(e, script);
      ScriptSends(e, script);
      var r := RunScript(e, script);
      SendsTrans(h, e, r);
      var d := r.(refs := r.refs.(frames := r.refs.frames - 1));
      assert Balanced(d, 1);
      DropFrame(d);
      SameSends(r, Drop(d));
      SendsTrans(h, r, Drop(d));
    }
  }

  lemma {:induction false} DeliverSends(h: Handle, chunks: seq<seq<byte>>, scripts: seq<Script>)
    requires Inv(h) && Ready(h) && forall i :: 0 <= i < |scripts| ==> Sending(scripts[i])
    ensures Sends(h, Deliver(h, chunks, scripts))
    decreases |chunks|
  {
    if chunks == [] {
      SameSends(h, h);
    } else {
      var c := h.(tls := Consume(h.tls, chunks[0]));
      assert Inv(c);
      SameSends(h, c);
      SendingNext(scripts);
      CallBackSends(c, READ, ReadCall(chunks[0]), Next(scripts));
      DeliverOne(h, chunks[0], Next(scripts));
      var s := CallBack(c, READ, ReadCall(chunks[0]), Next(scripts));
      SendsTrans(h, c, s);
      DeliverSends(s, chunks[1..], Tail(scripts));
      DeliverUnfold(h, chunks, scripts);
      SendsTrans(h, s, Deliver(h, chunks, scripts));
    }
  }

  lemma SendingNext(scripts: seq<Script>)
    requires forall i :: 0 <= i < |scripts| ==> Sending(scripts[i])
    ensures Sending(Next(scripts)) && forall i :: 0 <= i < |Tail(scripts)| ==> Sending(Tail(scripts)[i])
  {
  }

  lemma ReleaseSends(h: Handle)
    requires Inv(h) && Ready(h)
    ensures Sends(h, Release(h))
  {
    ReleaseFrame(h);
    SameSends(h, Release(h));
  }

  lemma TlsReadSends(h: Handle, e: Event)
    requires Safe(h) && Ready(h) && e.TlsRead? && Enabled(h, e) && EventSends(e)
    ensures Sends(h, Step(h, e))
  {
    var f := h.(tls := Feed(h.tls, e.data), flags := h.flags.(writeEnable := true));
    assert Inv(f);
    SameSends(h, f);
    DeliverSends(f, ReadChunks(f.tls.plain), e.scripts);
    assert Step(h, e) == Deliver(f, ReadChunks(f.tls.plain), e.scripts);
    SendsTrans(h, f, Step(h, e));
  }

  lemma CallEventSends(h: Handle, e: Event)
    requires Safe(h) && Ready(h) && Enabled(h, e) && EventSends(e)
    requires e.ReadFailed? || e.Incoming? || e.ShutdownDone? || e.WriteDone?
    ensures Sends(h, Step(h, e))
  {
    match e
    case ReadFailed(nread, script) =>
      CallBackSends(h, ERROR, ErrorCall(nread), script);
      var k := CallBack(h, ERROR, ErrorCall(nread), script);
      SameSends(k, CloseSocket(k));
      SendsTrans(h, k, CloseSocket(k));
    case Incoming(status, script) => CallBackSends(h, CONNECT, ConnectCall(status), script);
    case ShutdownDone(status, script) =>
      var s := h.(uv := h.uv.(shutdowns := h.uv.shutdowns - 1));
      assert Inv(s);
      SameSends(h, s);
      CallBackSends(s, SHUTDOWN, ShutdownCall(status), script);
      SendsTrans(h, s, Step(h, e));
    case WriteDone(status, script) =>
      var call := WriteCall(status, |h.uv.accepted[h.uv.completed]|);
      var s := if h.flags.writeEnable then CallBack(h, WRITE, call, script) else h;
      CallBackSends(h, WRITE, call, script);
      SameSends(h, h);
      assert SameOutput(s, Step(h, e));
      SameSends(s, Step(h, e));
      SendsTrans(h, s, Step(h, e));
  }

  lemma ResolvedSends(h: Handle, e: Event)
    requires Safe(h) && Ready(h) && Enabled(h, e) && EventSends(e) && e.Resolved?
    ensures Sends(h, Step(h, e))
  {
    var s := h.(uv := h.uv.(resolving := h.uv.resolving - 1));
    assert Safe(s);
    SameSends(h, s);
    if e.ret == 0 {
      SameSends(h, s.(uv := s.uv.(connecting := true)));
    } else {
      var c := CallBack(s, CONNECT, ConnectCall(e.ret), e.script);
      CallBackSends(s, CONNECT, ConnectCall(e.ret), e.script);
      CallBackSafe(s, CONNECT, ConnectCall(e.ret), e.script);
      SendsTrans(h, s, c);
      ReleaseSends(c);
      SendsTrans(h, c, Release(c));
    }
  }

  lemma StepSends(h: Handle, e: Event)
    requires Safe(h) && Ready(h) && EventSends(e)
    ensures Sends(h, Step(h, e))
  {
    if !Enabled(h, e) {
      SameSends(h, h);
    } else {
      match e
      case UserCode(script) =>
        ScriptSends(h, script);
        assert Step(h, e) == RunScript(h, script);
      case Resolved(_, _) => ResolvedSends(h, e);
      case TlsRead(_, _, _) => TlsReadSends(h, e);
      case CloseDone =>
        var c := h.(uv := h.uv.(closed := true));
        assert Inv(c);
        SameSends(h, c);
        ReleaseSends(c);
        SendsTrans(h, c, Release(c));
      case _ => CallEventSends(h, e);
    }
  }

  /** Over any run, what the socket took decodes to what the user wrote. */
  lemma {:induction false} RunSends(h: Handle, events: seq<Event>)
    requires Safe(h) && Ready(h) && forall i :: 0 <= i < |events| ==> EventSends(events[i])
    ensures Sends(h, Run(h, events))
    decreases |events|
  {
    if events == [] {
      SameSends(h, h);
    } else {
      var s := Step(h, events[0]);
      StepSafe(h, events[0]);
      StepSends(h, events[0]);
      RunSends(s, events[1..]);
      SendsTrans(h, s, Run(h, events));
    }
  }

  // ---------- the sender's handshake ----------

  /** The event is the one in which the engine finishes its handshake. */
  predicate Finishes(h: Handle, e: Event) {
    e.TlsRead? && Enabled(h, e) && !h.tls.initFinished && Attempt(Fed(h, e), e.handshake).1 == Done
  }

  function Fed(h: Handle, e: Event): Handle
    requires e.TlsRead?
  {
    h.(tls := Feed(h.tls, e.data))
  }

  /** The moment in that event when the engine is done and its last flight has been sent. From here on
      `SSL_write` is accepted, first in the handshake callback. */
  function Midway(h: Handle, e: Event): Handle
    requires e.TlsRead?
  {
    Attempt(Fed(h, e), e.handshake).0
  }

  /** The socket takes the last flight, and every write of the callbacks after it. */
  predicate FlightSent(e: Event) {
    && e.TlsRead? && AllAccepted(e.handshake.rets) && EventSends(e)
    && Sending(e.handshake.onMismatch.script) && Sending(e.handshake.onDone.script)
  }

  lemma HandshakeCallbackSends(h: Handle, err: int, v: Verdict)
    requires Inv(h) && Ready(h) && Sending(v.script)
    ensures Sends(h, HandshakeCallback(h, err, v).0)
  {
    var call := HandshakeCall(err, v.accepts);
    var k := CallBack(h, HANDSHAKE, call, v.script);
    CallBackSends(h, HANDSHAKE, call, v.script);
    SameSends(k, CloseSocket(k));
    SendsTrans(h, k, CloseSocket(k));
  }

  lemma CheckPeerSends(h: Handle, hs: Handshake, fits: bool)
    requires Inv(h) && Ready(h) && Sending(hs.onMismatch.script)
    ensures Sends(h, CheckPeer(h, hs, fits).0)
  {
    SameSends(h, h);
    if h.tls.clientMode && hs.cert.Some? {
      var t := TakeCert(h);
      SameSends(h, t);
      CertsKeep(h);
      if fits {
        SameSends(h, FreeCert(t));
      } else {
        HandshakeCallbackSends(t, X509_V_ERR_SUBJECT_ISSUER_MISMATCH, hs.onMismatch);
        var s := HandshakeCallback(t, X509_V_ERR_SUBJECT_ISSUER_MISMATCH, hs.onMismatch).0;
        SendsTrans(h, t, s);
        SameSends(s, FreeCert(s));
        SendsTrans(h, s, FreeCert(s));
      }
    }
  }

  lemma FinishSends(h: Handle, hs: Handshake, fits: bool)
    requires Inv(h) && Ready(h) && Sending(hs.onMismatch.script) && Sending(hs.onDone.script)
    ensures Sends(h, Finish(h, hs, fits).0)
  {
    CheckPeerSends(h, hs, fits);
    var added := CheckPeerKeeps(h, hs, fits);
    var (s, ok) := CheckPeer(h, hs, fits);
    if ok {
      HandshakeCallbackSends(s, X509_V_OK, hs.onDone);
      assert Finish(h, hs, fits) == HandshakeCallback(s, X509_V_OK, hs.onDone);
      SendsTrans(h, s, Finish(h, hs, fits).0);
    }
  }

  lemma MidwayReady(h: Handle, e: Event)
    requires Safe(h) && Finishes(h, e) && AllAccepted(e.handshake.rets)
    ensures Inv(Midway(h, e)) && Ready(Midway(h, e)) && Midway(h, e).tls.certsTaken == Midway(h, e).tls.certsFreed
  {
    var f, hs := Fed(h, e), e.handshake;
    assert Inv(f);
    var added := AttemptKeeps(f, hs);
    var (s, verified) := VerifyAll(ServerName(f, hs), hs.verify);
    var a := s.(tls := Advance(s.tls, hs, verified).0);
    assert Attempt(f, hs).0 == WriteBio(a, hs.rets).0;
    DrainSucceeds(a, hs.rets);
    DrainConserves(a, hs.rets);
  }

  /** What the socket took since the engine was done decodes to what the user wrote since, in the
      handshake callback and in the read callbacks of the same event. */
  lemma HandshakeSends(h: Handle, e: Event)
    requires Safe(h) && Finishes(h, e) && FlightSent(e)
    ensures Sends(Midway(h, e), Step(h, e))
  {
    var f, hs, m := Fed(h, e), e.handshake, Midway(h, e);
    MidwayReady(h, e);
    var fits := CertificateFits(m, hs);
    FinishSends(m, hs, fits);
    var added := FinishKeeps(m, hs, fits);
    var (s, goOn) := Finish(m, hs, fits);
    assert HandleHandshake(f, hs) == (s, goOn);
    if goOn {
      DeliverSends(s, ReadChunks(s.tls.plain), e.scripts);
      assert Step(h, e) == Deliver(s, ReadChunks(s.tls.plain), e.scripts);
      SendsTrans(m, s, Step(h, e));
    } else {
      assert Step(h, e) == s;
    }
  }

  // ---------- the receiving side ----------

  /** The chunks handed to the read callback since the engine was made. */
  function Given(log: seq<Call>): seq<seq<byte>> {
    if log == [] then []
    else
      var before := Given(log[..|log| - 1]);
      match log[|log| - 1]
      case SslNew => []
      case ReadCall(data) => before + [data]
      case _ => before
  }

  lemma GivenSnoc(log: seq<Call>, c: Call)
    ensures Given(log + [c])
         == if c.SslNew? then [] else if c.ReadCall? then Given(log) + [c.data] else Given(log)
  {
    assert (log + [c])[..|log|] == log;
  }

  lemma {:induction false} GivenReports(log: seq<Call>, added: seq<Call>)
    requires forall i :: 0 <= i < |added| ==> added[i].HandshakeCall?
    ensures Given(log + added) == Given(log)
    decreases |added|
  {
    if added == [] {
      assert log + added == log;
    } else {
      var n := |added| - 1;
      GivenReports(log, added[..n]);
      GivenSnoc(log + added[..n], added[n]);
      assert log + added == (log + added[..n]) + [added[n]];
    }
  }

  /** Once the handshake was accepted, all that arrived since and decodes has been handed over, in
      order; before, nothing has. */
  ghost predicate Delivered(h: Handle) {
    if Watch(h.log).accepted then
      && h.tls.initFinished && h.tls.plain == [] && h.tls.partial == Rest(h.tls.fed)
      && Flatten(Given(h.log)) == Payload(h.tls.fed)
    else Given(h.log) == []
  }

  /** The three callbacks and, up to the close, the self-reference stay. */
  const LISTENING := NO_TERMS.(keeps := true, pin := Always)

  /** The same inside an event. */
  const RECEIVING := NO_TERMS.(keeps := true, held := true)

  /** What the receiving user promises: that every `setCallback` parses; and no name resolution fails. */
  ghost predicate EventReceives(kind: Kind, e: Event) { EventHonours(kind, e, LISTENING) }

  ghost predicate Receiver(h: Handle) {
    h.kind.Ssl? && Safe(h) && Kept(h, LISTENING)
  }

  lemma ReceiveOne(h: Handle, chunk: seq<byte>, script: Script) returns (k: Handle)
    requires Inv(h) && Kept(h, RECEIVING) && Honours(h.kind, script, RECEIVING)
    ensures k == CallBack(h.(tls := Consume(h.tls, chunk)), READ, ReadCall(chunk), script)
    ensures Inv(k) && Kept(k, RECEIVING) && k.kind == h.kind && Given(k.log) == Given(h.log) + [chunk]
  {
    var c := h.(tls := Consume(h.tls, chunk));
    k := CallBack(c, READ, ReadCall(chunk), script);
    TlsKept(h, c.tls, RECEIVING);
    DeliverOne(h, chunk, script);
    CallBackKept(c, READ, ReadCall(chunk), script, RECEIVING);
    GivenSnoc(h.log, ReadCall(chunk));
  }

  /** While the read callback stays installed, delivery hands over every chunk, in order. */
  lemma {:induction false} DeliverAll(h: Handle, chunks: seq<seq<byte>>, scripts: seq<Script>)
    requires Inv(h) && Kept(h, RECEIVING)
    requires AllHonour(h.kind, scripts, RECEIVING)
    ensures Given(Deliver(h, chunks, scripts).log) == Given(h.log) + chunks
    decreases |chunks|
  {
    if chunks != [] {
      HonoursNext(h.kind, scripts, RECEIVING);
      var s := ReceiveOne(h, chunks[0], Next(scripts));
      DeliverAll(s, chunks[1..], Tail(scripts));
      DeliverUnfold(h, chunks, scripts);
      Regroup(Given(h.log), [chunks[0]], chunks[1..]);
    }
  }

  lemma SameActs(kind: Kind, script: Script)
    requires Honours(kind, script, LISTENING)
    ensures Honours(kind, script, RECEIVING)
  {
    forall i | 0 <= i < |script| ensures ActHonours(kind, script[i], RECEIVING) {
      assert ActHonours(kind, script[i], LISTENING);
    }
  }

  lemma SameScripts(kind: Kind, scripts: seq<Script>)
    requires AllHonour(kind, scripts, LISTENING)
    ensures AllHonour(kind, scripts, RECEIVING)
  {
    forall i | 0 <= i < |scripts| ensures Honours(kind, scripts[i], RECEIVING) { SameActs(kind, scripts[i]); }
  }

  lemma SameHandshake(kind: Kind, hs: Handshake)
    requires HandshakeHonours(kind, hs, LISTENING)
    ensures HandshakeHonours(kind, hs, RECEIVING)
  {
    SameActs(kind, hs.onMismatch.script);
    SameActs(kind, hs.onDone.script);
    if hs.serverName.Some? { SameActs(kind, hs.serverName.value); }
    forall i | 0 <= i < |hs.verify| ensures Honours(kind, hs.verify[i].verdict.script, RECEIVING) {
      SameActs(kind, hs.verify[i].verdict.script);
    }
  }

  /** An open receiver holds its self-reference. */
  lemma ReceiverHolds(h: Handle)
    requires Receiver(h) && h.refs.freed == 0 && !h.uv.closed
    ensures Kept(h, RECEIVING)
  {
  }

  /** One read event on an established connection. */
  lemma ReadDelivers(h: Handle, e: Event)
    requires Receiver(h) && e.TlsRead? && Enabled(h, e) && EventReceives(h.kind, e)
    requires h.tls.initFinished && h.tls.plain == []
    ensures var k := Step(h, e);
            && k.tls.initFinished && k.tls.plain == []
            && k.tls.partial == Rest(h.tls.partial + e.data) && k.tls.fed == h.tls.fed + e.data
            && Given(k.log) == Given(h.log) + ReadChunks(Payload(h.tls.partial + e.data))
            && (Watch(h.log).accepted ==> Watch(k.log).accepted)
  {
    var f := h.(tls := Feed(h.tls, e.data), flags := h.flags.(writeEnable := true));
    assert f.tls.plain == Payload(h.tls.partial + e.data) by {
      assert [] + Payload(h.tls.partial + e.data) == Payload(h.tls.partial + e.data);
    }
    ReceiverHolds(h);
    assert Inv(f) && Kept(f, RECEIVING);
    SameScripts(h.kind, e.scripts);
    var chunks := ReadChunks(f.tls.plain);
    ReadChunksShape(f.tls.plain);
    DeliverAll(f, chunks, e.scripts);
    var calls := DeliverKeeps(f, chunks, e.scripts);
    if Watch(h.log).accepted { WatchReads(h.log, calls); }
    assert Step(h, e) == Deliver(f, chunks, e.scripts);
  }

  /** The handshake went on, or ended without being accepted: nothing is handed over. */
  lemma UnacceptedReads(h: Handle, k: Handle, added: seq<Call>)
    requires Greeted(h, k, false, added) && !h.tls.initFinished
    ensures Watch(k.log).accepted == Watch(h.log).accepted && Given(k.log) == Given(h.log)
  {
    if Complaints(added) {
      WatchComplaints(h.log, added);
      GivenReports(h.log, added);
    } else {
      var n := |added| - 1;
      var log := h.log + added[..n];
      WatchComplaints(h.log, added[..n]);
      GivenReports(h.log, added[..n]);
      WatchSnoc(log, added[n]);
      GivenSnoc(log, added[n]);
      assert h.log + added == log + [added[n]];
    }
  }

  lemma AcceptedReads(h: Handle, k: Handle, added: seq<Call>)
    requires Greeted(h, k, true, added) && !h.tls.initFinished
    ensures Watch(k.log).accepted && Given(k.log) == Given(h.log) && Decoded(k.tls) && k.tls.initFinished
  {
    var n := |added| - 1;
    var log := h.log + added[..n];
    WatchComplaints(h.log, added[..n]);
    GivenReports(h.log, added[..n]);
    WatchSnoc(log, added[n]);
    GivenSnoc(log, added[n]);
    assert h.log + added == log + [added[n]];
  }

  /** The event in which the handshake is accepted: whatever arrived behind the last flight is handed
      over at once, in canonical chunks. */
  lemma GreetingDelivers(h: Handle, e: Event)
    requires Receiver(h) && e.TlsRead? && Enabled(h, e) && EventReceives(h.kind, e) && !h.tls.initFinished
    requires HandleHandshake(Fed(h, e), e.handshake).1
    ensures var k := Step(h, e);
            && k.tls.initFinished && k.tls.plain == [] && k.tls.partial == Rest(k.tls.fed)
            && Given(k.log) == Given(h.log) + ReadChunks(Payload(k.tls.fed))
            && Watch(k.log).accepted
  {
    var f, hs := Fed(h, e), e.handshake;
    assert Safe(f);
    ReceiverHolds(h);
    TlsKept(h, f.tls, RECEIVING);
    SameHandshake(h.kind, hs);
    SameScripts(h.kind, e.scripts);
    HandshakeKept(f, hs, RECEIVING);
    var added := HandshakeKeeps(f, hs);
    var (s, goOn) := HandleHandshake(f, hs);
    AcceptedReads(f, s, added);
    GreetedDelivers(s, e.scripts);
    assert Step(h, e) == Deliver(s, ReadChunks(s.tls.plain), e.scripts);
  }

  lemma GreetedDelivers(s: Handle, scripts: seq<Script>)
    requires Inv(s) && Kept(s, RECEIVING) && Decoded(s.tls) && s.tls.initFinished && Watch(s.log).accepted
    requires AllHonour(s.kind, scripts, RECEIVING)
    ensures var k := Deliver(s, ReadChunks(s.tls.plain), scripts);
            && k.tls.initFinished && k.tls.plain == [] && k.tls.partial == Rest(k.tls.fed)
            && Given(k.log) == Given(s.log) + ReadChunks(Payload(k.tls.fed))
            && Watch(k.log).accepted
  {
    var chunks := ReadChunks(s.tls.plain);
    ReadChunksShape(s.tls.plain);
    DeliverAll(s, chunks, scripts);
    var calls := DeliverKeeps(s, chunks, scripts);
    WatchReads(s.log, calls);
  }

  lemma TlsReadDelivers(h: Handle, e: Event)
    requires Receiver(h) && Delivered(h) && e.TlsRead? && Enabled(h, e) && EventReceives(h.kind, e)
    ensures Delivered(Step(h, e))
  {
    var k := Step(h, e);
    if h.tls.initFinished {
      ReadDelivers(h, e);
      Refragment(h.tls.fed, e.data);
      ReadChunksShape(Payload(h.tls.partial + e.data));
      FlattenAppend(Given(h.log), ReadChunks(Payload(h.tls.partial + e.data)));
    } else if HandleHandshake(Fed(h, e), e.handshake).1 {
      GreetingDelivers(h, e);
      ReadChunksShape(Payload(k.tls.fed));
      assert [] + ReadChunks(Payload(k.tls.fed)) == ReadChunks(Payload(k.tls.fed));
    } else {
      var f := Fed(h, e);
      assert Safe(f);
      var added := HandshakeKeeps(f, e.handshake);
      UnacceptedReads(f, HandleHandshake(f, e.handshake).0, added);
      assert k == HandleHandshake(f, e.handshake).0;
    }
  }

  /** A callback of another kind hands nothing over. */
  lemma OtherCall(h: Handle, k: Handle, c: Call)
    requires Delivered(h) && TlsCalm(h.tls, k.tls) && (k.log == h.log || k.log == h.log + [c])
    requires !c.SslNew? && !c.ReadCall? && !c.HandshakeCall?
    ensures Delivered(k)
  {
    WatchSnoc(h.log, c);
    GivenSnoc(h.log, c);
  }

  /** A new connection starts again, with a new engine. */
  lemma ConnectedDelivers(h: Handle, e: Event)
    requires Safe(h) && h.kind.Ssl? && Delivered(h) && e.Connected? && Enabled(h, e)
    ensures Delivered(Step(h, e))
  {
    if e.readRet == 0 {
      var r := MarkReading(h.(uv := h.uv.(connecting := false, reading := true)));
      var n := r.(tls := NewClient(r.tls, e.hello), log := r.log + [SslNew]);
      var s := WriteBio(n, e.rets).0;
      assert Safe(r);
      OpenEngineSafe(r, e.hello, e.rets);
      WriteBioFrame(n, e.rets);
      WatchSnoc(r.log, SslNew);
      GivenSnoc(r.log, SslNew);
      assert Delivered(s);
      CallBackKeeps(s, CONNECT, ConnectCall(e.status), e.script);
      assert Step(h, e) == CallBack(s, CONNECT, ConnectCall(e.status), e.script);
      OtherCall(s, Step(h, e), ConnectCall(e.status));
    }
  }

  lemma ResolvedDelivers(h: Handle, e: Event)
    requires Safe(h) && Delivered(h) && e.Resolved? && Enabled(h, e)
    ensures Delivered(Step(h, e))
  {
    var s := h.(uv := h.uv.(resolving := h.uv.resolving - 1));
    if e.ret != 0 {
      var c := CallBack(s, CONNECT, ConnectCall(e.ret), e.script);
      CallBackKeeps(s, CONNECT, ConnectCall(e.ret), e.script);
      ReleaseFrame(c);
      assert Step(h, e) == Release(c);
      OtherCall(h, Step(h, e), ConnectCall(e.ret));
    }
  }

  lemma CallEventDelivers(h: Handle, e: Event)
    requires Safe(h) && Delivered(h) && h.kind.Ssl? && Enabled(h, e)
    requires e.ReadFailed? || e.Incoming? || e.ShutdownDone? || e.WriteDone?
    ensures Delivered(Step(h, e))
  {
    match e
    case ReadFailed(nread, script) =>
      CallBackKeeps(h, ERROR, ErrorCall(nread), script);
      OtherCall(h, Step(h, e), ErrorCall(nread));
    case Incoming(status, script) =>
      CallBackKeeps(h, CONNECT, ConnectCall(status), script);
      OtherCall(h, Step(h, e), ConnectCall(status));
    case ShutdownDone(status, script) =>
      var s := h.(uv := h.uv.(shutdowns := h.uv.shutdowns - 1));
      assert Inv(s);
      CallBackKeeps(s, SHUTDOWN, ShutdownCall(status), script);
      OtherCall(h, Step(h, e), ShutdownCall(status));
    case WriteDone(status, script) =>
      var call := WriteCall(status, |h.uv.accepted[h.uv.completed]|);
      CallBackKeeps(h, WRITE, call, script);
      OtherCall(h, Step(h, e), call);
  }

  lemma StepDelivers(h: Handle, e: Event)
    requires Receiver(h) && Delivered(h) && EventReceives(h.kind, e)
    ensures Delivered(Step(h, e))
  {
    if Enabled(h, e) {
      match e
      case UserCode(script) =>
        ScriptKeeps(h, script);
        assert Step(h, e) == RunScript(h, script);
      case TlsRead(_, _, _) => TlsReadDelivers(h, e);
      case Resolved(_, _) => ResolvedDelivers(h, e);
      case Connected(_, _, _, _, _) => ConnectedDelivers(h, e);
      case CloseDone =>
        var c := h.(uv := h.uv.(closed := true));
        assert Inv(c);
        ReleaseFrame(c);
        assert Step(h, e) == Release(c);
      case _ => CallEventDelivers(h, e);
    }
  }

  /** Over any run, what was handed over since the engine was made is what the ciphertext that arrived
      after the handshake decodes to. */
  lemma {:induction false} RunDelivers(h: Handle, events: seq<Event>)
    requires Receiver(h) && Delivered(h) && forall i :: 0 <= i < |events| ==> EventReceives(h.kind, events[i])
    ensures Delivered(Run(h, events))
    decreases |events|
  {
    if events != [] {
      StepSafe(h, events[0]);
      StepKept(h, events[0], LISTENING);
      StepDelivers(h, events[0]);
      RunDelivers(Step(h, events[0]), events[1..]);
    }
  }

  /** A handle that takes part as the receiver from here on. */
  ghost predicate Listener(h: Handle) { Receiver(h) && Delivered(h) }

  /** It is one if its callbacks are set before its handshake is over, and it is pinned, as it then is. */
  lemma ListensBefore(h: Handle)
    requires Reachable(h) && h.kind.Ssl? && !h.tls.initFinished && ThreeFilled(h) && h.flags.internalRef
    ensures Listener(h)
  {
    ReachableSafe(h);
    FreshDelivered(h);
  }

  lemma AcceptedListens(s: Handle, scripts: seq<Script>)
    requires Inv(s) && Kept(s, RECEIVING) && Decoded(s.tls) && s.tls.initFinished && Watch(s.log).accepted
    requires Given(s.log) == [] && AllHonour(s.kind, scripts, RECEIVING)
    ensures var k := Deliver(s, ReadChunks(s.tls.plain), scripts); Kept(k, RECEIVING) && Delivered(k)
  {
    var k := Deliver(s, ReadChunks(s.tls.plain), scripts);
    GreetedDelivers(s, scripts);
    DeliverKept(s, ReadChunks(s.tls.plain), scripts, RECEIVING);
    ReadChunksShape(Payload(k.tls.fed));
    assert [] + ReadChunks(Payload(k.tls.fed)) == ReadChunks(Payload(k.tls.fed));
  }

  lemma HolderReceives(h: Handle)
    requires h.kind.Ssl? && Safe(h) && Kept(h, RECEIVING)
    ensures Receiver(h)
  {
  }

  /** The handshake is accepted, and by then the callbacks are set and the handle is pinned. */
  ghost predicate AcceptsSet(h: Handle, e: Event)
    requires e.TlsRead?
  {
    var (s, goOn) := HandleHandshake(Fed(h, e), e.handshake);
    goOn && ThreeFilled(s) && s.flags.internalRef && AllHonour(Ssl, e.scripts, RECEIVING)
  }

  lemma AcceptedState(h: Handle, e: Event) returns (s: Handle)
    requires Safe(h) && h.kind.Ssl? && !h.tls.initFinished && e.TlsRead? && Enabled(h, e) && AcceptsSet(h, e)
    ensures s.kind.Ssl? && Inv(s) && Kept(s, RECEIVING) && Decoded(s.tls) && s.tls.initFinished
    ensures Watch(s.log).accepted && Given(s.log) == [] && AllHonour(Ssl, e.scripts, RECEIVING)
    ensures Step(h, e) == Deliver(s, ReadChunks(s.tls.plain), e.scripts)
  {
    NothingGiven(h.log);
    var f := Fed(h, e);
    assert Safe(f);
    var added := HandshakeKeeps(f, e.handshake);
    s := HandleHandshake(f, e.handshake).0;
    AcceptedReads(f, s, added);
  }

  /** It is one as well if they are set during the event in which its handshake is accepted, be it by the
      handshake callback itself. */
  lemma ListensAfter(h: Handle, e: Event)
    requires Reachable(h) && h.kind.Ssl? && !h.tls.initFinished && e.TlsRead? && Enabled(h, e) && AcceptsSet(h, e)
    ensures Listener(Step(h, e))
  {
    ReachableSafe(h);
    var s := AcceptedState(h, e);
    AcceptedListens(s, e.scripts);
    StepSafe(h, e);
    HolderReceives(Step(h, e));
  }

  /** Before the handshake is over nothing has been handed over. */
  lemma FreshDelivered(h: Handle)
    requires Safe(h) && h.kind.Ssl? && !h.tls.initFinished
    ensures Delivered(h)
  {
    NothingGiven(h.log);
  }

  lemma {:induction false} NothingGiven(log: seq<Call>)
    requires Watch(log).good && Watch(log).oks == 0
    ensures Given(log) == [] && !Watch(log).accepted
  {
    if log != [] {
      var pre, c := log[..|log| - 1], log[|log| - 1];
      assert Watch(log) == Observe(Watch(pre), c);
      if !c.SslNew? { NothingGiven(pre); }
    }
  }

  // ---------- end to end ----------

  /**
    `m` is the sender when its engine was done, `k` the sender later, `r` the
    receiver later. If what arrived at `r` after its handshake is a prefix of what
    the socket took from the sender after `m`, then what the read callback was
    given is a prefix of what was written; and it is all of that once everything
    has arrived and the handshake was accepted.
  */
  ghost predicate Agree(m: Handle, k: Handle, r: Handle) {
    var wire, written := Flatten(Since(k.uv.accepted, m.uv.accepted)), Since(k.tls.written, m.tls.written);
    && (r.tls.fed <= wire ==> Flatten(Given(r.log)) <= written)
    && (r.tls.fed == wire && AcceptedBefore(r.log, |r.log|) ==> Flatten(Given(r.log)) == written)
  }

  lemma StreamFacts(m: Handle, k: Handle, r: Handle)
    requires Sends(m, k) && Delivered(r)
    ensures Agree(m, k, r)
  {
    var wire := Flatten(Since(k.uv.accepted, m.uv.accepted));
    WatchMeaning(r.log);
    if r.tls.fed <= wire { PayloadPrefix(r.tls.fed, wire); }
  }

  /**
    The stream, end to end. `a` finishes its handshake in the event `greeting` and
    goes on; `b` listens, from before its handshake (`ListensBefore`) or from the event
    in which it is accepted (`ListensAfter`). Each user and libuv do whatever else
    they do. Everything written from the handshake callback on counts, and so does
    everything that arrives behind the last flight of the handshake.
  */
  lemma EndToEnd(a: Handle, greeting: Event, sends: seq<Event>, b: Handle, receives: seq<Event>)
    requires Reachable(a) && a.kind.Ssl? && Finishes(a, greeting) && FlightSent(greeting)
    requires forall i :: 0 <= i < |sends| ==> EventSends(sends[i])
    requires Listener(b) && forall i :: 0 <= i < |receives| ==> EventReceives(b.kind, receives[i])
    ensures Agree(Midway(a, greeting), Run(Step(a, greeting), sends), Run(b, receives))
  {
    ReachableSafe(a);
    var m, s := Midway(a, greeting), Step(a, greeting);
    StepSafe(a, greeting);
    HandshakeSends(a, greeting);
    RunSends(s, sends);
    SendsTrans(m, s, Run(s, sends));
    RunDelivers(b, receives);
    StreamFacts(m, Run(s, sends), Run(b, receives));
  }

  /** One read event hands over the canonical chunks of the plaintext that is then available, however
      the engine would cut it: on an established connection, and in the event that finishes the handshake. */
  lemma CanonicalChunks(h: Handle, e: Event)
    requires Receiver(h) && Delivered(h) && e.TlsRead? && Enabled(h, e) && EventReceives(h.kind, e)
    ensures var k := Step(h, e);
            Watch(k.log).accepted ==>
              var plain := if h.tls.initFinished then Payload(h.tls.partial + e.data) else Payload(k.tls.fed);
              && Given(k.log) == Given(h.log) + ReadChunks(plain)
              && |Given(k.log)| == |Given(h.log)| + |plain| / 256 + 1
  {
    if h.tls.initFinished {
      ReadDelivers(h, e);
      ReadChunksShape(Payload(h.tls.partial + e.data));
    } else if HandleHandshake(Fed(h, e), e.handshake).1 {
      GreetingDelivers(h, e);
      ReadChunksShape(Payload(Step(h, e).tls.fed));
    } else {
      TlsReadUnaccepted(h, e);
    }
  }

  lemma TlsReadUnaccepted(h: Handle, e: Event)
    requires Safe(h) && h.kind.Ssl? && e.TlsRead? && Enabled(h, e) && !h.tls.initFinished
    requires !HandleHandshake(Fed(h, e), e.handshake).1
    ensures !Watch(Step(h, e).log).accepted && Given(Step(h, e).log) == Given(h.log)
  {
    var f := Fed(h, e);
    assert Safe(f);
    NothingGiven(h.log);
    var added := HandshakeKeeps(f, e.handshake);
    UnacceptedReads(f, HandleHandshake(f, e.handshake).0, added);
    assert Step(h, e) == HandleHandshake(f, e.handshake).0;
  }

  // ---------- both ends exist ----------

  lemma SetsCallback(h: Handle, fns: Parsed) returns (k: Handle)
    requires Inv(h) && h.kind.Ssl? && Callable(h) && |fns| == 3
    ensures k == Perform(h, SetCallback(fns)) && Inv(k) && Calm(h, k) && ThreeFilled(k)
    ensures k.flags.internalRef && k.uv == h.uv && k.tls == h.tls && Callable(k)
  {
    var t := h.(slots := OwnCallbacks(ParseCallbacks(h.slots, fns)));
    ParsedCells(h.slots, fns);
    SelfReferenced(t);
    k := SetSelfReference(t);
    assert Perform(h, SetCallback(fns)) == SetCallbacks(h, fns) == k;
    PerformKeeps(h, SetCallback(fns));
  }

  lemma SelfReferenced(h: Handle)
    requires Callable(h)
    ensures var k := SetSelfReference(h);
            k.flags.internalRef && k.uv == h.uv && k.tls == h.tls && k.slots == h.slots && Callable(k)
  {
  }

  lemma SetsHandshake(h: Handle, f: Fn) returns (k: Handle)
    requires Inv(h) && h.kind.Ssl? && Callable(h) && ThreeFilled(h) && h.flags.internalRef
    ensures k == Perform(h, SetHandshake(Some(f))) && Inv(k) && Calm(h, k) && ThreeFilled(k)
    ensures k.slots.cell[HANDSHAKE].Some? && k.flags.internalRef && k.uv == h.uv && k.tls == h.tls && Callable(k)
  {
    k := h.(slots := Install(h.slots, HANDSHAKE, f));
    assert k == Perform(h, SetHandshake(Some(f)));
    PerformKeeps(h, SetHandshake(Some(f)));
  }

  /** `setCallback` and `setSSLHandshakeCallback` on a TLS handle. */
  lemma SetsUp(h: Handle, f: Fn, fns: Parsed) returns (k: Handle, e: Event)
    requires Inv(h) && h.kind.Ssl? && Callable(h) && |fns| == 3
    ensures k == Step(h, e) && EventReceives(h.kind, e)
    ensures Inv(k) && Calm(h, k) && ThreeFilled(k) && k.slots.cell[HANDSHAKE].Some?
    ensures k.flags.internalRef && k.uv == h.uv && k.tls == h.tls && Callable(k)
  {
    var s := SetsCallback(h, fns);
    k := SetsHandshake(s, f);
    e := UserCode([SetCallback(fns), SetHandshake(Some(f))]);
    TwoCalls(h, SetCallback(fns), SetHandshake(Some(f)));
  }

  /** The engine finishes at once, and takes all that arrives for application data. */
  function Greeting(app: seq<byte>, onDone: Script): Event {
    TlsRead(app, Handshake(None, [], Done, 0, [], [], [], None, Verdict([], true), Verdict(onDone, true)), [])
  }

  lemma GreetingFinishes(h: Handle, app: seq<byte>, onDone: Script)
    requires Inv(h) && h.kind.Ssl? && !h.tls.initFinished && !h.tls.clientMode
    requires h.tls.input == [] && h.tls.output == [] && h.slots.cell[HANDSHAKE].Some?
    ensures var e := Greeting(app, onDone);
            && Attempt(Fed(h, e), e.handshake) == (Midway(h, e), Done)
            && Midway(h, e) == h.(tls := Midway(h, e).tls) && Midway(h, e).tls.fed == app
            && HandleHandshake(Fed(h, e), e.handshake)
               == (CallBack(Midway(h, e), HANDSHAKE, HandshakeCall(X509_V_OK, true), onDone), true)
  {
    var e := Greeting(app, onDone);
    var f, hs := Fed(h, e), e.handshake;
    assert f.tls.input == app by { assert [] + app == app; }
    var a := f.(tls := Advance(f.tls, hs, true).0);
    assert a.tls.output == [] && a.tls.fed == app by { assert app[0..] == app; }
    assert VerifyAll(f, hs.verify) == (f, true);
    assert WriteBio(a, hs.rets) == (a, 0);
    assert Attempt(f, hs) == (a, Done);
    assert Finish(a, hs, CertificateFits(a, hs)) == HandshakeCallback(a, X509_V_OK, hs.onDone);
    assert HandleHandshake(f, hs) == Finish(a, hs, CertificateFits(a, hs));
  }

  lemma WriteIsSent(h: Handle, message: seq<byte>)
    requires Inv(h) && Ready(h) && Callable(h)
    ensures var k := RunScript(h, [TlsWrite(message, [])]);
            && k.tls.written == h.tls.written + message && Ready(k) && Inv(k)
            && k.refs == h.refs
  {
    OneCall(h, TlsWrite(message, []));
    var k := DoTlsWrite(h, message, []).0;
    assert Perform(h, TlsWrite(message, [])) == k;
    TlsWriteSends(h, message, []);
    TlsWriteKeeps(h, message, []);
    WriteBioFrame(h.(tls := SslWrite(h.tls, message).0), []);
  }

  /** A write in the handshake callback is sent. */
  lemma CallBackWrites(m: Handle, message: seq<byte>)
    requires Inv(m) && Ready(m) && m.refs.freed == 0 && m.slots.cell[HANDSHAKE].Some?
    ensures var k := CallBack(m, HANDSHAKE, HandshakeCall(X509_V_OK, true), [TlsWrite(message, [])]);
            k.tls.written == m.tls.written + message && Ready(k)
  {
    var e := EnterCall(m, HandshakeCall(X509_V_OK, true));
    assert Inv(e) && Callable(e);
    WriteIsSent(e, message);
    LeaveCallKeeps(RunScript(e, [TlsWrite(message, [])]));
  }

  lemma GreetingReceives(app: seq<byte>, message: seq<byte>)
    ensures EventReceives(Ssl, Greeting(app, [TlsWrite(message, [])]))
    ensures FlightSent(Greeting(app, [TlsWrite(message, [])]))
  {
  }

  /** After the callback, delivery leaves alone what has arrived and what was written. */
  lemma DeliveryLeaves(c: Handle)
    requires Inv(c) && Ready(c)
    ensures var k := Deliver(c, ReadChunks(c.tls.plain), []);
            k.tls.fed == c.tls.fed && c.tls.written <= k.tls.written
  {
    var none: seq<Script> := [];
    DeliverSends(c, ReadChunks(c.tls.plain), none);
    var calls := DeliverKeeps(c, ReadChunks(c.tls.plain), none);
  }

  lemma GreetingWrites(h: Handle, app: seq<byte>, message: seq<byte>, e: Event)
    requires Safe(h) && h.kind.Ssl? && !h.tls.initFinished && !h.tls.clientMode
    requires h.tls.input == [] && h.tls.output == [] && h.slots.cell[HANDSHAKE].Some?
    requires e == Greeting(app, [TlsWrite(message, [])]) && Enabled(h, e)
    ensures Finishes(h, e) && HandleHandshake(Fed(h, e), e.handshake).1
    ensures Step(h, e).tls.fed == app && Midway(h, e).tls.written + message <= Step(h, e).tls.written
  {
    var script := [TlsWrite(message, [])];
    GreetingFinishes(h, app, script);
    var m := Midway(h, e);
    MidwayReady(h, e);
    CallBackWrites(m, message);
    CallBackKeeps(m, HANDSHAKE, HandshakeCall(X509_V_OK, true), script);
    var c := CallBack(m, HANDSHAKE, HandshakeCall(X509_V_OK, true), script);
    DeliveryLeaves(c);
    assert Step(h, e) == Deliver(c, ReadChunks(c.tls.plain), e.scripts);
  }

  /** What a session shows: bytes written in the handshake callback, and bytes that arrive behind the
      handshake. */
  ghost predicate Exchanges(k: Handle, greeting: Event, app: seq<byte>, message: seq<byte>) {
    && Finishes(k, greeting) && FlightSent(greeting) && EventReceives(Ssl, greeting)
    && var m, s := Midway(k, greeting), Step(k, greeting);
       && message <= Since(s.tls.written, m.tls.written) && Sends(m, s)
       && s.tls.fed == app && Flatten(Given(s.log)) == Payload(app) && AcceptedBefore(s.log, |s.log|)
  }

  lemma GreetingExchanges(k: Handle, app: seq<byte>, message: seq<byte>) returns (greeting: Event)
    requires Receiver(k) && k.slots.cell[HANDSHAKE].Some? && k.refs.freed == 0
    requires !k.tls.initFinished && !k.tls.clientMode && k.tls.input == [] && k.tls.output == []
    requires k.uv.reading && k.uv.closes == 0 && !k.uv.closed
    ensures Exchanges(k, greeting, app, message)
  {
    greeting := Greeting(app, [TlsWrite(message, [])]);
    GreetingReceives(app, message);
    GreetingWrites(k, app, message, greeting);
    HandshakeSends(k, greeting);
    SinceHolds(Midway(k, greeting).tls.written, message, Step(k, greeting).tls.written);
    FreshDelivered(k);
    GreetingDelivers(k, greeting);
    TlsReadDelivers(k, greeting);
    WatchMeaning(Step(k, greeting).log);
  }

  /**
    Both ends exist, with bytes in both places. Every accepted TLS handle on which
    nothing has arrived yet has a run that sets its callbacks and then finishes the
    handshake in one event, in which the handshake callback writes any message
    and any application bytes arrive behind the handshake: the socket takes what
    decodes to at least that message, and the read callback is given what the
    bytes decode to.
  */
  lemma SessionExists(start: Handle, f: Fn, fns: Parsed, app: seq<byte>, message: seq<byte>)
      returns (setup: Event, k: Handle, greeting: Event)
    requires Safe(start) && start.kind.Ssl? && Callable(start) && |fns| == 3
    requires !start.tls.initFinished && !start.tls.clientMode && start.tls.input == [] && start.tls.output == []
    requires start.uv.reading && start.uv.closes == 0 && !start.uv.closed
    ensures k == Step(start, setup) && EventReceives(Ssl, setup)
    ensures ThreeFilled(k) && k.flags.internalRef && !k.tls.initFinished
    ensures Exchanges(k, greeting, app, message)
  {
    k, setup := SetsUp(start, f, fns);
    StepSafe(start, setup);
    greeting := GreetingExchanges(k, app, message);
  }

  lemma SinceHolds<T>(before: seq<T>, part: seq<T>, now: seq<T>)
    requires before + part <= now
    ensures part <= Since(now, before)
  {
  }
}
