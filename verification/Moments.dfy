/**
  The moments at which PHP code runs: between the calls of user code, inside the
  callbacks of an event as much as outside. These are the states in which the
  cycle collector can start, and the references of a handle are accounted for in
  each of them.
*/
module Moments {
  import opened Basics
  import opened Records
  import opened Callbacks
  import opened Streams
  import opened StreamSteps
  import opened TlsSteps
  import opened StreamRuns
  import opened Promises

  // ---------- the moments of an event ----------

  /** `k` comes after some calls of the script. */
  ghost predicate InScript(h: Handle, script: Script, k: Handle) {
    exists n: nat :: n <= |script| && k == RunScript(h, script[..n])
  }

  ghost predicate InCall(h: Handle, slot: Slot, call: Call, script: Script, k: Handle) {
    h.slots.cell[slot].Some? && InScript(EnterCall(h, call), script, k)
  }

  ghost predicate InReport(h: Handle, err: int, v: Verdict, k: Handle) {
    InCall(h, HANDSHAKE, HandshakeCall(err, v.accepts), v.script, k)
  }

  ghost predicate InVerify(h: Handle, vs: seq<Verify>, k: Handle)
    decreases |vs|
  {
    && vs != []
    && var v := vs[0];
       var (s, ok) := VerifyCallback(h, v);
       || (v.err != X509_V_OK &&
           InReport(h, if v.depth > VERIFY_DEPTH then X509_V_ERR_CERT_CHAIN_TOO_LONG else v.err, v.verdict, k))
       || (ok && InVerify(s, vs[1..], k))
  }

  ghost predicate InAttempt(h: Handle, hs: Handshake, k: Handle) {
    || (hs.serverName.Some? && InScript(h, hs.serverName.value, k))
    || InVerify(ServerName(h, hs), hs.verify, k)
  }

  ghost predicate InFinish(h: Handle, hs: Handshake, fits: bool, k: Handle) {
    var (s, ok) := CheckPeer(h, hs, fits);
    || (h.tls.clientMode && hs.cert.Some? && !fits &&
        InReport(TakeCert(h), X509_V_ERR_SUBJECT_ISSUER_MISMATCH, hs.onMismatch, k))
    || (ok && InReport(s, X509_V_OK, hs.onDone, k))
  }

  ghost predicate InHandshake(h: Handle, hs: Handshake, k: Handle) {
    && !h.tls.initFinished
    && var (s, outcome) := Attempt(h, hs);
       InAttempt(h, hs, k) || (outcome == Done && InFinish(s, hs, CertificateFits(s, hs), k))
  }

  ghost predicate InDelivery(h: Handle, chunks: seq<seq<byte>>, scripts: seq<Script>, k: Handle)
    decreases |chunks|
  {
    && chunks != []
    && var c := h.(tls := Consume(h.tls, chunks[0]));
       || InCall(c, READ, ReadCall(chunks[0]), Next(scripts), k)
       || InDelivery(CallBack(c, READ, ReadCall(chunks[0]), Next(scripts)), chunks[1..], Tail(scripts), k)
  }

  ghost predicate InTlsRead(h: Handle, data: seq<byte>, hs: Handshake, scripts: seq<Script>, k: Handle) {
    var f := h.(tls := Feed(h.tls, data));
    var (s, goOn) := HandleHandshake(f, hs);
    InHandshake(f, hs, k) || (goOn && InDelivery(s, ReadChunks(s.tls.plain), scripts, k))
  }

  /** `k` is a state in which user code of the event runs. */
  ghost predicate InEvent(h: Handle, e: Event, k: Handle) {
    && Enabled(h, e)
    && match e
       case UserCode(script) => InScript(h, script, k)
       case ReadData(data, script) => InCall(h, READ, ReadCall(data), script, k)
       case ReadFailed(nread, script) => InCall(h, ERROR, ErrorCall(nread), script, k)
       case Connected(status, readRet, hello, rets, script) =>
         var s := MarkReading(h.(uv := h.uv.(connecting := false, reading := true)));
         readRet == 0 && InCall(OpenEngine(s, hello, rets), CONNECT, ConnectCall(status), script, k)
       case Incoming(status, script) => InCall(h, CONNECT, ConnectCall(status), script, k)
       case ShutdownDone(status, script) =>
         InCall(h.(uv := h.uv.(shutdowns := h.uv.shutdowns - 1)), SHUTDOWN, ShutdownCall(status), script, k)
       case WriteDone(status, script) =>
         h.flags.writeEnable && InCall(h, WRITE, WriteCall(status, |h.uv.accepted[h.uv.completed]|), script, k)
       case Resolved(ret, script) =>
         ret != 0 &&
         InCall(h.(uv := h.uv.(resolving := h.uv.resolving - 1)), CONNECT, ConnectCall(ret), script, k)
       case TlsRead(data, hs, scripts) => InTlsRead(h, data, hs, scripts, k)
       case CloseDone => false
  }

  /** Some run comes to `k`, between its events or while user code of one runs. */
  ghost predicate Occurs(k: Handle) {
    Reachable(k) || exists h: Handle, e: Event :: Reachable(h) && InEvent(h, e, k)
  }

  // ---------- what holds in them ----------

  /** The ledger is right, and the slots are accounted for. */
  ghost predicate Consistent(k: Handle) { Inv(k) && Accounted(k.slots) }

  ghost predicate Followed(h: Handle) { Inv(h) && Kept(h, COUNTED) }

  lemma NothingAskedOf(kind: Kind, script: Script)
    ensures Honours(kind, script, COUNTED)
  {
  }

  lemma NothingAskedOfHandshake(kind: Kind, hs: Handshake)
    ensures HandshakeHonours(kind, hs, COUNTED)
  {
  }

  lemma ScriptFollowed(h: Handle, script: Script)
    requires Followed(h)
    ensures Followed(RunScript(h, script))
  {
    NothingAskedOf(h.kind, script);
    ScriptKeeps(h, script);
    ScriptKept(h, script, COUNTED);
  }

  lemma InScriptFollowed(h: Handle, script: Script, k: Handle)
    requires Followed(h) && InScript(h, script, k)
    ensures Followed(k)
  {
    var n: nat :| n <= |script| && k == RunScript(h, script[..n]);
    ScriptFollowed(h, script[..n]);
  }

  lemma InCallFollowed(h: Handle, slot: Slot, call: Call, script: Script, k: Handle)
    requires Followed(h) && InCall(h, slot, call, script, k)
    ensures Followed(k)
  {
    EnterCallKept(h, call, COUNTED);
    InScriptFollowed(EnterCall(h, call), script, k);
  }

  lemma CallFollowed(h: Handle, slot: Slot, call: Call, script: Script)
    requires Followed(h) && (call.HandshakeCall? ==> slot == HANDSHAKE)
    ensures Followed(CallBack(h, slot, call, script))
  {
    NothingAskedOf(h.kind, script);
    CallBackKeeps(h, slot, call, script);
    CallBackKept(h, slot, call, script, COUNTED);
  }

  lemma VerifyFollowed(h: Handle, v: Verify)
    requires Followed(h)
    ensures Followed(VerifyCallback(h, v).0)
  {
    var added := VerifyCallbackKeeps(h, v);
    if v.err != X509_V_OK {
      NothingAskedOf(h.kind, v.verdict.script);
      var err := if v.depth > VERIFY_DEPTH then X509_V_ERR_CERT_CHAIN_TOO_LONG else v.err;
      HandshakeCallbackKept(h, err, v.verdict, COUNTED);
    }
  }

  lemma {:induction false} InVerifyFollowed(h: Handle, vs: seq<Verify>, k: Handle)
    requires Followed(h) && InVerify(h, vs, k)
    ensures Followed(k)
    decreases |vs|
  {
    var v := vs[0];
    var err := if v.depth > VERIFY_DEPTH then X509_V_ERR_CERT_CHAIN_TOO_LONG else v.err;
    if v.err != X509_V_OK && InReport(h, err, v.verdict, k) {
      InCallFollowed(h, HANDSHAKE, HandshakeCall(err, v.verdict.accepts), v.verdict.script, k);
    } else {
      VerifyFollowed(h, v);
      InVerifyFollowed(VerifyCallback(h, v).0, vs[1..], k);
    }
  }

  lemma InAttemptFollowed(h: Handle, hs: Handshake, k: Handle)
    requires Followed(h) && InAttempt(h, hs, k)
    ensures Followed(k)
  {
    if hs.serverName.Some? && InScript(h, hs.serverName.value, k) {
      InScriptFollowed(h, hs.serverName.value, k);
    } else {
      if hs.serverName.Some? { ScriptFollowed(h, hs.serverName.value); }
      InVerifyFollowed(ServerName(h, hs), hs.verify, k);
    }
  }

  lemma InFinishFollowed(h: Handle, hs: Handshake, fits: bool, k: Handle)
    requires Followed(h) && InFinish(h, hs, fits, k)
    ensures Followed(k)
  {
    NothingAskedOfHandshake(h.kind, hs);
    CertsKept(h, COUNTED);
    var added := CheckPeerKeeps(h, hs, fits);
    CheckPeerKept(h, hs, fits, COUNTED);
    var (s, ok) := CheckPeer(h, hs, fits);
    if ok && InReport(s, X509_V_OK, hs.onDone, k) {
      InCallFollowed(s, HANDSHAKE, HandshakeCall(X509_V_OK, hs.onDone.accepts), hs.onDone.script, k);
    } else {
      InCallFollowed(TakeCert(h), HANDSHAKE, HandshakeCall(X509_V_ERR_SUBJECT_ISSUER_MISMATCH, hs.onMismatch.accepts),
                     hs.onMismatch.script, k);
    }
  }

  lemma InHandshakeFollowed(h: Handle, hs: Handshake, k: Handle)
    requires Followed(h) && h.kind.Ssl? && InHandshake(h, hs, k)
    ensures Followed(k)
  {
    if InAttempt(h, hs, k) {
      InAttemptFollowed(h, hs, k);
    } else {
      NothingAskedOfHandshake(h.kind, hs);
      var added := AttemptKeeps(h, hs);
      AttemptKept(h, hs, COUNTED);
      var (s, outcome) := Attempt(h, hs);
      InFinishFollowed(s, hs, CertificateFits(s, hs), k);
    }
  }

  lemma {:induction false} InDeliveryFollowed(h: Handle, chunks: seq<seq<byte>>, scripts: seq<Script>, k: Handle)
    requires Followed(h) && InDelivery(h, chunks, scripts, k)
    ensures Followed(k)
    decreases |chunks|
  {
    var c := h.(tls := Consume(h.tls, chunks[0]));
    TlsKept(h, c.tls, COUNTED);
    if InCall(c, READ, ReadCall(chunks[0]), Next(scripts), k) {
      InCallFollowed(c, READ, ReadCall(chunks[0]), Next(scripts), k);
    } else {
      CallFollowed(c, READ, ReadCall(chunks[0]), Next(scripts));
      InDeliveryFollowed(CallBack(c, READ, ReadCall(chunks[0]), Next(scripts)), chunks[1..], Tail(scripts), k);
    }
  }

  lemma InTlsReadFollowed(h: Handle, data: seq<byte>, hs: Handshake, scripts: seq<Script>, k: Handle)
    requires Safe(h) && Followed(h) && h.kind.Ssl? && InTlsRead(h, data, hs, scripts, k)
    ensures Followed(k)
  {
    var f := h.(tls := Feed(h.tls, data));
    TlsKept(h, f.tls, COUNTED);
    if InHandshake(f, hs, k) {
      InHandshakeFollowed(f, hs, k);
    } else {
      NothingAskedOfHandshake(h.kind, hs);
      var added := HandshakeKeeps(f, hs);
      HandshakeKept(f, hs, COUNTED);
      var (s, goOn) := HandleHandshake(f, hs);
      InDeliveryFollowed(s, ReadChunks(s.tls.plain), scripts, k);
    }
  }

  lemma InConnectedFollowed(h: Handle, e: Event, k: Handle)
    requires Safe(h) && Followed(h) && e.Connected? && InEvent(h, e, k)
    ensures Followed(k)
  {
    var r := MarkReading(h.(uv := h.uv.(connecting := false, reading := true)));
    assert Followed(r);
    OpenEngineKept(r, e.hello, e.rets, COUNTED);
    InCallFollowed(OpenEngine(r, e.hello, e.rets), CONNECT, ConnectCall(e.status), e.script, k);
  }

  lemma InEventFollowed(h: Handle, e: Event, k: Handle)
    requires Safe(h) && Followed(h) && InEvent(h, e, k)
    ensures Followed(k)
  {
    match e
    case UserCode(script) => InScriptFollowed(h, script, k);
    case ReadData(data, script) => InCallFollowed(h, READ, ReadCall(data), script, k);
    case ReadFailed(nread, script) => InCallFollowed(h, ERROR, ErrorCall(nread), script, k);
    case Connected(_, _, _, _, _) => InConnectedFollowed(h, e, k);
    case Incoming(status, script) => InCallFollowed(h, CONNECT, ConnectCall(status), script, k);
    case ShutdownDone(status, script) =>
      var s := h.(uv := h.uv.(shutdowns := h.uv.shutdowns - 1));
      assert Followed(s);
      InCallFollowed(s, SHUTDOWN, ShutdownCall(status), script, k);
    case WriteDone(status, script) =>
      InCallFollowed(h, WRITE, WriteCall(status, |h.uv.accepted[h.uv.completed]|), script, k);
    case Resolved(ret, script) =>
      var s := h.(uv := h.uv.(resolving := h.uv.resolving - 1));
      assert Followed(s);
      InCallFollowed(s, CONNECT, ConnectCall(ret), script, k);
    case TlsRead(data, hs, scripts) => InTlsReadFollowed(h, data, hs, scripts, k);
  }

  lemma ReachableFollowed(h: Handle)
    requires Reachable(h)
    ensures Safe(h) && Followed(h)
  {
    var start: Handle, events: seq<Event> :| Initial(start) && h == Run(start, events);
    NothingAsked(start.kind, events, COUNTED);
    ReachableKept(h, COUNTED);
  }

  /** In every run, whenever PHP code runs, inside a callback or outside: the count is what variables,
      call frames and the self-reference hold, and the references of the slots are accounted for. */
  lemma OccursConsistent(k: Handle)
    requires Occurs(k)
    ensures Consistent(k)
    ensures k.refs.count == k.refs.external + k.refs.frames + Bit(k.flags.internalRef)
  {
    if Reachable(k) {
      ReachableFollowed(k);
    } else {
      var h: Handle, e: Event :| Reachable(h) && InEvent(h, e, k);
      ReachableFollowed(h);
      InEventFollowed(h, e, k);
    }
  }

  /** The start of every callback is such a moment, with a call frame on the handle. */
  lemma CallOccurs(h: Handle, data: seq<byte>, script: Script)
    requires Reachable(h) && Enabled(h, ReadData(data, script)) && h.slots.cell[READ].Some?
    ensures Occurs(EnterCall(h, ReadCall(data))) && EnterCall(h, ReadCall(data)).refs.frames == 1
  {
    ReachableSafe(h);
    var e := EnterCall(h, ReadCall(data));
    assert script[..0] == [] && e == RunScript(e, script[..0]);
    assert InEvent(h, ReadData(data, script), e);
  }
}
