/**
  What one read event does to a TLS handle: the draining of the write BIO, the
  handshake with its callbacks, and the delivery of plaintext.
*/
module TlsSteps {
  import opened Basics
  import opened Records
  import opened Callbacks
  import opened CertificateNames
  import opened Streams
  import opened StreamSteps

  // ---------- draining the write BIO ----------

  /** The answers of `uv_write`, up to the first failure. */
  predicate AllAccepted(rets: seq<int>) {
    forall i :: 0 <= i < |rets| ==> rets[i] == 0
  }

  /** The chunk that `uv_write` refused, if the drain stopped at one. */
  function Lost(h: Handle, k: Handle): seq<seq<byte>> {
    if |h.uv.refused| <= |k.uv.refused| then k.uv.refused[|h.uv.refused|..] else []
  }

  function Queued(h: Handle, k: Handle): seq<seq<byte>> {
    if |h.uv.accepted| <= |k.uv.accepted| then k.uv.accepted[|h.uv.accepted|..] else []
  }

  /**
    Outbound conservation. Whatever `uv_write` answers, the queued chunks, the
    one refused chunk and what is left in the BIO are the bytes that were in it,
    in order; success queues all of them in canonical chunks.
  */
  lemma {:induction false} DrainConserves(h: Handle, rets: seq<int>)
    ensures Conserved(h, WriteBio(h, rets).0, WriteBio(h, rets).1)
    decreases |h.tls.output|
  {
    if h.tls.output != [] {
      WriteBioUnfold(h, rets);
      var s := WriteOne(h, Head(rets));
      if Head(rets) == 0 {
        DrainConserves(s, Tail(rets));
        DrainTurn(h, WriteBio(s, Tail(rets)).0, WriteBio(s, Tail(rets)).1);
      } else {
        var chunk := Cut(h.tls.output);
        assert Queued(h, s) == [] && Lost(h, s) == [chunk];
        assert Flatten([chunk]) == chunk + Flatten<byte>([]);
        assert WriteChunks(h.tls.output)[0] == chunk;
      }
    }
  }

  ghost predicate Conserved(h: Handle, k: Handle, ret: int) {
    && h.uv.accepted <= k.uv.accepted && h.uv.refused <= k.uv.refused
    && Flatten(Queued(h, k)) + Flatten(Lost(h, k)) + k.tls.output == h.tls.output
    && (ret == 0 ==> k.tls.output == [] && Lost(h, k) == [] && Queued(h, k) == WriteChunks(h.tls.output))
    && (ret != 0 ==> |Lost(h, k)| == 1 && Queued(h, k) + Lost(h, k) <= WriteChunks(h.tls.output))
  }

  lemma DrainTurn(h: Handle, k: Handle, ret: int)
    requires h.tls.output != [] && Conserved(WriteOne(h, 0), k, ret)
    ensures Conserved(h, k, ret)
  {
    var s := WriteOne(h, 0);
    var chunk := Cut(h.tls.output);
    var q, lost := Queued(s, k), Lost(s, k);
    assert h.tls.output == chunk + s.tls.output;
    assert Queued(h, k) == [chunk] + q;
    assert Lost(h, k) == lost;
    assert ([chunk] + q)[1..] == q;
    assert chunk + Flatten(q) + Flatten(lost) + k.tls.output == chunk + (Flatten(q) + Flatten(lost) + k.tls.output);
    assert WriteChunks(h.tls.output) == [chunk] + WriteChunks(s.tls.output);
    if ret != 0 {
      assert ([chunk] + q) + lost == [chunk] + (q + lost);
    }
  }

  /** A full drain takes one write for each started 512 bytes. */
  lemma DrainCount(h: Handle, rets: seq<int>)
    requires WriteBio(h, rets).1 == 0
    ensures |Queued(h, WriteBio(h, rets).0)| == (|h.tls.output| + 511) / 512
    ensures var q := Queued(h, WriteBio(h, rets).0);
            forall i :: 0 <= i < |q| - 1 ==> |q[i]| == 512
  {
    DrainConserves(h, rets);
    WriteChunksShape(h.tls.output);
  }

  /** The drain empties the BIO when no write is refused. */
  lemma {:induction false} DrainSucceeds(h: Handle, rets: seq<int>)
    requires AllAccepted(rets)
    ensures WriteBio(h, rets).1 == 0
    decreases |h.tls.output|
  {
    if h.tls.output != [] {
      WriteBioUnfold(h, rets);
      DrainSucceeds(WriteOne(h, 0), Tail(rets));
    }
  }

  // ---------- the handshake ----------

  predicate IsOk(c: Call) { c.HandshakeCall? && c.err == X509_V_OK }

  /** Handshake callbacks that report a verification error. */
  ghost predicate Complaints(calls: seq<Call>) {
    forall i :: 0 <= i < |calls| ==> calls[i].HandshakeCall? && calls[i].err != X509_V_OK
  }

  lemma VerifyCallbackKeeps(h: Handle, v: Verify) returns (added: seq<Call>)
    requires Inv(h)
    ensures var (k, ok) := VerifyCallback(h, v);
            && Inv(k) && Steady(h, k)
            && k.log == h.log + added && Complaints(added)
            && (!ok ==> k.flags.closingStart)
  {
    added := [];
    if v.err != X509_V_OK {
      var err := if v.depth > VERIFY_DEPTH then X509_V_ERR_CERT_CHAIN_TOO_LONG else v.err;
      HandshakeCallbackKeeps(h, err, v.verdict);
      if h.slots.cell[HANDSHAKE].Some? { added := [HandshakeCall(err, v.verdict.accepts)]; }
    }
  }

  lemma {:induction false} VerifyAllKeeps(h: Handle, vs: seq<Verify>) returns (added: seq<Call>)
    requires Inv(h)
    ensures var (k, ok) := VerifyAll(h, vs);
            && Inv(k) && Steady(h, k)
            && k.log == h.log + added && Complaints(added)
            && (!ok ==> k.flags.closingStart)
    decreases |vs|
  {
    if vs == [] {
      added := [];
    } else {
      added := VerifyCallbackKeeps(h, vs[0]);
      var (s, ok) := VerifyCallback(h, vs[0]);
      if ok {
        var rest := VerifyAllKeeps(s, vs[1..]);
        assert VerifyAll(h, vs) == VerifyAll(s, vs[1..]);
        Regroup(h.log, added, rest);
        added := added + rest;
      } else {
        assert VerifyAll(h, vs) == (s, false);
      }
    }
  }

  lemma CertsKeep(h: Handle)
    requires Inv(h)
    ensures Inv(TakeCert(h)) && Settled(h, TakeCert(h)) && TakeCert(h).log == h.log
    ensures Inv(FreeCert(h)) && Settled(h, FreeCert(h)) && FreeCert(h).log == h.log
  {
  }

  /** The certificate a client got is freed once on every path, and no OK is reported here. */
  lemma CheckPeerKeeps(h: Handle, hs: Handshake, fits: bool) returns (added: seq<Call>)
    requires Inv(h)
    ensures var (k, ok) := CheckPeer(h, hs, fits);
            && Inv(k) && Settled(h, k)
            && k.tls.certsTaken == h.tls.certsTaken + Bit(h.tls.clientMode && hs.cert.Some?)
            && k.tls.certsFreed == h.tls.certsFreed + Bit(h.tls.clientMode && hs.cert.Some?)
            && k.log == h.log + added && Complaints(added)
            && (!ok ==> k.flags.closingStart)
  {
    added := [];
    var s := TakeCert(h);
    CertsKeep(h);
    if h.tls.clientMode && hs.cert.Some? {
      if fits {
        CertsKeep(s);
      } else {
        added := MismatchKeeps(s, hs.onMismatch);
        CertsKeep(HandshakeCallback(s, X509_V_ERR_SUBJECT_ISSUER_MISMATCH, hs.onMismatch).0);
      }
    }
  }

  lemma MismatchKeeps(h: Handle, v: Verdict) returns (added: seq<Call>)
    requires Inv(h)
    ensures var (k, ok) := HandshakeCallback(h, X509_V_ERR_SUBJECT_ISSUER_MISMATCH, v);
            && Inv(k) && Steady(h, k) && k.log == h.log + added && Complaints(added)
            && (!ok ==> k.flags.closingStart)
  {
    HandshakeCallbackKeeps(h, X509_V_ERR_SUBJECT_ISSUER_MISMATCH, v);
    added := if h.slots.cell[HANDSHAKE].Some?
             then [HandshakeCall(X509_V_ERR_SUBJECT_ISSUER_MISMATCH, v.accepts)] else [];
  }

  /** Nothing that arrived after the handshake has been read yet. */
  predicate Decoded(t: Tls) { t.plain == Payload(t.fed) && t.partial == Rest(t.fed) }

  /** What can have happened when `handleHandshake` returns. */
  ghost predicate Greeted(h: Handle, k: Handle, goOn: bool, added: seq<Call>) {
    && k.kind == h.kind && k.refs.frames == h.refs.frames
    && UvCalm(h.uv, k.uv)
    && (h.flags.closingStart ==> k.flags.closingStart)
    && k.tls.certsTaken == k.tls.certsFreed
    && k.log == h.log + added
    && (goOn ==> k.tls.initFinished)
    && if h.tls.initFinished then
         goOn && added == [] && k == h.(flags := h.flags.(writeEnable := true))
       else
         && k.flags.writeEnable == h.flags.writeEnable
         && if k.tls.initFinished then Decoded(k.tls) && Concluded(k, goOn, added) else !goOn && Complaints(added)
  }

  /** The handshake is over: the OK callback accepted it, or the socket is closing. */
  ghost predicate Concluded(k: Handle, goOn: bool, added: seq<Call>) {
    if goOn then
      && added != [] && added[|added| - 1] == HandshakeCall(X509_V_OK, true)
      && Complaints(added[..|added| - 1])
    else
      && k.flags.closingStart
      && (Complaints(added) ||
          (&& added != [] && added[|added| - 1] == HandshakeCall(X509_V_OK, false)
           && Complaints(added[..|added| - 1])))
  }

  lemma FinishKeeps(h: Handle, hs: Handshake, fits: bool) returns (added: seq<Call>)
    requires Inv(h) && h.kind.Ssl? && h.tls.initFinished && h.tls.certsTaken == h.tls.certsFreed
    ensures var (k, goOn) := Finish(h, hs, fits);
            && Inv(k) && Settled(h, k)
            && k.tls.certsTaken == k.tls.certsFreed
            && k.log == h.log + added && Concluded(k, goOn, added)
  {
    added := CheckPeerKeeps(h, hs, fits);
    var (s, ok) := CheckPeer(h, hs, fits);
    if ok {
      assert Finish(h, hs, fits) == HandshakeCallback(s, X509_V_OK, hs.onDone);
      HandshakeCallbackKeeps(s, X509_V_OK, hs.onDone);
      if s.slots.cell[HANDSHAKE].Some? {
        var done := HandshakeCall(X509_V_OK, hs.onDone.accepts);
        Regroup(h.log, added, [done]);
        assert (added + [done])[..|added|] == added;
        added := added + [done];
      }
    }
  }

  lemma ServerNameKeeps(h: Handle, hs: Handshake)
    requires Inv(h)
    ensures Inv(ServerName(h, hs)) && Calm(h, ServerName(h, hs))
  {
    if hs.serverName.Some? { ScriptKeeps(h, hs.serverName.value); }
  }

  lemma AttemptKeeps(h: Handle, hs: Handshake) returns (added: seq<Call>)
    requires Inv(h) && h.kind.Ssl? && !h.tls.initFinished
    ensures var (k, outcome) := Attempt(h, hs);
            && Inv(k) && k.kind == h.kind && k.refs.frames == h.refs.frames
            && UvCalm(h.uv, k.uv) && FlagsCalm(h.kind, h.flags, k.flags) && CertsCalm(h.tls, k.tls)
            && (k.tls.initFinished <==> outcome == Done) && (k.tls.initFinished ==> Decoded(k.tls))
            && k.log == h.log + added && Complaints(added)
  {
    ServerNameKeeps(h, hs);
    added := VerifyAllKeeps(ServerName(h, hs), hs.verify);
    var (s, verified) := VerifyAll(ServerName(h, hs), hs.verify);
    var a := s.(tls := Advance(s.tls, hs, verified).0);
    assert Inv(a) && (a.tls.initFinished ==> Decoded(a.tls));
    WriteBioKeeps(a, hs.rets);
    assert Attempt(h, hs) == (WriteBio(a, hs.rets).0, Advance(s.tls, hs, verified).1);
  }

  /** `handleHandshake` keeps the invariant and does what `Greeted` says. */
  lemma HandshakeKeeps(h: Handle, hs: Handshake) returns (added: seq<Call>)
    requires Inv(h) && h.kind.Ssl? && h.tls.certsTaken == h.tls.certsFreed
    ensures var (k, goOn) := HandleHandshake(h, hs); Inv(k) && Greeted(h, k, goOn, added)
  {
    if h.tls.initFinished {
      added := [];
    } else {
      added := AttemptKeeps(h, hs);
      var (s, outcome) := Attempt(h, hs);
      match outcome {
        case WantRead => assert HandleHandshake(h, hs) == (s, false);
        case WantWrite =>
          WriteBioKeeps(s, hs.retsAgain);
          assert HandleHandshake(h, hs) == (WriteBio(s, hs.retsAgain).0, false);
        case Fatal =>
          CloseKeeps(s);
          assert HandleHandshake(h, hs) == (CloseSocket(s), false);
        case Done => added := HandshakeFinishes(h, hs, s, added);
      }
    }
  }

  lemma HandshakeFinishes(h: Handle, hs: Handshake, s: Handle, before: seq<Call>) returns (added: seq<Call>)
    requires !h.tls.initFinished && Attempt(h, hs) == (s, Done)
    requires Inv(s) && s.kind == h.kind == Ssl && s.refs.frames == h.refs.frames && s.tls.initFinished
    requires UvCalm(h.uv, s.uv) && FlagsCalm(h.kind, h.flags, s.flags) && Decoded(s.tls)
    requires s.tls.certsTaken == s.tls.certsFreed && s.log == h.log + before && Complaints(before)
    ensures var (k, goOn) := HandleHandshake(h, hs); Inv(k) && Greeted(h, k, goOn, added)
  {
    var fits := CertificateFits(s, hs);
    var more := FinishKeeps(s, hs, fits);
    var (k, goOn) := Finish(s, hs, fits);
    assert HandleHandshake(h, hs) == (k, goOn);
    Regroup(h.log, before, more);
    ConcludedAfter(k, goOn, before, more);
    added := before + more;
  }

  lemma ConcludedAfter(k: Handle, goOn: bool, before: seq<Call>, added: seq<Call>)
    requires Complaints(before) && Concluded(k, goOn, added)
    ensures Concluded(k, goOn, before + added)
  {
    if added != [] {
      assert (before + added)[..|before + added| - 1] == before + added[..|added| - 1];
    }
  }

  // ---------- delivery ----------

  ghost predicate OnlyReads(calls: seq<Call>) {
    forall i :: 0 <= i < |calls| ==> calls[i].ReadCall?
  }

  /** `h` with other undelivered plaintext. */
  function WithPlain(h: Handle, plain: seq<byte>): Handle { h.(tls := h.tls.(plain := plain)) }

  lemma DeliverOne(h: Handle, chunk: seq<byte>, script: Script)
    requires Inv(h)
    ensures var k := CallBack(h.(tls := Consume(h.tls, chunk)), READ, ReadCall(chunk), script);
            && Inv(k) && Steady(WithPlain(h, k.tls.plain), k) && k.tls.plain == Consume(h.tls, chunk).plain
            && k.log == h.log + (if h.slots.cell[READ].Some? then [ReadCall(chunk)] else [])
  {
    assert Inv(h.(tls := Consume(h.tls, chunk)));
    CallBackKeeps(h.(tls := Consume(h.tls, chunk)), READ, ReadCall(chunk), script);
  }

  lemma DeliverUnfold(h: Handle, chunks: seq<seq<byte>>, scripts: seq<Script>)
    requires chunks != []
    ensures Deliver(h, chunks, scripts)
         == Deliver(CallBack(h.(tls := Consume(h.tls, chunks[0])), READ, ReadCall(chunks[0]), Next(scripts)),
                    chunks[1..], Tail(scripts))
  {
  }

  /** Delivery keeps the invariant, calls the read callback only, and uses up the plaintext. */
  lemma {:induction false} DeliverKeeps(h: Handle, chunks: seq<seq<byte>>, scripts: seq<Script>)
      returns (added: seq<Call>)
    requires Inv(h)
    ensures var k := Deliver(h, chunks, scripts);
            && Inv(k) && Steady(WithPlain(h, k.tls.plain), k)
            && k.log == h.log + added && OnlyReads(added)
            && (Flatten(chunks) == h.tls.plain ==> k.tls.plain == [])
    decreases |chunks|
  {
    if chunks == [] {
      added := [];
    } else {
      var s := CallBack(h.(tls := Consume(h.tls, chunks[0])), READ, ReadCall(chunks[0]), Next(scripts));
      DeliverOne(h, chunks[0], Next(scripts));
      var first := if h.slots.cell[READ].Some? then [ReadCall(chunks[0])] else [];
      var rest := DeliverKeeps(s, chunks[1..], Tail(scripts));
      DeliverUnfold(h, chunks, scripts);
      Regroup(h.log, first, rest);
      added := first + rest;
      if Flatten(chunks) == h.tls.plain {
        assert s.tls.plain == Flatten(chunks[1..]);
      }
    }
  }

  // ---------- the host that certificates are checked against ----------

  /** A TLS `connect` whose arguments parse and whose host has an acceptable length. */
  predicate StoresHost(h: Handle, a: Act) {
    && Callable(h) && h.kind.Ssl? && a.Connect? && a.connectArgs.Some?
    && !BadHost(h.kind, a.connectArgs.value.host)
  }

  /** A peer certificate is checked against the host that the last such `connect` named. */
  lemma HostIsLastNamed(h: Handle, a: Act, cert: PeerCert, hs: Handshake)
    requires Inv(h) && hs.cert == Some(cert)
    ensures var host := if StoresHost(h, a) then CString(a.connectArgs.value.host) else h.tls.host;
            && Perform(h, a).tls.host == host
            && (CertificateFits(Perform(h, a), hs) <==> cert.commonName || AltNamesAccept(cert.altNames, host))
  {
    if Callable(h) {
      match a
      case Connect(args) => assert Perform(h, a) == DoConnect(h, args).0;
      case Listen(args) => assert Perform(h, a) == DoListen(h, args).0;
      case DropRef => if h.refs.external > 0 { DropFrame(h.(refs := h.refs.(external := h.refs.external - 1))); }
      case TlsWrite(message, rets) => WriteBioFrame(h.(tls := SslWrite(h.tls, message).0), rets);
      case AttachIpc(openRet, fn, readRet) =>
        assert Perform(h, a) == if h.kind.Pipe? then DoAttachIpc(h, openRet, fn, readRet).0 else h;
      case SetCallback(fns) => assert Perform(h, a) == SetCallbacks(h, fns);
      case Shutdown(fn, ret) => assert Perform(h, a) == DoShutdown(h, fn, ret).0;
      case _ => assert Perform(h, a).tls == h.tls;
    }
  }

  /** Also when libuv then refuses to connect, which changes nothing else of the engine, the flags or
      the requests: the certificate of the connection before it is checked against the refused host. */
  lemma RefusedConnectRenames(h: Handle, a: ConnectArgs)
    requires StoresHost(h, Connect(Some(a))) && a.addrRet == 0 && a.connectRet != 0
    ensures DoConnect(h, Some(a)).1 == Long(a.connectRet)
    ensures var k := Perform(h, Connect(Some(a)));
            k.tls == h.tls.(host := CString(a.host)) && k.flags == h.flags && k.uv == h.uv
  {
    assert Perform(h, Connect(Some(a))) == DoConnect(h, Some(a)).0;
  }
}
