/**
  What the handshake of a TLS handle leads to, in the terms of what OpenSSL answers:
  which verification errors are reported, what the names of the peer certificate
  decide, what each outcome does, and that every byte of a flight is sent.
*/
module TlsEffects {
  import opened Basics
  import opened Records
  import opened Callbacks
  import opened CertificateNames
  import opened Streams
  import opened StreamSteps
  import opened TlsSteps
  import opened StreamRuns
  import opened Promises
  import opened EventEffects
  import opened TlsStreams

  // ---------- verification errors ----------

  /** The report of a verification error; beyond depth nine the chain counts as too long. */
  function Report(v: Verify): Call {
    HandshakeCall(if v.depth > 9 then X509_V_ERR_CERT_CHAIN_TOO_LONG else v.err, v.verdict.accepts)
  }

  /** The errors of the list, in order, up to the first that is refused. */
  function Reports(vs: seq<Verify>): seq<Call> {
    if vs == [] then []
    else if vs[0].err == X509_V_OK then Reports(vs[1..])
    else [Report(vs[0])] + (if vs[0].verdict.accepts then Reports(vs[1..]) else [])
  }

  predicate NoneRefused(vs: seq<Verify>) {
    forall i :: 0 <= i < |vs| ==> vs[i].err == X509_V_OK || vs[i].verdict.accepts
  }

  lemma NoneRefusedTail(vs: seq<Verify>)
    requires vs != []
    ensures NoneRefused(vs) <==> (vs[0].err == X509_V_OK || vs[0].verdict.accepts) && NoneRefused(vs[1..])
  {
    assert vs == [vs[0]] + vs[1..];
  }

  /** One error: it is reported to the handshake callback, which decides; without one it is refused. */
  lemma VerifyTells(h: Handle, v: Verify)
    requires Inv(h)
    ensures var (k, ok) := VerifyCallback(h, v);
            && k.log == h.log + (if v.err == X509_V_OK then [] else To(h, HANDSHAKE, Report(v)))
            && (ok <==> v.err == X509_V_OK || (h.slots.cell[HANDSHAKE].Some? && v.verdict.accepts))
            && (!ok ==> k.flags.closingStart)
            && Inv(k)
  {
    assert h.log + [] == h.log;
    if v.err != X509_V_OK {
      HandshakeCallbackKeeps(h, if v.depth > 9 then X509_V_ERR_CERT_CHAIN_TOO_LONG else v.err, v.verdict);
    }
  }

  /** All of them: what is reported begins that list; if the verification goes through, it is the list, and
      none was refused. If it does not, the socket is closing. */
  lemma {:induction false} VerifyAllTells(h: Handle, vs: seq<Verify>) returns (added: seq<Call>)
    requires Inv(h)
    ensures var (k, ok) := VerifyAll(h, vs);
            && k.log == h.log + added && added <= Reports(vs)
            && (ok ==> added == Reports(vs) && NoneRefused(vs))
            && (!ok ==> k.flags.closingStart)
    decreases |vs|
  {
    added := [];
    assert h.log + [] == h.log;
    if vs != [] {
      VerifyTells(h, vs[0]);
      NoneRefusedTail(vs);
      var (s, ok) := VerifyCallback(h, vs[0]);
      var first := if vs[0].err == X509_V_OK then [] else To(h, HANDSHAKE, Report(vs[0]));
      if ok {
        var rest := VerifyAllTells(s, vs[1..]);
        Regroup(h.log, first, rest);
        added := first + rest;
        assert VerifyAll(h, vs) == VerifyAll(s, vs[1..]);
        assert Reports(vs) == first + Reports(vs[1..]);
        assert first + rest <= first + Reports(vs[1..]);
      } else {
        added := first;
        assert VerifyAll(h, vs) == (s, false);
      }
    }
  }

  // ---------- what arrives ----------

  /** Bytes that arrive in pieces, before the handshake is over or after, are as if they had arrived at once. */
  lemma FeedAppends(t: Tls, a: seq<byte>, b: seq<byte>)
    ensures Feed(Feed(t, a), b) == Feed(t, a + b)
    ensures !t.initFinished ==> Feed(t, a) == t.(input := t.input + a)
    ensures t.initFinished ==> Feed(t, a).fed == t.fed + a
    ensures t.initFinished ==> Feed(t, a).plain + Payload(Feed(t, a).partial) == t.plain + Payload(t.partial + a)
  {
    Regroup(t.input, a, b);
    Regroup(t.fed, a, b);
    Regroup(t.partial, a, b);
    Refragment(t.partial + a, b);
    Regroup(t.plain, Payload(t.partial + a), Payload(Rest(t.partial + a) + b));
    RestIsIncomplete(t.partial + a);
    assert t.plain + Payload(t.partial + a) + [] == t.plain + Payload(t.partial + a);
  }

  // ---------- what each outcome does ----------

  /** The engine's answer: a refused certificate is fatal, else what OpenSSL says. The engine is finished
      exactly if it says so; then what it did not use of the input is application data. */
  lemma AttemptMeans(h: Handle, hs: Handshake)
    requires Inv(h) && h.kind.Ssl? && !h.tls.initFinished
    ensures var (s, outcome) := Attempt(h, hs);
            var verified := VerifyAll(ServerName(h, hs), hs.verify).1;
            var rest := if hs.consumed <= |h.tls.input| then h.tls.input[hs.consumed..] else [];
            && outcome == (if verified then hs.outcome else Fatal)
            && (s.tls.initFinished <==> outcome == Done)
            && (outcome == Done ==> s.tls.fed == rest && s.tls.plain == Payload(rest) && s.tls.partial == Rest(rest))
            && (outcome != Done ==> s.tls.input == rest)
  {
    ServerNameKeeps(h, hs);
    var n := ServerName(h, hs);
    var added := VerifyAllKeeps(n, hs.verify);
    var (v, verified) := VerifyAll(n, hs.verify);
    var a := v.(tls := Advance(v.tls, hs, verified).0);
    assert h.tls.input[|h.tls.input|..] == [];
    WriteBioFrame(a, hs.rets);
    assert Attempt(h, hs) == (WriteBio(a, hs.rets).0, Advance(v.tls, hs, verified).1);
  }

  /**
    What follows. Wanting to read changes nothing; wanting to write drains the BIO
    again and changes nothing else; a fatal answer has the socket closed, and changes
    nothing else. In all three reading does not go on. An engine that was finished
    before enables the write callback and goes on.
  */
  lemma OutcomeMeans(h: Handle, hs: Handshake)
    requires Inv(h) && h.kind.Ssl?
    ensures var (s, outcome) := Attempt(h, hs);
            var (k, goOn) := HandleHandshake(h, hs);
            && (h.tls.initFinished ==> goOn && k == h.(flags := h.flags.(writeEnable := true)))
            && (!h.tls.initFinished && outcome != Done ==>
                 && !goOn
                 && (outcome == WantRead ==> k == s)
                 && (outcome == WantWrite ==> OnlyWrites(s, k) && (AllAccepted(hs.retsAgain) ==> k.tls.output == []))
                 && (outcome == Fatal ==> k == s.(flags := s.flags.(closingStart := true), uv := s.uv.(closes := 1))))
  {
    if !h.tls.initFinished {
      var added := AttemptKeeps(h, hs);
      var (s, outcome) := Attempt(h, hs);
      if outcome == WantWrite {
        WriteBioFrame(s, hs.retsAgain);
        if AllAccepted(hs.retsAgain) {
          DrainSucceeds(s, hs.retsAgain);
          DrainConserves(s, hs.retsAgain);
        }
      }
    }
  }

  // ---------- what the certificate decides ----------

  /** The names of the certificate fit the host. */
  predicate NamesFit(c: PeerCert, host: string) { c.commonName || AltNamesAccept(c.altNames, host) }

  /** The OK report, which the handshake callback, if there is one, may refuse. */
  lemma DoneTells(s: Handle, hs: Handshake)
    requires Inv(s)
    ensures var (k, goOn) := HandshakeCallback(s, X509_V_OK, hs.onDone);
            && k.log == s.log + To(s, HANDSHAKE, HandshakeCall(X509_V_OK, hs.onDone.accepts))
            && (goOn <==> s.slots.cell[HANDSHAKE].Some? && hs.onDone.accepts)
            && (!goOn ==> k.flags.closingStart)
  {
    HandshakeCallbackKeeps(s, X509_V_OK, hs.onDone);
  }

  /**
    The certificate check. Let the engine finish in state `s`. On an accepting handle,
    or without a certificate, or if the certificate's names fit the stored host, the
    one report from then on is the OK report.
  */
  lemma FittingCertificate(h: Handle, hs: Handshake)
    requires Inv(h) && h.kind.Ssl? && !h.tls.initFinished && Attempt(h, hs).1 == Done
    requires var s := Attempt(h, hs).0;
             s.tls.clientMode && hs.cert.Some? ==> NamesFit(hs.cert.value, s.tls.host)
    ensures var (s, k, goOn) := (Attempt(h, hs).0, HandleHandshake(h, hs).0, HandleHandshake(h, hs).1);
            && k.log == s.log + To(s, HANDSHAKE, HandshakeCall(X509_V_OK, hs.onDone.accepts))
            && (goOn <==> s.slots.cell[HANDSHAKE].Some? && hs.onDone.accepts)
            && (!goOn ==> k.flags.closingStart)
  {
    var added := AttemptKeeps(h, hs);
    var s := Attempt(h, hs).0;
    var c := if s.tls.clientMode && hs.cert.Some? then FreeCert(TakeCert(s)) else s;
    CertsKeep(s);
    CertsKeep(TakeCert(s));
    assert CheckPeer(s, hs, CertificateFits(s, hs)) == (c, true);
    DoneTells(c, hs);
    assert HandleHandshake(h, hs) == HandshakeCallback(c, X509_V_OK, hs.onDone);
  }

  /**
    If they do not fit, the mismatch is reported first. If there is no callback to
    report it to, or the callback refuses, nothing else is reported, reading does not
    go on and the socket is closing; otherwise the OK report follows, as long as the
    callback is still there.
  */
  lemma MisfittingCertificate(h: Handle, hs: Handshake)
    requires Inv(h) && h.kind.Ssl? && !h.tls.initFinished && Attempt(h, hs).1 == Done
    requires var s := Attempt(h, hs).0;
             s.tls.clientMode && hs.cert.Some? && !NamesFit(hs.cert.value, s.tls.host)
    ensures var (s, k, goOn) := (Attempt(h, hs).0, HandleHandshake(h, hs).0, HandleHandshake(h, hs).1);
            var mismatch := HandshakeCall(X509_V_ERR_SUBJECT_ISSUER_MISMATCH, hs.onMismatch.accepts);
            var done := HandshakeCall(X509_V_OK, hs.onDone.accepts);
            if s.slots.cell[HANDSHAKE].None? then
              !goOn && k.log == s.log && k.flags.closingStart
            else if !hs.onMismatch.accepts then
              !goOn && k.log == s.log + [mismatch] && k.flags.closingStart
            else
              && (k.log == s.log + [mismatch] || k.log == s.log + [mismatch, done])
              && (goOn <==> k.log == s.log + [mismatch, done] && hs.onDone.accepts)
              && (!goOn ==> k.flags.closingStart)
  {
    var added := AttemptKeeps(h, hs);
    var s := Attempt(h, hs).0;
    CertsKeep(s);
    var t := TakeCert(s);
    HandshakeCallbackKeeps(t, X509_V_ERR_SUBJECT_ISSUER_MISMATCH, hs.onMismatch);
    var (m, ok) := HandshakeCallback(t, X509_V_ERR_SUBJECT_ISSUER_MISMATCH, hs.onMismatch);
    CertsKeep(m);
    assert CheckPeer(s, hs, CertificateFits(s, hs)) == (FreeCert(m), ok);
    assert s.log + [] == s.log;
    if ok {
      DoneTells(FreeCert(m), hs);
      assert HandleHandshake(h, hs) == HandshakeCallback(FreeCert(m), X509_V_OK, hs.onDone);
      MismatchThenDone(s.log, hs);
    } else {
      assert HandleHandshake(h, hs) == (FreeCert(m), false);
    }
  }

  lemma MismatchThenDone(log: seq<Call>, hs: Handshake)
    ensures var mismatch := HandshakeCall(X509_V_ERR_SUBJECT_ISSUER_MISMATCH, hs.onMismatch.accepts);
            var done := HandshakeCall(X509_V_OK, hs.onDone.accepts);
            && (log + [mismatch]) + [done] == log + [mismatch, done]
            && (log + [mismatch]) + [] == log + [mismatch]
            && log + [mismatch] != log + [mismatch, done]
  {
    var mismatch := HandshakeCall(X509_V_ERR_SUBJECT_ISSUER_MISMATCH, hs.onMismatch.accepts);
    var done := HandshakeCall(X509_V_OK, hs.onDone.accepts);
    assert |log + [mismatch]| != |log + [mismatch, done]|;
  }

  /** Where reading does not go on, the read event hands nothing over. */
  lemma NothingRead(h: Handle, e: Event)
    requires Enabled(h, e) && e.TlsRead? && !HandleHandshake(Fed(h, e), e.handshake).1
    ensures Step(h, e) == HandleHandshake(Fed(h, e), e.handshake).0
  {
  }

  /** So a read event in which a misfit is refused, or there is nobody to report it to, reports that and
      nothing else from then on: no OK, no data; and the socket is closing. */
  lemma MismatchStops(h: Handle, e: Event)
    requires Safe(h) && Enabled(h, e) && e.TlsRead? && !h.tls.initFinished
    requires Attempt(Fed(h, e), e.handshake).1 == Done
    requires var s := Attempt(Fed(h, e), e.handshake).0;
             && s.tls.clientMode && e.handshake.cert.Some? && !NamesFit(e.handshake.cert.value, s.tls.host)
             && (s.slots.cell[HANDSHAKE].None? || !e.handshake.onMismatch.accepts)
    ensures var (s, k) := (Attempt(Fed(h, e), e.handshake).0, Step(h, e));
            && k.log == s.log + To(s, HANDSHAKE, HandshakeCall(X509_V_ERR_SUBJECT_ISSUER_MISMATCH, false))
            && k.flags.closingStart
  {
    assert Inv(Fed(h, e));
    MisfittingCertificate(Fed(h, e), e.handshake);
    NothingRead(h, e);
    var s := Attempt(Fed(h, e), e.handshake).0;
    assert s.log + [] == s.log;
  }

  // ---------- flights ----------

  /** What the socket took and what is left in the BIO are what the BIO held, in order. */
  ghost predicate Flows(h: Handle, k: Handle) {
    && k.kind == h.kind && k.tls.initFinished == h.tls.initFinished
    && h.uv.accepted <= k.uv.accepted && Flatten(Queued(h, k)) + k.tls.output == h.tls.output
  }

  lemma FlowsTrans(h: Handle, s: Handle, k: Handle)
    requires Flows(h, s) && Flows(s, k)
    ensures Flows(h, k)
  {
    assert Queued(h, k) == Queued(h, s) + Queued(s, k);
    FlattenAppend(Queued(h, s), Queued(s, k));
    Regroup(Flatten(Queued(h, s)), Flatten(Queued(s, k)), k.tls.output);
  }

  lemma SameFlows(h: Handle, k: Handle)
    requires SameOutput(h, k)
    ensures Flows(h, k)
  {
    assert Queued(h, k) == [] && [] + h.tls.output == h.tls.output;
  }

  lemma DrainFlows(h: Handle, rets: seq<int>)
    requires AllAccepted(rets)
    ensures Flows(h, WriteBio(h, rets).0) && WriteBio(h, rets).0.tls.output == []
  {
    DrainSucceeds(h, rets);
    DrainConserves(h, rets);
    WriteBioFrame(h, rets);
    assert Flatten(Queued(h, WriteBio(h, rets).0)) + [] == Flatten(Queued(h, WriteBio(h, rets).0));
  }

  /** Before the handshake is over `write` takes nothing, and drains what is there. */
  lemma PerformFlows(h: Handle, a: Act)
    requires Inv(h) && h.kind.Ssl? && !h.tls.initFinished && ActSends(a)
    ensures Flows(h, Perform(h, a))
  {
    if a.TlsWrite? && Callable(h) {
      DrainFlows(h, a.writeRets);
      assert Perform(h, a) == WriteBio(h, a.writeRets).0;
    } else {
      PerformSame(h, a);
      SameFlows(h, Perform(h, a));
    }
  }

  lemma {:induction false} ScriptFlows(h: Handle, script: Script)
    requires Inv(h) && h.kind.Ssl? && !h.tls.initFinished && Sending(script)
    ensures Flows(h, RunScript(h, script))
    decreases |script|
  {
    if script == [] {
      SameFlows(h, h);
    } else {
      var s := Perform(h, script[0]);
      PerformKeeps(h, script[0]);
      PerformFlows(h, script[0]);
      assert forall i :: 0 <= i < |script[1..]| ==> script[1..][i] == script[i + 1];
      ScriptFlows(s, script[1..]);
      FlowsTrans(h, s, RunScript(h, script));
    }
  }

  lemma LeaveFlows(r: Handle)
    requires Inv(r) && r.refs.frames > 0
    ensures Flows(r, LeaveCall(r))
  {
    var d := r.(refs := r.refs.(frames := r.refs.frames - 1));
    assert Balanced(d, 1);
    DropFrame(d);
    SameFlows(r, LeaveCall(r));
  }

  lemma CallBackFlows(h: Handle, slot: Slot, call: Call, script: Script)
    requires Inv(h) && h.kind.Ssl? && !h.tls.initFinished && Sending(script)
    ensures Flows(h, CallBack(h, slot, call, script))
  {
    if h.slots.cell[slot].None? {
      SameFlows(h, h);
    } else {
      var e := EnterCall(h, call);
      assert Inv(e);
      SameFlows(h, e);
      ScriptKeeps(e, script);
      ScriptFlows(e, script);
      var r := RunScript(e, script);
      FlowsTrans(h, e, r);
      LeaveFlows(r);
      FlowsTrans(h, r, LeaveCall(r));
    }
  }

  lemma VerifyFlows(h: Handle, v: Verify)
    requires Inv(h) && h.kind.Ssl? && !h.tls.initFinished && Sending(v.verdict.script)
    ensures Flows(h, VerifyCallback(h, v).0)
  {
    SameFlows(h, h);
    if v.err != X509_V_OK {
      var call := HandshakeCall(if v.depth > VERIFY_DEPTH then X509_V_ERR_CERT_CHAIN_TOO_LONG else v.err,
                                v.verdict.accepts);
      CallBackFlows(h, HANDSHAKE, call, v.verdict.script);
      var k := CallBack(h, HANDSHAKE, call, v.verdict.script);
      SameFlows(k, CloseSocket(k));
      FlowsTrans(h, k, CloseSocket(k));
    }
  }

  lemma {:induction false} VerifyAllFlows(h: Handle, vs: seq<Verify>)
    requires Inv(h) && h.kind.Ssl? && !h.tls.initFinished
    requires forall i :: 0 <= i < |vs| ==> Sending(vs[i].verdict.script)
    ensures Flows(h, VerifyAll(h, vs).0)
    decreases |vs|
  {
    if vs == [] {
      SameFlows(h, h);
    } else {
      var added := VerifyCallbackKeeps(h, vs[0]);
      VerifyFlows(h, vs[0]);
      var (s, ok) := VerifyCallback(h, vs[0]);
      if ok {
        VerifyAllFlows(s, vs[1..]);
        FlowsTrans(h, s, VerifyAll(s, vs[1..]).0);
        assert VerifyAll(h, vs) == VerifyAll(s, vs[1..]);
      } else {
        assert VerifyAll(h, vs) == (s, false);
      }
    }
  }

  /** The socket takes what the user writes and what the handshake emits. */
  predicate Taken(hs: Handshake) {
    && AllAccepted(hs.rets)
    && (hs.serverName.Some? ==> Sending(hs.serverName.value))
    && forall i :: 0 <= i < |hs.verify| ==> Sending(hs.verify[i].verdict.script)
  }

  /** A step of the handshake sends what was in the BIO, and then its own flight: all of it, in order. */
  lemma FlightIsSent(h: Handle, hs: Handshake)
    requires Inv(h) && h.kind.Ssl? && !h.tls.initFinished && Taken(hs)
    ensures var s := Attempt(h, hs).0;
            && s.tls.output == [] && h.uv.accepted <= s.uv.accepted
            && Flatten(Queued(h, s)) == h.tls.output + hs.emitted
  {
    ServerNameKeeps(h, hs);
    var n := ServerName(h, hs);
    if hs.serverName.Some? { ScriptFlows(h, hs.serverName.value); } else { SameFlows(h, h); }
    var added := VerifyAllKeeps(n, hs.verify);
    VerifyAllFlows(n, hs.verify);
    var (v, verified) := VerifyAll(n, hs.verify);
    FlowsTrans(h, n, v);
    var a := v.(tls := Advance(v.tls, hs, verified).0);
    DrainFlows(a, hs.rets);
    assert Attempt(h, hs).0 == WriteBio(a, hs.rets).0;
    FlightJoins(h, v, a, WriteBio(a, hs.rets).0, hs.emitted);
  }

  lemma FlightJoins(h: Handle, v: Handle, a: Handle, s: Handle, emitted: seq<byte>)
    requires Flows(h, v) && Flows(a, s) && s.tls.output == []
    requires a.uv == v.uv && a.tls.output == v.tls.output + emitted
    ensures h.uv.accepted <= s.uv.accepted && Flatten(Queued(h, s)) == h.tls.output + emitted
  {
    var q1, q2 := Queued(h, v), Queued(a, s);
    assert Queued(h, s) == q1 + q2;
    FlattenAppend(q1, q2);
    assert Flatten(q2) + [] == Flatten(q2);
    Regroup(Flatten(q1), v.tls.output, emitted);
  }

  /** Once libuv reads from a connecting TLS handle, it is started and reading, and the user is told. */
  lemma TlsConnectionLeaves(h: Handle, status: int, hello: seq<byte>, rets: seq<int>)
    requires Safe(h) && Lasting(h) && h.kind.Ssl? && Enabled(h, Connected(status, 0, hello, rets, []))
    ensures var e := Connected(status, 0, hello, rets, []);
            var (k, o) := (Step(h, e), OpenEngine(h, hello, rets));
            && k.log == h.log + Told(h, e) && k.tls == o.tls
            && k.uv == h.uv.(connecting := false, reading := true, accepted := k.uv.accepted,
                             refused := k.uv.refused, made := k.uv.made)
            && k == h.(log := k.log, tls := k.tls, uv := k.uv,
                       flags := h.flags.(handleStart := true, readStart := true))
  {
    var r := MarkReading(h.(uv := h.uv.(connecting := false, reading := true)));
    assert Safe(r);
    OpenEngineSafe(r, hello, rets);
    var n := r.(tls := NewClient(r.tls, hello), log := r.log + [SslNew]);
    WriteBioFrame(n, rets);
    var s := OpenEngine(r, hello, rets);
    IdleCall(s, CONNECT, ConnectCall(status));
    EventTells(h, Connected(status, 0, hello, rets, []));
    SameFlight(h, r, hello, rets);
    assert Step(h, Connected(status, 0, hello, rets, [])) == CallBack(s, CONNECT, ConnectCall(status), []);
  }

  lemma SameFlight(h: Handle, r: Handle, hello: seq<byte>, rets: seq<int>)
    requires h.kind.Ssl? && r == h.(flags := r.flags, uv := r.uv)
    requires r.uv == h.uv.(connecting := r.uv.connecting, reading := r.uv.reading)
    ensures OpenEngine(r, hello, rets).tls == OpenEngine(h, hello, rets).tls
  {
    SameDrain(h.(tls := NewClient(h.tls, hello), log := h.log + [SslNew]),
              r.(tls := NewClient(r.tls, hello), log := r.log + [SslNew]), rets);
  }

  /** What is left in the BIO depends on its content and on the answers alone. */
  lemma {:induction false} SameDrain(h: Handle, r: Handle, rets: seq<int>)
    requires r.tls == h.tls
    ensures WriteBio(r, rets).0.tls == WriteBio(h, rets).0.tls
    decreases |h.tls.output|
  {
    if h.tls.output != [] {
      WriteBioUnfold(h, rets);
      WriteBioUnfold(r, rets);
      if Head(rets) == 0 { SameDrain(WriteOne(h, 0), WriteOne(r, 0), Tail(rets)); }
    }
  }

  /**
    A connecting handle gets a new engine, in client mode, whose first flight goes to
    the socket: what libuv took of it, the piece it refused if any, and what is left
    in the BIO are the flight; and all of it was taken if nothing was refused.
  */
  lemma FirstFlight(h: Handle, hello: seq<byte>, rets: seq<int>)
    requires h.kind.Ssl?
    ensures var k := OpenEngine(h, hello, rets);
            && h.uv.accepted <= k.uv.accepted && h.uv.refused <= k.uv.refused
            && Flatten(Queued(h, k)) + Flatten(Lost(h, k)) + k.tls.output == hello
            && (AllAccepted(rets) ==> Flatten(Queued(h, k)) == hello)
            && !k.tls.initFinished && k.tls.input == [] && k.tls.clientMode == h.tls.clientMode
            && k.tls.host == h.tls.host && k.log == h.log + [SslNew]
  {
    var n := h.(tls := NewClient(h.tls, hello), log := h.log + [SslNew]);
    DrainConserves(n, rets);
    WriteBioFrame(n, rets);
    var k := WriteBio(n, rets).0;
    assert Queued(n, k) == Queued(h, k) && Lost(n, k) == Lost(h, k);
    if AllAccepted(rets) {
      DrainSucceeds(n, rets);
      assert Flatten<byte>([]) == [];
      assert Flatten(Queued(h, k)) + [] + [] == Flatten(Queued(h, k));
    }
  }
}
