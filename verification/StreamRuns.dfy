/**
  What holds over every run of a stream handle: the reference ledger under
  re-entrancy, the single close, the started-state and cache invariants, the
  write-request ledger, and for TLS handles the handshake gate.
*/
module StreamRuns {
  import opened Basics
  import opened Records
  import opened Callbacks
  import opened Streams
  import opened StreamSteps
  import opened TlsSteps

  // ---------- the handshake gate, as a watch over the log ----------

  /** What a watcher of the callbacks knows: whether the handshake was accepted ever, and on this
      connection; the OK reports of this connection; and whether the gate was respected. */
  datatype Gate = Gate(ever: bool, accepted: bool, oks: nat, good: bool)

  function Observe(g: Gate, c: Call): Gate {
    match c
    case SslNew => g.(accepted := false, oks := 0)
    case HandshakeCall(err, ok) =>
      if err != X509_V_OK then g
      else Gate(g.ever || ok, g.accepted || ok, g.oks + 1, g.good && g.oks == 0)
    case ReadCall(_) => g.(good := g.good && g.accepted)
    case WriteCall(_, _) => g.(good := g.good && g.ever)
    case _ => g
  }

  function Watch(log: seq<Call>): Gate {
    if log == [] then Gate(false, false, 0, true) else Observe(Watch(log[..|log| - 1]), log[|log| - 1])
  }

  lemma WatchSnoc(log: seq<Call>, c: Call)
    ensures Watch(log + [c]) == Observe(Watch(log), c)
  {
    assert (log + [c])[..|log|] == log;
  }

  lemma {:induction false} WatchComplaints(log: seq<Call>, added: seq<Call>)
    requires Complaints(added)
    ensures Watch(log + added) == Watch(log)
    decreases |added|
  {
    if added == [] {
      assert log + added == log;
    } else {
      var n := |added| - 1;
      WatchComplaints(log, added[..n]);
      WatchSnoc(log + added[..n], added[n]);
      assert log + added == (log + added[..n]) + [added[n]];
    }
  }

  lemma {:induction false} WatchReads(log: seq<Call>, added: seq<Call>)
    requires OnlyReads(added) && Watch(log).accepted
    ensures Watch(log + added) == Watch(log)
    decreases |added|
  {
    if added == [] {
      assert log + added == log;
    } else {
      var n := |added| - 1;
      WatchReads(log, added[..n]);
      WatchSnoc(log + added[..n], added[n]);
      assert log + added == (log + added[..n]) + [added[n]];
    }
  }

  /** Some handshake on the connection current at `i` was accepted before `i`. */
  ghost predicate AcceptedBefore(log: seq<Call>, i: int)
    requires i <= |log|
  {
    exists j :: 0 <= j < i && log[j] == HandshakeCall(X509_V_OK, true)
                && forall m :: j < m < i ==> log[m] != SslNew
  }

  ghost predicate EverAccepted(log: seq<Call>, i: int)
    requires i <= |log|
  {
    exists j :: 0 <= j < i && log[j] == HandshakeCall(X509_V_OK, true)
  }

  /** Two OK reports are on different connections. */
  ghost predicate OksApart(log: seq<Call>) {
    forall i, j :: 0 <= i < j < |log| && IsOk(log[i]) && IsOk(log[j]) ==>
      exists m :: i < m < j && log[m] == SslNew
  }

  ghost predicate Respected(log: seq<Call>) {
    && (forall i :: 0 <= i < |log| && log[i].ReadCall? ==> AcceptedBefore(log, i))
    && (forall i :: 0 <= i < |log| && log[i].WriteCall? ==> EverAccepted(log, i))
    && OksApart(log)
  }

  lemma AcceptedInPrefix(log: seq<Call>, n: nat, i: int)
    requires i <= n <= |log|
    ensures AcceptedBefore(log[..n], i) <==> AcceptedBefore(log, i)
    ensures EverAccepted(log[..n], i) <==> EverAccepted(log, i)
  {
    var pre := log[..n];
    if AcceptedBefore(pre, i) {
      var j :| 0 <= j < i && pre[j] == HandshakeCall(X509_V_OK, true) && forall m :: j < m < i ==> pre[m] != SslNew;
      assert log[j] == HandshakeCall(X509_V_OK, true);
      forall m | j < m < i ensures log[m] != SslNew { assert pre[m] == log[m]; }
    }
    if AcceptedBefore(log, i) {
      var j :| 0 <= j < i && log[j] == HandshakeCall(X509_V_OK, true) && forall m :: j < m < i ==> log[m] != SslNew;
      assert pre[j] == HandshakeCall(X509_V_OK, true);
      forall m | j < m < i ensures pre[m] != SslNew { assert pre[m] == log[m]; }
    }
    if EverAccepted(pre, i) {
      var j :| 0 <= j < i && pre[j] == HandshakeCall(X509_V_OK, true);
      assert log[j] == HandshakeCall(X509_V_OK, true);
    }
    if EverAccepted(log, i) {
      var j :| 0 <= j < i && log[j] == HandshakeCall(X509_V_OK, true);
      assert pre[j] == HandshakeCall(X509_V_OK, true);
    }
  }

  /** An OK report that no later `SslNew` has put behind. */
  ghost predicate OkStands(log: seq<Call>, j: nat)
    requires j < |log|
  {
    IsOk(log[j]) && forall m :: j < m < |log| ==> log[m] != SslNew
  }

  lemma AcceptedSnoc(pre: seq<Call>, c: Call)
    requires Watch(pre).accepted <==> AcceptedBefore(pre, |pre|)
    requires Watch(pre).ever <==> EverAccepted(pre, |pre|)
    ensures Observe(Watch(pre), c).accepted <==> AcceptedBefore(pre + [c], |pre| + 1)
    ensures Observe(Watch(pre), c).ever <==> EverAccepted(pre + [c], |pre| + 1)
  {
    var n, log := |pre|, pre + [c];
    assert log[..n] == pre && log[n] == c;
    AcceptedInPrefix(log, n, n);
    if c == HandshakeCall(X509_V_OK, true) {
      assert log[n] == HandshakeCall(X509_V_OK, true);
    } else {
      if AcceptedBefore(log, n) && c != SslNew {
        var j :| 0 <= j < n && log[j] == HandshakeCall(X509_V_OK, true) && forall m :: j < m < n ==> log[m] != SslNew;
        assert forall m :: j < m < n + 1 ==> log[m] != SslNew;
      }
    }
  }

  lemma OksSnoc(pre: seq<Call>, c: Call)
    requires Watch(pre).oks > 0 <==> exists j: nat :: j < |pre| && OkStands(pre, j)
    ensures Observe(Watch(pre), c).oks > 0 <==> exists j: nat :: j < |pre| + 1 && OkStands(pre + [c], j)
  {
    var n, log := |pre|, pre + [c];
    assert log[n] == c;
    if IsOk(c) {
      assert OkStands(log, n);
    } else {
      forall j: nat | j < n ensures OkStands(log, j) <==> OkStands(pre, j) && c != SslNew {
        assert log[j] == pre[j];
        if OkStands(log, j) {
          forall m | j < m < n ensures pre[m] != SslNew { assert log[m] == pre[m]; }
        }
      }
      assert !OkStands(log, n);
    }
  }

  lemma OksApartSnoc(pre: seq<Call>, c: Call)
    requires Watch(pre).oks > 0 <==> exists j: nat :: j < |pre| && OkStands(pre, j)
    requires OksApart(pre)
    ensures OksApart(pre + [c]) <==> (IsOk(c) ==> Watch(pre).oks == 0)
  {
    var n, log := |pre|, pre + [c];
    assert log[n] == c && forall i :: 0 <= i < n ==> log[i] == pre[i];
    if IsOk(c) && Watch(pre).oks > 0 {
      var j: nat :| j < n && OkStands(pre, j);
      assert IsOk(log[j]) && IsOk(log[n]);
      assert forall m :: j < m < n ==> log[m] != SslNew;
      assert !OksApart(log);
    } else {
      forall i, j | 0 <= i < j < |log| && IsOk(log[i]) && IsOk(log[j])
        ensures exists m :: i < m < j && log[m] == SslNew
      {
        if j < n {
          var m :| i < m < j && pre[m] == SslNew;
          assert log[m] == SslNew;
        } else {
          assert !OkStands(pre, i);
          var m :| i < m < n && pre[m] == SslNew;
          assert log[m] == SslNew;
        }
      }
    }
  }

  /** What the watch is meant to say. */
  ghost predicate Means(g: Gate, log: seq<Call>) {
    && (g.accepted <==> AcceptedBefore(log, |log|))
    && (g.ever <==> EverAccepted(log, |log|))
    && (g.oks > 0 <==> exists j: nat :: j < |log| && OkStands(log, j))
    && (g.good ==> Respected(log))
  }

  lemma RespectedSnoc(pre: seq<Call>, c: Call)
    requires Means(Watch(pre), pre) && Observe(Watch(pre), c).good
    ensures Respected(pre + [c])
  {
    var n, log := |pre|, pre + [c];
    assert log[..n] == pre;
    OksApartSnoc(pre, c);
    forall i | 0 <= i < |log| && log[i].ReadCall? ensures AcceptedBefore(log, i) {
      AcceptedInPrefix(log, n, i);
      assert i < n ==> pre[i].ReadCall?;
    }
    forall i | 0 <= i < |log| && log[i].WriteCall? ensures EverAccepted(log, i) {
      AcceptedInPrefix(log, n, i);
      assert i < n ==> pre[i].WriteCall?;
    }
  }

  lemma {:induction false} WatchMeans(log: seq<Call>)
    ensures Means(Watch(log), log)
  {
    if log != [] {
      var pre, c := log[..|log| - 1], log[|log| - 1];
      assert log == pre + [c];
      WatchMeans(pre);
      WatchSnoc(pre, c);
      AcceptedSnoc(pre, c);
      OksSnoc(pre, c);
      if Watch(log).good { RespectedSnoc(pre, c); }
    }
  }

  /** The watch says what it is meant to say. */
  lemma WatchMeaning(log: seq<Call>)
    ensures Watch(log).accepted <==> AcceptedBefore(log, |log|)
    ensures Watch(log).ever <==> EverAccepted(log, |log|)
    ensures Watch(log).good ==> Respected(log)
  {
    WatchMeans(log);
  }

  // ---------- the invariant of whole runs ----------

  /** How the state of a TLS handle goes with what was observed: the write callback is enabled only
      after an accepted handshake, and a finished handshake that was not accepted closes the socket. */
  ghost predicate GateOk(initFinished: bool, f: Flags, g: Gate) {
    && g.good
    && (f.writeEnable ==> g.ever)
    && (initFinished && !g.accepted ==> f.closingStart)
    && (!initFinished ==> g.oks == 0)
    && g.oks <= 1
  }

  ghost predicate Guarded(h: Handle) {
    && h.tls.certsTaken == h.tls.certsFreed
    && (h.kind.Ssl? ==> GateOk(h.tls.initFinished, h.flags, Watch(h.log)))
  }

  /** What every run keeps between events. */
  ghost predicate Safe(h: Handle) {
    Inv(h) && h.refs.frames == 0 && Guarded(h)
  }

  ghost predicate Onward(h: Handle, k: Handle) {
    k.kind == h.kind && (h.flags.closingStart ==> k.flags.closingStart)
  }

  lemma CallBackSafe(h: Handle, slot: Slot, call: Call, script: Script)
    requires Safe(h)
    requires h.kind.Ssl? ==> call.ErrorCall? || call.ConnectCall? || call.ShutdownCall?
                             || (call.WriteCall? && h.flags.writeEnable)
    ensures var k := CallBack(h, slot, call, script); Safe(k) && Steady(h, k)
  {
    CallBackKeeps(h, slot, call, script);
    if h.slots.cell[slot].Some? { WatchSnoc(h.log, call); }
  }

  lemma CloseSafe(h: Handle)
    requires Safe(h)
    ensures Safe(CloseSocket(h)) && CloseSocket(h).flags.closingStart
  {
    CloseKeeps(h);
  }

  lemma ReleaseSafe(h: Handle)
    requires Safe(h)
    ensures Safe(Release(h)) && !Release(h).flags.internalRef
    ensures Onward(h, Release(h))
  {
    ReleaseKeeps(h);
    ReleaseFrame(h);
  }

  lemma OpenEngineSafe(h: Handle, hello: seq<byte>, rets: seq<int>)
    requires Safe(h)
    ensures Safe(OpenEngine(h, hello, rets)) && Onward(h, OpenEngine(h, hello, rets))
    ensures OpenEngine(h, hello, rets).refs == h.refs
  {
    if h.kind.Ssl? {
      var n := h.(tls := NewClient(h.tls, hello), log := h.log + [SslNew]);
      WatchSnoc(h.log, SslNew);
      assert Safe(n);
      WriteBioKeeps(n, rets);
      WriteBioFrame(n, rets);
    }
  }

  lemma ConnectedSafe(h: Handle, e: Event)
    requires Safe(h) && e.Connected? && Enabled(h, e)
    ensures Safe(Step(h, e)) && Onward(h, Step(h, e))
  {
    if e.readRet == 0 {
      var r := MarkReading(h.(uv := h.uv.(connecting := false, reading := true)));
      var s := OpenEngine(r, e.hello, e.rets);
      assert Safe(r);
      OpenEngineSafe(r, e.hello, e.rets);
      CallBackSafe(s, CONNECT, ConnectCall(e.status), e.script);
      assert Step(h, e) == CallBack(s, CONNECT, ConnectCall(e.status), e.script);
    } else {
      assert Step(h, e) == h.(uv := h.uv.(connecting := false));
    }
  }

  lemma TlsReadSafe(h: Handle, e: Event)
    requires Safe(h) && e.TlsRead? && Enabled(h, e)
    ensures Safe(Step(h, e)) && Onward(h, Step(h, e))
  {
    var f := h.(tls := Feed(h.tls, e.data));
    assert Safe(f);
    var added := HandshakeKeeps(f, e.handshake);
    var (s, goOn) := HandleHandshake(f, e.handshake);
    GreetedIsSafe(f, s, goOn, added);
    if goOn {
      var calls := DeliverKeeps(s, ReadChunks(s.tls.plain), e.scripts);
      WatchReads(s.log, calls);
    }
  }

  lemma GreetedIsSafe(h: Handle, k: Handle, goOn: bool, added: seq<Call>)
    requires Safe(h) && h.kind.Ssl? && !h.flags.closingStart
    requires Inv(k) && Greeted(h, k, goOn, added)
    ensures Safe(k) && (goOn ==> Watch(k.log).accepted)
  {
    if h.tls.initFinished {
      assert h.log + added == h.log;
      assert Watch(h.log).accepted ==> Watch(h.log).ever by { WatchMeaning(h.log); EverFromAccepted(h.log); }
    } else if !k.tls.initFinished {
      WatchComplaints(h.log, added);
    } else if Complaints(added) {
      WatchComplaints(h.log, added);
    } else {
      var n := |added| - 1;
      WatchComplaints(h.log, added[..n]);
      WatchSnoc(h.log + added[..n], added[n]);
      assert h.log + added == (h.log + added[..n]) + [added[n]];
    }
  }

  lemma EverFromAccepted(log: seq<Call>)
    ensures AcceptedBefore(log, |log|) ==> EverAccepted(log, |log|)
  {
  }

  lemma WriteDoneSafe(h: Handle, e: Event)
    requires Safe(h) && e.WriteDone? && Enabled(h, e)
    ensures Safe(Step(h, e)) && Onward(h, Step(h, e))
  {
    if h.flags.writeEnable {
      CallBackSafe(h, WRITE, WriteCall(e.status, |h.uv.accepted[h.uv.completed]|), e.script);
    }
  }

  lemma ResolvedSafe(h: Handle, e: Event)
    requires Safe(h) && e.Resolved? && Enabled(h, e)
    ensures Safe(Step(h, e)) && Onward(h, Step(h, e))
  {
    var s := h.(uv := h.uv.(resolving := h.uv.resolving - 1));
    if e.ret == 0 {
      assert Step(h, e) == s.(uv := s.uv.(connecting := true));
    } else {
      CallBackSafe(s, CONNECT, ConnectCall(e.ret), e.script);
      ReleaseSafe(CallBack(s, CONNECT, ConnectCall(e.ret), e.script));
    }
  }

  lemma CallEventSafe(h: Handle, e: Event)
    requires Safe(h) && Enabled(h, e)
    requires e.ReadData? || e.ReadFailed? || e.Incoming? || e.ShutdownDone?
    ensures Safe(Step(h, e)) && Onward(h, Step(h, e))
  {
    match e
    case ReadData(data, script) =>
      CallBackSafe(h, READ, ReadCall(data), script);
      assert Step(h, e) == CallBack(h, READ, ReadCall(data), script);
    case ReadFailed(nread, script) =>
      CallBackSafe(h, ERROR, ErrorCall(nread), script);
      CloseSafe(CallBack(h, ERROR, ErrorCall(nread), script));
      assert Step(h, e) == CloseSocket(CallBack(h, ERROR, ErrorCall(nread), script));
    case Incoming(status, script) =>
      CallBackSafe(h, CONNECT, ConnectCall(status), script);
      assert Step(h, e) == CallBack(h, CONNECT, ConnectCall(status), script);
    case ShutdownDone(status, script) =>
      var s := h.(uv := h.uv.(shutdowns := h.uv.shutdowns - 1));
      assert Safe(s);
      CallBackSafe(s, SHUTDOWN, ShutdownCall(status), script);
      assert Step(h, e) == CallBack(s, SHUTDOWN, ShutdownCall(status), script);
  }

  /** Every event keeps the handle safe, and `CLOSING_START` is never cleared. */
  lemma StepSafe(h: Handle, e: Event)
    requires Safe(h)
    ensures Safe(Step(h, e)) && Onward(h, Step(h, e))
  {
    if Enabled(h, e) {
      match e
      case UserCode(script) =>
        ScriptKeeps(h, script);
        assert Step(h, e) == RunScript(h, script);
      case Connected(_, _, _, _, _) => ConnectedSafe(h, e);
      case WriteDone(_, _) => WriteDoneSafe(h, e);
      case Resolved(_, _) => ResolvedSafe(h, e);
      case TlsRead(_, _, _) => TlsReadSafe(h, e);
      case CloseDone =>
        ReleaseSafe(h.(uv := h.uv.(closed := true)));
        assert Step(h, e) == Release(h.(uv := h.uv.(closed := true)));
      case _ => CallEventSafe(h, e);
    }
  }

  lemma {:induction false} RunSafe(h: Handle, events: seq<Event>)
    requires Safe(h)
    ensures Safe(Run(h, events)) && Onward(h, Run(h, events))
    decreases |events|
  {
    if events != [] {
      StepSafe(h, events[0]);
      RunSafe(Step(h, events[0]), events[1..]);
    }
  }

  lemma InitialSafe(h: Handle)
    requires Initial(h)
    ensures Safe(h)
  {
    assert h.refs == NO_REFS && h.log == [] && h.tls == NO_TLS && h.sock == h.peer == NO_CACHE;
    assert h.uv == IDLE.(reading := h.uv.reading) && h.slots == EMPTY;
    assert !h.flags.internalRef && !h.flags.closingStart && !h.flags.writeEnable;
    FreshSafe(h);
  }

  lemma FreshSafe(h: Handle)
    requires h.refs == NO_REFS && h.log == [] && h.tls == NO_TLS && h.sock == h.peer == NO_CACHE && h.slots == EMPTY
    requires h.uv == IDLE.(reading := h.uv.reading)
    requires !h.flags.internalRef && !h.flags.closingStart && !h.flags.writeEnable
    requires (h.flags.readStart ==> h.flags.handleStart) && (h.uv.reading ==> h.flags.readStart)
    ensures Safe(h)
  {
  }

  // ---------- the theorems ----------

  /** `h` is the state after some run of a new or accepted handle. */
  ghost predicate Reachable(h: Handle) {
    exists start: Handle, events: seq<Event> :: Initial(start) && h == Run(start, events)
  }

  lemma ReachableSafe(h: Handle)
    requires Reachable(h)
    ensures Safe(h)
  {
    var start: Handle, events: seq<Event> :| Initial(start) && h == Run(start, events);
    InitialSafe(start);
    RunSafe(start, events);
  }

  lemma {:induction false} RunSnoc(h: Handle, events: seq<Event>, e: Event)
    ensures Run(h, events + [e]) == Step(Run(h, events), e)
    decreases |events|
  {
    if events == [] {
      assert [e][1..] == [] && [] + [e] == [e];
      assert Run(h, [e]) == Run(Step(h, e), []);
    } else {
      assert (events + [e])[0] == events[0] && (events + [e])[1..] == events[1..] + [e];
      RunSnoc(Step(h, events[0]), events[1..], e);
    }
  }

  lemma {:induction false} RunAppend(h: Handle, before: seq<Event>, after: seq<Event>)
    ensures Run(h, before + after) == Run(Run(h, before), after)
    decreases |before|
  {
    if before == [] {
      assert before + after == after;
    } else {
      assert (before + after)[1..] == before[1..] + after;
      RunAppend(Step(h, before[0]), before[1..], after);
    }
  }

  lemma ReachableOnward(h: Handle, events: seq<Event>)
    requires Reachable(h)
    ensures Reachable(Run(h, events))
  {
    var start: Handle, before: seq<Event> :| Initial(start) && h == Run(start, before);
    RunAppend(start, before, events);
    assert Run(h, events) == Run(start, before + events);
  }

  lemma NextIsReachable(h: Handle, e: Event)
    requires Reachable(h)
    ensures Reachable(Step(h, e))
  {
    var start: Handle, events: seq<Event> :| Initial(start) && h == Run(start, events);
    RunSnoc(start, events, e);
    EndIsReachable(start, events + [e], Step(h, e));
  }

  lemma EndIsReachable(start: Handle, events: seq<Event>, h: Handle)
    requires Initial(start) && Run(start, events) == h
    ensures Reachable(h)
  {
  }

  lemma RunOfNone(h: Handle, none: seq<Event>)
    requires |none| == 0
    ensures Run(h, none) == h
  {
  }

  lemma InitialIsReachable(start: Handle)
    requires Initial(start)
    ensures Reachable(start)
  {
    var none: seq<Event> := [];
    RunOfNone(start, none);
  }

  /**
    The reference ledger. In every reachable state the object's count is what
    PHP variables hold plus one if the self-reference bit is set; each
    self-reference taken was dropped once or is held; the free handler has run
    exactly if nothing refers to the object, once, and never with the bit set.
  */
  lemma LedgerOverRuns(h: Handle)
    requires Reachable(h)
    ensures h.refs.count == h.refs.external + Bit(h.flags.internalRef)
    ensures h.refs.taken == h.refs.dropped + Bit(h.flags.internalRef)
    ensures h.refs.freed == Bit(h.refs.count == 0) && !h.refs.freedWhilePinned
    ensures h.refs.freed > 0 ==> Bare(h)
  {
    ReachableSafe(h);
  }

  /** `uv_close` is issued at most once, and what was issued stays issued. */
  lemma SingleClose(h: Handle, events: seq<Event>)
    requires Reachable(h)
    ensures h.uv.closes <= Run(h, events).uv.closes <= 1
    ensures h.flags.closingStart ==> Run(h, events).flags.closingStart
  {
    ReachableSafe(h);
    RunSafe(h, events);
  }

  /** Reading implies started, the cached addresses own their strings, and write requests are
      freed, in flight or refused. */
  lemma StateOverRuns(h: Handle)
    requires Reachable(h)
    ensures h.flags.readStart ==> h.flags.handleStart
    ensures IsCached(h.kind, h.sock) ==> h.sock.addr.Some?
    ensures IsCached(h.kind, h.peer) ==> h.peer.addr.Some?
    ensures h.sock.made == h.sock.freed + h.sock.lost + Bit(IsCached(h.kind, h.sock))
    ensures h.peer.made == h.peer.freed + h.peer.lost + Bit(IsCached(h.kind, h.peer))
    ensures h.uv.made == h.uv.released + (|h.uv.accepted| - h.uv.completed) + |h.uv.refused|
  {
    ReachableSafe(h);
  }

  /**
    The handshake gate. On a TLS handle every read callback comes after an
    accepted OK report on its own connection, every write callback after some
    accepted OK report, and no connection reports OK twice. A finished handshake
    that was not accepted closes the socket. Peer certificates are freed.
  */
  lemma HandshakeGate(h: Handle)
    requires Reachable(h) && h.kind.Ssl?
    ensures Respected(h.log)
    ensures h.tls.initFinished && !AcceptedBefore(h.log, |h.log|) ==> h.flags.closingStart && h.uv.closes == 1
    ensures h.tls.certsTaken == h.tls.certsFreed
  {
    ReachableSafe(h);
    WatchMeaning(h.log);
  }

  /** The close callback leaves no self-reference, and frees an object nobody else refers to. */
  lemma CloseReleases(h: Handle)
    requires Reachable(h) && Enabled(h, CloseDone)
    ensures var k := Step(h, CloseDone);
            && !k.flags.internalRef && !k.flags.handleStart && !k.flags.readStart
            && (k.refs.freed == 1 <==> h.refs.external == 0)
  {
    ReachableSafe(h);
    StepSafe(h, CloseDone);
    var c := h.(uv := h.uv.(closed := true));
    ReleaseKeeps(c);
    ReleaseFrame(c);
  }

  /** `listen` on a started handle returns -1 and changes nothing. */
  lemma ListenTwice(h: Handle, args: Option<ListenArgs>)
    requires h.flags.handleStart
    ensures DoListen(h, args) == (h, Long(-1))
    ensures Perform(h, Listen(args)) == h
  {
  }
}
