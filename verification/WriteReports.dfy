/**
  What the write callback is told: with the callback enabled and installed, the
  lengths it is given are those of the completed socket writes, in order.
*/
module WriteReports {
  import opened Basics
  import opened Records
  import opened Callbacks
  import opened Streams
  import opened StreamSteps
  import opened TlsSteps
  import opened StreamRuns
  import opened Promises

  function Reported(log: seq<Call>): seq<nat> {
    if log == [] then []
    else (if log[0].WriteCall? then [log[0].length] else []) + Reported(log[1..])
  }

  function Lengths(writes: seq<seq<byte>>): seq<nat> {
    if writes == [] then [] else [|writes[0]|] + Lengths(writes[1..])
  }

  function Total(lengths: seq<nat>): nat {
    if lengths == [] then 0 else lengths[0] + Total(lengths[1..])
  }

  lemma {:induction false} TotalOfLengths(writes: seq<seq<byte>>)
    ensures Total(Lengths(writes)) == |Flatten(writes)|
  {
    if writes != [] { TotalOfLengths(writes[1..]); }
  }

  lemma {:induction false} ReportedAppend(a: seq<Call>, b: seq<Call>)
    ensures Reported(a + b) == Reported(a) + Reported(b)
  {
    if a == [] {
      assert a + b == b;
    } else {
      ReportedAppend(a[1..], b);
      assert (a + b)[1..] == a[1..] + b;
      Regroup(if a[0].WriteCall? then [a[0].length] else [], Reported(a[1..]), Reported(b));
    }
  }

  lemma {:induction false} LengthsAppend(a: seq<seq<byte>>, b: seq<seq<byte>>)
    ensures Lengths(a + b) == Lengths(a) + Lengths(b)
  {
    if a == [] {
      assert a + b == b;
    } else {
      LengthsAppend(a[1..], b);
      assert (a + b)[1..] == a[1..] + b;
    }
  }

  ghost predicate NoWrites(calls: seq<Call>) {
    forall i :: 0 <= i < |calls| ==> !calls[i].WriteCall?
  }

  lemma {:induction false} NothingReported(calls: seq<Call>)
    requires NoWrites(calls)
    ensures Reported(calls) == []
  {
    if calls != [] { NothingReported(calls[1..]); }
  }

  /** The writes that completed between two states. */
  function Completed(h: Handle, k: Handle): seq<seq<byte>> {
    if h.uv.completed <= k.uv.completed <= |k.uv.accepted| then k.uv.accepted[h.uv.completed..k.uv.completed] else []
  }

  /** From `h` to `k` the log gains `added`, which reports exactly the writes that completed. */
  ghost predicate Reports(h: Handle, k: Handle, added: seq<Call>) {
    && h.uv.completed <= k.uv.completed && h.uv.accepted <= k.uv.accepted
    && (h.flags.writeEnable ==> k.flags.writeEnable)
    && k.log == h.log + added
    && Reported(added) == Lengths(Completed(h, k))
  }

  lemma SilentReports(h: Handle, k: Handle, added: seq<Call>)
    requires k.uv.completed == h.uv.completed && h.uv.accepted <= k.uv.accepted
    requires h.flags.writeEnable ==> k.flags.writeEnable
    requires k.log == h.log + added && NoWrites(added)
    ensures Reports(h, k, added)
  {
    NothingReported(added);
    assert Completed(h, k) == [];
  }

  lemma ReportsTrans(h: Handle, s: Handle, k: Handle, first: seq<Call>, second: seq<Call>)
    requires Inv(h) && Inv(s) && Inv(k)
    requires Reports(h, s, first) && Reports(s, k, second)
    ensures Reports(h, k, first + second)
  {
    ReportedAppend(first, second);
    LengthsAppend(Completed(h, s), Completed(s, k));
    Regroup(h.log, first, second);
    assert Completed(h, k) == Completed(h, s) + Completed(s, k);
  }

  lemma CallBackReports(h: Handle, slot: Slot, call: Call, script: Script) returns (added: seq<Call>)
    requires Inv(h) && !call.WriteCall?
    ensures Reports(h, CallBack(h, slot, call, script), added)
  {
    CallBackKeeps(h, slot, call, script);
    added := if h.slots.cell[slot].Some? then [call] else [];
    SilentReports(h, CallBack(h, slot, call, script), added);
  }

  lemma ReleaseReports(h: Handle)
    requires Inv(h)
    ensures Reports(h, Release(h), [])
  {
    ReleaseFrame(h);
    assert h.log + [] == h.log;
    SilentReports(h, Release(h), []);
  }

  lemma WriteDoneReports(h: Handle, e: Event) returns (added: seq<Call>)
    requires Safe(h) && e.WriteDone? && Enabled(h, e) && h.flags.writeEnable && h.slots.cell[WRITE].Some?
    ensures Reports(h, Step(h, e), added)
  {
    var i := h.uv.completed;
    var call := WriteCall(e.status, |h.uv.accepted[i]|);
    CallBackKeeps(h, WRITE, call, e.script);
    added := [call];
    var done: seq<seq<byte>> := [h.uv.accepted[i]];
    assert Completed(h, Step(h, e)) == done;
    assert Lengths(done) == [|h.uv.accepted[i]|] + Lengths(done[1..]);
    assert Reported(added) == [call.length] + Reported(added[1..]);
  }

  lemma OpenEngineReports(h: Handle, hello: seq<byte>, rets: seq<int>) returns (added: seq<Call>)
    requires Inv(h)
    ensures var k := OpenEngine(h, hello, rets);
            Inv(k) && k.log == h.log + added && NoWrites(added) && k.flags == h.flags && k.refs == h.refs
            && k.uv.completed == h.uv.completed && h.uv.accepted <= k.uv.accepted
  {
    added := [];
    assert h.log + [] == h.log;
    if h.kind.Ssl? {
      var n := h.(tls := NewClient(h.tls, hello), log := h.log + [SslNew]);
      assert Inv(n);
      WriteBioKeeps(n, rets);
      WriteBioFrame(n, rets);
      added := [SslNew];
    }
  }

  lemma ConnectedReports(h: Handle, e: Event) returns (added: seq<Call>)
    requires Safe(h) && e.Connected? && Enabled(h, e)
    ensures Reports(h, Step(h, e), added)
  {
    if e.readRet == 0 {
      var r := MarkReading(h.(uv := h.uv.(connecting := false, reading := true)));
      assert Inv(r);
      added := OpenEngineReports(r, e.hello, e.rets);
      var s := OpenEngine(r, e.hello, e.rets);
      CallBackKeeps(s, CONNECT, ConnectCall(e.status), e.script);
      var second := if s.slots.cell[CONNECT].Some? then [ConnectCall(e.status)] else [];
      Regroup(h.log, added, second);
      added := added + second;
      assert Step(h, e) == CallBack(s, CONNECT, ConnectCall(e.status), e.script);
    } else {
      added := [];
      assert h.log + [] == h.log;
      assert Step(h, e) == h.(uv := h.uv.(connecting := false));
    }
    SilentReports(h, Step(h, e), added);
  }

  lemma TlsReadReports(h: Handle, e: Event) returns (added: seq<Call>)
    requires Safe(h) && e.TlsRead? && Enabled(h, e)
    ensures Reports(h, Step(h, e), added)
  {
    var f := h.(tls := Feed(h.tls, e.data));
    assert Inv(f);
    added := HandshakeKeeps(f, e.handshake);
    var (s, goOn) := HandleHandshake(f, e.handshake);
    GreetedIsSilent(f, s, goOn, added);
    SilentReports(h, s, added);
    if goOn {
      var calls := DeliveryReports(s, ReadChunks(s.tls.plain), e.scripts);
      var k := Deliver(s, ReadChunks(s.tls.plain), e.scripts);
      ReportsTrans(h, s, k, added, calls);
      added := added + calls;
    }
  }

  lemma DeliveryReports(s: Handle, chunks: seq<seq<byte>>, scripts: seq<Script>) returns (calls: seq<Call>)
    requires Inv(s)
    ensures Inv(Deliver(s, chunks, scripts)) && Reports(s, Deliver(s, chunks, scripts), calls)
  {
    calls := DeliverKeeps(s, chunks, scripts);
    SilentReports(s, Deliver(s, chunks, scripts), calls);
  }

  lemma GreetedIsSilent(h: Handle, k: Handle, goOn: bool, added: seq<Call>)
    requires Greeted(h, k, goOn, added)
    ensures NoWrites(added) && (h.flags.writeEnable ==> k.flags.writeEnable)
  {
    if !h.tls.initFinished && k.tls.initFinished && !Complaints(added) {
      var n := |added| - 1;
      forall i | 0 <= i < |added| ensures !added[i].WriteCall? {
        assert i < n ==> added[i] == added[..n][i];
      }
    }
  }

  lemma CallEventReports(h: Handle, e: Event) returns (added: seq<Call>)
    requires Safe(h) && Enabled(h, e)
    requires e.ReadData? || e.ReadFailed? || e.Incoming? || e.ShutdownDone?
    ensures Reports(h, Step(h, e), added)
  {
    match e
    case ReadData(data, script) => added := CallBackReports(h, READ, ReadCall(data), script);
    case ReadFailed(nread, script) => added := CallBackReports(h, ERROR, ErrorCall(nread), script);
    case Incoming(status, script) => added := CallBackReports(h, CONNECT, ConnectCall(status), script);
    case ShutdownDone(status, script) =>
      var s := h.(uv := h.uv.(shutdowns := h.uv.shutdowns - 1));
      assert Inv(s);
      added := CallBackReports(s, SHUTDOWN, ShutdownCall(status), script);
  }

  lemma ResolvedReports(h: Handle, e: Event) returns (added: seq<Call>)
    requires Safe(h) && Enabled(h, e) && e.Resolved?
    ensures Reports(h, Step(h, e), added)
  {
    var s := h.(uv := h.uv.(resolving := h.uv.resolving - 1));
    assert Safe(s);
    if e.ret == 0 {
      added := [];
      assert h.log + [] == h.log;
      assert Step(h, e) == s.(uv := s.uv.(connecting := true));
      SilentReports(h, Step(h, e), []);
    } else {
      added := UnresolvedReports(s, e.ret, e.script);
      assert Step(h, e) == Release(CallBack(s, CONNECT, ConnectCall(e.ret), e.script));
      assert Completed(h, Step(h, e)) == Completed(s, Step(h, e));
    }
  }

  lemma UnresolvedReports(s: Handle, ret: int, script: Script) returns (added: seq<Call>)
    requires Safe(s)
    ensures Reports(s, Release(CallBack(s, CONNECT, ConnectCall(ret), script)), added)
  {
    var c := CallBack(s, CONNECT, ConnectCall(ret), script);
    added := CallBackReports(s, CONNECT, ConnectCall(ret), script);
    CallBackSafe(s, CONNECT, ConnectCall(ret), script);
    ReleaseReports(c);
    ReleaseKeeps(c);
    ReportsTrans(s, c, Release(c), added, []);
    assert added + [] == added;
  }

  lemma StepReports(h: Handle, e: Event) returns (added: seq<Call>)
    requires Safe(h) && h.flags.writeEnable && (h.refs.freed > 0 || h.slots.cell[WRITE].Some?)
    ensures Reports(h, Step(h, e), added)
  {
    added := [];
    assert h.log + [] == h.log;
    if !Enabled(h, e) {
      SilentReports(h, h, []);
    } else {
      match e
      case UserCode(script) =>
        ScriptKeeps(h, script);
        SilentReports(h, RunScript(h, script), []);
        assert Step(h, e) == RunScript(h, script);
      case Connected(_, _, _, _, _) => added := ConnectedReports(h, e);
      case WriteDone(_, _) => added := WriteDoneReports(h, e);
      case Resolved(_, _) => added := ResolvedReports(h, e);
      case TlsRead(_, _, _) => added := TlsReadReports(h, e);
      case CloseDone =>
        var c := h.(uv := h.uv.(closed := true));
        assert Inv(c);
        ReleaseReports(c);
        assert Step(h, e) == Release(c);
      case _ => added := CallEventReports(h, e);
    }
  }

  /**
    With the write callback enabled and every `setCallback` well typed, the run's
    write callbacks report the lengths of the writes it completes, in order, so
    that they sum to the bytes of those writes.
  */
  lemma {:induction false} RunReports(h: Handle, events: seq<Event>) returns (added: seq<Call>)
    requires Safe(h) && h.flags.writeEnable && Kept(h, NO_TERMS.(keeps := true))
    requires RunHonours(h.kind, events, NO_TERMS.(keeps := true))
    ensures var k := Run(h, events);
            Reports(h, k, added) && Total(Reported(added)) == |Flatten(Completed(h, k))|
    decreases |events|
  {
    if events == [] {
      added := [];
      assert h.log + [] == h.log;
      SilentReports(h, h, []);
    } else {
      var s := Step(h, events[0]);
      var first := StepReports(h, events[0]);
      StepSafe(h, events[0]);
      StepKept(h, events[0], NO_TERMS.(keeps := true));
      var rest := RunReports(s, events[1..]);
      RunSafe(s, events[1..]);
      ReportsTrans(h, s, Run(h, events), first, rest);
      added := first + rest;
    }
    TotalOfLengths(Completed(h, Run(h, events)));
  }
}
