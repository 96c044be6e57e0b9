/**
  What the API calls promise, in the terms of their arguments: for which answers a
  call succeeds, what it returns, and the whole state that it leaves, also where it
  fails half-way.
*/
module CallEffects {
  import opened Basics
  import opened Records
  import opened Callbacks
  import opened CertificateNames
  import opened Streams
  import opened StreamSteps
  import opened Ownership

  /** A host of 1 to 29 characters; for a pipe any path but the empty one. */
  predicate GoodHost(kind: Kind, host: string) {
    1 <= |host| && (kind.Pipe? || |host| <= 29)
  }

  /** The first answer that is not zero. */
  function FirstFailure(answers: seq<int>): int {
    if answers == [] then 0 else if answers[0] != 0 then answers[0] else FirstFailure(answers[1..])
  }

  lemma FailureOfOne(a: int)
    ensures FirstFailure([a]) == a
  {
    var rest: seq<int> := [a][1..];
    assert rest == [] && FirstFailure(rest) == 0;
  }

  lemma FailureOfTwo(a: int, b: int)
    ensures FirstFailure([a, b]) == if a != 0 then a else b
  {
    assert [a, b][1..] == [b];
    FailureOfOne(b);
  }

  lemma FailureOfThree(a: int, b: int, c: int)
    ensures FirstFailure([a, b, c]) == if a != 0 then a else if b != 0 then b else c
  {
    assert [a, b, c][1..] == [b, c];
    FailureOfTwo(b, c);
  }

  // ---------- what a call leaves ----------

  /** The handle holds its self-reference, and one reference more if it had none. */
  ghost predicate NowPinned(h: Handle, k: Handle) {
    && k.flags.internalRef
    && k.refs == if h.flags.internalRef then h.refs
                 else h.refs.(count := h.refs.count + 1, taken := h.refs.taken + 1)
  }

  /** Slot `i` has a new callback and owns it; the old one has lost its reference. */
  ghost predicate NowOwns(s: Slots, t: Slots, i: Slot, f: Fn) {
    && t.cell == s.cell[i := Some(f)]
    && t.taken == s.taken + Weight(Some(f)) && t.dropped == s.dropped + Weight(s.cell[i])
    && t.borrowed == s.borrowed
  }

  /** It has one that it only borrows. */
  ghost predicate NowBorrows(s: Slots, t: Slots, i: Slot, f: Fn) {
    && t.cell == s.cell[i := Some(f)]
    && t.taken == s.taken && t.dropped == s.dropped + Weight(s.cell[i])
    && t.borrowed == s.borrowed + Weight(Some(f))
  }

  /** It is empty. */
  ghost predicate NowEmpty(s: Slots, t: Slots, i: Slot) {
    && t.cell == s.cell[i := None]
    && t.taken == s.taken && t.dropped == s.dropped + Weight(s.cell[i])
    && t.borrowed == s.borrowed
  }

  lemma InstallMeans(s: Slots, i: Slot, f: Fn)
    ensures NowOwns(s, Install(s, i, f), i, f)
  {
    assert (s.borrowed + Weight(Some(f))) - Weight(Some(f)) == s.borrowed;
    assert s.cell[i := None][i := Some(f)] == s.cell[i := Some(f)];
  }

  lemma FillMeans(s: Slots, i: Slot, f: Fn)
    ensures NowBorrows(s, Fill(Free(s, i), i, f), i, f)
  {
    assert s.cell[i := None][i := Some(f)] == s.cell[i := Some(f)];
  }

  // ---------- listen ----------

  /** The answers that `listen` asks for, in the order in which it does. */
  function ListenAnswers(kind: Kind, a: ListenArgs): seq<int> {
    if kind.Pipe? then [a.bindRet, a.listenRet] else [a.addrRet, a.bindRet, a.listenRet]
  }

  ghost predicate Listening(h: Handle, k: Handle, fn: Fn) {
    && NowPinned(h, k) && NowOwns(h.slots, k.slots, CONNECT, fn)
    && k == h.(flags := h.flags.(handleStart := true, internalRef := true), refs := k.refs, slots := k.slots,
               uv := h.uv.(listening := true))
  }

  /**
    On a handle that is not started, `listen` succeeds exactly if the host has an
    acceptable length and every answer is zero; then the handle is started, pinned
    and listening. Otherwise it returns -1 or the first answer that is not zero, and has
    changed nothing but the slot, which borrows the function.
  */
  lemma ListenMeans(h: Handle, a: ListenArgs)
    requires Callable(h) && !h.flags.handleStart
    ensures var (k, ret) := DoListen(h, Some(a));
            && Perform(h, Listen(Some(a))) == k
            && (ret == Long(0) <==> GoodHost(h.kind, a.host) && FirstFailure(ListenAnswers(h.kind, a)) == 0)
            && if ret == Long(0) then Listening(h, k, a.fn)
               else
                 && ret == Long(if GoodHost(h.kind, a.host) then FirstFailure(ListenAnswers(h.kind, a)) else -1)
                 && k == h.(slots := k.slots) && NowBorrows(h.slots, k.slots, CONNECT, a.fn)
  {
    FailureOfTwo(a.bindRet, a.listenRet);
    FailureOfThree(a.addrRet, a.bindRet, a.listenRet);
    InstallMeans(h.slots, CONNECT, a.fn);
    FillMeans(h.slots, CONNECT, a.fn);
  }

  // ---------- connect ----------

  ghost predicate Connecting(h: Handle, k: Handle, a: ConnectArgs) {
    var byName := h.kind.Ssl? && a.addrRet != 0;
    && NowPinned(h, k) && NowOwns(h.slots, k.slots, CONNECT, a.fn)
    && k == h.(flags := h.flags.(handleStart := true, internalRef := true), refs := k.refs, slots := k.slots,
               uv := if byName then h.uv.(resolving := h.uv.resolving + 1) else h.uv.(connecting := true),
               tls := if h.kind.Ssl? then h.tls.(clientMode := true, host := CString(a.host)) else h.tls)
  }

  /** The answers that can refuse a `connect`: of a TLS handle not that of the address, since a host that
      is none is resolved; of a pipe none. */
  function ConnectAnswers(kind: Kind, a: ConnectArgs): seq<int> {
    match kind
    case Pipe => []
    case Tcp => [a.addrRet, a.connectRet]
    case Ssl => if a.addrRet != 0 then [] else [a.connectRet]
  }

  /**
    `connect` succeeds exactly if the host has an acceptable length and no such
    answer refuses it; then the handle is started, pinned, and connecting or
    resolving. Otherwise the connect slot is empty, and a TLS handle has the new host
    if its length was acceptable; nothing else has changed.
  */
  lemma ConnectMeans(h: Handle, a: ConnectArgs)
    requires Callable(h)
    ensures var (k, ret) := DoConnect(h, Some(a));
            && Perform(h, Connect(Some(a))) == k
            && (ret == Long(0) <==> GoodHost(h.kind, a.host) && FirstFailure(ConnectAnswers(h.kind, a)) == 0)
            && if ret == Long(0) then Connecting(h, k, a)
               else
                 && ret == Long(if GoodHost(h.kind, a.host) then FirstFailure(ConnectAnswers(h.kind, a)) else -1)
                 && k == h.(slots := k.slots, tls := k.tls) && k.slots.cell == h.slots.cell[CONNECT := None]
                 && k.slots.borrowed == h.slots.borrowed
                 && k.tls == if h.kind.Ssl? && GoodHost(h.kind, a.host) then h.tls.(host := CString(a.host)) else h.tls
  {
    FailureOfTwo(a.addrRet, a.connectRet);
    FailureOfOne(a.connectRet);
    ConnectSlotsMean(h.slots, a.fn);
    if StartConnect(h.kind, a).Refused? { RefusedMeans(h, a); }
  }

  lemma ConnectSlotsMean(s: Slots, f: Fn)
    ensures NowOwns(s, Install(s, CONNECT, f), CONNECT, f)
    ensures Free(Install(s, CONNECT, f), CONNECT).cell == s.cell[CONNECT := None]
    ensures Free(Install(s, CONNECT, f), CONNECT).borrowed == s.borrowed
  {
    InstallMeans(s, CONNECT, f);
    assert Install(s, CONNECT, f).cell[CONNECT := None] == s.cell[CONNECT := None];
  }

  lemma RefusedMeans(h: Handle, a: ConnectArgs)
    requires StartConnect(h.kind, a).Refused?
    ensures var k := DoConnect(h, Some(a)).0;
            && k == h.(slots := Free(Install(h.slots, CONNECT, a.fn), CONNECT), tls := k.tls)
            && k.tls == if h.kind.Ssl? && GoodHost(h.kind, a.host) then h.tls.(host := CString(a.host)) else h.tls
  {
  }

  // ---------- callbacks ----------

  /** `setCallback` with three callables: the first is the read callback, the second the write callback, the
      third the error callback; all are owned, and the handle is pinned. */
  lemma SetCallbackMeans(h: Handle, fns: Parsed)
    requires Callable(h) && Accounted(h.slots) && |fns| == 3
    ensures var k := Perform(h, SetCallback(fns));
            && k.slots.cell == h.slots.cell[READ := Some(fns[0])][WRITE := Some(fns[1])][ERROR := Some(fns[2])]
            && k.slots.borrowed == h.slots.borrowed
            && NowPinned(h, k)
            && k == h.(flags := h.flags.(internalRef := true), refs := k.refs, slots := k.slots)
  {
    var s := ParseCallbacks(h.slots, fns);
    SetCells(h.slots, fns);
    OwnAccount(h.slots, fns);
    var t := h.(slots := OwnCallbacks(s));
    PinMeans(t);
    assert Perform(h, SetCallback(fns)) == SetSelfReference(t);
    assert s.cell == h.slots.cell[READ := Some(fns[0])][WRITE := Some(fns[1])][ERROR := Some(fns[2])];
  }

  /** With fewer that parse, those are in their slots, borrowed; the others of the three are empty, and
      nothing else has changed. */
  lemma PartlyParsedMeans(h: Handle, fns: Parsed)
    requires Callable(h) && Accounted(h.slots) && |fns| < 3
    ensures var k := Perform(h, SetCallback(fns));
            && (forall i: Slot :: i > ERROR ==> k.slots.cell[i] == h.slots.cell[i])
            && k.slots.cell[READ] == (if |fns| > 0 then Some(fns[0]) else None)
            && k.slots.cell[WRITE] == (if |fns| > 1 then Some(fns[1]) else None)
            && k.slots.cell[ERROR].None?
            && k.slots.borrowed == h.slots.borrowed + Weights(fns, |fns|)
            && k == h.(slots := k.slots)
  {
    var s := ParseCallbacks(h.slots, fns);
    SetCells(h.slots, fns);
    ParseAccount(h.slots, fns);
    assert Perform(h, SetCallback(fns)) == h.(slots := s);
  }

  lemma SetCells(s: Slots, fns: Parsed)
    ensures var t := ParseCallbacks(s, fns).cell;
            && (forall i: Slot :: i > ERROR ==> t[i] == s.cell[i])
            && t[READ] == (if |fns| > 0 then Some(fns[0]) else None)
            && t[WRITE] == (if |fns| > 1 then Some(fns[1]) else None)
            && t[ERROR] == (if |fns| > 2 then Some(fns[2]) else None)
  {
  }

  lemma PinMeans(h: Handle)
    ensures NowPinned(h, SetSelfReference(h))
    ensures SetSelfReference(h) == h.(flags := h.flags.(internalRef := true), refs := SetSelfReference(h).refs)
  {
  }

  /** `setSSLHandshakeCallback` replaces the handshake callback, or empties its slot if the argument does
      not parse. */
  lemma SetHandshakeMeans(h: Handle, fn: Option<Fn>)
    requires Callable(h) && h.kind.Ssl?
    ensures var k := Perform(h, SetHandshake(fn));
            && k == h.(slots := k.slots)
            && if fn.Some? then NowOwns(h.slots, k.slots, HANDSHAKE, fn.value)
               else NowEmpty(h.slots, k.slots, HANDSHAKE)
  {
    if fn.Some? { InstallMeans(h.slots, HANDSHAKE, fn.value); }
  }

  /** `shutdown` installs its callback; if libuv takes the request, one more is pending and the handle is
      pinned. It returns libuv's answer. */
  lemma ShutdownMeans(h: Handle, fn: Fn, answer: int)
    requires Callable(h)
    ensures var (k, ret) := DoShutdown(h, Some(fn), answer);
            && Perform(h, Shutdown(Some(fn), answer)) == k
            && ret == Long(answer) && NowOwns(h.slots, k.slots, SHUTDOWN, fn)
            && if answer == 0 then
                 NowPinned(h, k)
                 && k == h.(flags := h.flags.(internalRef := true), refs := k.refs, slots := k.slots,
                            uv := h.uv.(shutdowns := h.uv.shutdowns + 1))
               else k == h.(slots := k.slots)
  {
    InstallMeans(h.slots, SHUTDOWN, fn);
  }

  /** `attachIPC`: an opened pipe installs its callback; if reading starts too, it is pinned, started and
      announces connections. */
  lemma AttachMeans(h: Handle, openRet: int, fn: Option<Fn>, readRet: int)
    requires Callable(h) && h.kind.Pipe?
    ensures var (k, ret) := DoAttachIpc(h, openRet, fn, readRet);
            && Perform(h, AttachIpc(openRet, fn, readRet)) == k
            && ret == Long(if openRet != 0 then openRet else if fn.None? then -1 else readRet)
            && if openRet != 0 then k == h
               else if fn.None? then k == h.(slots := k.slots) && NowEmpty(h.slots, k.slots, CONNECT)
               else
                 && NowOwns(h.slots, k.slots, CONNECT, fn.value)
                 && if readRet != 0 then k == h.(slots := k.slots)
                    else
                      && NowPinned(h, k)
                      && k == h.(flags := h.flags.(handleStart := true, readStart := true, internalRef := true),
                                 refs := k.refs, slots := k.slots, uv := h.uv.(listening := true))
  {
    if fn.Some? { InstallMeans(h.slots, CONNECT, fn.value); }
  }

  /** Calls whose arguments do not parse leave an empty slot, and change nothing else. */
  lemma UnparsedMeans(h: Handle, answer: int)
    requires Callable(h)
    ensures var (k, ret) := DoConnect(h, None);
            Perform(h, Connect(None)) == k == h.(slots := k.slots) && ret == Null && NowEmpty(h.slots, k.slots, CONNECT)
    ensures var (k, ret) := DoShutdown(h, None, answer);
            && Perform(h, Shutdown(None, answer)) == k == h.(slots := k.slots)
            && ret == Null && NowEmpty(h.slots, k.slots, SHUTDOWN)
    ensures var (k, ret) := DoListen(h, None);
            !h.flags.handleStart ==>
              && Perform(h, Listen(None)) == k == h.(slots := k.slots)
              && ret == Null && NowEmpty(h.slots, k.slots, CONNECT)
  {
  }

  // ---------- closing, variables and writing ----------

  /** `close` has `uv_close` issued, once. */
  lemma CloseMeans(h: Handle)
    requires Inv(h) && Callable(h)
    ensures var k := Perform(h, Close);
            && k.flags.closingStart && k.uv.closes == 1
            && k == h.(flags := h.flags.(closingStart := true), uv := h.uv.(closes := 1))
  {
  }

  /** A copy is one PHP reference more; a drop one less, and the last one frees the object. */
  lemma VariablesMean(h: Handle)
    requires Inv(h) && Callable(h)
    ensures Perform(h, CopyRef) == h.(refs := h.refs.(count := h.refs.count + 1, external := h.refs.external + 1))
    ensures var k := Perform(h, DropRef);
            && (h.refs.external == 0 ==> k == h)
            && (h.refs.external > 0 && h.refs.count > 1 ==>
                  k == h.(refs := h.refs.(count := h.refs.count - 1, external := h.refs.external - 1)))
            && (h.refs.external > 0 && h.refs.count == 1 ==> k.refs.freed == 1 && k.slots.cell == EMPTY_CELLS)
  {
    if h.refs.external > 0 {
      var d := h.(refs := h.refs.(external := h.refs.external - 1));
      DropKeeps(d);
      assert Perform(h, DropRef) == Drop(d);
    }
  }

  /** `write` on TCP handles and pipes enables the write callback, and libuv takes or refuses the data. */
  lemma WriteMeans(h: Handle, data: seq<byte>, answer: int)
    requires Callable(h) && !h.kind.Ssl?
    ensures var k := Perform(h, Write(data, answer));
            && k.uv.made == h.uv.made + 1
            && k == h.(flags := h.flags.(writeEnable := true), uv := k.uv)
            && k.uv == h.uv.(made := k.uv.made,
                             accepted := h.uv.accepted + (if answer == 0 then [data] else []),
                             refused := h.uv.refused + (if answer == 0 then [] else [data]))
  {
    assert h.uv.accepted + [] == h.uv.accepted && h.uv.refused + [] == h.uv.refused;
  }

  /** What a drain returns: zero if libuv refused no piece, else the answer that refused one. */
  lemma {:induction false} DrainReturns(h: Handle, rets: seq<int>)
    ensures var (k, ret) := WriteBio(h, rets);
            && (ret == 0 ==> k.uv.refused == h.uv.refused && k.tls.output == [])
            && (ret != 0 ==> ret in rets && |k.uv.refused| == |h.uv.refused| + 1)
    decreases |h.tls.output|
  {
    if h.tls.output != [] {
      WriteBioUnfold(h, rets);
      var s := WriteOne(h, Head(rets));
      if Head(rets) == 0 {
        DrainReturns(s, Tail(rets));
      } else {
        assert rets[0] in rets;
      }
    }
  }

  /** What `UVSSL::write` returns: zero exactly if no piece was refused. Before the handshake is over
      the message is not taken; what the BIO holds is still drained. */
  lemma TlsWriteReturns(h: Handle, message: seq<byte>, rets: seq<int>)
    requires Callable(h) && h.kind.Ssl?
    ensures var (k, ret) := DoTlsWrite(h, message, rets);
            && Perform(h, TlsWrite(message, rets)) == k
            && ret.Long? && (ret == Long(0) <==> k.uv.refused == h.uv.refused)
            && (ret != Long(0) ==> ret.value in rets)
            && k.tls.written == h.tls.written + (if h.tls.initFinished then message else [])
            && (!h.tls.initFinished && ret == Long(0) ==> k.tls.output == [])
  {
    var s := h.(tls := SslWrite(h.tls, message).0);
    assert h.tls.written + [] == h.tls.written;
    DrainReturns(s, rets);
    WriteBioFrame(s, rets);
    var (k, ret) := DoTlsWrite(h, message, rets);
    assert (k, ret) == (s, Long(0)) || (k, ret) == (WriteBio(s, rets).0, Long(WriteBio(s, rets).1));
    WrittenStays(s, rets);
  }

  lemma WrittenStays(h: Handle, rets: seq<int>)
    ensures WriteBio(h, rets).0.tls == h.tls.(output := WriteBio(h, rets).0.tls.output)
  {
    WriteBioFrame(h, rets);
  }
}
