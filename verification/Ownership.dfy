/**
  The ownership of callback slots, call by call. Every API call keeps the
  references of the slots accounted for; a call that parses a closure and then
  fails leaves the slot with a function it only borrowed, and no later call
  undoes that.
*/
module Ownership {
  import opened Basics
  import opened Callbacks
  import opened Streams
  import opened StreamSteps

  // ---------- parsing three callbacks ----------

  lemma ClearedAccounted(s: Slots)
    ensures Accounted(s) <==> Accounted(Cleared(s))
  {
    FreeKeepsAccount(s, READ);
    FreeKeepsAccount(Free(s, READ), WRITE);
    FreeKeepsAccount(Free(Free(s, READ), WRITE), ERROR);
  }

  /** The references that the first `n` callables stand for. */
  function Weights(fns: seq<Fn>, n: nat): multiset<Fn>
    requires n <= |fns|
  {
    if n == 0 then multiset{} else Weights(fns, n - 1) + Weight(Some(fns[n - 1]))
  }

  /** The first `n` callables are plain names. */
  predicate AllNamed(fns: seq<Fn>, n: nat)
    requires n <= |fns|
  {
    n == 0 || (AllNamed(fns, n - 1) && fns[n - 1].Named?)
  }

  lemma {:induction false} NamesWeighNothing(fns: seq<Fn>, n: nat)
    requires n <= |fns|
    ensures AllNamed(fns, n) <==> Weights(fns, n) == multiset{}
  {
    if n > 0 {
      NamesWeighNothing(fns, n - 1);
      if fns[n - 1].Closure? { assert Weights(fns, n)[fns[n - 1]] > 0; }
    }
  }

  lemma FillAccount(s: Slots, i: Slot, f: Fn, before: multiset<Fn>, lent: multiset<Fn>)
    requires s.cell[i].None? && Accounted(s) && s.borrowed == before + lent
    ensures Accounted(Fill(s, i, f)) && Fill(s, i, f).borrowed == before + (lent + Weight(Some(f)))
  {
    FillBorrows(s, i, f);
  }

  lemma {:induction false} FillSlotsAccount(s: Slots, fns: Parsed, n: nat)
    requires Accounted(s) && n <= |fns| && forall i :: 0 <= i < n ==> s.cell[i].None?
    ensures Accounted(FillSlots(s, fns, n))
    ensures FillSlots(s, fns, n).borrowed == s.borrowed + Weights(fns, n)
  {
    if n > 0 {
      FillSlotsAccount(s, fns, n - 1);
      FillAccount(FillSlots(s, fns, n - 1), n - 1, fns[n - 1], s.borrowed, Weights(fns, n - 1));
    }
  }

  lemma ParseAccount(s: Slots, fns: Parsed)
    requires Accounted(s)
    ensures Accounted(ParseCallbacks(s, fns))
    ensures ParseCallbacks(s, fns).borrowed == s.borrowed + Weights(fns, |fns|)
  {
    ClearedAccounted(s);
    FillSlotsAccount(Cleared(s), fns, |fns|);
  }

  lemma WeightsOfThree(fns: Parsed)
    requires |fns| == 3
    ensures Weights(fns, 3)
         == Weight(Some(fns[0])) + (Weight(Some(fns[1])) + (Weight(Some(fns[2])) + multiset{}))
  {
    assert Weights(fns, 1) == multiset{} + Weight(Some(fns[0]));
    assert Weights(fns, 2) == Weights(fns, 1) + Weight(Some(fns[1]));
  }

  lemma Repays(s: Slots, i: Slot, before: multiset<Fn>, rest: multiset<Fn>)
    requires Accounted(s) && s.borrowed == before + (Weight(s.cell[i]) + rest)
    ensures Accounted(AddRef(s, i)) && AddRef(s, i).borrowed == before + rest && AddRef(s, i).cell == s.cell
  {
    AddRefRepays(s, i);
  }

  /** A full list is owned: what parsing borrowed is given back. */
  lemma OwnAccount(s: Slots, fns: Parsed)
    requires Accounted(s) && |fns| == 3
    ensures Accounted(OwnCallbacks(ParseCallbacks(s, fns)))
    ensures OwnCallbacks(ParseCallbacks(s, fns)).borrowed == s.borrowed
  {
    ParseAccount(s, fns);
    WeightsOfThree(fns);
    var t := ParseCallbacks(s, fns);
    ParsedCells(s, fns);
    var w1, w2 := Weight(t.cell[WRITE]), Weight(t.cell[ERROR]);
    Repays(t, READ, s.borrowed, w1 + (w2 + multiset{}));
    Repays(AddRef(t, READ), WRITE, s.borrowed, w2 + multiset{});
    Repays(AddRef(AddRef(t, READ), WRITE), ERROR, s.borrowed, multiset{});
  }

  lemma ParsedCells(s: Slots, fns: Parsed)
    ensures var t := ParseCallbacks(s, fns);
            && t.cell[HANDSHAKE] == s.cell[HANDSHAKE]
            && (|fns| == 0 ==> t.cell[READ].None? && t.cell[WRITE].None? && t.cell[ERROR].None?)
            && (|fns| == 3 ==>
                  t.cell[READ] == Some(fns[0]) && t.cell[WRITE] == Some(fns[1]) && t.cell[ERROR] == Some(fns[2]))
  {
  }

  // ---------- the calls ----------

  /** What a call leaves borrowed: the closures it parsed into slots and took no reference on. */
  function Lent(h: Handle, a: Act): multiset<Fn> {
    if !Callable(h) then multiset{}
    else match a
      case SetCallback(fns) => if |fns| < 3 then Weights(fns, |fns|) else multiset{}
      case Listen(args) =>
        if !h.flags.handleStart && args.Some? && ListenCode(h.kind, args.value) != 0 then Weight(Some(args.value.fn))
        else multiset{}
      case _ => multiset{}
  }

  /** The calls that leave a slot with a function it does not own. */
  predicate Borrows(h: Handle, a: Act) {
    && Callable(h)
    && match a
       case SetCallback(fns) => |fns| < 3 && !AllNamed(fns, |fns|)
       case Listen(args) =>
         !h.flags.handleStart && args.Some? && args.value.fn.Closure? && ListenCode(h.kind, args.value) != 0
       case _ => false
  }

  lemma LentExactly(h: Handle, a: Act)
    ensures Borrows(h, a) <==> Lent(h, a) != multiset{}
  {
    if a.SetCallback? { NamesWeighNothing(a.fns, |a.fns|); }
    if a.Listen? && a.listenArgs.Some? && a.listenArgs.value.fn.Closure? {
      assert Weight(Some(a.listenArgs.value.fn))[a.listenArgs.value.fn] > 0;
    }
  }

  /** From `s` to `t` the references stay accounted for, and exactly `lent` is borrowed. */
  ghost predicate Borrowing(s: Slots, t: Slots, lent: multiset<Fn>) {
    Accounted(s) ==> Accounted(t) && t.borrowed == s.borrowed + lent
  }

  lemma NothingLent(s: Slots, t: Slots)
    requires Accounted(s) ==> Accounted(t) && t.borrowed == s.borrowed
    ensures Borrowing(s, t, multiset{})
  {
  }

  lemma DropSlots(h: Handle)
    requires Balanced(h, 1)
    ensures Drop(h).slots
         == if h.refs.count == 1 then FreeFirst(h.slots, if h.kind.Ssl? then SLOTS else TCP_SLOTS) else h.slots
  {
    var s := h.(refs := h.refs.(count := h.refs.count - 1));
    if s.refs.count == 0 {
      var t := s.(refs := s.refs.(freed := s.refs.freed + 1,
                                  freedWhilePinned := s.refs.freedWhilePinned || s.flags.internalRef));
      assert Release(t) == StopActivity(t);
    }
  }

  lemma DropAccount(h: Handle)
    requires Balanced(h, 1)
    ensures Borrowing(h.slots, Drop(h).slots, multiset{})
  {
    DropSlots(h);
    FreeFirstKeepsAccount(h.slots, if h.kind.Ssl? then SLOTS else TCP_SLOTS);
    NothingLent(h.slots, Drop(h).slots);
  }

  /** The slots after a callable, if there is one, was installed in slot `i`. */
  function Reinstall(s: Slots, i: Slot, fn: Option<Fn>): Slots {
    match fn case None => Free(s, i) case Some(f) => Install(s, i, f)
  }

  lemma ReinstallAccount(s: Slots, i: Slot, fn: Option<Fn>)
    ensures Borrowing(s, Reinstall(s, i, fn), multiset{})
    ensures Borrowing(s, Free(Reinstall(s, i, fn), i), multiset{})
  {
    FreeKeepsAccount(s, i);
    if Accounted(s) && fn.Some? { InstallKeepsAccount(s, i, fn.value); }
    FreeKeepsAccount(Reinstall(s, i, fn), i);
    NothingLent(s, Reinstall(s, i, fn));
    NothingLent(s, Free(Reinstall(s, i, fn), i));
  }

  lemma ListenSlots(h: Handle, args: Option<ListenArgs>)
    ensures DoListen(h, args).0.slots
         == if h.flags.handleStart then h.slots
            else if args.None? then Free(h.slots, CONNECT)
            else if ListenCode(h.kind, args.value) == 0 then Install(h.slots, CONNECT, args.value.fn)
            else Fill(Free(h.slots, CONNECT), CONNECT, args.value.fn)
  {
  }

  lemma FillAfterFree(s: Slots, i: Slot, f: Fn)
    ensures Borrowing(s, Fill(Free(s, i), i, f), Weight(Some(f)))
  {
    FreeKeepsAccount(s, i);
    if Accounted(s) { FillBorrows(Free(s, i), i, f); }
  }

  lemma ListenAccount(h: Handle, args: Option<ListenArgs>)
    requires Callable(h)
    ensures Borrowing(h.slots, DoListen(h, args).0.slots, Lent(h, Listen(args)))
  {
    ListenSlots(h, args);
    if h.flags.handleStart {
      NothingLent(h.slots, h.slots);
    } else if args.None? {
      ReinstallAccount(h.slots, CONNECT, None);
    } else if ListenCode(h.kind, args.value) == 0 {
      ReinstallAccount(h.slots, CONNECT, Some(args.value.fn));
    } else {
      FillAfterFree(h.slots, CONNECT, args.value.fn);
    }
  }

  lemma ConnectSlots(h: Handle, args: Option<ConnectArgs>)
    ensures args.None? ==> DoConnect(h, args).0.slots == Reinstall(h.slots, CONNECT, None)
    ensures args.Some? ==>
              var s := Reinstall(h.slots, CONNECT, Some(args.value.fn));
              DoConnect(h, args).0.slots == if StartConnect(h.kind, args.value).Refused? then Free(s, CONNECT) else s
  {
  }

  lemma ShutdownSlots(h: Handle, fn: Option<Fn>, ret: int)
    ensures DoShutdown(h, fn, ret).0.slots == Reinstall(h.slots, SHUTDOWN, fn)
  {
  }

  lemma AttachSlots(h: Handle, openRet: int, fn: Option<Fn>, readRet: int)
    ensures DoAttachIpc(h, openRet, fn, readRet).0.slots
         == if openRet != 0 then h.slots else Reinstall(h.slots, CONNECT, fn)
  {
  }

  lemma SetHandshakeSlots(h: Handle, fn: Option<Fn>)
    requires Callable(h)
    ensures Perform(h, SetHandshake(fn)).slots == if h.kind.Ssl? then Reinstall(h.slots, HANDSHAKE, fn) else h.slots
  {
  }

  lemma TlsWriteSlots(h: Handle, message: seq<byte>, rets: seq<int>)
    ensures DoTlsWrite(h, message, rets).0.slots == h.slots
  {
    WriteBioFrame(h.(tls := SslWrite(h.tls, message).0), rets);
  }

  lemma SetCallbackAccount(h: Handle, fns: Parsed)
    requires Callable(h)
    ensures Borrowing(h.slots, SetCallbacks(h, fns).slots, Lent(h, SetCallback(fns)))
  {
    if Accounted(h.slots) {
      ParseAccount(h.slots, fns);
      if |fns| == 3 { OwnAccount(h.slots, fns); }
    }
  }

  lemma ConnectAccount(h: Handle, args: Option<ConnectArgs>)
    ensures Borrowing(h.slots, DoConnect(h, args).0.slots, multiset{})
  {
    ConnectSlots(h, args);
    ReinstallAccount(h.slots, CONNECT, if args.None? then None else Some(args.value.fn));
  }

  lemma ShutdownAccount(h: Handle, fn: Option<Fn>, ret: int)
    ensures Borrowing(h.slots, DoShutdown(h, fn, ret).0.slots, multiset{})
  {
    ShutdownSlots(h, fn, ret);
    ReinstallAccount(h.slots, SHUTDOWN, fn);
  }

  lemma AttachAccount(h: Handle, openRet: int, fn: Option<Fn>, readRet: int)
    ensures Borrowing(h.slots, DoAttachIpc(h, openRet, fn, readRet).0.slots, multiset{})
  {
    AttachSlots(h, openRet, fn, readRet);
    ReinstallAccount(h.slots, CONNECT, fn);
    NothingLent(h.slots, h.slots);
  }

  lemma SetHandshakeAccount(h: Handle, fn: Option<Fn>)
    requires Callable(h)
    ensures Borrowing(h.slots, Perform(h, SetHandshake(fn)).slots, multiset{})
  {
    SetHandshakeSlots(h, fn);
    ReinstallAccount(h.slots, HANDSHAKE, fn);
    NothingLent(h.slots, h.slots);
  }

  /** Every call keeps the references accounted for, and borrows exactly what it parses and does not own. */
  lemma PerformAccount(h: Handle, a: Act)
    requires Inv(h)
    ensures Borrowing(h.slots, Perform(h, a).slots, Lent(h, a))
  {
    NothingLent(h.slots, h.slots);
    if Callable(h) {
      match a
      case SetCallback(fns) =>
        SetCallbackAccount(h, fns);
        assert Perform(h, a) == SetCallbacks(h, fns);
      case Listen(args) =>
        ListenAccount(h, args);
        assert Perform(h, a) == DoListen(h, args).0;
      case DropRef =>
        if h.refs.external > 0 { DropAccount(h.(refs := h.refs.(external := h.refs.external - 1))); }
      case TlsWrite(message, rets) => TlsWriteSlots(h, message, rets);
      case Connect(args) =>
        ConnectAccount(h, args);
        assert Perform(h, a) == DoConnect(h, args).0;
      case Shutdown(fn, ret) =>
        ShutdownAccount(h, fn, ret);
        assert Perform(h, a) == DoShutdown(h, fn, ret).0;
      case SetHandshake(fn) => SetHandshakeAccount(h, fn);
      case AttachIpc(openRet, fn, readRet) =>
        AttachAccount(h, openRet, fn, readRet);
        assert Perform(h, a) == if h.kind.Pipe? then DoAttachIpc(h, openRet, fn, readRet).0 else h;
      case _ => assert Perform(h, a).slots == h.slots;
    }
  }

  /** A call leaves the slots owned exactly if they were and it is not one that borrows: a `setCallback`
      of which only some arguments parse, or a `listen` that parses and then fails. */
  lemma PerformOwnership(h: Handle, a: Act)
    requires Inv(h) && Accounted(h.slots)
    ensures Owned(Perform(h, a).slots) <==> Owned(h.slots) && !Borrows(h, a)
  {
    PerformAccount(h, a);
    LentExactly(h, a);
    OwnedExactly(h.slots);
    OwnedExactly(Perform(h, a).slots);
    assert h.slots.borrowed + Lent(h, a) == multiset{} <==> h.slots.borrowed == multiset{} && Lent(h, a) == multiset{}
      by { NoneOfTwo(h.slots.borrowed, Lent(h, a)); }
  }

  lemma NoneOfTwo(a: multiset<Fn>, b: multiset<Fn>)
    ensures a + b == multiset{} <==> a == multiset{} && b == multiset{}
  {
    if a + b == multiset{} {
      forall f ensures a[f] == 0 && b[f] == 0 { assert (a + b)[f] == a[f] + b[f]; }
    }
  }

  /** A `listen` that parses a closure and is refused leaves a slot that owns no reference. */
  lemma FailedListenBorrows(h: Handle, a: ListenArgs)
    requires Inv(h) && Owned(h.slots) && Accounted(h.slots) && Callable(h) && !h.flags.handleStart
    requires a.fn.Closure? && ListenCode(h.kind, a) != 0
    ensures var k := Perform(h, Listen(Some(a))); !Owned(k.slots) && k.slots.cell[CONNECT] == Some(a.fn)
  {
    PerformOwnership(h, Listen(Some(a)));
    assert DoListen(h, Some(a)).0.slots == Fill(Free(h.slots, CONNECT), CONNECT, a.fn);
  }
}
