/**
  Whole heaps of handles and closures, at any moment at which PHP code runs: when
  the reference counts are what the cycle collector takes them for, and what it
  collects then, and otherwise.
*/
module HandleHeaps {
  import opened Basics
  import opened Callbacks
  import opened Streams
  import opened StreamRuns
  import opened Promises
  import opened Lifetime
  import opened CycleCollector
  import opened Moments

  /** A handle in the state its run has brought it to, with its PHP properties; or a closure with what
      it captured. */
  datatype Node = HandleNode(handle: Handle, properties: seq<nat>) | ClosureNode(captured: seq<nat>)

  datatype World = World(nodes: seq<Node>, variables: seq<nat>)

  /** The references that PHP itself keeps in an object. */
  function Own(n: Node): seq<nat> {
    match n case HandleNode(_, properties) => properties case ClosureNode(captured) => captured
  }

  /** The references to `v` that PHP keeps in the first `n` objects. */
  function Owns(w: World, n: nat, v: nat): nat
    requires n <= |w.nodes|
  {
    if n == 0 then 0 else Owns(w, n - 1, v) + Count(Own(w.nodes[n - 1]), v)
  }

  /** The references on the closure `v` that the first `n` handles have taken and not dropped. */
  function Takes(w: World, n: nat, v: nat): int
    requires n <= |w.nodes|
  {
    if n == 0 then 0
    else Takes(w, n - 1, v) + match w.nodes[n - 1]
      case HandleNode(k, _) => k.slots.taken[Closure(v)] as int - k.slots.dropped[Closure(v)]
      case ClosureNode(_) => 0
  }

  /** The references on the closure `v` that the first `n` handles should have taken, and did not. */
  function Lacks(w: World, n: nat, v: nat): nat
    requires n <= |w.nodes|
  {
    if n == 0 then 0
    else Lacks(w, n - 1, v) + match w.nodes[n - 1]
      case HandleNode(k, _) => k.slots.borrowed[Closure(v)]
      case ClosureNode(_) => 0
  }

  /** The entries for the closure `v` in the tables of the first `n` handles. */
  function Entries(w: World, n: nat, v: nat): nat
    requires n <= |w.nodes|
  {
    if n == 0 then 0
    else Entries(w, n - 1, v) + match w.nodes[n - 1]
      case HandleNode(k, _) => Count(ClosureIds(Filled(k.slots.cell)), v)
      case ClosureNode(_) => 0
  }

  /** The reference count of an object: for a handle what its run has made of it, for a closure what
      variables, objects and the handles' calls have taken. */
  function CountOf(w: World, v: nat): int
    requires v < |w.nodes|
  {
    match w.nodes[v]
    case HandleNode(k, _) => k.refs.count
    case ClosureNode(_) => Count(w.variables, v) + Owns(w, |w.nodes|, v) + Takes(w, |w.nodes|, v)
  }

  function ObjectOf(n: Node): Object {
    match n
    case HandleNode(k, properties) => StreamObject(k.slots.cell, k.flags.internalRef, properties)
    case ClosureNode(captured) => ClosureObject(captured)
  }

  /** The heap that the collector finds. */
  function HeapOf(w: World): Heap {
    Heap(seq(|w.nodes|, i requires 0 <= i < |w.nodes| => ObjectOf(w.nodes[i])), w.variables,
         seq(|w.nodes|, i requires 0 <= i < |w.nodes| => CountOf(w, i)))
  }

  /** The closures in the slots are closures of the heap. */
  ghost predicate SlotsPoint(w: World, cells: Cells) {
    forall i: Slot :: cells[i].Some? && cells[i].value.Closure? ==>
      cells[i].value.id < |w.nodes| && w.nodes[cells[i].value.id].ClosureNode?
  }

  /** The handle in node `v` is alive and consistent, as it is whenever PHP code runs (see
      `Moments.OccursConsistent`), and what its ledger has as outside references are the variables and
      objects that refer to it. The arguments of a running callback are variables here. */
  ghost predicate HandleFits(w: World, v: nat)
    requires v < |w.nodes| && w.nodes[v].HandleNode?
  {
    var k := w.nodes[v].handle;
    && Consistent(k) && k.refs.freed == 0 && SlotsPoint(w, k.slots.cell)
    && k.refs.external + k.refs.frames == Count(w.variables, v) + Owns(w, |w.nodes|, v)
  }

  ghost predicate Fits(w: World) {
    && (forall v: nat :: v < |w.nodes| && w.nodes[v].HandleNode? ==> HandleFits(w, v))
    && (forall v: nat :: v in w.variables ==> v < |w.nodes|)
    && (forall u: nat, v: nat :: u < |w.nodes| && v in Own(w.nodes[u]) ==> v < |w.nodes|)
  }

  // ---------- the references that the collector sees ----------

  lemma {:induction false} EdgesOf(w: World, n: nat, v: nat)
    requires n <= |w.nodes|
    ensures Edges(HeapOf(w), n, Nodes(HeapOf(w)), v) == Owns(w, n, v) + Entries(w, n, v)
  {
    if n > 0 {
      EdgesOf(w, n - 1, v);
      var h, node := HeapOf(w), w.nodes[n - 1];
      assert Children(h, n - 1) == Reported(ObjectOf(node));
      if node.HandleNode? {
        CountAppend(ClosureIds(Filled(node.handle.slots.cell)), node.properties, v);
      }
    }
  }

  /** The table of a handle accounts for the references its calls have taken, and for those they lack. */
  lemma TableAccountsForSlots(k: Handle, id: nat)
    requires Consistent(k)
    ensures Count(ClosureIds(Filled(k.slots.cell)), id)
         == k.slots.taken[Closure(id)] as int - k.slots.dropped[Closure(id)] + k.slots.borrowed[Closure(id)]
  {
    CountOfIds(Filled(k.slots.cell), id);
    TableIsExact(k.slots.cell, Closure(id));
    AccountedOccurrences(k.slots, Closure(id));
  }

  lemma NodeAccounts(w: World, u: nat, v: nat)
    requires Fits(w) && u < |w.nodes| && w.nodes[u].HandleNode?
    ensures var s := w.nodes[u].handle.slots;
            Count(ClosureIds(Filled(s.cell)), v)
            == s.taken[Closure(v)] as int - s.dropped[Closure(v)] + s.borrowed[Closure(v)]
  {
    assert HandleFits(w, u);
    TableAccountsForSlots(w.nodes[u].handle, v);
  }

  lemma {:induction false} EntriesAreTaken(w: World, n: nat, v: nat)
    requires Fits(w) && n <= |w.nodes|
    ensures Entries(w, n, v) == Takes(w, n, v) + Lacks(w, n, v)
  {
    if n > 0 {
      EntriesAreTaken(w, n - 1, v);
      if w.nodes[n - 1].HandleNode? { NodeAccounts(w, n - 1, v); }
    }
  }

  lemma {:induction false} OccurrencePositive(cells: seq<Option<Fn>>, f: Fn)
    ensures Occurrences(cells, f) > 0 <==> exists i :: 0 <= i < |cells| && cells[i] == Some(f)
  {
    if cells != [] {
      OccurrencePositive(cells[1..], f);
      if i :| 0 <= i < |cells| && cells[i] == Some(f) { assert i > 0 ==> cells[1..][i - 1] == cells[i]; }
    }
  }

  /** The table has an entry exactly for the closures in the slots. */
  lemma EntryExactly(cells: Cells, id: nat)
    ensures Count(ClosureIds(Filled(cells)), id) > 0 <==> id in ClosureIds(Filled(cells))
    ensures id in ClosureIds(Filled(cells)) <==> exists i: Slot :: cells[i] == Some(Closure(id))
  {
    CountPositive(ClosureIds(Filled(cells)), id);
    CountOfIds(Filled(cells), id);
    TableIsExact(cells, Closure(id));
    OccurrencePositive(cells, Closure(id));
  }

  lemma NodeHasNoEntry(w: World, u: nat, v: nat)
    requires Fits(w) && u < |w.nodes| && w.nodes[u].HandleNode? && v < |w.nodes| && w.nodes[v].HandleNode?
    ensures Count(ClosureIds(Filled(w.nodes[u].handle.slots.cell)), v) == 0
  {
    assert HandleFits(w, u);
    EntryExactly(w.nodes[u].handle.slots.cell, v);
  }

  /** No table has an entry for a handle. */
  lemma {:induction false} HandlesAreNoEntries(w: World, n: nat, v: nat)
    requires Fits(w) && n <= |w.nodes| && v < |w.nodes| && w.nodes[v].HandleNode?
    ensures Entries(w, n, v) == 0
  {
    if n > 0 {
      HandlesAreNoEntries(w, n - 1, v);
      if w.nodes[n - 1].HandleNode? { NodeHasNoEntry(w, n - 1, v); }
    }
  }

  // ---------- exact heaps ----------

  lemma EntriesPoint(w: World, cells: Cells, v: nat)
    requires SlotsPoint(w, cells) && v in ClosureIds(Filled(cells))
    ensures v < |w.nodes|
  {
    EntryExactly(cells, v);
    var i: Slot :| cells[i] == Some(Closure(v));
  }

  lemma HeapIsFormed(w: World)
    requires Fits(w)
    ensures Formed(HeapOf(w))
  {
    var h := HeapOf(w);
    forall u: nat, v: nat | u < |h.objects| && v in Children(h, u) ensures v < |h.objects| {
      var node := w.nodes[u];
      assert h.objects[u] == ObjectOf(node);
      if node.HandleNode? && v in ClosureIds(Filled(node.handle.slots.cell)) {
        assert HandleFits(w, u);
        EntriesPoint(w, node.handle.slots.cell, v);
      } else {
        assert v in Own(node);
      }
    }
  }

  /** A count falls short of the references by what is lacking; a handle's count never does. */
  lemma CountFallsShort(w: World, v: nat)
    requires Fits(w) && v < |w.nodes|
    ensures HeapOf(w).counts[v]
         == References(HeapOf(w), v) - if w.nodes[v].ClosureNode? then Lacks(w, |w.nodes|, v) else 0
  {
    var h := HeapOf(w);
    EdgesOf(w, |w.nodes|, v);
    assert h.counts[v] == CountOf(w, v) && h.objects[v] == ObjectOf(w.nodes[v]);
    if w.nodes[v].HandleNode? {
      assert HandleFits(w, v);
      HandlesAreNoEntries(w, |w.nodes|, v);
    } else {
      EntriesAreTaken(w, |w.nodes|, v);
    }
  }

  /**
    The counts are exact, and so trial deletion is right, exactly if no call of any
    handle's run has left a closure of the heap borrowed.
  */
  lemma HeapIsExact(w: World)
    requires Fits(w)
    ensures Exact(HeapOf(w))
        <==> forall v: nat :: v < |w.nodes| && w.nodes[v].ClosureNode? ==> Lacks(w, |w.nodes|, v) == 0
  {
    var h := HeapOf(w);
    HeapIsFormed(w);
    forall v: nat | v < |w.nodes|
      ensures h.counts[v] == References(h, v) <==> (w.nodes[v].ClosureNode? ==> Lacks(w, |w.nodes|, v) == 0)
    {
      CountFallsShort(w, v);
    }
    if forall v: nat :: v < |w.nodes| && w.nodes[v].ClosureNode? ==> Lacks(w, |w.nodes|, v) == 0 {
      forall v | 0 <= v < |h.objects| ensures h.counts[v] == References(h, v) { }
    } else {
      var v: nat :| v < |w.nodes| && w.nodes[v].ClosureNode? && Lacks(w, |w.nodes|, v) != 0;
      assert h.counts[v] != References(h, v);
    }
  }

  /** Handles whose slots own what they hold lack nothing. */
  ghost predicate AllOwned(w: World) {
    forall v: nat :: v < |w.nodes| && w.nodes[v].HandleNode? ==> Owned(w.nodes[v].handle.slots)
  }

  lemma {:induction false} OwnedLackNothing(w: World, n: nat, v: nat)
    requires Fits(w) && AllOwned(w) && n <= |w.nodes|
    ensures Lacks(w, n, v) == 0
  {
    if n > 0 {
      OwnedLackNothing(w, n - 1, v);
      if w.nodes[n - 1].HandleNode? {
        assert HandleFits(w, n - 1);
        OwnedExactly(w.nodes[n - 1].handle.slots);
      }
    }
  }

  /** An active handle is not collected, nor is anything it reaches, though only its own closures may
      refer to it; and nothing that a variable reaches is. */
  lemma ActiveHandleSurvives(w: World, roots: seq<nat>, v: nat, x: nat)
    requires Fits(w) && AllOwned(w) && v < |w.nodes| && Reaches(HeapOf(w), v, x)
    requires v in w.variables || (w.nodes[v].HandleNode? && w.nodes[v].handle.flags.internalRef)
    ensures Exact(HeapOf(w)) && !White(HeapOf(w), roots, x)
  {
    forall u: nat | u < |w.nodes| ensures Lacks(w, |w.nodes|, u) == 0 { OwnedLackNothing(w, |w.nodes|, u); }
    HeapIsExact(w);
    assert HeapOf(w).objects[v] == ObjectOf(w.nodes[v]);
    HeldSurvives(HeapOf(w), roots, v, x);
  }

  /** A handle that is not active, in a cycle with its closures that no variable and no active handle
      reaches, is collected with all of it. */
  lemma IdleCycleIsCollected(w: World, roots: seq<nat>, v: nat)
    requires Fits(w) && AllOwned(w) && v in Grey(HeapOf(w), roots)
    requires forall u: nat :: Reaches(HeapOf(w), u, v) ==>
               && u in Grey(HeapOf(w), roots) && u !in w.variables
               && (u < |w.nodes| && w.nodes[u].HandleNode? ==> !w.nodes[u].handle.flags.internalRef)
    ensures White(HeapOf(w), roots, v)
  {
    var h := HeapOf(w);
    forall u: nat | u < |w.nodes| ensures Lacks(w, |w.nodes|, u) == 0 { OwnedLackNothing(w, |w.nodes|, u); }
    HeapIsExact(w);
    forall u: nat | Reaches(h, u, v) ensures u in Grey(h, roots) && !HeldOutside(h, u) {
      assert u < |h.objects| ==> h.objects[u] == ObjectOf(w.nodes[u]);
    }
    NotHeldIsGarbage(h, roots, v);
  }

  // ---------- borrowed closures ----------

  /** What keeps an object alive from outside: for a handle a variable or its self-reference; for a
      closure more variables than there are references lacking on it. */
  ghost predicate Holds(w: World, u: nat)
    requires u < |w.nodes|
  {
    match w.nodes[u]
    case HandleNode(k, _) => u in w.variables || k.flags.internalRef
    case ClosureNode(_) => Count(w.variables, u) > Lacks(w, |w.nodes|, u)
  }

  lemma ResidualInAll(w: World, u: nat)
    requires Fits(w) && u < |w.nodes|
    ensures Residual(HeapOf(w), Nodes(HeapOf(w)), u) > 0 <==> Holds(w, u)
  {
    CountFallsShort(w, u);
    CountPositive(w.variables, u);
    assert HeapOf(w).objects[u] == ObjectOf(w.nodes[u]);
  }

  /**
    What is collected, exactly, of every heap of handles and closures, also where
    calls have left closures borrowed: with the roots reaching everything, what
    nothing held reaches. Each lacking reference on a closure outweighs one variable
    that holds it.
  */
  lemma CollectedOfAll(w: World, roots: seq<nat>, v: nat)
    requires Fits(w) && Grey(HeapOf(w), roots) == Nodes(HeapOf(w)) && v < |w.nodes|
    ensures White(HeapOf(w), roots, v)
        <==> forall u: nat :: u < |w.nodes| && Holds(w, u) ==> !Reaches(HeapOf(w), u, v)
  {
    forall u: nat | u < |w.nodes|
      ensures Residual(HeapOf(w), Nodes(HeapOf(w)), u) > 0 <==> Holds(w, u)
    {
      ResidualInAll(w, u);
    }
  }

  /** An unpinned handle that one reference holds, with one closure in its slots. */
  ghost predicate SoleSlot(k: Handle, i: Slot) {
    && Consistent(k) && k.refs.freed == 0 && k.refs.external == 1 && k.refs.frames == 0 && !k.flags.internalRef
    && k.slots.cell[i] == Some(Closure(1))
    && (forall j: Slot :: j != i ==> k.slots.cell[j].None?)
  }

  /** That handle, its closure, which captures it, and the variables that hold the closure. */
  function Couple(k: Handle, variables: seq<nat>): World { World([HandleNode(k, []), ClosureNode([0])], variables) }

  ghost predicate OnlyClosure(variables: seq<nat>) { forall v :: v in variables ==> v == 1 }

  lemma CoupleFits(k: Handle, i: Slot, variables: seq<nat>)
    requires SoleSlot(k, i) && OnlyClosure(variables)
    ensures var w := Couple(k, variables); Fits(w) && Lacks(w, 2, 1) == k.slots.borrowed[Closure(1)]
  {
    var w := Couple(k, variables);
    CountPositive(variables, 0);
    assert Own(w.nodes[0]) == [] && Own(w.nodes[1]) == [0] && Count([0], 0) == 1;
    assert Owns(w, 2, 0) == Owns(w, 1, 0) + 1 && Owns(w, 1, 0) == Owns(w, 0, 0) + 0;
    assert Lacks(w, 1, 1) == k.slots.borrowed[Closure(1)];
    assert SlotsPoint(w, k.slots.cell);
    assert HandleFits(w, 0);
  }

  /** The handle reaches both. */
  lemma CoupleIsGrey(k: Handle, i: Slot, variables: seq<nat>)
    requires SoleSlot(k, i) && Fits(Couple(k, variables))
    ensures Grey(HeapOf(Couple(k, variables)), [0]) == Nodes(HeapOf(Couple(k, variables)))
  {
    var w, h := Couple(k, variables), HeapOf(Couple(k, variables));
    assert h.objects[0] == ObjectOf(w.nodes[0]);
    EntryExactly(k.slots.cell, 1);
    ReachesSelf(h, 0);
    ReachesChild(h, 0, 0, 1);
    assert ReachedFrom(h, [0], 0) && ReachedFrom(h, [0], 1) by { assert [0][0] == 0; }
  }

  /** The two are collected if the closure has no more variables than references lacking on it. */
  lemma CoupleCollected(k: Handle, i: Slot, variables: seq<nat>, v: nat)
    requires SoleSlot(k, i) && OnlyClosure(variables) && v < 2
    requires Count(variables, 1) <= k.slots.borrowed[Closure(1)]
    ensures Fits(Couple(k, variables)) && White(HeapOf(Couple(k, variables)), [0], v)
  {
    var w := Couple(k, variables);
    CoupleFits(k, i, variables);
    CoupleIsGrey(k, i, variables);
    assert !Holds(w, 0) && !Holds(w, 1);
    CollectedOfAll(w, [0], v);
  }

  /** A slot that borrows its closure: the variable that holds the closure does not save it. */
  lemma HeldButCollected(k: Handle)
    requires SoleSlot(k, CONNECT) && k.slots.borrowed[Closure(1)] == 1
    ensures var w := Couple(k, [1]); Fits(w) && 1 in w.variables && White(HeapOf(w), [0], 1)
  {
    assert Count([1], 1) == 1 + Count([1][1..], 1) && Count([1][1..], 1) == 0;
    CoupleCollected(k, CONNECT, [1], 1);
  }

  /** An open handle that libuv reads from is collected like any other, although its counts are exact and
      nothing was closed, as long as only its own closures refer to it and it has not been pinned. */
  lemma OpenButCollected(k: Handle)
    requires SoleSlot(k, HANDSHAKE) && Owned(k.slots) && k.uv.reading && k.uv.closes == 0
    ensures var w := Couple(k, []); Fits(w) && Exact(HeapOf(w)) && White(HeapOf(w), [0], 0)
  {
    var w := Couple(k, []);
    OwnedExactly(k.slots);
    CoupleFits(k, HANDSHAKE, []);
    CoupleCollected(k, HANDSHAKE, [], 0);
    HeapIsExact(w);
  }

  /** Such a handle is an accepted one on which the handshake callback is all that is set. */
  lemma AcceptedIsOpen(start: Handle) returns (k: Handle)
    requires Reachable(start) && start.kind.Ssl? && start.refs.external == 1 && Callable(start)
    requires !start.flags.internalRef && start.uv.reading && start.uv.closes == 0
    requires (forall i: Slot :: start.slots.cell[i].None?) && start.slots.borrowed == multiset{}
    ensures Reachable(k) && k == Perform(start, SetHandshake(Some(Closure(1))))
    ensures SoleSlot(k, HANDSHAKE) && Owned(k.slots) && k.uv.reading && k.uv.closes == 0
  {
    var e;
    k, e := HandshakeSet(start);
    NextIsReachable(start, e);
    ReachableCounted(k);
    OwnedExactly(k.slots);
    OneSlot(start.slots.cell, k.slots.cell, HANDSHAKE);
  }

  lemma HandshakeSet(start: Handle) returns (k: Handle, e: Event)
    requires Callable(start) && start.kind.Ssl? && start.slots.borrowed == multiset{}
    ensures k == Step(start, e) == Perform(start, SetHandshake(Some(Closure(1))))
    ensures k == start.(slots := k.slots) && k.slots.borrowed == multiset{}
    ensures k.slots.cell == start.slots.cell[HANDSHAKE := Some(Closure(1))]
  {
    var a := SetHandshake(Some(Closure(1)));
    OneCall(start, a);
    k, e := Perform(start, a), UserCode([a]);
    assert k == start.(slots := Install(start.slots, HANDSHAKE, Closure(1)));
    assert (start.slots.borrowed + Weight(Some(Closure(1)))) - Weight(Some(Closure(1))) == start.slots.borrowed;
  }

  /** What `HeldButCollected` needs is what a refused `listen` leaves. */
  lemma RefusedListenBorrows(start: Handle, a: ListenArgs) returns (k: Handle)
    requires Reachable(start) && start.refs.external == 1 && Callable(start)
    requires !start.flags.internalRef && !start.flags.handleStart
    requires (forall i: Slot :: start.slots.cell[i].None?) && start.slots.borrowed == multiset{}
    requires a.fn == Closure(1) && ListenCode(start.kind, a) != 0
    ensures k == Perform(start, Listen(Some(a))) && Reachable(k)
    ensures SoleSlot(k, CONNECT) && k.slots.borrowed[Closure(1)] == 1
  {
    var e;
    k, e := RefusedListen(start, a);
    NextIsReachable(start, e);
    ReachableCounted(k);
    OneSlot(start.slots.cell, k.slots.cell, CONNECT);
  }

  lemma OneSlot(before: Cells, after: Cells, i: Slot)
    requires (forall j: Slot :: before[j].None?) && after == before[i := Some(Closure(1))]
    ensures after[i] == Some(Closure(1)) && forall j: Slot :: j != i ==> after[j].None?
  {
  }

  lemma RefusedListen(start: Handle, a: ListenArgs) returns (k: Handle, e: Event)
    requires Callable(start) && !start.flags.handleStart && start.slots.borrowed == multiset{}
    requires a.fn == Closure(1) && ListenCode(start.kind, a) != 0
    ensures k == Step(start, e) == Perform(start, Listen(Some(a)))
    ensures k == start.(slots := k.slots) && k.slots.borrowed[Closure(1)] == 1
    ensures k.slots.cell == start.slots.cell[CONNECT := Some(Closure(1))]
  {
    RefusedListenSlots(start, a);
    OneCall(start, Listen(Some(a)));
    k, e := Perform(start, Listen(Some(a))), UserCode([Listen(Some(a))]);
  }

  lemma RefusedListenSlots(start: Handle, a: ListenArgs)
    requires Callable(start) && !start.flags.handleStart && start.slots.borrowed == multiset{}
    requires a.fn == Closure(1) && ListenCode(start.kind, a) != 0
    ensures var k := Perform(start, Listen(Some(a)));
            && k == start.(slots := k.slots) && k.slots.borrowed[Closure(1)] == 1
            && k.slots.cell == start.slots.cell[CONNECT := Some(Closure(1))]
  {
    var freed := Free(start.slots, CONNECT);
    assert DoListen(start, Some(a)).0 == start.(slots := Fill(freed, CONNECT, a.fn));
    assert Perform(start, Listen(Some(a))) == DoListen(start, Some(a)).0;
  }
}
