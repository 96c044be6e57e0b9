/**
  Callback slots (`src/fcall.h`): the `fcall_info_t` cells of a handle, the
  references the extension takes and drops on the functions in them, and the
  table that the `get_gc` handlers report to the cycle collector.
*/
module Callbacks {
  import opened Basics

  /** A `function_name` zval: a reference-counted callable, or a plain function name. */
  datatype Fn = Closure(id: nat) | Named(name: string)

  const READ := 0
  const WRITE := 1
  const ERROR := 2
  const CONNECT := 3
  const SHUTDOWN := 4
  const SERVER_NAME := 5
  const HANDSHAKE := 6
  const TCP_SLOTS := 5
  const SLOTS := 7

  /** The cells, in the order of the collector's table; an empty cell has `fci.size == 0`. */
  type Cells = c: seq<Option<Fn>> | |c| == SLOTS
    witness [None, None, None, None, None, None, None]

  type Slot = i: nat | i < SLOTS

  const EMPTY_CELLS: Cells := [None, None, None, None, None, None, None]

  /** The cells, with every reference the extension has taken and dropped through them, and the
      functions that were parsed into them without a reference. */
  datatype Slots = Slots(cell: Cells, taken: multiset<Fn>, dropped: multiset<Fn>, borrowed: multiset<Fn>)

  const EMPTY := Slots(EMPTY_CELLS, multiset{}, multiset{}, multiset{})

  /** The reference that a function in a cell stands for: names are not counted. */
  function Weight(f: Option<Fn>): multiset<Fn> {
    if f.Some? && f.value.Closure? then multiset{f.value} else multiset{}
  }

  /** What `zend_parse_parameters` does: the cell now holds the function, without a reference. */
  function Fill(s: Slots, i: Slot, f: Fn): Slots {
    s.(cell := s.cell[i := Some(f)], borrowed := s.borrowed + Weight(Some(f)))
  }

  /** `FCI_ADDREF`: what was borrowed is owned from now on. */
  function AddRef(s: Slots, i: Slot): Slots {
    s.(taken := s.taken + Weight(s.cell[i]), borrowed := s.borrowed - Weight(s.cell[i]))
  }

  /** `freeFunctionCache`. */
  function Free(s: Slots, i: Slot): Slots {
    s.(dropped := s.dropped + Weight(s.cell[i]), cell := s.cell[i := None])
  }

  function FreeFirst(s: Slots, n: nat): (r: Slots)
    requires n <= SLOTS
    ensures forall i :: 0 <= i < n ==> r.cell[i].None?
    ensures forall i :: n <= i < SLOTS ==> r.cell[i] == s.cell[i]
  {
    if n == 0 then s else Free(FreeFirst(s, n - 1), n - 1)
  }

  /** Parse a callable into the cell and own it. */
  function Install(s: Slots, i: Slot, f: Fn): Slots {
    AddRef(Fill(Free(s, i), i, f), i)
  }

  // ---------- ownership ----------

  /** The references the filled cells stand for. */
  function Held(cells: seq<Option<Fn>>): multiset<Fn> {
    if cells == [] then multiset{} else Weight(cells[0]) + Held(cells[1..])
  }

  lemma {:induction false} NothingHeld(cells: seq<Option<Fn>>)
    requires forall i :: 0 <= i < |cells| ==> cells[i].None?
    ensures Held(cells) == multiset{}
  {
    if cells != [] { NothingHeld(cells[1..]); }
  }

  /** What was taken on a function beyond what was dropped or stands in a cell. */
  function Excess(s: Slots, f: Fn): int { s.taken[f] as int - s.dropped[f] - Held(s.cell)[f] }

  /** Every reference taken has been dropped once or is owned by exactly one filled cell. */
  ghost predicate Owned(s: Slots) {
    forall f :: Excess(s, f) == 0
  }

  /** The same, but for the functions that were parsed without a reference. */
  ghost predicate Accounted(s: Slots) {
    forall f {:trigger Excess(s, f)} :: Excess(s, f) + s.borrowed[f] == 0
  }

  lemma Commute(a: multiset<Fn>, b: multiset<Fn>, c: multiset<Fn>)
    ensures (a + b) + c == (c + b) + a
  {
  }

  lemma {:induction false} HeldUpdate(cells: seq<Option<Fn>>, i: nat, f: Option<Fn>)
    requires i < |cells|
    ensures Held(cells[i := f]) + Weight(cells[i]) == Held(cells) + Weight(f)
  {
    var tail, head, updated := cells[1..], Weight(cells[0]), cells[i := f];
    if i == 0 {
      assert updated[1..] == tail;
      Commute(Weight(f), Held(tail), head);
    } else {
      HeldUpdate(tail, i - 1, f);
      var tail' := tail[i - 1 := f];
      assert updated[1..] == tail' && updated[0] == cells[0];
      assert (head + Held(tail')) + Weight(cells[i]) == head + (Held(tail') + Weight(cells[i]));
      assert (head + Held(tail)) + Weight(f) == head + (Held(tail) + Weight(f));
    }
  }

  lemma HeldUpdateAt(cells: seq<Option<Fn>>, i: nat, f: Option<Fn>, g: Fn)
    requires i < |cells|
    ensures Held(cells[i := f])[g] + Weight(cells[i])[g] == Held(cells)[g] + Weight(f)[g]
  {
    HeldUpdate(cells, i, f);
    assert (Held(cells[i := f]) + Weight(cells[i]))[g] == (Held(cells) + Weight(f))[g];
  }

  lemma FreeExcess(s: Slots, i: Slot, f: Fn)
    ensures Excess(Free(s, i), f) == Excess(s, f)
  {
    HeldUpdateAt(s.cell, i, None, f);
  }

  lemma FillExcess(s: Slots, i: Slot, f: Fn, g: Fn)
    requires s.cell[i].None?
    ensures Excess(Fill(s, i, f), g) == Excess(s, g) - Weight(Some(f))[g]
  {
    HeldUpdateAt(s.cell, i, Some(f), g);
  }

  lemma AddRefExcess(s: Slots, i: Slot, f: Fn)
    ensures Excess(AddRef(s, i), f) == Excess(s, f) + Weight(s.cell[i])[f]
  {
  }

  /** Accounted slots are owned exactly if nothing is borrowed. */
  lemma OwnedExactly(s: Slots)
    requires Accounted(s)
    ensures Owned(s) <==> s.borrowed == multiset{}
  {
    if Owned(s) {
      forall f ensures s.borrowed[f] == 0 { assert Excess(s, f) == 0; }
    }
  }

  /** Releasing a cell drops the reference it stood for, and once only. */
  lemma FreeKeepsAccount(s: Slots, i: Slot)
    ensures Accounted(s) <==> Accounted(Free(s, i))
    ensures Owned(s) <==> Owned(Free(s, i))
    ensures Free(Free(s, i), i) == Free(s, i)
  {
    forall f ensures Excess(Free(s, i), f) == Excess(s, f) { FreeExcess(s, i, f); }
    assert Free(s, i).cell[i := None] == Free(s, i).cell;
    assert Free(s, i).dropped + multiset{} == Free(s, i).dropped;
  }

  lemma {:induction false} FreeFirstKeepsAccount(s: Slots, n: nat)
    requires n <= SLOTS
    ensures Accounted(s) <==> Accounted(FreeFirst(s, n))
    ensures Owned(s) <==> Owned(FreeFirst(s, n))
    ensures FreeFirst(s, n).borrowed == s.borrowed
  {
    if n > 0 {
      var t := FreeFirst(s, n - 1);
      assert FreeFirst(s, n) == Free(t, n - 1);
      FreeFirstKeepsAccount(s, n - 1);
      FreeKeepsAccount(t, n - 1);
    }
  }

  /** Parsing into an empty cell borrows: the slots stay owned only if a plain name is parsed. */
  lemma FillBorrows(s: Slots, i: Slot, f: Fn)
    requires s.cell[i].None? && Accounted(s)
    ensures Accounted(Fill(s, i, f))
    ensures Owned(Fill(s, i, f)) <==> Owned(s) && f.Named?
  {
    var t := Fill(s, i, f);
    forall g ensures Excess(t, g) + t.borrowed[g] == 0 { FillExcess(s, i, f, g); }
    OwnedExactly(s);
    OwnedExactly(t);
    if f.Closure? { assert t.borrowed[f] > 0; }
  }

  /** Adding the reference gives back what was borrowed for the cell. */
  lemma AddRefRepays(s: Slots, i: Slot)
    requires Accounted(s) && Weight(s.cell[i]) <= s.borrowed
    ensures Accounted(AddRef(s, i))
  {
    var t := AddRef(s, i);
    forall f ensures Excess(t, f) + t.borrowed[f] == 0 {
      AddRefExcess(s, i, f);
      assert Weight(s.cell[i])[f] <= s.borrowed[f];
    }
  }

  /** Replacing a callback releases the old reference, takes a new one, and borrows nothing. */
  lemma InstallKeepsAccount(s: Slots, i: Slot, f: Fn)
    requires Accounted(s)
    ensures Accounted(Install(s, i, f)) && Install(s, i, f).borrowed == s.borrowed
  {
    FreeKeepsAccount(s, i);
    FillBorrows(Free(s, i), i, f);
    AddRefRepays(Fill(Free(s, i), i, f), i);
    assert (s.borrowed + Weight(Some(f))) - Weight(Some(f)) == s.borrowed;
  }

  /** The references on a closure. */
  lemma AccountedOccurrences(s: Slots, f: Fn)
    requires Accounted(s) && f.Closure?
    ensures s.taken[f] + s.borrowed[f] == s.dropped[f] + Occurrences(s.cell, f)
  {
    assert Excess(s, f) + s.borrowed[f] == 0;
    TableIsExact(s.cell, f);
  }

  // ---------- the collector's table ----------

  /** The functions of the filled cells, in order. */
  function Filled(cells: seq<Option<Fn>>): (table: seq<Fn>)
    ensures |table| <= |cells|
  {
    if cells == [] then []
    else (if cells[0].Some? then [cells[0].value] else []) + Filled(cells[1..])
  }

  lemma {:induction false} FilledAppend(a: seq<Option<Fn>>, b: seq<Option<Fn>>)
    ensures Filled(a + b) == Filled(a) + Filled(b)
  {
    if a == [] {
      assert a + b == b;
    } else {
      FilledAppend(a[1..], b);
      assert (a + b)[1..] == a[1..] + b;
      var head := if a[0].Some? then [a[0].value] else [];
      Regroup(head, Filled(a[1..]), Filled(b));
    }
  }

  lemma FilledSnoc(cells: seq<Option<Fn>>, n: nat)
    requires n < |cells|
    ensures Filled(cells[..n + 1])
         == Filled(cells[..n]) + if cells[n].Some? then [cells[n].value] else []
  {
    FilledAppend(cells[..n], [cells[n]]);
    assert cells[..n + 1] == cells[..n] + [cells[n]];
    assert [cells[n]][1..] == [];
  }

  /** Empty cells add nothing to the table. */
  lemma {:induction false} EmptyTail(cells: seq<Option<Fn>>, n: nat)
    requires n <= |cells| && forall i :: n <= i < |cells| ==> cells[i].None?
    ensures Filled(cells[..n]) == Filled(cells)
    decreases |cells| - n
  {
    if n == |cells| {
      assert cells[..n] == cells;
    } else {
      FilledSnoc(cells, n);
      EmptyTail(cells, n + 1);
    }
  }

  /** How many cells hold `f`. */
  function Occurrences(cells: seq<Option<Fn>>, f: Fn): nat {
    if cells == [] then 0 else Bit(cells[0] == Some(f)) + Occurrences(cells[1..], f)
  }

  lemma {:induction false} EmptyHoldsNone(cells: seq<Option<Fn>>, f: Fn)
    requires forall i :: 0 <= i < |cells| ==> cells[i].None?
    ensures Occurrences(cells, f) == 0
  {
    if cells != [] { EmptyHoldsNone(cells[1..], f); }
  }

  /** The table reports each function as often as cells hold it; for a counted function that
      is the number of references the cells stand for. */
  lemma {:induction false} TableIsExact(cells: seq<Option<Fn>>, f: Fn)
    ensures multiset(Filled(cells))[f] == Occurrences(cells, f)
    ensures f.Closure? ==> Held(cells)[f] == Occurrences(cells, f)
  {
    if cells != [] {
      TableIsExact(cells[1..], f);
      var head := if cells[0].Some? then [cells[0].value] else [];
      assert multiset(Filled(cells)) == multiset(head) + multiset(Filled(cells[1..]));
    }
  }
}
