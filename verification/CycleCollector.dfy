/**
  The handles and their closures before the cycle collector. The `get_gc`
  handlers report exactly the filled callback slots, and not the handle's
  reference on itself; this module proves what trial deletion then collects.
  That the reference counts are what it takes them for is proved of whole heaps
  of reachable handles in `HandleHeaps.dfy`.
*/
module CycleCollector {
  import opened Basics
  import opened Callbacks

  /** An object of the heap: a stream handle with its slots, or a closure with what it captured.
      `properties` are the handle's PHP properties; a closure in a slot is an object by its id. */
  datatype Object =
    | StreamObject(cells: Cells, pinned: bool, properties: seq<nat>)
    | ClosureObject(captured: seq<nat>)

  /** The heap, the objects that PHP variables refer to, and the reference counts. */
  datatype Heap = Heap(objects: seq<Object>, variables: seq<nat>, counts: seq<int>)

  function ClosureIds(table: seq<Fn>): seq<nat> {
    if table == [] then []
    else (if table[0].Closure? then [table[0].id] else []) + ClosureIds(table[1..])
  }

  /** What the collector sees of an object: the table and the properties that `get_gc` returns. */
  function Reported(o: Object): seq<nat> {
    match o
    case StreamObject(cells, _, properties) => ClosureIds(Filled(cells)) + properties
    case ClosureObject(captured) => captured
  }

  function Children(h: Heap, u: nat): seq<nat>
    requires u < |h.objects|
  {
    Reported(h.objects[u])
  }

  function Count(s: seq<nat>, v: nat): nat {
    if s == [] then 0 else Bit(s[0] == v) + Count(s[1..], v)
  }

  lemma {:induction false} CountPositive(s: seq<nat>, v: nat)
    ensures Count(s, v) > 0 <==> v in s
  {
    if s != [] { CountPositive(s[1..], v); }
  }

  /** The references to `v` from the objects of `from` below `k`. */
  function Edges(h: Heap, k: nat, from: set<nat>, v: nat): nat
    requires k <= |h.objects|
  {
    if k == 0 then 0
    else Edges(h, k - 1, from, v) + (if k - 1 in from then Count(Children(h, k - 1), v) else 0)
  }

  function Below(k: nat): (nodes: set<nat>)
    ensures forall v: nat :: v in nodes <==> v < k
  {
    if k == 0 then {} else Below(k - 1) + {k - 1}
  }

  function Nodes(h: Heap): set<nat> { Below(|h.objects|) }

  predicate Pinned(h: Heap, v: nat)
    requires v < |h.objects|
  {
    h.objects[v].StreamObject? && h.objects[v].pinned
  }

  ghost predicate Formed(h: Heap) {
    && |h.counts| == |h.objects|
    && (forall v :: v in h.variables ==> v < |h.objects|)
    && (forall u, v :: 0 <= u < |h.objects| && v in Children(h, u) ==> v < |h.objects|)
  }

  /** What refers to an object: variables, objects, and itself if it is a pinned handle. */
  function References(h: Heap, v: nat): nat
    requires v < |h.objects|
  {
    Count(h.variables, v) + Edges(h, |h.objects|, Nodes(h), v) + Bit(Pinned(h, v))
  }

  /** Every count is the number of references. */
  ghost predicate Exact(h: Heap) {
    Formed(h) && forall v :: 0 <= v < |h.objects| ==> h.counts[v] == References(h, v)
  }

  lemma {:induction false} EdgesSplit(h: Heap, k: nat, s: set<nat>, t: set<nat>, v: nat)
    requires k <= |h.objects| && s !! t
    ensures Edges(h, k, s + t, v) == Edges(h, k, s, v) + Edges(h, k, t, v)
  {
    if k > 0 { EdgesSplit(h, k - 1, s, t, v); }
  }

  lemma {:induction false} EdgesPositive(h: Heap, k: nat, s: set<nat>, v: nat)
    requires k <= |h.objects|
    ensures Edges(h, k, s, v) > 0 <==> exists u: nat :: u < k && u in s && v in Children(h, u)
  {
    if k > 0 {
      EdgesPositive(h, k - 1, s, v);
      CountPositive(Children(h, k - 1), v);
    }
  }

  lemma {:induction false} EdgesOfOne(h: Heap, k: nat, u: nat, v: nat)
    requires k <= |h.objects| && u < |h.objects|
    ensures Edges(h, k, {u}, v) == if u < k then Count(Children(h, u), v) else 0
  {
    if k > 0 { EdgesOfOne(h, k - 1, u, v); }
  }

  // ---------- paths ----------

  ghost predicate IsPath(h: Heap, p: seq<nat>) {
    && p != []
    && (forall i :: 0 <= i < |p| ==> p[i] < |h.objects|)
    && (forall i :: 0 <= i < |p| - 1 ==> p[i + 1] in Children(h, p[i]))
  }

  ghost predicate Reaches(h: Heap, u: nat, v: nat) {
    exists p :: IsPath(h, p) && p[0] == u && p[|p| - 1] == v
  }

  ghost predicate ReachedFrom(h: Heap, roots: seq<nat>, v: nat) {
    exists i :: 0 <= i < |roots| && Reaches(h, roots[i], v)
  }

  lemma ReachesSelf(h: Heap, u: nat)
    requires u < |h.objects|
    ensures Reaches(h, u, u)
  {
    assert IsPath(h, [u]);
  }

  lemma ReachesChild(h: Heap, u: nat, v: nat, w: nat)
    requires Reaches(h, u, v) && v < |h.objects| && w in Children(h, v) && w < |h.objects|
    ensures Reaches(h, u, w)
  {
    var p :| IsPath(h, p) && p[0] == u && p[|p| - 1] == v;
    var q := p + [w];
    forall i | 0 <= i < |q| - 1 ensures q[i + 1] in Children(h, q[i]) {
      if i < |p| - 1 { assert q[i + 1] == p[i + 1] && q[i] == p[i]; }
    }
    assert IsPath(h, q) && q[0] == u && q[|q| - 1] == w;
  }

  ghost predicate Closed(h: Heap, s: set<nat>) {
    forall u, v :: u in s && u < |h.objects| && v in Children(h, u) ==> v in s
  }

  lemma ClosedHoldsReached(h: Heap, s: set<nat>, u: nat, v: nat)
    requires Closed(h, s) && u in s && Reaches(h, u, v)
    ensures v in s
  {
    var p :| IsPath(h, p) && p[0] == u && p[|p| - 1] == v;
    PathStays(h, s, p, |p| - 1);
  }

  lemma {:induction false} PathStays(h: Heap, s: set<nat>, p: seq<nat>, k: nat)
    requires Closed(h, s) && IsPath(h, p) && p[0] in s && k < |p|
    ensures p[k] in s
  {
    if k > 0 {
      PathStays(h, s, p, k - 1);
      assert p[(k - 1) + 1] in Children(h, p[k - 1]);
    }
  }

  // ---------- trial deletion ----------

  /** Take one reference away from each child. */
  method Subtract(residual: seq<int>, children: seq<nat>) returns (r: seq<int>)
    requires forall v: nat :: v in children ==> v < |residual|
    ensures |r| == |residual|
    ensures forall v :: 0 <= v < |r| ==> r[v] == residual[v] - Count(children, v)
  {
    r := residual;
    var rest: seq<nat> := children;
    while rest != []
      invariant |r| == |residual| && (forall v: nat :: v in rest ==> v < |residual|)
      invariant forall v :: 0 <= v < |r| ==> r[v] - Count(rest, v) == residual[v] - Count(children, v)
      decreases |rest|
    {
      var u: nat := rest[0];
      assert u in rest && forall v: nat :: v in rest[1..] ==> v in rest;
      r := r[u := r[u] - 1];
      rest := rest[1..];
    }
  }

  /** Between two visits: everything met is reached from the roots, and what the visited objects
      report is visited or waiting. */
  ghost predicate MarkOk(h: Heap, roots: seq<nat>, grey: set<nat>, todo: seq<nat>) {
    && grey <= Nodes(h)
    && (forall v: nat :: v in todo ==> v < |h.objects|)
    && (forall i :: 0 <= i < |roots| ==> roots[i] in grey || roots[i] in todo)
    && (forall u: nat, v: nat :: u in grey && v in Children(h, u) ==> v in grey || v in todo)
    && (forall v: nat :: v in grey || v in todo ==> ReachedFrom(h, roots, v))
  }

  /** The count of `v`, less the references that the objects of `grey` report. */
  function Residual(h: Heap, grey: set<nat>, v: nat): int
    requires |h.counts| == |h.objects| && v < |h.objects|
  {
    h.counts[v] - Edges(h, |h.objects|, grey, v)
  }

  ghost predicate Subtracted(h: Heap, grey: set<nat>, residual: seq<int>)
    requires |h.counts| == |h.objects|
  {
    && |residual| == |h.objects|
    && forall v: nat :: v < |h.objects| ==> residual[v] == Residual(h, grey, v)
  }

  lemma MarkStarts(h: Heap, roots: seq<nat>)
    requires Formed(h) && forall i :: 0 <= i < |roots| ==> roots[i] < |h.objects|
    ensures MarkOk(h, roots, {}, roots) && Subtracted(h, {}, h.counts)
  {
    forall v: nat | v in roots ensures ReachedFrom(h, roots, v) {
      var i :| 0 <= i < |roots| && roots[i] == v;
      ReachesSelf(h, roots[i]);
    }
    forall v: nat | v < |h.objects| ensures Edges(h, |h.objects|, {}, v) == 0 {
      EdgesPositive(h, |h.objects|, {}, v);
    }
  }

  lemma HeadAndTail(todo: seq<nat>, v: nat)
    requires todo != []
    ensures v in todo <==> v == todo[0] || v in todo[1..]
  {
    if v in todo && v != todo[0] {
      var i :| 0 <= i < |todo| && todo[i] == v;
      assert todo[1..][i - 1] == v;
    }
  }

  lemma MarkSkips(h: Heap, roots: seq<nat>, grey: set<nat>, todo: seq<nat>)
    requires MarkOk(h, roots, grey, todo) && todo != [] && todo[0] in grey
    ensures MarkOk(h, roots, grey, todo[1..])
  {
    forall v: nat ensures v in todo <==> v == todo[0] || v in todo[1..] { HeadAndTail(todo, v); }
    forall i | 0 <= i < |roots| ensures roots[i] in grey || roots[i] in todo[1..] {
      HeadAndTail(todo, roots[i]);
    }
  }

  /** What waits after a visit: what waited before, and the children. */
  lemma Waiting(todo: seq<nat>, children: seq<nat>, v: nat)
    requires todo != []
    ensures v in todo[1..] + children <==> v in todo[1..] || v in children
    ensures v in todo ==> v == todo[0] || v in todo[1..] + children
  {
    HeadAndTail(todo, v);
  }

  lemma ChildReached(h: Heap, roots: seq<nat>, u: nat, v: nat)
    requires Formed(h) && u < |h.objects| && ReachedFrom(h, roots, u) && v in Children(h, u)
    ensures v < |h.objects| && ReachedFrom(h, roots, v)
  {
    var i :| 0 <= i < |roots| && Reaches(h, roots[i], u);
    ReachesChild(h, roots[i], u, v);
  }

  lemma MarkVisits(h: Heap, roots: seq<nat>, grey: set<nat>, todo: seq<nat>, u: nat, rest: seq<nat>)
    requires Formed(h) && MarkOk(h, roots, grey, todo) && todo != [] && u == todo[0] && u < |h.objects|
    requires rest == todo[1..] + Children(h, u)
    ensures MarkOk(h, roots, grey + {u}, rest)
  {
    HeadAndTail(todo, u);
    forall v: nat ensures v in todo ==> v == u || v in rest { Waiting(todo, Children(h, u), v); }
    forall v: nat ensures v in Children(h, u) ==> v in rest { Waiting(todo, Children(h, u), v); }
    forall v: nat | v in rest ensures v < |h.objects| && ReachedFrom(h, roots, v) {
      Waiting(todo, Children(h, u), v);
      if v in Children(h, u) { ChildReached(h, roots, u, v); } else { HeadAndTail(todo, v); }
    }
    forall i | 0 <= i < |roots| ensures roots[i] in grey + {u} || roots[i] in rest {
      Waiting(todo, Children(h, u), roots[i]);
    }
  }

  lemma SubtractVisits(h: Heap, grey: set<nat>, residual: seq<int>, u: nat, r: seq<int>)
    requires Formed(h) && Subtracted(h, grey, residual) && u < |h.objects| && u !in grey
    requires |r| == |residual|
    requires forall v: nat :: v < |r| ==> r[v] == residual[v] - Count(Children(h, u), v)
    ensures Subtracted(h, grey + {u}, r)
  {
    forall v: nat | v < |h.objects| ensures r[v] == Residual(h, grey + {u}, v) {
      EdgesSplit(h, |h.objects|, grey, {u}, v);
      EdgesOfOne(h, |h.objects|, u, v);
    }
  }

  /** What the roots reach. */
  ghost function Grey(h: Heap, roots: seq<nat>): set<nat> {
    set v: nat | v < |h.objects| && ReachedFrom(h, roots, v)
  }

  lemma MarkEnds(h: Heap, roots: seq<nat>, grey: set<nat>)
    requires MarkOk(h, roots, grey, [])
    ensures grey == Grey(h, roots)
  {
    forall v: nat | ReachedFrom(h, roots, v) ensures v in grey {
      var i :| 0 <= i < |roots| && Reaches(h, roots[i], v);
      ClosedHoldsReached(h, grey, roots[i], v);
    }
  }

  /** Mark grey: visit what the roots reach, taking away every reported reference on the way. */
  method MarkGrey(h: Heap, roots: seq<nat>) returns (grey: set<nat>, residual: seq<int>)
    requires Formed(h) && forall i :: 0 <= i < |roots| ==> roots[i] < |h.objects|
    ensures grey == Grey(h, roots)
    ensures Subtracted(h, grey, residual)
  {
    grey, residual := {}, h.counts;
    var todo := roots;
    MarkStarts(h, roots);
    while todo != []
      invariant MarkOk(h, roots, grey, todo) && Subtracted(h, grey, residual)
      decreases Nodes(h) - grey, |todo|
    {
      var u := todo[0];
      assert u in todo;
      if u in grey {
        MarkSkips(h, roots, grey, todo);
        todo := todo[1..];
      } else {
        MarkVisits(h, roots, grey, todo, u, todo[1..] + Children(h, u));
        var r := Subtract(residual, Children(h, u));
        SubtractVisits(h, grey, residual, u, r);
        assert u in Nodes(h) - grey;
        todo := todo[1..] + Children(h, u);
        grey, residual := grey + {u}, r;
      }
    }
    MarkEnds(h, roots, grey);
  }

  /** Something that trial deletion does not take away holds `v`: a variable, the self-reference, or
      an object the roots do not reach. */
  ghost predicate Anchored(h: Heap, grey: set<nat>, v: nat)
    requires v < |h.objects|
  {
    || v in h.variables
    || Pinned(h, v)
    || exists u: nat :: u < |h.objects| && u !in grey && v in Children(h, u)
  }

  lemma ResidualMeansAnchored(h: Heap, grey: set<nat>, v: nat)
    requires Exact(h) && grey <= Nodes(h) && v < |h.objects|
    ensures Residual(h, grey, v) > 0 <==> Anchored(h, grey, v)
    ensures Residual(h, grey, v) >= 0
  {
    var others := Nodes(h) - grey;
    assert Nodes(h) == grey + others;
    EdgesSplit(h, |h.objects|, grey, others, v);
    EdgesPositive(h, |h.objects|, others, v);
    CountPositive(h.variables, v);
  }

  ghost predicate ReachedBy(h: Heap, keep: set<nat>, v: nat) {
    exists u: nat :: u in keep && Reaches(h, u, v)
  }

  ghost predicate ScanOk(h: Heap, keep: set<nat>, black: set<nat>, todo: set<nat>) {
    && black <= Nodes(h) && todo <= Nodes(h) && black !! todo
    && keep <= black + todo
    && (forall u: nat, v: nat :: u in black && v in Children(h, u) ==> v in black || v in todo)
    && (forall v: nat :: v in black || v in todo ==> ReachedBy(h, keep, v))
  }

  lemma ScanStarts(h: Heap, keep: set<nat>)
    requires keep <= Nodes(h)
    ensures ScanOk(h, keep, {}, keep)
  {
    forall v: nat | v in keep ensures ReachedBy(h, keep, v) {
      ReachesSelf(h, v);
    }
  }

  lemma ScanVisits(h: Heap, keep: set<nat>, black: set<nat>, todo: set<nat>, u: nat, children: set<nat>)
    requires Formed(h) && ScanOk(h, keep, black, todo) && u in todo
    requires forall v: nat :: v in children <==> v in Children(h, u)
    ensures ScanOk(h, keep, black + {u}, (todo + children) - (black + {u}))
  {
    var w: nat :| w in keep && Reaches(h, w, u);
    forall v: nat | v in children ensures v < |h.objects| && ReachedBy(h, keep, v) {
      ReachesChild(h, w, u, v);
    }
  }

  lemma ScanEnds(h: Heap, keep: set<nat>, black: set<nat>)
    requires ScanOk(h, keep, black, {})
    ensures forall v: nat :: v in black <==> ReachedBy(h, keep, v)
  {
    forall v: nat | ReachedBy(h, keep, v) ensures v in black {
      var u: nat :| u in keep && Reaches(h, u, v);
      ClosedHoldsReached(h, black, u, v);
    }
  }

  /** Scan black: everything that the kept objects reach is kept. */
  method ScanBlack(h: Heap, keep: set<nat>) returns (black: set<nat>)
    requires Formed(h) && keep <= Nodes(h)
    ensures forall v: nat :: v in black <==> ReachedBy(h, keep, v)
  {
    black := {};
    var todo := keep;
    ScanStarts(h, keep);
    while todo != {}
      invariant ScanOk(h, keep, black, todo)
      decreases Nodes(h) - black
    {
      var u: nat :| u in todo;
      var children: set<nat> := set v: nat | v in Children(h, u);
      ScanVisits(h, keep, black, todo, u, children);
      assert u in Nodes(h) - black;
      black := black + {u};
      todo := (todo + children) - black;
    }
    ScanEnds(h, keep, black);
  }

  /** What trial deletion from `roots` frees: what the roots reach, and nothing with a count left
      reaches. This is what the algorithm does, whether or not the counts are right. */
  ghost predicate White(h: Heap, roots: seq<nat>, v: nat)
    requires |h.counts| == |h.objects|
  {
    && v in Grey(h, roots)
    && forall u: nat :: u in Grey(h, roots) && Residual(h, Grey(h, roots), u) > 0 ==> !Reaches(h, u, v)
  }

  /** Trial deletion: mark grey, scan, and collect the white objects. */
  method Collect(h: Heap, roots: seq<nat>) returns (white: set<nat>)
    requires Formed(h) && forall i :: 0 <= i < |roots| ==> roots[i] < |h.objects|
    ensures forall v: nat :: v in white <==> White(h, roots, v)
  {
    var grey, residual := MarkGrey(h, roots);
    var keep := set v | v in grey && residual[v] > 0;
    var black := ScanBlack(h, keep);
    white := grey - black;
  }

  /** What the roots reach, and nothing anchored reaches. */
  ghost predicate Garbage(h: Heap, roots: seq<nat>, v: nat) {
    && v in Grey(h, roots)
    && forall u: nat :: u in Grey(h, roots) && Anchored(h, Grey(h, roots), u) ==> !Reaches(h, u, v)
  }

  /** With right counts, the white objects are the garbage. */
  lemma WhiteIsGarbage(h: Heap, roots: seq<nat>, v: nat)
    requires Exact(h)
    ensures White(h, roots, v) <==> Garbage(h, roots, v)
  {
    var grey := Grey(h, roots);
    forall u: nat | u in grey ensures Residual(h, grey, u) > 0 <==> Anchored(h, grey, u) {
      ResidualMeansAnchored(h, grey, u);
    }
  }

  // ---------- what is collected ----------

  ghost predicate HeldOutside(h: Heap, v: nat) {
    v < |h.objects| && (v in h.variables || Pinned(h, v))
  }

  lemma ReachesOnward(h: Heap, u: nat, v: nat, w: nat)
    requires u < |h.objects| && v in Children(h, u) && Reaches(h, v, w)
    ensures Reaches(h, u, w)
  {
    var p :| IsPath(h, p) && p[0] == v && p[|p| - 1] == w;
    var q := [u] + p;
    forall i | 0 <= i < |q| - 1 ensures q[i + 1] in Children(h, q[i]) {
      if i > 0 { assert q[i + 1] == p[(i - 1) + 1] && q[i] == p[i - 1]; }
    }
    assert IsPath(h, q) && q[0] == u && q[|q| - 1] == w;
  }

  /** The part of a path from `i` on. */
  lemma SuffixReaches(h: Heap, p: seq<nat>, i: nat)
    requires IsPath(h, p) && i < |p|
    ensures Reaches(h, p[i], p[|p| - 1])
  {
    var q := p[i..];
    forall j | 0 <= j < |q| - 1 ensures q[j + 1] in Children(h, q[j]) {
      assert q[j + 1] == p[(i + j) + 1] && q[j] == p[i + j];
    }
    assert IsPath(h, q) && q[0] == p[i] && q[|q| - 1] == p[|p| - 1];
  }

  /** Where a path that starts outside the grey objects comes to its grey end, it is anchored. */
  lemma {:induction false} PathIsAnchored(h: Heap, grey: set<nat>, p: seq<nat>, k: nat) returns (u: nat)
    requires IsPath(h, p) && k < |p| && p[k] in grey
    requires p[0] in grey ==> Anchored(h, grey, p[0])
    ensures u in grey && u < |h.objects| && Anchored(h, grey, u) && Reaches(h, u, p[|p| - 1])
  {
    if k == 0 {
      u := p[0];
      SuffixReaches(h, p, 0);
    } else if p[k - 1] in grey {
      u := PathIsAnchored(h, grey, p, k - 1);
    } else {
      u := p[k];
      assert p[(k - 1) + 1] in Children(h, p[k - 1]);
      SuffixReaches(h, p, k);
    }
  }

  /**
    Cycle-collector safety. Whatever the roots, nothing that a PHP variable or a
    handle with its self-reference set reaches is collected; the handle itself
    included, even if only its own closures refer to it.
  */
  lemma HeldSurvives(h: Heap, roots: seq<nat>, v: nat, w: nat)
    requires Exact(h) && HeldOutside(h, v) && Reaches(h, v, w)
    ensures !White(h, roots, w)
  {
    WhiteIsGarbage(h, roots, w);
    var grey := Grey(h, roots);
    if w in grey {
      var p :| IsPath(h, p) && p[0] == v && p[|p| - 1] == w;
      var u := PathIsAnchored(h, grey, p, |p| - 1);
    }
  }

  /**
    What is collected, exactly: when the roots reach every object, the garbage
    is what neither a variable nor a handle with its self-reference set reaches.
  */
  lemma CollectedExactly(h: Heap, roots: seq<nat>, v: nat)
    requires Exact(h) && Grey(h, roots) == Nodes(h) && v < |h.objects|
    ensures White(h, roots, v) <==> forall u: nat :: HeldOutside(h, u) ==> !Reaches(h, u, v)
  {
    forall u: nat | HeldOutside(h, u) && Reaches(h, u, v) ensures !White(h, roots, v) {
      HeldSurvives(h, roots, u, v);
    }
    if forall u: nat :: HeldOutside(h, u) ==> !Reaches(h, u, v) {
      NotHeldIsGarbage(h, roots, v);
    }
  }

  /** An object that the roots reach is collected if all that reaches it is reached by the roots
      and held by nothing outside, as a released handle in a cycle with its closures is. */
  lemma NotHeldIsGarbage(h: Heap, roots: seq<nat>, v: nat)
    requires Exact(h) && v in Grey(h, roots)
    requires forall u: nat :: Reaches(h, u, v) ==> u in Grey(h, roots) && !HeldOutside(h, u)
    ensures White(h, roots, v)
  {
    WhiteIsGarbage(h, roots, v);
    var grey := Grey(h, roots);
    forall u: nat | u in grey && Anchored(h, grey, u) ensures !Reaches(h, u, v) {
      if Reaches(h, u, v) {
        var t: nat :| t < |h.objects| && t !in grey && u in Children(h, t);
        ReachesOnward(h, t, u, v);
        assert false;
      }
    }
  }

  // ---------- the handles of the model ----------

  /** The heap after `releaseResource` on the handle at `v`. */
  function Released(h: Heap, v: nat): Heap
    requires v < |h.objects| && |h.counts| == |h.objects| && Pinned(h, v) && h.counts[v] > 0
  {
    h.(objects := h.objects[v := h.objects[v].(pinned := false)], counts := h.counts[v := h.counts[v] - 1])
  }

  lemma {:induction false} EdgesSame(h: Heap, g: Heap, k: nat, s: set<nat>, w: nat)
    requires k <= |h.objects| == |g.objects|
    requires forall u: nat :: u < |h.objects| ==> Children(g, u) == Children(h, u)
    ensures Edges(g, k, s, w) == Edges(h, k, s, w)
  {
    if k > 0 { EdgesSame(h, g, k - 1, s, w); }
  }

  /** Releasing a handle keeps the counts exact and changes no reported reference; from then on the
      handle is collected exactly if no variable and no other pinned handle reaches it. */
  lemma ReleaseKeepsExact(h: Heap, v: nat)
    requires Exact(h) && v < |h.objects| && Pinned(h, v)
    ensures h.counts[v] > 0 && Exact(Released(h, v))
    ensures forall u: nat :: u < |h.objects| ==> Children(Released(h, v), u) == Children(h, u)
    ensures forall u: nat :: HeldOutside(Released(h, v), u) <==> if u == v then v in h.variables else HeldOutside(h, u)
  {
    var g := Released(h, v);
    forall u: nat | u < |h.objects| ensures Children(g, u) == Children(h, u) {
      if u == v { assert g.objects[v].cells == h.objects[v].cells; }
    }
    assert Nodes(g) == Nodes(h);
    forall w: nat | w < |h.objects|
      ensures g.counts[w] == References(g, w)
    {
      EdgesSame(h, g, |h.objects|, Nodes(h), w);
    }
  }

  lemma {:induction false} CountOfIds(table: seq<Fn>, id: nat)
    ensures Count(ClosureIds(table), id) == multiset(table)[Closure(id)]
  {
    if table != [] {
      CountOfIds(table[1..], id);
      var head := if table[0].Closure? then [table[0].id] else [];
      CountAppend(head, ClosureIds(table[1..]), id);
      assert head != [] ==> head[1..] == [];
      assert multiset(table) == multiset([table[0]]) + multiset(table[1..]) by {
        assert table == [table[0]] + table[1..];
      }
    }
  }

  lemma {:induction false} CountAppend(a: seq<nat>, b: seq<nat>, v: nat)
    ensures Count(a + b, v) == Count(a, v) + Count(b, v)
  {
    if a == [] {
      assert a + b == b;
    } else {
      CountAppend(a[1..], b, v);
      assert (a + b)[1..] == a[1..] + b;
    }
  }
}
