/** The mark-sweep collector (src/vm/gc.rs): arenas of generation-checked slots with free lists, a
    worklist marker, a sweep, and a growth threshold. `Collect` is exact: it reclaims the unreachable
    objects and nothing else, cycles included, or stops because a stale handle is reachable. */
module Gc {
  import opened Wrappers

  const MIN_THRESHOLD: nat := 1024
  const U32: nat := 0x1_0000_0000

  datatype Kind =
    | Arrays | Objects | Maps | Sets | Bytes | Iters | Closures | Upvalues
    | Generators | GreenHandles | LocalChannels | Deferreds

  /** The arenas in the order the sweep visits them. */
  const KINDS: seq<Kind> := [
    Arrays, Objects, Maps, Sets, Bytes, Iters, Closures, Upvalues, Generators, GreenHandles, LocalChannels, Deferreds]

  datatype Handle = Handle(kind: Kind, index: nat, generation: nat)

  datatype Value = Scalar | Ref(h: Handle)

  /** What an object owns, as far as tracing can tell. */
  datatype Payload =
    | Items(values: seq<Value>)          // arrays; the values of objects and maps; queues; parked stacks
    | Unmanaged                          // sets and byte buffers own no handles
    | Iterating(over: Option<Handle>)    // an iterator keeps its collection alive
    | Captures(upvalues: seq<Handle>)    // closures
    | OpenCell | ClosedCell(v: Value)    // upvalues
    | Outcome(result: Option<Value>)     // `go` handles and deferreds

  datatype SlotState = Live(payload: Payload) | Free

  datatype Slot = Slot(generation: nat, mark: bool, state: SlotState)

  type Arenas = map<Kind, seq<Slot>>

  predicate Fits(k: Kind, p: Payload) {
    match k
    case Arrays => p.Items?
    case Objects => p.Items?
    case Maps => p.Items?
    case LocalChannels => p.Items?
    case Generators => p.Items?
    case Sets => p.Unmanaged?
    case Bytes => p.Unmanaged?
    case Iters => p.Iterating?
    case Closures => p.Captures?
    case Upvalues => p.OpenCell? || p.ClosedCell?
    case GreenHandles => p.Outcome?
    case Deferreds => p.Outcome?
  }

  /** Kinds that own no handles are marked but never queued. */
  predicate IsLeaf(k: Kind) {
    k.Sets? || k.Bytes?
  }

  function HandlesOf(vs: seq<Value>): seq<Handle> {
    if vs == [] then [] else (if vs[0].Ref? then [vs[0].h] else []) + HandlesOf(vs[1..])
  }

  /** The handles an object owns, in the order `trace` visits them. */
  function Trace(p: Payload): seq<Handle> {
    match p
    case Items(vs) => HandlesOf(vs)
    case Unmanaged => []
    case Iterating(over) => if over.Some? then [over.value] else []
    case Captures(us) => us
    case OpenCell => []
    case ClosedCell(v) => HandlesOf([v])
    case Outcome(r) => if r.Some? then HandlesOf([r.value]) else []
  }

  // ----- the heap as a graph -----

  predicate InRange(a: Arenas, k: Kind, i: nat) {
    k in a && i < |a[k]|
  }

  /** The handle names a live object. */
  predicate Resolves(a: Arenas, h: Handle) {
    InRange(a, h.kind, h.index) && a[h.kind][h.index].generation == h.generation && a[h.kind][h.index].state.Live?
  }

  predicate Marked(a: Arenas, h: Handle) {
    InRange(a, h.kind, h.index) && a[h.kind][h.index].mark
  }

  function Edges(a: Arenas, h: Handle): seq<Handle>
    requires Resolves(a, h)
  {
    Trace(a[h.kind][h.index].state.payload)
  }

  /** What an object holds on to: the handles among its values, an iterator's collection, a closure's captured
      variables, the value of a variable that outlived its frame, and a result that has come. */
  predicate Owns(p: Payload, h: Handle) {
    match p
    case Items(vs) => Ref(h) in vs
    case Unmanaged => false
    case Iterating(over) => over == Some(h)
    case Captures(us) => h in us
    case OpenCell => false
    case ClosedCell(v) => v == Ref(h)
    case Outcome(r) => r == Some(Ref(h))
  }

  predicate Holds(a: Arenas, g: Handle, h: Handle) {
    Resolves(a, g) && Owns(a[g.kind][g.index].state.payload, h)
  }

  /** A walk from a root, each object holding on to the next. Every handle but the last names a live object. */
  predicate IsPath(a: Arenas, roots: seq<Handle>, p: seq<Handle>) {
    p != [] && p[0] in roots && forall i :: 0 <= i < |p| - 1 ==> Holds(a, p[i], p[i + 1])
  }

  /** Tracing visits exactly what an object holds on to. */
  lemma TracesWhatIsOwned(p: Payload, h: Handle)
    ensures h in Trace(p) <==> Owns(p, h)
  {
    match p
    case Items(vs) => HandlesAre(vs, h);
    case ClosedCell(v) => HandlesAre([v], h);
    case Outcome(r) => if r.Some? { HandlesAre([r.value], h); }
    case _ =>
  }

  lemma {:induction false} HandlesAre(vs: seq<Value>, h: Handle)
    ensures h in HandlesOf(vs) <==> Ref(h) in vs
  {
    if vs != [] {
      HandlesAre(vs[1..], h);
      assert vs == [vs[0]] + vs[1..];
    }
  }

  lemma EdgesAre(a: Arenas, g: Handle, h: Handle)
    requires Resolves(a, g)
    ensures h in Edges(a, g) <==> Holds(a, g, h)
  {
    hide Trace, Owns;
    TracesWhatIsOwned(a[g.kind][g.index].state.payload, h);
  }

  ghost predicate Reachable(a: Arenas, roots: seq<Handle>, h: Handle) {
    exists p: seq<Handle> :: IsPath(a, roots, p) && p[|p| - 1] == h
  }

  function HandleOf(a: Arenas, k: Kind, i: nat): Handle
    requires InRange(a, k, i)
  {
    Handle(k, i, a[k][i].generation)
  }

  ghost predicate NoStale(a: Arenas, roots: seq<Handle>) {
    forall h :: Reachable(a, roots, h) ==> Resolves(a, h)
  }

  lemma RootReachable(a: Arenas, roots: seq<Handle>, h: Handle)
    requires h in roots
    ensures Reachable(a, roots, h)
  {
    assert IsPath(a, roots, [h]);
  }

  lemma EdgeReachable(a: Arenas, roots: seq<Handle>, h: Handle, e: Handle)
    requires Reachable(a, roots, h) && Resolves(a, h) && e in Edges(a, h)
    ensures Reachable(a, roots, e)
  {
    EdgesAre(a, h, e);
    var p: seq<Handle> :| IsPath(a, roots, p) && p[|p| - 1] == h;
    var q := p + [e];
    assert IsPath(a, roots, q) && q[|q| - 1] == e;
  }

  // ----- counting slots -----

  predicate IsLive(s: Slot) {
    s.state.Live?
  }

  /** Live and not marked yet: what the marker may still reach, or the sweep reclaim. */
  predicate IsWhite(s: Slot) {
    s.state.Live? && !s.mark
  }

  function Count(s: seq<Slot>, p: Slot -> bool): nat
    decreases |s|
  {
    if s == [] then 0 else Count(s[..|s| - 1], p) + if p(s[|s| - 1]) then 1 else 0
  }

  function One(b: bool): nat {
    if b then 1 else 0
  }

  lemma {:induction false} CountUpdate(s: seq<Slot>, i: nat, x: Slot, p: Slot -> bool)
    requires i < |s|
    ensures Count(s[i := x], p) == Count(s, p) - One(p(s[i])) + One(p(x))
    decreases |s|
  {
    var n := |s| - 1;
    if i < n {
      assert s[i := x][..n] == s[..n][i := x];
      CountUpdate(s[..n], i, x, p);
    } else {
      assert s[i := x][..n] == s[..n];
    }
  }

  lemma CountAppend(s: seq<Slot>, x: Slot, p: Slot -> bool)
    ensures Count(s + [x], p) == Count(s, p) + One(p(x))
  {
    assert (s + [x])[..|s|] == s;
  }

  /** Slots satisfying `p` in the first `n` arenas. */
  function Total(a: Arenas, n: nat, p: Slot -> bool): nat
    requires n <= |KINDS| && AllKinds(a)
    decreases n
  {
    if n == 0 then 0 else Total(a, n - 1, p) + Count(a[KINDS[n - 1]], p)
  }

  predicate AllKinds(a: Arenas) {
    forall k: Kind :: k in a
  }

  function Position(k: Kind): (n: nat)
    ensures n < |KINDS| && KINDS[n] == k
  {
    match k
    case Arrays => 0
    case Objects => 1
    case Maps => 2
    case Sets => 3
    case Bytes => 4
    case Iters => 5
    case Closures => 6
    case Upvalues => 7
    case Generators => 8
    case GreenHandles => 9
    case LocalChannels => 10
    case Deferreds => 11
  }

  lemma KindsDistinct(i: nat, j: nat)
    requires i < |KINDS| && j < |KINDS| && KINDS[i] == KINDS[j]
    ensures i == j
  {
    assert forall n: nat :: n < |KINDS| ==> Position(KINDS[n]) == n;
  }

  lemma {:induction false} TotalUpdate(a: Arenas, k: Kind, s: seq<Slot>, n: nat, p: Slot -> bool)
    requires AllKinds(a) && n <= |KINDS|
    ensures Total(a[k := s], n, p) == Total(a, n, p) + if Position(k) < n then Count(s, p) - Count(a[k], p) else 0
    decreases n
  {
    if n > 0 {
      TotalUpdate(a, k, s, n - 1, p);
      if KINDS[n - 1] == k {
        KindsDistinct(n - 1, Position(k));
      }
    }
  }

  function LiveSlots(a: Arenas): nat
    requires AllKinds(a)
  {
    Total(a, |KINDS|, IsLive)
  }

  function WhiteSlots(a: Arenas): nat
    requires AllKinds(a)
  {
    Total(a, |KINDS|, IsWhite)
  }

  // ----- marking -----

  /** Only mark bits differ. */
  predicate SameButMarks(a: Arenas, b: Arenas) {
    && AllKinds(a) && AllKinds(b)
    && forall k: Kind :: |a[k]| == |b[k]| && forall i :: 0 <= i < |a[k]| ==> b[k][i].(mark := a[k][i].mark) == a[k][i]
  }

  function WithMark(a: Arenas, h: Handle): Arenas
    requires InRange(a, h.kind, h.index)
  {
    a[h.kind := a[h.kind][h.index := a[h.kind][h.index].(mark := true)]]
  }

  /** Every owned handle of `h` up to number `done` names a marked live object. */
  predicate EdgesMarked(a: Arenas, h: Handle, done: nat) {
    Resolves(a, h) && forall j :: 0 <= j < done && j < |Edges(a, h)| ==>
      Resolves(a, Edges(a, h)[j]) && Marked(a, Edges(a, h)[j])
  }

  /** The state of a mark phase on heap `a0`: `work` is queued, and `current`, if any, has its first
      `done` edges behind it. */
  ghost predicate Marking(a0: Arenas, a: Arenas, roots: seq<Handle>, work: seq<Handle>, current: Option<Handle>,
        done: nat)
  {
    && SameButMarks(a0, a) && WellTyped(a0)
    && (forall h :: h in work ==> Resolves(a, h) && Marked(a, h))
    && (forall k: Kind, i :: 0 <= i < |a[k]| && a[k][i].mark ==>
       Grey(a0, a, roots, work, current, done, HandleOf(a, k, i)))
  }

  /** A marked object is live and reachable, and queued, half-way through, or done. */
  ghost predicate Grey(a0: Arenas, a: Arenas, roots: seq<Handle>, work: seq<Handle>, current: Option<Handle>, done: nat,
        h: Handle)
  {
    && Resolves(a, h) && Reachable(a0, roots, h)
    && (h in work || EdgesMarked(a, h, if current == Some(h) then done else |Edges(a, h)|))
  }

  ghost predicate WellTyped(a: Arenas) {
    AllKinds(a) && forall k: Kind, i :: 0 <= i < |a[k]| && a[k][i].state.Live? ==> Fits(k, a[k][i].state.payload)
  }

  predicate Clear(a: Arenas) {
    AllKinds(a) && forall k: Kind, i :: 0 <= i < |a[k]| ==> !a[k][i].mark
  }

  lemma SameResolves(a: Arenas, b: Arenas, h: Handle)
    requires SameButMarks(a, b)
    ensures Resolves(a, h) == Resolves(b, h) && (Resolves(a, h) ==> Edges(a, h) == Edges(b, h))
  {
    if InRange(a, h.kind, h.index) {
      assert b[h.kind][h.index].(mark := a[h.kind][h.index].mark) == a[h.kind][h.index];
    }
  }

  /** Marking one reachable live object. */
  lemma MarkOne(a0: Arenas, a: Arenas, roots: seq<Handle>, work: seq<Handle>, current: Option<Handle>, done: nat,
        h: Handle)
    requires Marking(a0, a, roots, work, current, done) && Reachable(a0, roots, h) && Resolves(a, h) && !Marked(a, h)
    requires current != Some(h)
    ensures Marking(a0, WithMark(a, h), roots, if IsLeaf(h.kind) then work else work + [h], current, done)
  {
    hide Reachable, EdgesMarked, Trace, Fits;
    var b := WithMark(a, h);
    var work2 := if IsLeaf(h.kind) then work else work + [h];
    assert SameButMarks(a, b) && SameButMarks(a0, b) && forall g :: Marked(a, g) ==> Marked(b, g) by {
      MarkedShape(a0, a, h);
    }
    forall g | g in work2 ensures Resolves(b, g) && Marked(b, g) {
      SameResolves(a, b, g);
    }
    forall k: Kind, i | 0 <= i < |b[k]| && b[k][i].mark
      ensures Grey(a0, b, roots, work2, current, done, HandleOf(b, k, i))
    {
      var g := HandleOf(b, k, i);
      SameResolves(a, b, g);
      if g == h {
        if IsLeaf(h.kind) {
          NewlyGrey(a0, b, h);
        }
      } else {
        assert g == HandleOf(a, k, i) && Grey(a0, a, roots, work, current, done, g) by { OtherSlot(a, h, k, i); }
        StillMarked(a, b, g);
      }
    }
  }

  lemma MarkedShape(a0: Arenas, a: Arenas, h: Handle)
    requires SameButMarks(a0, a) && InRange(a, h.kind, h.index)
    ensures SameButMarks(a, WithMark(a, h)) && SameButMarks(a0, WithMark(a, h))
    ensures Marked(WithMark(a, h), h) && forall g :: Marked(a, g) ==> Marked(WithMark(a, h), g)
  {
  }

  lemma OtherSlot(a: Arenas, h: Handle, k: Kind, i: nat)
    requires Resolves(a, h) && AllKinds(a) && InRange(a, k, i) && HandleOf(WithMark(a, h), k, i) != h
    ensures WithMark(a, h)[k][i] == a[k][i]
  {
  }

  /** A leaf has no edges to wait for. */
  lemma NewlyGrey(a0: Arenas, b: Arenas, h: Handle)
    requires WellTyped(a0) && SameButMarks(a0, b) && Resolves(b, h) && IsLeaf(h.kind)
    ensures EdgesMarked(b, h, |Edges(b, h)|)
  {
    assert b[h.kind][h.index].(mark := a0[h.kind][h.index].mark) == a0[h.kind][h.index];
    assert Fits(h.kind, a0[h.kind][h.index].state.payload);
  }

  /** Marking more keeps what was marked. */
  lemma StillMarked(a: Arenas, b: Arenas, g: Handle)
    requires SameButMarks(a, b) && forall h :: Marked(a, h) ==> Marked(b, h)
    ensures forall n: nat :: EdgesMarked(a, g, n) ==> EdgesMarked(b, g, n)
  {
    SameResolves(a, b, g);
    forall n: nat, j | EdgesMarked(a, g, n) && 0 <= j < n && j < |Edges(a, g)| ensures Resolves(b, Edges(a, g)[j]) {
      SameResolves(a, b, Edges(a, g)[j]);
    }
  }

  /** When nothing is queued, the marked objects are exactly the reachable ones, all of them live. */
  lemma MarkedIsReachable(a0: Arenas, a: Arenas, roots: seq<Handle>, h: Handle)
    requires Marking(a0, a, roots, [], None, 0) && (forall r :: r in roots ==> Resolves(a, r) && Marked(a, r))
    ensures Reachable(a0, roots, h) <==> Resolves(a0, h) && Marked(a, h)
  {
    SameResolves(a0, a, h);
    if Reachable(a0, roots, h) {
      var p: seq<Handle> :| IsPath(a0, roots, p) && p[|p| - 1] == h;
      PathMarked(a0, a, roots, p, |p| - 1);
    }
    if Resolves(a0, h) && Marked(a, h) {
      assert h == HandleOf(a, h.kind, h.index);
      assert Grey(a0, a, roots, [], None, 0, h);
    }
  }

  lemma {:induction false} PathMarked(a0: Arenas, a: Arenas, roots: seq<Handle>, p: seq<Handle>, n: nat)
    requires Marking(a0, a, roots, [], None, 0) && (forall r :: r in roots ==> Resolves(a, r) && Marked(a, r))
    requires IsPath(a0, roots, p) && n < |p|
    ensures Resolves(a, p[n]) && Marked(a, p[n])
    decreases n
  {
    hide Marking, Resolves, Marked;
    if n > 0 {
      PathMarked(a0, a, roots, p, n - 1);
      assert Holds(a0, p[n - 1], p[n]);
      StepMarked(a0, a, roots, p[n - 1], p[n]);
    }
  }

  lemma StepMarked(a0: Arenas, a: Arenas, roots: seq<Handle>, g: Handle, h: Handle)
    requires Marking(a0, a, roots, [], None, 0) && Holds(a0, g, h) && Marked(a, g)
    ensures Resolves(a, h) && Marked(a, h)
  {
    hide Reachable, Trace, Fits;
    SameResolves(a0, a, g);
    assert g == HandleOf(a, g.kind, g.index);
    assert Grey(a0, a, roots, [], None, 0, g);
    EdgesAre(a0, g, h);
    var j :| 0 <= j < |Edges(a, g)| && Edges(a, g)[j] == h;
  }

  /** One more edge of the current object leads to a marked object. */
  lemma EdgeDone(a0: Arenas, a: Arenas, roots: seq<Handle>, work: seq<Handle>, h: Handle, done: nat)
    requires Marking(a0, a, roots, work, Some(h), done) && Resolves(a, h) && done < |Edges(a, h)|
    requires Resolves(a, Edges(a, h)[done]) && Marked(a, Edges(a, h)[done])
    ensures Marking(a0, a, roots, work, Some(h), done + 1)
  {
    hide Reachable, Trace, Fits;
    forall k: Kind, i | 0 <= i < |a[k]| && a[k][i].mark
      ensures Grey(a0, a, roots, work, Some(h), done + 1, HandleOf(a, k, i))
    {
      assert Grey(a0, a, roots, work, Some(h), done, HandleOf(a, k, i));
    }
  }

  /** Taking an object off the queue, and having finished with it. */
  lemma Popped(a0: Arenas, a: Arenas, roots: seq<Handle>, work: seq<Handle>, h: Handle)
    requires Marking(a0, a, roots, work + [h], None, 0)
    ensures Marking(a0, a, roots, work, Some(h), 0) && Resolves(a, h) && Marked(a, h) && Reachable(a0, roots, h)
  {
    hide Reachable, Trace, Fits;
    assert h in work + [h];
    assert Grey(a0, a, roots, work + [h], None, 0, HandleOf(a, h.kind, h.index)) && HandleOf(a, h.kind, h.index) == h;
    forall k: Kind, i | 0 <= i < |a[k]| && a[k][i].mark
      ensures Grey(a0, a, roots, work, Some(h), 0, HandleOf(a, k, i))
    {
      assert Grey(a0, a, roots, work + [h], None, 0, HandleOf(a, k, i));
    }
  }

  lemma Finished(a0: Arenas, a: Arenas, roots: seq<Handle>, work: seq<Handle>, h: Handle)
    requires Marking(a0, a, roots, work, Some(h), if Resolves(a, h) then |Edges(a, h)| else 0)
    ensures Marking(a0, a, roots, work, None, 0)
  {
    hide Reachable, Trace, Fits;
    var n := if Resolves(a, h) then |Edges(a, h)| else 0;
    forall k: Kind, i | 0 <= i < |a[k]| && a[k][i].mark ensures Grey(a0, a, roots, work, None, 0, HandleOf(a, k, i)) {
      assert Grey(a0, a, roots, work, Some(h), n, HandleOf(a, k, i));
    }
  }

  // ----- the free lists, and who was given which handle -----

  /** The free list holds exactly the free slots, once each. */
  predicate FreeListOk(s: seq<Slot>, free: seq<nat>) {
    && (forall j :: 0 <= j < |free| ==> free[j] < |s| && s[free[j]].state.Free?)
    && (forall i :: 0 <= i < |s| && s[i].state.Free? ==> i in free)
    && (forall i, j :: 0 <= i < j < |free| ==> free[i] != free[j])
  }

  type Place = (Kind, nat)

  /** What has been handed out so far: how often each slot was freed, the allocation numbers of the objects it
      was given to, in order, and the number of allocations. */
  datatype History = History(frees: map<Place, nat>, issued: map<Place, seq<nat>>, count: nat)

  /** The handle issued when a slot was given out for the `j`-th time, counting from 0. */
  function IssueHandle(at: Place, j: nat): Handle {
    Handle(at.0, at.1, j % U32)
  }

  /** A slot's generation counts its frees, modulo the width of the counter, and it is given out once before
      the first of them, once between two, and once more if it is live. */
  ghost predicate Accounted(a: Arenas, y: History) {
    && (forall k: Kind, i :: k in a && 0 <= i < |a[k]| ==> SlotAccounted(a[k][i], y, (k, i)))
    && (forall at :: at in y.frees || at in y.issued ==> InRange(a, at.0, at.1))
  }

  ghost predicate SlotAccounted(s: Slot, y: History, at: Place) {
    && at in y.frees && at in y.issued && s.generation == y.frees[at] % U32
    && |y.issued[at]| == y.frees[at] + One(s.state.Live?)
    && Rising(y.issued[at], y.count)
  }

  /** Allocation numbers grow. */
  predicate Rising(numbers: seq<nat>, count: nat) {
    && (forall j :: 0 <= j < |numbers| ==> numbers[j] <= count)
    && forall i, j :: 0 <= i < j < |numbers| ==> numbers[i] < numbers[j]
  }

  function FreesOf(y: History, at: Place): nat {
    if at in y.frees then y.frees[at] else 0
  }

  function IssuesOf(y: History, at: Place): seq<nat> {
    if at in y.issued then y.issued[at] else []
  }

  function Issued(y: History, at: Place): History {
    History(y.frees[at := FreesOf(y, at)], y.issued[at := IssuesOf(y, at) + [y.count + 1]], y.count + 1)
  }

  function FreedOnce(y: History, at: Place): History
    requires at in y.frees
  {
    y.(frees := y.frees[at := y.frees[at] + 1])
  }

  /** The handle was given to some object before. */
  ghost predicate WasIssued(y: History, h: Handle) {
    exists j: nat :: j < |IssuesOf(y, (h.kind, h.index))| && h == IssueHandle((h.kind, h.index), j)
  }

  function Released(s: Slot): Slot {
    Slot((s.generation + 1) % U32, false, Free)
  }

  /** Slot `i` of arena `k` becomes `s`; `i` may be one past the end. */
  function PutSlot(a: Arenas, k: Kind, i: nat, s: Slot): Arenas
    requires k in a && i <= |a[k]|
  {
    a[k := if i < |a[k]| then a[k][i := s] else a[k] + [s]]
  }

  /** The handle the next allocation of a kind issues: of the slot freed last, or of a new one. */
  function NextHandle(s: seq<Slot>, free: seq<nat>, k: Kind): (h: Handle)
    ensures h.index <= |s|
  {
    if free != [] && free[|free| - 1] < |s| then Handle(k, free[|free| - 1], s[free[|free| - 1]].generation)
    else Handle(k, |s|, 0)
  }

  lemma PutShape(a: Arenas, k: Kind, i: nat, s: Slot)
    requires AllKinds(a) && i <= |a[k]|
    ensures var b := PutSlot(a, k, i, s);
      && (WellTyped(a) && (s.state.Live? ==> Fits(k, s.state.payload)) ==> WellTyped(b))
      && (Clear(a) && !s.mark ==> Clear(b))
      && LiveSlots(b) == LiveSlots(a) + One(IsLive(s)) - if i < |a[k]| then One(IsLive(a[k][i])) else 0
  {
    hide Fits, LiveSlots;
    PutCount(a, k, i, s, IsLive);
    CountedLive(a);
    CountedLive(PutSlot(a, k, i, s));
  }

  lemma CountedLive(a: Arenas)
    requires AllKinds(a)
    ensures LiveSlots(a) == Total(a, |KINDS|, IsLive)
  {
  }

  lemma PutCount(a: Arenas, k: Kind, i: nat, s: Slot, p: Slot -> bool)
    requires AllKinds(a) && i <= |a[k]|
    ensures Total(PutSlot(a, k, i, s), |KINDS|, p)
        == Total(a, |KINDS|, p) + One(p(s)) - if i < |a[k]| then One(p(a[k][i])) else 0
  {
    hide Total;
    TotalUpdate(a, k, PutSlot(a, k, i, s)[k], |KINDS|, p);
    if i < |a[k]| {
      CountUpdate(a[k], i, s, p);
    } else {
      CountAppend(a[k], s, p);
    }
  }

  lemma MarkedIsOneLess(a: Arenas, h: Handle)
    requires AllKinds(a) && Resolves(a, h) && !Marked(a, h)
    ensures WhiteSlots(WithMark(a, h)) == WhiteSlots(a) - 1
  {
    PutCount(a, h.kind, h.index, a[h.kind][h.index].(mark := true), IsWhite);
  }

  predicate FreeListsOk(a: Arenas, free: map<Kind, seq<nat>>) {
    AllKinds(a) && forall k: Kind :: k in free && FreeListOk(a[k], free[k])
  }

  lemma FreeListsUpdated(a: Arenas, free: map<Kind, seq<nat>>, k: Kind, s: seq<Slot>, f: seq<nat>)
    requires FreeListsOk(a, free) && FreeListOk(s, f)
    ensures FreeListsOk(a[k := s], free[k := f])
  {
  }

  /** Live objects keep their handles, and their slots their contents. */
  ghost predicate Undisturbed(a: Arenas, b: Arenas) {
    forall h :: Resolves(a, h) ==> Resolves(b, h) && b[h.kind][h.index] == a[h.kind][h.index]
  }

  lemma PutUndisturbed(a: Arenas, k: Kind, i: nat, s: Slot)
    requires k in a && i <= |a[k]| && (i < |a[k]| ==> a[k][i].state.Free?)
    ensures Undisturbed(a, PutSlot(a, k, i, s))
  {
  }

  lemma PopFree(s: seq<Slot>, free: seq<nat>, x: Slot)
    requires FreeListOk(s, free) && free != [] && x.state.Live?
    ensures free[|free| - 1] < |s| && FreeListOk(s[free[|free| - 1] := x], free[..|free| - 1])
  {
    var n := |free| - 1;
    var t := s[free[n] := x];
    forall i | 0 <= i < |t| && t[i].state.Free? ensures i in free[..n] {
      var j :| 0 <= j < |free| && free[j] == i;
      assert free[..n][j] == i;
    }
  }

  lemma FreeInRange(s: seq<Slot>, free: seq<nat>)
    requires FreeListOk(s, free)
    ensures forall j :: 0 <= j < |free| ==> free[j] < |s| && s[free[j]].state.Free?
  {
  }

  lemma FreeWithMore(s: seq<Slot>, x: Slot)
    requires x.state.Live? && FreeListOk(s, [])
    ensures FreeListOk(s + [x], [])
  {
  }

  /** Which slots are free is all that matters. */
  lemma FreeSame(s: seq<Slot>, free: seq<nat>, t: seq<Slot>)
    requires FreeListOk(s, free) && |s| == |t| && forall i :: 0 <= i < |s| ==> s[i].state.Free? == t[i].state.Free?
    ensures FreeListOk(t, free)
  {
  }

  lemma PushFree(s: seq<Slot>, free: seq<nat>, i: nat, x: Slot)
    requires FreeListOk(s, free) && i < |s| && s[i].state.Live? && x.state.Free?
    ensures FreeListOk(s[i := x], free + [i])
  {
    var t := s[i := x];
    forall j | 0 <= j < |t| && t[j].state.Free? ensures j in free + [i] {
      if j != i {
        assert s[j].state.Free?;
        assert j in free;
      }
    }
  }

  lemma OtherIssued(s: Slot, y: History, at: Place, other: Place)
    requires SlotAccounted(s, y, other) && other != at
    ensures SlotAccounted(s, Issued(y, at), other)
  {
    RisingMore(y.issued[other], y.count);
  }

  lemma SlotIssued(was: Slot, s: Slot, y: History, at: Place)
    requires SlotAccounted(was, y, at) && was.state.Free? && s.state.Live? && s.generation == was.generation
    ensures SlotAccounted(s, Issued(y, at), at)
  {
    RisingMore(y.issued[at], y.count);
  }

  lemma FirstIssued(s: Slot, y: History, at: Place)
    requires at !in y.frees && at !in y.issued && s.state.Live? && s.generation == 0
    ensures SlotAccounted(s, Issued(y, at), at)
  {
    RisingMore([], y.count);
  }

  /** A slot taken from the free list, or a new one at the end. */
  lemma AccountIssue(a: Arenas, y: History, k: Kind, i: nat, s: Slot)
    requires Accounted(a, y) && k in a && i <= |a[k]| && s.state.Live?
    requires if i < |a[k]| then a[k][i].state.Free? && s.generation == a[k][i].generation else s.generation == 0
    ensures Accounted(PutSlot(a, k, i, s), Issued(y, (k, i)))
  {
    hide Rising, SlotAccounted;
    var b, z := PutSlot(a, k, i, s), Issued(y, (k, i));
    forall l: Kind, j | l in b && 0 <= j < |b[l]| ensures SlotAccounted(b[l][j], z, (l, j)) {
      if (l, j) != (k, i) {
        assert b[l][j] == a[l][j] && SlotAccounted(a[l][j], y, (l, j));
        OtherIssued(a[l][j], y, (k, i), (l, j));
      } else if i < |a[k]| {
        assert SlotAccounted(a[k][i], y, (k, i));
        SlotIssued(a[k][i], s, y, (k, i));
      } else {
        FirstIssued(s, y, (k, i));
      }
    }
  }

  lemma RisingMore(numbers: seq<nat>, count: nat)
    requires numbers == [] || Rising(numbers, count)
    ensures Rising(numbers, count + 1) && Rising(numbers + [count + 1], count + 1)
  {
  }

  lemma SameRemainder(n: nat, j: nat)
    requires j <= n
    ensures n % U32 == j % U32 <==> (n - j) % U32 == 0
    ensures n - j < U32 ==> ((n - j) % U32 == 0 <==> n == j)
  {
    var p, q := n / U32, j / U32;
    assert n == p * U32 + n % U32 && j == q * U32 + j % U32;
    assert n - j == (p - q) * U32 + (n % U32 - j % U32);
  }

  /** The handle about to be issued for a free or new slot was issued before if and only if the slot has been
      freed 2^32 times. */
  lemma IssuedAgain(a: Arenas, y: History, k: Kind, i: nat)
    requires Accounted(a, y) && k in a && i <= |a[k]| && (i < |a[k]| ==> a[k][i].state.Free?)
    ensures WasIssued(y, Handle(k, i, if i < |a[k]| then a[k][i].generation else 0)) <==> FreesOf(y, (k, i)) >= U32
  {
    var at := (k, i);
    var h := Handle(k, i, if i < |a[k]| then a[k][i].generation else 0);
    if i < |a[k]| {
      assert SlotAccounted(a[k][i], y, at);
      if y.frees[at] >= U32 {
        var j: nat := y.frees[at] - U32;
        assert h == IssueHandle(at, j);
      } else {
        forall j: nat | j < |IssuesOf(y, at)| ensures h != IssueHandle(at, j) {
          SameRemainder(y.frees[at], j);
        }
      }
    }
  }

  lemma AccountRelease(a: Arenas, y: History, k: Kind, i: nat)
    requires Accounted(a, y) && k in a && i < |a[k]| && a[k][i].state.Live?
    ensures (k, i) in y.frees && Accounted(PutSlot(a, k, i, Released(a[k][i])), FreedOnce(y, (k, i)))
  {
    hide Rising;
    assert SlotAccounted(a[k][i], y, (k, i));
    var b, z := PutSlot(a, k, i, Released(a[k][i])), FreedOnce(y, (k, i));
    forall l: Kind, j | l in b && 0 <= j < |b[l]| ensures SlotAccounted(b[l][j], z, (l, j)) {
      assert SlotAccounted(a[l][j], y, (l, j));
    }
  }

  /** Mark bits and payloads are not part of the account. */
  lemma AccountSame(a: Arenas, b: Arenas, y: History)
    requires Accounted(a, y) && a.Keys == b.Keys
    requires forall k: Kind :: k in a ==> |a[k]| == |b[k]|
    requires forall k: Kind, i :: k in a && 0 <= i < |a[k]| ==>
      a[k][i].generation == b[k][i].generation && a[k][i].state.Live? == b[k][i].state.Live?
    ensures Accounted(b, y)
  {
    hide Rising;
    forall k: Kind, i | k in b && 0 <= i < |b[k]| ensures SlotAccounted(b[k][i], y, (k, i)) {
      assert SlotAccounted(a[k][i], y, (k, i));
    }
  }

  /** The object in a live slot, by its allocation number. */
  function Occupant(y: History, at: Place): nat {
    var numbers := IssuesOf(y, at);
    if numbers == [] then 0 else numbers[|numbers| - 1]
  }

  /** What became of the handle of a slot's issue `j`, `since` frees of the slot ago. It resolves exactly when
      the slot is live and `since` is a multiple of 2^32; and when it resolves, it names the object it was
      issued for exactly when `since` is below 2^32, which is then 0. */
  lemma HandleNamesItsObject(a: Arenas, y: History, at: Place, j: nat)
    requires Accounted(a, y) && j < |IssuesOf(y, at)|
    ensures InRange(a, at.0, at.1) && FreesOf(y, at) >= j
    ensures
      var since := FreesOf(y, at) - j;
      var h := IssueHandle(at, j);
      && (Resolves(a, h) <==> a[at.0][at.1].state.Live? && since % U32 == 0)
      && (Resolves(a, h) ==> (Occupant(y, at) == IssuesOf(y, at)[j] <==> since < U32))
      && (since < U32 ==> (Resolves(a, h) <==> since == 0))
  {
    assert SlotAccounted(a[at.0][at.1], y, at);
    var frees := FreesOf(y, at);
    var since := frees - j;
    SameRemainder(frees, j);
    assert since == 0 <==> j == |IssuesOf(y, at)| - 1 && a[at.0][at.1].state.Live?;
  }

  /** A live slot that has been freed 2^32 times has an earlier handle that names the wrong object. */
  lemma OldHandleResolves(a: Arenas, y: History, at: Place)
    requires Accounted(a, y) && InRange(a, at.0, at.1) && a[at.0][at.1].state.Live? && FreesOf(y, at) >= U32
    ensures
      var j: nat := FreesOf(y, at) - U32;
      && j < |IssuesOf(y, at)| && Resolves(a, IssueHandle(at, j)) && Occupant(y, at) != IssuesOf(y, at)[j]
  {
    assert SlotAccounted(a[at.0][at.1], y, at);
    HandleNamesItsObject(a, y, at, FreesOf(y, at) - U32);
  }

  /** What one collection does to each slot. */
  ghost predicate Collected(a: Arenas, b: Arenas, roots: seq<Handle>) {
    && AllKinds(a) && AllKinds(b)
    && forall k: Kind :: |a[k]| == |b[k]| && forall i :: 0 <= i < |a[k]| ==>
      b[k][i] == if IsLive(a[k][i]) && !Reachable(a, roots, HandleOf(a, k, i)) then Released(a[k][i]) else a[k][i]
  }

  function SweptSlot(s: Slot): Slot {
    if s.state.Free? then s else if s.mark then s.(mark := false) else Released(s)
  }

  lemma LiveFits(a: Arenas, k: Kind, i: nat)
    requires WellTyped(a) && InRange(a, k, i) && a[k][i].state.Live?
    ensures Fits(k, a[k][i].state.payload)
  {
  }

  // ----- the mark phase, step by step -----

  lemma NothingMarked(a: Arenas, roots: seq<Handle>)
    requires Clear(a) && WellTyped(a)
    ensures Marking(a, a, roots, [], None, 0)
  {
  }

  lemma MarkingSame(was: Arenas, a: Arenas, roots: seq<Handle>, work: seq<Handle>, current: Option<Handle>, done: nat)
    requires Marking(was, a, roots, work, current, done)
    ensures SameButMarks(was, a) && AllKinds(a) && WellTyped(was)
  {
  }

  lemma StaleFound(was: Arenas, roots: seq<Handle>, h: Handle)
    requires Reachable(was, roots, h) && !Resolves(was, h)
    ensures !NoStale(was, roots)
  {
  }

  /** `b` is `a` with the live object `h` marked, if it was not already. */
  predicate MarkStep(a: Arenas, b: Arenas, h: Handle) {
    Resolves(a, h) && b == if Marked(a, h) then a else WithMark(a, h)
  }

  lemma StepKeeps(a: Arenas, b: Arenas, h: Handle, g: Handle)
    requires MarkStep(a, b, h) && Resolves(a, g)
    ensures Resolves(b, g) && Edges(b, g) == Edges(a, g) && (Marked(a, g) ==> Marked(b, g)) && Marked(b, h)
  {
  }

  lemma RootMarked(a: Arenas, b: Arenas, roots: seq<Handle>, i: nat)
    requires i < |roots| && RootsMarked(a, roots, i) && MarkStep(a, b, roots[i])
    ensures RootsMarked(b, roots, i + 1)
  {
    hide MarkStep, Resolves, Marked;
    forall j | 0 <= j < i + 1 ensures Resolves(b, roots[j]) && Marked(b, roots[j]) {
      assert Resolves(a, roots[i]) by { Steps(a, b, roots[i]); }
      StepKeeps(a, b, roots[i], roots[j]);
    }
  }

  lemma Steps(a: Arenas, b: Arenas, h: Handle)
    requires MarkStep(a, b, h)
    ensures Resolves(a, h)
  {
  }

  lemma EdgeMarked(was: Arenas, a: Arenas, b: Arenas, roots: seq<Handle>, work: seq<Handle>, item: Handle, j: nat)
    requires Marking(was, b, roots, work, Some(item), j) && RootsMarked(a, roots, |roots|)
    requires Resolves(a, item) && Marked(a, item) && j < |Edges(a, item)| && MarkStep(a, b, Edges(a, item)[j])
    ensures Marking(was, b, roots, work, Some(item), j + 1) && RootsMarked(b, roots, |roots|)
    ensures Resolves(b, item) && Marked(b, item) && Edges(b, item) == Edges(a, item)
  {
    hide Marking, MarkStep, Resolves, Marked, Trace;
    var e := Edges(a, item)[j];
    Steps(a, b, e);
    StepKeeps(a, b, e, item);
    StepKeeps(a, b, e, e);
    EdgeDone(was, b, roots, work, item, j);
    forall i | 0 <= i < |roots| ensures Resolves(b, roots[i]) && Marked(b, roots[i]) {
      StepKeeps(a, b, e, roots[i]);
    }
  }

  predicate MarkedLive(a: Arenas) {
    forall k: Kind, i :: k in a && 0 <= i < |a[k]| && a[k][i].mark ==> a[k][i].state.Live?
  }

  lemma OnlyLive(was: Arenas, a: Arenas, roots: seq<Handle>)
    requires Marking(was, a, roots, [], None, 0)
    ensures MarkedLive(a)
  {
    forall k: Kind, i | k in a && 0 <= i < |a[k]| && a[k][i].mark ensures a[k][i].state.Live? {
      assert Grey(was, a, roots, [], None, 0, HandleOf(a, k, i));
    }
  }

  lemma AllRoots(a: Arenas, roots: seq<Handle>)
    requires RootsMarked(a, roots, |roots|)
    ensures forall r :: r in roots ==> Resolves(a, r) && Marked(a, r)
  {
  }

  lemma NoneStale(was: Arenas, a: Arenas, roots: seq<Handle>)
    requires forall h :: Reachable(was, roots, h) <==> Resolves(was, h) && Marked(a, h)
    ensures NoStale(was, roots)
  {
  }

  lemma {:induction false} MarksKeepCount(a: Arenas, b: Arenas, n: nat)
    requires SameButMarks(a, b) && n <= |KINDS|
    ensures Total(a, n, IsLive) == Total(b, n, IsLive)
    decreases n
  {
    if n > 0 {
      MarksKeepCount(a, b, n - 1);
      var s, t := a[KINDS[n - 1]], b[KINDS[n - 1]];
      forall i | 0 <= i < |s| ensures IsLive(s[i]) == IsLive(t[i]) {
        assert t[i].(mark := s[i].mark) == s[i];
      }
      SameCount(s, t);
    }
  }

  lemma {:induction false} SameCount(s: seq<Slot>, t: seq<Slot>)
    requires |s| == |t| && forall i :: 0 <= i < |s| ==> IsLive(s[i]) == IsLive(t[i])
    ensures Count(s, IsLive) == Count(t, IsLive)
    decreases |s|
  {
    if s != [] {
      SameCount(s[..|s| - 1], t[..|s| - 1]);
    }
  }

  /** The first `n` arenas have been swept. */
  predicate SweptBelow(a: Arenas, b: Arenas, n: nat) {
    AllKinds(a) && AllKinds(b) && forall k: Kind :: b[k] == if Position(k) < n then Swept(a[k]) else a[k]
  }

  predicate SweptAllOf(a: Arenas, b: Arenas) {
    AllKinds(a) && AllKinds(b) && forall k: Kind :: b[k] == Swept(a[k])
  }

  lemma SweptNext(a: Arenas, before: Arenas, after: Arenas, n: nat)
    requires n < |KINDS| && SweptBelow(a, before, n) && KINDS[n] in before
    requires after == before[KINDS[n] := Swept(before[KINDS[n]])]
    ensures SweptBelow(a, after, n + 1)
  {
    hide Swept;
    forall k: Kind ensures Position(k) == n <==> k == KINDS[n] {
      if k == KINDS[n] {
        KindsDistinct(Position(k), n);
      }
    }
  }

  lemma SweptAll(a: Arenas, b: Arenas)
    requires SweptBelow(a, b, |KINDS|)
    ensures SweptAllOf(a, b)
  {
    hide Swept;
  }

  /** A sweep after a complete mark phase does to every slot what a collection should. */
  lemma SweptExactly(was: Arenas, marked: Arenas, after: Arenas, roots: seq<Handle>)
    requires Clear(was) && SameButMarks(was, marked) && SweptAllOf(marked, after)
    requires forall h :: Reachable(was, roots, h) <==> Resolves(was, h) && Marked(marked, h)
    requires MarkedLive(marked)
    ensures Collected(was, after, roots) && Clear(after)
  {
    hide Reachable;
    forall k: Kind, i | 0 <= i < |was[k]|
      ensures after[k][i] == if IsLive(was[k][i])
        && !Reachable(was, roots, HandleOf(was, k, i)) then Released(was[k][i]) else was[k][i]
    {
      assert marked[k][i].(mark := was[k][i].mark) == was[k][i];
      assert after[k][i] == SweptSlot(marked[k][i]);
      var h := HandleOf(was, k, i);
      assert Reachable(was, roots, h) <==> Resolves(was, h) && Marked(marked, h);
      assert !was[k][i].mark;
    }
    forall k: Kind, i | 0 <= i < |after[k]| ensures !after[k][i].mark {
      assert marked[k][i].(mark := was[k][i].mark) == was[k][i];
      assert after[k][i] == SweptSlot(marked[k][i]);
    }
  }

  class Heap {
    var arenas: Arenas
    var free: map<Kind, seq<nat>>
    var live: nat
    var threshold: nat
    var collections: nat
    var totalAllocated: nat
    var totalFreed: nat
    ghost var history: History

    /** What holds at every moment, also during a collection, when `pending` objects have been
        reclaimed but not yet counted. */
    ghost predicate Sound(pending: nat)
      reads this
    {
      && AllKinds(arenas) && WellTyped(arenas) && FreeListsOk(arenas, free) && Accounted(arenas, history)
      && live == LiveSlots(arenas) + pending && live + totalFreed == totalAllocated == history.count
    }

    ghost predicate Valid()
      reads this
    {
      Sound(0) && Clear(arenas)
    }

    constructor ()
      ensures Valid() && live == 0 && totalAllocated == 0 && history == History(map[], map[], 0)
      ensures forall k: Kind :: k in arenas && arenas[k] == [] && k in free && free[k] == []
    {
      arenas := map k: Kind {:trigger Position(k)} :: [];
      free := map k: Kind {:trigger Position(k)} :: [];
      live, threshold, collections, totalAllocated, totalFreed := 0, MIN_THRESHOLD, 0, 0, 0;
      history := History(map[], map[], 0);
      new;
      NothingThere(arenas, |KINDS|);
    }

    // ----- arenas -----

    lemma EveryKind(k: Kind)
      requires Sound(0)
      ensures k in arenas && k in free && FreeListOk(arenas[k], free[k])
    {
    }

    /** Installs `payload` in the slot freed last, or in a new one. No live object is disturbed, and the handle
        was issued before exactly when its slot has been freed 2^32 times. */
    method Alloc(k: Kind, payload: Payload) returns (h: Handle)
      requires Valid() && Fits(k, payload)
      modifies this
      ensures Valid() && h.kind == k && Resolves(arenas, h) && !Resolves(old(arenas), h)
      ensures arenas[k][h.index].state.payload == payload && Undisturbed(old(arenas), arenas)
      ensures k in old(arenas) && k in old(free) && h == NextHandle(old(arenas)[k], old(free)[k], k)
      ensures arenas == PutSlot(old(arenas), k, h.index, Slot(h.generation, false, Live(payload)))
      ensures free == old(free)[k := if old(free)[k] == [] then [] else old(free)[k][..|old(free)[k]| - 1]]
      ensures live == old(live) + 1 && totalAllocated == old(totalAllocated) + 1 && totalFreed == old(totalFreed)
      ensures threshold == old(threshold) && collections == old(collections)
      ensures history == Issued(old(history), (h.kind, h.index))
      ensures WasIssued(old(history), h) <==> FreesOf(old(history), (k, h.index)) >= U32
    {
      hide AllKinds, WellTyped, Clear, FreeListOk, FreeListsOk, Accounted, Issued, LiveSlots, Fits, Undisturbed;
      EveryKind(k);
      var slots, recycled := arenas[k], free[k];
      if |recycled| > 0 {
        var index := recycled[|recycled| - 1];
        FreeInRange(slots, recycled);
        h := Handle(k, index, slots[index].generation);
        PopFree(slots, recycled, Slot(h.generation, false, Live(payload)));
        Install(h, payload, recycled[..|recycled| - 1]);
      } else {
        h := Handle(k, |slots|, 0);
        FreeWithMore(slots, Slot(0, false, Live(payload)));
        Install(h, payload, recycled);
      }
    }

    /** Puts an object into the free slot `h` names, or into a new one, leaving `rest` free. */
    method Install(h: Handle, payload: Payload, rest: seq<nat>)
      requires Valid() && Fits(h.kind, payload) && h.kind in arenas && h.index <= |arenas[h.kind]|
      requires if h.index < |arenas[h.kind]| then arenas[h.kind][h.index].state.Free?
        && h.generation == arenas[h.kind][h.index].generation
               else h.generation == 0
      requires FreeListOk(PutSlot(arenas, h.kind, h.index, Slot(h.generation, false, Live(payload)))[h.kind], rest)
      modifies this
      ensures Valid() && arenas == PutSlot(old(arenas), h.kind, h.index, Slot(h.generation, false, Live(payload)))
      ensures free == old(free)[h.kind := rest]
      ensures Undisturbed(old(arenas), arenas)
      ensures live == old(live) + 1 && totalAllocated == old(totalAllocated) + 1 && totalFreed == old(totalFreed)
      ensures threshold == old(threshold) && collections == old(collections)
      ensures history == Issued(old(history), (h.kind, h.index))
      ensures WasIssued(old(history), h) <==> FreesOf(old(history), (h.kind, h.index)) >= U32
    {
      hide WellTyped, Clear, FreeListOk, FreeListsOk, Accounted, LiveSlots, Fits, Undisturbed, WasIssued;
      ghost var slot := Slot(h.generation, false, Live(payload));
      FreeListsUpdated(arenas, free, h.kind, PutSlot(arenas, h.kind, h.index, slot)[h.kind], rest);
      PutShape(arenas, h.kind, h.index, slot);
      PutUndisturbed(arenas, h.kind, h.index, slot);
      AccountIssue(arenas, history, h.kind, h.index, slot);
      IssuedAgain(arenas, history, h.kind, h.index);
      arenas := PutSlot(arenas, h.kind, h.index, Slot(h.generation, false, Live(payload)));
      free := free[h.kind := rest];
      live := live + 1;
      totalAllocated := totalAllocated + 1;
      history := Issued(history, (h.kind, h.index));
    }

    /** The object behind a handle; the original panics on a handle that does not resolve. */
    method Cell(h: Handle) returns (r: Option<Payload>)
      requires Valid()
      ensures r.Some? <==> Resolves(arenas, h)
      ensures r.Some? ==> r.value == arenas[h.kind][h.index].state.payload
    {
      if h.index >= |arenas[h.kind]| {
        return None;
      }
      var slot := arenas[h.kind][h.index];
      if slot.generation != h.generation {
        return None;
      }
      match slot.state {
        case Live(p) => return Some(p);
        case Free => return None;
      }
    }

    /** A mutation through an exclusive borrow. */
    method Store(h: Handle, payload: Payload) returns (stored: bool)
      requires Valid() && Fits(h.kind, payload)
      modifies this`arenas
      ensures Valid() && stored == Resolves(old(arenas), h)
      ensures arenas ==
        if stored then
          old(arenas)[h.kind := old(arenas)[h.kind][h.index := old(arenas)[h.kind][h.index].(state := Live(payload))]]
        else old(arenas)
    {
      hide WellTyped, FreeListOk, FreeListsOk, Accounted, LiveSlots, Fits;
      EveryKind(h.kind);
      var cell := Cell(h);
      stored := cell.Some?;
      if stored {
        var slot := arenas[h.kind][h.index].(state := Live(payload));
        PutShape(arenas, h.kind, h.index, slot);
        AccountSame(arenas, PutSlot(arenas, h.kind, h.index, slot), history);
        FreeSame(arenas[h.kind], free[h.kind], arenas[h.kind][h.index := slot]);
        FreeListsUpdated(arenas, free, h.kind, arenas[h.kind][h.index := slot], free[h.kind]);
        assert free[h.kind := free[h.kind]] == free;
        arenas := arenas[h.kind := arenas[h.kind][h.index := slot]];
      }
    }

    // ----- collection -----

    /** Reclaims slot `i` of arena `k`. */
    method Reclaim(k: Kind, i: nat, ghost pending: nat)
      requires Sound(pending) && k in arenas && i < |arenas[k]| && arenas[k][i].state.Live?
      modifies this`arenas, this`free, this`history
      ensures Sound(pending + 1) && arenas == PutSlot(old(arenas), k, i, Released(old(arenas)[k][i]))
      ensures history.issued == old(history).issued && history.count == old(history).count
    {
      hide WellTyped, Clear, FreeListOk, FreeListsOk, Accounted, LiveSlots, Fits;
      var slots := arenas[k];
      ghost var slot := Released(slots[i]);
      FreeListOf(k, pending);
      PushFree(slots, free[k], i, slot);
      FreeListsUpdated(arenas, free, k, slots[i := slot], free[k] + [i]);
      PutShape(arenas, k, i, slot);
      AccountRelease(arenas, history, k, i);
      arenas := arenas[k := slots[i := Slot((slots[i].generation + 1) % U32, false, Free)]];
      free := free[k := free[k] + [i]];
      history := FreedOnce(history, (k, i));
    }

    lemma FreeListOf(k: Kind, pending: nat)
      requires Sound(pending)
      ensures k in arenas && k in free && FreeListOk(arenas[k], free[k])
    {
    }

    method ClearMark(k: Kind, i: nat, ghost pending: nat)
      requires Sound(pending) && k in arenas && i < |arenas[k]| && arenas[k][i].state.Live?
      modifies this`arenas
      ensures Sound(pending) && arenas == PutSlot(old(arenas), k, i, old(arenas)[k][i].(mark := false))
    {
      hide WellTyped, Clear, FreeListOk, FreeListsOk, Accounted, LiveSlots;
      var slots := arenas[k];
      ghost var slot := slots[i].(mark := false);
      FreeListOf(k, pending);
      LiveFits(arenas, k, i);
      FreeSame(slots, free[k], slots[i := slot]);
      FreeListsUpdated(arenas, free, k, slots[i := slot], free[k]);
      assert free[k := free[k]] == free;
      PutShape(arenas, k, i, slot);
      AccountSame(arenas, PutSlot(arenas, k, i, slot), history);
      arenas := arenas[k := slots[i := slots[i].(mark := false)]];
    }

    /** A live slot loses its mark, or is reclaimed if it has none. */
    method SweepSlot(k: Kind, i: nat, ghost pending: nat) returns (reclaimed: bool)
      requires Sound(pending) && k in arenas && i < |arenas[k]|
      modifies this`arenas, this`free, this`history
      ensures Sound(if reclaimed then pending + 1 else pending)
      ensures arenas == old(arenas)[k := old(arenas)[k][i := SweptSlot(old(arenas)[k][i])]]
      ensures history.issued == old(history).issued && history.count == old(history).count
    {
      hide Sound;
      reclaimed := false;
      if arenas[k][i].state.Live? {
        if arenas[k][i].mark {
          ClearMark(k, i, pending);
        } else {
          Reclaim(k, i, pending);
          reclaimed := true;
        }
      } else {
        assert arenas[k][i := arenas[k][i]] == arenas[k];
        assert arenas[k := arenas[k]] == arenas;
      }
    }

    /** Reclaims every unmarked live slot of one arena and clears the marks of the others. */
    method SweepArena(k: Kind, ghost pending: nat) returns (freed: nat)
      requires Sound(pending)
      modifies this`arenas, this`free, this`history
      ensures Sound(pending + freed) && k in old(arenas) && arenas == old(arenas)[k := Swept(old(arenas)[k])]
      ensures history.issued == old(history).issued && history.count == old(history).count
    {
      hide Sound;
      freed := 0;
      assert k in arenas by { FreeListOf(k, pending); }
      ghost var was := arenas;
      assert was[k := was[k]] == was;
      var n := |arenas[k]|;
      for i := 0 to n
        invariant Sound(pending + freed) && k in arenas && |arenas[k]| == n && arenas == was[k := arenas[k]]
        invariant forall j :: 0 <= j < n ==> arenas[k][j] == if j < i then SweptSlot(was[k][j]) else was[k][j]
        invariant history.issued == old(history).issued && history.count == old(history).count
      {
        var reclaimed := SweepSlot(k, i, pending + freed);
        freed := if reclaimed then freed + 1 else freed;
      }
      assert arenas[k] == Swept(was[k]);
    }

    /** Every arena in turn. */
    method Sweep() returns (freed: nat)
      requires Sound(0)
      modifies this`arenas, this`free, this`history
      ensures Sound(freed) && SweptAllOf(old(arenas), arenas)
      ensures history.issued == old(history).issued && history.count == old(history).count
    {
      hide Sound, SweptBelow, AllKinds, Swept;
      freed := 0;
      Whole(0);
      ghost var was := arenas;
      for n := 0 to |KINDS|
        invariant Sound(freed) && SweptBelow(was, arenas, n)
        invariant history.issued == old(history).issued && history.count == old(history).count
      {
        ghost var before := arenas;
        var reclaimed := SweepArena(KINDS[n], freed);
        freed := freed + reclaimed;
        SweptNext(was, before, arenas, n);
      }
      SweptAll(was, arenas);
    }

    lemma Whole(pending: nat)
      requires Sound(pending)
      ensures SweptBelow(arenas, arenas, 0)
    {
    }

    /** One mark-sweep collection from `roots`. The original panics when it meets a stale handle: that
        happens exactly when one is reachable. Otherwise exactly the unreachable objects go. */
    method Collect(roots: seq<Handle>) returns (freed: Option<nat>)
      requires Valid()
      modifies this
      ensures freed.Some? <==> NoStale(old(arenas), roots)
      ensures freed.Some? ==>
        && Valid() && Collected(old(arenas), arenas, roots)
        && live == old(live) - freed.value && totalFreed == old(totalFreed) + freed.value
        && totalAllocated == old(totalAllocated)
        && collections == old(collections) + 1 && live < threshold && threshold >= MIN_THRESHOLD
        && (threshold == 2 * live || threshold == MIN_THRESHOLD >= 2 * live)
        && history.issued == old(history).issued && history.count == old(history).count
    {
      hide Accounted, WellTyped, FreeListsOk, LiveSlots, Clear, Marking, Collected, NoStale, SweptSlot, SameButMarks;
      ghost var was := arenas;
      assert Marking(was, arenas, roots, [], None, 0) by { NothingMarked(arenas, roots); }
      var marker := new Marker(this);
      var ok := marker.MarkRoots(roots, was);
      if ok {
        ok := marker.Run(roots, was);
      }
      if !ok {
        return None;
      }
      ghost var marked := arenas;
      MarksKeepSound(was);
      var n := Sweep();
      live := live - n;
      totalFreed := totalFreed + n;
      collections := collections + 1;
      threshold := if live * 2 > MIN_THRESHOLD then live * 2 else MIN_THRESHOLD;
      SweptExactly(was, marked, arenas, roots);
      return Some(n);
    }

    /** Marking changes nothing but marks. */
    lemma MarksKeepSound(was: Arenas)
      requires SameButMarks(was, arenas) && WellTyped(was) && FreeListsOk(was, free) && Accounted(was, history)
      requires live == LiveSlots(was) && live + totalFreed == totalAllocated == history.count
      ensures Sound(0)
    {
      AccountSame(was, arenas, history);
      MarksKeepCount(was, arenas, |KINDS|);
      forall k: Kind ensures FreeListOk(arenas[k], free[k]) {
        FreeSame(was[k], free[k], arenas[k]);
      }
    }
  }

  /** The mark phase: the heap and a worklist, so that marking never recurses. */
  class Marker {
    const heap: Heap
    var worklist: seq<Handle>

    constructor (heap: Heap)
      ensures this.heap == heap && worklist == []
    {
      this.heap := heap;
      worklist := [];
    }

    /** Marks one object and queues it if it is new and may own handles. */
    method Mark(h: Handle) returns (ok: bool)
      requires AllKinds(heap.arenas)
      modifies this`worklist, heap`arenas
      ensures ok <==> Resolves(old(heap.arenas), h)
      ensures !ok || Marked(old(heap.arenas), h) ==> heap.arenas == old(heap.arenas) && worklist == old(worklist)
      ensures ok && !Marked(old(heap.arenas), h) ==>
        heap.arenas == WithMark(old(heap.arenas), h) && worklist == if IsLeaf(h.kind) then old(worklist)
          else old(worklist) + [h]
    {
      if h.index >= |heap.arenas[h.kind]| {
        return false;
      }
      var slot := heap.arenas[h.kind][h.index];
      if slot.generation != h.generation || slot.state.Free? {
        return false;
      }
      if !slot.mark {
        heap.arenas := WithMark(heap.arenas, h);
        if !IsLeaf(h.kind) {
          worklist := worklist + [h];
        }
      }
      return true;
    }

    method MarkRoots(roots: seq<Handle>, ghost was: Arenas) returns (ok: bool)
      requires Marking(was, heap.arenas, roots, [], None, 0) && worklist == []
      modifies this`worklist, heap`arenas
      ensures SameButMarks(was, heap.arenas)
      ensures ok ==> Marking(was, heap.arenas, roots, worklist, None, 0) && RootsMarked(heap.arenas, roots, |roots|)
      ensures !ok ==> !NoStale(was, roots)
    {
      hide Marking, SameButMarks, NoStale, Resolves, Marked, Reachable;
      assert SameButMarks(was, heap.arenas) by { MarkingSame(was, heap.arenas, roots, [], None, 0); }
      for i := 0 to |roots|
        invariant Marking(was, heap.arenas, roots, worklist, None, 0) && RootsMarked(heap.arenas, roots, i)
        invariant SameButMarks(was, heap.arenas)
      {
        ghost var a, work := heap.arenas, worklist;
        MarkingSame(was, a, roots, work, None, 0);
        RootReachable(was, roots, roots[i]);
        ok := Mark(roots[i]);
        SameResolves(was, a, roots[i]);
        if !ok {
          StaleFound(was, roots, roots[i]);
          return false;
        }
        if !Marked(a, roots[i]) {
          MarkOne(was, a, roots, work, None, 0, roots[i]);
        }
        RootMarked(a, heap.arenas, roots, i);
        MarkingSame(was, heap.arenas, roots, worklist, None, 0);
      }
      return true;
    }

    /** Drains the worklist. Every turn takes one item off and adds at most one per newly marked slot,
        so unmarked live slots and pending items together decrease. */
    method Run(roots: seq<Handle>, ghost was: Arenas) returns (ok: bool)
      requires Marking(was, heap.arenas, roots, worklist, None, 0) && RootsMarked(heap.arenas, roots, |roots|)
      modifies this`worklist, heap`arenas
      ensures SameButMarks(was, heap.arenas) && (ok <==> NoStale(was, roots))
      ensures ok ==> MarkedLive(heap.arenas)
      ensures ok ==> forall h :: Reachable(was, roots, h) <==> Resolves(was, h) && Marked(heap.arenas, h)
    {
      hide Marking, SameButMarks, NoStale, Resolves, Marked, MarkedLive, Reachable, WhiteSlots, RootsMarked;
      MarkingSame(was, heap.arenas, roots, worklist, None, 0);
      while worklist != []
        invariant Marking(was, heap.arenas, roots, worklist, None, 0) && RootsMarked(heap.arenas, roots, |roots|)
        invariant SameButMarks(was, heap.arenas) && AllKinds(heap.arenas)
        decreases WhiteSlots(heap.arenas) + |worklist|
      {
        var item := worklist[|worklist| - 1];
        assert worklist == worklist[..|worklist| - 1] + [item];
        Popped(was, heap.arenas, roots, worklist[..|worklist| - 1], item);
        worklist := worklist[..|worklist| - 1];
        ok := TraceObject(item, roots, was);
        if !ok {
          return false;
        }
      }
      forall h ensures Reachable(was, roots, h) <==> Resolves(was, h) && Marked(heap.arenas, h) {
        AllRoots(heap.arenas, roots);
        MarkedIsReachable(was, heap.arenas, roots, h);
      }
      NoneStale(was, heap.arenas, roots);
      OnlyLive(was, heap.arenas, roots);
      return true;
    }

    /** Marks what one object owns. */
    method TraceObject(item: Handle, roots: seq<Handle>, ghost was: Arenas) returns (ok: bool)
      requires Marking(was, heap.arenas, roots, worklist, Some(item), 0) && RootsMarked(heap.arenas, roots, |roots|)
      requires Resolves(heap.arenas, item) && Marked(heap.arenas, item) && Reachable(was, roots, item)
      requires AllKinds(heap.arenas)
      modifies this`worklist, heap`arenas
      ensures SameButMarks(was, heap.arenas) && AllKinds(heap.arenas)
      ensures ok ==> Marking(was, heap.arenas, roots, worklist, None, 0) && RootsMarked(heap.arenas, roots, |roots|)
      ensures WhiteSlots(heap.arenas) + |worklist| <= WhiteSlots(old(heap.arenas)) + |old(worklist)|
      ensures !ok ==> !NoStale(was, roots)
    {
      hide Marking, SameButMarks, NoStale, Reachable, WhiteSlots, RootsMarked, Trace, Marked;
      var edges := Trace(heap.arenas[item.kind][item.index].state.payload);
      MarkingSame(was, heap.arenas, roots, worklist, Some(item), 0);
      for j := 0 to |edges|
        invariant Marking(was, heap.arenas, roots, worklist, Some(item), j) && RootsMarked(heap.arenas, roots, |roots|)
        invariant SameButMarks(was, heap.arenas) && AllKinds(heap.arenas)
        invariant Resolves(heap.arenas, item) && Marked(heap.arenas, item) && Edges(heap.arenas, item) == edges
        invariant WhiteSlots(heap.arenas) + |worklist| <= WhiteSlots(old(heap.arenas)) + |old(worklist)|
      {
        ghost var a, work := heap.arenas, worklist;
        SameResolves(was, a, item);
        SameResolves(was, a, edges[j]);
        EdgeReachable(was, roots, item, edges[j]);
        ok := Mark(edges[j]);
        if !ok {
          StaleFound(was, roots, edges[j]);
          return false;
        }
        if !Marked(a, edges[j]) {
          MarkOne(was, a, roots, work, Some(item), j, edges[j]);
          MarkedIsOneLess(a, edges[j]);
        }
        EdgeMarked(was, a, heap.arenas, roots, worklist, item, j);
        MarkingSame(was, heap.arenas, roots, worklist, Some(item), j + 1);
      }
      Finished(was, heap.arenas, roots, worklist, item);
      return true;
    }
  }

  /** The first `n` roots name marked live objects. */
  ghost predicate RootsMarked(a: Arenas, roots: seq<Handle>, n: nat) {
    n <= |roots| && forall i :: 0 <= i < n ==> Resolves(a, roots[i]) && Marked(a, roots[i])
  }

  function Swept(s: seq<Slot>): (r: seq<Slot>)
    ensures |r| == |s| && forall i :: 0 <= i < |s| ==> r[i] == SweptSlot(s[i])
  {
    seq(|s|, i requires 0 <= i < |s| => SweptSlot(s[i]))
  }

  lemma {:induction false} NothingThere(a: Arenas, n: nat)
    requires AllKinds(a) && n <= |KINDS| && forall k: Kind :: a[k] == []
    ensures Total(a, n, IsLive) == 0
    decreases n
  {
    if n > 0 {
      NothingThere(a, n - 1);
    }
  }

  // ----- what a collection leaves -----

  lemma LiveAfter(a: Arenas, b: Arenas, roots: seq<Handle>, h: Handle)
    requires Collected(a, b, roots)
    ensures Resolves(b, h) <==> Resolves(a, h) && Reachable(a, roots, h)
    ensures Resolves(b, h) ==> b[h.kind][h.index] == a[h.kind][h.index]
  {
    hide Reachable;
    if InRange(a, h.kind, h.index) {
      assert h.generation == a[h.kind][h.index].generation ==> h == HandleOf(a, h.kind, h.index);
    }
  }

  lemma {:induction false} PrefixReachable(a: Arenas, roots: seq<Handle>, p: seq<Handle>, n: nat)
    requires IsPath(a, roots, p) && n < |p|
    ensures Reachable(a, roots, p[n])
  {
    var q := p[..n + 1];
    assert IsPath(a, roots, q) && q[|q| - 1] == p[n];
  }

  /** The reachable objects are the same before and after a collection, so a second one from the same
      roots would find nothing to do and no stale handle. */
  lemma CollectionKeepsReachability(a: Arenas, b: Arenas, roots: seq<Handle>, h: Handle)
    requires Collected(a, b, roots) && NoStale(a, roots)
    ensures Reachable(a, roots, h) <==> Reachable(b, roots, h)
    ensures Reachable(b, roots, h) ==> Resolves(b, h) && b[h.kind][h.index] == a[h.kind][h.index]
  {
    hide Collected, Resolves, Owns;
    if Reachable(a, roots, h) {
      var p: seq<Handle> :| IsPath(a, roots, p) && p[|p| - 1] == h;
      forall i | 0 <= i < |p| - 1 ensures Holds(b, p[i], p[i + 1]) {
        assert Holds(a, p[i], p[i + 1]);
        PrefixReachable(a, roots, p, i);
        LiveAfter(a, b, roots, p[i]);
      }
      assert IsPath(b, roots, p);
      LiveAfter(a, b, roots, h);
    }
    if Reachable(b, roots, h) {
      var p: seq<Handle> :| IsPath(b, roots, p) && p[|p| - 1] == h;
      forall i | 0 <= i < |p| - 1 ensures Holds(a, p[i], p[i + 1]) {
        assert Holds(b, p[i], p[i + 1]);
        LiveAfter(a, b, roots, p[i]);
      }
      assert IsPath(a, roots, p);
    }
  }

  // ----- a slot used over and over -----

  /** One slot, live, freed `n` times. */
  ghost predicate OneSlot(heap: Heap, n: nat)
    reads heap
  {
    && heap.Valid() && InRange(heap.arenas, Bytes, 0) && |heap.arenas[Bytes]| == 1
    && heap.arenas[Bytes][0].state == Live(Unmanaged) && FreesOf(heap.history, (Bytes, 0)) == n
  }

  lemma FirstTwo(s: seq<Slot>, free: seq<nat>)
    requires FreeListOk(s, free)
    ensures free != [] ==> free[0] < |s| && s[free[0]].state.Free?
    ensures |free| >= 2 ==> free[1] < |s| && free[0] != free[1]
  {
  }

  lemma OnlySlot(heap: Heap)
    requires heap.Valid() && InRange(heap.arenas, Bytes, 0) && |heap.arenas[Bytes]| == 1
    ensures SlotAccounted(heap.arenas[Bytes][0], heap.history, (Bytes, 0))
    ensures Bytes in heap.free && heap.free[Bytes] == if heap.arenas[Bytes][0].state.Free? then [0] else []
  {
    hide Rising;
    var free := heap.free[Bytes];
    assert FreeListOk(heap.arenas[Bytes], free);
    FirstTwo(heap.arenas[Bytes], free);
    if heap.arenas[Bytes][0].state.Free? {
      assert 0 in free;
    }
  }

  lemma NothingHeld(a: Arenas)
    ensures NoStale(a, []) && forall h :: !Reachable(a, [], h)
  {
  }

  /** The buffer is dropped, collected, and a new one made in its place. */
  method Round(heap: Heap, ghost n: nat) returns (h: Handle)
    requires OneSlot(heap, n)
    modifies heap
    ensures OneSlot(heap, n + 1) && h == Handle(Bytes, 0, (n + 1) % U32)
  {
    hide Heap.Valid, Reachable, NoStale, Rising, Undisturbed, WasIssued;
    OnlySlot(heap);
    NothingHeld(heap.arenas);
    var freed := heap.Collect([]);
    OnlySlot(heap);
    h := heap.Alloc(Bytes, Unmanaged);
    OnlySlot(heap);
  }

  /** A program that keeps no reference to the buffers it makes, collected after each: after `n` rounds the
      first handle resolves again exactly if `n` is a multiple of 2^32, to a different object unless `n` is 0. */
  method Churn(n: nat) returns (heap: Heap, first: Handle, last: Handle)
    ensures fresh(heap) && OneSlot(heap, n) && first == Handle(Bytes, 0, 0) && last == Handle(Bytes, 0, n % U32)
    ensures Resolves(heap.arenas, first) <==> n % U32 == 0
    ensures IssuesOf(heap.history, (Bytes, 0)) != []
    ensures Occupant(heap.history, (Bytes, 0)) == IssuesOf(heap.history, (Bytes, 0))[0] <==> n == 0
  {
    hide Heap.Valid, AllKinds;
    heap := new Heap();
    first := heap.Alloc(Bytes, Unmanaged);
    last := first;
    for i := 0 to n
      invariant fresh(heap) && OneSlot(heap, i) && last == Handle(Bytes, 0, i % U32)
    {
      last := Round(heap, i);
    }
    OnlySlot(heap);
  }
}
