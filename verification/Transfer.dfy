/** Deep copy of values between actor heaps (src/vm/transfer.rs): `encode` with its ancestor guard
    against cycles, and `decode`. Heaps are arbitrary graphs, cycles and sharing included. */
module Transfer {
  import opened Results
  import opened Wrappers

  /** Values without heap parts: null, booleans, numbers, strings, big integers, ranges. */
  datatype Prim = Null | Bool(b: bool) | Int(n: int) | Float(bits: int) | Str(s: string) | BigInt(big: int)
    | Range(from: int, to: int, step: int, inclusive: bool)

  datatype SharedKind = Channel | Task | Socket | File

  datatype Value =
    | Primitive(p: Prim)
    | Bytes(ref: nat) | Array(ref: nat) | Object(ref: nat) | Map(ref: nat) | Set(ref: nat) | Function(ref: nat)
    | Shared(kind: SharedKind, id: nat)     // handles that cross by clone
    | Unsendable(what: string)              // iterators, generators, green threads, natives, ...

  datatype MapKey = KeyNull | KeyBool(b: bool) | KeyInt(n: int) | KeyStr(s: string)

  datatype TransferKey = TNull | TBool(b: bool) | TInt(n: int) | TStr(s: string)

  /** An insertion-ordered map: key `i` belongs to value `i`. */
  datatype Entries<+K, +V> = Entries(keys: seq<K>, values: seq<V>)

  datatype ClosureCell = ClosureCell(code: nat, upvalues: seq<nat>)

  datatype UpvalueCell = Open | Closed(v: Value)

  /** One arena per kind: the same number in two arenas is two different objects. */
  datatype Heap = Heap(
    arrays: map<nat, seq<Value>>, objects: map<nat, Entries<string, Value>>, maps: map<nat, Entries<MapKey, Value>>,
    sets: map<nat, seq<MapKey>>, bytes: map<nat, seq<int>>, closures: map<nat, ClosureCell>, upvalues: map<nat,
      UpvalueCell>)

  datatype Transfer =
    | TPrim(p: Prim)
    | TBytes(bytes: seq<int>)
    | TArray(items: seq<Transfer>)
    | TObject(names: seq<string>, items: seq<Transfer>)
    | TMap(keys: seq<TransferKey>, items: seq<Transfer>)
    | TSet(keys: seq<TransferKey>)
    | TClosure(code: nat, items: seq<Transfer>)
    | TShared(kind: SharedKind, id: nat)

  datatype Error = Cycle | NotSendable(what: string)


  // ----- keys -----

  function KeyToTransfer(k: MapKey): TransferKey {
    match k
    case KeyNull => TNull
    case KeyBool(b) => TBool(b)
    case KeyInt(n) => TInt(n)
    case KeyStr(s) => TStr(s)
  }

  function KeyFromTransfer(k: TransferKey): MapKey {
    match k
    case TNull => KeyNull
    case TBool(b) => KeyBool(b)
    case TInt(n) => KeyInt(n)
    case TStr(s) => KeyStr(s)
  }

  lemma KeysRoundTrip(k: MapKey, t: TransferKey)
    ensures KeyFromTransfer(KeyToTransfer(k)) == k && KeyToTransfer(KeyFromTransfer(t)) == t
  {
  }

  function KeysOf(ks: seq<MapKey>): (r: seq<TransferKey>)
    ensures |r| == |ks| && forall i :: 0 <= i < |ks| ==> r[i] == KeyToTransfer(ks[i])
  {
    seq(|ks|, i requires 0 <= i < |ks| => KeyToTransfer(ks[i]))
  }

  predicate Distinct<K(==)>(ks: seq<K>) {
    forall i, j :: 0 <= i < j < |ks| ==> ks[i] != ks[j]
  }

  // ----- heaps -----

  /** No dangling handle; maps and sets have distinct keys. */
  ghost predicate GoodHeap(h: Heap) {
    && (forall r :: r in h.arrays ==> GoodValues(h, h.arrays[r]))
    && (forall r :: r in h.objects ==>
         |h.objects[r].keys| == |h.objects[r].values| && Distinct(h.objects[r].keys)
           && GoodValues(h, h.objects[r].values))
    && (forall r :: r in h.maps ==>
         |h.maps[r].keys| == |h.maps[r].values| && Distinct(h.maps[r].keys) && GoodValues(h, h.maps[r].values))
    && (forall r :: r in h.sets ==> Distinct(h.sets[r]))
    && (forall r :: r in h.closures ==> forall u :: u in h.closures[r].upvalues ==> u in h.upvalues)
    && (forall u :: u in h.upvalues && h.upvalues[u].Closed? ==> GoodValue(h, h.upvalues[u].v))
  }

  predicate GoodValue(h: Heap, v: Value) {
    match v
    case Bytes(r) => r in h.bytes
    case Array(r) => r in h.arrays
    case Object(r) => r in h.objects
    case Map(r) => r in h.maps
    case Set(r) => r in h.sets
    case Function(r) => r in h.closures
    case _ => true
  }

  predicate GoodValues(h: Heap, vs: seq<Value>) {
    forall i :: 0 <= i < |vs| ==> GoodValue(h, vs[i])
  }

  /** Kinds a cycle can run through. */
  predicate Container(v: Value) {
    v.Array? || v.Object? || v.Map? || v.Function?
  }

  /** `w` is held directly by `v`. */
  predicate IsChild(h: Heap, v: Value, w: Value) {
    match v
    case Array(r) => r in h.arrays && w in h.arrays[r]
    case Object(r) => r in h.objects && w in h.objects[r].values
    case Map(r) => r in h.maps && w in h.maps[r].values
    case Function(r) => r in h.closures && exists i ::
      0 <= i < |h.closures[r].upvalues| && Captured(h, h.closures[r].upvalues[i], w)
    case _ => false
  }

  predicate Captured(h: Heap, u: nat, w: Value) {
    u in h.upvalues && h.upvalues[u] == Closed(w)
  }

  ghost predicate IsPath(h: Heap, p: seq<Value>) {
    p != [] && forall i :: 0 <= i < |p| - 1 ==> IsChild(h, p[i], p[i + 1])
  }

  /** Some path from `v` comes to a container it has been through, or to one of `ancestors`. */
  ghost predicate Loops(h: Heap, ancestors: set<Value>, v: Value) {
    exists p: seq<Value> :: IsPath(h, p) && p[0] == v && Comes(ancestors, p)
  }

  predicate Comes(ancestors: set<Value>, p: seq<Value>)
    requires p != []
  {
    var last := p[|p| - 1];
    Container(last) && (last in ancestors || last in p[..|p| - 1])
  }

  /** A value that cannot be copied: an unsendable one, or a function with a live captured variable. */
  predicate Stops(h: Heap, v: Value) {
    v.Unsendable? ||
    (v.Function? && v.ref in h.closures &&
     exists i :: 0 <= i < |h.closures[v.ref].upvalues| && HasOpen(h, h.closures[v.ref].upvalues[i]))
  }

  predicate HasOpen(h: Heap, u: nat) {
    u in h.upvalues && h.upvalues[u].Open?
  }

  ghost predicate Blocked(h: Heap, v: Value) {
    exists p: seq<Value> :: IsPath(h, p) && p[0] == v && Stops(h, p[|p| - 1])
  }

  /** What an error says about the value it was raised for. */
  ghost predicate Explains(h: Heap, ancestors: set<Value>, v: Value, e: Error) {
    match e
    case Cycle => Loops(h, ancestors, v)
    case NotSendable(_) => Blocked(h, v)
  }

  lemma PathFrom(h: Heap, v: Value, w: Value, p: seq<Value>)
    requires IsChild(h, v, w) && IsPath(h, p) && p[0] == w
    ensures IsPath(h, [v] + p)
  {
    var q := [v] + p;
    forall i | 0 <= i < |q| - 1 ensures IsChild(h, q[i], q[i + 1]) {
      if i > 0 {
        assert q[i] == p[i - 1] && q[i + 1] == p[i];
      }
    }
  }

  /** An error below `v` explains one at `v`. */
  lemma ExplainsUp(h: Heap, ancestors: set<Value>, v: Value, w: Value, e: Error)
    requires IsChild(h, v, w) && Explains(h, ancestors + {v}, w, e)
    ensures Explains(h, ancestors, v, e)
  {
    match e
    case Cycle =>
      var p: seq<Value> :| IsPath(h, p) && p[0] == w && Comes(ancestors + {v}, p);
      PathFrom(h, v, w, p);
      var q := [v] + p;
      assert q[|q| - 1] == p[|p| - 1] && q[..|q| - 1] == [v] + p[..|p| - 1];
      assert Comes(ancestors, q);
    case NotSendable(_) =>
      var p: seq<Value> :| IsPath(h, p) && p[0] == w && Stops(h, p[|p| - 1]);
      PathFrom(h, v, w, p);
      var q := [v] + p;
      assert q[|q| - 1] == p[|p| - 1];
  }

  lemma ExplainsHere(h: Heap, ancestors: set<Value>, v: Value)
    ensures Container(v) && v in ancestors ==> Explains(h, ancestors, v, Cycle)
    ensures Stops(h, v) ==> forall w :: Explains(h, ancestors, v, NotSendable(w))
  {
    var p := [v];
    assert IsPath(h, p) && p[|p| - 1] == v;
    if Container(v) && v in ancestors {
      assert Comes(ancestors, p);
    }
  }

  // ----- trees -----

  /** `t` is the tree unfolding of `v`, all of whose own handles are numbered `lo` or above. */
  ghost predicate Unfolds(h: Heap, v: Value, t: Transfer, lo: nat)
    decreases t, 0
  {
    match t
    case TPrim(p) => v == Primitive(p)
    case TShared(k, id) => v == Shared(k, id)
    case TBytes(b) => v.Bytes? && v.ref >= lo && v.ref in h.bytes && h.bytes[v.ref] == b
    case TSet(ks) => v.Set? && v.ref >= lo && v.ref in h.sets && KeysOf(h.sets[v.ref]) == ks
    case TArray(ts) => (
      && v.Array? && v.ref >= lo && v.ref in h.arrays && |h.arrays[v.ref]| == |ts|
      && forall i :: 0 <= i < |ts| ==> Unfolds(h, h.arrays[v.ref][i], ts[i], lo))
    case TObject(ks, ts) => (
      && v.Object? && v.ref >= lo && v.ref in h.objects && h.objects[v.ref].keys == ks
      && |h.objects[v.ref].values| == |ts|
      && forall i :: 0 <= i < |ts| ==> Unfolds(h, h.objects[v.ref].values[i], ts[i], lo))
    case TMap(ks, ts) => (
      && v.Map? && v.ref >= lo && v.ref in h.maps && KeysOf(h.maps[v.ref].keys) == ks && |h.maps[v.ref].values| == |ts|
      && forall i :: 0 <= i < |ts| ==> Unfolds(h, h.maps[v.ref].values[i], ts[i], lo))
    case TClosure(f, ts) => (
      && v.Function? && v.ref >= lo && v.ref in h.closures && h.closures[v.ref].code == f
      && |h.closures[v.ref].upvalues| == |ts|
      && forall i :: 0 <= i < |ts| ==> UnfoldsCell(h, h.closures[v.ref].upvalues[i], ts[i], lo))
  }

  ghost predicate UnfoldsCell(h: Heap, u: nat, t: Transfer, lo: nat)
    decreases t, 1
  {
    u >= lo && u in h.upvalues && h.upvalues[u].Closed? && Unfolds(h, h.upvalues[u].v, t, lo)
  }

  /** A value has at most one unfolding. */
  lemma {:induction false} UnfoldingIsUnique(h: Heap, v: Value, s: Transfer, t: Transfer)
    requires Unfolds(h, v, s, 0) && Unfolds(h, v, t, 0)
    ensures s == t
    decreases s
  {
    if s.TArray? || s.TObject? || s.TMap? || s.TClosure? {
      assert |s.items| == |t.items|;
      forall i | 0 <= i < |s.items| ensures s.items[i] == t.items[i] {
        if s.TArray? {
          UnfoldingIsUnique(h, h.arrays[v.ref][i], s.items[i], t.items[i]);
        } else if s.TObject? {
          UnfoldingIsUnique(h, h.objects[v.ref].values[i], s.items[i], t.items[i]);
        } else if s.TMap? {
          UnfoldingIsUnique(h, h.maps[v.ref].values[i], s.items[i], t.items[i]);
        } else {
          var u := h.closures[v.ref].upvalues[i];
          assert UnfoldsCell(h, u, s.items[i], 0) && UnfoldsCell(h, u, t.items[i], 0);
          UnfoldingIsUnique(h, h.upvalues[u].v, s.items[i], t.items[i]);
        }
      }
    }
  }

  function Height(t: Transfer): nat
    decreases t, 1
  {
    if t.TArray? || t.TObject? || t.TMap? || t.TClosure? then 1 + Tallest(t.items) else 0
  }

  function Tallest(ts: seq<Transfer>): nat
    decreases ts, 0
  {
    if ts == [] then 0
    else
      var rest := Tallest(ts[1..]);
      if Height(ts[0]) > rest then Height(ts[0]) else rest
  }

  lemma {:induction false} TallestBounds(ts: seq<Transfer>, i: nat)
    requires i < |ts|
    ensures Height(ts[i]) <= Tallest(ts)
    decreases |ts|
  {
    if i > 0 {
      TallestBounds(ts[1..], i - 1);
    }
  }

  /** A child of a value that unfolds has a lower unfolding. */
  lemma ChildUnfolds(h: Heap, v: Value, t: Transfer, w: Value) returns (s: Transfer)
    requires Unfolds(h, v, t, 0) && IsChild(h, v, w)
    ensures Unfolds(h, w, s, 0) && Height(s) < Height(t)
  {
    var i: nat;
    if v.Array? {
      i :| 0 <= i < |h.arrays[v.ref]| && h.arrays[v.ref][i] == w;
    } else if v.Object? {
      i :| 0 <= i < |h.objects[v.ref].values| && h.objects[v.ref].values[i] == w;
    } else if v.Map? {
      i :| 0 <= i < |h.maps[v.ref].values| && h.maps[v.ref].values[i] == w;
    } else {
      i :| 0 <= i < |h.closures[v.ref].upvalues| && Captured(h, h.closures[v.ref].upvalues[i], w);
      assert UnfoldsCell(h, h.closures[v.ref].upvalues[i], t.items[i], 0);
    }
    s := t.items[i];
    TallestBounds(t.items, i);
  }

  /** Along a path the unfoldings get lower and lower. */
  lemma {:induction false} PathUnfolds(h: Heap, p: seq<Value>, t: Transfer, k: nat) returns (s: Transfer)
    requires IsPath(h, p) && Unfolds(h, p[0], t, 0) && k < |p|
    ensures Unfolds(h, p[k], s, 0) && Height(s) + k <= Height(t)
    decreases k
  {
    if k == 0 {
      s := t;
    } else {
      var u := PathUnfolds(h, p, t, k - 1);
      s := ChildUnfolds(h, p[k - 1], u, p[k]);
    }
  }

  /** A value with a finite tree has no cycle below it, and nothing that cannot be copied. */
  lemma UnfoldsIsClean(h: Heap, v: Value, t: Transfer)
    requires Unfolds(h, v, t, 0)
    ensures !Loops(h, {}, v) && !Blocked(h, v)
  {
    if Loops(h, {}, v) {
      var p: seq<Value> :| IsPath(h, p) && p[0] == v && Comes({}, p);
      var j := |p| - 1;
      var i :| 0 <= i < j && p[..j][i] == p[j];
      var a := PathUnfolds(h, p, t, i);
      var q := p[i..];
      assert IsPath(h, q) by {
        forall m | 0 <= m < |q| - 1 ensures IsChild(h, q[m], q[m + 1]) {
          assert IsChild(h, p[i + m], p[i + m + 1]);
        }
      }
      var b := PathUnfolds(h, q, a, j - i);
      UnfoldingIsUnique(h, p[i], a, b);
    }
    if Blocked(h, v) {
      var p: seq<Value> :| IsPath(h, p) && p[0] == v && Stops(h, p[|p| - 1]);
      var s := PathUnfolds(h, p, t, |p| - 1);
      UnfoldsNotStopped(h, p[|p| - 1], s);
    }
  }

  lemma UnfoldsNotStopped(h: Heap, v: Value, t: Transfer)
    requires Unfolds(h, v, t, 0)
    ensures !Stops(h, v)
  {
    if v.Function? {
      forall i | 0 <= i < |h.closures[v.ref].upvalues| ensures !HasOpen(h, h.closures[v.ref].upvalues[i]) {
        assert UnfoldsCell(h, h.closures[v.ref].upvalues[i], t.items[i], 0);
      }
    }
  }

  // ----- encode -----

  /** The containers on the way down to the value being encoded. */
  class CycleGuard {
    var arrays: seq<nat>
    var objects: seq<nat>
    var maps: seq<nat>
    var closures: seq<nat>

    constructor ()
      ensures Ancestors() == {}
    {
      arrays, objects, maps, closures := [], [], [], [];
    }

    ghost function Ancestors(): set<Value>
      reads this
    {
      (set r | r in arrays :: Array(r)) + (set r | r in objects :: Object(r)) + (set r | r in maps :: Map(r))
        + (set r | r in closures :: Function(r))
    }

    predicate Contains(v: Value)
      requires Container(v)
      reads this
      ensures Contains(v) <==> v in Ancestors()
    {
      match v
      case Array(r) => r in arrays
      case Object(r) => r in objects
      case Map(r) => r in maps
      case Function(r) => r in closures
    }

    method Push(v: Value)
      requires Container(v)
      modifies this
      ensures Ancestors() == old(Ancestors()) + {v}
      ensures arrays == old(arrays) + (if v.Array? then [v.ref] else [])
        && objects == old(objects) + (if v.Object? then [v.ref] else [])
      ensures maps == old(maps) + (if v.Map? then [v.ref] else [])
        && closures == old(closures) + (if v.Function? then [v.ref] else [])
    {
      match v {
        case Array(r) => arrays := arrays + [r];
        case Object(r) => objects := objects + [r];
        case Map(r) => maps := maps + [r];
        case Function(r) => closures := closures + [r];
      }
    }

    method Pop(v: Value)
      requires Container(v) && (v.Array? ==> arrays != []) && (v.Object? ==> objects != [])
      requires (v.Map? ==> maps != []) && (v.Function? ==> closures != [])
      modifies this
      ensures arrays == (if v.Array? then old(arrays)[..|old(arrays)| - 1] else old(arrays))
      ensures objects == (if v.Object? then old(objects)[..|old(objects)| - 1] else old(objects))
      ensures maps == (if v.Map? then old(maps)[..|old(maps)| - 1] else old(maps))
      ensures closures == (if v.Function? then old(closures)[..|old(closures)| - 1] else old(closures))
    {
      match v {
        case Array(_) => arrays := arrays[..|arrays| - 1];
        case Object(_) => objects := objects[..|objects| - 1];
        case Map(_) => maps := maps[..|maps| - 1];
        case Function(_) => closures := closures[..|closures| - 1];
      }
    }

    twostate predicate Same()
      reads this
    {
      arrays == old(arrays) && objects == old(objects) && maps == old(maps) && closures == old(closures)
    }

    twostate lemma SameAncestors()
      requires Same()
      ensures Ancestors() == old(Ancestors())
    {
    }
  }

  /** Every container of the heap, as a value. */
  function Containers(h: Heap): set<Value> {
    (set r | r in h.arrays :: Array(r)) + (set r | r in h.objects :: Object(r)) + (set r | r in h.maps :: Map(r))
      + (set r | r in h.closures :: Function(r))
  }

  /** How many containers may still be entered: the guard bounds the descent, whatever the heap. */
  ghost function Remaining(h: Heap, g: CycleGuard): nat
    reads g
  {
    |Containers(h) - g.Ancestors()|
  }

  lemma OneMoreAncestor(h: Heap, ancestors: set<Value>, v: Value)
    requires v in Containers(h) && v !in ancestors
    ensures |Containers(h) - (ancestors + {v})| < |Containers(h) - ancestors|
  {
    var a, b := Containers(h) - ancestors, Containers(h) - (ancestors + {v});
    assert a == b + {v} && v !in b;
  }

  lemma InContainers(h: Heap, v: Value)
    requires Container(v) && GoodValue(h, v)
    ensures v in Containers(h)
  {
  }

  /** What a container of a good heap holds is good. */
  lemma GoodContents(h: Heap, v: Value)
    requires GoodHeap(h) && GoodValue(h, v)
    ensures v.Array? ==> GoodValues(h, h.arrays[v.ref])
    ensures v.Object? ==> GoodValues(h, h.objects[v.ref].values)
    ensures v.Map? ==> GoodValues(h, h.maps[v.ref].values)
    ensures v.Function? ==> forall i :: 0 <= i < |h.closures[v.ref].upvalues| ==>
      GoodCell(h, h.closures[v.ref].upvalues[i])
  {
  }

  predicate GoodCell(h: Heap, u: nat) {
    u in h.upvalues && (h.upvalues[u].Closed? ==> GoodValue(h, h.upvalues[u].v))
  }

  /** The whole value, from an empty guard: it is copied exactly when no cycle and nothing uncopyable
      lies below it, and then to its tree; an error says which of the two was met. */
  method Encode(h: Heap, v: Value) returns (r: Result<Transfer, Error>)
    requires GoodHeap(h) && GoodValue(h, v)
    ensures r.Ok? <==> !Loops(h, {}, v) && !Blocked(h, v)
    ensures r.Ok? ==> Unfolds(h, v, r.value, 0)
    ensures r.Err? ==> Explains(h, {}, v, r.error)
  {
    hide Unfolds, Loops, Blocked, GoodHeap;
    var g := new CycleGuard();
    r := EncodeInner(h, v, g);
    if r.Ok? {
      UnfoldsIsClean(h, v, r.value);
    }
  }

  method EncodeInner(h: Heap, v: Value, g: CycleGuard) returns (r: Result<Transfer, Error>)
    requires GoodHeap(h) && GoodValue(h, v)
    modifies g
    ensures r.Ok? ==> g.Same() && g.Ancestors() == old(g.Ancestors()) && Unfolds(h, v, r.value, 0)
    ensures r.Err? ==> Explains(h, old(g.Ancestors()), v, r.error)
    decreases Remaining(h, g), 0
  {
    hide Loops, Blocked;
    ExplainsHere(h, g.Ancestors(), v);
    match v {
      case Primitive(p) => r := Ok(TPrim(p));
      case Shared(k, id) => r := Ok(TShared(k, id));
      case Bytes(b) => r := Ok(TBytes(h.bytes[b]));
      case Set(s) => r := Ok(TSet(KeysOf(h.sets[s])));
      case Unsendable(w) => r := Err(NotSendable(w));
      case _ =>
        if g.Contains(v) {
          return Err(Cycle);
        }
        r := EncodeContainer(h, v, g);
    }
  }

  method EncodeContainer(h: Heap, v: Value, g: CycleGuard) returns (r: Result<Transfer, Error>)
    requires GoodHeap(h) && GoodValue(h, v) && Container(v) && v !in g.Ancestors()
    modifies g
    ensures r.Ok? ==> g.Same() && g.Ancestors() == old(g.Ancestors()) && Unfolds(h, v, r.value, 0)
    ensures r.Err? ==> Explains(h, old(g.Ancestors()), v, r.error)
    decreases Remaining(h, g), 0, 0
  {
    hide Loops, Blocked, Explains, GoodHeap, GoodValues, Containers, CycleGuard.Ancestors;
    ghost var before := g.Ancestors();
    InContainers(h, v);
    OneMoreAncestor(h, before, v);
    GoodContents(h, v);
    g.Push(v);
    var items: Result<seq<Transfer>, Error>;
    match v {
      case Array(a) =>
        items := EncodeAll(h, v, h.arrays[a], g, before);
        if items.Err? {
          return Err(items.error);
        }
        r := Ok(TArray(items.value));
      case Object(o) =>
        items := EncodeAll(h, v, h.objects[o].values, g, before);
        if items.Err? {
          return Err(items.error);
        }
        r := Ok(TObject(h.objects[o].keys, items.value));
      case Map(m) =>
        items := EncodeAll(h, v, h.maps[m].values, g, before);
        if items.Err? {
          return Err(items.error);
        }
        r := Ok(TMap(KeysOf(h.maps[m].keys), items.value));
      case Function(c) =>
        items := EncodeCells(h, v, g, before);
        if items.Err? {
          return Err(items.error);
        }
        r := Ok(TClosure(h.closures[c].code, items.value));
    }
    g.Pop(v);
    g.SameAncestors();
  }

  /** The elements of `parent`, in order, stopping at the first error. */
  method EncodeAll(h: Heap, parent: Value, vs: seq<Value>, g: CycleGuard, ghost before: set<Value>)
    returns (r: Result<seq<Transfer>, Error>)
    requires GoodHeap(h) && GoodValues(h, vs) && g.Ancestors() == before + {parent}
    requires forall i :: 0 <= i < |vs| ==> IsChild(h, parent, vs[i])
    modifies g
    ensures r.Ok? ==> g.Same() && g.Ancestors() == old(g.Ancestors()) && |r.value| == |vs| && forall i ::
      0 <= i < |vs| ==> Unfolds(h, vs[i], r.value[i], 0)
    ensures r.Err? ==> Explains(h, before, parent, r.error)
    decreases Remaining(h, g), 1
  {
    hide Unfolds, Loops, Blocked, Explains, GoodHeap, CycleGuard.Ancestors;
    var out := [];
    for i := 0 to |vs|
      invariant g.Same() && g.Ancestors() == before + {parent} && |out| == i
      invariant forall j :: 0 <= j < i ==> Unfolds(h, vs[j], out[j], 0)
    {
      var t := EncodeInner(h, vs[i], g);
      if t.Err? {
        ExplainsUp(h, before, parent, vs[i], t.error);
        return Err(t.error);
      }
      out := out + [t.value];
    }
    return Ok(out);
  }

  /** The captured variables of a function, in order; one that is still live cannot be copied. */
  method EncodeCells(h: Heap, parent: Value, g: CycleGuard, ghost before: set<Value>)
    returns (r: Result<seq<Transfer>, Error>)
    requires GoodHeap(h) && parent.Function? && parent.ref in h.closures && g.Ancestors() == before + {parent}
    modifies g
    ensures r.Ok? ==> g.Same() && g.Ancestors() == old(g.Ancestors()) && |r.value| == |h.closures[parent.ref].upvalues|
    ensures r.Ok? ==> forall i :: 0 <= i < |r.value| ==>
      UnfoldsCell(h, h.closures[parent.ref].upvalues[i], r.value[i], 0)
    ensures r.Err? ==> Explains(h, before, parent, r.error)
    decreases Remaining(h, g), 1
  {
    hide Unfolds, Loops, Blocked, Explains, GoodHeap, Containers, CycleGuard.Ancestors;
    GoodContents(h, parent);
    var cells := h.closures[parent.ref].upvalues;
    var out := [];
    for i := 0 to |cells|
      invariant g.Same() && g.Ancestors() == before + {parent} && |out| == i
      invariant forall j :: 0 <= j < i ==> UnfoldsCell(h, cells[j], out[j], 0)
    {
      assert GoodCell(h, cells[i]);
      match h.upvalues[cells[i]] {
        case Open =>
          assert GoodCell(h, cells[i]) && HasOpen(h, cells[i]);
          ExplainsHere(h, before, parent);
          return Err(NotSendable("a function with live captured variables"));
        case Closed(v) =>
          assert GoodCell(h, cells[i]) && Captured(h, cells[i], v);
          var t := EncodeInner(h, v, g);
          if t.Err? {
            ExplainsUp(h, before, parent, v, t.error);
            return Err(t.error);
          }
          out := out + [t.value];
      }
    }
    return Ok(out);
  }

  // ----- decode -----

  /** Entries of maps and sets inside the tree have distinct keys, and as many keys as values. */
  predicate WellKeyed(t: Transfer)
    decreases t
  {
    match t
    case TArray(ts) => forall i :: 0 <= i < |ts| ==> WellKeyed(ts[i])
    case TObject(ks, ts) => |ks| == |ts| && Distinct(ks) && forall i :: 0 <= i < |ts| ==> WellKeyed(ts[i])
    case TMap(ks, ts) => |ks| == |ts| && Distinct(ks) && forall i :: 0 <= i < |ts| ==> WellKeyed(ts[i])
    case TSet(ks) => Distinct(ks)
    case TClosure(_, ts) => forall i :: 0 <= i < |ts| ==> WellKeyed(ts[i])
    case _ => true
  }

  lemma KeysStayDistinct(ks: seq<MapKey>)
    requires Distinct(ks)
    ensures Distinct(KeysOf(ks))
  {
    forall i, j | 0 <= i < j < |ks| ensures KeysOf(ks)[i] != KeysOf(ks)[j] {
      KeysRoundTrip(ks[i], TNull);
      KeysRoundTrip(ks[j], TNull);
    }
  }

  /** What a good heap unfolds to is well keyed. */
  lemma {:induction false} UnfoldingIsWellKeyed(h: Heap, v: Value, t: Transfer)
    requires GoodHeap(h) && Unfolds(h, v, t, 0)
    ensures WellKeyed(t)
    decreases t
  {
    if t.TSet? {
      KeysStayDistinct(h.sets[v.ref]);
    } else if t.TArray? || t.TObject? || t.TMap? || t.TClosure? {
      if t.TMap? {
        KeysStayDistinct(h.maps[v.ref].keys);
      }
      forall i | 0 <= i < |t.items| ensures WellKeyed(t.items[i]) {
        if t.TArray? {
          UnfoldingIsWellKeyed(h, h.arrays[v.ref][i], t.items[i]);
        } else if t.TObject? {
          UnfoldingIsWellKeyed(h, h.objects[v.ref].values[i], t.items[i]);
        } else if t.TMap? {
          UnfoldingIsWellKeyed(h, h.maps[v.ref].values[i], t.items[i]);
        } else {
          assert UnfoldsCell(h, h.closures[v.ref].upvalues[i], t.items[i], 0);
          UnfoldingIsWellKeyed(h, h.upvalues[h.closures[v.ref].upvalues[i]].v, t.items[i]);
        }
      }
    }
  }

  predicate Sub<T(==)>(a: map<nat, T>, b: map<nat, T>) {
    forall r :: r in a ==> r in b && b[r] == a[r]
  }

  /** Everything in `a` is in `b`, unchanged. */
  ghost predicate Extends(a: Heap, b: Heap) {
    && Sub(a.arrays, b.arrays) && Sub(a.objects, b.objects) && Sub(a.maps, b.maps) && Sub(a.sets, b.sets)
    && Sub(a.bytes, b.bytes) && Sub(a.closures, b.closures) && Sub(a.upvalues, b.upvalues)
  }

  /** A tree already built is not touched by later allocations. */
  lemma {:induction false} UnfoldingStays(a: Heap, b: Heap, v: Value, t: Transfer, hi: nat, lo: nat)
    requires Extends(a, b) && lo <= hi && Unfolds(a, v, t, hi)
    ensures Unfolds(b, v, t, lo)
    decreases t, 0
  {
    if t.TArray? || t.TObject? || t.TMap? {
      forall i | 0 <= i < |t.items| ensures Unfolds(b, ItemOf(b, v, i), t.items[i], lo) {
        UnfoldingStays(a, b, ItemOf(a, v, i), t.items[i], hi, lo);
      }
      if t.TArray? {
        assert forall i :: 0 <= i < |t.items| ==> ItemOf(b, v, i) == b.arrays[v.ref][i];
      } else if t.TObject? {
        assert forall i :: 0 <= i < |t.items| ==> ItemOf(b, v, i) == b.objects[v.ref].values[i];
      } else {
        assert forall i :: 0 <= i < |t.items| ==> ItemOf(b, v, i) == b.maps[v.ref].values[i];
      }
    } else if t.TClosure? {
      forall i | 0 <= i < |t.items| ensures UnfoldsCell(b, b.closures[v.ref].upvalues[i], t.items[i], lo) {
        CellStays(a, b, a.closures[v.ref].upvalues[i], t.items[i], hi, lo);
      }
    }
  }

  lemma {:induction false} CellStays(a: Heap, b: Heap, u: nat, t: Transfer, hi: nat, lo: nat)
    requires Extends(a, b) && lo <= hi && UnfoldsCell(a, u, t, hi)
    ensures UnfoldsCell(b, u, t, lo)
    decreases t, 1
  {
    UnfoldingStays(a, b, a.upvalues[u].v, t, hi, lo);
  }

  function ItemOf(h: Heap, v: Value, i: nat): Value {
    if v.Array? && v.ref in h.arrays && i < |h.arrays[v.ref]| then h.arrays[v.ref][i]
    else if v.Object? && v.ref in h.objects && i < |h.objects[v.ref].values| then h.objects[v.ref].values[i]
    else if v.Map? && v.ref in h.maps && i < |h.maps[v.ref].values| then h.maps[v.ref].values[i]
    else Primitive(Null)
  }

  /** Every handle number in use is below `n`. */
  predicate Below(h: Heap, n: nat) {
    && (forall r :: r in h.arrays ==> r < n) && (forall r :: r in h.objects ==> r < n)
         && (forall r :: r in h.maps ==> r < n)
    && (forall r :: r in h.sets ==> r < n) && (forall r :: r in h.bytes ==> r < n)
         && (forall r :: r in h.closures ==> r < n)
    && (forall r :: r in h.upvalues ==> r < n)
  }

  /** The receiving heap; `next` is a number no handle has yet. */
  class Store {
    var heap: Heap
    var next: nat

    ghost predicate Valid()
      reads this
    {
      Below(heap, next)
    }

    constructor ()
      ensures Valid()
    {
      heap := Heap(map[], map[], map[], map[], map[], map[], map[]);
      next := 0;
    }

    /** Rebuilds the tree: a value with that unfolding, made of new objects only; nothing that was in
        the heap is touched. */
    method Decode(t: Transfer) returns (v: Value)
      requires Valid() && WellKeyed(t)
      modifies this
      ensures Valid() && next >= old(next) && Extends(old(heap), heap) && Unfolds(heap, v, t, old(next))
      decreases t, 0
    {
      hide Extends, Valid;
      ExtendsSelf(heap);
      match t {
        case TPrim(p) => v := Primitive(p);
        case TShared(k, id) => v := Shared(k, id);
        case TBytes(b) =>
          var r := AllocBytes(b);
          v := Bytes(r);
        case TSet(ks) =>
          var keys := DecodeKeys(ks);
          var r := AllocSet(keys);
          v := Set(r);
        case TArray(ts) =>
          var vs := DecodeAll(ts);
          ghost var before := heap;
          var r := AllocArray(vs);
          v := Array(r);
          AllStay(before, heap, vs, ts, old(next));
          ExtendsTrans(old(heap), before, heap);
        case TObject(ks, ts) =>
          var entries := DecodeEntries(ks, ts);
          ghost var before := heap;
          var r := AllocObject(entries);
          v := Object(r);
          AllStay(before, heap, entries.values, ts, old(next));
          ExtendsTrans(old(heap), before, heap);
        case TMap(ks, ts) =>
          var keys := DecodeKeys(ks);
          var entries := DecodeEntries(keys, ts);
          ghost var before := heap;
          var r := AllocMap(entries);
          v := Map(r);
          AllStay(before, heap, entries.values, ts, old(next));
          ExtendsTrans(old(heap), before, heap);
        case TClosure(code, ts) =>
          var cells := DecodeCells(ts);
          ghost var before := heap;
          var r := AllocClosure(ClosureCell(code, cells));
          v := Function(r);
          CellsStay(before, heap, cells, ts, old(next));
          ExtendsTrans(old(heap), before, heap);
      }
    }

    // One new object of each kind, under a number no handle has yet.

    method AllocArray(vs: seq<Value>) returns (r: nat)
      requires Valid()
      modifies this
      ensures Valid() && r == old(next) && next == r + 1 && Extends(old(heap), heap)
      ensures heap == old(heap).(arrays := old(heap).arrays[r := vs])
    {
      r := next;
      heap := heap.(arrays := heap.arrays[r := vs]);
      next := next + 1;
    }

    method AllocObject(e: Entries<string, Value>) returns (r: nat)
      requires Valid()
      modifies this
      ensures Valid() && r == old(next) && next == r + 1 && Extends(old(heap), heap)
      ensures heap == old(heap).(objects := old(heap).objects[r := e])
    {
      r := next;
      heap := heap.(objects := heap.objects[r := e]);
      next := next + 1;
    }

    method AllocMap(e: Entries<MapKey, Value>) returns (r: nat)
      requires Valid()
      modifies this
      ensures Valid() && r == old(next) && next == r + 1 && Extends(old(heap), heap)
      ensures heap == old(heap).(maps := old(heap).maps[r := e])
    {
      r := next;
      heap := heap.(maps := heap.maps[r := e]);
      next := next + 1;
    }

    method AllocSet(ks: seq<MapKey>) returns (r: nat)
      requires Valid()
      modifies this
      ensures Valid() && r == old(next) && next == r + 1 && Extends(old(heap), heap)
      ensures heap == old(heap).(sets := old(heap).sets[r := ks])
    {
      r := next;
      heap := heap.(sets := heap.sets[r := ks]);
      next := next + 1;
    }

    method AllocBytes(b: seq<int>) returns (r: nat)
      requires Valid()
      modifies this
      ensures Valid() && r == old(next) && next == r + 1 && Extends(old(heap), heap)
      ensures heap == old(heap).(bytes := old(heap).bytes[r := b])
    {
      r := next;
      heap := heap.(bytes := heap.bytes[r := b]);
      next := next + 1;
    }

    method AllocClosure(c: ClosureCell) returns (r: nat)
      requires Valid()
      modifies this
      ensures Valid() && r == old(next) && next == r + 1 && Extends(old(heap), heap)
      ensures heap == old(heap).(closures := old(heap).closures[r := c])
    {
      r := next;
      heap := heap.(closures := heap.closures[r := c]);
      next := next + 1;
    }

    method AllocUpvalue(c: UpvalueCell) returns (r: nat)
      requires Valid()
      modifies this
      ensures Valid() && r == old(next) && next == r + 1 && Extends(old(heap), heap)
      ensures heap == old(heap).(upvalues := old(heap).upvalues[r := c])
    {
      r := next;
      heap := heap.(upvalues := heap.upvalues[r := c]);
      next := next + 1;
    }

    method DecodeAll(ts: seq<Transfer>) returns (vs: seq<Value>)
      requires Valid() && forall i :: 0 <= i < |ts| ==> WellKeyed(ts[i])
      modifies this
      ensures Valid() && next >= old(next) && Extends(old(heap), heap) && |vs| == |ts|
      ensures forall i :: 0 <= i < |ts| ==> Unfolds(heap, vs[i], ts[i], old(next))
      decreases ts, 0
    {
      hide Extends, Unfolds, WellKeyed, Valid;
      ExtendsSelf(heap);
      vs := [];
      for i := 0 to |ts|
        invariant Valid() && next >= old(next) && Extends(old(heap), heap) && |vs| == i
        invariant forall j :: 0 <= j < i ==> Unfolds(heap, vs[j], ts[j], old(next))
      {
        ghost var before, lo := heap, next;
        var v := Decode(ts[i]);
        ExtendsTrans(old(heap), before, heap);
        AllStay(before, heap, vs, ts[..i], old(next));
        ExtendsSelf(heap);
        UnfoldingStays(heap, heap, v, ts[i], lo, old(next));
        vs := vs + [v];
      }
    }

    /** Insertion into an insertion-ordered map: distinct keys keep their places. */
    method DecodeEntries<K(==)>(ks: seq<K>, ts: seq<Transfer>) returns (e: Entries<K, Value>)
      requires Valid() && |ks| == |ts| && Distinct(ks) && forall i :: 0 <= i < |ts| ==> WellKeyed(ts[i])
      modifies this
      ensures Valid() && next >= old(next) && Extends(old(heap), heap) && e.keys == ks && |e.values| == |ts|
      ensures forall i :: 0 <= i < |ts| ==> Unfolds(heap, e.values[i], ts[i], old(next))
      decreases ts, 0
    {
      hide Extends, Unfolds, WellKeyed, Valid;
      ExtendsSelf(heap);
      e := Entries([], []);
      for i := 0 to |ts|
        invariant Valid() && next >= old(next) && Extends(old(heap), heap) && e.keys == ks[..i] && |e.values| == i
        invariant forall j :: 0 <= j < i ==> Unfolds(heap, e.values[j], ts[j], old(next))
      {
        ghost var before, lo := heap, next;
        var v := Decode(ts[i]);
        ExtendsTrans(old(heap), before, heap);
        AllStay(before, heap, e.values, ts[..i], old(next));
        ExtendsSelf(heap);
        UnfoldingStays(heap, heap, v, ts[i], lo, old(next));
        InsertNew(e, ks[i], v);
        e := Insert(e, ks[i], v);
      }
    }

    method DecodeCells(ts: seq<Transfer>) returns (us: seq<nat>)
      requires Valid() && forall i :: 0 <= i < |ts| ==> WellKeyed(ts[i])
      modifies this
      ensures Valid() && next >= old(next) && Extends(old(heap), heap) && |us| == |ts|
      ensures forall i :: 0 <= i < |ts| ==> UnfoldsCell(heap, us[i], ts[i], old(next))
      decreases ts, 0
    {
      hide Extends, Unfolds, WellKeyed, Valid;
      ExtendsSelf(heap);
      us := [];
      for i := 0 to |ts|
        invariant Valid() && next >= old(next) && Extends(old(heap), heap) && |us| == i
        invariant forall j :: 0 <= j < i ==> UnfoldsCell(heap, us[j], ts[j], old(next))
      {
        ghost var before, lo := heap, next;
        var v := Decode(ts[i]);
        ghost var decoded := heap;
        var u := AllocUpvalue(Closed(v));
        ExtendsTrans(before, decoded, heap);
        ExtendsTrans(old(heap), before, heap);
        CellsStay(before, heap, us, ts[..i], old(next));
        UnfoldingStays(decoded, heap, v, ts[i], lo, old(next));
        us := us + [u];
      }
    }
  }

  method DecodeKeys(ts: seq<TransferKey>) returns (ks: seq<MapKey>)
    requires Distinct(ts)
    ensures KeysOf(ks) == ts && Distinct(ks)
  {
    ks := [];
    for i := 0 to |ts|
      invariant |ks| == i && forall j :: 0 <= j < i ==> ks[j] == KeyFromTransfer(ts[j])
    {
      ks := ks + [KeyFromTransfer(ts[i])];
    }
    forall i | 0 <= i < |ts| ensures KeysOf(ks)[i] == ts[i] {
      KeysRoundTrip(ks[i], ts[i]);
    }
    forall i, j | 0 <= i < j < |ks| ensures ks[i] != ks[j] {
      KeysRoundTrip(KeyNull, ts[i]);
      KeysRoundTrip(KeyNull, ts[j]);
    }
  }

  /** `IndexMap::insert`: an old key keeps its place and gets the new value. */
  function Insert<K(==)>(e: Entries<K, Value>, k: K, v: Value): Entries<K, Value> {
    match Find(e.keys, k)
    case Some(i) => if i < |e.values| then e.(values := e.values[i := v]) else e
    case None => Entries(e.keys + [k], e.values + [v])
  }

  function Find<K(==)>(ks: seq<K>, k: K): (r: Option<nat>)
    ensures r.Some? ==> r.value < |ks| && ks[r.value] == k
    decreases |ks|
  {
    if ks == [] then None else if ks[|ks| - 1] == k then Some(|ks| - 1) else Find(ks[..|ks| - 1], k)
  }

  lemma InsertNew<K>(e: Entries<K, Value>, k: K, v: Value)
    requires k !in e.keys
    ensures Insert(e, k, v) == Entries(e.keys + [k], e.values + [v])
  {
  }

  lemma ExtendsSelf(a: Heap)
    ensures Extends(a, a)
  {
  }

  lemma ExtendsTrans(a: Heap, b: Heap, c: Heap)
    requires Extends(a, b) && Extends(b, c)
    ensures Extends(a, c)
  {
  }

  lemma AllStay(a: Heap, b: Heap, vs: seq<Value>, ts: seq<Transfer>, lo: nat)
    requires Extends(a, b) && |vs| == |ts| && forall i :: 0 <= i < |ts| ==> Unfolds(a, vs[i], ts[i], lo)
    ensures forall i :: 0 <= i < |ts| ==> Unfolds(b, vs[i], ts[i], lo)
  {
    forall i | 0 <= i < |ts| ensures Unfolds(b, vs[i], ts[i], lo) {
      UnfoldingStays(a, b, vs[i], ts[i], lo, lo);
    }
  }

  lemma CellsStay(a: Heap, b: Heap, us: seq<nat>, ts: seq<Transfer>, lo: nat)
    requires Extends(a, b) && |us| == |ts| && forall i :: 0 <= i < |ts| ==> UnfoldsCell(a, us[i], ts[i], lo)
    ensures forall i :: 0 <= i < |ts| ==> UnfoldsCell(b, us[i], ts[i], lo)
  {
    forall i | 0 <= i < |ts| ensures UnfoldsCell(b, us[i], ts[i], lo) {
      CellStays(a, b, us[i], ts[i], lo, lo);
    }
  }

  // ----- what a program can see of a value -----

  /** What shows of a value before anything in it is looked at. */
  datatype Face =
    | OfPrimitive(p: Prim) | OfShared(kind: SharedKind, id: nat) | OfBytes(bytes: seq<int>) | OfArray(length: nat)
    | OfObject(names: seq<string>) | OfMap(keys: seq<MapKey>) | OfSet(members: seq<MapKey>)
    | OfFunction(code: nat, captured: nat) | NoFace

  function FaceOf(h: Heap, v: Value): Face {
    match v
    case Primitive(p) => OfPrimitive(p)
    case Shared(kind, id) => OfShared(kind, id)
    case Bytes(r) => if r in h.bytes then OfBytes(h.bytes[r]) else NoFace
    case Array(r) => if r in h.arrays then OfArray(|h.arrays[r]|) else NoFace
    case Object(r) => if r in h.objects then OfObject(h.objects[r].keys) else NoFace
    case Map(r) => if r in h.maps then OfMap(h.maps[r].keys) else NoFace
    case Set(r) => if r in h.sets then OfSet(h.sets[r]) else NoFace
    case Function(r) => if r in h.closures then OfFunction(h.closures[r].code, |h.closures[r].upvalues|) else NoFace
    case Unsendable(_) => NoFace
  }

  /** The value at position `i` inside `v`: an element, the value of a key, or a captured variable's. */
  function Inside(h: Heap, v: Value, i: nat): Option<Value> {
    match v
    case Array(r) => if r in h.arrays && i < |h.arrays[r]| then Some(h.arrays[r][i]) else None
    case Object(r) => if r in h.objects && i < |h.objects[r].values| then Some(h.objects[r].values[i]) else None
    case Map(r) => if r in h.maps && i < |h.maps[r].values| then Some(h.maps[r].values[i]) else None
    case Function(r) =>
      if r in h.closures && i < |h.closures[r].upvalues| && h.closures[r].upvalues[i] in h.upvalues
        && h.upvalues[h.closures[r].upvalues[i]].Closed? then
        Some(h.upvalues[h.closures[r].upvalues[i]].v)
      else None
    case _ => None
  }

  /** The value reached from `v` position by position. */
  function Follow(h: Heap, v: Value, path: seq<nat>): Option<Value>
    decreases |path|
  {
    if path == [] then Some(v)
    else
      match Inside(h, v, path[0])
      case None => None
      case Some(w) => Follow(h, w, path[1..])
  }

  predicate SameFace(h: Heap, v: Option<Value>, k: Heap, w: Option<Value>) {
    v.Some? == w.Some? && (v.Some? ==> FaceOf(h, v.value) == FaceOf(k, w.value))
  }

  /** Whatever way one goes into the two values, one sees the same. */
  ghost predicate LooksAlike(h: Heap, v: Value, k: Heap, w: Value) {
    forall path: seq<nat> :: SameFace(h, Follow(h, v, path), k, Follow(k, w, path))
  }

  predicate HasRef(v: Value) {
    !v.Primitive? && !v.Shared? && !v.Unsendable?
  }

  /** Every object in `v` is numbered `lo` or above. */
  ghost predicate AllNew(h: Heap, v: Value, lo: nat) {
    forall path: seq<nat> ::
      Follow(h, v, path).Some? && HasRef(Follow(h, v, path).value) ==> Follow(h, v, path).value.ref >= lo
  }

  lemma SameKeys(a: seq<MapKey>, b: seq<MapKey>)
    requires KeysOf(a) == KeysOf(b)
    ensures a == b
  {
    assert |KeysOf(a)| == |a| && |KeysOf(b)| == |b|;
    forall i | 0 <= i < |a| ensures a[i] == b[i] {
      assert KeysOf(a)[i] == KeysOf(b)[i];
      KeysRoundTrip(a[i], TNull);
      KeysRoundTrip(b[i], TNull);
    }
  }

  lemma SameTreeSameFace(h: Heap, v: Value, k: Heap, w: Value, t: Transfer, lo: nat, lo2: nat)
    requires Unfolds(h, v, t, lo) && Unfolds(k, w, t, lo2)
    ensures FaceOf(h, v) == FaceOf(k, w) && (HasRef(w) ==> w.ref >= lo2)
  {
    if t.TSet? {
      SameKeys(h.sets[v.ref], k.sets[w.ref]);
    } else if t.TMap? {
      SameKeys(h.maps[v.ref].keys, k.maps[w.ref].keys);
    }
  }

  /** What is inside a value with a tree. */
  lemma PartUnfolds(h: Heap, v: Value, t: Transfer, lo: nat, i: nat)
    requires Unfolds(h, v, t, lo)
    ensures Inside(h, v, i).Some? <==> (t.TArray? || t.TObject? || t.TMap? || t.TClosure?) && i < |t.items|
    ensures Inside(h, v, i).Some? ==> Unfolds(h, Inside(h, v, i).value, t.items[i], lo)
  {
    if t.TClosure? && i < |t.items| {
      assert UnfoldsCell(h, h.closures[v.ref].upvalues[i], t.items[i], lo);
    }
  }

  lemma {:induction false} SameTreeSameWay(h: Heap, v: Value, k: Heap, w: Value, t: Transfer, lo: nat, lo2: nat,
        path: seq<nat>)
    requires Unfolds(h, v, t, lo) && Unfolds(k, w, t, lo2)
    ensures var x, y := Follow(h, v, path), Follow(k, w, path);
      SameFace(h, x, k, y) && (y.Some? && HasRef(y.value) ==> y.value.ref >= lo2)
    decreases |path|
  {
    hide Unfolds, FaceOf, Inside;
    if path == [] {
      SameTreeSameFace(h, v, k, w, t, lo, lo2);
    } else {
      PartUnfolds(h, v, t, lo, path[0]);
      PartUnfolds(k, w, t, lo2, path[0]);
      if Inside(h, v, path[0]).Some? {
        SameTreeSameWay(h, Inside(h, v, path[0]).value, k, Inside(k, w, path[0]).value, t.items[path[0]], lo, lo2,
          path[1..]);
      }
    }
  }

  /** Values with the same tree look alike, whatever heaps they are in. */
  lemma SameTreeLooksAlike(h: Heap, v: Value, k: Heap, w: Value, t: Transfer, lo: nat, lo2: nat)
    requires Unfolds(h, v, t, lo) && Unfolds(k, w, t, lo2)
    ensures LooksAlike(h, v, k, w) && AllNew(k, w, lo2)
  {
    hide Unfolds, FaceOf, Follow, SameFace;
    forall path: seq<nat>
      ensures SameFace(h, Follow(h, v, path), k, Follow(k, w, path))
      ensures var y := Follow(k, w, path); y.Some? && HasRef(y.value) ==> y.value.ref >= lo2
    {
      SameTreeSameWay(h, v, k, w, t, lo, lo2, path);
    }
  }

  /** Sending a value: encode on one side, decode on the other. The copy has the tree of the original,
      shares nothing with what the receiver had, and leaves both as they were. */
  method Send(h: Heap, v: Value, receiver: Store) returns (r: Result<Value, Error>)
    requires GoodHeap(h) && GoodValue(h, v) && receiver.Valid()
    modifies receiver
    ensures receiver.Valid() && Extends(old(receiver.heap), receiver.heap)
    ensures r.Ok? <==> !Loops(h, {}, v) && !Blocked(h, v)
    ensures r.Ok? ==> exists t :: Unfolds(h, v, t, 0) && Unfolds(receiver.heap, r.value, t, old(receiver.next))
    ensures r.Ok? ==> LooksAlike(h, v, receiver.heap, r.value) && AllNew(receiver.heap, r.value, old(receiver.next))
    ensures r.Err? ==> Explains(h, {}, v, r.error) && receiver.heap == old(receiver.heap)
  {
    hide Extends, Unfolds, Loops, Blocked, GoodHeap, LooksAlike, AllNew;
    ExtendsSelf(receiver.heap);
    var encoded := Encode(h, v);
    if encoded.Err? {
      return Err(encoded.error);
    }
    UnfoldingIsWellKeyed(h, v, encoded.value);
    ghost var lo := receiver.next;
    var copy := receiver.Decode(encoded.value);
    SameTreeLooksAlike(h, v, receiver.heap, copy, encoded.value, 0, lo);
    return Ok(copy);
  }
}
