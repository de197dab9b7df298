/** Name resolution across nested functions (src/vm/compiler.rs:702-778): a name found in an enclosing
    function is threaded inward as a chain of upvalues, one per function, without duplicates. */
module Upvalues {
  import opened Wrappers

  datatype Local = Local(name: string, slot: nat, captured: bool)

  /** Where a closure finds a captured cell: in the enclosing frame's slots, or among the enclosing
      closure's own upvalues. */
  datatype UpvalueInfo = UpvalueInfo(isLocal: bool, index: nat)

  /** The part of a function under compilation that names resolve against; the newest local is last. */
  datatype Func = Func(locals: seq<Local>, upvalues: seq<UpvalueInfo>)

  datatype Resolved = AtLocal(slot: nat) | AtUpvalue(index: nat) | AtGlobal(index: nat)

  datatype Outcome = Found(r: Resolved) | NotFound | TooManyUpvalues

  /** A frame slot: of which function of the nest, and which one. */
  datatype Place = Place(func: nat, slot: nat)

  // ----- what a name means -----

  predicate NoLocal(locals: seq<Local>, x: string) {
    forall i :: 0 <= i < |locals| ==> locals[i].name != x
  }

  /** Local `i` is called `x`, and none declared after it is. */
  predicate IsNewest(locals: seq<Local>, i: nat, x: string) {
    i < |locals| && locals[i].name == x && forall j :: i < j < |locals| ==> locals[j].name != x
  }

  /** Seen from function `f`, the name `x` is local `i` of function `g`: the newest of that name there, with none
      of that name in the functions between. */
  predicate Binds(funcs: seq<Func>, f: nat, x: string, g: nat, i: nat) {
    g <= f < |funcs| && IsNewest(funcs[g].locals, i, x) && forall h :: g < h <= f ==> NoLocal(funcs[h].locals, x)
  }

  predicate Unbound(funcs: seq<Func>, f: nat, x: string)
    requires f < |funcs|
  {
    forall g :: 0 <= g <= f ==> NoLocal(funcs[g].locals, x)
  }

  function NewestSlot(locals: seq<Local>, x: string): Option<nat>
    decreases |locals|
  {
    if locals == [] then None
    else if locals[|locals| - 1].name == x then Some(locals[|locals| - 1].slot)
    else NewestSlot(locals[..|locals| - 1], x)
  }

  /** Lexical scoping: the newest local of that name in the nearest function around. */
  function Lexical(funcs: seq<Func>, f: nat, x: string): Option<Place>
    requires f < |funcs|
    decreases f
  {
    match NewestSlot(funcs[f].locals, x)
    case Some(s) => Some(Place(f, s))
    case None => if f > 0 then Lexical(funcs, f - 1, x) else None
  }

  lemma {:induction false} NewestSlotIs(locals: seq<Local>, x: string)
    ensures match NewestSlot(locals, x)
      case Some(s) => exists i: nat :: IsNewest(locals, i, x) && s == locals[i].slot
      case None => NoLocal(locals, x)
    decreases |locals|
  {
    if locals != [] {
      var n := |locals| - 1;
      if locals[n].name == x {
        assert IsNewest(locals, n, x);
      } else {
        NewestSlotIs(locals[..n], x);
        if NewestSlot(locals[..n], x).Some? {
          var i: nat :| IsNewest(locals[..n], i, x) && NewestSlot(locals[..n], x).value == locals[..n][i].slot;
          assert IsNewest(locals, i, x);
        }
      }
    }
  }

  /** The lookup finds the binding there is, and none if there is none. */
  lemma {:induction false} LexicalIs(funcs: seq<Func>, f: nat, x: string)
    requires f < |funcs|
    ensures match Lexical(funcs, f, x)
      case Some(p) => exists g: nat, i: nat :: Binds(funcs, f, x, g, i) && p == Place(g, funcs[g].locals[i].slot)
      case None => Unbound(funcs, f, x)
    decreases f
  {
    NewestSlotIs(funcs[f].locals, x);
    if NewestSlot(funcs[f].locals, x).Some? {
      var i: nat :| IsNewest(funcs[f].locals, i, x) && NewestSlot(funcs[f].locals, x).value == funcs[f].locals[i].slot;
      assert Binds(funcs, f, x, f, i);
    } else if f > 0 {
      LexicalIs(funcs, f - 1, x);
      if Lexical(funcs, f - 1, x).Some? {
        var g: nat, i: nat :| Binds(funcs, f - 1, x, g, i) &&
          Lexical(funcs, f - 1, x).value == Place(g, funcs[g].locals[i].slot);
        assert Binds(funcs, f, x, g, i);
      }
    }
  }

  function GlobalIndex(globals: seq<string>, x: string): (r: Option<nat>)
    ensures r.Some? ==> r.value < |globals| && globals[r.value] == x && x !in globals[..r.value]
    ensures r.None? ==> x !in globals
    decreases |globals|
  {
    if globals == [] then None
    else
      match GlobalIndex(globals[..|globals| - 1], x)
      case Some(i) => Some(i)
      case None => if globals[|globals| - 1] == x then Some(|globals| - 1) else None
  }

  // ----- what an emitted index means -----

  /** The slot that upvalue `i` of function `f` leads to, following the emitted infos outward. */
  function Follow(funcs: seq<Func>, f: nat, i: nat): Option<Place>
    decreases f
  {
    if f == 0 || f >= |funcs| || i >= |funcs[f].upvalues| then None
    else
      var u := funcs[f].upvalues[i];
      if u.isLocal then Some(Place(f - 1, u.index)) else Follow(funcs, f - 1, u.index)
  }

  function Meaning(funcs: seq<Func>, f: nat, r: Resolved): Option<Place> {
    match r
    case AtLocal(s) => Some(Place(f, s))
    case AtUpvalue(i) => Follow(funcs, f, i)
    case AtGlobal(_) => None
  }

  // ----- what resolution keeps -----

  /** Every chain ends in a slot, and no function lists one upvalue twice. */
  ghost predicate Linked(funcs: seq<Func>) {
    && (forall f, i :: 0 <= f < |funcs| && 0 <= i < |funcs[f].upvalues| ==> Follow(funcs, f, i).Some?)
    && (forall f :: 0 <= f < |funcs| ==> Distinct(funcs[f].upvalues))
  }

  predicate Distinct(us: seq<UpvalueInfo>) {
    forall i, j :: 0 <= j < i < |us| ==> us[j] != us[i]
  }

  /** Same locals but for the captured marks, which are only set; upvalue lists only grow, and those of
      functions inside `top` not at all. */
  predicate Extends(a: seq<Func>, b: seq<Func>, top: nat) {
    && |b| == |a|
    && forall f :: 0 <= f < |a| ==>
      && SameNames(a[f].locals, b[f].locals) && a[f].upvalues <= b[f].upvalues && (f > top ==> b[f] == a[f])
  }

  predicate SameNames(a: seq<Local>, b: seq<Local>) {
    |b| == |a| && forall i :: 0 <= i < |a| ==>
      b[i].name == a[i].name && b[i].slot == a[i].slot && (a[i].captured ==> b[i].captured)
  }

  lemma {:induction false} SameNewest(a: seq<Local>, b: seq<Local>, x: string)
    requires SameNames(a, b)
    ensures NewestSlot(a, x) == NewestSlot(b, x)
    decreases |a|
  {
    if a != [] {
      SameNewest(a[..|a| - 1], b[..|b| - 1], x);
    }
  }

  /** Captures change nothing for lexical lookup. */
  lemma {:induction false} SameLexical(a: seq<Func>, b: seq<Func>, top: nat, f: nat, x: string)
    requires Extends(a, b, top) && f < |a|
    ensures Lexical(a, f, x) == Lexical(b, f, x)
    decreases f
  {
    SameNewest(a[f].locals, b[f].locals, x);
    if f > 0 {
      SameLexical(a, b, top, f - 1, x);
    }
  }

  /** Every function of the nest looks up every name as before. */
  ghost predicate SameScopes(a: seq<Func>, b: seq<Func>) {
    |a| == |b| && forall g: nat, y: string :: g < |a| ==> Lexical(b, g, y) == Lexical(a, g, y)
  }

  lemma ExtendsKeepsScopes(a: seq<Func>, b: seq<Func>, top: nat)
    requires Extends(a, b, top)
    ensures SameScopes(a, b)
  {
    forall g: nat, y: string | g < |a| ensures Lexical(b, g, y) == Lexical(a, g, y) {
      SameLexical(a, b, top, g, y);
    }
  }

  /** An index, once emitted, leads to the same slot for ever. */
  lemma {:induction false} EmittedIndexIsStable(a: seq<Func>, b: seq<Func>, top: nat, f: nat, i: nat)
    requires Extends(a, b, top) && Follow(a, f, i).Some?
    ensures Follow(b, f, i) == Follow(a, f, i)
    decreases f
  {
    var u := a[f].upvalues[i];
    assert b[f].upvalues[i] == u;
    if !u.isLocal {
      EmittedIndexIsStable(a, b, top, f - 1, u.index);
    }
  }

  lemma ExtendsSelf(a: seq<Func>, top: nat)
    ensures Extends(a, a, top)
  {
  }

  lemma ExtendsTrans(a: seq<Func>, b: seq<Func>, c: seq<Func>, top: nat, top2: nat)
    requires Extends(a, b, top) && Extends(b, c, top2) && top <= top2
    ensures Extends(a, c, top2)
  {
    forall f | 0 <= f < |a| ensures SameNames(a[f].locals, c[f].locals) && a[f].upvalues <= c[f].upvalues
      && (f > top2 ==> c[f] == a[f]) {
      assert SameNames(a[f].locals, b[f].locals) && SameNames(b[f].locals, c[f].locals);
    }
  }

  lemma OneMore(us: seq<UpvalueInfo>, u: UpvalueInfo)
    requires Distinct(us) && u !in us
    ensures Distinct(us + [u])
  {
  }

  function WithUpvalue(a: seq<Func>, f: nat, u: UpvalueInfo): seq<Func>
    requires f < |a|
  {
    a[f := a[f].(upvalues := a[f].upvalues + [u])]
  }

  lemma GrownExtends(a: seq<Func>, f: nat, u: UpvalueInfo)
    requires f < |a|
    ensures Extends(a, WithUpvalue(a, f, u), f)
  {
  }

  lemma FollowNew(a: seq<Func>, f: nat, u: UpvalueInfo)
    requires 0 < f < |a| && (u.isLocal || Follow(a, f - 1, u.index).Some?)
    ensures Follow(WithUpvalue(a, f, u), f, |a[f].upvalues|) == if u.isLocal then Some(Place(f - 1, u.index))
      else Follow(a, f - 1, u.index)
  {
    hide Follow;
    var b := WithUpvalue(a, f, u);
    FollowOne(b, f, |a[f].upvalues|);
    if !u.isLocal {
      GrownExtends(a, f, u);
      EmittedIndexIsStable(a, b, f, f - 1, u.index);
    }
  }

  lemma FollowOne(a: seq<Func>, f: nat, i: nat)
    requires 0 < f < |a| && i < |a[f].upvalues|
    ensures var u := a[f].upvalues[i];
      Follow(a, f, i) == if u.isLocal then Some(Place(f - 1, u.index)) else Follow(a, f - 1, u.index)
  {
  }

  /** One new upvalue at the end of `f`'s list, leading somewhere. */
  lemma LinkAdded(a: seq<Func>, f: nat, u: UpvalueInfo)
    requires Linked(a) && 0 < f < |a| && u !in a[f].upvalues && (u.isLocal || Follow(a, f - 1, u.index).Some?)
    ensures Linked(WithUpvalue(a, f, u))
  {
    hide Distinct, Follow;
    var b := WithUpvalue(a, f, u);
    GrownExtends(a, f, u);
    OneMore(a[f].upvalues, u);
    FollowNew(a, f, u);
    forall g, i | 0 <= g < |b| && 0 <= i < |b[g].upvalues| ensures Follow(b, g, i).Some? {
      if g != f || i < |a[f].upvalues| {
        assert 0 <= i < |a[g].upvalues|;
        EmittedIndexIsStable(a, b, f, g, i);
      }
    }
  }

  lemma {:induction false} CapturedKeeps(a: seq<Func>, b: seq<Func>, f: nat, i: nat)
    requires |a| == |b| && forall g :: 0 <= g < |a| ==> a[g].upvalues == b[g].upvalues
    ensures Follow(a, f, i) == Follow(b, f, i)
    decreases f
  {
    if 0 < f < |a| && i < |a[f].upvalues| && !a[f].upvalues[i].isLocal {
      CapturedKeeps(a, b, f - 1, a[f].upvalues[i].index);
    }
  }

  predicate InSlot(ls: seq<Local>, slot: nat) {
    exists i :: 0 <= i < |ls| && ls[i].slot == slot
  }

  predicate CapturedIn(ls: seq<Local>, slot: nat) {
    exists i :: 0 <= i < |ls| && ls[i].slot == slot && ls[i].captured
  }

  class Compiler {
    const globals: seq<string>
    const hostGlobals: seq<string>
    var funcs: seq<Func>

    ghost predicate Valid()
      reads this
    {
      Linked(funcs)
    }

    constructor (globals: seq<string>, hostGlobals: seq<string>)
      ensures Valid() && funcs == [] && this.globals == globals && this.hostGlobals == hostGlobals
    {
      this.globals, this.hostGlobals := globals, hostGlobals;
      funcs := [];
    }

    /** A new innermost function, without captures yet. */
    method PushFunction(locals: seq<Local>)
      requires Valid()
      modifies this
      ensures Valid() && funcs == old(funcs) + [Func(locals, [])]
    {
      funcs := funcs + [Func(locals, [])];
      forall f, i | 0 <= f < |funcs| && 0 <= i < |funcs[f].upvalues|
        ensures Follow(funcs, f, i).Some?
      {
        assert Follow(old(funcs), f, i).Some?;
        FollowMore(old(funcs), funcs, f, i);
      }
    }

    /** The innermost function is done: what is left is the nest around it. */
    method PopFunction() returns (upvalues: seq<UpvalueInfo>)
      requires Valid() && funcs != []
      modifies this
      ensures Valid() && funcs == old(funcs)[..|old(funcs)| - 1] && upvalues == old(funcs)[|old(funcs)| - 1].upvalues
    {
      upvalues := funcs[|funcs| - 1].upvalues;
      funcs := funcs[..|funcs| - 1];
      forall f, i | 0 <= f < |funcs| && 0 <= i < |funcs[f].upvalues|
        ensures Follow(funcs, f, i).Some?
      {
        assert Follow(old(funcs), f, i).Some?;
        FollowMore(funcs, old(funcs), f, i);
      }
    }

    /** Resolves `x` from function `f` of the nest. The answer means what lexical scoping says; a global
        only if no enclosing function has a local of that name. */
    method ResolveIn(f: nat, x: string) returns (o: Outcome)
      requires Valid() && f < |funcs|
      modifies this`funcs
      ensures Valid() && |funcs| == |old(funcs)| && Extends(old(funcs), funcs, f) && SameScopes(old(funcs), funcs)
      ensures o.Found? && !o.r.AtGlobal? ==>
        Meaning(funcs, f, o.r) == Lexical(old(funcs), f, x) && Lexical(old(funcs), f, x).Some?
      ensures o.Found? && !o.r.AtGlobal? ==> exists g: nat, i: nat ::
        Binds(old(funcs), f, x, g, i) && Meaning(funcs, f, o.r) == Some(Place(g, old(funcs)[g].locals[i].slot))
      ensures o.NotFound? || (o.Found? && o.r.AtGlobal?) ==> Unbound(old(funcs), f, x)
      ensures var all := globals + hostGlobals;
        && (o.Found? && o.r.AtGlobal? ==> o.r.index < |all| && all[o.r.index] == x && x !in all[..o.r.index])
        && (o.NotFound? ==> x !in all)
      ensures o.Found? && o.r.AtGlobal? ==> GlobalIndex(globals + hostGlobals, x) == Some(o.r.index)
      ensures o.NotFound? ==> GlobalIndex(globals + hostGlobals, x).None?
      ensures o.NotFound? || (o.Found? && o.r.AtGlobal?) ==> Lexical(old(funcs), f, x).None? && funcs == old(funcs)
      ensures o.TooManyUpvalues? ==>
        Lexical(old(funcs), f, x).Some? && exists g :: 0 < g <= f && |funcs[g].upvalues| >= 256
      decreases f
    {
      hide Linked, Extends, Follow, GlobalIndex, SameScopes, Binds, Unbound;
      LexicalIs(funcs, f, x);
      ExtendsSelf(funcs, f);
      ExtendsKeepsScopes(funcs, funcs, f);
      var i := |funcs[f].locals|;
      assert funcs[f].locals[..i] == funcs[f].locals;
      while i > 0
        invariant 0 <= i <= |funcs[f].locals| && NewestSlot(funcs[f].locals, x) == NewestSlot(funcs[f].locals[..i], x)
      {
        assert funcs[f].locals[..i][..i - 1] == funcs[f].locals[..i - 1];
        if funcs[f].locals[i - 1].name == x {
          return Found(AtLocal(funcs[f].locals[i - 1].slot));
        }
        i := i - 1;
      }
      if f > 0 {
        var outer := ResolveIn(f - 1, x);
        ExtendsSelf(funcs, f);
        ExtendsTrans(old(funcs), funcs, funcs, f - 1, f);
        if outer.TooManyUpvalues? {
          return outer;
        }
        if outer.Found? {
          if outer.r.AtGlobal? {
            return outer;
          }
          ghost var before := funcs;
          o := ThreadThrough(f, outer.r);
          ExtendsTrans(old(funcs), before, funcs, f - 1, f);
          ExtendsKeepsScopes(old(funcs), funcs, f);
          return;
        }
      }
      o := FindGlobal(x);
    }

    /** What the enclosing function calls `outer` becomes an upvalue of `f`. */
    method ThreadThrough(f: nat, outer: Resolved) returns (o: Outcome)
      requires Valid() && 0 < f < |funcs| && Meaning(funcs, f - 1, outer).Some?
      modifies this`funcs
      ensures Valid() && |funcs| == |old(funcs)| && Extends(old(funcs), funcs, f)
      ensures (o.Found? && !o.r.AtGlobal?) || o.TooManyUpvalues?
      ensures o.Found? ==> Meaning(funcs, f, o.r) == Meaning(old(funcs), f - 1, outer)
      ensures o.TooManyUpvalues? ==> |funcs[f].upvalues| >= 256
    {
      hide Linked;
      match outer {
        case AtLocal(slot) =>
          MarkCaptured(f - 1, slot);
          ghost var before := funcs;
          o := AddUpvalue(f, UpvalueInfo(true, slot));
          ExtendsTrans(old(funcs), before, funcs, f - 1, f);
        case AtUpvalue(index) =>
          o := AddUpvalue(f, UpvalueInfo(false, index));
      }
    }

    /** Marks the enclosing function's local in `slot` as captured. */
    method MarkCaptured(f: nat, slot: nat)
      requires Valid() && f < |funcs|
      modifies this`funcs
      ensures Valid() && Extends(old(funcs), funcs, f) && forall g :: 0 <= g < |funcs| ==>
        funcs[g].upvalues == old(funcs)[g].upvalues
      ensures forall g, i :: Follow(funcs, g, i) == Follow(old(funcs), g, i)
      ensures InSlot(funcs[f].locals, slot) ==> CapturedIn(funcs[f].locals, slot)
    {
      var i := 0;
      while i < |funcs[f].locals| && funcs[f].locals[i].slot != slot
        invariant i <= |funcs[f].locals| && forall j :: 0 <= j < i ==> funcs[f].locals[j].slot != slot
      {
        i := i + 1;
      }
      if i < |funcs[f].locals| {
        funcs := funcs[f := funcs[f].(locals := funcs[f].locals[i := funcs[f].locals[i].(captured := true)])];
      }
      assert i < |funcs[f].locals| ==> funcs[f].locals[i].captured;
      forall g: nat, k: nat ensures Follow(funcs, g, k) == Follow(old(funcs), g, k) {
        CapturedKeeps(old(funcs), funcs, g, k);
      }
    }

    /** The index of `u` in `f`'s list: an existing one if there is one, else a new one at the end. */
    method AddUpvalue(f: nat, u: UpvalueInfo) returns (o: Outcome)
      requires Valid() && 0 < f < |funcs| && (u.isLocal || Follow(funcs, f - 1, u.index).Some?)
      modifies this`funcs
      ensures Valid() && Extends(old(funcs), funcs, f) && (o.Found? || o.TooManyUpvalues?)
      ensures o.Found? ==> o.r.AtUpvalue? && o.r.index < |funcs[f].upvalues| && funcs[f].upvalues[o.r.index] == u
      ensures o.Found? ==>
        Follow(funcs, f, o.r.index) == if u.isLocal then Some(Place(f - 1, u.index))
          else Follow(old(funcs), f - 1, u.index)
      ensures u in old(funcs)[f].upvalues ==> o.Found? && funcs == old(funcs)
      ensures o.TooManyUpvalues? ==> funcs == old(funcs) && |funcs[f].upvalues| >= 256
    {
      var i := 0;
      while i < |funcs[f].upvalues|
        invariant i <= |funcs[f].upvalues| && forall j :: 0 <= j < i ==> funcs[f].upvalues[j] != u
      {
        if funcs[f].upvalues[i] == u {
          return Found(AtUpvalue(i));
        }
        i := i + 1;
      }
      if |funcs[f].upvalues| >= 256 {
        return TooManyUpvalues;
      }
      LinkAdded(funcs, f, u);
      GrownExtends(funcs, f, u);
      FollowNew(funcs, f, u);
      funcs := WithUpvalue(funcs, f, u);
      return Found(AtUpvalue(|funcs[f].upvalues| - 1));
    }

    /** Built-ins first, then the host's modules, numbered after them. */
    method FindGlobal(x: string) returns (o: Outcome)
      ensures o == match GlobalIndex(globals + hostGlobals, x) case Some(i) => Found(AtGlobal(i)) case None => NotFound
    {
      var all := globals + hostGlobals;
      var i := 0;
      assert all[..|all|] == all;
      while i < |all|
        invariant 0 <= i <= |all| && GlobalIndex(all[..i], x).None?
      {
        assert all[..i + 1][..i] == all[..i];
        if all[i] == x {
          FirstIndex(all, x, i);
          return Found(AtGlobal(i));
        }
        i := i + 1;
      }
      return NotFound;
    }
  }

  lemma {:induction false} FollowMore(a: seq<Func>, b: seq<Func>, f: nat, i: nat)
    requires a <= b && f < |a|
    ensures Follow(b, f, i) == Follow(a, f, i)
    decreases f
  {
    if 0 < f && i < |a[f].upvalues| && !a[f].upvalues[i].isLocal {
      FollowMore(a, b, f - 1, a[f].upvalues[i].index);
    }
  }

  lemma {:induction false} FirstIndex(names: seq<string>, x: string, i: nat)
    requires i < |names| && names[i] == x && GlobalIndex(names[..i], x).None?
    ensures GlobalIndex(names, x) == Some(i)
    decreases |names|
  {
    var n := |names| - 1;
    if i < n {
      assert names[..n][..i] == names[..i];
      FirstIndex(names[..n], x, i);
    }
  }
}
