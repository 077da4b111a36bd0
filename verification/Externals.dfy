/** external<T>: a shared pointer that can be locked, after which its target is its own. */
module Externals {
  import opened Wrappers

  datatype Outcome = Done | NullReference | InvalidData

  /** What a shared pointer points to. */
  class Target<T> {
    var value: T

    constructor (value: T)
      ensures this.value == value
    {
      this.value := value;
    }
  }

  class External<T> {
    var ptr: Target?<T>
    var locked: bool

    constructor (ptr: Target?<T>, locked: bool)
      ensures this.ptr == ptr && this.locked == locked
    {
      this.ptr, this.locked := ptr, locked;
    }

    /**
      The copy constructor: deep from a locked external, shallow from any other; it throws for a
      locked one that is not set.
     */
    static method Copy(other: External<T>) returns (r: External?<T>, outcome: Outcome)
      ensures outcome == if other.locked && other.ptr == null then NullReference else Done
      ensures r != null <==> outcome == Done
      ensures r != null ==> fresh(r) && !r.locked
      ensures r != null && !other.locked ==> r.ptr == other.ptr
      ensures r != null && other.locked ==> r.ptr != null && fresh(r.ptr) && r.ptr.value == other.ptr.value
    {
      if other.locked {
        if other.ptr == null { return null, NullReference; }
        var target := new Target(other.ptr.value);
        r := new External(target, false);
      } else {
        r := new External(other.ptr, false);
      }
      outcome := Done;
    }

    /** Assignment copies a locked external over the existing object, so everything that shares it sees the change. */
    method Assign(other: External<T>) returns (outcome: Outcome)
      modifies this`ptr, if ptr == null then {} else {ptr}
      ensures outcome == if locked then InvalidData else if other.locked && old(other.ptr) == null then NullReference
              else Done
      ensures outcome != Done ==> ptr == old(ptr)
      ensures outcome != Done && ptr != null ==> ptr.value == old(ptr.value)
      ensures outcome == Done && !other.locked ==> ptr == old(other.ptr)
      ensures outcome == Done && !other.locked && old(ptr) != null ==> old(ptr).value == old(ptr.value)
      ensures outcome == Done && other.locked ==>
                old(other.ptr) != null && ptr != null && ptr.value == old(other.ptr.value)
      ensures outcome == Done && other.locked ==> if old(ptr) != null then ptr == old(ptr) else fresh(ptr)
    {
      if locked { return InvalidData; }
      if other.locked {
        if other.ptr == null { return NullReference; }
        if ptr != null {
          ptr.value := other.ptr.value;
        } else {
          ptr := new Target(other.ptr.value);
        }
      } else {
        ptr := other.ptr;
      }
      outcome := Done;
    }

    method Get() returns (r: Option<T>)
      ensures r == if ptr == null then None else Some(ptr.value)
    {
      r := if ptr == null then None else Some(ptr.value);
    }

    method Lock() returns (outcome: Outcome)
      modifies `locked
      ensures outcome == if ptr == null then NullReference else Done
      ensures locked == (old(locked) || ptr != null)
    {
      if ptr == null { return NullReference; }
      locked := true;
      outcome := Done;
    }
  }

  // ----- runs -----

  datatype Op<T> =
    | Create(value: Option<T>, locked: bool)
    | Copy(src: nat)
    | Assign(dst: nat, src: nat)
    | Lock(index: nat)

  predicate InRange<T>(op: Op<T>, n: nat) {
    match op
    case Create(_, _) => true
    case Copy(src) => src < n
    case Assign(dst, src) => dst < n && src < n
    case Lock(index) => index < n
  }

  ghost function Targets<T>(world: seq<External<T>>): set<Target<T>>
    reads set e | e in world
  {
    set e: External<T> | e in world && e.ptr != null :: e.ptr
  }

  /** Locked, and shared by no external that is not. */
  ghost predicate Sealed<T>(world: seq<External<T>>, e: External<T>)
    reads e, set x | x in world
  {
    e.locked && e.ptr != null && forall x :: x in world && x.ptr == e.ptr ==> x.locked
  }

  /** The external has its target still, with the same value, and nothing shares it that did not before. */
  twostate predicate Untouched<T>(before: seq<External<T>>, new after: seq<External<T>>, e: External<T>)
    reads e, e.ptr, set x | x in after
  {
    && e.ptr == old(e.ptr) && e.ptr != null && e.ptr.value == old(e.ptr.value)
    && forall x :: x in after && x.ptr == e.ptr ==> x in before && old(x.ptr) == e.ptr
  }

  /** A new external: not locked; it shares the target of an unlocked one, and has a copy of a locked one's. */
  twostate predicate CopyOf<T>(new e: External<T>, x: External<T>)
    reads e, e.ptr
  {
    && !e.locked
    && if old(x.locked) then e.ptr != null && fresh(e.ptr) && old(x.ptr) != null && e.ptr.value == old(x.ptr.value)
       else e.ptr == old(x.ptr)
  }

  /** An external that was assigned `x`: it shares an unlocked one's target, and takes over a locked one's value. */
  twostate predicate Assigned<T>(e: External<T>, x: External<T>)
    reads e, e.ptr
  {
    if old(x.locked) then e.ptr != null && old(x.ptr) != null && e.ptr.value == old(x.ptr.value) &&
                          (if old(e.ptr) != null then e.ptr == old(e.ptr) else fresh(e.ptr))
    else e.ptr == old(x.ptr)
  }

  /** What the operation makes of the externals it names. */
  twostate predicate Effect<T>(world: seq<External<T>>, op: Op<T>, new after: seq<External<T>>, outcome: Outcome)
    requires InRange(op, |world|)
    reads (set x | x in after), (set x | x in after && x.ptr != null :: x.ptr)
  {
    match op
    case Create(value, locked) =>
      && outcome == Done && |after| == |world| + 1 && world <= after
      && var e := after[|world|];
         e.locked == locked && (e.ptr != null <==> value.Some?) &&
         (e.ptr != null ==> fresh(e.ptr) && e.ptr.value == value.value)
    case Copy(src) =>
      var x := world[src];
      && outcome == (if old(x.locked) && old(x.ptr) == null then NullReference else Done)
      && world <= after
      && if outcome == Done then |after| == |world| + 1 && CopyOf(after[|world|], x) else after == world
    case Assign(dst, src) =>
      var e, x := world[dst], world[src];
      && after == world
      && outcome == (if old(e.locked) then InvalidData
                     else if old(x.locked) && old(x.ptr) == null then NullReference else Done)
      && if outcome == Done then Assigned(e, x) else e.ptr == old(e.ptr)
    case Lock(index) =>
      var e := world[index];
      && after == world
      && outcome == (if old(e.ptr) == null then NullReference else Done)
      && e.locked == (old(e.locked) || outcome == Done)
  }

  /** All externals but the one the operation changes are what they were, and so are all values it does not replace. */
  twostate predicate Framed<T>(world: seq<External<T>>, targets: set<Target<T>>, op: Op<T>)
    requires InRange(op, |world|)
    reads (set x | x in world), targets
  {
    && (forall e :: e in world ==> (e.locked == old(e.locked) || (op.Lock? && e == world[op.index])))
    && (forall e :: e in world ==> (e.ptr == old(e.ptr) || (op.Assign? && e == world[op.dst])))
    && (forall t :: t in targets ==>
          t.value == old(t.value) ||
          (op.Assign? && t == old(world[op.dst].ptr) && old(world[op.src].locked) && !old(world[op.dst].locked)))
  }

  /** One operation on any of the externals; `after` also has the one it created. */
  method Apply<T>(world: seq<External<T>>, op: Op<T>) returns (after: seq<External<T>>, outcome: Outcome)
    requires InRange(op, |world|)
    modifies (set e | e in world), Targets(world)
    ensures world <= after && forall k :: |world| <= k < |after| ==> fresh(after[k])
    ensures fresh(Targets(after) - old(Targets(world)))
    ensures Effect(world, op, after, outcome) && Framed(world, old(Targets(world)), op)
  {
    outcome := Done;
    after := world;
    match op {
      case Create(value, locked) =>
        var p: Target?<T> := null;
        if value.Some? { p := new Target(value.value); }
        var e := new External(p, locked);
        after := world + [e];
      case Copy(src) =>
        var e: External?<T>;
        e, outcome := External.Copy(world[src]);
        if e != null { after := world + [e]; }
      case Assign(dst, src) =>
        outcome := world[dst].Assign(world[src]);
      case Lock(index) =>
        outcome := world[index].Lock();
    }
  }

  /** No operation gets at a sealed external. */
  method Step<T>(world: seq<External<T>>, op: Op<T>) returns (after: seq<External<T>>, outcome: Outcome)
    requires InRange(op, |world|)
    modifies (set e | e in world), Targets(world)
    ensures world <= after && forall k :: |world| <= k < |after| ==> fresh(after[k])
    ensures fresh(Targets(after) - old(Targets(world)))
    ensures Effect(world, op, after, outcome) && Framed(world, old(Targets(world)), op)
    ensures forall e :: e in world && old(Sealed(world, e)) ==> Sealed(after, e) && Untouched(world, after, e)
  {
    after, outcome := Apply(world, op);
    assert |after| > |world| ==> |after| == |world| + 1;
    assert forall x :: x in after ==> x in world || (|after| == |world| + 1 && x == after[|world|]);
  }

  /**
    Whatever is done with the externals, one that was locked while no unlocked external shared its
    target keeps that target, with its value, and gets no new sharers.
   */
  method Run<T>(world: seq<External<T>>, ops: seq<Op<T>>) returns (after: seq<External<T>>)
    modifies (set e | e in world), Targets(world)
    ensures world <= after && forall k :: |world| <= k < |after| ==> fresh(after[k])
    ensures forall e :: e in world && old(Sealed(world, e)) ==> Sealed(after, e) && Untouched(world, after, e)
  {
    after := world;
    for k := 0 to |ops|
      invariant world <= after && forall k :: |world| <= k < |after| ==> fresh(after[k])
      invariant fresh(Targets(after) - old(Targets(world)))
      invariant forall e :: e in world && old(Sealed(world, e)) ==> Sealed(after, e) && Untouched(world, after, e)
    {
      if InRange(ops[k], |after|) {
        var outcome;
        after, outcome := Step(after, ops[k]);
      }
    }
  }

  /**
    The condition is needed: through an external that shares the target and is not locked, the
    value can be made anything, and new externals can come to share it.
   */
  method UnlockedSharer<T>(e: External<T>, x: External<T>, value: T) returns (alias: External<T>)
    requires e.locked && e.ptr != null && x.ptr == e.ptr && !x.locked
    modifies x, x.ptr
    ensures e.ptr == old(e.ptr) && e.ptr.value == value
    ensures fresh(alias) && alias.ptr == e.ptr && !alias.locked
  {
    var p := new Target(value);
    var z := new External(p, true);
    var outcome := x.Assign(z);
    var copy, _ := External.Copy(x);
    alias := copy;
  }
}
