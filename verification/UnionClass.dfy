/**
  The class emitted for a union: a discriminator beside a variant with one alternative for each
  branch. The variant is accessed by the number of the alternative.
 */
module UnionClass {
  import opened Wrappers
  import opened Unions

  /** InvalidArgument is the emitted check's exception, BadAccess the one of the variant itself. */
  datatype Outcome<+T> = Ok(value: T) | InvalidArgument | BadAccess

  datatype State<T> = State(d: nat, active: nat, value: T)

  /** Assign is an assignment to what the getter that returns a reference refers to. */
  datatype Step<T> =
    | Set(branch: nat, value: T, d: nat)
    | Assign(branch: nat, value: T)
    | SetDiscriminator(d: nat)
    | SetDefault(d: nat)

  /** If a branch owns the discriminator, its alternative is the active one. */
  ghost predicate Consistent<T>(u: Shape, s: State<T>) {
    WellFormed(u) && Legal(u, s.d) && s.active < |u.arms| && (ArmOf(u, s.d).Some? ==> ArmOf(u, s.d).value == s.active)
  }

  /** What a caller can do: name an existing branch and a value of the discriminator's type. */
  predicate Possible<T>(u: Shape, step: Step<T>) {
    match step
    case Set(branch, _, d) => branch < |u.arms| && Legal(u, d)
    case Assign(branch, _) => branch < |u.arms|
    case SetDiscriminator(d) => Legal(u, d)
    case SetDefault(d) => u.implicit && Legal(u, d)
  }

  /** Whether a step goes through, in terms of the branches alone. */
  predicate Allowed<T>(u: Shape, s: State<T>, step: Step<T>) {
    match step
    case Set(branch, _, d) => ArmOf(u, d) == Some(branch)
    case Assign(branch, _) => ArmOf(u, s.d) == Some(branch)
    case SetDiscriminator(d) => ArmOf(u, d) == ArmOf(u, s.d)
    case SetDefault(d) => ArmOf(u, d) == None
  }

  /** A step that throws changes nothing. */
  function Next<T>(u: Shape, s: State<T>, step: Step<T>): State<T> {
    if !Allowed(u, s, step) then s
    else match step
      case Set(branch, value, d) => State(d, branch, value)
      case Assign(_, value) => s.(value := value)
      case _ => s.(d := step.d)
  }

  /** What the getter of a branch yields. */
  function Got<T>(u: Shape, s: State<T>, branch: nat): Outcome<T> {
    if ArmOf(u, s.d) == Some(branch) then Ok(s.value) else InvalidArgument
  }

  function Run<T>(u: Shape, s: State<T>, steps: seq<Step<T>>): State<T>
    decreases |steps|
  {
    if steps == [] then s else Run(u, Next(u, s, steps[0]), steps[1..])
  }

  ghost predicate AllPossible<T>(u: Shape, steps: seq<Step<T>>) {
    forall k :: 0 <= k < |steps| ==> Possible(u, steps[k])
  }

  class EmittedUnion<T(==)> {
    const u: Shape
    var d: nat
    var active: nat
    var value: T

    ghost function Abstract(): State<T>
      reads this
    {
      State(d, active, value)
    }

    ghost predicate Valid()
      reads this
    {
      Consistent(u, Abstract())
    }

    /** The default discriminator, and a default value in the default branch or else in the first one. */
    constructor (u: Shape, defaults: seq<T>)
      requires WellFormed(u) && |u.arms| == |defaults| > 0
      ensures Valid() && this.u == u && d == u.dflt && value == defaults[active]
      ensures active == if DefaultArm(u.arms).Some? then DefaultArm(u.arms).value else 0
    {
      var k := DefaultCaseIndex(u);
      this.u, d, active, value := u, u.dflt, k, defaults[k];
      DefaultDiscriminator(u);
    }

    static method DefaultCaseIndex(u: Shape) returns (r: nat)
      requires WellFormed(u) && u.arms != []
      ensures r == if DefaultArm(u.arms).Some? then DefaultArm(u.arms).value else 0
    {
      r := 0;
      for i := 0 to |u.arms|
        invariant r == if DefaultArm(u.arms).Some? && DefaultArm(u.arms).value < i then DefaultArm(u.arms).value else 0
      {
        if IsDefault(u.arms[i]) {
          OneDefaultArm(u, i);
          r := i;
        }
      }
    }

    /** A getter throws when another branch owns the discriminator, and never lets the variant throw. */
    method Get(branch: nat) returns (r: Outcome<T>)
      requires Valid() && branch < |u.arms|
      ensures r == Got(u, Abstract(), branch)
      ensures r == if ArmOf(u, d) == Some(branch) then Ok(value) else InvalidArgument
    {
      LabelSelectsArm(u, branch, 0);
      CompatibleIsSameBranch(u, d, u.arms[branch][0].value);
      if !Compatible(u, d, u.arms[branch][0].value) { return InvalidArgument; }
      r := if active == branch then Ok(value) else BadAccess;
    }

    /** The getter that returns a reference makes the same check, so only the active alternative is assigned to. */
    method Assign(branch: nat, value: T) returns (r: Outcome<()>)
      requires Valid() && branch < |u.arms|
      modifies `value
      ensures Valid() && r != BadAccess && (r.Ok? <==> ArmOf(u, d) == Some(branch))
      ensures this.value == if r.Ok? then value else old(this.value)
      ensures Abstract() == Next(u, old(Abstract()), Step.Assign(branch, value))
    {
      LabelSelectsArm(u, branch, 0);
      CompatibleIsSameBranch(u, d, u.arms[branch][0].value);
      if !Compatible(u, d, u.arms[branch][0].value) { return InvalidArgument; }
      if active != branch { return BadAccess; }
      this.value := value;
      r := Ok(());
    }

    method Set(branch: nat, value: T, d: nat) returns (r: Outcome<()>)
      requires Valid() && branch < |u.arms| && Legal(u, d)
      modifies `d, `active, `value
      ensures Valid() && r != BadAccess && (r.Ok? <==> ArmOf(u, d) == Some(branch))
      ensures r.Ok? ==> this.d == d && active == branch && this.value == value
      ensures !r.Ok? ==> unchanged(this)
      ensures Abstract() == Next(u, old(Abstract()), Step.Set(branch, value, d))
    {
      LabelSelectsArm(u, branch, 0);
      CompatibleIsSameBranch(u, u.arms[branch][0].value, d);
      if !Compatible(u, u.arms[branch][0].value, d) { return InvalidArgument; }
      this.d, this.active, this.value := d, branch, value;
      r := Ok(());
    }

    /** The discriminator can only change to another one of the same branch. */
    method SetDiscriminator(d: nat) returns (r: Outcome<()>)
      requires Valid() && Legal(u, d)
      modifies `d
      ensures Valid() && r != BadAccess && (r.Ok? <==> ArmOf(u, d) == ArmOf(u, old(this.d)))
      ensures this.d == if r.Ok? then d else old(this.d)
      ensures Abstract() == Next(u, old(Abstract()), Step.SetDiscriminator(d))
    {
      CompatibleIsSameBranch(u, this.d, d);
      if !Compatible(u, this.d, d) { return InvalidArgument; }
      this.d := d;
      r := Ok(());
    }

    /** Emitted only for unions with an implicit default. */
    method SetDefault(d: nat) returns (r: Outcome<()>)
      requires Valid() && Legal(u, d) && u.implicit
      modifies `d
      ensures Valid() && r != BadAccess && (r.Ok? <==> ArmOf(u, d) == None)
      ensures this.d == if r.Ok? then d else old(this.d)
      ensures Abstract() == Next(u, old(Abstract()), Step.SetDefault(d))
    {
      DefaultDiscriminator(u);
      CompatibleIsSameBranch(u, d, u.dflt);
      if !Compatible(u, d, u.dflt) { return InvalidArgument; }
      this.d := d;
      r := Ok(());
    }

    /** Equality goes through the getters of both sides and never throws. */
    method Equals(other: EmittedUnion<T>) returns (r: Outcome<bool>)
      requires Valid() && other.Valid() && u == other.u
      ensures r == Ok(d == other.d && (ArmOf(u, d).Some? ==> value == other.value))
    {
      if d != other.d { return Ok(false); }
      match ArmOf(u, d)
      case Some(branch) =>
        var a := Get(branch);
        var b := other.Get(branch);
        r := if a.Ok? && b.Ok? then Ok(a.value == b.value) else BadAccess;
      case None => r := Ok(true);
    }

    /** Any sequence of calls. */
    method Perform(steps: seq<Step<T>>)
      requires Valid() && AllPossible(u, steps)
      modifies `d, `active, `value
      ensures Valid() && Abstract() == Run(u, old(Abstract()), steps)
    {
      assert steps[0..] == steps;
      for k := 0 to |steps|
        invariant Valid() && Run(u, Abstract(), steps[k..]) == Run(u, old(Abstract()), steps)
      {
        assert Possible(u, steps[k]) && steps[k..][1..] == steps[k + 1..];
        match steps[k]
        case Set(branch, value, d) => var _ := Set(branch, value, d);
        case Assign(branch, value) => var _ := Assign(branch, value);
        case SetDiscriminator(d) => var _ := SetDiscriminator(d);
        case SetDefault(d) => var _ := SetDefault(d);
      }
    }
  }

  /** No sequence of calls makes the discriminator and the active alternative disagree. */
  lemma {:induction false} RunsStayConsistent<T>(u: Shape, s: State<T>, steps: seq<Step<T>>)
    requires Consistent(u, s) && AllPossible(u, steps)
    ensures Consistent(u, Run(u, s, steps))
    decreases |steps|
  {
    if steps != [] {
      assert Possible(u, steps[0]);
      assert AllPossible(u, steps[1..]) by { assert forall k :: 0 <= k < |steps| - 1 ==>
               steps[1..][k] == steps[k + 1]; }
      RunsStayConsistent(u, Next(u, s, steps[0]), steps[1..]);
    }
  }

  /** Sets or assigns to a branch. */
  predicate Changes<T>(step: Step<T>) {
    step.Set? || step.Assign?
  }

  /** None of the calls that would change the value goes through. */
  predicate SetsNothing<T>(u: Shape, s: State<T>, steps: seq<Step<T>>)
    decreases |steps|
  {
    steps == [] || (!(Changes(steps[0]) && Allowed(u, s, steps[0])) && SetsNothing(u, Next(u, s, steps[0]), steps[1..]))
  }

  /**
    What was set stays until something is set or assigned: no other call touches the value, and
    the discriminator leaves the branch only for the implicit default.
   */
  lemma {:induction false} SetIsKept<T>(u: Shape, s: State<T>, steps: seq<Step<T>>)
    requires Consistent(u, s) && AllPossible(u, steps) && SetsNothing(u, s, steps)
    ensures var t := Run(u, s, steps);
            t.value == s.value && t.active == s.active && (ArmOf(u, t.d) == ArmOf(u, s.d) || ArmOf(u, t.d) == None)
    decreases |steps|
  {
    if steps != [] {
      assert Possible(u, steps[0]);
      assert AllPossible(u, steps[1..]) by { assert forall k :: 0 <= k < |steps| - 1 ==>
               steps[1..][k] == steps[k + 1]; }
      RunsStayConsistent(u, s, [steps[0]]);
      assert Run(u, s, [steps[0]]) == Next(u, s, steps[0]) by { assert [steps[0]][1..] == []; }
      SetIsKept(u, Next(u, s, steps[0]), steps[1..]);
    }
  }

  lemma {:induction false} RunAppend<T>(u: Shape, s: State<T>, a: seq<Step<T>>, b: seq<Step<T>>)
    ensures Run(u, s, a + b) == Run(u, Run(u, s, a), b)
    decreases |a|
  {
    if a == [] {
      assert a + b == b;
    } else {
      assert (a + b)[0] == a[0] && (a + b)[1..] == a[1..] + b;
      RunAppend(u, Next(u, s, a[0]), a[1..], b);
    }
  }

  /**
    After any calls, a set that goes through leaves its discriminator and its value, and the getter of
    its branch yields the value, and goes on doing so as long as the branch owns the discriminator and
    nothing else is set or assigned.
   */
  lemma LastSetCounts<T>(u: Shape, s: State<T>, before: seq<Step<T>>, branch: nat, value: T, d: nat,
                         after: seq<Step<T>>)
    requires Consistent(u, s) && AllPossible(u, before) && AllPossible(u, after) && ArmOf(u, d) == Some(branch)
    requires SetsNothing(u, Run(u, s, before + [Set(branch, value, d)]), after)
    ensures var t := Run(u, s, before + [Set(branch, value, d)]);
            var e := Run(u, s, before + [Set(branch, value, d)] + after);
            && t.d == d && Got(u, t, branch) == Ok(value)
            && (ArmOf(u, e.d) == Some(branch) || ArmOf(u, e.d) == None)
            && (ArmOf(u, e.d) == Some(branch) ==> Got(u, e, branch) == Ok(value))
  {
    var last := Step.Set(branch, value, d);
    var t := Run(u, s, before + [last]);
    RunsStayConsistent(u, s, before);
    RunAppend(u, s, before, [last]);
    var m := Run(u, s, before);
    assert [last][1..] == [] && Run(u, m, [last]) == Run(u, Next(u, m, last), []) == Next(u, m, last);
    RunsStayConsistent(u, m, [last]);
    RunAppend(u, s, before + [last], after);
    SetIsKept(u, t, after);
  }

  /** So does an assignment, which leaves the discriminator as it is. */
  lemma AssignCounts<T>(u: Shape, s: State<T>, before: seq<Step<T>>, branch: nat, value: T)
    requires ArmOf(u, Run(u, s, before).d) == Some(branch)
    ensures var t := Run(u, s, before + [Assign(branch, value)]);
            t.d == Run(u, s, before).d && Got(u, t, branch) == Ok(value)
  {
    var assign := Step.Assign(branch, value);
    RunAppend(u, s, before, [assign]);
    var m := Run(u, s, before);
    assert [assign][1..] == [] && Run(u, m, [assign]) == Run(u, Next(u, m, assign), []) == Next(u, m, assign);
  }
}
