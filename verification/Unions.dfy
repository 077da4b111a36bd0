/**
  What an emitted union class knows about its branches: the labels of each, the default
  discriminator, and the two static functions that classify discriminators.
 */
module Unions {
  import opened Wrappers

  /** A case label. A `default` label also carries a value, picked by the parser. */
  datatype Label = Label(value: nat, isDefault: bool)

  type Arm = seq<Label>

  /** `implicit` says that the default belongs to no branch. */
  datatype Shape = Shape(arms: seq<Arm>, dflt: nat, implicit: bool)

  predicate Names(arm: Arm, d: nat) {
    Label(d, false) in arm
  }

  predicate IsDefault(arm: Arm) {
    exists k :: 0 <= k < |arm| && arm[k].isDefault
  }

  function NamedArm(arms: seq<Arm>, d: nat): (r: Option<nat>)
    ensures r.Some? ==> r.value < |arms| && Names(arms[r.value], d)
    ensures r.None? ==> forall i :: 0 <= i < |arms| ==> !Names(arms[i], d)
  {
    if arms == [] then None
    else if Names(arms[0], d) then Some(0)
    else match NamedArm(arms[1..], d)
      case Some(i) => Some(i + 1)
      case None => assert forall i :: 1 <= i < |arms| ==> arms[i] == arms[1..][i - 1]; None
  }

  function DefaultArm(arms: seq<Arm>): (r: Option<nat>)
    ensures r.Some? ==> r.value < |arms| && IsDefault(arms[r.value])
    ensures r.None? ==> forall i :: 0 <= i < |arms| ==> !IsDefault(arms[i])
  {
    if arms == [] then None
    else if IsDefault(arms[0]) then Some(0)
    else match DefaultArm(arms[1..])
      case Some(i) => Some(i + 1)
      case None => assert forall i :: 1 <= i < |arms| ==> arms[i] == arms[1..][i - 1]; None
  }

  /** The branch a `switch` over the emitted labels jumps to: a matching `case`, or else `default`. */
  function ArmOf(u: Shape, d: nat): (r: Option<nat>)
    ensures r.Some? ==> r.value < |u.arms|
  {
    match NamedArm(u.arms, d)
    case Some(i) => Some(i)
    case None => DefaultArm(u.arms)
  }

  /** `_is_discriminator`: the first label of the branch, or the default discriminator. */
  function Canonical(u: Shape, d: nat): nat
    requires Labelled(u)
  {
    match ArmOf(u, d)
    case Some(i) => u.arms[i][0].value
    case None => u.dflt
  }

  /** `_is_compatible_discriminator` */
  predicate Compatible(u: Shape, d1: nat, d2: nat)
    requires Labelled(u)
  {
    Canonical(u, d1) == Canonical(u, d2)
  }

  predicate Labelled(u: Shape) {
    forall i :: 0 <= i < |u.arms| ==> |u.arms[i]| > 0
  }

  /** What the IDL parser guarantees of the labels of a union. */
  ghost predicate WellFormed(u: Shape) {
    && Labelled(u)
    // no two labels share a value
    && (forall i, j, k, l | 0 <= i < |u.arms| && 0 <= j < |u.arms| && 0 <= k < |u.arms[i]| && 0 <= l < |u.arms[j]| ::
          u.arms[i][k].value == u.arms[j][l].value ==> i == j && k == l)
    // at most one label is `default`, and its value is the default discriminator
    && (forall i, k :: 0 <= i < |u.arms| && 0 <= k < |u.arms[i]| && u.arms[i][k].isDefault ==>
          !u.implicit && u.dflt == u.arms[i][k].value)
    // an implicit default uses a value no label has
    && (u.implicit ==> forall i, k :: 0 <= i < |u.arms| && 0 <= k < |u.arms[i]| ==> u.arms[i][k].value != u.dflt)
    // a union without any default starts in its first branch
    && (!u.implicit && DefaultArm(u.arms).None? ==> ArmOf(u, u.dflt) == Some(0))
  }

  /** A discriminator some branch or the implicit default stands for. */
  predicate Legal(u: Shape, d: nat) {
    ArmOf(u, d).Some? || u.implicit
  }

  /** Every label selects the branch it stands in; the `default` label does so by its value too. */
  lemma LabelSelectsArm(u: Shape, i: nat, k: nat)
    requires WellFormed(u) && i < |u.arms| && k < |u.arms[i]|
    ensures ArmOf(u, u.arms[i][k].value) == Some(i)
  {
    var d := u.arms[i][k].value;
    if !u.arms[i][k].isDefault {
      assert Names(u.arms[i], d);
    } else {
      assert IsDefault(u.arms[i]);
      assert forall j, l | 0 <= j < |u.arms| && 0 <= l < |u.arms[j]| :: u.arms[j][l] != Label(d, false);
      var j := DefaultArm(u.arms).value;
      var l :| 0 <= l < |u.arms[j]| && u.arms[j][l].isDefault;
      assert u.arms[j][l].value == u.arms[i][k].value;
    }
  }

  /**
    A value selects the branch with a label of that value, or the default branch if there is no such
    label, and no branch if there is neither.
   */
  lemma ArmOfMeans(u: Shape, d: nat, i: nat)
    requires WellFormed(u)
    ensures ArmOf(u, d) == Some(i) <==>
            && i < |u.arms|
            && (Label(d, false) in u.arms[i] ||
                ((exists k :: 0 <= k < |u.arms[i]| && u.arms[i][k].isDefault) &&
                 forall j :: 0 <= j < |u.arms| ==> Label(d, false) !in u.arms[j]))
  {
    if i < |u.arms| && Label(d, false) in u.arms[i] {
      var k :| 0 <= k < |u.arms[i]| && u.arms[i][k] == Label(d, false);
      LabelSelectsArm(u, i, k);
    } else if i < |u.arms| && exists k :: 0 <= k < |u.arms[i]| && u.arms[i][k].isDefault {
      assert IsDefault(u.arms[i]);
      OneDefaultArm(u, i);
      assert forall j :: 0 <= j < |u.arms| ==> (Names(u.arms[j], d) <==> Label(d, false) in u.arms[j]);
    }
  }

  lemma OneDefaultArm(u: Shape, i: nat)
    requires WellFormed(u) && i < |u.arms| && IsDefault(u.arms[i])
    ensures DefaultArm(u.arms) == Some(i)
  {
    var j := DefaultArm(u.arms).value;
    var k :| 0 <= k < |u.arms[i]| && u.arms[i][k].isDefault;
    var l :| 0 <= l < |u.arms[j]| && u.arms[j][l].isDefault;
    assert u.arms[i][k].value == u.arms[j][l].value;
  }

  /**
    Compatibility is an equivalence whose classes are exactly the branches and, if there is
    one, the implicit default.
   */
  lemma CompatibleIsSameBranch(u: Shape, d1: nat, d2: nat)
    requires WellFormed(u) && Legal(u, d1) && Legal(u, d2)
    ensures Compatible(u, d1, d2) <==> ArmOf(u, d1) == ArmOf(u, d2)
  {
    match ArmOf(u, d1)
    case Some(i) => LabelSelectsArm(u, i, 0);
    case None =>
    match ArmOf(u, d2)
    case Some(i) => LabelSelectsArm(u, i, 0);
    case None =>
  }

  /** The default discriminator lies in the `default` branch, in no branch, or in the first one. */
  lemma DefaultDiscriminator(u: Shape)
    requires WellFormed(u)
    ensures Legal(u, u.dflt)
    ensures ArmOf(u, u.dflt) == if u.implicit then None else if DefaultArm(u.arms).Some? then DefaultArm(u.arms)
            else Some(0)
  {
    if !u.implicit && DefaultArm(u.arms).Some? {
      var i := DefaultArm(u.arms).value;
      var k :| 0 <= k < |u.arms[i]| && u.arms[i][k].isDefault;
      LabelSelectsArm(u, i, k);
    }
  }
}
