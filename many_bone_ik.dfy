/**
 * ManyBoneIK3D: the node's configuration tables, the rebuild of its bone list and segments from
 * them, and the gate in front of the per-frame solve.
 */
module ManyBoneIK {
  import opened Wrappers
  import opened GodotMath
  import opened IkTables

  class ManyBoneIK3D {
    /** The IKEffectorTemplate a null or new pin slot is instantiated as. */
    const freshPin: Pin

    var pins: seq<Option<Pin>>
    var pinCount: int

    var constraintNames: seq<string>
    var kusudamaTwist: seq<Twist>
    var kusudamaLimitConeCount: seq<int>
    var kusudamaLimitCones: seq<seq<ConeEntry>>
    var constraintCount: int

    var boneDamp: seq<DampEntry>
    var boneCount: int
    var defaultDamp: real

    var iterationsPerFrame: int
    var isDirty: bool

    /** What the last rebuild produced: the bones, the segments (by root bone) and the damp cache. */
    var boneList: seq<IkBone>
    var segmentedSkeletons: seq<Option<int>>
    var boneDampCache: map<int, real>

    /**
     * The four constraint tables stay index-aligned; a count is either the size of its table or
     * negative (a negative resize is refused and leaves the table as it was); every pin slot
     * holds a template.
     */
    ghost predicate Valid()
      reads this`pins, this`pinCount, this`constraintNames, this`kusudamaTwist, this`kusudamaLimitConeCount,
            this`kusudamaLimitCones, this`constraintCount, this`boneDamp, this`boneCount
    {
      && |kusudamaTwist| == |constraintNames|
      && |kusudamaLimitConeCount| == |constraintNames|
      && |kusudamaLimitCones| == |constraintNames|
      && (constraintCount < 0 || constraintCount == |constraintNames|)
      && (pinCount < 0 || pinCount == |pins|)
      && (boneCount < 0 || boneCount == |boneDamp|)
      && (forall k :: 0 <= k < |pins| ==> pins[k].Some?)
    }

    constructor (freshPin: Pin)
      ensures Valid() && this.freshPin == freshPin
      ensures pins == [] && pinCount == 0
      ensures constraintNames == [] && kusudamaTwist == [] && kusudamaLimitConeCount == []
      ensures kusudamaLimitCones == [] && constraintCount == 0
      ensures boneDamp == [] && boneCount == 0 && defaultDamp == DegToRad(5.0)
      ensures iterationsPerFrame == 10 && isDirty
      ensures boneList == [] && segmentedSkeletons == [] && boneDampCache == map[]
    {
      this.freshPin := freshPin;
      pins := [];
      pinCount := 0;
      constraintNames := [];
      kusudamaTwist := [];
      kusudamaLimitConeCount := [];
      kusudamaLimitCones := [];
      constraintCount := 0;
      boneDamp := [];
      boneCount := 0;
      defaultDamp := DegToRad(5.0);
      iterationsPerFrame := 10;
      isDirty := true;
      boneList := [];
      segmentedSkeletons := [];
      boneDampCache := map[];
    }

    /** set_dirty. */
    method SetDirty()
      modifies this`isDirty
      ensures isDirty
    {
      isDirty := true;
    }

    // ---------------------------------------------------------------- pins

    /** The template a pin setter writes to: the slot's own, or a fresh one for a null slot. */
    function TemplateOf(slot: Option<Pin>): Pin
    {
      match slot
      case Some(p) => p
      case None => freshPin
    }

    /**
     * set_pin_count: the pin table takes the new size, slots below the old size keep their
     * templates, every new slot holds a fresh template, and the node becomes dirty.
     */
    method SetPinCount(n: int)
      requires Valid()
      modifies this`pins, this`pinCount, this`isDirty
      ensures Valid()
      ensures pinCount == n && isDirty
      ensures n >= 0 ==> |pins| == n
      ensures pins == Resize(old(pins), n, Some(freshPin))
    {
      var oldCount := |pins|;
      pinCount := n;
      pins := Resize(pins, n, None);
      var i := n;
      while i > oldCount
        invariant i == n || oldCount <= i < n
        invariant pinCount == n
        invariant |pins| == |Resize(old(pins), n, None)|
        invariant forall k :: 0 <= k < |pins| ==>
          pins[k] == (if oldCount <= k && i <= k then Some(freshPin) else Resize(old(pins), n, None)[k])
      {
        i := i - 1;
        pins := pins[i := Some(freshPin)];
      }
      isDirty := true;
    }

    /**
     * remove_pin: an index outside the table changes nothing; otherwise exactly that slot goes,
     * the others keep their order and the count drops by one.
     */
    method RemovePin(i: int)
      requires Valid()
      modifies this`pins, this`pinCount, this`isDirty
      ensures Valid()
      ensures !(0 <= i < |old(pins)|) ==>
        pins == old(pins) && pinCount == old(pinCount) && isDirty == old(isDirty)
      ensures 0 <= i < |old(pins)| ==>
        pins == RemoveAt(old(pins), i) && pinCount == old(pinCount) - 1 && isDirty
    {
      if i < 0 || i >= |pins| {
        return;
      }
      pins := RemoveAt(pins, i);
      pinCount := pinCount - 1;
      if pinCount >= 0 {
        ResizeToSize(pins, None);
      }
      pins := Resize(pins, pinCount, None);
      isDirty := true;
    }

    /** get_pin_bone_name: the bone name of one pin, or the empty name outside the pin table. */
    function GetPinBoneName(i: int): (name: string)
      reads this`pins
      requires 0 <= i < |pins| ==> pins[i].Some?
      ensures 0 <= i < |pins| ==> name == pins[i].value.name
      ensures !(0 <= i < |pins|) ==> name == ""
    {
      if 0 <= i < |pins| then pins[i].value.name else ""
    }

    /** get_pin_weight: the weight of one pin, or 0 outside the pin table. */
    function GetPinWeight(i: int): (weight: real)
      reads this`pins
      requires 0 <= i < |pins| ==> pins[i].Some?
      ensures 0 <= i < |pins| ==> weight == pins[i].value.weight
      ensures !(0 <= i < |pins|) ==> weight == 0.0
    {
      if 0 <= i < |pins| then pins[i].value.weight else 0.0
    }

    /** get_pin_direction_priorities: the direction priorities of one pin, or (0, 0, 0) outside the pin table. */
    function GetPinDirectionPriorities(i: int): (priorities: Vec3)
      reads this`pins
      requires 0 <= i < |pins| ==> pins[i].Some?
      ensures 0 <= i < |pins| ==> priorities == pins[i].value.directionPriorities
      ensures !(0 <= i < |pins|) ==> priorities == Zero
    {
      if 0 <= i < |pins| then pins[i].value.directionPriorities else Zero
    }

    /** get_pin_passthrough_factor: the passthrough factor of one pin, or 0 outside the pin table. */
    function GetPinPassthroughFactor(i: int): (factor: real)
      reads this`pins
      requires 0 <= i < |pins| ==> pins[i].Some?
      ensures 0 <= i < |pins| ==> factor == pins[i].value.passthroughFactor
      ensures !(0 <= i < |pins|) ==> factor == 0.0
    {
      if 0 <= i < |pins| then pins[i].value.passthroughFactor else 0.0
    }

    /** set_pin_bone: names the bone of one pin, instantiating a null slot first. */
    method SetPinBone(i: int, bone: string)
      requires Valid()
      modifies this`pins, this`isDirty
      ensures Valid()
      ensures !(0 <= i < |old(pins)|) ==> pins == old(pins) && isDirty == old(isDirty)
      ensures 0 <= i < |old(pins)| ==>
        pins == old(pins)[i := Some(TemplateOf(old(pins)[i]).(name := bone))] && isDirty
      ensures 0 <= i < |old(pins)| ==> GetPinBoneName(i) == bone
    {
      if i < 0 || i >= |pins| {
        return;
      }
      var template := TemplateOf(pins[i]);
      pins := pins[i := Some(template.(name := bone))];
      isDirty := true;
    }

    /** set_pin_weight: sets the weight of one pin, instantiating a null slot first. */
    method SetPinWeight(i: int, weight: real)
      requires Valid()
      modifies this`pins, this`isDirty
      ensures Valid()
      ensures !(0 <= i < |old(pins)|) ==> pins == old(pins) && isDirty == old(isDirty)
      ensures 0 <= i < |old(pins)| ==>
        pins == old(pins)[i := Some(TemplateOf(old(pins)[i]).(weight := weight))] && isDirty
      ensures 0 <= i < |old(pins)| ==> GetPinWeight(i) == weight
    {
      if i < 0 || i >= |pins| {
        return;
      }
      var template := TemplateOf(pins[i]);
      pins := pins[i := Some(template.(weight := weight))];
      isDirty := true;
    }

    /** set_pin_direction_priorities: sets the direction priorities of one pin, instantiating a null slot first. */
    method SetPinDirectionPriorities(i: int, priorities: Vec3)
      requires Valid()
      modifies this`pins, this`isDirty
      ensures Valid()
      ensures !(0 <= i < |old(pins)|) ==> pins == old(pins) && isDirty == old(isDirty)
      ensures 0 <= i < |old(pins)| ==>
        pins == old(pins)[i := Some(TemplateOf(old(pins)[i]).(directionPriorities := priorities))] && isDirty
      ensures 0 <= i < |old(pins)| ==> GetPinDirectionPriorities(i) == priorities
    {
      if i < 0 || i >= |pins| {
        return;
      }
      var template := TemplateOf(pins[i]);
      pins := pins[i := Some(template.(directionPriorities := priorities))];
      isDirty := true;
    }

    /** set_pin_passthrough_factor: unlike the other pin setters, a null slot is refused rather than instantiated. */
    method SetPinPassthroughFactor(i: int, factor: real)
      requires Valid()
      modifies this`pins, this`isDirty
      ensures Valid()
      ensures !(0 <= i < |old(pins)| && old(pins)[i].Some?) ==> pins == old(pins) && isDirty == old(isDirty)
      ensures 0 <= i < |old(pins)| && old(pins)[i].Some? ==>
        pins == old(pins)[i := Some(old(pins)[i].value.(passthroughFactor := factor))] && isDirty
      ensures 0 <= i < |old(pins)| && old(pins)[i].Some? ==> GetPinPassthroughFactor(i) == factor
    {
      if i < 0 || i >= |pins| {
        return;
      }
      match pins[i]
      case None =>
      case Some(template) =>
        pins := pins[i := Some(template.(passthroughFactor := factor))];
        isDirty := true;
    }

    /** The has_pins scan of skeleton_changed: some slot holds a template with a non-empty bone name. */
    ghost predicate HasNamedPin()
      reads this`pins
    {
      exists k :: 0 <= k < |pins| && pins[k].Some? && pins[k].value.name != ""
    }

    /** The has_pins loop of skeleton_changed, stopping at the first named pin. */
    method AnyNamedPin() returns (found: bool)
      ensures found <==> HasNamedPin()
    {
      found := false;
      var k := 0;
      while k < |pins|
        invariant 0 <= k <= |pins|
        invariant forall l :: 0 <= l < k ==> !(pins[l].Some? && pins[l].value.name != "")
      {
        if pins[k].Some? && pins[k].value.name != "" {
          found := true;
          break;
        }
        k := k + 1;
      }
    }

    // ---------------------------------------------------------------- constraints

    /**
     * set_constraint_count: the four constraint tables take the new size together; an existing
     * slot keeps its values, and a new one has an empty name, no cones, a cone count of zero
     * and the default twist.
     */
    method SetConstraintCount(n: int)
      requires Valid()
      modifies this`constraintNames, this`kusudamaTwist, this`kusudamaLimitConeCount,
               this`kusudamaLimitCones, this`constraintCount, this`isDirty
      ensures Valid()
      ensures constraintCount == n && isDirty
      ensures n >= 0 ==> |constraintNames| == n
      ensures constraintNames == Resize(old(constraintNames), n, "")
      ensures kusudamaTwist == Resize(old(kusudamaTwist), n, DefaultTwist)
      ensures kusudamaLimitConeCount == Resize(old(kusudamaLimitConeCount), n, 0)
      ensures kusudamaLimitCones == Resize(old(kusudamaLimitCones), n, [])
    {
      var oldCount := |constraintNames|;
      constraintCount := n;
      constraintNames := Resize(constraintNames, n, "");
      kusudamaTwist := Resize(kusudamaTwist, n, EmptyTwist);
      kusudamaLimitConeCount := Resize(kusudamaLimitConeCount, n, 0);
      kusudamaLimitCones := Resize(kusudamaLimitCones, n, []);
      var i := n;
      while i > oldCount
        invariant i == n || oldCount <= i < n
        invariant constraintCount == n
        invariant constraintNames == Resize(old(constraintNames), n, "")
        invariant kusudamaLimitConeCount == Resize(old(kusudamaLimitConeCount), n, 0)
        invariant kusudamaLimitCones == Resize(old(kusudamaLimitCones), n, [])
        invariant |kusudamaTwist| == |Resize(old(kusudamaTwist), n, EmptyTwist)|
        invariant forall k :: 0 <= k < |kusudamaTwist| ==>
          kusudamaTwist[k] == (if oldCount <= k && i <= k then DefaultTwist else Resize(old(kusudamaTwist), n, EmptyTwist)[k])
      {
        i := i - 1;
        constraintNames := constraintNames[i := ""];
        kusudamaLimitConeCount := kusudamaLimitConeCount[i := 0];
        kusudamaLimitCones := kusudamaLimitCones[i := []];
        kusudamaTwist := kusudamaTwist[i := DefaultTwist];
      }
      isDirty := true;
    }

    /**
     * remove_constraint: an index at or past the constraint count changes nothing; otherwise the
     * same slot goes from all four tables, which stay aligned, and the count drops by one.
     */
    method RemoveConstraint(i: int)
      requires Valid()
      modifies this`constraintNames, this`kusudamaTwist, this`kusudamaLimitConeCount,
               this`kusudamaLimitCones, this`constraintCount, this`isDirty
      ensures Valid()
      ensures !(0 <= i < old(constraintCount)) ==>
        && constraintNames == old(constraintNames) && kusudamaTwist == old(kusudamaTwist)
        && kusudamaLimitConeCount == old(kusudamaLimitConeCount) && kusudamaLimitCones == old(kusudamaLimitCones)
        && constraintCount == old(constraintCount) && isDirty == old(isDirty)
      ensures 0 <= i < old(constraintCount) ==>
        && constraintNames == RemoveAt(old(constraintNames), i)
        && kusudamaTwist == RemoveAt(old(kusudamaTwist), i)
        && kusudamaLimitConeCount == RemoveAt(old(kusudamaLimitConeCount), i)
        && kusudamaLimitCones == RemoveAt(old(kusudamaLimitCones), i)
        && constraintCount == old(constraintCount) - 1 && constraintCount == |constraintNames|
        && isDirty
    {
      if i < 0 || i >= constraintCount {
        return;
      }
      constraintNames := RemoveAt(constraintNames, i);
      kusudamaLimitConeCount := RemoveAt(kusudamaLimitConeCount, i);
      kusudamaLimitCones := RemoveAt(kusudamaLimitCones, i);
      kusudamaTwist := RemoveAt(kusudamaTwist, i);
      constraintCount := constraintCount - 1;
      ResizeToSize(constraintNames, "");
      ResizeToSize(kusudamaTwist, EmptyTwist);
      ResizeToSize(kusudamaLimitConeCount, 0);
      ResizeToSize(kusudamaLimitCones, []);
      constraintNames := Resize(constraintNames, constraintCount, "");
      kusudamaTwist := Resize(kusudamaTwist, constraintCount, EmptyTwist);
      kusudamaLimitConeCount := Resize(kusudamaLimitConeCount, constraintCount, 0);
      kusudamaLimitCones := Resize(kusudamaLimitCones, constraintCount, []);
      isDirty := true;
    }

    /** get_constraint_name: the stored name, or the empty name out of range. */
    function GetConstraintName(i: int): (name: string)
      reads this`constraintNames
      ensures 0 <= i < |constraintNames| ==> name == constraintNames[i]
      ensures !(0 <= i < |constraintNames|) ==> name == ""
    {
      if 0 <= i < |constraintNames| then constraintNames[i] else ""
    }

    /**
     * set_constraint_name: stores the name in range, except that a name the host skeleton
     * resolves to one of its parentless bones is stored as the empty name.
     */
    method SetConstraintName(i: int, name: string, skeleton: Option<Skeleton>)
      requires Valid()
      modifies this`constraintNames, this`isDirty
      ensures Valid()
      ensures !(0 <= i < |old(constraintNames)|) ==>
        constraintNames == old(constraintNames) && isDirty == old(isDirty)
      ensures 0 <= i < |old(constraintNames)| ==>
        constraintNames == old(constraintNames)[i := NonRootName(skeleton, name)] && isDirty
    {
      if i < 0 || i >= |constraintNames| {
        return;
      }
      constraintNames := constraintNames[i := NonRootName(skeleton, name)];
      isDirty := true;
    }

    /** set_kusudama_twist: a twist for a constraint below the count, refused otherwise. */
    method SetKusudamaTwist(i: int, twist: Twist)
      requires Valid()
      modifies this`kusudamaTwist, this`isDirty
      ensures Valid()
      ensures !(0 <= i < constraintCount) ==> kusudamaTwist == old(kusudamaTwist) && isDirty == old(isDirty)
      ensures 0 <= i < constraintCount ==>
        kusudamaTwist == old(kusudamaTwist)[i := twist] && GetKusudamaTwist(i) == twist && isDirty
    {
      if i < 0 || i >= constraintCount {
        return;
      }
      kusudamaTwist := kusudamaTwist[i := twist];
      isDirty := true;
    }

    /** get_kusudama_twist: the stored twist, or Vector2() out of range. */
    function GetKusudamaTwist(i: int): (twist: Twist)
      reads this`kusudamaTwist
      ensures 0 <= i < |kusudamaTwist| ==> twist == kusudamaTwist[i]
      ensures !(0 <= i < |kusudamaTwist|) ==> twist == EmptyTwist
    {
      if 0 <= i < |kusudamaTwist| then kusudamaTwist[i] else EmptyTwist
    }

    /** find_constraint: the first slot below the count carrying the name, or -1. */
    method FindConstraint(name: string) returns (r: int)
      requires Valid()
      ensures -1 <= r < |constraintNames|
      ensures r >= 0 ==> r < constraintCount && constraintNames[r] == name
      ensures r >= 0 ==> forall k :: 0 <= k < r ==> constraintNames[k] != name
      ensures r == -1 <==> forall k :: 0 <= k < constraintCount ==> constraintNames[k] != name
    {
      var i := 0;
      while i < constraintCount
        invariant 0 <= i && (i <= constraintCount || i == 0)
        invariant forall k :: 0 <= k < i ==> constraintNames[k] != name
      {
        if GetConstraintName(i) == name {
          return i;
        }
        i := i + 1;
      }
      return -1;
    }

    /** find_effector_id: the same search, reading the name table directly. */
    method FindEffectorId(boneName: string) returns (r: int)
      requires Valid()
      ensures -1 <= r < |constraintNames|
      ensures r >= 0 ==> r < constraintCount && constraintNames[r] == boneName
      ensures r >= 0 ==> forall k :: 0 <= k < r ==> constraintNames[k] != boneName
      ensures r == -1 <==> forall k :: 0 <= k < constraintCount ==> constraintNames[k] != boneName
    {
      var i := 0;
      while i < constraintCount
        invariant 0 <= i && (i <= constraintCount || i == 0)
        invariant forall k :: 0 <= k < i ==> constraintNames[k] != boneName
      {
        if constraintNames[i] == boneName {
          return i;
        }
        i := i + 1;
      }
      return -1;
    }

    // ---------------------------------------------------------------- cones

    /** A cone the getters can reach: its constraint is in both cone tables and the cone in its list. */
    predicate ConeInRange(ci: int, i: int)
      reads this
    {
      0 <= ci < |kusudamaLimitConeCount| && 0 <= ci < |kusudamaLimitCones| && 0 <= i < |kusudamaLimitCones[ci]|
    }

    /**
     * set_kusudama_limit_cone: overwrites one cone with a normalized centre (the fallback centre
     * when the given one is near zero) and the given radius. The cone index is written without a
     * check, so it must lie in the constraint's list.
     */
    method SetKusudamaLimitCone(ci: int, i: int, center: Vec3, radius: real, e: Engine)
      requires Valid()
      requires 0 <= ci < |kusudamaLimitCones| ==> 0 <= i < |kusudamaLimitCones[ci]|
      modifies this`kusudamaLimitCones, this`isDirty
      ensures Valid()
      ensures !(0 <= ci < |old(kusudamaLimitCones)|) ==>
        kusudamaLimitCones == old(kusudamaLimitCones) && isDirty == old(isDirty)
      ensures 0 <= ci < |old(kusudamaLimitCones)| ==>
        && kusudamaLimitCones == old(kusudamaLimitCones)[ci :=
             old(kusudamaLimitCones)[ci][i := ConeEntry(e.normalized(ConeCenterOrFallback(center)), radius)]]
        && isDirty
      ensures 0 <= ci < |old(kusudamaLimitCones)| && Sound(e) ==>
        LengthSquared(GetKusudamaLimitConeCenter(ci, i)) == 1.0 && GetKusudamaLimitConeRadius(ci, i) == radius
      ensures 0 <= ci < |old(kusudamaLimitCones)| && Sound(e) && IsZeroApprox(LengthSquared(center)) ==>
        GetKusudamaLimitConeCenter(ci, i) == Up
    {
      if ci < 0 || ci >= |kusudamaLimitCones| {
        return;
      }
      var cones := kusudamaLimitCones[ci];
      var kept := ConeCenterOrFallback(center);
      var unit := e.normalized(kept);
      NormalizedUp(e);
      cones := cones[i := ConeEntry(unit, radius)];
      kusudamaLimitCones := kusudamaLimitCones[ci := cones];
      isDirty := true;
    }

    /**
     * set_kusudama_limit_cone_count: stores the count and resizes the cone list; cones below the
     * old size are kept and each new one points up with a radius of ten degrees.
     */
    method SetKusudamaLimitConeCount(ci: int, n: int)
      requires Valid()
      modifies this`kusudamaLimitConeCount, this`kusudamaLimitCones, this`isDirty
      ensures Valid()
      ensures !(0 <= ci < |old(kusudamaLimitCones)|) ==>
        && kusudamaLimitConeCount == old(kusudamaLimitConeCount)
        && kusudamaLimitCones == old(kusudamaLimitCones) && isDirty == old(isDirty)
      ensures 0 <= ci < |old(kusudamaLimitCones)| ==>
        && kusudamaLimitConeCount == old(kusudamaLimitConeCount)[ci := n]
        && kusudamaLimitCones == old(kusudamaLimitCones)[ci := Resize(old(kusudamaLimitCones)[ci], n, DefaultCone)]
        && isDirty
    {
      if ci < 0 || ci >= |kusudamaLimitConeCount| || ci >= |kusudamaLimitCones| {
        return;
      }
      var oldConeCount := |kusudamaLimitCones[ci]|;
      kusudamaLimitConeCount := kusudamaLimitConeCount[ci := n];
      var cones := Resize(kusudamaLimitCones[ci], n, EmptyCone);
      ghost var padded := cones;
      var i := n;
      while i > oldConeCount
        invariant i == n || oldConeCount <= i < n
        invariant kusudamaLimitConeCount == old(kusudamaLimitConeCount)[ci := n]
        invariant kusudamaLimitCones == old(kusudamaLimitCones)
        invariant |cones| == |padded|
        invariant forall k :: 0 <= k < |cones| ==>
          cones[k] == (if oldConeCount <= k && i <= k then DefaultCone else padded[k])
      {
        i := i - 1;
        cones := cones[i := DefaultCone];
      }
      ghost var target := Resize(old(kusudamaLimitCones)[ci], n, DefaultCone);
      assert |cones| == |target|;
      assert forall k :: 0 <= k < |cones| ==> cones[k] == target[k];
      assert cones == target;
      kusudamaLimitCones := kusudamaLimitCones[ci := cones];
      isDirty := true;
    }

    /**
     * set_kusudama_limit_cone_radius: changes only the radius of one cone, and only when the cone
     * index is below both the stored cone count and the size of the cone list.
     */
    method SetKusudamaLimitConeRadius(ci: int, i: int, radius: real)
      requires Valid()
      modifies this`kusudamaLimitCones, this`isDirty
      ensures Valid()
      ensures !(old(ConeInRange(ci, i)) && i < old(kusudamaLimitConeCount)[ci]) ==>
        kusudamaLimitCones == old(kusudamaLimitCones) && isDirty == old(isDirty)
      ensures old(ConeInRange(ci, i)) && i < old(kusudamaLimitConeCount)[ci] ==>
        && kusudamaLimitCones == old(kusudamaLimitCones)[ci :=
             old(kusudamaLimitCones)[ci][i := old(kusudamaLimitCones)[ci][i].(radius := radius)]]
        && GetKusudamaLimitConeRadius(ci, i) == radius
        && GetKusudamaLimitConeCenter(ci, i) == old(GetKusudamaLimitConeCenter(ci, i))
        && isDirty
    {
      if ci < 0 || ci >= |kusudamaLimitConeCount| || ci >= |kusudamaLimitCones| {
        return;
      }
      if i < 0 || i >= kusudamaLimitConeCount[ci] || i >= |kusudamaLimitCones[ci]| {
        return;
      }
      var cones := kusudamaLimitCones[ci];
      cones := cones[i := cones[i].(radius := radius)];
      kusudamaLimitCones := kusudamaLimitCones[ci := cones];
      isDirty := true;
    }

    /**
     * set_kusudama_limit_cone_center: changes only the centre of one cone, storing it as given
     * (not normalized) unless it is near zero, when the fallback centre is stored.
     */
    method SetKusudamaLimitConeCenter(ci: int, i: int, center: Vec3)
      requires Valid()
      modifies this`kusudamaLimitCones, this`isDirty
      ensures Valid()
      ensures !old(ConeInRange(ci, i)) ==> kusudamaLimitCones == old(kusudamaLimitCones) && isDirty == old(isDirty)
      ensures old(ConeInRange(ci, i)) ==>
        && kusudamaLimitCones == old(kusudamaLimitCones)[ci :=
             old(kusudamaLimitCones)[ci][i := old(kusudamaLimitCones)[ci][i].(center := ConeCenterOrFallback(center))]]
        && !IsZeroApprox(LengthSquared(GetKusudamaLimitConeCenter(ci, i)))
        && GetKusudamaLimitConeRadius(ci, i) == old(GetKusudamaLimitConeRadius(ci, i))
        && isDirty
    {
      if ci < 0 || ci >= |kusudamaLimitConeCount| || ci >= |kusudamaLimitCones| {
        return;
      }
      if i < 0 || i >= |kusudamaLimitCones[ci]| {
        return;
      }
      var cones := kusudamaLimitCones[ci];
      cones := cones[i := cones[i].(center := ConeCenterOrFallback(center))];
      kusudamaLimitCones := kusudamaLimitCones[ci := cones];
      isDirty := true;
    }

    /** get_kusudama_limit_cone_center: the stored centre, or (0, 1, 0) for a cone out of reach. */
    function GetKusudamaLimitConeCenter(ci: int, i: int): (center: Vec3)
      reads this
      ensures ConeInRange(ci, i) ==> center == kusudamaLimitCones[ci][i].center
      ensures !ConeInRange(ci, i) ==> center == Up
    {
      if ConeInRange(ci, i) then kusudamaLimitCones[ci][i].center else Up
    }

    /** get_kusudama_limit_cone_radius: the stored radius, or a full turn for a cone out of reach. */
    function GetKusudamaLimitConeRadius(ci: int, i: int): (radius: real)
      reads this
      ensures ConeInRange(ci, i) ==> radius == kusudamaLimitCones[ci][i].radius
      ensures !ConeInRange(ci, i) ==> radius == TAU
    {
      if ConeInRange(ci, i) then kusudamaLimitCones[ci][i].radius else TAU
    }

    // ---------------------------------------------------------------- bone damping

    /** set_bone_count: resizes the damp table, padding with empty entries; the node does not become dirty. */
    method SetBoneCount(n: int)
      requires Valid()
      modifies this`boneDamp, this`boneCount
      ensures Valid()
      ensures boneCount == n
      ensures boneDamp == Resize(old(boneDamp), n, EmptyDamp)
    {
      boneCount := n;
      boneDamp := Resize(boneDamp, n, EmptyDamp);
    }

    /** get_bone_damp: the damp of an entry that has one, else the default damp. */
    function GetBoneDamp(i: int): (damp: real)
      reads this
      ensures 0 <= i < |boneDamp| && boneDamp[i].damp.Some? ==> damp == boneDamp[i].damp.value
      ensures !(0 <= i < |boneDamp| && boneDamp[i].damp.Some?) ==> damp == defaultDamp
    {
      if 0 <= i < |boneDamp| && boneDamp[i].damp.Some? then boneDamp[i].damp.value else defaultDamp
    }

    /** set_bone_damp: gives one entry a damp value; the node does not become dirty. */
    method SetBoneDamp(i: int, damp: real)
      requires Valid()
      modifies this`boneDamp
      ensures Valid()
      ensures !(0 <= i < |old(boneDamp)|) ==> boneDamp == old(boneDamp)
      ensures 0 <= i < |old(boneDamp)| ==>
        boneDamp == old(boneDamp)[i := old(boneDamp)[i].(damp := Some(damp))] && GetBoneDamp(i) == damp
    {
      if i < 0 || i >= |boneDamp| {
        return;
      }
      boneDamp := boneDamp[i := boneDamp[i].(damp := Some(damp))];
    }

    /** get_bone_damp_bone_name: the bone name of an entry that has one, else the empty name. */
    function GetBoneDampBoneName(i: int): (name: string)
      reads this`boneDamp
      ensures 0 <= i < |boneDamp| && boneDamp[i].boneName.Some? ==> name == boneDamp[i].boneName.value
      ensures !(0 <= i < |boneDamp| && boneDamp[i].boneName.Some?) ==> name == ""
    {
      if 0 <= i < |boneDamp| && boneDamp[i].boneName.Some? then boneDamp[i].boneName.value else ""
    }

    /** set_bone_damp_bone_name: names the bone of one entry, refusing a parentless bone as set_constraint_name does. */
    method SetBoneDampBoneName(i: int, name: string, skeleton: Option<Skeleton>)
      requires Valid()
      modifies this`boneDamp
      ensures Valid()
      ensures !(0 <= i < |old(boneDamp)|) ==> boneDamp == old(boneDamp)
      ensures 0 <= i < |old(boneDamp)| ==>
        boneDamp == old(boneDamp)[i := old(boneDamp)[i].(boneName := Some(NonRootName(skeleton, name)))]
      ensures 0 <= i < |old(boneDamp)| ==> GetBoneDampBoneName(i) == NonRootName(skeleton, name)
    {
      if i < 0 || i >= |boneDamp| {
        return;
      }
      boneDamp := boneDamp[i := boneDamp[i].(boneName := Some(NonRootName(skeleton, name)))];
    }

    /** set_default_damp. */
    method SetDefaultDamp(damp: real)
      modifies this`defaultDamp, this`isDirty
      ensures defaultDamp == damp && isDirty
    {
      defaultDamp := damp;
      isDirty := true;
    }

    /** set_iterations_per_frame: the float is stored in an integer field; the node does not become dirty. */
    method SetIterationsPerFrame(iterations: real)
      modifies this`iterationsPerFrame
      ensures iterationsPerFrame == TruncateToInt(iterations)
    {
      iterationsPerFrame := TruncateToInt(iterations);
    }

    /**
     * The bone damp loop of skeleton_changed as written: only entries after the first that name
     * a bone and lack a damp reach the cache, each with the value of the missing damp, zero.
     * Reading that missing damp through a shared copy of the entry inserts the key into the
     * table, holding nil, so each such entry ends up with a damp of zero, which is what
     * get_bone_damp then reports instead of the default damp.
     */
    method BoneDampCacheAsWritten(sk: Skeleton) returns (cache: map<int, real>)
      requires Valid()
      modifies this`boneDamp
      ensures Valid()
      ensures boneDamp == DampEntriesAfterAsWritten(old(boneDamp))
      ensures cache.Keys == DampCacheKeysAsWritten(old(boneDamp), sk)
      ensures forall id :: id in cache ==> cache[id] == 0.0
      ensures forall k :: 1 <= k < |old(boneDamp)| && old(boneDamp)[k].boneName.Some? && old(boneDamp)[k].damp.None? ==>
        GetBoneDamp(k) == 0.0
    {
      ghost var orig := boneDamp;
      ghost var after := DampEntriesAfterAsWritten(orig);
      cache := map[];
      var count := 0;
      while count < |boneDamp|
        invariant |boneDamp| == |orig| && 0 <= count <= |orig|
        invariant forall k :: 0 <= k < |orig| ==> boneDamp[k] == if k <= count then after[k] else orig[k]
        invariant cache.Keys == set k | 1 <= k <= count && k < |orig| && orig[k].boneName.Some?
                                      && orig[k].damp.None? :: FindBone(sk, orig[k].boneName.value)
        invariant forall id :: id in cache ==> cache[id] == 0.0
      {
        count := count + 1;
        if count < 0 || count >= |boneDamp| {
          continue;
        }
        var bone := boneDamp[count];
        if bone.boneName.None? || bone.damp.Some? {
          continue;
        }
        boneDamp := boneDamp[count := bone.(damp := Some(0.0))];
        cache := cache[FindBone(sk, bone.boneName.value) := 0.0];
      }
    }

    // ---------------------------------------------------------------- rebuild

    /** The Kusudama skeleton_changed builds for a constraint. */
    function KusudamaFor(ci: int): (k: Kusudama)
      reads this`kusudamaLimitCones, this`kusudamaLimitConeCount, this`kusudamaTwist
      requires 0 <= ci < |kusudamaLimitCones| && ci < |kusudamaLimitConeCount| && ci < |kusudamaTwist|
    {
      KusudamaOf(kusudamaLimitCones[ci], kusudamaLimitConeCount[ci], kusudamaTwist[ci])
    }

    /**
     * The Kusudama construction of skeleton_changed: cones are added from the stored list in
     * stored order until the stored count or the end of the list, the twist limits come from
     * the twist table, and both kinds of limit are enabled.
     */
    method BuildKusudama(ci: int) returns (k: Kusudama)
      requires Valid() && 0 <= ci < |constraintNames|
      ensures |k.cones| == ConesTaken(kusudamaLimitCones[ci], kusudamaLimitConeCount[ci])
      ensures forall m :: 0 <= m < |k.cones| ==> k.cones[m] == kusudamaLimitCones[ci][m]
      ensures k.axialLimits == kusudamaTwist[ci]
      ensures k.orientationallyConstrained && k.axiallyConstrained
      ensures k == KusudamaFor(ci)
    {
      var cones: seq<ConeEntry> := [];
      if ci < |kusudamaLimitConeCount| {
        var coneI := 0;
        while coneI < kusudamaLimitConeCount[ci]
          invariant 0 <= coneI <= ConesTaken(kusudamaLimitCones[ci], kusudamaLimitConeCount[ci])
          invariant cones == kusudamaLimitCones[ci][..coneI]
        {
          if ci >= |kusudamaLimitCones| {
            break;
          }
          if coneI >= |kusudamaLimitCones[ci]| {
            break;
          }
          cones := cones + [kusudamaLimitCones[ci][coneI]];
          coneI := coneI + 1;
        }
      }
      k := Kusudama(cones, GetKusudamaTwist(ci), true, true);
    }

    /**
     * The constraints skeleton_changed attaches, in order: each one below the count, as the bone
     * its name resolves to and its Kusudama.
     */
    function Attachments(sk: Skeleton): (attachments: seq<Attachment>)
      reads this`pins, this`pinCount, this`constraintNames, this`kusudamaTwist, this`kusudamaLimitConeCount,
            this`kusudamaLimitCones, this`constraintCount, this`boneDamp, this`boneCount
      requires Valid()
      ensures |attachments| == if constraintCount < 0 then 0 else constraintCount
      ensures forall ci :: 0 <= ci < |attachments| ==>
        attachments[ci] == Attachment(FindBone(sk, constraintNames[ci]), KusudamaFor(ci))
    {
      var n := if constraintCount < 0 then 0 else constraintCount;
      var names, cones, counts, twists := constraintNames, kusudamaLimitCones, kusudamaLimitConeCount, kusudamaTwist;
      seq(n, ci requires 0 <= ci < n => Attachment(FindBone(sk, names[ci]), KusudamaOf(cones[ci], counts[ci], twists[ci])))
    }

    /** What a rebuild from a skeleton with parentless bones and a named pin leaves behind. */
    ghost predicate BuiltFrom(sk: Skeleton)
      reads this
      requires Valid()
    {
      && segmentedSkeletons == SegmentsFor(sk.parentless)
      && boneList == AttachAll(SegmentBoneList(sk, sk.parentless), Attachments(sk))
      && boneDampCache == DampCacheOf(boneDamp, sk)
    }

    /**
     * After a rebuild, the first bone standing for an id carries the Kusudama of the last
     * constraint below the count whose name resolves to that id, and no constraint when none
     * does; a bone that is not the first for its id never carries one.
     */
    lemma RebuiltConstraintOf(sk: Skeleton, j: int)
      requires Valid() && BuiltFrom(sk) && 0 <= j < |boneList|
      ensures FirstBoneIndex(boneList, boneList[j].boneId) != j ==> boneList[j].constraint.None?
      ensures FirstBoneIndex(boneList, boneList[j].boneId) == j ==>
        var i := LastAttachmentFor(Attachments(sk), boneList[j].boneId);
        && (i < 0 ==> boneList[j].constraint.None?)
        && (i >= 0 ==> FindBone(sk, constraintNames[i]) == boneList[j].boneId
                       && boneList[j].constraint == Some(KusudamaFor(i)))
    {
      var bones := SegmentBoneList(sk, sk.parentless);
      var id := boneList[j].boneId;
      FirstBoneIndexByIds(boneList, bones, id);
      SegmentBoneListUnconstrained(sk, sk.parentless, j);
      if FirstBoneIndex(bones, id) == j {
        AttachedConstraint(bones, Attachments(sk), j);
      } else {
        AttachTouchesFirstOnly(bones, Attachments(sk), j);
      }
    }

    /**
     * The effect of skeleton_changed, given the bone list, segments and damp cache from before:
     * without a skeleton or parentless bones nothing changes; without a named pin the bone and
     * segment lists are cleared; otherwise all three are rebuilt.
     */
    ghost predicate RebuiltFrom(skeleton: Option<Skeleton>, oldBones: seq<IkBone>,
                                oldSegments: seq<Option<int>>, oldCache: map<int, real>)
      reads this
      requires Valid()
    {
      if skeleton.None? || |skeleton.value.parentless| == 0 then
        boneList == oldBones && segmentedSkeletons == oldSegments && boneDampCache == oldCache
      else if !HasNamedPin() then
        boneList == [] && segmentedSkeletons == [] && boneDampCache == oldCache
      else
        BuiltFrom(skeleton.value)
    }

    /** The constraint loop of skeleton_changed: each constraint below the count, in order, goes to the first bone it names. */
    method AttachConstraints(sk: Skeleton, built: seq<IkBone>) returns (bones: seq<IkBone>)
      requires Valid()
      ensures bones == AttachAll(built, Attachments(sk))
    {
      ghost var attachments := Attachments(sk);
      bones := built;
      var ci := 0;
      while ci < constraintCount
        invariant 0 <= ci <= |attachments|
        invariant bones == AttachAll(built, attachments[..ci])
      {
        if ci >= |constraintNames| {
          break;
        }
        assert attachments[..ci + 1][..ci] == attachments[..ci];
        bones := AttachConstraint(bones, ci, FindBone(sk, constraintNames[ci]));
        ci := ci + 1;
      }
      assert attachments[..|attachments|] == attachments;
    }

    /** The search over the bone list for one constraint: the first bone with the id receives the constraint's Kusudama. */
    method AttachConstraint(bones: seq<IkBone>, ci: int, id: int) returns (r: seq<IkBone>)
      requires Valid() && 0 <= ci < |constraintNames|
      ensures r == AttachToFirst(bones, Attachment(id, KusudamaFor(ci)))
    {
      r := bones;
      var j := 0;
      while j < |r|
        invariant 0 <= j <= |r|
        invariant r == bones
        invariant forall k :: 0 <= k < j ==> r[k].boneId != id
      {
        if r[j].boneId == id {
          var kusudama := BuildKusudama(ci);
          r := r[j := r[j].(constraint := Some(kusudama))];
          return;
        }
        j := j + 1;
      }
    }

    /** The bone damp loop of skeleton_changed as intended: every complete entry, from the first on. */
    method BuildBoneDampCache(sk: Skeleton) returns (cache: map<int, real>)
      ensures cache == DampCacheOf(boneDamp, sk)
    {
      cache := map[];
      var count := 0;
      while count < |boneDamp|
        invariant 0 <= count <= |boneDamp|
        invariant cache == DampCacheOf(boneDamp[..count], sk)
      {
        var bone := boneDamp[count];
        count := count + 1;
        assert boneDamp[..count][..count - 1] == boneDamp[..count - 1];
        if bone.boneName.None? || bone.damp.None? {
          continue;
        }
        cache := cache[FindBone(sk, bone.boneName.value) := bone.damp.value];
      }
      assert boneDamp[..|boneDamp|] == boneDamp;
    }

    /**
     * skeleton_changed: one segment and its bones per parentless bone, root after root; then each
     * constraint below the count is attached to the first bone it names; then the damp cache is
     * filled from every complete damp entry.
     */
    method SkeletonChanged(skeleton: Option<Skeleton>)
      requires Valid()
      modifies this`boneList, this`segmentedSkeletons, this`boneDampCache
      ensures Valid()
      ensures RebuiltFrom(skeleton, old(boneList), old(segmentedSkeletons), old(boneDampCache))
    {
      if skeleton.None? {
        return;
      }
      var sk := skeleton.value;
      if |sk.parentless| == 0 {
        return;
      }
      boneList := [];
      segmentedSkeletons := [];
      var hasPins := AnyNamedPin();
      if !hasPins {
        return;
      }
      var built, segments := CollectSegments(sk);
      var bones := AttachConstraints(sk, built);
      var cache := BuildBoneDampCache(sk);
      segmentedSkeletons := segments;
      boneList := bones;
      boneDampCache := cache;
    }

    // ---------------------------------------------------------------- solve gate

    /** The solve loops of execute: per iteration, every non-null segment in order. */
    method RunSolver() returns (solved: seq<int>)
      ensures solved == SolveSchedule(segmentedSkeletons, iterationsPerFrame)
    {
      var segments := segmentedSkeletons;
      solved := [];
      var i := 0;
      while i < iterationsPerFrame
        invariant 0 <= i && (i <= iterationsPerFrame || i == 0)
        invariant solved == SolveSchedule(segments, i)
      {
        var s := 0;
        while s < |segments|
          invariant 0 <= s <= |segments|
          invariant solved == SolveSchedule(segments, i) + LiveSegments(segments[..s])
        {
          LiveSegmentsStep(segments, s);
          if segments[s].Some? {
            solved := solved + [segments[s].value];
          }
          s := s + 1;
        }
        assert segments[..|segments|] == segments;
        i := i + 1;
      }
    }

    /**
     * The rebuild step of execute: an empty segment list marks the node dirty, and a dirty node
     * is rebuilt exactly once and left clean.
     */
    method RefreshIfDirty(skeleton: Option<Skeleton>) returns (rebuilt: bool)
      requires Valid()
      modifies this`isDirty, this`boneList, this`segmentedSkeletons, this`boneDampCache
      ensures Valid() && !isDirty
      ensures rebuilt == (old(isDirty) || |old(segmentedSkeletons)| == 0)
      ensures rebuilt ==> RebuiltFrom(skeleton, old(boneList), old(segmentedSkeletons), old(boneDampCache))
      ensures !rebuilt ==>
        boneList == old(boneList) && segmentedSkeletons == old(segmentedSkeletons) && boneDampCache == old(boneDampCache)
    {
      rebuilt := false;
      if |segmentedSkeletons| == 0 {
        SetDirty();
      }
      if isDirty {
        // skeleton_changed neither reads nor writes the flag, so clearing it first is the same
        isDirty := false;
        SkeletonChanged(skeleton);
        rebuilt := true;
      }
    }

    /**
     * execute: nothing happens while the node is hidden or has no pins; otherwise the node is
     * refreshed, and then, when the root bone's transforms are in place (or there are no bones),
     * every non-null segment is solved once per iteration, iteration after iteration.
     * The result lists the root of each segment_solver call, in order.
     */
    method Execute(visible: bool, skeleton: Option<Skeleton>, rootReady: bool) returns (rebuilt: bool, solved: seq<int>)
      requires Valid()
      modifies this`isDirty, this`boneList, this`segmentedSkeletons, this`boneDampCache
      ensures Valid()
      ensures !visible || pinCount == 0 ==>
        && !rebuilt && solved == [] && isDirty == old(isDirty)
        && boneList == old(boneList) && segmentedSkeletons == old(segmentedSkeletons)
        && boneDampCache == old(boneDampCache)
      ensures visible && pinCount != 0 ==>
        && !isDirty && rebuilt == (old(isDirty) || |old(segmentedSkeletons)| == 0)
        && solved == (if |boneList| > 0 && !rootReady then [] else SolveSchedule(segmentedSkeletons, iterationsPerFrame))
      ensures rebuilt ==> RebuiltFrom(skeleton, old(boneList), old(segmentedSkeletons), old(boneDampCache))
      ensures !rebuilt ==>
        boneList == old(boneList) && segmentedSkeletons == old(segmentedSkeletons) && boneDampCache == old(boneDampCache)
    {
      rebuilt := false;
      solved := [];
      if !visible {
        return;
      }
      if pinCount == 0 {
        return;
      }
      rebuilt := RefreshIfDirty(skeleton);
      if |boneList| > 0 && !rootReady {
        return;
      }
      solved := RunSolver();
    }
  }

  /** The segment loop of skeleton_changed: for each parentless bone, its segment and then its bones. */
  method CollectSegments(sk: Skeleton) returns (bones: seq<IkBone>, segments: seq<Option<int>>)
    ensures bones == SegmentBoneList(sk, sk.parentless)
    ensures segments == SegmentsFor(sk.parentless)
  {
    var roots := sk.parentless;
    bones := [];
    segments := [];
    var r := 0;
    while r < |roots|
      invariant 0 <= r <= |roots|
      invariant bones == SegmentBoneList(sk, roots[..r])
      invariant segments == SegmentsFor(roots[..r])
    {
      assert roots[..r + 1][..r] == roots[..r];
      bones := bones + FreshBones(SegmentBonesOf(sk, roots[r]));
      segments := segments + [Some(roots[r])];
      r := r + 1;
    }
    assert roots[..|roots|] == roots;
  }

  /**
   * The name set_constraint_name and set_bone_damp_bone_name store: the given name, or the empty
   * name when the host skeleton resolves it to a parentless bone. A non-empty stored name
   * therefore never names a root bone.
   */
  function NonRootName(skeleton: Option<Skeleton>, name: string): (stored: string)
    ensures stored == name || stored == ""
    ensures skeleton.None? ==> stored == name
    ensures skeleton.Some? && stored != "" ==> FindBone(skeleton.value, stored) !in skeleton.value.parentless
    ensures skeleton.Some? && FindBone(skeleton.value, name) !in skeleton.value.parentless ==> stored == name
  {
    if skeleton.Some? && FindBone(skeleton.value, name) in skeleton.value.parentless then "" else name
  }
}
