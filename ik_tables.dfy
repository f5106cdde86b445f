/**
 * The values ManyBoneIK3D keeps in its configuration tables, the engine's Vector operations it
 * applies to them, and the pure definitions its rebuild and solve loops are specified by.
 */
module IkTables {
  import opened Wrappers
  import opened GodotMath

  /** An IKEffectorTemplate: the bone it pins and how strongly. */
  datatype Pin = Pin(name: string, weight: real, directionPriorities: Vec3, passthroughFactor: real)

  /** A Vector2 of the twist table: where the allowed twist starts and how far it extends. */
  datatype Twist = Twist(from: real, range: real)

  /** A Vector4 of a cone list: the centre in x, y, z and the radius in w. */
  datatype ConeEntry = ConeEntry(center: Vec3, radius: real)

  /** A Dictionary of the bone damp table, which may hold a "bone_name" and a "damp" key. */
  datatype DampEntry = DampEntry(boneName: Option<string>, damp: Option<real>)

  /** What skeleton_changed hands to an IKKusudama: its cones in order, and its twist limits. */
  datatype Kusudama = Kusudama(
    cones: seq<ConeEntry>,
    axialLimits: Twist,
    orientationallyConstrained: bool,
    axiallyConstrained: bool)

  /** An IKBone3D of the rebuilt bone list: the skeleton bone it stands for and its constraint. */
  datatype IkBone = IkBone(boneId: int, constraint: Option<Kusudama>)

  /**
   * The host Skeleton3D as the rebuild sees it: its parentless bones, the ids of its named
   * bones, and the bone ids the segment grown from each root lists.
   */
  datatype Skeleton = Skeleton(
    parentless: seq<int>,
    boneIds: map<string, int>,
    segmentBones: map<int, seq<int>>)

  /** Skeleton3D::find_bone: the id of the named bone, -1 for a name the skeleton does not have. */
  function FindBone(sk: Skeleton, name: string): (id: int)
    ensures name in sk.boneIds ==> id == sk.boneIds[name]
    ensures name !in sk.boneIds ==> id == -1
  {
    if name in sk.boneIds then sk.boneIds[name] else -1
  }

  /** The bones of the segment grown from a root, in the order create_bone_list lists them. */
  function SegmentBonesOf(sk: Skeleton, root: int): seq<int>
  {
    if root in sk.segmentBones then sk.segmentBones[root] else []
  }

  /** Vector2(): the twist get_kusudama_twist answers out of range. */
  const EmptyTwist: Twist := Twist(0.0, 0.0)

  /** The twist a new constraint slot starts with: from Math_PI over Math_TAU - CMP_EPSILON. */
  const DefaultTwist: Twist := Twist(PI, TAU - CMP_EPSILON)

  /** Vector4(): a zeroed cone. */
  const EmptyCone: ConeEntry := ConeEntry(Zero, 0.0)

  /** A cone added by set_kusudama_limit_cone_count: pointing up, ten degrees wide. */
  const DefaultCone: ConeEntry := ConeEntry(Up, DegToRad(10.0))

  /** An empty Dictionary. */
  const EmptyDamp: DampEntry := DampEntry(None, None)

  /**
   * Vector::resize: a negative size is refused and changes nothing; otherwise the first
   * elements are kept and any new slot holds the padding value.
   */
  function Resize<T>(s: seq<T>, n: int, pad: T): (r: seq<T>)
    ensures n < 0 ==> r == s
    ensures n >= 0 ==> |r| == n
    ensures forall k :: 0 <= k < |r| && k < |s| ==> r[k] == s[k]
    ensures forall k :: |s| <= k < |r| ==> r[k] == pad
  {
    if n < 0 then s
    else if n <= |s| then s[..n]
    else s + seq(n - |s|, _ => pad)
  }

  /** Resizing to the current size changes nothing. */
  lemma ResizeToSize<T>(s: seq<T>, pad: T)
    ensures Resize(s, |s|, pad) == s
  {
  }

  /** Vector::remove_at: the element at i goes, the others keep their order. */
  function RemoveAt<T>(s: seq<T>, i: int): (r: seq<T>)
    requires 0 <= i < |s|
    ensures |r| == |s| - 1
    ensures forall k :: 0 <= k < i ==> r[k] == s[k]
    ensures forall k :: i <= k < |r| ==> r[k] == s[k + 1]
  {
    s[..i] + s[i + 1..]
  }

  /**
   * The centre a cone setter keeps: a centre of near-zero squared length falls back to
   * (0, 1, 0), any other is kept; either way the kept centre is not near zero.
   */
  function ConeCenterOrFallback(center: Vec3): (r: Vec3)
    ensures !IsZeroApprox(LengthSquared(r))
    ensures IsZeroApprox(LengthSquared(center)) ==> r == Up
    ensures !IsZeroApprox(LengthSquared(center)) ==> r == center
  {
    if IsZeroApprox(LengthSquared(center)) then Up else center
  }

  /** The integer a float becomes when stored in an int32_t: truncated toward zero. */
  function TruncateToInt(x: real): (r: int)
    ensures x >= 0.0 ==> r as real <= x < r as real + 1.0
    ensures x < 0.0 ==> r as real - 1.0 < x <= r as real
  {
    if x >= 0.0 then x.Floor else -((-x).Floor)
  }

  /** Fresh IKBone3D entries, without constraints, for the given bone ids in order. */
  function FreshBones(ids: seq<int>): (r: seq<IkBone>)
    ensures |r| == |ids|
    ensures forall k :: 0 <= k < |r| ==> r[k] == IkBone(ids[k], None)
  {
    seq(|ids|, k requires 0 <= k < |ids| => IkBone(ids[k], None))
  }

  /** The bone list skeleton_changed collects: each root's segment bones, root after root. */
  function SegmentBoneList(sk: Skeleton, roots: seq<int>): seq<IkBone>
  {
    if |roots| == 0 then []
    else SegmentBoneList(sk, roots[..|roots| - 1]) + FreshBones(SegmentBonesOf(sk, roots[|roots| - 1]))
  }

  /** The segment list skeleton_changed collects: one segment per root, named by its root. */
  function SegmentsFor(roots: seq<int>): (r: seq<Option<int>>)
    ensures |r| == |roots|
    ensures forall k :: 0 <= k < |r| ==> r[k] == Some(roots[k])
  {
    seq(|roots|, k requires 0 <= k < |roots| => Some(roots[k]))
  }

  /**
   * The first bone of the list standing for the given bone id, or -1: the one bone a
   * constraint is attached to.
   */
  function FirstBoneIndex(bones: seq<IkBone>, id: int): (j: int)
    ensures -1 <= j < |bones|
    ensures j >= 0 ==> bones[j].boneId == id
    ensures j >= 0 ==> forall k :: 0 <= k < j ==> bones[k].boneId != id
    ensures j == -1 ==> forall k :: 0 <= k < |bones| ==> bones[k].boneId != id
  {
    if |bones| == 0 then -1
    else if bones[0].boneId == id then 0
    else
      var j := FirstBoneIndex(bones[1..], id);
      if j < 0 then -1 else j + 1
  }

  /** A freshly collected bone list carries no constraint yet. */
  lemma {:induction false} SegmentBoneListUnconstrained(sk: Skeleton, roots: seq<int>, j: int)
    requires 0 <= j < |SegmentBoneList(sk, roots)|
    ensures SegmentBoneList(sk, roots)[j].constraint.None?
  {
    if |roots| > 0 {
      var front := SegmentBoneList(sk, roots[..|roots| - 1]);
      if j < |front| {
        SegmentBoneListUnconstrained(sk, roots[..|roots| - 1], j);
      }
    }
  }

  /** Two bone lists of the same ids have the same first bone for every id. */
  lemma FirstBoneIndexByIds(a: seq<IkBone>, b: seq<IkBone>, id: int)
    requires |a| == |b|
    requires forall k :: 0 <= k < |a| ==> a[k].boneId == b[k].boneId
    ensures FirstBoneIndex(a, id) == FirstBoneIndex(b, id)
  {
  }

  /** How many cones a Kusudama receives: the stored count, cut to the size of the stored list. */
  function ConesTaken(cones: seq<ConeEntry>, count: int): (n: int)
    ensures 0 <= n <= |cones|
    ensures count <= 0 ==> n == 0
    ensures count > 0 ==> n == count || n == |cones|
    ensures n <= count || n == 0
  {
    if count <= 0 then 0 else if count < |cones| then count else |cones|
  }

  /** The Kusudama built for one constraint from its stored cones, cone count and twist. */
  function KusudamaOf(cones: seq<ConeEntry>, count: int, twist: Twist): Kusudama
  {
    Kusudama(cones[..ConesTaken(cones, count)], twist, true, true)
  }

  /** A constraint to attach: the bone id its name resolves to, and its Kusudama. */
  datatype Attachment = Attachment(boneId: int, kusudama: Kusudama)

  /** One step of the constraint loop: the first bone standing for the id, if any, receives the Kusudama. */
  function AttachToFirst(bones: seq<IkBone>, a: Attachment): (r: seq<IkBone>)
    ensures |r| == |bones|
    ensures forall j :: 0 <= j < |r| ==> r[j].boneId == bones[j].boneId
    ensures forall j :: 0 <= j < |r| && j != FirstBoneIndex(bones, a.boneId) ==> r[j] == bones[j]
    ensures FirstBoneIndex(bones, a.boneId) >= 0 ==>
      r[FirstBoneIndex(bones, a.boneId)].constraint == Some(a.kusudama)
  {
    var j := FirstBoneIndex(bones, a.boneId);
    if j < 0 then bones else bones[j := bones[j].(constraint := Some(a.kusudama))]
  }

  /** The bone list after every attachment, in order, has been made. Bone ids never change. */
  function AttachAll(bones: seq<IkBone>, attachments: seq<Attachment>): (r: seq<IkBone>)
    ensures |r| == |bones|
    ensures forall j :: 0 <= j < |r| ==> r[j].boneId == bones[j].boneId
  {
    if |attachments| == 0 then bones
    else AttachToFirst(AttachAll(bones, attachments[..|attachments| - 1]), attachments[|attachments| - 1])
  }

  /** The last attachment for the bone id, or -1. */
  function LastAttachmentFor(attachments: seq<Attachment>, id: int): (i: int)
    ensures -1 <= i < |attachments|
    ensures i >= 0 ==> attachments[i].boneId == id
    ensures forall l :: i < l < |attachments| ==> attachments[l].boneId != id
  {
    if |attachments| == 0 then -1
    else if attachments[|attachments| - 1].boneId == id then |attachments| - 1
    else LastAttachmentFor(attachments[..|attachments| - 1], id)
  }

  /** Attaching never touches a bone that is not the first in the list for its id. */
  lemma {:induction false} AttachTouchesFirstOnly(bones: seq<IkBone>, attachments: seq<Attachment>, j: int)
    requires 0 <= j < |bones| && FirstBoneIndex(bones, bones[j].boneId) != j
    ensures AttachAll(bones, attachments)[j] == bones[j]
  {
    if |attachments| > 0 {
      var front := attachments[..|attachments| - 1];
      AttachTouchesFirstOnly(bones, front, j);
      FirstBoneIndexByIds(AttachAll(bones, front), bones, attachments[|attachments| - 1].boneId);
      FirstBoneIndexByIds(AttachAll(bones, front), bones, bones[j].boneId);
    }
  }

  /**
   * After attaching, the first bone for an id carries the Kusudama of the last attachment for
   * that id (a later constraint naming the same bone replaces an earlier one), or its old
   * constraint when there is none.
   */
  lemma {:induction false} AttachedConstraint(bones: seq<IkBone>, attachments: seq<Attachment>, j: int)
    requires 0 <= j < |bones| && FirstBoneIndex(bones, bones[j].boneId) == j
    ensures AttachAll(bones, attachments)[j].constraint ==
      (var i := LastAttachmentFor(attachments, bones[j].boneId);
       if i < 0 then bones[j].constraint else Some(attachments[i].kusudama))
  {
    if |attachments| > 0 {
      var front := attachments[..|attachments| - 1];
      AttachedConstraint(bones, front, j);
      FirstBoneIndexByIds(AttachAll(bones, front), bones, attachments[|attachments| - 1].boneId);
    }
  }

  /** The non-null segments, in order: those segment_solver is called on. */
  function LiveSegments(segments: seq<Option<int>>): seq<int>
  {
    if |segments| == 0 then []
    else
      var last := segments[|segments| - 1];
      var front := segments[..|segments| - 1];
      assert segments == front + [last];
      LiveSegments(front) + (if last.Some? then [last.value] else [])
  }

  /** A root is solved exactly when some segment slot holds it. */
  lemma {:induction false} LiveSegmentsMembers(segments: seq<Option<int>>, x: int)
    ensures x in LiveSegments(segments) <==> Some(x) in segments
  {
    if |segments| > 0 {
      var front := segments[..|segments| - 1];
      assert segments == front + [segments[|segments| - 1]];
      LiveSegmentsMembers(front, x);
    }
  }

  /** One more slot of the segment list adds its root, when it has one, at the end. */
  lemma LiveSegmentsStep(segments: seq<Option<int>>, s: int)
    requires 0 <= s < |segments|
    ensures LiveSegments(segments[..s + 1]) ==
      LiveSegments(segments[..s]) + (if segments[s].Some? then [segments[s].value] else [])
  {
    assert segments[..s + 1][..s] == segments[..s];
  }

  /** The segment_solver calls of execute: every live segment once per iteration, iteration after iteration. */
  function SolveSchedule(segments: seq<Option<int>>, iterations: int): seq<int>
    decreases iterations
  {
    if iterations <= 0 then [] else SolveSchedule(segments, iterations - 1) + LiveSegments(segments)
  }

  /** execute calls segment_solver iterations x (non-null segments) times. */
  lemma {:induction false} SolveScheduleLength(segments: seq<Option<int>>, iterations: int)
    ensures |SolveSchedule(segments, iterations)| ==
      (if iterations <= 0 then 0 else iterations * |LiveSegments(segments)|)
    decreases iterations
  {
    if iterations > 0 {
      SolveScheduleLength(segments, iterations - 1);
      var m := |LiveSegments(segments)|;
      MulPred(iterations, m);
    }
  }

  lemma MulPred(n: int, m: int)
    ensures (n - 1) * m + m == n * m
  {
  }

  /**
   * The calls are iteration-major: call number i * m + j, with m live segments, is the j-th
   * live segment in iteration i.
   */
  lemma {:induction false} SolveScheduleIterationMajor(segments: seq<Option<int>>, iterations: int, i: int, j: int)
    requires 0 <= i < iterations
    requires 0 <= j < |LiveSegments(segments)|
    ensures i * |LiveSegments(segments)| + j < |SolveSchedule(segments, iterations)|
    ensures SolveSchedule(segments, iterations)[i * |LiveSegments(segments)| + j] == LiveSegments(segments)[j]
    decreases iterations
  {
    var m := |LiveSegments(segments)|;
    var n := iterations;
    var front := SolveSchedule(segments, n - 1);
    SolveScheduleLength(segments, n - 1);
    MulPred(n, m);
    if i < n - 1 {
      SolveScheduleIterationMajor(segments, n - 1, i, j);
      assert i * m + j < |front|;
    } else {
      assert |front| == i * m;
    }
  }

  /** The entries the bone damp cache is meant to hold: a bone name and a damp value. */
  predicate IsComplete(entry: DampEntry) {
    entry.boneName.Some? && entry.damp.Some?
  }

  /**
   * The bone damp cache: every complete entry maps the id of its bone to its damp,
   * a later entry for the same bone overriding an earlier one.
   */
  function DampCacheOf(entries: seq<DampEntry>, sk: Skeleton): map<int, real>
  {
    if |entries| == 0 then map[]
    else
      var last := entries[|entries| - 1];
      var cache := DampCacheOf(entries[..|entries| - 1], sk);
      if IsComplete(last) then cache[FindBone(sk, last.boneName.value) := last.damp.value] else cache
  }

  /** The cache holds exactly the bones some complete entry names. */
  lemma {:induction false} DampCacheKeys(entries: seq<DampEntry>, sk: Skeleton, id: int)
    ensures id in DampCacheOf(entries, sk) <==>
      exists k :: 0 <= k < |entries| && IsComplete(entries[k]) && FindBone(sk, entries[k].boneName.value) == id
  {
    if |entries| > 0 {
      var front := entries[..|entries| - 1];
      DampCacheKeys(front, sk, id);
      if exists k :: 0 <= k < |front| && IsComplete(front[k]) && FindBone(sk, front[k].boneName.value) == id {
        var k :| 0 <= k < |front| && IsComplete(front[k]) && FindBone(sk, front[k].boneName.value) == id;
        assert entries[k] == front[k];
      }
      if exists k :: 0 <= k < |entries| && IsComplete(entries[k]) && FindBone(sk, entries[k].boneName.value) == id {
        var k :| 0 <= k < |entries| && IsComplete(entries[k]) && FindBone(sk, entries[k].boneName.value) == id;
        if k < |front| {
          assert front[k] == entries[k];
        }
      }
    }
  }

  /** A complete entry that no later complete entry overrides leaves its damp in the cache. */
  lemma {:induction false} DampCacheLastWins(entries: seq<DampEntry>, sk: Skeleton, k: int)
    requires 0 <= k < |entries| && IsComplete(entries[k])
    requires forall l :: k < l < |entries| && IsComplete(entries[l]) ==>
      FindBone(sk, entries[l].boneName.value) != FindBone(sk, entries[k].boneName.value)
    ensures FindBone(sk, entries[k].boneName.value) in DampCacheOf(entries, sk)
    ensures DampCacheOf(entries, sk)[FindBone(sk, entries[k].boneName.value)] == entries[k].damp.value
  {
    var front := entries[..|entries| - 1];
    if k < |entries| - 1 {
      assert front[k] == entries[k];
      forall l | k < l < |front| && IsComplete(front[l])
        ensures FindBone(sk, front[l].boneName.value) != FindBone(sk, front[k].boneName.value)
      {
        assert front[l] == entries[l];
      }
      DampCacheLastWins(front, sk, k);
    }
  }

  /**
   * The keys the bone damp loop of skeleton_changed inserts as written: it advances its index
   * before reading, so entry 0 is never read, and it skips every entry that has a damp value,
   * so only entries naming a bone but lacking a damp reach the cache.
   */
  function DampCacheKeysAsWritten(entries: seq<DampEntry>, sk: Skeleton): (keys: set<int>)
    ensures forall k :: 1 <= k < |entries| && entries[k].boneName.Some? && entries[k].damp.None? ==>
      FindBone(sk, entries[k].boneName.value) in keys
    ensures forall k :: 0 <= k < |entries| && IsComplete(entries[k]) && FindBone(sk, entries[k].boneName.value) in keys ==>
      exists l :: 1 <= l < |entries| && entries[l].damp.None? && entries[l].boneName.Some?
                  && FindBone(sk, entries[l].boneName.value) == FindBone(sk, entries[k].boneName.value)
  {
    set k | 1 <= k < |entries| && entries[k].boneName.Some? && entries[k].damp.None?
      :: FindBone(sk, entries[k].boneName.value)
  }

  /**
   * The damp table after the loop as written: reading bone["damp"] from an entry after the
   * first that names a bone but has no damp inserts the key, holding nil, which reads as 0.
   */
  function DampEntriesAfterAsWritten(entries: seq<DampEntry>): seq<DampEntry>
  {
    seq(|entries|, k requires 0 <= k < |entries| =>
      if 1 <= k && entries[k].boneName.Some? && entries[k].damp.None? then entries[k].(damp := Some(0.0))
      else entries[k])
  }

  /**
   * A second run of the loop as written, on the table the first run left behind, caches
   * nothing at all: every entry it would insert now has a damp key.
   */
  lemma DampSecondPassCachesNothing(entries: seq<DampEntry>, sk: Skeleton)
    ensures DampCacheKeysAsWritten(DampEntriesAfterAsWritten(entries), sk) == {}
  {
  }

  /**
   * The loop as written never caches a configured damp: a table whose only entry names a bone
   * and gives it a damp leaves the cache empty, where the intended cache maps that bone to it.
   */
  lemma DampCacheAsWrittenDropsDamp(sk: Skeleton, name: string, damp: real)
    ensures DampCacheKeysAsWritten([DampEntry(Some(name), Some(damp))], sk) == {}
    ensures DampCacheOf([DampEntry(Some(name), Some(damp))], sk) == map[FindBone(sk, name) := damp]
  {
  }
}
