/**
 * A skeletal animation (source/Animation.cpp): a list of keyframes, the
 * animation's length and its current time.  getKeyframes finds the two
 * keyframes around the current time; animateBone walks a bone tree and sets
 * each bone's bind matrix from the two keyframes.  Float arithmetic
 * (addition, modf, the progress division, vector mix and quaternion slerp)
 * is the host's and comes in as functions; float comparison is IEEE order.
 */
module EngineAnimation {
  import opened Bytes
  import opened Wrappers
  import opened AmdScene
  import opened EngineKeyframe
  import opened EngineBone

  /** Host float operations the animation code calls. */
  datatype AnimMath = AnimMath(
    add: (F32, F32) -> F32,
    sub: (F32, F32) -> F32,
    div: (F32, F32) -> F32,
    modf: F32 -> (F32, F32),             // (fractional part, integral part)
    mix: (Vec3, Vec3, F32) -> Vec3,      // a + (b - a) * t
    slerp: (Quat, Quat, F32) -> Quat)

  /**
   * The first index j in [i, n) whose keyframe's instant is later than t,
   * or n when there is none.
   */
  function LaterFrom(ks: seq<Keyframe>, n: nat, t: F32, i: nat): (j: nat)
    requires i <= n <= |ks|
    ensures i <= j <= n
    ensures j < n ==> FLt(t, ks[j].instant)
    ensures forall k :: i <= k < j ==> !FLt(t, ks[k].instant)
    decreases n - i
  {
    if i == n then n
    else if FLt(t, ks[i].instant) then i
    else LaterFrom(ks, n, t, i + 1)
  }

  /** The bind matrix animateBone gives bone id: translate(mix of positions) * toMat4(slerp of rotations). */
  function BindAt(first: Keyframe, last: Keyframe, progress: F32, id: nat, math: AnimMath): Mat
    requires id < first.pos.Length && id < first.rot.Length && id < last.pos.Length && id < last.rot.Length
    reads first.pos, first.rot, last.pos, last.rot
  {
    Times(Translation(math.mix(first.pos[id], last.pos[id], progress)),
          OfQuat(math.slerp(first.rot[id], last.rot[id], progress)))
  }

  /** Every bone id of t indexes both keyframes' arrays. */
  ghost predicate Covered(t: BoneNode, first: Keyframe, last: Keyframe)
    reads first, last
  {
    && t.id < first.pos.Length && t.id < first.rot.Length && t.id < last.pos.Length && t.id < last.rot.Length
    && forall j :: 0 <= j < |t.children| ==> Covered(t.children[j], first, last)
  }

  /** The (bone id, matrix) assignments of animateBone on t, in the order they happen. */
  function Settings(t: BoneNode, first: Keyframe, last: Keyframe, progress: F32, math: AnimMath): (s: seq<(nat, Mat)>)
    requires Covered(t, first, last)
    reads first, last, first.pos, first.rot, last.pos, last.rot
    ensures |s| >= 1 && s[0].0 == t.id
    decreases t, |t.children| + 1
  {
    [(t.id, BindAt(first, last, progress, t.id, math))] + SettingsOf(t, |t.children|, first, last, progress, math)
  }

  function SettingsOf(t: BoneNode, k: nat, first: Keyframe, last: Keyframe, progress: F32, math: AnimMath): seq<(nat, Mat)>
    requires k <= |t.children| && Covered(t, first, last)
    reads first, last, first.pos, first.rot, last.pos, last.rot
    decreases t, k
  {
    if k == 0 then []
    else SettingsOf(t, k - 1, first, last, progress, math) + Settings(t.children[k - 1], first, last, progress, math)
  }

  /** One more child's subtree of assignments. */
  lemma SettingsOfNext(t: BoneNode, k: nat, first: Keyframe, last: Keyframe, progress: F32, math: AnimMath)
    requires k < |t.children| && Covered(t, first, last)
    ensures Covered(t.children[k], first, last)
    ensures SettingsOf(t, k + 1, first, last, progress, math)
      == SettingsOf(t, k, first, last, progress, math) + Settings(t.children[k], first, last, progress, math)
  {
  }

  /** animateBone sets bones in preorder: each bone before its children, children in vector order. */
  lemma {:induction false} SettingsInPreorder(t: BoneNode, first: Keyframe, last: Keyframe, progress: F32, math: AnimMath)
    requires Covered(t, first, last)
    ensures |Settings(t, first, last, progress, math)| == |Preorder(t)|
    ensures forall k :: 0 <= k < |Preorder(t)| ==> Settings(t, first, last, progress, math)[k].0 == Preorder(t)[k]
    decreases t, |t.children| + 1
  {
    SettingsOfInPreorder(t, |t.children|, first, last, progress, math);
  }

  lemma {:induction false} SettingsOfInPreorder(t: BoneNode, n: nat, first: Keyframe, last: Keyframe, progress: F32, math: AnimMath)
    requires n <= |t.children| && Covered(t, first, last)
    ensures |SettingsOf(t, n, first, last, progress, math)| == |PreorderOf(t, n)|
    ensures forall k :: 0 <= k < |PreorderOf(t, n)| ==> SettingsOf(t, n, first, last, progress, math)[k].0 == PreorderOf(t, n)[k]
    decreases t, n
  {
    if n > 0 {
      SettingsOfInPreorder(t, n - 1, first, last, progress, math);
      SettingsInPreorder(t.children[n - 1], first, last, progress, math);
    }
  }

  /** Why an animation cannot be built. */
  datatype AnimationError =
    | NoKeyframes   // Animation.cpp:34 reads keyframes[nkeyframes-1], before the list, when there are none

  /**
   * Animation::Animation with the empty list as the error it is: with no
   * keyframes the length would be read from keyframes[-1]; otherwise the
   * new animation is the one the constructor builds.
   */
  method NewAnimation(keyframelist: seq<Keyframe>, nkeyframes: nat) returns (r: Result<Animation, AnimationError>)
    requires nkeyframes <= |keyframelist|
    ensures r.Err? <==> nkeyframes == 0
    ensures r.Ok? ==> fresh(r.value) && r.value.Valid()
    ensures r.Ok? ==> r.value.keyframes == keyframelist && r.value.nkeyframes == nkeyframes
    ensures r.Ok? ==> r.value.length == keyframelist[nkeyframes - 1].instant && r.value.currentTime == ZERO
  {
    if nkeyframes == 0 {
      return Err(NoKeyframes);
    }
    var a := new Animation(keyframelist, nkeyframes);
    return Ok(a);
  }

  class Animation {
    const keyframes: seq<Keyframe>
    const nkeyframes: nat
    var length: F32
    var currentTime: F32

    ghost predicate Valid()
      reads this
    {
      1 <= nkeyframes <= |keyframes|
    }

    /** Animation::Animation: the length is the last keyframe's instant; time starts at 0. */
    constructor (keyframelist: seq<Keyframe>, nkeyframes: nat)
      requires 1 <= nkeyframes <= |keyframelist|
      ensures Valid()
      ensures keyframes == keyframelist && this.nkeyframes == nkeyframes
      ensures length == keyframelist[nkeyframes - 1].instant && currentTime == ZERO
    {
      keyframes := keyframelist;
      this.nkeyframes := nkeyframes;
      currentTime := ZERO;
      length := keyframelist[nkeyframes - 1].instant;
    }

    /**
     * Animation::increaseTime.  Past the end, the time wraps to the
     * fractional part of the new time, and modf stores the integral part
     * into the length itself.
     */
    method IncreaseTime(delta: F32, math: AnimMath)
      requires Valid()
      modifies this
      ensures Valid()
      ensures var t := math.add(old(currentTime), delta);
        if FLt(old(length), t) then currentTime == math.modf(t).0 && length == math.modf(t).1
        else currentTime == t && length == old(length)
    {
      currentTime := math.add(currentTime, delta);
      if FLt(length, currentTime) {
        var parts := math.modf(currentTime);
        currentTime := parts.0;
        length := parts.1;
      }
    }

    /**
     * Animation::getKeyframes: when some keyframe after the first is later
     * than the current time, last is the earliest such and first the one
     * before it; otherwise both are the last keyframe.  progress is
     * (time - first) / (last - first).
     */
    method GetKeyframes(math: AnimMath) returns (first: Keyframe, last: Keyframe, progress: F32)
      requires Valid()
      ensures var j := LaterFrom(keyframes, nkeyframes, currentTime, 1);
        if j < nkeyframes then first == keyframes[j - 1] && last == keyframes[j]
        else first == keyframes[nkeyframes - 1] && last == keyframes[nkeyframes - 1]
      ensures progress == math.div(math.sub(currentTime, first.instant), math.sub(last.instant, first.instant))
    {
      first := keyframes[0];
      last := keyframes[0];
      var i := 1;
      while i < nkeyframes
        invariant 1 <= i <= nkeyframes
        invariant LaterFrom(keyframes, nkeyframes, currentTime, 1) == LaterFrom(keyframes, nkeyframes, currentTime, i)
        invariant first == keyframes[i - 1] && last == keyframes[i - 1]
      {
        last := keyframes[i];
        if FLt(currentTime, last.instant) {
          break;
        }
        first := last;
        i := i + 1;
      }
      progress := math.div(math.sub(currentTime, first.instant), math.sub(last.instant, first.instant));
    }

    /** Animation::animateBone: the bind matrices it sets, bone by bone, in order. */
    method AnimateBone(bone: BoneNode, first: Keyframe, last: Keyframe, progress: F32, math: AnimMath)
      returns (sets: seq<(nat, Mat)>)
      requires Covered(bone, first, last)
      ensures sets == Settings(bone, first, last, progress, math)
      decreases bone
    {
      sets := [(bone.id, BindAt(first, last, progress, bone.id, math))];
      var below: seq<(nat, Mat)> := [];
      var i := 0;
      while i < |bone.children|
        invariant 0 <= i <= |bone.children|
        invariant below == SettingsOf(bone, i, first, last, progress, math)
      {
        SettingsOfNext(bone, i, first, last, progress, math);
        var s := AnimateBone(bone.children[i], first, last, progress, math);
        below := below + s;
        i := i + 1;
      }
      sets := sets + below;
    }
  }
}
