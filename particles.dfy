/**
 * ParticleSource: a vector of particles updated once per frame, the dead
 * ones erased while the vector is walked, and an instance buffer of 21
 * floats per particle (a 4x4 MVP matrix, then the atlas frame data) filled
 * for one instanced draw call.
 *
 * Particle physics, the camera-distance sort and the matrix and atlas
 * computations are host operations given as function parameters.
 */
module EngineParticles {
  import opened Bytes

  /** Floats per particle in the instance buffer: 16 of MVP, 4 of frame position, 1 of blend factor. */
  const STRIDE: nat := 21
  const MVP_FLOATS: nat := 16
  const FRAME_FLOATS: nat := 5

  type Mvp = s: seq<F32> | |s| == MVP_FLOATS witness seq(MVP_FLOATS, _ => ZERO)
  type FrameData = s: seq<F32> | |s| == FRAME_FLOATS witness seq(FRAME_FLOATS, _ => ZERO)

  datatype Particle = Particle(elapsedTime: F32, position: seq<F32>, velocity: seq<F32>, mass: F32,
                               lifeLength: F32, rotation: F32, scale: F32, life: F32)

  /** Particle::update's verdict on the particle it has just advanced: elapsedTime > lifeLength. */
  predicate Dead(p: Particle) {
    FLt(p.lifeLength, p.elapsedTime)
  }

  /** The physics of Particle::update, a host operation. */
  function Advance(step: Particle -> Particle, p: Particle): Particle {
    step(p)
  }

  /** Renderer::updateMVP for a particle's billboard, a host operation. */
  function MvpOf(mvp: Particle -> Mvp, p: Particle): Mvp {
    mvp(p)
  }

  /** The atlas frame data for a particle's life, a host operation. */
  function FrameOf(frame: Particle -> FrameData, p: Particle): FrameData {
    frame(p)
  }

  // ---------------------------------------------------------------------------
  // ParticleSource::update: the erase loop
  // ---------------------------------------------------------------------------

  /**
   * The erase loop on the particles from slot i on.  Each examined particle
   * is advanced by `step` (the physics of Particle::update); a dead one is
   * erased and the counter still moves on, so the particle shifted into its
   * slot is passed over, neither advanced nor checked.
   */
  function ErasePass(step: Particle -> Particle, ps: seq<Particle>): (r: seq<Particle>)
    ensures |r| <= |ps|
  {
    if ps == [] then []
    else if !Dead(Advance(step, ps[0])) then [Advance(step, ps[0])] + ErasePass(step, ps[1..])
    else if |ps| == 1 then []
    else [ps[1]] + ErasePass(step, ps[2..])
  }

  /** What the loop does to each particle. */
  datatype Fate = Advanced | Erased | PassedOver

  /** The fate of each particle, slot by slot. */
  function Fates(step: Particle -> Particle, ps: seq<Particle>): (fs: seq<Fate>)
    ensures |fs| == |ps|
  {
    if ps == [] then []
    else if !Dead(Advance(step, ps[0])) then [Advanced] + Fates(step, ps[1..])
    else if |ps| == 1 then [Erased]
    else [Erased, PassedOver] + Fates(step, ps[2..])
  }

  /** The particles a run of fates leaves, in their order: advanced, erased or untouched. */
  function Survivors(step: Particle -> Particle, ps: seq<Particle>, fs: seq<Fate>): (r: seq<Particle>)
    requires |fs| == |ps|
    ensures |r| <= |ps|
  {
    if ps == [] then []
    else
      var rest := Survivors(step, ps[1..], fs[1..]);
      match fs[0]
      case Advanced => [Advance(step, ps[0])] + rest
      case Erased => rest
      case PassedOver => [ps[0]] + rest
  }

  /**
   * A particle is passed over exactly when the one before it was erased;
   * an advanced particle is alive after its step and an erased one dead.
   */
  lemma {:induction false} FatesPattern(step: Particle -> Particle, ps: seq<Particle>)
    ensures var fs := Fates(step, ps);
      && (forall k :: 0 <= k < |fs| ==> (fs[k] == PassedOver <==> k > 0 && fs[k - 1] == Erased))
      && (forall k :: 0 <= k < |fs| && fs[k] == Advanced ==> !Dead(Advance(step, ps[k])))
      && (forall k :: 0 <= k < |fs| && fs[k] == Erased ==> Dead(Advance(step, ps[k])))
  {
    if ps != [] && (!Dead(Advance(step, ps[0])) || |ps| > 1) {
      var n := if !Dead(Advance(step, ps[0])) then 1 else 2;
      FatesPattern(step, ps[n..]);
      var fs := Fates(step, ps);
      var tail := Fates(step, ps[n..]);
      assert fs == fs[..n] + tail;
      forall k | n <= k < |fs|
        ensures fs[k] == tail[k - n] && ps[k] == ps[n..][k - n]
      {
      }
    }
  }

  /**
   * The pass keeps, in their order, the advanced particles after their
   * step and the passed-over ones as they were, and drops the erased ones.
   */
  lemma {:induction false} ErasePassKeepsOrder(step: Particle -> Particle, ps: seq<Particle>)
    ensures ErasePass(step, ps) == Survivors(step, ps, Fates(step, ps))
  {
    if ps != [] {
      var fs := Fates(step, ps);
      if !Dead(Advance(step, ps[0])) {
        ErasePassKeepsOrder(step, ps[1..]);
        assert fs[1..] == Fates(step, ps[1..]);
      } else if |ps| > 1 {
        ErasePassKeepsOrder(step, ps[2..]);
        assert fs[1..][1..] == Fates(step, ps[2..]);
        assert ps[1..][1..] == ps[2..];
      }
    }
  }

  /** The erase loop's state at counter i: what is done plus what the rest will give is the whole pass. */
  predicate Erasing(step: Particle -> Particle, all: seq<Particle>, ps: seq<Particle>, i: nat) {
    if i <= |ps| then ps[..i] + ErasePass(step, ps[i..]) == ErasePass(step, all)
    else ps == ErasePass(step, all)
  }

  lemma ErasingDone(step: Particle -> Particle, all: seq<Particle>, ps: seq<Particle>, i: nat)
    requires Erasing(step, all, ps, i) && i >= |ps|
    ensures ps == ErasePass(step, all)
  {
    if i == |ps| {
      assert ps[..i] == ps && ps[i..] == [];
    }
  }

  /** One pass of the loop on a particle still alive after its step. */
  lemma EraseStepAlive(step: Particle -> Particle, s: seq<Particle>, i: nat)
    requires i < |s| && !Dead(Advance(step, s[i]))
    ensures var t := s[i := Advance(step, s[i])];
      t[..i + 1] + ErasePass(step, t[i + 1..]) == s[..i] + ErasePass(step, s[i..])
  {
    var t := s[i := Advance(step, s[i])];
    assert s[i..][1..] == t[i + 1..];
    assert t[..i + 1] == s[..i] + [Advance(step, s[i])];
  }

  /** One pass of the loop on a particle dead after its step: erased, and the next slot passed over. */
  lemma EraseStepDead(step: Particle -> Particle, s: seq<Particle>, i: nat)
    requires i < |s| && Dead(Advance(step, s[i]))
    ensures var t := s[..i] + s[i + 1..];
      && (i < |t| ==> t[..i + 1] + ErasePass(step, t[i + 1..]) == s[..i] + ErasePass(step, s[i..]))
      && (i == |t| ==> t == s[..i] + ErasePass(step, s[i..]))
  {
    var t := s[..i] + s[i + 1..];
    var r := s[i..];
    if i < |t| {
      assert r[1..][1..] == t[i + 1..];
      assert t[..i + 1] == s[..i] + [r[1]];
    } else {
      assert r == [r[0]];
      assert t == s[..i];
    }
  }

  /**
   * The loop as evidently intended: every particle advanced and every dead
   * one erased.
   */
  function EraseDead(step: Particle -> Particle, ps: seq<Particle>): (r: seq<Particle>)
    ensures |r| <= |ps|
    ensures forall k :: 0 <= k < |r| ==> !Dead(r[k])
  {
    if ps == [] then []
    else if Dead(Advance(step, ps[0])) then EraseDead(step, ps[1..])
    else [Advance(step, ps[0])] + EraseDead(step, ps[1..])
  }

  /** EraseDead keeps exactly the particles alive after their step, advanced, in order. */
  lemma {:induction false} EraseDeadKeepsLiving(step: Particle -> Particle, ps: seq<Particle>)
    ensures forall k :: 0 <= k < |ps| && !Dead(Advance(step, ps[k])) ==> Advance(step, ps[k]) in EraseDead(step, ps)
    ensures forall q :: q in EraseDead(step, ps) ==> exists k :: 0 <= k < |ps| && q == Advance(step, ps[k]) && !Dead(q)
  {
    if ps != [] {
      EraseDeadKeepsLiving(step, ps[1..]);
      forall k | 1 <= k < |ps|
        ensures ps[k] == ps[1..][k - 1]
      {
      }
      forall q | q in EraseDead(step, ps[1..])
        ensures exists k :: 0 <= k < |ps| && q == Advance(step, ps[k]) && !Dead(q)
      {
        var k :| 0 <= k < |ps[1..]| && q == Advance(step, ps[1..][k]) && !Dead(q);
        assert q == Advance(step, ps[k + 1]);
      }
    }
  }

  /** A particle that is already dead and never moves. */
  const Expired: Particle := Particle(ONE, [], [], ZERO, ZERO, ZERO, ONE, ONE)

  /**
   * Two dead particles in a row: the loop as written erases the first and
   * passes over the second, which stays in the vector; as intended, both go.
   */
  lemma SecondDeadParticleSurvives()
    ensures ErasePass(p => p, [Expired, Expired]) == [Expired]
    ensures EraseDead(p => p, [Expired, Expired]) == []
  {
    assert Dead(Expired) by {
      assert OrderKey(ZERO) < OrderKey(ONE);
    }
  }

  // ---------------------------------------------------------------------------
  // ParticleSource::draw: the instance buffer
  // ---------------------------------------------------------------------------

  /** The instance data of a run of particles: 21 floats each, MVP then frame data. */
  function InstanceData(mvp: Particle -> Mvp, frame: Particle -> FrameData, ps: seq<Particle>): (d: seq<F32>)
    ensures |d| == STRIDE * |ps|
  {
    if ps == [] then []
    else InstanceData(mvp, frame, ps[..|ps| - 1]) + MvpOf(mvp, ps[|ps| - 1]) + FrameOf(frame, ps[|ps| - 1])
  }

  /** Particle k's MVP sits at 21k to 21k + 15 and its frame data at 21k + 16 to 21k + 20. */
  lemma {:induction false} InstanceSlots(mvp: Particle -> Mvp, frame: Particle -> FrameData, ps: seq<Particle>, k: nat)
    requires k < |ps|
    ensures InstanceData(mvp, frame, ps)[STRIDE * k .. STRIDE * k + MVP_FLOATS] == MvpOf(mvp, ps[k])
    ensures InstanceData(mvp, frame, ps)[STRIDE * k + MVP_FLOATS .. STRIDE * k + STRIDE] == FrameOf(frame, ps[k])
  {
    var init := ps[..|ps| - 1];
    var front := InstanceData(mvp, frame, init);
    var last := ps[|ps| - 1];
    var back := MvpOf(mvp, last) + FrameOf(frame, last);
    assert InstanceData(mvp, frame, ps) == front + back;
    if k < |ps| - 1 {
      InstanceSlots(mvp, frame, init, k);
      assert ps[k] == init[k];
      SliceInFront(front, back, STRIDE * k, STRIDE * k + MVP_FLOATS);
      SliceInFront(front, back, STRIDE * k + MVP_FLOATS, STRIDE * k + STRIDE);
    } else {
      assert (front + back)[|front|..] == back;
    }
  }

  lemma SliceInFront<T>(front: seq<T>, back: seq<T>, lo: nat, hi: nat)
    requires lo <= hi <= |front|
    ensures (front + back)[lo..hi] == front[lo..hi]
  {
  }

  /** One slot written after the earlier ones, and nothing after it touched. */
  lemma SlotWritten(before: seq<F32>, after: seq<F32>, lo: nat, m: Mvp, f: FrameData)
    requires |after| == |before| && lo + STRIDE <= |before|
    requires after[..lo] == before[..lo] && after[lo + STRIDE..] == before[lo + STRIDE..]
    requires after[lo..lo + MVP_FLOATS] == m && after[lo + MVP_FLOATS..lo + STRIDE] == f
    ensures after[..lo + STRIDE] == before[..lo] + m + f
    ensures forall k :: lo + STRIDE <= k < |after| ==> after[k] == before[k]
  {
    assert after[..lo + STRIDE] == after[..lo] + after[lo..lo + MVP_FLOATS] + after[lo + MVP_FLOATS..lo + STRIDE];
    forall k | lo + STRIDE <= k < |after|
      ensures after[k] == before[k]
    {
      assert after[k] == after[lo + STRIDE..][k - lo - STRIDE];
    }
  }

  /** What draw hands to the GPU. */
  datatype DrawCall = DrawCall(uploaded: seq<F32>, byteSize: int, instances: int)

  class ParticleSource {
    /** The particles, by value. */
    var particles: seq<Particle>
    /** The instance buffer, room for maxparticles particles. */
    const vboData: array<F32>

    /** ParticleSource::ParticleSource: no particles and a buffer of 21 floats per particle allowed. */
    constructor (maxParticles: nat)
      ensures particles == [] && vboData.Length == STRIDE * maxParticles && fresh(vboData)
    {
      particles := [];
      vboData := new F32[STRIDE * maxParticles];
    }

    /** ParticleSource::update up to the sort: the erase loop. */
    method Update(step: Particle -> Particle)
      modifies this
      ensures particles == ErasePass(step, old(particles))
    {
      var i := 0;
      ghost var all := particles;
      while i < |particles|
        invariant 0 <= i <= |particles| + 1
        invariant Erasing(step, all, particles, i)
      {
        var p := Advance(step, particles[i]);
        if Dead(p) {
          EraseStepDead(step, particles, i);
          particles := particles[..i] + particles[i + 1..];
        } else {
          EraseStepAlive(step, particles, i);
          particles := particles[i := p];
        }
        i := i + 1;
      }
      ErasingDone(step, all, particles, i);
    }

    /**
     * ParticleSource::draw: slot by slot, each particle's MVP at 21 times
     * its index and its frame data 16 floats further on; then the first
     * 21 floats per particle are uploaded and drawn as one instance each.
     */
    method Draw(mvp: Particle -> Mvp, frame: Particle -> FrameData) returns (call: DrawCall)
      requires STRIDE * |particles| <= vboData.Length
      modifies vboData
      ensures call.uploaded == InstanceData(mvp, frame, particles)
      ensures call.byteSize == 4 * STRIDE * |particles| && call.instances == |particles|
      ensures vboData[..STRIDE * |particles|] == call.uploaded
      ensures vboData[STRIDE * |particles|..] == old(vboData[STRIDE * |particles|..])
    {
      var offset := 0;
      var i := 0;
      while i < |particles|
        invariant 0 <= i <= |particles| && offset == i
        invariant vboData[..STRIDE * i] == InstanceData(mvp, frame, particles[..i])
        invariant forall k :: STRIDE * i <= k < vboData.Length ==> vboData[k] == old(vboData[k])
      {
        var p := particles[i];
        WriteSlot(vboData, offset * STRIDE, MvpOf(mvp, p), FrameOf(frame, p));
        assert particles[..i + 1][..i] == particles[..i];
        offset := offset + 1;
        i := i + 1;
      }
      assert particles[..i] == particles;
      assert vboData[STRIDE * i..] == old(vboData[STRIDE * i..]);
      call := DrawCall(vboData[..STRIDE * |particles|], |particles| * 4 * STRIDE, |particles|);
    }
  }

  /** One particle's slot: its MVP, then its frame data, from lo on. */
  method WriteSlot(a: array<F32>, lo: nat, m: Mvp, f: FrameData)
    requires lo + STRIDE <= a.Length
    modifies a
    ensures a[..lo + STRIDE] == old(a[..lo]) + m + f
    ensures forall k :: lo + STRIDE <= k < a.Length ==> a[k] == old(a[k])
  {
    ghost var before := a[..];
    Store(a, lo, m);
    Store(a, lo + MVP_FLOATS, f);
    SlotWritten(before, a[..], lo, m, f);
  }

  /** Renderer::storeMVP and Texture::storeFrameData: vals copied into a from offset on. */
  method Store(a: array<F32>, offset: nat, vals: seq<F32>)
    requires offset + |vals| <= a.Length
    modifies a
    ensures a[..offset] == old(a[..offset]) && a[offset + |vals|..] == old(a[offset + |vals|..])
    ensures a[offset..offset + |vals|] == vals
  {
    var j := 0;
    while j < |vals|
      invariant 0 <= j <= |vals|
      invariant a[..offset] == old(a[..offset]) && a[offset + |vals|..] == old(a[offset + |vals|..])
      invariant a[offset..offset + j] == vals[..j]
      invariant a[offset + j..] == old(a[offset + j..])
    {
      a[offset + j] := vals[j];
      j := j + 1;
    }
  }
}
