/** The missile's smoke trail (src/components/MissileTrail.tsx): a 20-slot
    ring buffer written every second active frame, the line geometry laid
    out newest-first from it (unused slots repeat the oldest point), and the
    particle instances, which shrink along the trail and park unused slots
    far below the road. Float32 rounding of the stored coordinates is not
    modelled. */
module MissileTrail {
  import opened Maths

  const MaxTrailPoints: int := 20
  const ParticleScale: real := 0.2
  /** Where unused particle instances are parked. */
  const ParkedAt: Vec3 := Vec3(0.0, -9999.0, 0.0)

  /** The ring: index of the newest point (-1 before any write), number of
      points written (at most 20), and the slots. */
  datatype Ring = Ring(head: int, count: int, buf: seq<Vec3>)

  predicate ValidRing(r: Ring) {
    && |r.buf| == MaxTrailPoints
    && 0 <= r.count <= MaxTrailPoints
    && -1 <= r.head < MaxTrailPoints
    && (r.count == 0 <==> r.head == -1)
  }

  const Origin: Vec3 := Vec3(0.0, 0.0, 0.0)
  const EmptyRing: Ring := Ring(-1, 0, [Origin, Origin, Origin, Origin, Origin, Origin, Origin, Origin, Origin, Origin,
                                        Origin, Origin, Origin, Origin, Origin, Origin, Origin, Origin, Origin, Origin])

  /** One write: advance the head (wrapping at 20), store the point, and
      count up to 20. */
  function Push(r: Ring, p: Vec3): (t: Ring)
    requires ValidRing(r)
    ensures ValidRing(t) && t.count >= 1
    ensures t.head == (r.head + 1) % MaxTrailPoints
    ensures t.count == (if r.count < MaxTrailPoints then r.count + 1 else MaxTrailPoints)
    ensures t.buf == r.buf[t.head := p]
  {
    var head := (r.head + 1) % MaxTrailPoints;
    Ring(head, if r.count < MaxTrailPoints then r.count + 1 else r.count, r.buf[head := p])
  }

  /** The i-th newest slot: `(head - i + 20) % 20`. */
  function Slot(r: Ring, i: int): (p: Vec3)
    requires ValidRing(r) && r.count >= 1 && 0 <= i < MaxTrailPoints
  {
    r.buf[(r.head - i + MaxTrailPoints) % MaxTrailPoints]
  }

  /** The ring after writing the points of ws, oldest first. */
  function PushAll(ws: seq<Vec3>): (r: Ring)
    ensures ValidRing(r) && r.count <= |ws|
  {
    if |ws| == 0 then EmptyRing else Push(PushAll(ws[..|ws| - 1]), ws[|ws| - 1])
  }

  /** After n >= 1 writes the ring holds min(n, 20) points and its head
      is at (n - 1) mod 20. */
  lemma {:induction false} RingShape(ws: seq<Vec3>)
    requires |ws| >= 1
    ensures PushAll(ws).count == (if |ws| < MaxTrailPoints then |ws| else MaxTrailPoints)
    ensures PushAll(ws).head == (|ws| - 1) % MaxTrailPoints
  {
    var n := |ws|;
    var prev := ws[..n - 1];
    assert PushAll(ws) == Push(PushAll(prev), ws[n - 1]);
    if n == 1 {
      assert prev == [];
    } else {
      RingShape(prev);
      WrapSucc(n - 2);
    }
  }

  /** Advancing a wrapped index by one is wrapping its successor. */
  lemma WrapSucc(k: nat)
    ensures ((k % MaxTrailPoints) + 1) % MaxTrailPoints == (k + 1) % MaxTrailPoints
  {
  }

  /** ... and slot i is the i-th most recent point written. */
  lemma {:induction false} RingKeepsRecent(ws: seq<Vec3>)
    requires |ws| >= 1
    ensures forall i :: 0 <= i < PushAll(ws).count ==> Slot(PushAll(ws), i) == ws[|ws| - 1 - i]
  {
    var n := |ws|;
    var prev := ws[..n - 1];
    var r := PushAll(ws);
    if n == 1 {
      assert prev == [];
    } else {
      RingKeepsRecent(prev);
      var q := PushAll(prev);
      assert r == Push(q, ws[n - 1]);
      forall i | 0 <= i < r.count
        ensures Slot(r, i) == ws[n - 1 - i]
      {
        SlotAfterPush(q, ws[n - 1], i);
        if i > 0 {
          assert Slot(q, i - 1) == prev[n - 2 - (i - 1)];
        }
      }
    }
  }

  /** A write becomes slot 0 and shifts every other slot back by one. */
  lemma SlotAfterPush(q: Ring, p: Vec3, i: int)
    requires ValidRing(q) && q.count >= 1 && 0 <= i < MaxTrailPoints
    ensures i == 0 ==> Slot(Push(q, p), i) == p
    ensures i > 0 ==> Slot(Push(q, p), i) == Slot(q, i - 1)
  {
    var t := Push(q, p);
    if i > 0 {
      var k := (t.head - i + MaxTrailPoints) % MaxTrailPoints;
      if q.head < MaxTrailPoints - 1 {
        assert t.head == q.head + 1;
      } else {
        assert t.head == 0;
      }
      assert k == (q.head - (i - 1) + MaxTrailPoints) % MaxTrailPoints;
      assert k != t.head;
    }
  }

  /** A particle instance: position and uniform scale. */
  datatype Instance = Instance(position: Vec3, scale: real)

  /** The particle size along the trail: 0.2 (1 - i / 20). */
  function FadeScale(i: int): (s: real)
    requires 0 <= i < MaxTrailPoints
    ensures 0.0 < s <= ParticleScale
  {
    ParticleScale * (1.0 - i as real / MaxTrailPoints as real)
  }

  /** Particles shrink strictly from the head of the trail backwards. */
  lemma FadeIsDecreasing(i: int, j: int)
    requires 0 <= i < j < MaxTrailPoints
    ensures FadeScale(j) < FadeScale(i)
  {
  }

  /** The line geometry, laid out slot by slot: the newest `count` points,
      then copies of the previous slot, so every unused slot repeats the
      oldest stored point. */
  method LayoutLine(r: Ring) returns (line: seq<Vec3>)
    requires ValidRing(r) && r.count >= 1
    ensures |line| == MaxTrailPoints
    ensures forall i :: 0 <= i < r.count ==> line[i] == Slot(r, i)
    ensures forall i :: r.count <= i < MaxTrailPoints ==> line[i] == Slot(r, r.count - 1)
  {
    line := [];
    var i := 0;
    while i < MaxTrailPoints
      invariant 0 <= i <= MaxTrailPoints && |line| == i
      invariant forall j :: 0 <= j < i && j < r.count ==> line[j] == Slot(r, j)
      invariant forall j :: r.count <= j < i ==> line[j] == Slot(r, r.count - 1)
    {
      if i < r.count {
        line := line + [Slot(r, i)];
      } else {
        line := line + [line[i - 1]];
      }
      i := i + 1;
    }
  }

  /** The particle instances: the newest `count` points with fading scale,
      the rest parked out of view. */
  method LayoutParticles(r: Ring) returns (parts: seq<Instance>)
    requires ValidRing(r) && r.count >= 1
    ensures |parts| == MaxTrailPoints
    ensures forall i :: 0 <= i < r.count ==> parts[i] == Instance(Slot(r, i), FadeScale(i))
    ensures forall i :: r.count <= i < MaxTrailPoints ==> parts[i] == Instance(ParkedAt, 1.0)
  {
    parts := [];
    var i := 0;
    while i < MaxTrailPoints
      invariant 0 <= i <= MaxTrailPoints && |parts| == i
      invariant forall j :: 0 <= j < i && j < r.count ==> parts[j] == Instance(Slot(r, j), FadeScale(j))
      invariant forall j :: r.count <= j < i ==> parts[j] == Instance(ParkedAt, 1.0)
    {
      if i < r.count {
        parts := parts + [Instance(Slot(r, i), FadeScale(i))];
      } else {
        parts := parts + [Instance(ParkedAt, 1.0)];
      }
      i := i + 1;
    }
  }

  datatype TrailState = TrailState(frameCount: int, ring: Ring, line: seq<Vec3>, particles: seq<Instance>)

  /** One frame: nothing while inactive; otherwise the frame counter
      advances, and on even counts the missile position is written and both
      layouts are rebuilt. */
  method Frame(s: TrailState, missile: Vec3, isActive: bool) returns (t: TrailState)
    requires ValidRing(s.ring)
    ensures ValidRing(t.ring)
    ensures !isActive ==> t == s
    ensures isActive ==> t.frameCount == s.frameCount + 1
    ensures isActive && t.frameCount % 2 != 0 ==> t == s.(frameCount := t.frameCount)
    ensures isActive && t.frameCount % 2 == 0 ==>
              && t.ring == Push(s.ring, missile)
              && Slot(t.ring, 0) == missile
              && |t.line| == MaxTrailPoints && |t.particles| == MaxTrailPoints
              && (forall i :: 0 <= i < t.ring.count ==> t.line[i] == Slot(t.ring, i))
              && (forall i :: t.ring.count <= i < MaxTrailPoints ==> t.line[i] == Slot(t.ring, t.ring.count - 1))
              && (forall i :: 0 <= i < t.ring.count ==> t.particles[i] == Instance(Slot(t.ring, i), FadeScale(i)))
              && (forall i :: t.ring.count <= i < MaxTrailPoints ==> t.particles[i] == Instance(ParkedAt, 1.0))
  {
    if !isActive {
      return s;
    }
    var frameCount := s.frameCount + 1;
    if frameCount % 2 != 0 {
      return s.(frameCount := frameCount);
    }
    var ring := Push(s.ring, missile);
    var line := LayoutLine(ring);
    var particles := LayoutParticles(ring);
    t := TrailState(frameCount, ring, line, particles);
  }
}
