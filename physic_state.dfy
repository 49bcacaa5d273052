/** The serializable snapshot of the physics world (src/PhysicState.h, src/PhysicState.cpp):
    per-slot blob position, velocity and animation state, the enabled flags, and the
    ball's position, velocity, rotation and angular velocity. */
module PhysicStates {
  import opened Common

  datatype PhysicsSnap = PhysicsSnap(
    blobPosition: seq<Vec2>,
    blobVelocity: seq<Vec2>,
    blobState: seq<real>,
    playerEnabled: seq<bool>,
    ballPosition: Vec2,
    ballVelocity: Vec2,
    ballRotation: real,
    ballAngularVelocity: real)
  {
    /** One entry per player slot in every per-slot array. */
    predicate WellFormed() {
      |blobPosition| == MAX_PLAYERS && |blobVelocity| == MAX_PLAYERS &&
      |blobState| == MAX_PLAYERS && |playerEnabled| == MAX_PLAYERS
    }
  }

  /** A position reflected about the field's vertical centre line. */
  function MirrorPosition(p: Vec2): Vec2 { Vec2(RIGHT_PLANE - p.x, p.y) }

  /** A velocity as seen from the other side: the horizontal component is negated. */
  function MirrorVelocity(v: Vec2): Vec2 { Vec2(-v.x, v.y) }

  /** Exchanges each slot pair (i, i+1) of a per-slot sequence. */
  function SwapPairs<T>(p: seq<T>): (r: seq<T>)
    requires |p| % 2 == 0
    ensures |r| == |p|
    ensures forall i :: 0 <= i < |p| ==> Partner(i) < |p| && r[i] == p[Partner(i)]
  {
    seq(|p|, i requires 0 <= i < |p| => PartnerBound(i, |p|); p[Partner(i)])
  }

  lemma SwapPairsInvolution<T>(p: seq<T>)
    requires |p| % 2 == 0
    ensures SwapPairs(SwapPairs(p)) == p
  {
    var q := SwapPairs(SwapPairs(p));
    forall i | 0 <= i < |p| ensures q[i] == p[i] {
      PartnerBound(i, |p|);
    }
  }

  function MirrorPositions(p: seq<Vec2>): (r: seq<Vec2>)
    ensures |r| == |p| && forall i :: 0 <= i < |p| ==> r[i] == MirrorPosition(p[i])
  {
    seq(|p|, i requires 0 <= i < |p| => MirrorPosition(p[i]))
  }

  function MirrorVelocities(v: seq<Vec2>): (r: seq<Vec2>)
    ensures |r| == |v| && forall i :: 0 <= i < |v| ==> r[i] == MirrorVelocity(v[i])
  {
    seq(|v|, i requires 0 <= i < |v| => MirrorVelocity(v[i]))
  }

  /** The side-swapped snapshot: every blob's position and velocity are mirrored and
      the blob moves to its partner slot; the ball is mirrored, its spin reversed and
      its rotation complemented; the enabled flags are left alone. */
  function Mirror(s: PhysicsSnap): (r: PhysicsSnap)
    requires s.WellFormed()
    ensures r.WellFormed()
  {
    s.(blobPosition := SwapPairs(MirrorPositions(s.blobPosition)),
       blobVelocity := SwapPairs(MirrorVelocities(s.blobVelocity)),
       blobState := SwapPairs(s.blobState),
       ballPosition := MirrorPosition(s.ballPosition),
       ballVelocity := MirrorVelocity(s.ballVelocity),
       ballRotation := TWO_PI - s.ballRotation,
       ballAngularVelocity := -s.ballAngularVelocity)
  }

  /** Mirroring twice gives back the snapshot (over the reals). */
  lemma {:induction false} MirrorInvolution(s: PhysicsSnap)
    requires s.WellFormed()
    ensures Mirror(Mirror(s)) == s
  {
    var m := Mirror(Mirror(s));
    forall i | 0 <= i < MAX_PLAYERS
      ensures m.blobPosition[i] == s.blobPosition[i]
      ensures m.blobVelocity[i] == s.blobVelocity[i]
      ensures m.blobState[i] == s.blobState[i]
    {
      PartnerBound(i, MAX_PLAYERS);
    }
  }

  /** Mirroring only exchanges paired slots' heights, vertical speeds and animation
      states; it never changes them, touches the enabled flags, or moves the ball vertically. */
  lemma MirrorKeepsVertical(s: PhysicsSnap, i: nat)
    requires s.WellFormed() && i < MAX_PLAYERS
    ensures Partner(i) < MAX_PLAYERS && Partner(i) != i && i / 2 == Partner(i) / 2
    ensures Mirror(s).blobPosition[i].y == s.blobPosition[Partner(i)].y
    ensures Mirror(s).blobVelocity[i].y == s.blobVelocity[Partner(i)].y
    ensures Mirror(s).blobState[i] == s.blobState[Partner(i)]
    ensures Mirror(s).blobPosition[i].x + s.blobPosition[Partner(i)].x == RIGHT_PLANE
    ensures Mirror(s).blobVelocity[i].x == -s.blobVelocity[Partner(i)].x
    ensures Mirror(s).playerEnabled == s.playerEnabled
    ensures Mirror(s).ballPosition.y == s.ballPosition.y && Mirror(s).ballVelocity.y == s.ballVelocity.y
    ensures Mirror(s).ballRotation + s.ballRotation == TWO_PI
  {
    PartnerBound(i, MAX_PLAYERS);
  }

  // ---------------------------------------------------------------------------
  // Serializer: per slot position x, y, velocity x, y, state; then six ball numbers

  /** The numbers written for the blobs, slot by slot. */
  function BlobTokens(p: seq<Vec2>, v: seq<Vec2>, st: seq<real>): (out: seq<Token>)
    requires |p| == |v| == |st|
    ensures |out| == 5 * |p|
    decreases |p|
  {
    if |p| == 0 then []
    else [Number(p[0].x), Number(p[0].y), Number(v[0].x), Number(v[0].y), Number(st[0])]
         + BlobTokens(p[1..], v[1..], st[1..])
  }

  function BallTokens(s: PhysicsSnap): seq<Token>
  {
    [Number(s.ballPosition.x), Number(s.ballPosition.y), Number(s.ballVelocity.x),
     Number(s.ballVelocity.y), Number(s.ballRotation), Number(s.ballAngularVelocity)]
  }

  function WritePhysics(s: PhysicsSnap): (out: seq<Token>)
    requires s.WellFormed()
    ensures |out| == 5 * MAX_PLAYERS + 6
  {
    BlobTokens(s.blobPosition, s.blobVelocity, s.blobState) + BallTokens(s)
  }

  datatype Blobs = Blobs(position: seq<Vec2>, velocity: seq<Vec2>, state: seq<real>)

  /** Reads n slots' worth of blob numbers; None when the stream ends early or holds
      something other than a number. */
  function ReadBlobs(t: seq<Token>, n: nat): (r: Option<(Blobs, seq<Token>)>)
    ensures r.Some? ==> |r.value.0.position| == n && |r.value.0.velocity| == n && |r.value.0.state| == n
    ensures r.Some? ==> |r.value.1| == |t| - 5 * n
    decreases n
  {
    if n == 0 then Some((Blobs([], [], []), t))
    else if |t| < 5 || !(t[0].Number? && t[1].Number? && t[2].Number? && t[3].Number? && t[4].Number?) then None
    else
      match ReadBlobs(t[5..], n - 1)
      case None => None
      case Some((b, rest)) =>
        Some((Blobs([Vec2(t[0].r, t[1].r)] + b.position, [Vec2(t[2].r, t[3].r)] + b.velocity, [t[4].r] + b.state), rest))
  }

  /** Reading overwrites every serialized field of `into` and keeps its enabled flags,
      which the serializer never carries. */
  function ReadPhysics(t: seq<Token>, into: PhysicsSnap): (r: Option<(PhysicsSnap, seq<Token>)>)
    requires into.WellFormed()
    ensures r.Some? ==> r.value.0.WellFormed() && r.value.0.playerEnabled == into.playerEnabled
    ensures r.Some? ==> |r.value.1| == |t| - (5 * MAX_PLAYERS + 6)
  {
    match ReadBlobs(t, MAX_PLAYERS)
    case None => None
    case Some((b, u)) =>
      if |u| < 6 || !(u[0].Number? && u[1].Number? && u[2].Number? && u[3].Number? && u[4].Number? && u[5].Number?) then None
      else Some((PhysicsSnap(b.position, b.velocity, b.state, into.playerEnabled,
                             Vec2(u[0].r, u[1].r), Vec2(u[2].r, u[3].r), u[4].r, u[5].r), u[6..]))
  }

  lemma {:induction false} BlobsRoundTrip(p: seq<Vec2>, v: seq<Vec2>, st: seq<real>, rest: seq<Token>)
    requires |p| == |v| == |st|
    ensures ReadBlobs(BlobTokens(p, v, st) + rest, |p|) == Some((Blobs(p, v, st), rest))
    decreases |p|
  {
    if |p| > 0 {
      var t := BlobTokens(p, v, st) + rest;
      assert t[0] == Number(p[0].x) && t[1] == Number(p[0].y) && t[2] == Number(v[0].x);
      assert t[3] == Number(v[0].y) && t[4] == Number(st[0]);
      assert t[5..] == BlobTokens(p[1..], v[1..], st[1..]) + rest;
      BlobsRoundTrip(p[1..], v[1..], st[1..], rest);
      assert ReadBlobs(t[5..], |p| - 1) == Some((Blobs(p[1..], v[1..], st[1..]), rest));
      assert Vec2(t[0].r, t[1].r) == p[0] && Vec2(t[2].r, t[3].r) == v[0] && t[4].r == st[0];
      assert [p[0]] + p[1..] == p && [v[0]] + v[1..] == v && [st[0]] + st[1..] == st;
    } else {
      assert BlobTokens(p, v, st) + rest == rest;
    }
  }

  /** Writing then reading restores every serialized field; the enabled flags are the reader's. */
  lemma PhysicsRoundTrip(s: PhysicsSnap, into: PhysicsSnap, rest: seq<Token>)
    requires s.WellFormed() && into.WellFormed()
    ensures ReadPhysics(WritePhysics(s) + rest, into) == Some((s.(playerEnabled := into.playerEnabled), rest))
  {
    var blobs := BlobTokens(s.blobPosition, s.blobVelocity, s.blobState);
    assert WritePhysics(s) + rest == blobs + (BallTokens(s) + rest);
    BlobsRoundTrip(s.blobPosition, s.blobVelocity, s.blobState, BallTokens(s) + rest);
    assert (BallTokens(s) + rest)[6..] == rest;
  }

  // ---------------------------------------------------------------------------
  // The state object that `swapSides` updates in place

  class PhysicState {
    const blobPosition: array<Vec2>
    const blobVelocity: array<Vec2>
    const blobState: array<real>
    const playerEnabled: array<bool>
    var ballPosition: Vec2
    var ballVelocity: Vec2
    var ballRotation: real
    var ballAngularVelocity: real

    ghost predicate Valid()
      reads this
    {
      blobPosition.Length == MAX_PLAYERS && blobVelocity.Length == MAX_PLAYERS &&
      blobState.Length == MAX_PLAYERS && playerEnabled.Length == MAX_PLAYERS &&
      blobPosition != blobVelocity
    }

    /** The snapshot this object holds. */
    function Value(): (s: PhysicsSnap)
      reads this, blobPosition, blobVelocity, blobState, playerEnabled
      requires Valid()
      ensures s.WellFormed()
    {
      PhysicsSnap(blobPosition[..], blobVelocity[..], blobState[..], playerEnabled[..],
                  ballPosition, ballVelocity, ballRotation, ballAngularVelocity)
    }

    constructor (s: PhysicsSnap)
      requires s.WellFormed()
      ensures Valid() && Value() == s
      ensures fresh(blobPosition) && fresh(blobVelocity) && fresh(blobState) && fresh(playerEnabled)
    {
      blobPosition := new Vec2[MAX_PLAYERS](i requires 0 <= i < MAX_PLAYERS => s.blobPosition[i]);
      blobVelocity := new Vec2[MAX_PLAYERS](i requires 0 <= i < MAX_PLAYERS => s.blobVelocity[i]);
      blobState := new real[MAX_PLAYERS](i requires 0 <= i < MAX_PLAYERS => s.blobState[i]);
      playerEnabled := new bool[MAX_PLAYERS](i requires 0 <= i < MAX_PLAYERS => s.playerEnabled[i]);
      ballPosition, ballVelocity := s.ballPosition, s.ballVelocity;
      ballRotation, ballAngularVelocity := s.ballRotation, s.ballAngularVelocity;
    }

    /** One round of the pair loop in `swapSides`: slots i and i+1 get each other's
        mirrored position and velocity and each other's animation state. */
    method SwapPair(i: nat)
      requires Valid() && i + 1 < MAX_PLAYERS
      modifies blobPosition, blobVelocity, blobState
      ensures blobPosition[i] == MirrorPosition(old(blobPosition[i + 1])) && blobPosition[i + 1] == MirrorPosition(old(blobPosition[i]))
      ensures blobVelocity[i] == MirrorVelocity(old(blobVelocity[i + 1])) && blobVelocity[i + 1] == MirrorVelocity(old(blobVelocity[i]))
      ensures blobState[i] == old(blobState[i + 1]) && blobState[i + 1] == old(blobState[i])
      ensures forall k :: 0 <= k < MAX_PLAYERS && k != i && k != i + 1 ==>
        blobPosition[k] == old(blobPosition[k]) && blobVelocity[k] == old(blobVelocity[k]) && blobState[k] == old(blobState[k])
    {
      blobPosition[i] := Vec2(RIGHT_PLANE - blobPosition[i].x, blobPosition[i].y);
      blobPosition[i + 1] := Vec2(RIGHT_PLANE - blobPosition[i + 1].x, blobPosition[i + 1].y);
      blobVelocity[i] := Vec2(-blobVelocity[i].x, blobVelocity[i].y);
      blobVelocity[i + 1] := Vec2(-blobVelocity[i + 1].x, blobVelocity[i + 1].y);

      blobPosition[i], blobPosition[i + 1] := blobPosition[i + 1], blobPosition[i];
      blobVelocity[i], blobVelocity[i + 1] := blobVelocity[i + 1], blobVelocity[i];
      blobState[i], blobState[i + 1] := blobState[i + 1], blobState[i];
    }

    /** The pair loop of `swapSides`. */
    method SwapBlobs()
      requires Valid()
      modifies blobPosition, blobVelocity, blobState
      ensures blobPosition[..] == SwapPairs(MirrorPositions(old(blobPosition[..])))
      ensures blobVelocity[..] == SwapPairs(MirrorVelocities(old(blobVelocity[..])))
      ensures blobState[..] == SwapPairs(old(blobState[..]))
    {
      ghost var p, v, st := blobPosition[..], blobVelocity[..], blobState[..];
      ghost var mp, mv, mst := SwapPairs(MirrorPositions(p)), SwapPairs(MirrorVelocities(v)), SwapPairs(st);
      var i := 0;
      while i < MAX_PLAYERS
        invariant 0 <= i <= MAX_PLAYERS && i % 2 == 0
        invariant forall k :: 0 <= k < i ==> blobPosition[k] == mp[k] && blobVelocity[k] == mv[k] && blobState[k] == mst[k]
        invariant forall k :: i <= k < MAX_PLAYERS ==> blobPosition[k] == p[k] && blobVelocity[k] == v[k] && blobState[k] == st[k]
      {
        assert Partner(i) == i + 1 && Partner(i + 1) == i;
        assert mp[i] == MirrorPosition(p[i + 1]) && mp[i + 1] == MirrorPosition(p[i]);
        assert mv[i] == MirrorVelocity(v[i + 1]) && mv[i + 1] == MirrorVelocity(v[i]);
        assert mst[i] == st[i + 1] && mst[i + 1] == st[i];
        SwapPair(i);
        i := i + 2;
      }
      assert blobPosition[..] == mp && blobVelocity[..] == mv && blobState[..] == mst;
    }

    /** For each pair (i, i+1): mirror both blobs' x position and x velocity, then
        exchange the two slots; afterwards mirror the ball. */
    method SwapSides()
      requires Valid()
      modifies this, blobPosition, blobVelocity, blobState
      ensures Valid() && Value() == Mirror(old(Value()))
    {
      SwapBlobs();
      ballPosition := Vec2(RIGHT_PLANE - ballPosition.x, ballPosition.y);
      ballVelocity := Vec2(-ballVelocity.x, ballVelocity.y);
      ballAngularVelocity := -ballAngularVelocity;
      ballRotation := TWO_PI - ballRotation;
    }
  }
}
