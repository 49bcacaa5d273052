/** The structural part of the physics engine (src/PhysicWorld.cpp): per-blob movement
    from input, the blob animation, the pair-collision loop, the net and border clamps,
    the ball rotation and the state copies. Numbers are reals; the collision geometry
    between circles is not part of this model. */
module PhysicWorlds {
  import opened Common
  import PhysicStates

  const BLOBBY_ANIMATION_SPEED: real := 0.5
  const BALL_GRAVITATION: real := 0.287
  /** The period the ball rotation is wrapped to. */
  const ROTATION_PERIOD: real := 6.25

  /** Everything the world keeps about one blob. */
  datatype Blob = Blob(position: Vec2, velocity: Vec2, state: real, speed: real)

  // ---------------------------------------------------------------------------
  // Animation

  /** `blobbyStartAnimation`: a resting animation starts; a running one is left alone. */
  function StartAnimation(speed: real): (r: real)
    ensures speed == 0.0 ==> r == BLOBBY_ANIMATION_SPEED
    ensures speed != 0.0 ==> r == speed
  {
    if speed == 0.0 then BLOBBY_ANIMATION_SPEED else speed
  }

  /** `blobbyAnimationStep` on (state, speed): a negative state restarts from rest, the
      animation turns back from 4.5, and the state never reaches 5. */
  function AnimationStep(state: real, speed: real): (r: (real, real))
    ensures r.0 < 5.0
    ensures state < 0.0 ==> r == (0.0, 0.0)
    ensures 4.5 <= state < 5.5 ==> r == (state - BLOBBY_ANIMATION_SPEED, -BLOBBY_ANIMATION_SPEED)
    ensures 0.0 <= state < 4.5 && state + speed < 5.0 ==> r == (state + speed, speed)
  {
    var (s1, v1) := if state < 0.0 then (0.0, 0.0) else (state, speed);
    var v2 := if s1 >= 4.5 then -BLOBBY_ANIMATION_SPEED else v1;
    var s2 := s1 + v2;
    (if s2 >= 5.0 then 4.99 else s2, v2)
  }

  // ---------------------------------------------------------------------------
  // One blob's move (`handleBlob`)

  /** `blobHitGround` for a blob inside the slot range. */
  predicate Grounded(b: Blob) { b.position.y >= GROUND_PLANE_HEIGHT }

  /** The gravity the blob feels this tick: a held jump softens it. */
  function BlobGravity(input: PlayerInput): real
  {
    if input.up then GRAVITATION - BLOBBY_JUMP_BUFFER else GRAVITATION
  }

  /** The horizontal velocity the input asks for. */
  function InputSpeed(input: PlayerInput): real
  {
    (if input.right then BLOBBY_SPEED else 0.0) - (if input.left then BLOBBY_SPEED else 0.0)
  }

  /** The vertical velocity before gravity is applied. */
  function LaunchVelocity(b: Blob, input: PlayerInput): real
  {
    if input.up && Grounded(b) then BLOBBY_JUMP_ACCELERATION else b.velocity.y
  }

  /** The height the blob would reach before the ground clamp. */
  function FallHeight(b: Blob, input: PlayerInput): real
  {
    b.position.y + 0.5 * BlobGravity(input) + LaunchVelocity(b, input)
  }

  function BlobStep(b: Blob, input: PlayerInput): (r: Blob)
    ensures r.velocity.x == InputSpeed(input)
    ensures r.position.x == b.position.x + InputSpeed(input)
    ensures r.position.y <= GROUND_PLANE_HEIGHT && r.state < 5.0
    ensures FallHeight(b, input) > GROUND_PLANE_HEIGHT ==>
      r.position.y == GROUND_PLANE_HEIGHT && r.velocity.y == 0.0
    ensures FallHeight(b, input) <= GROUND_PLANE_HEIGHT ==>
      r.position.y == FallHeight(b, input) && r.velocity.y == LaunchVelocity(b, input) + BlobGravity(input)
  {
    Animated(Landed(Moved(Walked(Jumped(b, input), Grounded(b), input), input)))
  }

  /** Stage 1: a grounded blob with the jump input gets the jump speed and starts its
      animation. */
  function Jumped(b: Blob, input: PlayerInput): Blob
  {
    if input.up && Grounded(b) then b.(velocity := b.velocity.(y := BLOBBY_JUMP_ACCELERATION), speed := StartAnimation(b.speed))
    else b
  }

  /** Stage 2: a blob that was grounded and walks starts its animation. */
  function Walked(b: Blob, grounded: bool, input: PlayerInput): Blob
  {
    if (input.left || input.right) && grounded then b.(speed := StartAnimation(b.speed)) else b
  }

  /** Stage 3: the horizontal speed comes from the input; the blob moves and gravity
      acts. */
  function Moved(b: Blob, input: PlayerInput): Blob
  {
    var vel := b.velocity.(x := InputSpeed(input));
    var g := BlobGravity(input);
    b.(position := Vec2(b.position.x + vel.x, b.position.y + 0.5 * g + vel.y), velocity := vel.(y := vel.y + g))
  }

  /** Stage 4: a blob below the ground is put back on it and stopped; a hard landing
      starts its animation. */
  function Landed(b: Blob): Blob
  {
    if b.position.y > GROUND_PLANE_HEIGHT then
      b.(position := b.position.(y := GROUND_PLANE_HEIGHT), velocity := b.velocity.(y := 0.0),
         speed := if b.velocity.y > 3.5 then StartAnimation(b.speed) else b.speed)
    else b
  }

  /** Stage 5: `blobbyAnimationStep`. */
  function Animated(b: Blob): Blob
  {
    var (st, sp) := AnimationStep(b.state, b.speed);
    b.(state := st, speed := sp)
  }

  /** The jump input sets the vertical speed only for a blob on the ground; in the
      air it is ignored, apart from the softer gravity. */
  lemma JumpOnlyWhenGrounded(b: Blob, input: PlayerInput)
    ensures !Grounded(b) ==> LaunchVelocity(b, input) == b.velocity.y
    ensures !input.up ==> LaunchVelocity(b, input) == b.velocity.y && BlobGravity(input) == GRAVITATION
    ensures input.up ==> BlobGravity(input) == GRAVITATION - BLOBBY_JUMP_BUFFER
  {
  }

  /** A blob standing on the ground that jumps leaves the ground, moving upwards. */
  lemma GroundedJumpLeavesGround(b: Blob, input: PlayerInput)
    requires b.position.y == GROUND_PLANE_HEIGHT && input.up
    ensures BlobStep(b, input).position.y < GROUND_PLANE_HEIGHT
    ensures BlobStep(b, input).velocity.y == BLOBBY_JUMP_ACCELERATION + GRAVITATION - BLOBBY_JUMP_BUFFER
    ensures BlobStep(b, input).velocity.y < 0.0
  {
    assert FallHeight(b, input) < GROUND_PLANE_HEIGHT;
  }

  /** A blob on the ground that does not jump stays on the ground, at rest vertically. */
  lemma RestingBlobStays(b: Blob, input: PlayerInput)
    requires b.position.y == GROUND_PLANE_HEIGHT && b.velocity.y == 0.0 && !input.up
    ensures BlobStep(b, input).position.y == GROUND_PLANE_HEIGHT
    ensures BlobStep(b, input).velocity.y == 0.0
  {
    assert FallHeight(b, input) > GROUND_PLANE_HEIGHT;
  }

  // ---------------------------------------------------------------------------
  // Slot loops of `step`

  /** x after the net clamp: odd slots are kept right of the net, even slots left of it. */
  function NetClamp(i: nat, x: real): (r: real)
    ensures i % 2 == 1 ==> r >= NET_POSITION_X + NET_RADIUS + BLOBBY_LOWER_RADIUS
    ensures i % 2 == 0 ==> r <= NET_POSITION_X - NET_RADIUS - BLOBBY_LOWER_RADIUS
    ensures r == x || r == NET_POSITION_X + NET_RADIUS + BLOBBY_LOWER_RADIUS || r == NET_POSITION_X - NET_RADIUS - BLOBBY_LOWER_RADIUS
    ensures i % 2 == 1 && x >= NET_POSITION_X + NET_RADIUS + BLOBBY_LOWER_RADIUS ==> r == x
    ensures i % 2 == 0 && x <= NET_POSITION_X - NET_RADIUS - BLOBBY_LOWER_RADIUS ==> r == x
  {
    if i % 2 == 1 then
      (if x - BLOBBY_LOWER_RADIUS < NET_POSITION_X + NET_RADIUS then NET_POSITION_X + NET_RADIUS + BLOBBY_LOWER_RADIUS else x)
    else
      (if x + BLOBBY_LOWER_RADIUS > NET_POSITION_X - NET_RADIUS then NET_POSITION_X - NET_RADIUS - BLOBBY_LOWER_RADIUS else x)
  }

  /** x after the border clamp. */
  function BorderClamp(i: nat, x: real): (r: real)
    ensures i % 2 == 1 ==> r <= RIGHT_PLANE && (x <= RIGHT_PLANE ==> r == x) && (x > RIGHT_PLANE ==> r == RIGHT_PLANE)
    ensures i % 2 == 0 ==> r >= LEFT_PLANE && (x >= LEFT_PLANE ==> r == x) && (x < LEFT_PLANE ==> r == LEFT_PLANE)
  {
    if i % 2 == 1 then (if x > RIGHT_PLANE then RIGHT_PLANE else x)
    else (if x < LEFT_PLANE then LEFT_PLANE else x)
  }

  /** After both clamps a left-team blob is between the left border and the net, a
      right-team blob between the net and the right border. */
  lemma ClampBounds(i: nat, x: real)
    ensures i % 2 == 0 ==> LEFT_PLANE <= BorderClamp(i, NetClamp(i, x)) <= NET_POSITION_X - NET_RADIUS - BLOBBY_LOWER_RADIUS
    ensures i % 2 == 1 ==> NET_POSITION_X + NET_RADIUS + BLOBBY_LOWER_RADIUS <= BorderClamp(i, NetClamp(i, x)) <= RIGHT_PLANE
    ensures i % 2 == 0 && LEFT_PLANE <= x <= NET_POSITION_X - NET_RADIUS - BLOBBY_LOWER_RADIUS ==> BorderClamp(i, NetClamp(i, x)) == x
    ensures i % 2 == 1 && NET_POSITION_X + NET_RADIUS + BLOBBY_LOWER_RADIUS <= x <= RIGHT_PLANE ==> BorderClamp(i, NetClamp(i, x)) == x
  {
  }

  /** The ball rotation after one tick, before the wrap; `ballSpeed` stands for the
      length of the ball's velocity. */
  function IntegrateRotation(rotation: real, angularVelocity: real, isGameRunning: bool, vx: real, ballSpeed: real): (r: real)
    ensures !isGameRunning ==> r == rotation - angularVelocity
    ensures isGameRunning && angularVelocity >= 0.0 && ballSpeed >= 0.0 ==> (vx > 0.0 <==> r >= rotation) || r == rotation
    ensures isGameRunning && vx > 0.0 ==> r - rotation == angularVelocity * ballSpeed / 6.0
    ensures isGameRunning && vx <= 0.0 ==> rotation - r == angularVelocity * ballSpeed / 6.0
  {
    if !isGameRunning then rotation - angularVelocity
    else if vx > 0.0 then rotation + angularVelocity * (ballSpeed / 6.0)
    else rotation - angularVelocity * (ballSpeed / 6.0)
  }

  /** The overflow protection: one period is added to a non-positive rotation, or taken
      from one at or above the period. */
  function WrapRotation(rotation: real): (r: real)
    ensures r == rotation || r == rotation + ROTATION_PERIOD || r == rotation - ROTATION_PERIOD
    ensures -ROTATION_PERIOD < rotation < 2.0 * ROTATION_PERIOD ==> 0.0 <= r <= ROTATION_PERIOD
    ensures 0.0 < rotation < ROTATION_PERIOD ==> r == rotation
  {
    if rotation <= 0.0 then ROTATION_PERIOD + rotation
    else if rotation >= ROTATION_PERIOD then rotation - ROTATION_PERIOD
    else rotation
  }

  /** Once the rotation is in [0, period], one tick whose turn is smaller than the
      period keeps it there. */
  lemma RotationStaysInRange(rotation: real, angularVelocity: real, isGameRunning: bool, vx: real, ballSpeed: real)
    requires 0.0 <= rotation <= ROTATION_PERIOD
    requires -ROTATION_PERIOD < IntegrateRotation(rotation, angularVelocity, isGameRunning, vx, ballSpeed) - rotation < ROTATION_PERIOD
    ensures 0.0 <= WrapRotation(IntegrateRotation(rotation, angularVelocity, isGameRunning, vx, ballSpeed)) <= ROTATION_PERIOD
  {
  }

  /** The (i, j) pairs for which the blob-blob collision runs, for j from i+2 up to
      (not including) `upTo`, step 2. `fixed` selects the intended `&&` test; otherwise
      the test is the one as written, which only looks at slot i. */
  function PairCallsFrom(en: seq<bool>, i: nat, upTo: nat, fixed: bool): (r: seq<(nat, nat)>)
    requires |en| == MAX_PLAYERS && i < MAX_PLAYERS && upTo <= MAX_PLAYERS + 1
    ensures forall k :: 0 <= k < |r| ==> r[k].0 == i && i < r[k].1 < upTo && r[k].1 < MAX_PLAYERS && (r[k].1 - i) % 2 == 0
    ensures forall k :: 0 <= k < |r| ==> en[i] && (fixed ==> en[r[k].1])
    decreases upTo
  {
    if upTo < i + 3 then []
    else
      var j := upTo - 1 - (upTo - 1 - i) % 2;
      var below := PairCallsFrom(en, i, j, fixed);
      if j < MAX_PLAYERS && en[i] && (!fixed || en[j]) then below + [(i, j)] else below
  }

  /** One more turn of the inner loop adds pair (i, j) when the test lets it through. */
  lemma PairCallsFromStep(en: seq<bool>, i: nat, j: nat, fixed: bool)
    requires |en| == MAX_PLAYERS && i + 2 <= j < MAX_PLAYERS && (j - i) % 2 == 0
    ensures PairCallsFrom(en, i, j + 2, fixed) ==
      PairCallsFrom(en, i, j, fixed) + (if en[i] && (!fixed || en[j]) then [(i, j)] else [])
  {
    assert (j + 1 - i) % 2 == 1;
  }

  /** The inner loop ends at MAX_PLAYERS or one past it; both bounds give the same pairs. */
  lemma PairCallsFromEnd(en: seq<bool>, i: nat, j: nat, fixed: bool)
    requires |en| == MAX_PLAYERS && i < MAX_PLAYERS && i + 2 <= j && (j - i) % 2 == 0
    requires j == MAX_PLAYERS || j == MAX_PLAYERS + 1
    ensures PairCallsFrom(en, i, j, fixed) == PairCallsFrom(en, i, MAX_PLAYERS, fixed)
  {
    if j == MAX_PLAYERS + 1 {
      assert (j - 1 - i) % 2 == 1;
    }
  }

  /** All pairs visited by the outer loop over i < bound. */
  function PairCalls(en: seq<bool>, bound: nat, fixed: bool): (r: seq<(nat, nat)>)
    requires |en| == MAX_PLAYERS && bound <= MAX_PLAYERS - 2
    ensures forall k :: 0 <= k < |r| ==> r[k].0 < r[k].1 < MAX_PLAYERS && (r[k].1 - r[k].0) % 2 == 0
    ensures forall k :: 0 <= k < |r| ==> en[r[k].0] && (fixed ==> en[r[k].1])
  {
    if bound == 0 then [] else PairCalls(en, bound - 1, fixed) + PairCallsFrom(en, bound - 1, MAX_PLAYERS, fixed)
  }

  /** As written, with slots 0 and 1 enabled the collision test runs between slot 0
      and the disabled slot 2. */
  lemma PairCallsAsWrittenReachDisabledSlot()
    ensures var en := [true, true, false, false];
      (0, 2) in PairCalls(en, MAX_PLAYERS - 2, false) && !en[2]
  {
    var en := [true, true, false, false];
    assert PairCallsFrom(en, 0, 2, false) == [];
    PairCallsFromStep(en, 0, 2, false);
    assert PairCalls(en, 1, false) == [(0, 2)];
    assert PairCalls(en, 2, false) == [(0, 2)] + PairCallsFrom(en, 1, MAX_PLAYERS, false);
  }

  /** With `&&` every visited pair is two enabled blobs of the same team, and every such
      pair is visited. */
  lemma PairCallsFixedComplete(en: seq<bool>, i: nat, j: nat)
    requires |en| == MAX_PLAYERS && i < j < MAX_PLAYERS && (j - i) % 2 == 0 && en[i] && en[j]
    ensures (i, j) in PairCalls(en, MAX_PLAYERS - 2, true)
  {
    assert i < 2 && j == i + 2;
    var from := PairCallsFrom(en, i, MAX_PLAYERS, true);
    assert PairCallsFrom(en, i, j, true) == [];
    if i == 0 {
      assert PairCallsFrom(en, 0, 3, true) == [(0, 2)];
      assert from == [(0, 2)];
      assert PairCalls(en, 1, true) == [(0, 2)];
    } else {
      assert from == [(1, 3)];
    }
  }

  /** Every slot some pair names. */
  function PairSlots(ps: seq<(nat, nat)>): set<nat>
  {
    (set k | 0 <= k < |ps| :: ps[k].0) + (set k | 0 <= k < |ps| :: ps[k].1)
  }

  /** With `&&` the collision routine only ever sees enabled blobs. */
  lemma FixedPairsEnabled(en: seq<bool>, s: nat)
    requires |en| == MAX_PLAYERS && s in PairSlots(PairCalls(en, MAX_PLAYERS - 2, true))
    ensures s < MAX_PLAYERS && en[s]
  {
    var ps := PairCalls(en, MAX_PLAYERS - 2, true);
    var k :| 0 <= k < |ps| && (ps[k].0 == s || ps[k].1 == s);
    assert en[ps[k].0] && en[ps[k].1];
  }

  // ---------------------------------------------------------------------------
  // Collisions of `step`

  /** The circle geometry of the collisions, left uninterpreted. `ballHit` is the
      impact test of `handleBlobbyBallCollision` on (blob position, blob velocity, ball
      position, ball velocity), giving the ball's new velocity and the unclamped hit
      intensity. `blobsHit` is the impact test of `handleBlobbiesCollision` on the two
      blob positions, giving the new velocities of the first and the second blob.
      `netTop` is the net-top test of `handleBallWorldCollisions`, giving the ball's
      pushed-out position and reflected velocity. `length` is `Vector2::length`. */
  datatype Geometry = Geometry(
    ballHit: (Vec2, Vec2, Vec2, Vec2) -> Option<(Vec2, real)>,
    blobsHit: (Vec2, Vec2) -> Option<(Vec2, Vec2)>,
    netTop: (Vec2, Vec2) -> Option<(Vec2, Vec2)>,
    length: Vec2 -> real)

  datatype Ball = Ball(position: Vec2, velocity: Vec2)

  /** `handleBlobbiesCollision(p.0, p.1)`: on impact both blobs take their new velocity
      and move by it; no other blob is touched. */
  function CollidePair(pos: seq<Vec2>, vel: seq<Vec2>, p: (nat, nat), geo: Geometry): (r: (seq<Vec2>, seq<Vec2>))
    requires |pos| == MAX_PLAYERS && |vel| == MAX_PLAYERS
    ensures |r.0| == MAX_PLAYERS && |r.1| == MAX_PLAYERS
  {
    if p.0 >= MAX_PLAYERS || p.1 >= MAX_PLAYERS then (pos, vel)
    else match geo.blobsHit(pos[p.0], pos[p.1])
      case None => (pos, vel)
      case Some(v) => (pos[p.1 := pos[p.1].Plus(v.1)][p.0 := pos[p.0].Plus(v.0)], vel[p.1 := v.1][p.0 := v.0])
  }

  /** The collision of a pair never touches a blob outside it. */
  lemma CollidePairKeepsOthers(pos: seq<Vec2>, vel: seq<Vec2>, p: (nat, nat), geo: Geometry, k: nat)
    requires |pos| == MAX_PLAYERS && |vel| == MAX_PLAYERS && k < MAX_PLAYERS && k != p.0 && k != p.1
    ensures CollidePair(pos, vel, p, geo).0[k] == pos[k] && CollidePair(pos, vel, p, geo).1[k] == vel[k]
  {
  }

  /** On impact both blobs of the pair take their new velocity and move by it; without
      one nothing changes; no other blob is touched. */
  lemma CollidePairEffect(pos: seq<Vec2>, vel: seq<Vec2>, p: (nat, nat), geo: Geometry)
    requires |pos| == MAX_PLAYERS && |vel| == MAX_PLAYERS && p.0 < MAX_PLAYERS && p.1 < MAX_PLAYERS && p.0 != p.1
    ensures var r := CollidePair(pos, vel, p, geo);
      (forall k :: 0 <= k < MAX_PLAYERS && k != p.0 && k != p.1 ==> r.0[k] == pos[k] && r.1[k] == vel[k])
      && (geo.blobsHit(pos[p.0], pos[p.1]).None? ==> r == (pos, vel))
      && (geo.blobsHit(pos[p.0], pos[p.1]).Some? ==>
            var v := geo.blobsHit(pos[p.0], pos[p.1]).value;
            r.1[p.0] == v.0 && r.1[p.1] == v.1 && r.0[p.0] == pos[p.0].Plus(v.0) && r.0[p.1] == pos[p.1].Plus(v.1))
  {
  }

  /** The collision routine run for each pair in turn, each on the positions the
      previous ones left. */
  function Collided(pos: seq<Vec2>, vel: seq<Vec2>, ps: seq<(nat, nat)>, geo: Geometry): (r: (seq<Vec2>, seq<Vec2>))
    requires |pos| == MAX_PLAYERS && |vel| == MAX_PLAYERS
    ensures |r.0| == MAX_PLAYERS && |r.1| == MAX_PLAYERS
    decreases |ps|
  {
    if |ps| == 0 then (pos, vel)
    else
      var r0 := Collided(pos, vel, ps[..|ps| - 1], geo);
      CollidePair(r0.0, r0.1, ps[|ps| - 1], geo)
  }

  /** A slot no pair names is named by no pair of a prefix either. */
  lemma PairSlotsPrefix(ps: seq<(nat, nat)>, n: nat, s: nat)
    requires n <= |ps| && s !in PairSlots(ps)
    ensures s !in PairSlots(ps[..n])
  {
    var front := ps[..n];
    forall k | 0 <= k < |front| ensures front[k].0 != s && front[k].1 != s {
      assert front[k] == ps[k];
    }
  }

  /** A slot no pair names keeps its position and velocity. */
  lemma {:induction false} CollidedKeepsOthers(pos: seq<Vec2>, vel: seq<Vec2>, ps: seq<(nat, nat)>, geo: Geometry, s: nat)
    requires |pos| == MAX_PLAYERS && |vel| == MAX_PLAYERS
    requires s < MAX_PLAYERS && s !in PairSlots(ps)
    ensures Collided(pos, vel, ps, geo).0[s] == pos[s] && Collided(pos, vel, ps, geo).1[s] == vel[s]
    decreases |ps|
  {
    if |ps| > 0 {
      var front := ps[..|ps| - 1];
      PairSlotsPrefix(ps, |ps| - 1, s);
      CollidedKeepsOthers(pos, vel, front, geo, s);
      assert ps[|ps| - 1].0 in PairSlots(ps) && ps[|ps| - 1].1 in PairSlots(ps);
      var r0 := Collided(pos, vel, front, geo);
      CollidePairKeepsOthers(r0.0, r0.1, ps[|ps| - 1], geo, s);
    }
  }

  /** As written, with slots 0 and 1 enabled, a collision routine that reports an impact
      moves the disabled blob 2. */
  lemma AsWrittenMovesDisabledBlob()
    ensures var en := [true, true, false, false];
      var zero := seq(MAX_PLAYERS, _ => Vec2(0.0, 0.0));
      var geo := Geometry((a, b, c, d) => None, (a, b) => Some((Vec2(-1.0, 0.0), Vec2(1.0, 0.0))), (a, b) => None, a => 0.0);
      Collided(zero, zero, PairCalls(en, MAX_PLAYERS - 2, false), geo).0[2] != Vec2(0.0, 0.0) && !en[2]
  {
    var en := [true, true, false, false];
    var zero := seq(MAX_PLAYERS, _ => Vec2(0.0, 0.0));
    var geo := Geometry((a, b, c, d) => None, (a, b) => Some((Vec2(-1.0, 0.0), Vec2(1.0, 0.0))), (a, b) => None, a => 0.0);
    PairCallsAsWrittenReachDisabledSlot();
    var ps := PairCalls(en, MAX_PLAYERS - 2, false);
    assert PairCallsFrom(en, 1, MAX_PLAYERS, false) == [(1, 3)] by {
      assert PairCallsFrom(en, 1, 3, false) == [];
      PairCallsFromStep(en, 1, 3, false);
    }
    assert ps == [(0, 2)] + [(1, 3)];
    CollidedSnoc(zero, zero, [], (0, 2), geo);
    var c1 := CollidePair(zero, zero, (0, 2), geo);
    assert geo.blobsHit(zero[0], zero[2]) == Some((Vec2(-1.0, 0.0), Vec2(1.0, 0.0)));
    CollidePairEffect(zero, zero, (0, 2), geo);
    assert c1.0[2] == Vec2(1.0, 0.0);
    CollidedSnoc(zero, zero, [(0, 2)], (1, 3), geo);
    CollidePairEffect(c1.0, c1.1, (1, 3), geo);
  }

  /** The ball-blob loop of `step` over slots below n: each enabled blob the ball hits
      sets the ball's new velocity, moves the ball by it and reports a hit with the
      clamped intensity. */
  function BallHitsBelow(pos: seq<Vec2>, vel: seq<Vec2>, en: seq<bool>, ball: Ball, n: nat, geo: Geometry): (r: (Ball, seq<MatchEvent>))
    requires |pos| == MAX_PLAYERS && |vel| == MAX_PLAYERS && |en| == MAX_PLAYERS && n <= MAX_PLAYERS
    ensures |r.1| <= n
    decreases n
  {
    if n == 0 then (ball, [])
    else
      var prev := BallHitsBelow(pos, vel, en, ball, n - 1, geo);
      var b := prev.0;
      var i := n - 1;
      if !en[i] then prev
      else match geo.ballHit(pos[i], vel[i], b.position, b.velocity)
        case None => prev
        case Some(h) =>
          (Ball(b.position.Plus(h.0), h.0), prev.1 + [MatchEvent(BallHitBlob, i, if h.1 > 1.0 then 1.0 else h.1)])
  }

  /** The hits of the blobs below n are hits of enabled slots below n, in increasing
      slot order, each with an intensity of at most 1. */
  lemma {:induction false} BallHitsBelowShape(pos: seq<Vec2>, vel: seq<Vec2>, en: seq<bool>, ball: Ball, n: nat, geo: Geometry)
    requires |pos| == MAX_PLAYERS && |vel| == MAX_PLAYERS && |en| == MAX_PLAYERS && n <= MAX_PLAYERS
    ensures var r := BallHitsBelow(pos, vel, en, ball, n, geo);
      BlobHitsShape(r.1, en) && forall k :: 0 <= k < |r.1| ==> r.1[k].side < n
  {
    if n > 0 {
      BallHitsBelowShape(pos, vel, en, ball, n - 1, geo);
      var prev := BallHitsBelow(pos, vel, en, ball, n - 1, geo);
      var r := BallHitsBelow(pos, vel, en, ball, n, geo);
      assert r.1 == prev.1 || (|r.1| == |prev.1| + 1 && r.1[..|prev.1|] == prev.1 && r.1[|prev.1|].side == n - 1
        && en[n - 1] && r.1[|prev.1|].event == BallHitBlob && r.1[|prev.1|].intensity <= 1.0);
      if r.1 != prev.1 {
        forall k | 0 <= k < |prev.1|
          ensures r.1[k] == prev.1[k]
        {
          assert r.1[..|prev.1|][k] == prev.1[k];
        }
      }
    }
  }

  /** Ball-blob hits as `step` reports them: enabled slots only, in increasing slot
      order, each intensity at most 1. */
  predicate BlobHitsShape(events: seq<MatchEvent>, en: seq<bool>)
    requires |en| == MAX_PLAYERS
  {
    (forall k :: 0 <= k < |events| ==>
       events[k].event == BallHitBlob && 0 <= events[k].side < MAX_PLAYERS && en[events[k].side] && events[k].intensity <= 1.0)
    && (forall k, l :: 0 <= k < l < |events| ==> events[k].side < events[l].side)
  }

  /** The ground test of `handleBallWorldCollisions`: a ball below the floor is put on
      it, its vertical speed reflected and both damped to 0.95, and a ground hit is
      reported for the half its centre lies on. */
  function GroundBounce(b: Ball): (r: (Ball, seq<MatchEvent>))
  {
    if b.position.y + BALL_RADIUS > GROUND_PLANE_HEIGHT_MAX then
      (Ball(b.position.(y := GROUND_PLANE_HEIGHT_MAX - BALL_RADIUS), Vec2(b.velocity.x, -b.velocity.y).Scale(0.95)),
       [MatchEvent(BallHitGround, if b.position.x > NET_POSITION_X then RIGHT_SIDE else LEFT_SIDE, 0.0)])
    else (b, [])
  }

  function Abs(x: real): real { if x < 0.0 then -x else x }

  /** The border, net and net-top tests of `handleBallWorldCollisions`, of which at most
      one fires: a ball at a border moving outwards, or inside the net below its top,
      has its horizontal speed reflected and is put back against the border or net. */
  function SideBounce(b: Ball, geo: Geometry): (r: (Ball, seq<MatchEvent>))
  {
    var p := b.position;
    var v := b.velocity;
    if p.x - BALL_RADIUS <= LEFT_PLANE && v.x < 0.0 then
      (Ball(p.(x := LEFT_PLANE + BALL_RADIUS), v.(x := -v.x)), [MatchEvent(BallHitWall, LEFT_SIDE, 0.0)])
    else if p.x + BALL_RADIUS >= RIGHT_PLANE && v.x > 0.0 then
      (Ball(p.(x := RIGHT_PLANE - BALL_RADIUS), v.(x := -v.x)), [MatchEvent(BallHitWall, RIGHT_SIDE, 0.0)])
    else if p.y > NET_SPHERE_POSITION && Abs(p.x - NET_POSITION_X) < BALL_RADIUS + NET_RADIUS then
      var right := p.x - NET_POSITION_X > 0.0;
      (Ball(p.(x := NET_POSITION_X + (if right then BALL_RADIUS + NET_RADIUS else -BALL_RADIUS - NET_RADIUS)), v.(x := -v.x)),
       [MatchEvent(BallHitNet, if right then RIGHT_SIDE else LEFT_SIDE, 0.0)])
    else
      match geo.netTop(p, v)
      case None => (b, [])
      case Some(h) => (Ball(h.0, h.1), [MatchEvent(BallHitNetTop, NO_SIDE, 0.0)])
  }

  /** `handleBallWorldCollisions`: the ground test, then the side tests. */
  function WorldCollision(b: Ball, geo: Geometry): (r: (Ball, seq<MatchEvent>))
  {
    var g := GroundBounce(b);
    var s := SideBounce(g.0, geo);
    (s.0, g.1 + s.1)
  }

  /** What `handleBallWorldCollisions` reports: at most a ground hit, then at most one
      wall, net or net-top hit. */
  predicate WorldEventsShape(events: seq<MatchEvent>)
  {
    |events| <= 2
    && (forall k :: 0 <= k < |events| ==> events[k].event in {BallHitGround, BallHitWall, BallHitNet, BallHitNetTop})
    && (forall k :: 0 <= k < |events| && events[k].event == BallHitGround ==> k == 0)
  }

  /** The world collisions report a ground hit first exactly when the ball went below
      the floor, and then at most one more hit; after a ground hit the ball rests on the
      floor, and one that was falling now rises. */
  lemma WorldCollisionEvents(b: Ball, geo: Geometry)
    ensures WorldEventsShape(WorldCollision(b, geo).1)
    ensures (|WorldCollision(b, geo).1| > 0 && WorldCollision(b, geo).1[0].event == BallHitGround)
            <==> b.position.y + BALL_RADIUS > GROUND_PLANE_HEIGHT_MAX
    ensures b.position.y + BALL_RADIUS > GROUND_PLANE_HEIGHT_MAX ==>
      GroundBounce(b).0.position.y == GROUND_PLANE_HEIGHT_MAX - BALL_RADIUS
      && (b.velocity.y >= 0.0 ==> GroundBounce(b).0.velocity.y <= 0.0)
  {
    var g := GroundBounce(b);
    var s := SideBounce(g.0, geo);
    assert |s.1| <= 1 && forall k :: 0 <= k < |s.1| ==> s.1[k].event != BallHitGround;
  }

  /** A wall hit sends the ball back into the field from just inside the border, and a
      net hit leaves it just clear of the net on the side it came from. */
  lemma SideBounceTurnsBall(b: Ball, geo: Geometry)
    ensures var r := SideBounce(b, geo);
      (r.1 == [MatchEvent(BallHitWall, LEFT_SIDE, 0.0)] ==> r.0.position.x == LEFT_PLANE + BALL_RADIUS && r.0.velocity.x > 0.0)
      && (r.1 == [MatchEvent(BallHitWall, RIGHT_SIDE, 0.0)] ==> r.0.position.x == RIGHT_PLANE - BALL_RADIUS && r.0.velocity.x < 0.0)
      && (|r.1| == 1 && r.1[0].event == BallHitNet ==>
            Abs(r.0.position.x - NET_POSITION_X) == BALL_RADIUS + NET_RADIUS
            && (r.1[0].side == RIGHT_SIDE <==> b.position.x > NET_POSITION_X))
      && (r.1 == [] ==> r.0 == b)
  {
  }

  /** The events one step reports: the ball-blob hits, none while the ball is not
      valid, then what the world collisions report. */
  predicate StepEventsShape(events: seq<MatchEvent>, en: seq<bool>, isBallValid: bool)
    requires |en| == MAX_PLAYERS
  {
    exists n :: 0 <= n <= |events| && BlobHitsShape(events[..n], en) && WorldEventsShape(events[n..]) && (!isBallValid ==> n == 0)
  }

  /** The pair list grows one pair at a time. */
  lemma CollidedSnoc(pos: seq<Vec2>, vel: seq<Vec2>, ps: seq<(nat, nat)>, p: (nat, nat), geo: Geometry)
    requires |pos| == MAX_PLAYERS && |vel| == MAX_PLAYERS
    ensures Collided(pos, vel, ps + [p], geo) == CollidePair(Collided(pos, vel, ps, geo).0, Collided(pos, vel, ps, geo).1, p, geo)
  {
    assert (ps + [p])[..|ps|] == ps;
  }

  /** Running the pairs of `a + b` is running those of `a`, then those of `b`. */
  lemma {:induction false} CollidedAppend(pos: seq<Vec2>, vel: seq<Vec2>, a: seq<(nat, nat)>, b: seq<(nat, nat)>, geo: Geometry)
    requires |pos| == MAX_PLAYERS && |vel| == MAX_PLAYERS
    ensures Collided(pos, vel, a + b, geo) == Collided(Collided(pos, vel, a, geo).0, Collided(pos, vel, a, geo).1, b, geo)
    decreases |b|
  {
    if |b| == 0 {
      assert a + b == a;
    } else {
      var front := b[..|b| - 1];
      assert (a + b)[..|a + b| - 1] == a + front;
      CollidedAppend(pos, vel, a, front, geo);
    }
  }

  /** The ball's flight of `step` while the game runs (dt = 1). */
  function Flight(b: Ball, isGameRunning: bool): (r: Ball)
    ensures !isGameRunning ==> r == b
    ensures isGameRunning ==> r.velocity.x == b.velocity.x && r.velocity.y == b.velocity.y + BALL_GRAVITATION
    ensures isGameRunning ==> r.position.x == b.position.x + b.velocity.x
  {
    if isGameRunning then
      Ball(Vec2(b.position.x + b.velocity.x, b.position.y + 0.5 * BALL_GRAVITATION + b.velocity.y),
           b.velocity.(y := b.velocity.y + BALL_GRAVITATION))
    else b
  }

  /** The blobs after the first loop of `step`: enabled ones take their step. */
  function HandledBlobs(bs: seq<Blob>, en: seq<bool>, inputs: seq<PlayerInput>): (r: seq<Blob>)
    requires |bs| == MAX_PLAYERS && |en| == MAX_PLAYERS && |inputs| == MAX_PLAYERS
    ensures |r| == MAX_PLAYERS
    ensures forall k :: 0 <= k < MAX_PLAYERS && en[k] ==> r[k].position.y <= GROUND_PLANE_HEIGHT
    ensures forall k :: 0 <= k < MAX_PLAYERS && !en[k] ==> r[k] == bs[k]
  {
    seq(MAX_PLAYERS, k requires 0 <= k < MAX_PLAYERS => if en[k] then BlobStep(bs[k], inputs[k]) else bs[k])
  }

  function Positions(bs: seq<Blob>): seq<Vec2>
  {
    seq(|bs|, k requires 0 <= k < |bs| => bs[k].position)
  }

  function Velocities(bs: seq<Blob>): seq<Vec2>
  {
    seq(|bs|, k requires 0 <= k < |bs| => bs[k].velocity)
  }

  /** The ball and the events of one `step`, from the blobs and the ball before it. */
  function StepBall(bs: seq<Blob>, en: seq<bool>, inputs: seq<PlayerInput>, ball: Ball,
                    isBallValid: bool, isGameRunning: bool, geo: Geometry): (r: (Ball, seq<MatchEvent>))
    requires |bs| == MAX_PLAYERS && |en| == MAX_PLAYERS && |inputs| == MAX_PLAYERS
  {
    var hb := HandledBlobs(bs, en, inputs);
    var moved := Flight(ball, isGameRunning);
    var hit := if isBallValid then BallHitsBelow(Positions(hb), Velocities(hb), en, moved, MAX_PLAYERS, geo) else (moved, []);
    var w := WorldCollision(hit.0, geo);
    (w.0, hit.1 + w.1)
  }

  /** A step reports ball-blob hits of enabled blobs in slot order, none while the ball
      is not valid, and then at most a ground hit followed by at most one wall, net or
      net-top hit. */
  lemma StepBallEvents(bs: seq<Blob>, en: seq<bool>, inputs: seq<PlayerInput>, ball: Ball,
                       isBallValid: bool, isGameRunning: bool, geo: Geometry)
    requires |bs| == MAX_PLAYERS && |en| == MAX_PLAYERS && |inputs| == MAX_PLAYERS
    ensures StepEventsShape(StepBall(bs, en, inputs, ball, isBallValid, isGameRunning, geo).1, en, isBallValid)
  {
    var hb := HandledBlobs(bs, en, inputs);
    var moved := Flight(ball, isGameRunning);
    var hit := if isBallValid then BallHitsBelow(Positions(hb), Velocities(hb), en, moved, MAX_PLAYERS, geo) else (moved, []);
    var w := WorldCollision(hit.0, geo);
    WorldCollisionEvents(hit.0, geo);
    if isBallValid {
      BallHitsBelowShape(Positions(hb), Velocities(hb), en, moved, MAX_PLAYERS, geo);
    }
    var events := hit.1 + w.1;
    assert events[..|hit.1|] == hit.1 && events[|hit.1|..] == w.1;
  }

  /** The slots whose blobs the pair loop of a step may move. */
  function Touched(en: seq<bool>, isBallValid: bool, fixed: bool): (r: set<nat>)
    requires |en| == MAX_PLAYERS
    ensures fixed ==> forall s :: s in r ==> s < MAX_PLAYERS && en[s]
  {
    var t := if isBallValid then PairSlots(PairCalls(en, MAX_PLAYERS - 2, fixed)) else {};
    assert fixed ==> forall s :: s in t ==> s < MAX_PLAYERS && en[s] by {
      if fixed {
        forall s | s in t ensures s < MAX_PLAYERS && en[s] {
          FixedPairsEnabled(en, s);
        }
      }
    }
    t
  }

  /** Blob positions and velocities after the pair loop of a step. */
  function PairCollided(hb: seq<Blob>, en: seq<bool>, isBallValid: bool, fixed: bool, geo: Geometry): (r: (seq<Vec2>, seq<Vec2>))
    requires |hb| == MAX_PLAYERS && |en| == MAX_PLAYERS
    ensures |r.0| == MAX_PLAYERS && |r.1| == MAX_PLAYERS
  {
    if isBallValid then Collided(Positions(hb), Velocities(hb), PairCalls(en, MAX_PLAYERS - 2, fixed), geo)
    else (Positions(hb), Velocities(hb))
  }

  /** The blobs with the positions and velocities the pair loop left. */
  function WithPairs(hb: seq<Blob>, c: (seq<Vec2>, seq<Vec2>)): (r: seq<Blob>)
    requires |hb| == MAX_PLAYERS && |c.0| == MAX_PLAYERS && |c.1| == MAX_PLAYERS
    ensures |r| == MAX_PLAYERS
  {
    seq(MAX_PLAYERS, k requires 0 <= k < MAX_PLAYERS => hb[k].(position := c.0[k], velocity := c.1[k]))
  }

  /** The net and border clamps of `step` on every enabled blob. */
  function Clamped(bs: seq<Blob>, en: seq<bool>): (r: seq<Blob>)
    requires |bs| == MAX_PLAYERS && |en| == MAX_PLAYERS
    ensures |r| == MAX_PLAYERS
  {
    seq(MAX_PLAYERS, k requires 0 <= k < MAX_PLAYERS =>
      if en[k] then bs[k].(position := bs[k].position.(x := BorderClamp(k, NetClamp(k, bs[k].position.x)))) else bs[k])
  }

  /** The blobs after one `step`, from the blobs before it: the blob moves, the pair
      loop, then the net and border clamps of enabled blobs. */
  function StepBlobs(bs: seq<Blob>, en: seq<bool>, inputs: seq<PlayerInput>, isBallValid: bool, fixed: bool, geo: Geometry): (r: seq<Blob>)
    requires |bs| == MAX_PLAYERS && |en| == MAX_PLAYERS && |inputs| == MAX_PLAYERS
    ensures |r| == MAX_PLAYERS
  {
    var hb := HandledBlobs(bs, en, inputs);
    Clamped(WithPairs(hb, PairCollided(hb, en, isBallValid, fixed, geo)), en)
  }

  /** After a step every enabled blob has its animation below 5 and stands on its own
      half: a left-team blob between the left border and the net, a right-team blob
      between the net and the right border. An enabled blob the pair loop does not move
      is not below the ground, and a disabled blob it does not move is unchanged; with
      the intended pair test that is every disabled blob. */
  lemma StepBlobsBounds(bs: seq<Blob>, en: seq<bool>, inputs: seq<PlayerInput>, isBallValid: bool, fixed: bool, geo: Geometry, k: nat)
    requires |bs| == MAX_PLAYERS && |en| == MAX_PLAYERS && |inputs| == MAX_PLAYERS && k < MAX_PLAYERS
    ensures var r := StepBlobs(bs, en, inputs, isBallValid, fixed, geo);
      (en[k] ==> r[k].state < 5.0)
      && (en[k] && k % 2 == 0 ==> LEFT_PLANE <= r[k].position.x <= NET_POSITION_X - NET_RADIUS - BLOBBY_LOWER_RADIUS)
      && (en[k] && k % 2 == 1 ==> NET_POSITION_X + NET_RADIUS + BLOBBY_LOWER_RADIUS <= r[k].position.x <= RIGHT_PLANE)
      && (en[k] && k !in Touched(en, isBallValid, fixed) ==> r[k].position.y <= GROUND_PLANE_HEIGHT)
      && (!en[k] && k !in Touched(en, isBallValid, fixed) ==> r[k] == bs[k])
      && (fixed && !en[k] ==> r[k] == bs[k])
  {
    var hb := HandledBlobs(bs, en, inputs);
    var c := PairCollided(hb, en, isBallValid, fixed, geo);
    assert WithPairs(hb, c)[k].position == c.0[k];
    ClampBounds(k, c.0[k].x);
    if en[k] {
      assert hb[k] == BlobStep(bs[k], inputs[k]);
    }
    if k !in Touched(en, isBallValid, fixed) {
      if isBallValid {
        CollidedKeepsOthers(Positions(hb), Velocities(hb), PairCalls(en, MAX_PLAYERS - 2, fixed), geo, k);
      }
      assert c.0[k] == hb[k].position && c.1[k] == hb[k].velocity;
    }
  }

  // ---------------------------------------------------------------------------
  // Copies between the world and its snapshot

  /** What `getState` returns: enabled slots copied (with their flag), the other slots
      as the fresh snapshot `blank` happened to hold them, and the ball. */
  function CopyOut(w: PhysicStates.PhysicsSnap, blank: PhysicStates.PhysicsSnap): (r: PhysicStates.PhysicsSnap)
    requires w.WellFormed() && blank.WellFormed()
    ensures r.WellFormed()
  {
    PhysicStates.PhysicsSnap(
      seq(MAX_PLAYERS, i requires 0 <= i < MAX_PLAYERS => if w.playerEnabled[i] then w.blobPosition[i] else blank.blobPosition[i]),
      seq(MAX_PLAYERS, i requires 0 <= i < MAX_PLAYERS => if w.playerEnabled[i] then w.blobVelocity[i] else blank.blobVelocity[i]),
      seq(MAX_PLAYERS, i requires 0 <= i < MAX_PLAYERS => if w.playerEnabled[i] then w.blobState[i] else blank.blobState[i]),
      seq(MAX_PLAYERS, i requires 0 <= i < MAX_PLAYERS => w.playerEnabled[i] || blank.playerEnabled[i]),
      w.ballPosition, w.ballVelocity, w.ballRotation, w.ballAngularVelocity)
  }

  /** What `setState` leaves: slots enabled before the call take the snapshot's fields
      and flag, the others keep theirs; the ball is always taken. */
  function CopyIn(w: PhysicStates.PhysicsSnap, ps: PhysicStates.PhysicsSnap): (r: PhysicStates.PhysicsSnap)
    requires w.WellFormed() && ps.WellFormed()
    ensures r.WellFormed()
  {
    PhysicStates.PhysicsSnap(
      seq(MAX_PLAYERS, i requires 0 <= i < MAX_PLAYERS => if w.playerEnabled[i] then ps.blobPosition[i] else w.blobPosition[i]),
      seq(MAX_PLAYERS, i requires 0 <= i < MAX_PLAYERS => if w.playerEnabled[i] then ps.blobVelocity[i] else w.blobVelocity[i]),
      seq(MAX_PLAYERS, i requires 0 <= i < MAX_PLAYERS => if w.playerEnabled[i] then ps.blobState[i] else w.blobState[i]),
      seq(MAX_PLAYERS, i requires 0 <= i < MAX_PLAYERS => if w.playerEnabled[i] then ps.playerEnabled[i] else w.playerEnabled[i]),
      ps.ballPosition, ps.ballVelocity, ps.ballRotation, ps.ballAngularVelocity)
  }

  /** Restoring a state taken from the same world gives back that world exactly,
      whatever the uninitialised parts of the snapshot held. */
  lemma {:induction false} CopyInOut(w: PhysicStates.PhysicsSnap, blank: PhysicStates.PhysicsSnap)
    requires w.WellFormed() && blank.WellFormed()
    ensures CopyIn(w, CopyOut(w, blank)) == w
  {
    var r := CopyIn(w, CopyOut(w, blank));
    assert r.blobPosition == w.blobPosition;
    assert r.blobVelocity == w.blobVelocity;
    assert r.blobState == w.blobState;
    assert r.playerEnabled == w.playerEnabled;
  }

  /** `setState` never touches a disabled slot, and never enables one. */
  lemma CopyInKeepsDisabled(w: PhysicStates.PhysicsSnap, ps: PhysicStates.PhysicsSnap, i: nat)
    requires w.WellFormed() && ps.WellFormed() && i < MAX_PLAYERS && !w.playerEnabled[i]
    ensures CopyIn(w, ps).blobPosition[i] == w.blobPosition[i]
    ensures CopyIn(w, ps).blobVelocity[i] == w.blobVelocity[i]
    ensures CopyIn(w, ps).blobState[i] == w.blobState[i]
    ensures !CopyIn(w, ps).playerEnabled[i]
  {
  }

  // ---------------------------------------------------------------------------

  class PhysicWorld {
    const blobPosition: array<Vec2>
    const blobVelocity: array<Vec2>
    const blobState: array<real>
    const animationSpeed: array<real>
    const playerEnabled: array<bool>
    var ballPosition: Vec2
    var ballVelocity: Vec2
    var ballRotation: real
    var ballAngularVelocity: real

    ghost predicate Valid()
      reads this
    {
      blobPosition.Length == MAX_PLAYERS && blobVelocity.Length == MAX_PLAYERS &&
      blobState.Length == MAX_PLAYERS && animationSpeed.Length == MAX_PLAYERS &&
      playerEnabled.Length == MAX_PLAYERS &&
      blobPosition != blobVelocity && blobState != animationSpeed
    }

    function Value(): (s: PhysicStates.PhysicsSnap)
      reads this, blobPosition, blobVelocity, blobState, playerEnabled
      requires Valid()
      ensures s.WellFormed()
    {
      PhysicStates.PhysicsSnap(blobPosition[..], blobVelocity[..], blobState[..], playerEnabled[..],
                               ballPosition, ballVelocity, ballRotation, ballAngularVelocity)
    }

    function BlobAt(i: nat): Blob
      reads this, blobPosition, blobVelocity, blobState, animationSpeed
      requires Valid() && i < MAX_PLAYERS
    {
      Blob(blobPosition[i], blobVelocity[i], blobState[i], animationSpeed[i])
    }

    /** The world for a given set of enabled slots: enabled blobs start at rest on the
        ground at their team's place; the ball starts at rest on the left, or on the
        right when the random draw `ballOnRight` says so. Velocities are the zero
        vector a default-constructed `Vector2` holds; disabled slots are left at zero. */
    constructor (enabled: seq<bool>, ballOnRight: bool)
      requires |enabled| == MAX_PLAYERS
      ensures Valid() && playerEnabled[..] == enabled
      ensures forall i :: 0 <= i < MAX_PLAYERS && enabled[i] ==>
        blobPosition[i] == Vec2(StartX(i), GROUND_PLANE_HEIGHT) && blobState[i] == 0.0 && animationSpeed[i] == 0.0
      ensures forall i :: 0 <= i < MAX_PLAYERS ==> blobVelocity[i] == Vec2(0.0, 0.0)
      ensures ballPosition == Vec2(if ballOnRight then 600.0 else 200.0, STANDARD_BALL_HEIGHT)
      ensures ballVelocity == Vec2(0.0, 0.0)
      ensures ballRotation == 0.0 && ballAngularVelocity == STANDARD_BALL_ANGULAR_VELOCITY
    {
      blobPosition := new Vec2[MAX_PLAYERS](i requires 0 <= i < MAX_PLAYERS => if enabled[i] then Vec2(StartX(i), GROUND_PLANE_HEIGHT) else Vec2(0.0, 0.0));
      blobVelocity := new Vec2[MAX_PLAYERS](_ => Vec2(0.0, 0.0));
      blobState := new real[MAX_PLAYERS](_ => 0.0);
      animationSpeed := new real[MAX_PLAYERS](_ => 0.0);
      playerEnabled := new bool[MAX_PLAYERS](i requires 0 <= i < MAX_PLAYERS => enabled[i]);
      ballPosition := Vec2(if ballOnRight then 600.0 else 200.0, STANDARD_BALL_HEIGHT);
      ballVelocity := Vec2(0.0, 0.0);
      ballRotation := 0.0;
      ballAngularVelocity := STANDARD_BALL_ANGULAR_VELOCITY;
      new;
      assert playerEnabled[..] == enabled;
    }

    method BlobbyStartAnimation(player: nat)
      requires Valid() && player < MAX_PLAYERS
      modifies animationSpeed
      ensures animationSpeed[player] == StartAnimation(old(animationSpeed[player]))
      ensures forall k :: 0 <= k < MAX_PLAYERS && k != player ==> animationSpeed[k] == old(animationSpeed[k])
    {
      if animationSpeed[player] == 0.0 {
        animationSpeed[player] := BLOBBY_ANIMATION_SPEED;
      }
    }

    method BlobbyAnimationStep(player: nat)
      requires Valid() && player < MAX_PLAYERS
      modifies blobState, animationSpeed
      ensures (blobState[player], animationSpeed[player]) == AnimationStep(old(blobState[player]), old(animationSpeed[player]))
      ensures blobState[player] < 5.0
      ensures forall k :: 0 <= k < MAX_PLAYERS && k != player ==>
        blobState[k] == old(blobState[k]) && animationSpeed[k] == old(animationSpeed[k])
    {
      if blobState[player] < 0.0 {
        animationSpeed[player] := 0.0;
        blobState[player] := 0.0;
      }
      if blobState[player] >= 4.5 {
        animationSpeed[player] := -BLOBBY_ANIMATION_SPEED;
      }
      blobState[player] := blobState[player] + animationSpeed[player];
      if blobState[player] >= 5.0 {
        blobState[player] := 4.99;
      }
    }

    /** `handleBlob`: one blob's move for this tick's input. */
    method HandleBlob(player: nat, input: PlayerInput)
      requires Valid() && player < MAX_PLAYERS
      modifies blobPosition, blobVelocity, blobState, animationSpeed
      ensures BlobAt(player) == BlobStep(old(BlobAt(player)), input)
      ensures forall k :: 0 <= k < MAX_PLAYERS && k != player ==> BlobAt(k) == old(BlobAt(k))
    {
      ghost var b := BlobAt(player);
      var grounded := blobPosition[player].y >= GROUND_PLANE_HEIGHT;
      var gravity := JumpAndWalk(player, input, grounded);
      assert BlobAt(player) == Walked(Jumped(b, input), Grounded(b), input);
      MoveAndLand(player, gravity, input);
      BlobbyAnimationStep(player);
    }

    /** The jump and walk checks of `handleBlob`, which use the ground contact from
        before the move; returns the gravity for this tick. */
    method JumpAndWalk(player: nat, input: PlayerInput, grounded: bool) returns (gravity: real)
      requires Valid() && player < MAX_PLAYERS && grounded == Grounded(BlobAt(player))
      modifies blobVelocity, animationSpeed
      ensures gravity == BlobGravity(input)
      ensures BlobAt(player) == Walked(Jumped(old(BlobAt(player)), input), grounded, input)
      ensures forall k :: 0 <= k < MAX_PLAYERS && k != player ==> BlobAt(k) == old(BlobAt(k))
    {
      gravity := GRAVITATION;
      if input.up {
        if grounded {
          blobVelocity[player] := blobVelocity[player].(y := BLOBBY_JUMP_ACCELERATION);
          BlobbyStartAnimation(player);
        }
        gravity := gravity - BLOBBY_JUMP_BUFFER;
      }
      if (input.left || input.right) && grounded {
        BlobbyStartAnimation(player);
      }
    }

    /** The move under gravity and the ground clamp of `handleBlob`. */
    method MoveAndLand(player: nat, gravity: real, input: PlayerInput)
      requires Valid() && player < MAX_PLAYERS && gravity == BlobGravity(input)
      modifies blobPosition, blobVelocity, animationSpeed
      ensures BlobAt(player) == Landed(Moved(old(BlobAt(player)), input))
      ensures forall k :: 0 <= k < MAX_PLAYERS && k != player ==> BlobAt(k) == old(BlobAt(k))
    {
      blobVelocity[player] := blobVelocity[player].(x := (if input.right then BLOBBY_SPEED else 0.0) - (if input.left then BLOBBY_SPEED else 0.0));
      blobPosition[player] := Vec2(blobPosition[player].x + blobVelocity[player].x,
                                   blobPosition[player].y + 0.5 * gravity + blobVelocity[player].y);
      blobVelocity[player] := blobVelocity[player].(y := blobVelocity[player].y + gravity);
      if blobPosition[player].y > GROUND_PLANE_HEIGHT {
        if blobVelocity[player].y > 3.5 {
          BlobbyStartAnimation(player);
        }
        blobPosition[player] := blobPosition[player].(y := GROUND_PLANE_HEIGHT);
        blobVelocity[player] := blobVelocity[player].(y := 0.0);
      }
    }

    /** The first loop of `step`: every enabled blob moves, the others stay put. */
    method HandleBlobs(inputs: seq<PlayerInput>)
      requires Valid() && |inputs| == MAX_PLAYERS
      modifies blobPosition, blobVelocity, blobState, animationSpeed
      ensures forall k :: 0 <= k < MAX_PLAYERS ==>
        BlobAt(k) == if playerEnabled[k] then BlobStep(old(BlobAt(k)), inputs[k]) else old(BlobAt(k))
    {
      var i := 0;
      while i < MAX_PLAYERS
        invariant 0 <= i <= MAX_PLAYERS
        invariant forall k :: 0 <= k < i ==>
          BlobAt(k) == if playerEnabled[k] then BlobStep(old(BlobAt(k)), inputs[k]) else old(BlobAt(k))
        invariant forall k :: i <= k < MAX_PLAYERS ==> BlobAt(k) == old(BlobAt(k))
      {
        if playerEnabled[i] {
          HandleBlob(i, inputs[i]);
        }
        i := i + 1;
      }
    }

    /** The ball-blob loop of `step`: each enabled blob the ball hits redirects the
        ball and reports a hit. */
    method BallHits(geo: Geometry) returns (events: seq<MatchEvent>)
      requires Valid()
      modifies this
      ensures (Ball(ballPosition, ballVelocity), events) ==
        BallHitsBelow(blobPosition[..], blobVelocity[..], playerEnabled[..], Ball(old(ballPosition), old(ballVelocity)), MAX_PLAYERS, geo)
      ensures ballRotation == old(ballRotation) && ballAngularVelocity == old(ballAngularVelocity)
    {
      events := [];
      var i := 0;
      while i < MAX_PLAYERS
        invariant 0 <= i <= MAX_PLAYERS
        invariant (Ball(ballPosition, ballVelocity), events) ==
          BallHitsBelow(blobPosition[..], blobVelocity[..], playerEnabled[..], Ball(old(ballPosition), old(ballVelocity)), i, geo)
        invariant ballRotation == old(ballRotation) && ballAngularVelocity == old(ballAngularVelocity)
      {
        if playerEnabled[i] {
          var hit := geo.ballHit(blobPosition[i], blobVelocity[i], ballPosition, ballVelocity);
          if hit.Some? {
            var intensity := if hit.value.1 > 1.0 then 1.0 else hit.value.1;
            ballVelocity := hit.value.0;
            ballPosition := ballPosition.Plus(ballVelocity);
            events := events + [MatchEvent(BallHitBlob, i, intensity)];
          }
        }
        i := i + 1;
      }
    }

    /** `handleBlobbiesCollision(i, j)`. */
    method CollideBlobs(i: nat, j: nat, geo: Geometry)
      requires Valid() && i < j < MAX_PLAYERS
      modifies blobPosition, blobVelocity
      ensures (blobPosition[..], blobVelocity[..]) == CollidePair(old(blobPosition[..]), old(blobVelocity[..]), (i, j), geo)
    {
      var hit := geo.blobsHit(blobPosition[i], blobPosition[j]);
      if hit.Some? {
        blobVelocity[j] := hit.value.1;
        blobVelocity[i] := hit.value.0;
        blobPosition[j] := blobPosition[j].Plus(blobVelocity[j]);
        blobPosition[i] := blobPosition[i].Plus(blobVelocity[i]);
      }
    }

    /** The pair loop of `step`: the blob-blob collision runs for each pair (i, j) of the
        same team with i < j that the test lets through. With `fixed` the test is the
        intended `mPlayerEnabled[i] && mPlayerEnabled[j]`; without it, it is the one as
        written, where `&` makes the collision run whenever slot i is enabled. */
    method PairLoop(fixed: bool, geo: Geometry) returns (calls: seq<(nat, nat)>)
      requires Valid()
      modifies blobPosition, blobVelocity
      ensures calls == PairCalls(playerEnabled[..], MAX_PLAYERS - 2, fixed)
      ensures (blobPosition[..], blobVelocity[..]) == Collided(old(blobPosition[..]), old(blobVelocity[..]), calls, geo)
    {
      ghost var en := playerEnabled[..];
      ghost var pos0, vel0 := blobPosition[..], blobVelocity[..];
      calls := [];
      var i := 0;
      while i < MAX_PLAYERS - 2
        invariant 0 <= i <= MAX_PLAYERS - 2
        invariant calls == PairCalls(en, i, fixed)
        invariant (blobPosition[..], blobVelocity[..]) == Collided(pos0, vel0, calls, geo)
      {
        var row := PairRow(i, fixed, geo);
        assert playerEnabled[..] == en;
        assert PairCalls(en, i + 1, fixed) == calls + row;
        CollidedAppend(pos0, vel0, calls, row, geo);
        calls := calls + row;
        i := i + 1;
      }
    }

    /** The inner loop of the pair loop, for one i. */
    method PairRow(i: nat, fixed: bool, geo: Geometry) returns (row: seq<(nat, nat)>)
      requires Valid() && i < MAX_PLAYERS - 2
      modifies blobPosition, blobVelocity
      ensures row == PairCallsFrom(playerEnabled[..], i, MAX_PLAYERS, fixed)
      ensures (blobPosition[..], blobVelocity[..]) == Collided(old(blobPosition[..]), old(blobVelocity[..]), row, geo)
    {
      ghost var en := playerEnabled[..];
      ghost var pos0, vel0 := blobPosition[..], blobVelocity[..];
      row := [];
      var j := i + 2;
      assert PairCallsFrom(en, i, j, fixed) == [];
      while j < MAX_PLAYERS
        invariant j == i + 2 || j == i + 4
        invariant playerEnabled[..] == en
        invariant row == PairCallsFrom(en, i, j, fixed)
        invariant (blobPosition[..], blobVelocity[..]) == Collided(pos0, vel0, row, geo)
      {
        row := PairStep(i, j, fixed, geo, pos0, vel0, row);
        j := j + 2;
      }
      PairCallsFromEnd(en, i, j, fixed);
    }

    /** One turn of the inner pair loop: pair (i, j) collides when the test lets it
        through, on top of the pairs `done` already run. */
    method PairStep(i: nat, j: nat, fixed: bool, geo: Geometry, ghost pos0: seq<Vec2>, ghost vel0: seq<Vec2>, done: seq<(nat, nat)>)
      returns (next: seq<(nat, nat)>)
      requires Valid() && i + 2 <= j < MAX_PLAYERS && (j - i) % 2 == 0
      requires |pos0| == MAX_PLAYERS && |vel0| == MAX_PLAYERS
      requires done == PairCallsFrom(playerEnabled[..], i, j, fixed)
      requires (blobPosition[..], blobVelocity[..]) == Collided(pos0, vel0, done, geo)
      modifies blobPosition, blobVelocity
      ensures next == PairCallsFrom(playerEnabled[..], i, j + 2, fixed)
      ensures (blobPosition[..], blobVelocity[..]) == Collided(pos0, vel0, next, geo)
    {
      PairCallsFromStep(playerEnabled[..], i, j, fixed);
      next := done;
      if playerEnabled[i] && (!fixed || playerEnabled[j]) {
        CollidedSnoc(pos0, vel0, done, (i, j), geo);
        CollideBlobs(i, j, geo);
        next := done + [(i, j)];
      }
    }

    /** The net loop then the border loop of `step`. */
    method ClampBlobs()
      requires Valid()
      modifies blobPosition
      ensures Blobs() == Clamped(old(Blobs()), playerEnabled[..])
      ensures forall k :: 0 <= k < MAX_PLAYERS ==>
        blobPosition[k] == if playerEnabled[k] then old(blobPosition[k]).(x := BorderClamp(k, NetClamp(k, old(blobPosition[k]).x))) else old(blobPosition[k])
      ensures forall k :: 0 <= k < MAX_PLAYERS && playerEnabled[k] && k % 2 == 0 ==>
        LEFT_PLANE <= blobPosition[k].x <= NET_POSITION_X - NET_RADIUS - BLOBBY_LOWER_RADIUS
      ensures forall k :: 0 <= k < MAX_PLAYERS && playerEnabled[k] && k % 2 == 1 ==>
        NET_POSITION_X + NET_RADIUS + BLOBBY_LOWER_RADIUS <= blobPosition[k].x <= RIGHT_PLANE
    {
      NetClampBlobs();
      ghost var netted := blobPosition[..];
      BorderClampBlobs();
      forall k | 0 <= k < MAX_PLAYERS && playerEnabled[k]
        ensures k % 2 == 0 ==> LEFT_PLANE <= blobPosition[k].x <= NET_POSITION_X - NET_RADIUS - BLOBBY_LOWER_RADIUS
        ensures k % 2 == 1 ==> NET_POSITION_X + NET_RADIUS + BLOBBY_LOWER_RADIUS <= blobPosition[k].x <= RIGHT_PLANE
      {
        ClampBounds(k, old(blobPosition[k]).x);
      }
      assert Blobs() == Clamped(old(Blobs()), playerEnabled[..]) by {
        forall k | 0 <= k < MAX_PLAYERS ensures Blobs()[k] == Clamped(old(Blobs()), playerEnabled[..])[k] {
          assert Blobs()[k] == BlobAt(k);
        }
      }
    }

    /** The net loop of `step`: no enabled blob reaches past the net. */
    method NetClampBlobs()
      requires Valid()
      modifies blobPosition
      ensures forall k :: 0 <= k < MAX_PLAYERS ==>
        blobPosition[k] == if playerEnabled[k] then old(blobPosition[k]).(x := NetClamp(k, old(blobPosition[k]).x)) else old(blobPosition[k])
    {
      var i := 0;
      while i < MAX_PLAYERS
        invariant 0 <= i <= MAX_PLAYERS
        invariant forall k :: 0 <= k < i ==>
          blobPosition[k] == if playerEnabled[k] then old(blobPosition[k]).(x := NetClamp(k, old(blobPosition[k]).x)) else old(blobPosition[k])
        invariant forall k :: i <= k < MAX_PLAYERS ==> blobPosition[k] == old(blobPosition[k])
      {
        if playerEnabled[i] {
          if i % 2 == 1 {
            if blobPosition[i].x - BLOBBY_LOWER_RADIUS < NET_POSITION_X + NET_RADIUS {
              blobPosition[i] := blobPosition[i].(x := NET_POSITION_X + NET_RADIUS + BLOBBY_LOWER_RADIUS);
            }
          } else {
            if blobPosition[i].x + BLOBBY_LOWER_RADIUS > NET_POSITION_X - NET_RADIUS {
              blobPosition[i] := blobPosition[i].(x := NET_POSITION_X - NET_RADIUS - BLOBBY_LOWER_RADIUS);
            }
          }
        }
        i := i + 1;
      }
    }

    /** The border loop of `step`: no enabled blob leaves the field. */
    method BorderClampBlobs()
      requires Valid()
      modifies blobPosition
      ensures forall k :: 0 <= k < MAX_PLAYERS ==>
        blobPosition[k] == if playerEnabled[k] then old(blobPosition[k]).(x := BorderClamp(k, old(blobPosition[k]).x)) else old(blobPosition[k])
    {
      ghost var netted := blobPosition[..];
      var i := 0;
      while i < MAX_PLAYERS
        invariant 0 <= i <= MAX_PLAYERS
        invariant forall k :: 0 <= k < i ==>
          blobPosition[k] == if playerEnabled[k] then netted[k].(x := BorderClamp(k, netted[k].x)) else netted[k]
        invariant forall k :: i <= k < MAX_PLAYERS ==> blobPosition[k] == netted[k]
      {
        if playerEnabled[i] {
          if i % 2 == 1 {
            if blobPosition[i].x > RIGHT_PLANE {
              blobPosition[i] := blobPosition[i].(x := RIGHT_PLANE);
            }
          } else {
            if blobPosition[i].x < LEFT_PLANE {
              blobPosition[i] := blobPosition[i].(x := LEFT_PLANE);
            }
          }
        }
        i := i + 1;
      }
    }

    /** The ball's flight while the game runs (dt = 1). */
    method MoveBall(isGameRunning: bool)
      modifies this
      ensures isGameRunning ==> ballPosition == Vec2(old(ballPosition).x + old(ballVelocity).x, old(ballPosition).y + 0.5 * BALL_GRAVITATION + old(ballVelocity).y)
      ensures isGameRunning ==> ballVelocity == old(ballVelocity).(y := old(ballVelocity).y + BALL_GRAVITATION)
      ensures !isGameRunning ==> ballPosition == old(ballPosition) && ballVelocity == old(ballVelocity)
      ensures ballRotation == old(ballRotation) && ballAngularVelocity == old(ballAngularVelocity)
    {
      if isGameRunning {
        ballPosition := Vec2(ballPosition.x + ballVelocity.x, ballPosition.y + 0.5 * BALL_GRAVITATION + ballVelocity.y);
        ballVelocity := ballVelocity.(y := ballVelocity.y + BALL_GRAVITATION);
      }
    }

    /** The rotation integration followed by the overflow protection. */
    method UpdateRotation(isGameRunning: bool, ballSpeed: real)
      modifies this
      ensures ballRotation == WrapRotation(IntegrateRotation(old(ballRotation), ballAngularVelocity, isGameRunning, ballVelocity.x, ballSpeed))
      ensures ballPosition == old(ballPosition) && ballVelocity == old(ballVelocity) && ballAngularVelocity == old(ballAngularVelocity)
    {
      if !isGameRunning {
        ballRotation := ballRotation - ballAngularVelocity;
      } else if ballVelocity.x > 0.0 {
        ballRotation := ballRotation + ballAngularVelocity * (ballSpeed / 6.0);
      } else {
        ballRotation := ballRotation - ballAngularVelocity * (ballSpeed / 6.0);
      }
      if ballRotation <= 0.0 {
        ballRotation := ROTATION_PERIOD + ballRotation;
      } else if ballRotation >= ROTATION_PERIOD {
        ballRotation := ballRotation - ROTATION_PERIOD;
      }
    }

    /** `handleBallWorldCollisions`: the ground test, then the side tests. */
    method WorldCollisions(geo: Geometry) returns (events: seq<MatchEvent>)
      modifies this
      ensures (Ball(ballPosition, ballVelocity), events) == WorldCollision(Ball(old(ballPosition), old(ballVelocity)), geo)
      ensures ballRotation == old(ballRotation) && ballAngularVelocity == old(ballAngularVelocity)
    {
      var ground := GroundCollision();
      var side := SideCollisions(geo);
      events := ground + side;
    }

    /** The ball to ground test of `handleBallWorldCollisions`. */
    method GroundCollision() returns (events: seq<MatchEvent>)
      modifies this
      ensures (Ball(ballPosition, ballVelocity), events) == GroundBounce(Ball(old(ballPosition), old(ballVelocity)))
      ensures ballRotation == old(ballRotation) && ballAngularVelocity == old(ballAngularVelocity)
    {
      events := [];
      if ballPosition.y + BALL_RADIUS > GROUND_PLANE_HEIGHT_MAX {
        ballVelocity := Vec2(ballVelocity.x, -ballVelocity.y).Scale(0.95);
        ballPosition := ballPosition.(y := GROUND_PLANE_HEIGHT_MAX - BALL_RADIUS);
        events := [MatchEvent(BallHitGround, if ballPosition.x > NET_POSITION_X then RIGHT_SIDE else LEFT_SIDE, 0.0)];
      }
    }

    /** The border, net and net-top tests of `handleBallWorldCollisions`. */
    method SideCollisions(geo: Geometry) returns (events: seq<MatchEvent>)
      modifies this
      ensures (Ball(ballPosition, ballVelocity), events) == SideBounce(Ball(old(ballPosition), old(ballVelocity)), geo)
      ensures ballRotation == old(ballRotation) && ballAngularVelocity == old(ballAngularVelocity)
    {
      events := [];
      if ballPosition.x - BALL_RADIUS <= LEFT_PLANE && ballVelocity.x < 0.0 {
        ballVelocity := ballVelocity.(x := -ballVelocity.x);
        ballPosition := ballPosition.(x := LEFT_PLANE + BALL_RADIUS);
        events := [MatchEvent(BallHitWall, LEFT_SIDE, 0.0)];
      } else if ballPosition.x + BALL_RADIUS >= RIGHT_PLANE && ballVelocity.x > 0.0 {
        ballVelocity := ballVelocity.(x := -ballVelocity.x);
        ballPosition := ballPosition.(x := RIGHT_PLANE - BALL_RADIUS);
        events := [MatchEvent(BallHitWall, RIGHT_SIDE, 0.0)];
      } else if ballPosition.y > NET_SPHERE_POSITION && Abs(ballPosition.x - NET_POSITION_X) < BALL_RADIUS + NET_RADIUS {
        var right := ballPosition.x - NET_POSITION_X > 0.0;
        ballVelocity := ballVelocity.(x := -ballVelocity.x);
        ballPosition := ballPosition.(x := NET_POSITION_X + (if right then BALL_RADIUS + NET_RADIUS else -BALL_RADIUS - NET_RADIUS));
        events := [MatchEvent(BallHitNet, if right then RIGHT_SIDE else LEFT_SIDE, 0.0)];
      } else {
        var top := geo.netTop(ballPosition, ballVelocity);
        if top.Some? {
          ballPosition, ballVelocity := top.value.0, top.value.1;
          events := [MatchEvent(BallHitNetTop, NO_SIDE, 0.0)];
        }
      }
    }

    /** The blobs as values. */
    ghost function Blobs(): (r: seq<Blob>)
      reads this, blobPosition, blobVelocity, blobState, animationSpeed
      requires Valid()
      ensures |r| == MAX_PLAYERS && Positions(r) == blobPosition[..] && Velocities(r) == blobVelocity[..]
      ensures forall k :: 0 <= k < MAX_PLAYERS ==> r[k] == BlobAt(k)
    {
      var p, v, s, a := blobPosition[..], blobVelocity[..], blobState[..], animationSpeed[..];
      seq(MAX_PLAYERS, k requires 0 <= k < MAX_PLAYERS => Blob(p[k], v[k], s[k], a[k]))
    }

    /** The blob moves and the ball's flight of `step`. */
    method Advance(inputs: seq<PlayerInput>, isGameRunning: bool)
      requires Valid() && |inputs| == MAX_PLAYERS
      modifies this, blobPosition, blobVelocity, blobState, animationSpeed
      ensures Blobs() == HandledBlobs(old(Blobs()), playerEnabled[..], inputs)
      ensures Ball(ballPosition, ballVelocity) == Flight(Ball(old(ballPosition), old(ballVelocity)), isGameRunning)
      ensures ballRotation == old(ballRotation) && ballAngularVelocity == old(ballAngularVelocity)
    {
      ghost var hb := HandledBlobs(Blobs(), playerEnabled[..], inputs);
      HandleBlobs(inputs);
      MoveBall(isGameRunning);
      assert Blobs() == hb by {
        forall k | 0 <= k < MAX_PLAYERS ensures Blobs()[k] == hb[k] {
          assert Blobs()[k] == BlobAt(k);
        }
      }
    }

    /** The collisions of `step`: while the ball is valid the ball-blob hits, then the
        pair loop; then the ball's world collisions. */
    method Collide(isBallValid: bool, fixed: bool, geo: Geometry) returns (events: seq<MatchEvent>)
      requires Valid()
      modifies this, blobPosition, blobVelocity
      ensures var ball := Ball(old(ballPosition), old(ballVelocity));
        var hit := if isBallValid then BallHitsBelow(old(blobPosition[..]), old(blobVelocity[..]), playerEnabled[..], ball, MAX_PLAYERS, geo) else (ball, []);
        var w := WorldCollision(hit.0, geo);
        Ball(ballPosition, ballVelocity) == w.0 && events == hit.1 + w.1
      ensures (blobPosition[..], blobVelocity[..]) == if isBallValid then Collided(old(blobPosition[..]), old(blobVelocity[..]), PairCalls(playerEnabled[..], MAX_PLAYERS - 2, fixed), geo)
        else (old(blobPosition[..]), old(blobVelocity[..]))
      ensures ballRotation == old(ballRotation) && ballAngularVelocity == old(ballAngularVelocity)
    {
      events := [];
      if isBallValid {
        events := BallHits(geo);
        var calls := PairLoop(fixed, geo);
      }
      var worldEvents := WorldCollisions(geo);
      events := events + worldEvents;
    }

    /** `step`: blob moves, the ball's flight while the game runs, the ball-blob and
        blob-blob collisions while the ball is valid, the ball's world collisions, the
        net and border clamps and the rotation. The collision geometry is `geo`;
        `fixed` selects the intended pair test (see `PairLoop`). The events are
        returned in the order `step` hands them to its callback. */
    method Step(inputs: seq<PlayerInput>, isBallValid: bool, isGameRunning: bool, fixed: bool, geo: Geometry)
      returns (events: seq<MatchEvent>)
      requires Valid() && |inputs| == MAX_PLAYERS
      modifies this, blobPosition, blobVelocity, blobState, animationSpeed
      ensures Valid() && playerEnabled[..] == old(playerEnabled[..])
      ensures Blobs() == StepBlobs(old(Blobs()), playerEnabled[..], inputs, isBallValid, fixed, geo)
      ensures (Ball(ballPosition, ballVelocity), events) ==
        StepBall(old(Blobs()), playerEnabled[..], inputs, Ball(old(ballPosition), old(ballVelocity)), isBallValid, isGameRunning, geo)
      ensures StepEventsShape(events, playerEnabled[..], isBallValid)
      ensures ballRotation == WrapRotation(IntegrateRotation(old(ballRotation), ballAngularVelocity, isGameRunning, ballVelocity.x, geo.length(ballVelocity)))
      ensures ballAngularVelocity == old(ballAngularVelocity)
    {
      ghost var en := playerEnabled[..];
      ghost var bs := Blobs();
      ghost var hb := HandledBlobs(bs, en, inputs);
      Advance(inputs, isGameRunning);
      events := Collide(isBallValid, fixed, geo);
      ghost var c := PairCollided(hb, en, isBallValid, fixed, geo);
      assert Blobs() == WithPairs(hb, c) by {
        assert blobPosition[..] == c.0 && blobVelocity[..] == c.1;
        forall k | 0 <= k < MAX_PLAYERS ensures Blobs()[k] == WithPairs(hb, c)[k] {
          assert Blobs()[k] == BlobAt(k);
        }
      }
      ClampBlobs();
      UpdateRotation(isGameRunning, geo.length(ballVelocity));
      StepBallEvents(bs, en, inputs, Ball(old(ballPosition), old(ballVelocity)), isBallValid, isGameRunning, geo);
    }

    /** `getState`: the world's snapshot, built on top of `blank`. */
    method GetState(blank: PhysicStates.PhysicsSnap) returns (st: PhysicStates.PhysicsSnap)
      requires Valid() && blank.WellFormed()
      ensures st == CopyOut(Value(), blank)
    {
      st := blank;
      var i := 0;
      while i < MAX_PLAYERS
        invariant 0 <= i <= MAX_PLAYERS && st.WellFormed()
        invariant forall k :: 0 <= k < i ==> st.blobPosition[k] == CopyOut(Value(), blank).blobPosition[k]
        invariant forall k :: 0 <= k < i ==> st.blobVelocity[k] == CopyOut(Value(), blank).blobVelocity[k]
        invariant forall k :: 0 <= k < i ==> st.blobState[k] == CopyOut(Value(), blank).blobState[k]
        invariant forall k :: 0 <= k < i ==> st.playerEnabled[k] == CopyOut(Value(), blank).playerEnabled[k]
        invariant forall k :: i <= k < MAX_PLAYERS ==>
          st.blobPosition[k] == blank.blobPosition[k] && st.blobVelocity[k] == blank.blobVelocity[k] &&
          st.blobState[k] == blank.blobState[k] && st.playerEnabled[k] == blank.playerEnabled[k]
      {
        if playerEnabled[i] {
          st := st.(blobPosition := st.blobPosition[i := blobPosition[i]],
                    blobVelocity := st.blobVelocity[i := blobVelocity[i]],
                    blobState := st.blobState[i := blobState[i]],
                    playerEnabled := st.playerEnabled[i := playerEnabled[i]]);
        }
        i := i + 1;
      }
      st := st.(ballPosition := ballPosition, ballVelocity := ballVelocity,
                ballRotation := ballRotation, ballAngularVelocity := ballAngularVelocity);
    }

    /** One slot of `setState`'s loop. */
    method CopySlot(i: nat, ps: PhysicStates.PhysicsSnap)
      requires Valid() && ps.WellFormed() && i < MAX_PLAYERS
      modifies blobPosition, blobVelocity, blobState, playerEnabled
      ensures old(playerEnabled[i]) ==>
        blobPosition[i] == ps.blobPosition[i] && blobVelocity[i] == ps.blobVelocity[i] &&
        blobState[i] == ps.blobState[i] && playerEnabled[i] == ps.playerEnabled[i]
      ensures !old(playerEnabled[i]) ==>
        blobPosition[i] == old(blobPosition[i]) && blobVelocity[i] == old(blobVelocity[i]) &&
        blobState[i] == old(blobState[i]) && playerEnabled[i] == old(playerEnabled[i])
      ensures forall k :: 0 <= k < MAX_PLAYERS && k != i ==>
        blobPosition[k] == old(blobPosition[k]) && blobVelocity[k] == old(blobVelocity[k]) &&
        blobState[k] == old(blobState[k]) && playerEnabled[k] == old(playerEnabled[k])
    {
      if playerEnabled[i] {
        blobPosition[i] := ps.blobPosition[i];
        blobVelocity[i] := ps.blobVelocity[i];
        blobState[i] := ps.blobState[i];
        playerEnabled[i] := ps.playerEnabled[i];
      }
    }

    /** `setState`: only slots enabled before the call are overwritten, their enabled
        flag included. */
    method SetState(ps: PhysicStates.PhysicsSnap)
      requires Valid() && ps.WellFormed()
      modifies this, blobPosition, blobVelocity, blobState, playerEnabled
      ensures Valid() && Value() == CopyIn(old(Value()), ps)
    {
      ghost var t := CopyIn(Value(), ps);
      CopySlots(ps);
      ballPosition, ballVelocity := ps.ballPosition, ps.ballVelocity;
      ballRotation, ballAngularVelocity := ps.ballRotation, ps.ballAngularVelocity;
      assert Value() == t;
    }

    /** The slot loop of `setState`. */
    method CopySlots(ps: PhysicStates.PhysicsSnap)
      requires Valid() && ps.WellFormed()
      modifies blobPosition, blobVelocity, blobState, playerEnabled
      ensures var t := CopyIn(old(Value()), ps);
        blobPosition[..] == t.blobPosition && blobVelocity[..] == t.blobVelocity &&
        blobState[..] == t.blobState && playerEnabled[..] == t.playerEnabled
    {
      ghost var w := Value();
      ghost var t := CopyIn(w, ps);
      ghost var tp, tv, ts, te := t.blobPosition, t.blobVelocity, t.blobState, t.playerEnabled;
      assert forall k :: 0 <= k < MAX_PLAYERS ==>
        tp[k] == (if w.playerEnabled[k] then ps.blobPosition[k] else w.blobPosition[k]) &&
        tv[k] == (if w.playerEnabled[k] then ps.blobVelocity[k] else w.blobVelocity[k]) &&
        ts[k] == (if w.playerEnabled[k] then ps.blobState[k] else w.blobState[k]) &&
        te[k] == (if w.playerEnabled[k] then ps.playerEnabled[k] else w.playerEnabled[k]);
      var i := 0;
      while i < MAX_PLAYERS
        invariant 0 <= i <= MAX_PLAYERS
        invariant forall k :: 0 <= k < i ==>
          blobPosition[k] == tp[k] && blobVelocity[k] == tv[k] && blobState[k] == ts[k] && playerEnabled[k] == te[k]
        invariant forall k :: i <= k < MAX_PLAYERS ==>
          blobPosition[k] == w.blobPosition[k] && blobVelocity[k] == w.blobVelocity[k] &&
          blobState[k] == w.blobState[k] && playerEnabled[k] == w.playerEnabled[k]
      {
        CopySlot(i, ps);
        i := i + 1;
      }
      assert blobPosition[..] == tp;
      assert blobVelocity[..] == tv;
      assert blobState[..] == ts;
      assert playerEnabled[..] == te;
    }
  }

  /** Where the constructor places the blob of an enabled slot:
      200 + 400 * (i % 2) + 80 * (i / 2) * (-1)^(i / 2). */
  function StartX(i: nat): (x: real)
    ensures i < MAX_PLAYERS && i % 2 == 0 ==> LEFT_PLANE <= x <= NET_POSITION_X - NET_RADIUS - BLOBBY_LOWER_RADIUS
    ensures i < MAX_PLAYERS && i % 2 == 1 ==> NET_POSITION_X + NET_RADIUS + BLOBBY_LOWER_RADIUS <= x <= RIGHT_PLANE
  {
    var team: real := if i % 2 == 1 then 400.0 else 0.0;
    var row := (i / 2) as real;
    var sign: real := if (i / 2) % 2 == 1 then -1.0 else 1.0;
    200.0 + team + 80.0 * row * sign
  }

  /** No two slots start at the same place. */
  lemma StartXDistinct(i: nat, j: nat)
    requires i < MAX_PLAYERS && j < MAX_PLAYERS && i != j
    ensures StartX(i) != StartX(j)
  {
  }
}
