/** Types and constants shared by every part of the model: player slots and sides,
    the three-bit player input, 2-D vectors over the reals, match events and the
    typed token streams that stand for the serializer's output. */
module Common {

  datatype Option<T> = None | Some(value: T)

  /** Player slots: even slots play on the left team, odd slots on the right. */
  const MAX_PLAYERS: nat := 4
  const NO_PLAYER: int := -1
  const NO_SIDE: int := -1
  const LEFT_PLAYER: int := 0
  const RIGHT_PLAYER: int := 1
  const LEFT_SIDE: int := 0
  const RIGHT_SIDE: int := 1

  predicate IsSlot(i: int) { 0 <= i < MAX_PLAYERS }

  /** `a % 2` as C++ computes it for `int`: the remainder takes the sign of `a`. */
  function CppRem2(a: int): (r: int)
    ensures a >= 0 ==> r == a % 2
    ensures a < 0 ==> -1 <= r <= 0
    ensures (r == 0) == (a % 2 == 0)
  {
    if a >= 0 then a % 2 else -((-a) % 2)
  }

  /** The slot an index is paired with in a side swap: (0,1), (2,3), ... */
  function Partner(i: nat): nat { if i % 2 == 0 then i + 1 else i - 1 }

  /** Within an even number of slots, pairing stays in range and undoes itself. */
  lemma PartnerBound(i: nat, n: nat)
    requires n % 2 == 0 && i < n
    ensures Partner(i) < n && Partner(i) != i && Partner(Partner(i)) == i
    ensures i / 2 == Partner(i) / 2
  {
  }

  // ---------------------------------------------------------------------------
  // Playing-field constants (single precision in the game, reals here)

  const LEFT_PLANE: real := 0.0
  const RIGHT_PLANE: real := 800.0
  const BLOBBY_HEIGHT: real := 89.0
  const BLOBBY_LOWER_RADIUS: real := 33.0
  const GROUND_PLANE_HEIGHT_MAX: real := 500.0
  const GROUND_PLANE_HEIGHT: real := 455.5
  const BLOBBY_JUMP_ACCELERATION: real := -15.1
  const GRAVITATION: real := 228.01 / 249.125
  const BLOBBY_JUMP_BUFFER: real := GRAVITATION / 2.0
  const BALL_RADIUS: real := 31.5
  const NET_POSITION_X: real := 400.0
  const NET_RADIUS: real := 7.0
  const NET_SPHERE_POSITION: real := 284.0
  const STANDARD_BALL_HEIGHT: real := 300.5
  const BLOBBY_SPEED: real := 4.5
  const STANDARD_BALL_ANGULAR_VELOCITY: real := 0.1
  /** `2 * M_PI`, the complement used when mirroring the ball's rotation. */
  const TWO_PI: real := 6.283185307179586

  datatype Vec2 = Vec2(x: real, y: real)
  {
    function Scale(f: real): Vec2 { Vec2(x * f, y * f) }
    function Plus(o: Vec2): Vec2 { Vec2(x + o.x, y + o.y) }
  }

  // ---------------------------------------------------------------------------
  // Player input

  datatype PlayerInput = PlayerInput(left: bool, right: bool, up: bool)
  {
    /** The three input bits as one number: left is 4, right is 2, jump is 1. */
    function GetAll(): (r: bv8)
      ensures r < 8
      ensures (r & 4 != 0) == left && (r & 2 != 0) == right && (r & 1 != 0) == up
    {
      (if left then 4 else 0) | (if right then 2 else 0) | (if up then 1 else 0)
    }

    /** `std::swap(input.left, input.right)`: the input as seen from the other side. */
    function SwapLeftRight(): (r: PlayerInput)
      ensures r.left == right && r.right == left && r.up == up
    {
      PlayerInput(right, left, up)
    }
  }

  const NoInput := PlayerInput(false, false, false)

  // ---------------------------------------------------------------------------
  // Match events

  datatype EventType =
    | BallHitBlob | BallHitGround | BallHitNet | BallHitNetTop | BallHitWall
    | PlayerError | ResetBall

  /** The numeric value of an event kind on the wire; 0 is reserved as terminator. */
  function EventCode(e: EventType): (c: UChar)
    ensures 1 <= c <= 7
  {
    match e
    case BallHitBlob => 1
    case BallHitGround => 2
    case BallHitNet => 3
    case BallHitNetTop => 4
    case BallHitWall => 5
    case PlayerError => 6
    case ResetBall => 7
  }

  function EventFromCode(c: int): (r: Option<EventType>)
    ensures r.Some? <==> 1 <= c <= 7
    ensures r.Some? ==> EventCode(r.value) == c
  {
    if c == 1 then Some(BallHitBlob)
    else if c == 2 then Some(BallHitGround)
    else if c == 3 then Some(BallHitNet)
    else if c == 4 then Some(BallHitNetTop)
    else if c == 5 then Some(BallHitWall)
    else if c == 6 then Some(PlayerError)
    else if c == 7 then Some(ResetBall)
    else None
  }

  lemma EventCodeRoundTrip(e: EventType)
    ensures EventFromCode(EventCode(e)) == Some(e)
  {
  }

  datatype MatchEvent = MatchEvent(event: EventType, side: int, intensity: real)

  // ---------------------------------------------------------------------------
  // Serializer output: one token per typed write of the generic serializer

  datatype Token =
    | U32(n: Word)
    | Boolean(b: bool)
    | Number(r: real)
    | SideTok(s: int)
    | InputTok(i: PlayerInput)
    | Byte(v: UChar)

  /** `io.uint32(x)` stores x modulo 2^32. */
  const TWO_32: nat := 0x1_0000_0000

  predicate FitsU32(x: int) { 0 <= x < TWO_32 }

  /** An `unsigned int` as the stream carries it. */
  type Word = x: int | 0 <= x < TWO_32

  /** A byte of a network stream, as the `unsigned char` the server writes. */
  type UChar = x: int | 0 <= x < 256

  /** A stream byte read back into a `char` (signed on the game's targets). */
  function SignedChar(b: UChar): (r: int)
    ensures -128 <= r < 128
    ensures b < 128 ==> r == b
  {
    if b < 128 then b else b - 256
  }

  /** `(unsigned char)x`: the low eight bits of an int. */
  function ToUChar(x: int): (r: UChar)
    ensures -128 <= x < 128 ==> SignedChar(r) == x
  {
    x % 256
  }
}
