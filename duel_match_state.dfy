/** The full match snapshot (src/DuelMatchState.cpp): physics state, rules state and
    the four players' inputs. */
module DuelMatchStates {
  import opened Common
  import PhysicStates
  import GameLogicStates

  datatype MatchSnap = MatchSnap(
    world: PhysicStates.PhysicsSnap,
    logic: GameLogicStates.LogicSnap,
    playerInput: seq<PlayerInput>)
  {
    predicate WellFormed() {
      world.WellFormed() && logic.WellFormed() && |playerInput| == MAX_PLAYERS
    }
  }

  /** Every input seen from the other side, each moved to its partner slot. */
  function MirrorInputs(inputs: seq<PlayerInput>): (r: seq<PlayerInput>)
    requires |inputs| % 2 == 0
    ensures |r| == |inputs|
  {
    PhysicStates.SwapPairs(seq(|inputs|, i requires 0 <= i < |inputs| => inputs[i].SwapLeftRight()))
  }

  /** The snapshot after `swapSides`. */
  function Mirror(s: MatchSnap): (r: MatchSnap)
    requires s.WellFormed()
    ensures r.WellFormed()
  {
    MatchSnap(PhysicStates.Mirror(s.world), GameLogicStates.Mirror(s.logic), MirrorInputs(s.playerInput))
  }

  /** The inputs of slot i after the swap are the partner's, with left and right exchanged
      and the jump bit kept. */
  lemma MirrorInputAt(inputs: seq<PlayerInput>, i: nat)
    requires |inputs| % 2 == 0 && i < |inputs|
    ensures Partner(i) < |inputs|
    ensures MirrorInputs(inputs)[i] == PlayerInput(inputs[Partner(i)].right, inputs[Partner(i)].left, inputs[Partner(i)].up)
    ensures MirrorInputs(inputs)[i].up == inputs[Partner(i)].up
  {
    PartnerBound(i, |inputs|);
  }

  lemma {:induction false} MirrorInputsInvolution(inputs: seq<PlayerInput>)
    requires |inputs| % 2 == 0
    ensures MirrorInputs(MirrorInputs(inputs)) == inputs
  {
    var m := MirrorInputs(MirrorInputs(inputs));
    forall i | 0 <= i < |inputs| ensures m[i] == inputs[i] {
      MirrorInputAt(inputs, i);
      MirrorInputAt(MirrorInputs(inputs), i);
      PartnerBound(i, |inputs|);
      MirrorInputAt(inputs, Partner(i));
    }
  }

  /** Swapping sides twice restores the whole snapshot. */
  lemma MirrorInvolution(s: MatchSnap)
    requires s.WellFormed()
    ensures Mirror(Mirror(s)) == s
  {
    PhysicStates.MirrorInvolution(s.world);
    GameLogicStates.MirrorInvolution(s.logic);
    MirrorInputsInvolution(s.playerInput);
  }

  // ---------------------------------------------------------------------------
  // Serializer: world state, then logic state, then every input in slot order

  function InputTokens(inputs: seq<PlayerInput>): (out: seq<Token>)
    ensures |out| == |inputs| && forall k :: 0 <= k < |inputs| ==> out[k] == InputTok(inputs[k])
  {
    seq(|inputs|, k requires 0 <= k < |inputs| => InputTok(inputs[k]))
  }

  function WriteMatch(s: MatchSnap): (out: seq<Token>)
    requires s.WellFormed()
    ensures |out| == 5 * MAX_PLAYERS + 6 + GameLogicStates.LOGIC_TOKENS + MAX_PLAYERS
    ensures forall k :: |out| - MAX_PLAYERS <= k < |out| ==> out[k].InputTok?
  {
    PhysicStates.WritePhysics(s.world) + GameLogicStates.WriteLogic(s.logic) + InputTokens(s.playerInput)
  }

  function ReadInputs(t: seq<Token>): (r: Option<(seq<PlayerInput>, seq<Token>)>)
    ensures r.Some? ==> |r.value.0| == MAX_PLAYERS
  {
    if |t| < MAX_PLAYERS || exists k :: 0 <= k < MAX_PLAYERS && !t[k].InputTok? then None
    else Some((seq(MAX_PLAYERS, k requires 0 <= k < MAX_PLAYERS => t[k].i), t[MAX_PLAYERS..]))
  }

  /** Reading into `into`; the enabled flags of the physics part are kept from `into`. */
  function ReadMatch(t: seq<Token>, into: MatchSnap): (r: Option<(MatchSnap, seq<Token>)>)
    requires into.WellFormed()
    ensures r.Some? ==> r.value.0.world.playerEnabled == into.world.playerEnabled
  {
    match PhysicStates.ReadPhysics(t, into.world)
    case None => None
    case Some((w, t1)) =>
      match GameLogicStates.ReadLogic(t1)
      case None => None
      case Some((l, t2)) =>
        match ReadInputs(t2)
        case None => None
        case Some((inputs, t3)) => Some((MatchSnap(w, l, inputs), t3))
  }

  lemma MatchRoundTrip(s: MatchSnap, into: MatchSnap, rest: seq<Token>)
    requires s.WellFormed() && into.WellFormed()
    ensures ReadMatch(WriteMatch(s) + rest, into) == Some((s.(world := s.world.(playerEnabled := into.world.playerEnabled)), rest))
  {
    var w, l, i := PhysicStates.WritePhysics(s.world), GameLogicStates.WriteLogic(s.logic), InputTokens(s.playerInput);
    assert WriteMatch(s) + rest == w + (l + (i + rest));
    PhysicStates.PhysicsRoundTrip(s.world, into.world, l + (i + rest));
    GameLogicStates.LogicRoundTrip(s.logic, i + rest);
    assert (i + rest)[MAX_PLAYERS..] == rest;
    assert seq(MAX_PLAYERS, k requires 0 <= k < MAX_PLAYERS => (i + rest)[k].i) == s.playerInput;
  }

  // ---------------------------------------------------------------------------
  // Queries

  /** The score of a side; only LEFT_SIDE and RIGHT_SIDE are valid. */
  function GetScore(s: MatchSnap, side: int): (r: nat)
    requires side == LEFT_SIDE || side == RIGHT_SIDE
    ensures side == LEFT_SIDE ==> r == s.logic.leftScore
    ensures side == RIGHT_SIDE ==> r == s.logic.rightScore
  {
    if side == LEFT_SIDE then s.logic.leftScore else s.logic.rightScore
  }

  /** The ball is down exactly when the rules say it is no longer valid. */
  function GetBallDown(s: MatchSnap): (r: bool)
    ensures r <==> !s.logic.isBallValid
  {
    !s.logic.isBallValid
  }

  /** Swapping sides exchanges the two scores as seen through `getScore`. */
  lemma MirrorGetScore(s: MatchSnap)
    requires s.WellFormed()
    ensures GetScore(Mirror(s), LEFT_SIDE) == GetScore(s, RIGHT_SIDE)
    ensures GetScore(Mirror(s), RIGHT_SIDE) == GetScore(s, LEFT_SIDE)
    ensures GetBallDown(Mirror(s)) == GetBallDown(s)
  {
  }

  // ---------------------------------------------------------------------------

  class DuelMatchState {
    const worldState: PhysicStates.PhysicState
    const logicState: GameLogicStates.GameLogicState
    const playerInput: array<PlayerInput>

    ghost predicate Valid()
      reads this, worldState, worldState.blobPosition, worldState.blobVelocity, worldState.blobState,
            worldState.playerEnabled, logicState, logicState.hitCount, logicState.squish
    {
      worldState.Valid() && logicState.Valid() && playerInput.Length == MAX_PLAYERS
    }

    function Value(): (s: MatchSnap)
      reads this, worldState, worldState.blobPosition, worldState.blobVelocity, worldState.blobState,
            worldState.playerEnabled, logicState, logicState.hitCount, logicState.squish, playerInput
      requires Valid()
      ensures s.WellFormed()
    {
      MatchSnap(worldState.Value(), logicState.Value(), playerInput[..])
    }

    constructor (s: MatchSnap)
      requires s.WellFormed()
      ensures Valid() && Value() == s
    {
      worldState := new PhysicStates.PhysicState(s.world);
      logicState := new GameLogicStates.GameLogicState(s.logic);
      playerInput := new PlayerInput[MAX_PLAYERS](i requires 0 <= i < MAX_PLAYERS => s.playerInput[i]);
      new;
      assert playerInput[..] == s.playerInput;
    }

    /** The input loop of `swapSides`. */
    method SwapInputs()
      requires playerInput.Length == MAX_PLAYERS
      modifies playerInput
      ensures playerInput[..] == MirrorInputs(old(playerInput[..]))
    {
      ghost var s := playerInput[..];
      ghost var target := MirrorInputs(s);
      var i := 0;
      while i < MAX_PLAYERS
        invariant 0 <= i <= MAX_PLAYERS && i % 2 == 0
        invariant forall k :: 0 <= k < i ==> playerInput[k] == target[k]
        invariant forall k :: i <= k < MAX_PLAYERS ==> playerInput[k] == s[k]
      {
        MirrorInputAt(s, i);
        MirrorInputAt(s, i + 1);
        assert Partner(i) == i + 1 && Partner(i + 1) == i;
        playerInput[i] := playerInput[i].(left := playerInput[i].right, right := playerInput[i].left);
        playerInput[i + 1] := playerInput[i + 1].(left := playerInput[i + 1].right, right := playerInput[i + 1].left);
        playerInput[i], playerInput[i + 1] := playerInput[i + 1], playerInput[i];
        i := i + 2;
      }
      assert playerInput[..] == target;
    }

    /** Physics swap, rules swap, then for each pair: exchange left and right in both
        inputs and exchange the two slots. */
    method SwapSides()
      requires Valid()
      modifies worldState, worldState.blobPosition, worldState.blobVelocity, worldState.blobState,
               logicState, logicState.hitCount, logicState.squish, playerInput
      ensures Valid() && Value() == Mirror(old(Value()))
    {
      worldState.SwapSides();
      logicState.SwapSides();
      SwapInputs();
    }
  }
}
