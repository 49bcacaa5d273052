/** The rules engine's serializable state (src/GameLogicState.cpp): scores, hit counts,
    serving and winning side, squish counters and the running/valid flags. */
module GameLogicStates {
  import opened Common
  import PhysicStates

  datatype LogicSnap = LogicSnap(
    leftScore: nat,
    rightScore: nat,
    hitCount: seq<nat>,
    servingPlayer: int,
    winningPlayer: int,
    squish: seq<nat>,
    squishWall: nat,
    squishGround: nat,
    isGameRunning: bool,
    isBallValid: bool)
  {
    /** Two hit counters (left, right), one squish counter per slot, and every counter
        an `unsigned int`. */
    predicate WellFormed() {
      |hitCount| == 2 && |squish| == MAX_PLAYERS &&
      FitsU32(leftScore) && FitsU32(rightScore) && FitsU32(squishWall) && FitsU32(squishGround) &&
      (forall k :: 0 <= k < |hitCount| ==> FitsU32(hitCount[k])) &&
      (forall k :: 0 <= k < |squish| ==> FitsU32(squish[k]))
    }
  }

  /** LEFT and RIGHT exchanged; any other side value is kept. */
  function OtherSide(side: int): (r: int)
    ensures side == LEFT_SIDE ==> r == RIGHT_SIDE
    ensures side == RIGHT_SIDE ==> r == LEFT_SIDE
    ensures side != LEFT_SIDE && side != RIGHT_SIDE ==> r == side
  {
    if side == LEFT_SIDE then RIGHT_SIDE else if side == RIGHT_SIDE then LEFT_SIDE else side
  }

  /** The state after `swapSides`. */
  function Mirror(s: LogicSnap): (r: LogicSnap)
    requires s.WellFormed()
    ensures r.WellFormed()
  {
    s.(leftScore := s.rightScore, rightScore := s.leftScore,
       squish := PhysicStates.SwapPairs(s.squish),
       hitCount := [s.hitCount[RIGHT_SIDE], s.hitCount[LEFT_SIDE]],
       servingPlayer := OtherSide(s.servingPlayer))
  }

  /** What `swapSides` promises, field by field. */
  lemma MirrorFields(s: LogicSnap)
    requires s.WellFormed()
    ensures Mirror(s).leftScore == s.rightScore && Mirror(s).rightScore == s.leftScore
    ensures Mirror(s).hitCount[LEFT_SIDE] == s.hitCount[RIGHT_SIDE] && Mirror(s).hitCount[RIGHT_SIDE] == s.hitCount[LEFT_SIDE]
    ensures forall i :: 0 <= i < MAX_PLAYERS && i % 2 == 0 ==>
      Mirror(s).squish[i] == s.squish[i + 1] && Mirror(s).squish[i + 1] == s.squish[i]
    ensures Mirror(s).winningPlayer == s.winningPlayer
    ensures Mirror(s).squishWall == s.squishWall && Mirror(s).squishGround == s.squishGround
    ensures Mirror(s).isGameRunning == s.isGameRunning && Mirror(s).isBallValid == s.isBallValid
  {
    forall i | 0 <= i < MAX_PLAYERS && i % 2 == 0
      ensures Mirror(s).squish[i] == s.squish[i + 1] && Mirror(s).squish[i + 1] == s.squish[i]
    {
      assert Partner(i) == i + 1 && Partner(i + 1) == i;
    }
  }

  lemma MirrorInvolution(s: LogicSnap)
    requires s.WellFormed()
    ensures Mirror(Mirror(s)) == s
  {
    PhysicStates.SwapPairsInvolution(s.squish);
    assert Mirror(Mirror(s)).hitCount == s.hitCount;
  }

  // ---------------------------------------------------------------------------
  // Serializer: four counters, two sides, the squish counters, two counters, two flags

  function WriteLogic(s: LogicSnap): (out: seq<Token>)
    requires s.WellFormed()
    ensures |out| == LOGIC_TOKENS
    ensures LogicShape(out)
  {
    [U32(s.leftScore), U32(s.rightScore), U32(s.hitCount[LEFT_SIDE]), U32(s.hitCount[RIGHT_SIDE]),
     SideTok(s.servingPlayer), SideTok(s.winningPlayer)]
    + seq(MAX_PLAYERS, i requires 0 <= i < MAX_PLAYERS => U32(s.squish[i]))
    + [U32(s.squishWall), U32(s.squishGround), Boolean(s.isGameRunning), Boolean(s.isBallValid)]
  }

  const LOGIC_TOKENS: nat := 10 + MAX_PLAYERS

  /** The token shapes the reader accepts, in order. */
  predicate LogicShape(t: seq<Token>)
    requires |t| >= LOGIC_TOKENS
  {
    t[0].U32? && t[1].U32? && t[2].U32? && t[3].U32? && t[4].SideTok? && t[5].SideTok? &&
    (forall k :: 6 <= k < 6 + MAX_PLAYERS ==> t[k].U32?) &&
    t[6 + MAX_PLAYERS].U32? && t[7 + MAX_PLAYERS].U32? &&
    t[8 + MAX_PLAYERS].Boolean? && t[9 + MAX_PLAYERS].Boolean?
  }

  function ReadLogic(t: seq<Token>): (r: Option<(LogicSnap, seq<Token>)>)
    ensures r.Some? <==> |t| >= LOGIC_TOKENS && LogicShape(t)
    ensures r.Some? ==> r.value.1 == t[LOGIC_TOKENS..]
    ensures r.Some? ==> r.value.0.WellFormed()
  {
    if |t| < LOGIC_TOKENS || !LogicShape(t) then None
    else
      var m := MAX_PLAYERS;
      Some((LogicSnap(t[0].n, t[1].n, [t[2].n, t[3].n], t[4].s, t[5].s,
                      seq(m, i requires 0 <= i < m => t[6 + i].n),
                      t[6 + m].n, t[7 + m].n, t[8 + m].b, t[9 + m].b),
            t[LOGIC_TOKENS..]))
  }

  /** Every field written is read back in the same order. */
  lemma LogicRoundTrip(s: LogicSnap, rest: seq<Token>)
    requires s.WellFormed()
    ensures ReadLogic(WriteLogic(s) + rest) == Some((s, rest))
  {
    var t := WriteLogic(s) + rest;
    assert forall k :: 6 <= k < 6 + MAX_PLAYERS ==> t[k] == U32(s.squish[k - 6]);
    var r := ReadLogic(t).value.0;
    assert r.squish == s.squish;
    assert r.hitCount == s.hitCount;
    assert t[LOGIC_TOKENS..] == rest;
  }

  // ---------------------------------------------------------------------------

  class GameLogicState {
    var leftScore: nat
    var rightScore: nat
    const hitCount: array<nat>
    var servingPlayer: int
    var winningPlayer: int
    const squish: array<nat>
    var squishWall: nat
    var squishGround: nat
    var isGameRunning: bool
    var isBallValid: bool

    ghost predicate Valid()
      reads this, hitCount, squish
    {
      hitCount.Length == 2 && squish.Length == MAX_PLAYERS && hitCount != squish && Value().WellFormed()
    }

    function Value(): LogicSnap
      reads this, hitCount, squish
    {
      LogicSnap(leftScore, rightScore, hitCount[..], servingPlayer, winningPlayer, squish[..],
                squishWall, squishGround, isGameRunning, isBallValid)
    }

    constructor (s: LogicSnap)
      requires s.WellFormed()
      ensures Valid() && Value() == s
      ensures fresh(hitCount) && fresh(squish)
    {
      leftScore, rightScore := s.leftScore, s.rightScore;
      hitCount := new nat[2](i requires 0 <= i < 2 => s.hitCount[i]);
      servingPlayer, winningPlayer := s.servingPlayer, s.winningPlayer;
      squish := new nat[MAX_PLAYERS](i requires 0 <= i < MAX_PLAYERS => s.squish[i]);
      squishWall, squishGround := s.squishWall, s.squishGround;
      isGameRunning, isBallValid := s.isGameRunning, s.isBallValid;
      new;
      assert hitCount[..] == s.hitCount && squish[..] == s.squish;
    }

    method SwapSides()
      requires Valid()
      modifies this, hitCount, squish
      ensures Valid() && Value() == Mirror(old(Value()))
    {
      ghost var s := Value();
      leftScore, rightScore := rightScore, leftScore;
      SwapSquish();
      hitCount[LEFT_SIDE], hitCount[RIGHT_SIDE] := hitCount[RIGHT_SIDE], hitCount[LEFT_SIDE];

      if servingPlayer == LEFT_SIDE {
        servingPlayer := RIGHT_SIDE;
      } else if servingPlayer == RIGHT_SIDE {
        servingPlayer := LEFT_SIDE;
      }
      assert hitCount[..] == [s.hitCount[RIGHT_SIDE], s.hitCount[LEFT_SIDE]];
    }

    /** The squish loop of `swapSides`: each slot takes its partner's counter. */
    method SwapSquish()
      requires squish.Length == MAX_PLAYERS
      modifies squish
      ensures squish[..] == PhysicStates.SwapPairs(old(squish[..]))
    {
      ghost var start := squish[..];
      ghost var target := PhysicStates.SwapPairs(start);
      var i := 0;
      while i < MAX_PLAYERS
        invariant 0 <= i <= MAX_PLAYERS && i % 2 == 0
        invariant forall k :: 0 <= k < i ==> squish[k] == target[k]
        invariant forall k :: i <= k < MAX_PLAYERS ==> squish[k] == start[k]
      {
        assert Partner(i) == i + 1 && Partner(i + 1) == i;
        squish[i], squish[i + 1] := squish[i + 1], squish[i];
        i := i + 2;
      }
      assert squish[..] == target;
    }
  }
}
