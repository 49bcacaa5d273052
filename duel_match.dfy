/** The per-tick orchestration of one match (src/DuelMatch.cpp). The rules engine,
    the physics integrator and the input sources are collaborators whose behaviour is
    not modelled: they are given as functions. */
module DuelMatches {
  import opened Common
  import PhysicStates
  import GameLogicStates
  import DuelMatchStates
  import PhysicWorlds

  type PhysicsSnap = PhysicStates.PhysicsSnap
  type LogicSnap = GameLogicStates.LogicSnap
  type MatchSnap = DuelMatchStates.MatchSnap

  /** The rules engine, seen through the calls `DuelMatch` makes on it. Its ball-valid,
      game-running and serving-player answers are the fields of its state. */
  datatype Rules = Rules(
    transformInput: (LogicSnap, PlayerInput, int) -> PlayerInput,
    step: (LogicSnap, MatchSnap) -> LogicSnap,
    onBallHitsPlayer: (LogicSnap, int) -> LogicSnap,
    onBallHitsGround: (LogicSnap, int) -> LogicSnap,
    onBallHitsNet: (LogicSnap, int) -> LogicSnap,
    onBallHitsWall: (LogicSnap, int) -> LogicSnap,
    lastErrorSide: LogicSnap -> int,
    onServe: LogicSnap -> LogicSnap,
    onPause: LogicSnap -> LogicSnap,
    onUnPause: LogicSnap -> LogicSnap)

  /** The physics integrator: new world and the events it reported, for the inputs and
      the ball-valid and game-running flags. */
  type Physics = (PhysicsSnap, seq<PlayerInput>, bool, bool) -> (PhysicsSnap, seq<MatchEvent>)

  /** The integrator keeps one entry per slot in its state. */
  ghost predicate KeepsShape(physics: Physics)
  {
    forall w: PhysicsSnap, inputs: seq<PlayerInput>, valid: bool, running: bool {:trigger physics(w, inputs, valid, running)} ::
      w.WellFormed() ==> physics(w, inputs, valid, running).0.WellFormed()
  }

  /** Everything `DuelMatch` holds that a tick changes. */
  datatype Match = Match(
    paused: bool,
    remote: bool,
    events: seq<MatchEvent>,
    lastEvents: seq<MatchEvent>,
    transformedInput: seq<PlayerInput>,
    world: PhysicsSnap,
    logic: LogicSnap)
  {
    predicate WellFormed() { world.WellFormed() && |transformedInput| == MAX_PLAYERS }
  }

  // ---------------------------------------------------------------------------
  // Ball placement

  /** `blobHitGround` on the world snapshot: false outside the slot range. */
  predicate BlobHitGround(w: PhysicsSnap, player: int)
    requires w.WellFormed()
    ensures BlobHitGround(w, player) ==> 0 <= player < MAX_PLAYERS
  {
    IsSlot(player) && w.blobPosition[player].y >= GROUND_PLANE_HEIGHT
  }

  /** A round can start when the server stands on the ground and the ball lies low and
      almost still. */
  predicate CanStartRound(w: PhysicsSnap, servingPlayer: int)
    requires w.WellFormed()
    ensures CanStartRound(w, servingPlayer) ==> 0 <= servingPlayer < MAX_PLAYERS && w.ballPosition.y > 430.0
  {
    BlobHitGround(w, servingPlayer) && w.ballVelocity.y < 1.5 && w.ballVelocity.y > -1.5 && w.ballPosition.y > 430.0
  }

  /** Which team stands where does not matter: a round can start for a server exactly
      when it can start for the server's partner slot in the side-swapped world. */
  lemma CanStartRoundMirror(w: PhysicsSnap, player: nat)
    requires w.WellFormed() && player < MAX_PLAYERS
    ensures CanStartRound(PhysicStates.Mirror(w), Partner(player)) <==> CanStartRound(w, player)
  {
    PartnerBound(player, MAX_PLAYERS);
    assert PhysicStates.Mirror(w).blobPosition[Partner(player)] == PhysicStates.MirrorPosition(w.blobPosition[player]);
  }

  /** A ball served for a team hangs at the serving height, well above the height a
      round can start from, so no round restarts on the tick after a serve; the ball
      put over the net for no side lies low and still. */
  lemma ServedBallWaits(w: PhysicsSnap, side: int, player: int)
    requires w.WellFormed()
    ensures side == LEFT_SIDE || side == RIGHT_SIDE ==> !CanStartRound(ServeBall(w, side), player)
    ensures side != LEFT_SIDE && side != RIGHT_SIDE ==> (CanStartRound(ServeBall(w, side), player) <==> BlobHitGround(w, player))
  {
  }

  /** `resetBall`: the ball is placed above the server's half, or over the net for no
      side, at rest, spinning backwards for the right side. */
  function ServeBall(w: PhysicsSnap, side: int): (r: PhysicsSnap)
    ensures side == LEFT_SIDE ==> r.ballPosition == Vec2(200.0, STANDARD_BALL_HEIGHT)
    ensures side == RIGHT_SIDE ==> r.ballPosition == Vec2(600.0, STANDARD_BALL_HEIGHT)
    ensures side != LEFT_SIDE && side != RIGHT_SIDE ==> r.ballPosition == Vec2(400.0, 450.0)
    ensures r.ballVelocity == Vec2(0.0, 0.0)
    ensures r.ballAngularVelocity < 0.0 <==> side == RIGHT_PLAYER
    ensures r.ballAngularVelocity == STANDARD_BALL_ANGULAR_VELOCITY || r.ballAngularVelocity == -STANDARD_BALL_ANGULAR_VELOCITY
    ensures r == w.(ballPosition := r.ballPosition, ballVelocity := r.ballVelocity, ballAngularVelocity := r.ballAngularVelocity)
  {
    var position :=
      if side == LEFT_SIDE then Vec2(200.0, STANDARD_BALL_HEIGHT)
      else if side == RIGHT_SIDE then Vec2(600.0, STANDARD_BALL_HEIGHT)
      else Vec2(400.0, 450.0);
    w.(ballPosition := position, ballVelocity := Vec2(0.0, 0.0),
       ballAngularVelocity := (if side == RIGHT_PLAYER then -1.0 else 1.0) * STANDARD_BALL_ANGULAR_VELOCITY)
  }

  /** Serving is symmetric: resetting for one side and then swapping the field is the
      same as swapping first and resetting for the other side. */
  lemma ServeBallMirror(w: PhysicsSnap, side: int)
    requires w.WellFormed() && (side == LEFT_SIDE || side == RIGHT_SIDE)
    ensures PhysicStates.Mirror(ServeBall(w, side)) == ServeBall(PhysicStates.Mirror(w), GameLogicStates.OtherSide(side))
  {
  }

  // ---------------------------------------------------------------------------
  // Team size

  /** The enabled slots of the team with the given parity. */
  function TeamSlots(en: seq<bool>, parity: nat): set<nat>
  {
    set i: nat | i < |en| && i % 2 == parity && en[i]
  }

  /** Enabled slots i, i+2, i+4, ... below |en|. */
  function CountFrom(en: seq<bool>, i: nat): (c: nat)
    decreases |en| - i
  {
    if i >= |en| then 0 else (if en[i] then 1 else 0) + CountFrom(en, i + 2)
  }

  lemma {:induction false} CountFromIsTeamSize(en: seq<bool>, i: nat)
    ensures CountFrom(en, i) == |set k: nat | i <= k < |en| && (k - i) % 2 == 0 && en[k]|
    decreases |en| - i
  {
    var s := set k: nat | i <= k < |en| && (k - i) % 2 == 0 && en[k];
    if i < |en| {
      CountFromIsTeamSize(en, i + 2);
      var t := set k: nat | i + 2 <= k < |en| && (k - (i + 2)) % 2 == 0 && en[k];
      if en[i] {
        assert s == t + {i};
      } else {
        assert s == t;
      }
    } else {
      assert s == {};
    }
  }

  // ---------------------------------------------------------------------------
  // One tick

  /** The inputs after the input loop: enabled slots read their source and, on the
      authoritative side, pass through the rules. */
  function NewInputs(m: Match, rules: Rules, sources: seq<PlayerInput>): (r: seq<PlayerInput>)
    requires m.WellFormed() && |sources| == MAX_PLAYERS
    ensures |r| == MAX_PLAYERS
  {
    seq(MAX_PLAYERS, i requires 0 <= i < MAX_PLAYERS =>
      if m.world.playerEnabled[i] then
        (if m.remote then sources[i] else rules.transformInput(m.logic, sources[i], i))
      else m.transformedInput[i])
  }

  /** `getState`: the match snapshot; disabled slots' parts come from the fresh
      snapshot `blank`. */
  function StateOf(m: Match, blank: MatchSnap): (r: MatchSnap)
    requires m.WellFormed() && blank.WellFormed()
    ensures r.world.WellFormed() && |r.playerInput| == MAX_PLAYERS
  {
    DuelMatchStates.MatchSnap(
      PhysicWorlds.CopyOut(m.world, blank.world),
      m.logic,
      seq(MAX_PLAYERS, i requires 0 <= i < MAX_PLAYERS => if m.world.playerEnabled[i] then m.transformedInput[i] else blank.playerInput[i]))
  }

  /** The `setInput` calls of the input loop of `setState` over slots below n, in slot
      order: every enabled slot hands its input source the snapshot's input. */
  function InputsSent(en: seq<bool>, inputs: seq<PlayerInput>, n: nat): (r: seq<(nat, PlayerInput)>)
    requires |en| == MAX_PLAYERS && |inputs| == MAX_PLAYERS && n <= MAX_PLAYERS
    ensures |r| <= n
    decreases n
  {
    if n == 0 then []
    else InputsSent(en, inputs, n - 1) + (if en[n - 1] then [(n - 1, inputs[n - 1])] else [])
  }

  /** Every call below n is for an enabled slot below n with the snapshot's input, and
      the calls go in increasing slot order. */
  lemma {:induction false} InputsSentEntries(en: seq<bool>, inputs: seq<PlayerInput>, n: nat)
    requires |en| == MAX_PLAYERS && |inputs| == MAX_PLAYERS && n <= MAX_PLAYERS
    ensures var r := InputsSent(en, inputs, n);
      (forall k :: 0 <= k < |r| ==> r[k].0 < n && en[r[k].0] && r[k].1 == inputs[r[k].0])
      && (forall k, l :: 0 <= k < l < |r| ==> r[k].0 < r[l].0)
  {
    if n > 0 {
      InputsSentEntries(en, inputs, n - 1);
      var front := InputsSent(en, inputs, n - 1);
      var r := front + (if en[n - 1] then [(n - 1, inputs[n - 1])] else []);
      assert InputsSent(en, inputs, n) == r;
      forall k | 0 <= k < |r|
        ensures r[k].0 < n && en[r[k].0] && r[k].1 == inputs[r[k].0]
      {
        if k < |front| {
          assert r[k] == front[k];
        }
      }
      forall k, l | 0 <= k < l < |r|
        ensures r[k].0 < r[l].0
      {
        assert r[k] == front[k];
        if l < |front| {
          assert r[l] == front[l];
        }
      }
    }
  }

  /** Every enabled slot below n has its call, with the snapshot's input. */
  lemma {:induction false} InputsSentComplete(en: seq<bool>, inputs: seq<PlayerInput>, n: nat)
    requires |en| == MAX_PLAYERS && |inputs| == MAX_PLAYERS && n <= MAX_PLAYERS
    ensures forall i :: 0 <= i < n && en[i] ==> (i, inputs[i]) in InputsSent(en, inputs, n)
  {
    if n > 0 {
      InputsSentComplete(en, inputs, n - 1);
      var front := InputsSent(en, inputs, n - 1);
      var r := front + (if en[n - 1] then [(n - 1, inputs[n - 1])] else []);
      assert InputsSent(en, inputs, n) == r;
      forall i | 0 <= i < n && en[i]
        ensures (i, inputs[i]) in r
      {
        if i < n - 1 {
          var j :| 0 <= j < |front| && front[j] == (i, inputs[i]);
          assert r[j] == front[j];
        } else {
          assert r[|r| - 1] == (i, inputs[i]);
        }
      }
    }
  }

  /** `setState`: the world takes the snapshot for its enabled slots, the rules take
      it whole, and the slots enabled afterwards take their input. */
  function Restore(m: Match, s: MatchSnap): (r: Match)
    requires m.WellFormed() && s.world.WellFormed() && |s.playerInput| == MAX_PLAYERS
    ensures r.WellFormed()
  {
    var world := PhysicWorlds.CopyIn(m.world, s.world);
    m.(world := world, logic := s.logic,
       transformedInput := RestoredInputs(world.playerEnabled, s.playerInput, m.transformedInput))
  }

  /** The inputs after `setState`'s loop: the snapshot's for enabled slots, the old ones
      elsewhere. */
  function RestoredInputs(en: seq<bool>, inputs: seq<PlayerInput>, current: seq<PlayerInput>): (r: seq<PlayerInput>)
    requires |en| == MAX_PLAYERS && |inputs| == MAX_PLAYERS && |current| == MAX_PLAYERS
    ensures |r| == MAX_PLAYERS
    ensures forall i :: 0 <= i < MAX_PLAYERS ==> r[i] == if en[i] then inputs[i] else current[i]
  {
    seq(MAX_PLAYERS, i requires 0 <= i < MAX_PLAYERS => if en[i] then inputs[i] else current[i])
  }

  /** After `setState` every input source holds the input its slot was restored to,
      and every slot enabled after the restore has its source told. */
  lemma RestoreTellsSources(m: Match, s: MatchSnap)
    requires m.WellFormed() && s.world.WellFormed() && |s.playerInput| == MAX_PLAYERS
    ensures var r := Restore(m, s);
      var sent := InputsSent(r.world.playerEnabled, s.playerInput, MAX_PLAYERS);
      (forall k :: 0 <= k < |sent| ==> r.transformedInput[sent[k].0] == sent[k].1)
      && (forall i :: 0 <= i < MAX_PLAYERS && r.world.playerEnabled[i] ==> (i, r.transformedInput[i]) in sent)
  {
    InputsSentEntries(Restore(m, s).world.playerEnabled, s.playerInput, MAX_PLAYERS);
    InputsSentComplete(Restore(m, s).world.playerEnabled, s.playerInput, MAX_PLAYERS);
  }

  /** Taking the state of a match and restoring it gives back the same match. */
  lemma StateRoundTrip(m: Match, blank: MatchSnap)
    requires m.WellFormed() && blank.WellFormed()
    ensures Restore(m, StateOf(m, blank)) == m
  {
    PhysicWorlds.CopyInOut(m.world, blank.world);
    assert Restore(m, StateOf(m, blank)).transformedInput == m.transformedInput;
  }

  /** `getBlobPosition`, `getBlobVelocity`: the origin outside the slot range. */
  function BlobPosition(m: Match, player: int): (r: Vec2)
    requires m.WellFormed()
    ensures IsSlot(player) ==> r == m.world.blobPosition[player]
    ensures !IsSlot(player) ==> r == Vec2(0.0, 0.0)
  {
    if 0 <= player < MAX_PLAYERS then m.world.blobPosition[player] else Vec2(0.0, 0.0)
  }

  function BlobVelocity(m: Match, player: int): (r: Vec2)
    requires m.WellFormed()
    ensures IsSlot(player) ==> r == m.world.blobVelocity[player]
    ensures !IsSlot(player) ==> r == Vec2(0.0, 0.0)
  {
    if 0 <= player < MAX_PLAYERS then m.world.blobVelocity[player] else Vec2(0.0, 0.0)
  }

  /** `getBlobJump`: a blob is jumping when it is off the ground, and so is any side
      value outside the slot range. */
  function BlobJump(m: Match, player: int): (r: bool)
    requires m.WellFormed()
    ensures r <==> !IsSlot(player) || m.world.blobPosition[player].y < GROUND_PLANE_HEIGHT
  {
    !BlobHitGround(m.world, player)
  }

  /** `getHitcount`: the rules' touches for a side, 0 for anything else. */
  function HitCount(m: Match, player: int): (r: nat)
    requires |m.logic.hitCount| == 2
    ensures player == LEFT_SIDE || player == RIGHT_SIDE ==> r == m.logic.hitCount[player]
    ensures player != LEFT_SIDE && player != RIGHT_SIDE ==> r == 0
  {
    if player == LEFT_SIDE then m.logic.hitCount[LEFT_SIDE]
    else if player == RIGHT_SIDE then m.logic.hitCount[RIGHT_SIDE]
    else 0
  }

  /** One event relayed to the rules; a ground hit of a dead ball slows the ball. */
  function Dispatch(rules: Rules, logic: LogicSnap, w: PhysicsSnap, e: MatchEvent): (r: (LogicSnap, PhysicsSnap))
    ensures r.1 == w || r.1 == w.(ballVelocity := w.ballVelocity.Scale(0.6))
    ensures e.event == BallHitGround && !r.0.isBallValid ==> r.1 == w.(ballVelocity := w.ballVelocity.Scale(0.6))
    ensures e.event != BallHitGround ==> r.1 == w
    ensures e.event == PlayerError || e.event == ResetBall ==> r.0 == logic
  {
    match e.event
    case BallHitBlob => (rules.onBallHitsPlayer(logic, e.side), w)
    case BallHitGround =>
      var l := rules.onBallHitsGround(logic, e.side);
      (l, if !l.isBallValid then w.(ballVelocity := w.ballVelocity.Scale(0.6)) else w)
    case BallHitNet => (rules.onBallHitsNet(logic, e.side), w)
    case BallHitNetTop => (rules.onBallHitsNet(logic, NO_SIDE), w)
    case BallHitWall => (rules.onBallHitsWall(logic, e.side), w)
    case _ => (logic, w)
  }

  /** The dispatch loop over a whole event list, in order. Dispatching only ever
      rescales the ball's velocity: blobs and the ball's position and spin are kept. */
  function DispatchAll(rules: Rules, logic: LogicSnap, w: PhysicsSnap, events: seq<MatchEvent>): (r: (LogicSnap, PhysicsSnap))
    ensures r.1 == w.(ballVelocity := r.1.ballVelocity)
    decreases |events|
  {
    if |events| == 0 then (logic, w)
    else
      var (l, x) := DispatchAll(rules, logic, w, events[..|events| - 1]);
      Dispatch(rules, l, x, events[|events| - 1])
  }

  // The stages of `step`, in the order it runs them.

  function InputStage(m: Match, rules: Rules, sources: seq<PlayerInput>): (r: Match)
    requires m.WellFormed() && |sources| == MAX_PLAYERS
    ensures r.WellFormed()
  {
    m.(transformedInput := NewInputs(m, rules, sources))
  }

  /** The rules step on the snapshot, then the integrator; its events are collected only
      on the authoritative side. */
  function PhysicsStage(m: Match, rules: Rules, physics: Physics, blank: MatchSnap): (r: Match)
    requires m.WellFormed() && blank.WellFormed() && KeepsShape(physics)
    ensures r.WellFormed()
  {
    var logic := rules.step(m.logic, StateOf(m, blank));
    var result := physics(m.world, m.transformedInput, logic.isBallValid, logic.isGameRunning);
    m.(logic := logic, world := result.0, events := m.events + (if m.remote then [] else result.1))
  }

  function DispatchStage(m: Match, rules: Rules): (r: Match)
    requires m.WellFormed()
    ensures r.WellFormed()
  {
    var (logic, world) := DispatchAll(rules, m.logic, m.world, m.events);
    m.(logic := logic, world := world)
  }

  /** The error report: when the rules name an error side, a player error for that
      side is reported and the ball slows to 60 % of its velocity; otherwise nothing
      changes. */
  function ErrorStage(m: Match, rules: Rules): (r: Match)
    requires m.WellFormed()
    ensures r.WellFormed()
    ensures rules.lastErrorSide(m.logic) != NO_PLAYER ==>
      r.events == m.events + [MatchEvent(PlayerError, rules.lastErrorSide(m.logic), 0.0)]
      && r.world.ballVelocity == m.world.ballVelocity.Scale(0.6)
    ensures rules.lastErrorSide(m.logic) == NO_PLAYER ==> r == m
    ensures r == m.(events := r.events, world := m.world.(ballVelocity := r.world.ballVelocity))
  {
    var side := rules.lastErrorSide(m.logic);
    if side != NO_PLAYER then
      m.(events := m.events + [MatchEvent(PlayerError, side, 0.0)], world := m.world.(ballVelocity := m.world.ballVelocity.Scale(0.6)))
    else m
  }

  predicate Serves(m: Match)
    requires m.WellFormed()
  {
    !m.logic.isBallValid && CanStartRound(m.world, m.logic.servingPlayer)
  }

  function ServeStage(m: Match, rules: Rules): (r: Match)
    requires m.WellFormed()
    ensures r.WellFormed()
  {
    if Serves(m) then
      m.(world := ServeBall(m.world, m.logic.servingPlayer), logic := rules.onServe(m.logic),
         events := m.events + [MatchEvent(ResetBall, NO_SIDE, 0.0)])
    else m
  }

  /** One call of `step`. */
  function Tick(m: Match, rules: Rules, physics: Physics, sources: seq<PlayerInput>, blank: MatchSnap): (r: Match)
    requires m.WellFormed() && |sources| == MAX_PLAYERS && blank.WellFormed() && KeepsShape(physics)
    ensures r.WellFormed()
  {
    if m.paused then m
    else
      var served := ServeStage(ErrorStage(DispatchStage(PhysicsStage(InputStage(m, rules, sources), rules, physics, blank), rules), rules), rules);
      served.(lastEvents := served.events, events := [])
  }

  /** A paused match does not move. */
  lemma TickPaused(m: Match, rules: Rules, physics: Physics, sources: seq<PlayerInput>, blank: MatchSnap)
    requires m.WellFormed() && |sources| == MAX_PLAYERS && blank.WellFormed() && KeepsShape(physics)
    requires m.paused
    ensures Tick(m, rules, physics, sources, blank) == m
  {
  }

  /** After a tick the event buffer is empty and the reported list holds, in order: the
      events triggered before the tick; the integrator's, and none on a remote match;
      a player error iff the rules name an error side after the dispatch; and last a
      ball reset iff the round could restart, which leaves the ball at rest. */
  lemma TickEvents(m: Match, rules: Rules, physics: Physics, sources: seq<PlayerInput>, blank: MatchSnap)
    requires m.WellFormed() && |sources| == MAX_PLAYERS && blank.WellFormed() && KeepsShape(physics)
    requires !m.paused
    ensures var r := Tick(m, rules, physics, sources, blank);
      var ph := PhysicsStage(InputStage(m, rules, sources), rules, physics, blank);
      var d := DispatchStage(ph, rules);
      var e := ErrorStage(d, rules);
      var n := |ph.events|;
      r.events == [] &&
      |m.events| <= n <= |r.lastEvents| <= n + 2 &&
      r.lastEvents[..|m.events|] == m.events &&
      (m.remote ==> n == |m.events|) &&
      (forall k :: n <= k < |r.lastEvents| ==> r.lastEvents[k].event == PlayerError || r.lastEvents[k].event == ResetBall) &&
      (!m.remote ==>
         r.lastEvents[|m.events|..n] == physics(m.world, NewInputs(m, rules, sources), ph.logic.isBallValid, ph.logic.isGameRunning).1) &&
      ((n < |r.lastEvents| && r.lastEvents[n].event == PlayerError) <==> rules.lastErrorSide(d.logic) != NO_PLAYER) &&
      (rules.lastErrorSide(d.logic) != NO_PLAYER ==>
         r.lastEvents[n] == MatchEvent(PlayerError, rules.lastErrorSide(d.logic), 0.0)
         && e.world.ballVelocity == d.world.ballVelocity.Scale(0.6)) &&
      (rules.lastErrorSide(d.logic) == NO_PLAYER ==> e == d) &&
      ((n < |r.lastEvents| && r.lastEvents[|r.lastEvents| - 1].event == ResetBall) <==> Serves(e)) &&
      (Serves(e) ==> r.world.ballVelocity == Vec2(0.0, 0.0) && r.logic == rules.onServe(e.logic))
  {
    var r := Tick(m, rules, physics, sources, blank);
    var ph := PhysicsStage(InputStage(m, rules, sources), rules, physics, blank);
    var d := DispatchStage(ph, rules);
    assert d.events == ph.events;
    assert r.lastEvents[..|ph.events|] == ph.events;
    assert ph.events[..|m.events|] == m.events;
    assert r.lastEvents[|m.events|..|ph.events|] == ph.events[|m.events|..];
  }

  /** Only enabled slots take new input, and the rules transform it iff the match is
      the authoritative (non-remote) one. */
  lemma TickInputs(m: Match, rules: Rules, physics: Physics, sources: seq<PlayerInput>, blank: MatchSnap, i: nat)
    requires m.WellFormed() && |sources| == MAX_PLAYERS && blank.WellFormed() && KeepsShape(physics)
    requires !m.paused && i < MAX_PLAYERS
    ensures var r := Tick(m, rules, physics, sources, blank);
      (!m.world.playerEnabled[i] ==> r.transformedInput[i] == m.transformedInput[i]) &&
      (m.world.playerEnabled[i] && m.remote ==> r.transformedInput[i] == sources[i]) &&
      (m.world.playerEnabled[i] && !m.remote ==> r.transformedInput[i] == rules.transformInput(m.logic, sources[i], i))
  {
  }

  // ---------------------------------------------------------------------------

  class DuelMatch {
    var paused: bool
    const remote: bool
    var events: seq<MatchEvent>
    var lastEvents: seq<MatchEvent>
    const transformedInput: array<PlayerInput>
    var world: PhysicsSnap
    var logic: LogicSnap

    ghost predicate Valid()
      reads this
    {
      world.WellFormed() && transformedInput.Length == MAX_PLAYERS
    }

    function Value(): (m: Match)
      reads this, transformedInput
      requires Valid()
      ensures m.WellFormed()
    {
      Match(paused, remote, events, lastEvents, transformedInput[..], world, logic)
    }

    constructor (remote: bool, world: PhysicsSnap, logic: LogicSnap)
      requires world.WellFormed()
      ensures Valid() && Value() == Match(false, remote, [], [], seq(MAX_PLAYERS, _ => NoInput), world, logic)
    {
      this.paused := false;
      this.remote := remote;
      this.events := [];
      this.lastEvents := [];
      this.transformedInput := new PlayerInput[MAX_PLAYERS](_ => NoInput);
      this.world := world;
      this.logic := logic;
      new;
      assert transformedInput[..] == seq(MAX_PLAYERS, _ => NoInput);
    }

    /** `trigger`: an event raised from outside the tick, reported with the next tick. */
    method Trigger(e: MatchEvent)
      modifies this
      ensures events == old(events) + [e]
      ensures paused == old(paused) && lastEvents == old(lastEvents) && world == old(world) && logic == old(logic)
    {
      events := events + [e];
    }

    /** `updateEvents`: what a remote match does instead of a tick. */
    method UpdateEvents()
      modifies this
      ensures lastEvents == old(events) && events == []
      ensures paused == old(paused) && world == old(world) && logic == old(logic)
    {
      lastEvents := events;
      events := [];
    }

    method Pause(rules: Rules)
      modifies this
      ensures paused && logic == rules.onPause(old(logic))
      ensures events == old(events) && lastEvents == old(lastEvents) && world == old(world)
    {
      logic := rules.onPause(logic);
      paused := true;
    }

    method Unpause(rules: Rules)
      modifies this
      ensures !paused && logic == rules.onUnPause(old(logic))
      ensures events == old(events) && lastEvents == old(lastEvents) && world == old(world)
    {
      logic := rules.onUnPause(logic);
      paused := false;
    }

    /** `getPlayersCountInTeam`: the number of enabled slots on the player's team. */
    method PlayersCountInTeam(player: nat) returns (count: nat)
      requires Valid()
      ensures count == |TeamSlots(world.playerEnabled, player % 2)|
    {
      count := 0;
      var i := player % 2;
      while i < MAX_PLAYERS
        invariant player % 2 <= i <= MAX_PLAYERS + 1 && i % 2 == player % 2
        invariant count + CountFrom(world.playerEnabled, i) == CountFrom(world.playerEnabled, player % 2)
        decreases MAX_PLAYERS + 1 - i
      {
        if world.playerEnabled[i] {
          count := count + 1;
        }
        i := i + 2;
      }
      CountFromIsTeamSize(world.playerEnabled, player % 2);
      assert TeamSlots(world.playerEnabled, player % 2) ==
        set k: nat | player % 2 <= k < |world.playerEnabled| && (k - player % 2) % 2 == 0 && world.playerEnabled[k];
    }

    /** `getState`. */
    method GetState(blank: MatchSnap) returns (s: MatchSnap)
      requires Valid() && blank.WellFormed()
      ensures s == StateOf(Value(), blank)
    {
      var inputs := blank.playerInput;
      var i := 0;
      while i < MAX_PLAYERS
        invariant 0 <= i <= MAX_PLAYERS && |inputs| == MAX_PLAYERS
        invariant forall k :: 0 <= k < i ==> inputs[k] == StateOf(Value(), blank).playerInput[k]
        invariant forall k :: i <= k < MAX_PLAYERS ==> inputs[k] == blank.playerInput[k]
      {
        if world.playerEnabled[i] {
          inputs := inputs[i := transformedInput[i]];
        }
        i := i + 1;
      }
      s := DuelMatchStates.MatchSnap(PhysicWorlds.CopyOut(world, blank.world), logic, inputs);
    }

    /** `setState`; returns the `setInput` calls it makes on the input sources, in
        order, as (slot, input) pairs. */
    method SetState(s: MatchSnap) returns (sent: seq<(nat, PlayerInput)>)
      requires Valid() && s.world.WellFormed() && |s.playerInput| == MAX_PLAYERS
      modifies this, transformedInput
      ensures Valid() && Value() == Restore(old(Value()), s)
      ensures sent == InputsSent(world.playerEnabled, s.playerInput, MAX_PLAYERS)
    {
      world := PhysicWorlds.CopyIn(world, s.world);
      logic := s.logic;
      sent := RestoreInputs(world.playerEnabled, s.playerInput);
    }

    /** The input loop of `setState`: every enabled slot takes the snapshot's input,
        and its source is told. */
    method RestoreInputs(en: seq<bool>, inputs: seq<PlayerInput>) returns (sent: seq<(nat, PlayerInput)>)
      requires |en| == MAX_PLAYERS && |inputs| == MAX_PLAYERS && transformedInput.Length == MAX_PLAYERS
      modifies transformedInput
      ensures transformedInput[..] == RestoredInputs(en, inputs, old(transformedInput[..]))
      ensures sent == InputsSent(en, inputs, MAX_PLAYERS)
    {
      ghost var current := transformedInput[..];
      sent := [];
      var i := 0;
      while i < MAX_PLAYERS
        invariant 0 <= i <= MAX_PLAYERS
        invariant forall k :: 0 <= k < i ==> transformedInput[k] == if en[k] then inputs[k] else current[k]
        invariant forall k :: i <= k < MAX_PLAYERS ==> transformedInput[k] == current[k]
        invariant sent == InputsSent(en, inputs, i)
      {
        if en[i] {
          transformedInput[i] := inputs[i];
          sent := sent + [(i, transformedInput[i])];
        }
        i := i + 1;
      }
      assert transformedInput[..] == RestoredInputs(en, inputs, current);
    }

    /** `setServingPlayer`: the rules take the server, the ball is placed for it and the
        rules are told of the serve. */
    method SetServingPlayer(rules: Rules, setServer: (LogicSnap, int) -> LogicSnap, side: int)
      requires Valid()
      modifies this
      ensures Valid()
      ensures logic == rules.onServe(setServer(old(logic), side)) && world == ServeBall(old(world), side)
      ensures paused == old(paused) && events == old(events) && lastEvents == old(lastEvents)
    {
      logic := setServer(logic, side);
      world := ServeBall(world, side);
      logic := rules.onServe(logic);
    }

    /** The input loop of `step`. */
    method ReadInputs(rules: Rules, sources: seq<PlayerInput>)
      requires Valid() && |sources| == MAX_PLAYERS
      modifies transformedInput
      ensures Valid() && Value() == InputStage(old(Value()), rules, sources)
    {
      ghost var m := Value();
      var i := 0;
      while i < MAX_PLAYERS
        invariant 0 <= i <= MAX_PLAYERS
        invariant forall k :: 0 <= k < i ==> transformedInput[k] == NewInputs(m, rules, sources)[k]
        invariant forall k :: i <= k < MAX_PLAYERS ==> transformedInput[k] == m.transformedInput[k]
      {
        if world.playerEnabled[i] {
          transformedInput[i] := sources[i];
          if !remote {
            transformedInput[i] := rules.transformInput(logic, transformedInput[i], i);
          }
        }
        i := i + 1;
      }
      assert transformedInput[..] == NewInputs(m, rules, sources);
    }

    /** The rules step and the integrator step of `step`. */
    method StepWorld(rules: Rules, physics: Physics, blank: MatchSnap)
      requires Valid() && blank.WellFormed() && KeepsShape(physics)
      modifies this
      ensures Valid() && Value() == PhysicsStage(old(Value()), rules, physics, blank)
    {
      var state := GetState(blank);
      logic := rules.step(logic, state);
      var result := physics(world, transformedInput[..], logic.isBallValid, logic.isGameRunning);
      world := result.0;
      if !remote {
        events := events + result.1;
      }
    }

    /** The dispatch loop of `step`. */
    method DispatchEvents(rules: Rules)
      requires Valid()
      modifies this
      ensures Valid() && Value() == DispatchStage(old(Value()), rules)
    {
      ghost var l0, w0 := logic, world;
      var k := 0;
      while k < |events|
        invariant 0 <= k <= |events|
        invariant (logic, world) == DispatchAll(rules, l0, w0, events[..k])
        invariant world.WellFormed()
        invariant paused == old(paused) && events == old(events) && lastEvents == old(lastEvents)
      {
        assert events[..k + 1][..k] == events[..k];
        DispatchEvent(rules, events[k]);
        k := k + 1;
      }
      assert events[..k] == events;
    }

    /** One turn of the dispatch loop: the rules hear of the event, and a ground hit
        that ends the rally slows the ball. */
    method DispatchEvent(rules: Rules, e: MatchEvent)
      modifies this
      ensures (logic, world) == Dispatch(rules, old(logic), old(world), e)
      ensures paused == old(paused) && events == old(events) && lastEvents == old(lastEvents)
    {
      if e.event == BallHitBlob {
        logic := rules.onBallHitsPlayer(logic, e.side);
      } else if e.event == BallHitGround {
        logic := rules.onBallHitsGround(logic, e.side);
        if !logic.isBallValid {
          world := world.(ballVelocity := world.ballVelocity.Scale(0.6));
        }
      } else if e.event == BallHitNet {
        logic := rules.onBallHitsNet(logic, e.side);
      } else if e.event == BallHitNetTop {
        logic := rules.onBallHitsNet(logic, NO_SIDE);
      } else if e.event == BallHitWall {
        logic := rules.onBallHitsWall(logic, e.side);
      }
    }

    /** The error report of `step`. */
    method ReportError(rules: Rules)
      requires Valid()
      modifies this
      ensures Valid() && Value() == ErrorStage(old(Value()), rules)
    {
      var errorSide := rules.lastErrorSide(logic);
      if errorSide != NO_PLAYER {
        events := events + [MatchEvent(PlayerError, errorSide, 0.0)];
        world := world.(ballVelocity := world.ballVelocity.Scale(0.6));
      }
    }

    /** The serve of `step`. */
    method Serve(rules: Rules)
      requires Valid()
      modifies this
      ensures Valid() && Value() == ServeStage(old(Value()), rules)
    {
      if !logic.isBallValid && CanStartRound(world, logic.servingPlayer) {
        world := ServeBall(world, logic.servingPlayer);
        logic := rules.onServe(logic);
        events := events + [MatchEvent(ResetBall, NO_SIDE, 0.0)];
      }
    }

    /** `step`: one tick. */
    method Step(rules: Rules, physics: Physics, sources: seq<PlayerInput>, blank: MatchSnap)
      requires Valid() && |sources| == MAX_PLAYERS && blank.WellFormed() && KeepsShape(physics)
      modifies this, transformedInput
      ensures Valid() && Value() == Tick(old(Value()), rules, physics, sources, blank)
    {
      if paused {
        return;
      }
      ReadInputs(rules, sources);
      StepWorld(rules, physics, blank);
      DispatchEvents(rules);
      ReportError(rules);
      Serve(rules);
      lastEvents := events;
      events := [];
    }
  }
}
