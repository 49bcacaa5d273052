/** The server side of one network match (src/server/NetworkGame.cpp): the per-slot
    rules and pause flags, what a disconnect, a pause or an unpause request does, the
    event stream sent to the clients, the order of the game-ready player list, the
    game's name and the order of the calls one server tick makes. A broadcast is the
    pair of messages it sends: the plain one and the one for side-switched clients. */
module NetworkGames {
  import opened Common

  /** `getSwappedPlayerIndex`: the slot on the other side of the same pair. The test is
      C++'s `index % 2`, which is -1 for a negative odd index. */
  function SwappedPlayerIndex(index: int): (r: int)
    ensures index >= 0 ==> r == Partner(index)
    ensures index < 0 ==> r < 0
  {
    if CppRem2(index) != 0 then index - 1 else index + 1
  }

  /** On the slots the swap stays in range, changes team and undoes itself. */
  lemma SwappedInvolution(i: int)
    requires IsSlot(i)
    ensures IsSlot(SwappedPlayerIndex(i)) && SwappedPlayerIndex(i) % 2 != i % 2
    ensures SwappedPlayerIndex(SwappedPlayerIndex(i)) == i
  {
    PartnerBound(i, MAX_PLAYERS);
  }

  /** `NO_SIDE` (-1) is odd for C++'s remainder, so it is sent as side -2, the byte 254. */
  lemma SwappedNoSide()
    ensures SwappedPlayerIndex(NO_SIDE) == -2 && ToUChar(SwappedPlayerIndex(NO_SIDE)) == 254
  {
  }

  // ---------------------------------------------------------------------------
  // State

  /** The messages a packet makes the server broadcast. */
  datatype Message =
    | OpponentDisconnected(player: UChar, gameValid: bool)
    | PauseNotice(player: UChar)
    | UnpauseNotice(player: UChar, unpaused: bool)
    | WinNotification(winner: int)

  datatype Broadcast = Broadcast(plain: Message, switched: Message)

  /** The broadcast about `player`: the switched copy names the swapped slot. */
  function About(player: nat, m: int -> Message): Broadcast
  {
    Broadcast(m(player), m(SwappedPlayerIndex(player)))
  }

  /** What the server keeps per slot, with the match's enabled flags and pause flag. */
  datatype ServerSnap = ServerSnap(
    ids: seq<nat>,
    enabled: seq<bool>,
    switchedSide: seq<bool>,
    names: seq<string>,
    rulesSent: seq<bool>,
    paused: seq<bool>,
    gameValid: bool,
    matchPaused: bool)
  {
    predicate WellFormed()
    {
      |ids| == MAX_PLAYERS && |enabled| == MAX_PLAYERS && |switchedSide| == MAX_PLAYERS &&
      |names| == MAX_PLAYERS && |rulesSent| == MAX_PLAYERS && |paused| == MAX_PLAYERS
    }
  }

  /** `isGameStarted`: every enabled slot has answered the rules checksum. */
  predicate Started(s: ServerSnap)
    requires s.WellFormed()
    ensures (forall i :: 0 <= i < MAX_PLAYERS ==> s.rulesSent[i]) ==> Started(s)
    ensures (forall i :: 0 <= i < MAX_PLAYERS ==> !s.enabled[i]) ==> Started(s)
  {
    forall i :: 0 <= i < MAX_PLAYERS && s.enabled[i] ==> s.rulesSent[i]
  }

  /** `isGameUnpaused`: no enabled slot has paused. */
  predicate Unpaused(s: ServerSnap)
    requires s.WellFormed()
    ensures (forall i :: 0 <= i < MAX_PLAYERS ==> !s.paused[i]) ==> Unpaused(s)
    ensures (forall i :: 0 <= i < MAX_PLAYERS ==> !s.enabled[i]) ==> Unpaused(s)
  {
    forall i :: 0 <= i < MAX_PLAYERS && s.enabled[i] ==> !s.paused[i]
  }

  /** Some enabled slot carries the network ID. */
  predicate Connected(s: ServerSnap, id: nat)
    requires s.WellFormed()
  {
    exists i :: 0 <= i < MAX_PLAYERS && s.enabled[i] && s.ids[i] == id
  }

  /** `getPlayerSide`: the first enabled slot, from slot `from` on, with that ID. */
  function SideOf(s: ServerSnap, id: nat, from: nat): (p: nat)
    requires s.WellFormed() && from <= MAX_PLAYERS
    requires exists i :: from <= i < MAX_PLAYERS && s.enabled[i] && s.ids[i] == id
    ensures from <= p < MAX_PLAYERS && s.enabled[p] && s.ids[p] == id
    ensures forall j :: from <= j < p ==> !(s.enabled[j] && s.ids[j] == id)
    decreases MAX_PLAYERS - from
  {
    if s.enabled[from] && s.ids[from] == id then from else SideOf(s, id, from + 1)
  }

  /** Some enabled slot plays on the team of the given parity. */
  predicate TeamHasPlayer(en: seq<bool>, parity: nat)
    requires |en| == MAX_PLAYERS
  {
    exists i :: 0 <= i < MAX_PLAYERS && i % 2 == parity && en[i]
  }

  /** A lost connection: the slot is disabled, the match paused, and the game stays
      valid only while the player's team has someone left. */
  function Disconnected(s: ServerSnap, player: nat): (r: (ServerSnap, Broadcast))
    requires s.WellFormed() && player < MAX_PLAYERS
    ensures r.0.WellFormed()
  {
    var en := s.enabled[player := false];
    var valid := s.gameValid && TeamHasPlayer(en, player % 2);
    (s.(enabled := en, gameValid := valid, matchPaused := true),
     About(player, p => OpponentDisconnected(ToUChar(p), valid)))
  }

  /** `ID_PAUSE`: every slot's pause flag is set and the match paused. */
  function PausedBy(s: ServerSnap, player: nat): (r: (ServerSnap, Broadcast))
    requires s.WellFormed() && player < MAX_PLAYERS
    ensures r.0.WellFormed()
  {
    (s.(paused := seq(MAX_PLAYERS, _ => true), matchPaused := true), About(player, p => PauseNotice(ToUChar(p))))
  }

  /** `ID_UNPAUSE`: the sender's flag is cleared; the match resumes once no enabled
      slot is paused. */
  function UnpausedBy(s: ServerSnap, player: nat): (r: (ServerSnap, Broadcast))
    requires s.WellFormed() && player < MAX_PLAYERS
    ensures r.0.WellFormed()
  {
    var s1 := s.(paused := s.paused[player := false]);
    var u := Unpaused(s1);
    (if u then s1.(matchPaused := false) else s1, About(player, p => UnpauseNotice(ToUChar(p), u)))
  }

  /** After a disconnect, a valid game stays valid iff another slot of the player's
      team is still enabled; an invalid game stays invalid. */
  lemma DisconnectValidity(s: ServerSnap, player: nat)
    requires s.WellFormed() && player < MAX_PLAYERS
    ensures var r := Disconnected(s, player).0;
      !r.enabled[player] && r.matchPaused &&
      (r.gameValid <==> s.gameValid && exists j :: 0 <= j < MAX_PLAYERS && j != player && j % 2 == player % 2 && s.enabled[j])
  {
    var en := s.enabled[player := false];
    if exists j :: 0 <= j < MAX_PLAYERS && j != player && j % 2 == player % 2 && s.enabled[j] {
      var j :| 0 <= j < MAX_PLAYERS && j != player && j % 2 == player % 2 && s.enabled[j];
      assert en[j];
    }
  }

  /** A pause request leaves every slot paused, so the game is not unpaused. */
  lemma PauseBlocksUnpaused(s: ServerSnap, player: nat)
    requires s.WellFormed() && player < MAX_PLAYERS && s.enabled[player]
    ensures var r := PausedBy(s, player).0; r.matchPaused && !Unpaused(r)
  {
    assert PausedBy(s, player).0.paused[player];
  }

  /** An unpause request resumes the match iff every other enabled slot is unpaused,
      and otherwise leaves the match's pause flag as it was. */
  lemma UnpauseResumes(s: ServerSnap, player: nat)
    requires s.WellFormed() && player < MAX_PLAYERS
    ensures var r := UnpausedBy(s, player).0;
      !r.paused[player] &&
      (Unpaused(r) <==> forall j :: 0 <= j < MAX_PLAYERS && j != player && s.enabled[j] ==> !s.paused[j]) &&
      r.matchPaused == (s.matchPaused && !Unpaused(r))
  {
    var r := UnpausedBy(s, player).0;
    if forall j :: 0 <= j < MAX_PLAYERS && j != player && s.enabled[j] ==> !s.paused[j] {
      forall i | 0 <= i < MAX_PLAYERS && r.enabled[i]
        ensures !r.paused[i]
      {
        if i != player {
          assert r.paused[i] == s.paused[i];
        }
      }
    } else {
      var j :| 0 <= j < MAX_PLAYERS && j != player && s.enabled[j] && s.paused[j];
      assert r.paused[j];
    }
  }

  /** The server's bookkeeping right after the constructor. The constructor sets the
      ID, side, name and rules flag of enabled slots only and never sets a pause flag;
      `unset` stands for what the flags it leaves alone hold. A disabled slot's ID is
      taken as 0 and its name as empty. */
  function Created(playerIds: seq<nat>, playerEnabled: seq<bool>, switched: seq<bool>, playerNames: seq<string>, unset: seq<bool>): (r: ServerSnap)
    requires |playerIds| == MAX_PLAYERS && |playerEnabled| == MAX_PLAYERS && |switched| == MAX_PLAYERS
    requires |playerNames| == MAX_PLAYERS && |unset| == MAX_PLAYERS
    ensures r.WellFormed() && r.enabled == playerEnabled && r.paused == unset && r.gameValid && !r.matchPaused
    ensures Started(r) <==> forall i :: 0 <= i < MAX_PLAYERS ==> !playerEnabled[i]
    ensures forall i :: 0 <= i < MAX_PLAYERS && playerEnabled[i] ==>
      r.ids[i] == playerIds[i] && r.switchedSide[i] == switched[i] && r.names[i] == playerNames[i] && !r.rulesSent[i]
  {
    var r := ServerSnap(
      seq(MAX_PLAYERS, k requires 0 <= k < MAX_PLAYERS => if playerEnabled[k] then playerIds[k] else 0),
      playerEnabled,
      seq(MAX_PLAYERS, k requires 0 <= k < MAX_PLAYERS => if playerEnabled[k] then switched[k] else unset[k]),
      seq(MAX_PLAYERS, k requires 0 <= k < MAX_PLAYERS => if playerEnabled[k] then playerNames[k] else ""),
      seq(MAX_PLAYERS, k requires 0 <= k < MAX_PLAYERS => if playerEnabled[k] then false else unset[k]),
      unset, true, false);
    assert (exists i :: 0 <= i < MAX_PLAYERS && playerEnabled[i]) ==> !Started(r) by {
      if exists i :: 0 <= i < MAX_PLAYERS && playerEnabled[i] {
        var i :| 0 <= i < MAX_PLAYERS && playerEnabled[i];
        assert !r.rulesSent[i];
      }
    }
    r
  }

  /** The whole constructor. It throws `runtime_error` when the player of an enabled
      slot is already in a game (`inGame[i]` stands for `players[i]->getGame()`);
      otherwise the game is `Created`. */
  function Construct(playerIds: seq<nat>, playerEnabled: seq<bool>, switched: seq<bool>, playerNames: seq<string>,
                     inGame: seq<bool>, unset: seq<bool>): (r: Option<ServerSnap>)
    requires |playerIds| == MAX_PLAYERS && |playerEnabled| == MAX_PLAYERS && |switched| == MAX_PLAYERS
    requires |playerNames| == MAX_PLAYERS && |inGame| == MAX_PLAYERS && |unset| == MAX_PLAYERS
    ensures r.None? <==> exists i :: 0 <= i < MAX_PLAYERS && playerEnabled[i] && inGame[i]
    ensures r.Some? ==> r.value == Created(playerIds, playerEnabled, switched, playerNames, unset)
  {
    if exists i :: 0 <= i < MAX_PLAYERS && playerEnabled[i] && inGame[i] then None
    else Some(Created(playerIds, playerEnabled, switched, playerNames, unset))
  }

  /** As written: in a two-player game whose second pause flag happens to hold `true`,
      an unpause from slot 0 before anyone paused is answered "still paused". */
  lemma AsWrittenUnpauseBeforePause(playerIds: seq<nat>, playerNames: seq<string>)
    requires |playerIds| == MAX_PLAYERS && |playerNames| == MAX_PLAYERS
    ensures var s := Created(playerIds, [true, true, false, false], [false, false, false, false], playerNames, [false, true, false, false]);
      !Unpaused(UnpausedBy(s, 0).0)
  {
    var s := Created(playerIds, [true, true, false, false], [false, false, false, false], playerNames, [false, true, false, false]);
    assert UnpausedBy(s, 0).0.paused[1];
  }

  /** With every pause flag cleared at construction, a fresh game answers any unpause
      with "unpaused". */
  lemma FreshUnpauseResumes(playerIds: seq<nat>, playerEnabled: seq<bool>, switched: seq<bool>, playerNames: seq<string>, player: nat)
    requires |playerIds| == MAX_PLAYERS && |playerEnabled| == MAX_PLAYERS && |switched| == MAX_PLAYERS
    requires |playerNames| == MAX_PLAYERS && player < MAX_PLAYERS
    ensures var s := Created(playerIds, playerEnabled, switched, playerNames, seq(MAX_PLAYERS, _ => false));
      Unpaused(s) && Unpaused(UnpausedBy(s, player).0) && !UnpausedBy(s, player).0.matchPaused
  {
    var s := Created(playerIds, playerEnabled, switched, playerNames, seq(MAX_PLAYERS, _ => false));
    UnpauseResumes(s, player);
  }

  /** Once the rules went to the last enabled slot, the game is started. */
  lemma RulesStart(s: ServerSnap, player: nat)
    requires s.WellFormed() && player < MAX_PLAYERS
    requires forall j :: 0 <= j < MAX_PLAYERS && j != player && s.enabled[j] ==> s.rulesSent[j]
    ensures Started(s.(rulesSent := s.rulesSent[player := true]))
  {
  }

  // ---------------------------------------------------------------------------
  // The game-ready message

  /** The slots below n whose name and color a non-switched client at slot `i` is
      sent: every other enabled slot, in increasing order. */
  function PlainOrder(en: seq<bool>, i: nat, n: nat): (r: seq<nat>)
    requires |en| == MAX_PLAYERS && n <= MAX_PLAYERS
  {
    if n == 0 then [] else PlainOrder(en, i, n - 1) + Slot(en, i, n - 1)
  }

  /** The order for a switched client, over the pairs below n: for each odd slot j,
      j and then j - 1. */
  function SwitchedOrder(en: seq<bool>, i: nat, n: nat): (r: seq<nat>)
    requires |en| == MAX_PLAYERS && n <= MAX_PLAYERS && n % 2 == 0
  {
    if n == 0 then [] else SwitchedOrder(en, i, n - 2) + Slot(en, i, n - 1) + Slot(en, i, n - 2)
  }

  /** The flags as a switched client holds them: each slot's partner's flag. */
  function SwapSlots<T>(a: seq<T>): (r: seq<T>)
    requires |a| == MAX_PLAYERS
    ensures |r| == MAX_PLAYERS && forall k :: 0 <= k < MAX_PLAYERS ==> r[k] == a[Partner(k)]
  {
    seq(MAX_PLAYERS, k requires 0 <= k < MAX_PLAYERS => a[Partner(k)])
  }

  function MapPartner(xs: seq<nat>): (r: seq<nat>)
    ensures |r| == |xs| && forall k :: 0 <= k < |xs| ==> r[k] == Partner(xs[k])
  {
    if |xs| == 0 then [] else [Partner(xs[0])] + MapPartner(xs[1..])
  }

  lemma MapPartnerAppend(a: seq<nat>, b: seq<nat>)
    ensures MapPartner(a + b) == MapPartner(a) + MapPartner(b)
  {
    assert MapPartner(a + b) == MapPartner(a) + MapPartner(b) by {
      assert forall k :: 0 <= k < |a + b| ==> MapPartner(a + b)[k] == (MapPartner(a) + MapPartner(b))[k];
    }
  }

  /** A switched client reads the names in its own slot order, over the partner-swapped
      flags and from its swapped slot; the server writes exactly the partners of those
      slots, so every client gets each name at the slot it shows it in. */
  lemma SwitchedOrderMirrors(en: seq<bool>, i: nat)
    requires |en| == MAX_PLAYERS && i < MAX_PLAYERS
    ensures SwitchedOrder(en, i, MAX_PLAYERS) == MapPartner(PlainOrder(SwapSlots(en), Partner(i), MAX_PLAYERS))
  {
    var sw := SwapSlots(en);
    var p := Partner(i);
    var b0, b1, b2, b3 := Slot(sw, p, 0), Slot(sw, p, 1), Slot(sw, p, 2), Slot(sw, p, 3);
    SwitchedOrderUnrolled(en, i);
    PlainOrderUnrolled(sw, p);
    PartnerBound(i, MAX_PLAYERS);
    MapPartnerAppend(b0 + b1 + b2, b3);
    MapPartnerAppend(b0 + b1, b2);
    MapPartnerAppend(b0, b1);
    MapPartnerSlot(en, sw, i, 0);
    MapPartnerSlot(en, sw, i, 1);
    MapPartnerSlot(en, sw, i, 2);
    MapPartnerSlot(en, sw, i, 3);
  }

  lemma MapPartnerSlot(en: seq<bool>, sw: seq<bool>, i: nat, k: nat)
    requires |en| == MAX_PLAYERS && i < MAX_PLAYERS && k < MAX_PLAYERS
    requires |sw| == MAX_PLAYERS && sw[k] == en[Partner(k)]
    ensures MapPartner(Slot(sw, Partner(i), k)) == Slot(en, i, Partner(k))
  {
    PartnerBound(i, MAX_PLAYERS);
    PartnerBound(k, MAX_PLAYERS);
    if Slot(sw, Partner(i), k) == [k] {
      assert MapPartner([k]) == [Partner(k)];
    }
  }

  lemma SwitchedOrderUnrolled(en: seq<bool>, i: nat)
    requires |en| == MAX_PLAYERS
    ensures SwitchedOrder(en, i, MAX_PLAYERS) == Slot(en, i, 1) + Slot(en, i, 0) + Slot(en, i, 3) + Slot(en, i, 2)
  {
    assert SwitchedOrder(en, i, 2) == Slot(en, i, 1) + Slot(en, i, 0) by {
      assert SwitchedOrder(en, i, 0) == [];
    }
  }

  lemma PlainOrderUnrolled(en: seq<bool>, i: nat)
    requires |en| == MAX_PLAYERS
    ensures PlainOrder(en, i, MAX_PLAYERS) == Slot(en, i, 0) + Slot(en, i, 1) + Slot(en, i, 2) + Slot(en, i, 3)
  {
    assert PlainOrder(en, i, 1) == Slot(en, i, 0) by {
      assert PlainOrder(en, i, 0) == [];
    }
    assert PlainOrder(en, i, 2) == Slot(en, i, 0) + Slot(en, i, 1);
    assert PlainOrder(en, i, 3) == Slot(en, i, 0) + Slot(en, i, 1) + Slot(en, i, 2);
  }

  /** Slot k listed if it is not the recipient and is enabled. */
  function Slot(en: seq<bool>, i: nat, k: nat): (r: seq<nat>)
    requires |en| == MAX_PLAYERS && k < MAX_PLAYERS
    ensures r == [] || r == [k]
  {
    if i != k && en[k] then [k] else []
  }

  /** The plain order lists exactly the other enabled slots, each once, increasing. */
  lemma {:induction false} PlainOrderContents(en: seq<bool>, i: nat, n: nat)
    requires |en| == MAX_PLAYERS && n <= MAX_PLAYERS
    ensures forall x: nat :: x in PlainOrder(en, i, n) <==> x < n && x != i && en[x]
    ensures forall a, b :: 0 <= a < b < |PlainOrder(en, i, n)| ==> PlainOrder(en, i, n)[a] < PlainOrder(en, i, n)[b]
  {
    if n > 0 {
      PlainOrderContents(en, i, n - 1);
      var front := PlainOrder(en, i, n - 1);
      var all := front + Slot(en, i, n - 1);
      forall a, b | 0 <= a < b < |all|
        ensures all[a] < all[b]
      {
        if b >= |front| {
          assert all[a] == front[a] && front[a] in front;
        }
      }
    }
  }

  // ---------------------------------------------------------------------------
  // The event stream

  /** `writeEventToStream`: the event byte, the side byte (swapped for a switched
      client), and the intensity for a ball-blob hit only. */
  function EventTokens(e: MatchEvent, switchSides: bool): (t: seq<Token>)
    ensures |t| == (if e.event == BallHitBlob then 3 else 2)
  {
    [Byte(EventCode(e.event)), Byte(ToUChar(if switchSides then SwappedPlayerIndex(e.side) else e.side))] +
    (if e.event == BallHitBlob then [Number(e.intensity)] else [])
  }

  /** The events one after another. */
  function EventsBody(events: seq<MatchEvent>, switchSides: bool): (t: seq<Token>)
    ensures 2 * |events| <= |t| <= 3 * |events|
  {
    if |events| == 0 then [] else EventsBody(events[..|events| - 1], switchSides) + EventTokens(events[|events| - 1], switchSides)
  }

  /** The events, then the terminating 0 byte. */
  function EventsStream(events: seq<MatchEvent>, switchSides: bool): (t: seq<Token>)
    ensures 2 * |events| < |t| <= 3 * |events| + 1 && t[|t| - 1] == Byte(0)
  {
    EventsBody(events, switchSides) + [Byte(0)]
  }

  /** The stream read from the front: the first event's bytes, then the rest. */
  lemma {:induction false} EventsBodyCons(e: MatchEvent, rest: seq<MatchEvent>, switchSides: bool)
    ensures EventsBody([e] + rest, switchSides) == EventTokens(e, switchSides) + EventsBody(rest, switchSides)
    decreases |rest|
  {
    if |rest| > 0 {
      var front := rest[..|rest| - 1];
      assert ([e] + rest)[..|rest|] == [e] + front;
      EventsBodyCons(e, front, switchSides);
    } else {
      assert EventsBody([e], switchSides) == EventsBody([], switchSides) + EventTokens(e, switchSides);
    }
  }

  // ---------------------------------------------------------------------------
  // The game name

  /** `getGameName`'s accumulator for one team over the first n slots: a name is
      appended after ", " unless the text so far is empty. */
  function TeamText(en: seq<bool>, names: seq<string>, parity: nat, n: nat): (t: string)
    requires |en| == MAX_PLAYERS && |names| == MAX_PLAYERS && n <= MAX_PLAYERS
    ensures (forall k :: 0 <= k < n && k % 2 == parity ==> !en[k]) ==> t == ""
  {
    if n == 0 then ""
    else
      var a := TeamText(en, names, parity, n - 1);
      if en[n - 1] && (n - 1) % 2 == parity then (if |a| > 0 then a + ", " else a) + names[n - 1] else a
  }

  /** `getGameName`: the left team's names, " vs ", the right team's names. */
  function GameName(s: ServerSnap): (name: string)
    requires s.WellFormed()
    ensures (forall i :: 0 <= i < MAX_PLAYERS ==> !s.enabled[i]) ==> name == " vs "
  {
    TeamText(s.enabled, s.names, 0, MAX_PLAYERS) + " vs " + TeamText(s.enabled, s.names, 1, MAX_PLAYERS)
  }

  /** The names of a team's enabled slots among the first n, in slot order. */
  function TeamNames(en: seq<bool>, names: seq<string>, parity: nat, n: nat): (r: seq<string>)
    requires |en| == MAX_PLAYERS && |names| == MAX_PLAYERS && n <= MAX_PLAYERS
  {
    if n == 0 then []
    else TeamNames(en, names, parity, n - 1) + (if en[n - 1] && (n - 1) % 2 == parity then [names[n - 1]] else [])
  }

  /** The names separated by ", ". */
  function CommaJoin(xs: seq<string>): string
  {
    if |xs| == 0 then "" else if |xs| == 1 then xs[0] else CommaJoin(xs[..|xs| - 1]) + ", " + xs[|xs| - 1]
  }

  /** With non-empty names, each team's text is its names joined by ", ". */
  lemma {:induction false} TeamTextJoins(en: seq<bool>, names: seq<string>, parity: nat, n: nat)
    requires |en| == MAX_PLAYERS && |names| == MAX_PLAYERS && n <= MAX_PLAYERS
    requires forall k :: 0 <= k < MAX_PLAYERS && en[k] ==> |names[k]| > 0
    ensures TeamText(en, names, parity, n) == CommaJoin(TeamNames(en, names, parity, n))
    ensures |TeamText(en, names, parity, n)| == 0 <==> |TeamNames(en, names, parity, n)| == 0
  {
    if n > 0 {
      TeamTextJoins(en, names, parity, n - 1);
      var xs := TeamNames(en, names, parity, n - 1);
      if en[n - 1] && (n - 1) % 2 == parity {
        var ys := xs + [names[n - 1]];
        assert ys[..|ys| - 1] == xs;
        if |xs| == 0 {
          assert TeamText(en, names, parity, n) == "" + names[n - 1] == names[n - 1];
          assert CommaJoin(ys) == names[n - 1];
        } else {
          assert CommaJoin(ys) == CommaJoin(xs) + ", " + names[n - 1];
        }
      } else {
        assert TeamNames(en, names, parity, n) == xs + [] == xs;
      }
    }
  }

  /** The game is named "even-slot names vs odd-slot names". */
  lemma GameNameTeams(s: ServerSnap)
    requires s.WellFormed()
    requires forall k :: 0 <= k < MAX_PLAYERS && s.enabled[k] ==> |s.names[k]| > 0
    ensures GameName(s) == CommaJoin(TeamNames(s.enabled, s.names, 0, MAX_PLAYERS)) + " vs " +
                          CommaJoin(TeamNames(s.enabled, s.names, 1, MAX_PLAYERS))
  {
    TeamTextJoins(s.enabled, s.names, 0, MAX_PLAYERS);
    TeamTextJoins(s.enabled, s.names, 1, MAX_PLAYERS);
  }

  // ---------------------------------------------------------------------------
  // One server tick

  /** The calls `step` makes on the recorder, the match and the clients. */
  datatype StepCall =
    | RecordState | StepMatch | BroadcastEvents | PauseMatch | FinalizeReplay
    | BroadcastWin(notice: Broadcast) | BroadcastState

  /** `step`, given whether the game is started and paused, and the winning side the
      match reports after its step. */
  function StepCalls(started: bool, paused: bool, winning: int): (calls: seq<StepCall>)
    ensures !started || paused <==> calls == []
  {
    if !started || paused then []
    else
      [RecordState, StepMatch, BroadcastEvents] +
      (if winning != NO_SIDE
       then [PauseMatch, RecordState, FinalizeReplay,
             BroadcastWin(Broadcast(WinNotification(winning), WinNotification(if winning == LEFT_SIDE then RIGHT_SIDE else LEFT_SIDE)))]
       else []) +
      [BroadcastState]
  }

  /** A running tick records the state before it steps the match and broadcasts the
      state last; a win pauses, records the final state once more and finalizes before
      the win is announced, to switched clients as the other side. */
  lemma StepOrder(paused: bool, winning: int)
    requires !paused
    ensures var c := StepCalls(true, paused, winning);
      c[0] == RecordState && c[1] == StepMatch && c[2] == BroadcastEvents && c[|c| - 1] == BroadcastState &&
      (winning == NO_SIDE ==> |c| == 4) &&
      (winning != NO_SIDE ==> (|c| == 8 && c[3] == PauseMatch && c[4] == RecordState && c[5] == FinalizeReplay &&
        c[6].BroadcastWin? && c[6].notice.plain == WinNotification(winning) &&
        (winning == LEFT_SIDE ==> c[6].notice.switched == WinNotification(RIGHT_SIDE)) &&
        (winning == RIGHT_SIDE ==> c[6].notice.switched == WinNotification(LEFT_SIDE))))
  {
  }

  // ---------------------------------------------------------------------------

  class NetworkGame {
    const ids: array<nat>
    const enabled: array<bool>
    const switchedSide: array<bool>
    const names: array<string>
    const rulesSent: array<bool>
    const paused: array<bool>
    var gameValid: bool
    var matchPaused: bool

    ghost predicate Valid()
      reads this
    {
      ids.Length == MAX_PLAYERS && enabled.Length == MAX_PLAYERS && switchedSide.Length == MAX_PLAYERS &&
      names.Length == MAX_PLAYERS && rulesSent.Length == MAX_PLAYERS && paused.Length == MAX_PLAYERS &&
      enabled != switchedSide && enabled != rulesSent && enabled != paused &&
      switchedSide != rulesSent && switchedSide != paused && rulesSent != paused
    }

    function Value(): (s: ServerSnap)
      reads this, ids, enabled, switchedSide, names, rulesSent, paused
      requires Valid()
      ensures s.WellFormed()
    {
      ServerSnap(ids[..], enabled[..], switchedSide[..], names[..], rulesSent[..], paused[..], gameValid, matchPaused)
    }

    /** The bookkeeping part of the constructor: the enabled slots' IDs, sides and
        names are kept, no rules are sent yet and the game is valid. The flags the
        source leaves unset start false here, so in particular no slot starts paused.
        The source throws when an enabled slot's player is already in a game
        (`inGame`); that case is `Construct`'s `None`, and an object is only built
        without it. */
    constructor (playerIds: seq<nat>, playerEnabled: seq<bool>, switched: seq<bool>, playerNames: seq<string>, inGame: seq<bool>)
      requires |playerIds| == MAX_PLAYERS && |playerEnabled| == MAX_PLAYERS && |switched| == MAX_PLAYERS && |playerNames| == MAX_PLAYERS
      requires |inGame| == MAX_PLAYERS && forall i :: 0 <= i < MAX_PLAYERS && playerEnabled[i] ==> !inGame[i]
      ensures Valid() && Value() == Created(playerIds, playerEnabled, switched, playerNames, seq(MAX_PLAYERS, _ => false))
      ensures Construct(playerIds, playerEnabled, switched, playerNames, inGame, seq(MAX_PLAYERS, _ => false)) == Some(Value())
      ensures gameValid && !matchPaused && Unpaused(Value())
      ensures enabled[..] == playerEnabled
      ensures forall k :: 0 <= k < MAX_PLAYERS ==>
        ids[k] == (if playerEnabled[k] then playerIds[k] else 0) &&
        switchedSide[k] == (playerEnabled[k] && switched[k]) &&
        names[k] == (if playerEnabled[k] then playerNames[k] else "") &&
        !rulesSent[k] && !paused[k]
    {
      ids := new nat[MAX_PLAYERS](k requires 0 <= k < MAX_PLAYERS => if playerEnabled[k] then playerIds[k] else 0);
      enabled := new bool[MAX_PLAYERS](k requires 0 <= k < MAX_PLAYERS => playerEnabled[k]);
      switchedSide := new bool[MAX_PLAYERS](k requires 0 <= k < MAX_PLAYERS => playerEnabled[k] && switched[k]);
      names := new string[MAX_PLAYERS](k requires 0 <= k < MAX_PLAYERS => if playerEnabled[k] then playerNames[k] else "");
      rulesSent := new bool[MAX_PLAYERS](_ => false);
      paused := new bool[MAX_PLAYERS](_ => false);
      gameValid := true;
      matchPaused := false;
      new;
      ghost var c := Created(playerIds, playerEnabled, switched, playerNames, seq(MAX_PLAYERS, _ => false));
      assert enabled[..] == playerEnabled;
      assert ids[..] == c.ids && switchedSide[..] == c.switchedSide && names[..] == c.names;
      assert rulesSent[..] == c.rulesSent && paused[..] == c.paused;
      assert Value() == c;
    }

    /** `getPlayerSide`; the source asserts that the sender holds an enabled slot. */
    method GetPlayerSide(id: nat) returns (p: nat)
      requires Valid() && Connected(Value(), id)
      ensures p == SideOf(Value(), id, 0)
    {
      var i := 0;
      while i < MAX_PLAYERS
        invariant 0 <= i <= MAX_PLAYERS
        invariant forall j :: 0 <= j < i ==> !(enabled[j] && ids[j] == id)
      {
        if enabled[i] && ids[i] == id {
          return i;
        }
        i := i + 1;
      }
      assert false;
    }

    method IsGameStarted() returns (started: bool)
      requires Valid()
      ensures started == Started(Value())
    {
      var i := 0;
      while i < MAX_PLAYERS
        invariant 0 <= i <= MAX_PLAYERS
        invariant forall j :: 0 <= j < i && enabled[j] ==> rulesSent[j]
      {
        if enabled[i] && !rulesSent[i] {
          return false;
        }
        i := i + 1;
      }
      return true;
    }

    method IsGameUnpaused() returns (unpaused: bool)
      requires Valid()
      ensures unpaused == Unpaused(Value())
    {
      var i := 0;
      while i < MAX_PLAYERS
        invariant 0 <= i <= MAX_PLAYERS
        invariant forall j :: 0 <= j < i && enabled[j] ==> !paused[j]
      {
        if enabled[i] && paused[i] {
          return false;
        }
        i := i + 1;
      }
      return true;
    }

    /** `ID_CONNECTION_LOST` / `ID_DISCONNECTION_NOTIFICATION` from `id`. */
    method OnDisconnect(id: nat) returns (b: Broadcast)
      requires Valid() && Connected(Value(), id)
      modifies this, enabled
      ensures Valid()
      ensures (Value(), b) == Disconnected(old(Value()), SideOf(old(Value()), id, 0))
    {
      var player := GetPlayerSide(id);
      ghost var s := Value();
      enabled[player] := false;
      var noPlayersInTeam := true;
      var i := player % 2;
      while i < MAX_PLAYERS
        invariant i % 2 == player % 2 && player % 2 <= i <= MAX_PLAYERS + 1
        invariant noPlayersInTeam
        invariant forall j :: 0 <= j < i && j < MAX_PLAYERS && j % 2 == player % 2 ==> !enabled[j]
        decreases MAX_PLAYERS + 1 - i
      {
        if enabled[i] {
          noPlayersInTeam := false;
          assert enabled[..][i];
          break;
        }
        i := i + 2;
      }
      assert noPlayersInTeam <==> !TeamHasPlayer(enabled[..], player % 2);
      if noPlayersInTeam {
        gameValid := false;
      }
      matchPaused := true;
      var valid := gameValid;
      b := About(player, p => OpponentDisconnected(ToUChar(p), valid));
      assert enabled[..] == s.enabled[player := false];
    }

    /** `ID_PAUSE` from `id`. */
    method OnPause(id: nat) returns (b: Broadcast)
      requires Valid() && Connected(Value(), id)
      modifies this, paused
      ensures Valid()
      ensures (Value(), b) == PausedBy(old(Value()), SideOf(old(Value()), id, 0))
    {
      var player := GetPlayerSide(id);
      b := About(player, p => PauseNotice(ToUChar(p)));
      matchPaused := true;
      var i := 0;
      while i < MAX_PLAYERS
        modifies paused
        invariant 0 <= i <= MAX_PLAYERS
        invariant forall j :: 0 <= j < i ==> paused[j]
      {
        paused[i] := true;
        i := i + 1;
      }
      assert paused[..] == seq(MAX_PLAYERS, _ => true);
    }

    /** `ID_UNPAUSE` from `id`. */
    method OnUnpause(id: nat) returns (b: Broadcast)
      requires Valid() && Connected(Value(), id)
      modifies this, paused
      ensures Valid()
      ensures (Value(), b) == UnpausedBy(old(Value()), SideOf(old(Value()), id, 0))
    {
      var player := GetPlayerSide(id);
      ghost var s := Value();
      paused[player] := false;
      assert paused[..] == s.paused[player := false];
      var unpaused := IsGameUnpaused();
      b := About(player, p => UnpauseNotice(ToUChar(p), unpaused));
      if unpaused {
        matchPaused := false;
      }
    }

    /** `ID_RULES` from `id`: the rules are sent back when asked for, and once every
        enabled slot has answered, each enabled client gets the other players' names in
        the order of `ReadyOrder`. */
    method OnRules(id: nat, needRules: bool) returns (sendRules: bool, ready: seq<(nat, seq<nat>)>)
      requires Valid() && Connected(Value(), id)
      modifies rulesSent
      ensures Valid()
      ensures Value() == old(Value()).(rulesSent := old(Value()).rulesSent[SideOf(old(Value()), id, 0) := true])
      ensures sendRules == needRules
      ensures ready == (if Started(Value()) then ReadyMessages(Value(), MAX_PLAYERS) else [])
    {
      var player := GetPlayerSide(id);
      ghost var s := Value();
      rulesSent[player] := true;
      assert rulesSent[..] == s.rulesSent[player := true];
      assert Value() == s.(rulesSent := s.rulesSent[player := true]);
      sendRules := needRules;
      var started := IsGameStarted();
      ready := [];
      if started {
        ready := ReadyAll();
      }
    }

    /** The game-ready messages, one per enabled slot. */
    method ReadyAll() returns (ready: seq<(nat, seq<nat>)>)
      requires Valid()
      ensures ready == ReadyMessages(Value(), MAX_PLAYERS)
    {
      ghost var s := Value();
      ready := [];
      var i := 0;
      while i < MAX_PLAYERS
        invariant 0 <= i <= MAX_PLAYERS
        invariant ready == ReadyMessages(s, i)
      {
        if enabled[i] {
          var order := ReadyOrder(i);
          ready := ready + [(i, order)];
        }
        i := i + 1;
      }
    }

    /** The slot order of one client's game-ready message. */
    method ReadyOrder(i: nat) returns (order: seq<nat>)
      requires Valid() && i < MAX_PLAYERS
      ensures order == (if switchedSide[i] then SwitchedOrder(enabled[..], i, MAX_PLAYERS) else PlainOrder(enabled[..], i, MAX_PLAYERS))
    {
      if switchedSide[i] {
        order := SwitchedReadyOrder(i);
      } else {
        order := PlainReadyOrder(i);
      }
    }

    /** The loop over the pairs for a switched client: each pair's right-hand slot
        first. */
    method SwitchedReadyOrder(i: nat) returns (order: seq<nat>)
      requires enabled.Length == MAX_PLAYERS
      ensures order == SwitchedOrder(enabled[..], i, MAX_PLAYERS)
    {
      order := [];
      ghost var en := enabled[..];
      var j := 1;
      while j < MAX_PLAYERS
        invariant j % 2 == 1 && 1 <= j <= MAX_PLAYERS + 1
        invariant en == enabled[..] && |en| == MAX_PLAYERS
        invariant order == SwitchedOrder(en, i, j - 1)
        decreases MAX_PLAYERS + 1 - j
      {
        ghost var prev := order;
        if i != j && enabled[j] {
          order := order + [j];
        }
        assert order == prev + Slot(en, i, j);
        var opp := j - 1;
        ghost var mid := order;
        if i != opp && enabled[opp] {
          order := order + [opp];
        }
        assert order == mid + Slot(en, i, opp);
        j := j + 2;
      }
    }

    /** The loop over the slots in order for a client that is not switched. */
    method PlainReadyOrder(i: nat) returns (order: seq<nat>)
      requires enabled.Length == MAX_PLAYERS
      ensures order == PlainOrder(enabled[..], i, MAX_PLAYERS)
    {
      order := [];
      ghost var en := enabled[..];
      var j := 0;
      while j < MAX_PLAYERS
        invariant 0 <= j <= MAX_PLAYERS
        invariant en == enabled[..] && |en| == MAX_PLAYERS
        invariant order == PlainOrder(en, i, j)
      {
        ghost var prev := order;
        if i != j && enabled[j] {
          order := order + [j];
        }
        assert order == prev + Slot(en, i, j);
        j := j + 1;
      }
    }

    /** `broadcastGameEvents`: nothing for no events; otherwise one stream per enabled
        slot, side-switched for switched clients. */
    method BroadcastGameEvents(events: seq<MatchEvent>) returns (packets: seq<(nat, seq<Token>)>)
      requires Valid()
      ensures packets == (if |events| == 0 then [] else EventPackets(Value(), events, MAX_PLAYERS))
    {
      packets := [];
      if |events| == 0 {
        return;
      }
      ghost var s := Value();
      var i := 0;
      while i < MAX_PLAYERS
        invariant 0 <= i <= MAX_PLAYERS
        invariant packets == EventPackets(s, events, i)
      {
        if enabled[i] {
          var stream := WriteEvents(events, switchedSide[i]);
          packets := packets + [(i, stream)];
        }
        i := i + 1;
      }
    }

    /** `getGameName`. */
    method GetGameName() returns (name: string)
      requires Valid()
      ensures name == GameName(Value())
    {
      var left := "";
      var right := "";
      var i := 0;
      while i < MAX_PLAYERS
        invariant 0 <= i <= MAX_PLAYERS
        invariant left == TeamText(enabled[..], names[..], 0, i) && right == TeamText(enabled[..], names[..], 1, i)
      {
        if enabled[i] {
          if i % 2 == 1 {
            if |right| > 0 {
              right := right + ", ";
            }
            right := right + names[i];
          } else {
            if |left| > 0 {
              left := left + ", ";
            }
            left := left + names[i];
          }
        }
        i := i + 1;
      }
      name := left + " vs " + right;
    }

    /** `step`, with the match's winning side after its step as a parameter. */
    method Step(winning: int) returns (calls: seq<StepCall>)
      requires Valid()
      modifies this
      ensures Valid() && gameValid == old(gameValid)
      ensures calls == StepCalls(Started(old(Value())), old(matchPaused), winning)
      ensures matchPaused == (old(matchPaused) || (Started(old(Value())) && winning != NO_SIDE))
    {
      var started := IsGameStarted();
      calls := [];
      if !started {
        return;
      }
      if !matchPaused {
        calls := [RecordState, StepMatch, BroadcastEvents];
        if winning != NO_SIDE {
          matchPaused := true;
          var other := if winning == LEFT_SIDE then RIGHT_SIDE else LEFT_SIDE;
          calls := calls + [PauseMatch, RecordState, FinalizeReplay, BroadcastWin(Broadcast(WinNotification(winning), WinNotification(other)))];
        }
        calls := calls + [BroadcastState];
      }
    }
  }

  /** The game-ready messages to the enabled slots below n. */
  function ReadyMessages(s: ServerSnap, n: nat): seq<(nat, seq<nat>)>
    requires s.WellFormed() && n <= MAX_PLAYERS
  {
    if n == 0 then []
    else
      ReadyMessages(s, n - 1) +
      (if s.enabled[n - 1]
       then [(n - 1, if s.switchedSide[n - 1] then SwitchedOrder(s.enabled, n - 1, MAX_PLAYERS) else PlainOrder(s.enabled, n - 1, MAX_PLAYERS))]
       else [])
  }

  /** The event streams to the enabled slots below n. */
  function EventPackets(s: ServerSnap, events: seq<MatchEvent>, n: nat): seq<(nat, seq<Token>)>
    requires s.WellFormed() && n <= MAX_PLAYERS
  {
    if n == 0 then [] else EventPackets(s, events, n - 1) + (if s.enabled[n - 1] then [(n - 1, EventsStream(events, s.switchedSide[n - 1]))] else [])
  }

  /** The event loop of `broadcastGameEvents` for one client. */
  method WriteEvents(events: seq<MatchEvent>, switchSides: bool) returns (stream: seq<Token>)
    ensures stream == EventsStream(events, switchSides)
  {
    stream := [];
    var k := 0;
    while k < |events|
      invariant 0 <= k <= |events|
      invariant stream == EventsBody(events[..k], switchSides)
    {
      assert events[..k + 1][..k] == events[..k];
      stream := stream + EventTokens(events[k], switchSides);
      k := k + 1;
    }
    assert events[..k] == events;
    stream := stream + [Byte(0)];
  }
}
