/** The client side of a network game: the chat log with its line splitting, the
    decoding of the server's event stream, and the connection status a client keeps
    while packets arrive. */
module NetworkStates {
  import opened Common
  import opened NetworkGames

  /** Length limit of one chat line, and size of the chat buffer on the wire. */
  const MAX_MESSAGE_SIZE: nat := 31

  // ---------------------------------------------------------------------------------
  // Chat lines

  /** The loop of `appendChat`: walking down from `i`, the first index that is 0 or
      holds a space. */
  function SpaceAtOrBelow(s: string, i: nat): (p: nat)
    requires i < |s|
    ensures p <= i && (p == 0 || s[p] == ' ')
    ensures forall k :: p < k <= i ==> s[k] != ' '
  {
    if i == 0 || s[i] == ' ' then i else SpaceAtOrBelow(s, i - 1)
  }

  /** The chat entries `appendChat` adds for the text `result`: the text itself when it
      fits; otherwise the part before and the part after the last space in the index
      range 1 .. MAX_MESSAGE_SIZE, or the whole text when there is no such space. */
  function ChatLines(result: string): (lines: seq<string>)
    ensures 1 <= |lines| <= 2
  {
    if |result| > MAX_MESSAGE_SIZE then
      var sp := SpaceAtOrBelow(result, MAX_MESSAGE_SIZE);
      if sp > 0 then [result[..sp], result[sp + 1..]] else [result]
    else [result]
  }

  /** One or two entries; two exactly when the text is too long and has a space at an
      index in 1 .. MAX_MESSAGE_SIZE. */
  lemma ChatLinesCount(result: string)
    ensures |ChatLines(result)| == 1 || |ChatLines(result)| == 2
    ensures |ChatLines(result)| == 2 <==>
              |result| > MAX_MESSAGE_SIZE && exists k :: 0 < k <= MAX_MESSAGE_SIZE && result[k] == ' '
  {
    if |result| > MAX_MESSAGE_SIZE && exists k :: 0 < k <= MAX_MESSAGE_SIZE && result[k] == ' ' {
      var k :| 0 < k <= MAX_MESSAGE_SIZE && result[k] == ' ';
      assert SpaceAtOrBelow(result, MAX_MESSAGE_SIZE) >= k;
    }
  }

  /** Splitting loses only the space it splits at: the first entry is at most
      MAX_MESSAGE_SIZE long and ends just before the last space in range. A single
      entry is the whole text. */
  lemma ChatLinesJoin(result: string)
    ensures |ChatLines(result)| == 1 ==> ChatLines(result)[0] == result
    ensures |ChatLines(result)| == 2 ==>
              ChatLines(result)[0] + " " + ChatLines(result)[1] == result
              && 0 < |ChatLines(result)[0]| <= MAX_MESSAGE_SIZE
              && forall k :: |ChatLines(result)[0]| < k <= MAX_MESSAGE_SIZE ==> result[k] != ' '
  {
    if |ChatLines(result)| == 2 {
      var sp := SpaceAtOrBelow(result, MAX_MESSAGE_SIZE);
      assert result == result[..sp] + [result[sp]] + result[sp + 1..];
    }
  }

  /** The text of a received `char[MAX_MESSAGE_SIZE]` buffer whose last byte was
      overwritten with the terminator: everything before the first NUL. */
  function CText(s: string): (t: string)
    ensures |t| <= |s| && t == s[..|t|]
    ensures forall k :: 0 <= k < |t| ==> t[k] != '\0'
    ensures |t| < |s| ==> s[|t|] == '\0'
  {
    if |s| == 0 || s[0] == '\0' then []
    else [s[0]] + CText(s[1..])
  }

  // ---------------------------------------------------------------------------------
  // The event stream

  /** One event read from the front of the stream and how many tokens it used: the event
      byte, the side byte (both read as `char`), and a float for a ball-blob hit only;
      the intensity of every other event is -1. */
  function ReadEvent(t: seq<Token>): (r: Option<(MatchEvent, nat)>)
    ensures r.Some? ==> 2 <= r.value.1 <= |t|
  {
    if |t| < 2 || !t[0].Byte? || !t[1].Byte? then None
    else
      match EventFromCode(SignedChar(t[0].v))
      case None => None
      case Some(ev) =>
        var side := SignedChar(t[1].v);
        if ev == BallHitBlob then
          if |t| < 3 || !t[2].Number? then None else Some((MatchEvent(ev, side, t[2].r), 3))
        else Some((MatchEvent(ev, side, -1.0), 2))
  }

  /** The events before the terminating 0 byte; `None` for a stream that is cut short,
      carries an unknown event code or has a value of the wrong kind. */
  function DecodeEvents(t: seq<Token>): (r: Option<seq<MatchEvent>>)
    ensures r.Some? ==> 2 * |r.value| < |t|
    decreases |t|
  {
    if |t| == 0 || !t[0].Byte? then None
    else if t[0].v == 0 then Some([])
    else
      match ReadEvent(t)
      case None => None
      case Some((e, n)) =>
        match DecodeEvents(t[n..])
        case None => None
        case Some(rest) => Some([e] + rest)
  }

  function Then(acc: seq<MatchEvent>, r: Option<seq<MatchEvent>>): Option<seq<MatchEvent>>
  {
    match r
    case None => None
    case Some(rest) => Some(acc + rest)
  }

  lemma ThenAppend(acc: seq<MatchEvent>, e: MatchEvent, r: Option<seq<MatchEvent>>)
    ensures Then(acc, Then([e], r)) == Then(acc + [e], r)
  {
    if r.Some? {
      assert acc + ([e] + r.value) == (acc + [e]) + r.value;
    }
  }

  /** The side byte the server writes for an event. */
  function WireSide(e: MatchEvent, switchSides: bool): int
  {
    if switchSides then SwappedPlayerIndex(e.side) else e.side
  }

  /** The event a client gets back for one the server sent. */
  function Arrived(e: MatchEvent, switchSides: bool): MatchEvent
  {
    MatchEvent(e.event, WireSide(e, switchSides), if e.event == BallHitBlob then e.intensity else -1.0)
  }

  function ArrivedAll(events: seq<MatchEvent>, switchSides: bool): (r: seq<MatchEvent>)
    ensures |r| == |events|
    ensures forall i :: 0 <= i < |events| ==> r[i] == Arrived(events[i], switchSides)
  {
    seq(|events|, i requires 0 <= i < |events| => Arrived(events[i], switchSides))
  }

  lemma ArrivedAllCons(events: seq<MatchEvent>, switchSides: bool)
    requires |events| > 0
    ensures ArrivedAll(events, switchSides) == [Arrived(events[0], switchSides)] + ArrivedAll(events[1..], switchSides)
  {
  }

  /** One encoded event reads back as the event the client gets, whatever follows it. */
  lemma ReadEventTokens(e: MatchEvent, switchSides: bool, tail: seq<Token>)
    requires -128 <= WireSide(e, switchSides) < 128
    ensures ReadEvent(EventTokens(e, switchSides) + tail) == Some((Arrived(e, switchSides), |EventTokens(e, switchSides)|))
  {
    var t := EventTokens(e, switchSides) + tail;
    EventCodeRoundTrip(e.event);
    assert t[0] == Byte(EventCode(e.event));
    assert t[1] == Byte(ToUChar(WireSide(e, switchSides)));
    assert e.event == BallHitBlob ==> t[2] == Number(e.intensity);
  }

  /** A stream that starts with an event decodes to that event, then the rest. */
  lemma DecodeStep(t: seq<Token>, e: MatchEvent, n: nat)
    requires |t| > 0 && t[0].Byte? && t[0].v != 0 && ReadEvent(t) == Some((e, n))
    ensures DecodeEvents(t) == Then([e], DecodeEvents(t[n..]))
  {
  }

  /** The stream of a non-empty event list: the first event's tokens, then the stream of
      the rest. */
  lemma StreamCons(events: seq<MatchEvent>, switchSides: bool)
    requires |events| > 0
    ensures EventsStream(events, switchSides) == EventTokens(events[0], switchSides) + EventsStream(events[1..], switchSides)
  {
    assert events == [events[0]] + events[1..];
    EventsBodyCons(events[0], events[1..], switchSides);
  }

  /** One step of decoding a server stream. */
  lemma DecodeStreamStep(events: seq<MatchEvent>, switchSides: bool)
    requires |events| > 0 && -128 <= WireSide(events[0], switchSides) < 128
    ensures DecodeEvents(EventsStream(events, switchSides))
            == Then([Arrived(events[0], switchSides)], DecodeEvents(EventsStream(events[1..], switchSides)))
  {
    var e := events[0];
    var head := EventTokens(e, switchSides);
    var tail := EventsStream(events[1..], switchSides);
    var t := EventsStream(events, switchSides);
    StreamCons(events, switchSides);
    ReadEventTokens(e, switchSides, tail);
    assert t[0] == Byte(EventCode(e.event));
    assert t[|head|..] == tail;
    DecodeStep(t, Arrived(e, switchSides), |head|);
  }

  /** Decoding inverts the server's encoding: every event comes back, in order, with the
      side the server wrote and with the intensity only where one was sent. */
  lemma {:induction false} DecodeEventsStream(events: seq<MatchEvent>, switchSides: bool)
    requires forall i :: 0 <= i < |events| ==> -128 <= WireSide(events[i], switchSides) < 128
    ensures DecodeEvents(EventsStream(events, switchSides)) == Some(ArrivedAll(events, switchSides))
    decreases |events|
  {
    if |events| == 0 {
      assert EventsStream(events, switchSides) == [Byte(0)];
    } else {
      DecodeEventsStream(events[1..], switchSides);
      DecodeStreamStep(events, switchSides);
      ArrivedAllCons(events, switchSides);
    }
  }

  /** The `ID_GAME_EVENTS` loop: events are read and handed to the match until the 0
      byte. */
  method ReadEvents(stream: seq<Token>) returns (events: Option<seq<MatchEvent>>)
    ensures events == DecodeEvents(stream)
  {
    var acc: seq<MatchEvent> := [];
    var pos := 0;
    assert stream[pos..] == stream;
    assert Then(acc, DecodeEvents(stream)) == DecodeEvents(stream) by {
      match DecodeEvents(stream)
      case None =>
      case Some(rest) => assert [] + rest == rest;
    }
    while pos < |stream| && stream[pos].Byte? && stream[pos].v != 0
      invariant 0 <= pos <= |stream|
      invariant Then(acc, DecodeEvents(stream[pos..])) == DecodeEvents(stream)
      decreases |stream| - pos
    {
      var r := ReadEvent(stream[pos..]);
      if r.None? {
        return None;
      }
      var e := r.value.0;
      var n := r.value.1;
      assert stream[pos..][n..] == stream[pos + n..];
      DecodeStep(stream[pos..], e, n);
      ThenAppend(acc, e, DecodeEvents(stream[pos + n..]));
      acc := acc + [e];
      pos := pos + n;
    }
    if pos < |stream| && stream[pos].Byte? {
      assert DecodeEvents(stream[pos..]) == Some([]);
      assert acc + [] == acc;
      events := Some(acc);
    } else {
      events := None;
    }
  }

  // ---------------------------------------------------------------------------------
  // Connection status of the client

  datatype NetState =
    | WaitingForOpponent | OpponentDisconnected | Disconnected | ServerFull
    | PlayerWon | Pausing | Playing

  /** The packets whose handling changes the client's status, chat or match. */
  datatype Packet =
    | WinNotification(winner: int)
    | OpponentLeft(playerIndex: UChar, continueGame: UChar)
    | PausedBy(playerIndex: UChar)
    | UnpausedBy(playerIndex: UChar, continueGame: UChar)
    | GameReady
    | ConnectionClosed
    | NoFreeConnections
    | ChatMessage(playerIndex: UChar, buffer: string)
    | StatusOnly

  /** The player slot a packet names is a slot of the match. */
  predicate IndexOk(p: Packet)
  {
    match p
    case OpponentLeft(i, _) => i < MAX_PLAYERS
    case PausedBy(i) => i < MAX_PLAYERS
    case UnpausedBy(i, _) => i < MAX_PLAYERS
    case ChatMessage(i, _) => i < MAX_PLAYERS
    case _ => true
  }

  /** What the client sees: its status, whether the match is paused, which slots are
      enabled, the winner the server announced and the chat log. */
  datatype ClientSnap = ClientSnap(
    state: NetState, matchPaused: bool, enabled: seq<bool>, winner: int,
    chatlog: seq<string>, chatOrigin: seq<bool>, selected: int)

  /** The fixed context: the client's own slot, the players' names and the localised
      notice texts. */
  datatype ClientEnv = ClientEnv(
    playerIndex: int, names: seq<string>,
    disconnectText: string, pausedText: string, waitingText: string)

  /** `appendChat`. */
  function Chatted(s: ClientSnap, text: string, local: bool): (r: ClientSnap)
    ensures |r.chatlog| - |s.chatlog| == |r.chatOrigin| - |s.chatOrigin|
    ensures r.selected == |r.chatlog| - 1
    ensures |s.chatlog| <= |r.chatlog| && r.chatlog[..|s.chatlog|] == s.chatlog
  {
    var lines := ChatLines(text);
    s.(chatlog := s.chatlog + lines, chatOrigin := s.chatOrigin + seq(|lines|, _ => local),
       selected := |s.chatlog| + |lines| - 1)
  }

  /** The client's reaction to one packet. */
  function Received(s: ClientSnap, env: ClientEnv, p: Packet): (r: ClientSnap)
    requires IndexOk(p) && |s.enabled| == MAX_PLAYERS && |env.names| == MAX_PLAYERS
    ensures |r.enabled| == MAX_PLAYERS && forall k :: 0 <= k < MAX_PLAYERS && !s.enabled[k] ==> !r.enabled[k]
    ensures |s.chatlog| <= |r.chatlog| && r.chatlog[..|s.chatlog|] == s.chatlog
    ensures s.state == PlayerWon && !p.NoFreeConnections? && !p.UnpausedBy? && !p.GameReady? ==> r.state == PlayerWon
  {
    match p
    case WinNotification(w) => s.(winner := w, state := PlayerWon)
    case OpponentLeft(i, c) =>
      if s.state == PlayerWon then s
      else if c != 0 then
        Chatted(s.(enabled := s.enabled[i := false], state := Pausing, matchPaused := true),
                env.names[i] + " " + env.disconnectText, false)
      else s.(state := NetState.OpponentDisconnected)
    case PausedBy(i) =>
      if s.state == Playing || s.state == WaitingForOpponent then
        Chatted(s.(state := Pausing, matchPaused := true), env.names[i] + " " + env.pausedText, false)
      else s
    case UnpausedBy(i, c) =>
      var s1 :=
        if s.state != Pausing then s
        else if env.playerIndex == i then s.(state := WaitingForOpponent)
        else Chatted(s, env.names[i] + " " + env.waitingText, false);
      if c != 0 then s1.(state := Playing, matchPaused := false) else s1
    case GameReady => s.(state := Playing, matchPaused := false)
    case ConnectionClosed => if s.state != PlayerWon then s.(state := Disconnected) else s
    case NoFreeConnections => s.(state := ServerFull)
    case ChatMessage(i, buffer) =>
      Chatted(s, env.names[i] + ": " + CText(buffer[..Min(|buffer|, MAX_MESSAGE_SIZE - 1)]), false)
    case StatusOnly => s
  }

  function Min(a: int, b: int): int { if a < b then a else b }

  /** `ID_PAUSE` pauses only a playing or waiting client and is ignored otherwise. */
  lemma PauseOnlyWhenActive(s: ClientSnap, env: ClientEnv, i: UChar)
    requires i < MAX_PLAYERS && |s.enabled| == MAX_PLAYERS && |env.names| == MAX_PLAYERS
    ensures s.state == Playing || s.state == WaitingForOpponent ==>
              Received(s, env, PausedBy(i)).state == Pausing && Received(s, env, PausedBy(i)).matchPaused
    ensures !(s.state == Playing || s.state == WaitingForOpponent) ==> Received(s, env, PausedBy(i)) == s
  {
  }

  /** Once a player has won, neither a disconnecting opponent nor a lost connection
      changes anything. */
  lemma WonSurvivesDisconnects(s: ClientSnap, env: ClientEnv, p: Packet)
    requires IndexOk(p) && |s.enabled| == MAX_PLAYERS && |env.names| == MAX_PLAYERS
    requires s.state == PlayerWon && (p.OpponentLeft? || p.ConnectionClosed?)
    ensures Received(s, env, p) == s
  {
  }

  /** Only an unpause that continues the game, the game-ready packet and a full server
      move a client out of `PLAYER_WON`. */
  lemma WonLeftOnlyBy(s: ClientSnap, env: ClientEnv, p: Packet)
    requires IndexOk(p) && |s.enabled| == MAX_PLAYERS && |env.names| == MAX_PLAYERS
    requires s.state == PlayerWon && Received(s, env, p).state != PlayerWon
    ensures (p.UnpausedBy? && p.continueGame != 0) || p.GameReady? || p.NoFreeConnections?
  {
  }

  /** An unpause with `continueGame` always ends in `PLAYING` with the match running, and
      so does the game-ready packet. */
  lemma ContinueResumes(s: ClientSnap, env: ClientEnv, p: Packet)
    requires IndexOk(p) && |s.enabled| == MAX_PLAYERS && |env.names| == MAX_PLAYERS
    requires (p.UnpausedBy? && p.continueGame != 0) || p.GameReady?
    ensures Received(s, env, p).state == Playing && !Received(s, env, p).matchPaused
  {
  }

  /** An opponent who leaves with `continueGame` is disabled and pauses the match; without
      it the client reports the disconnect. */
  lemma OpponentLeftEffect(s: ClientSnap, env: ClientEnv, i: UChar, c: UChar)
    requires i < MAX_PLAYERS && |s.enabled| == MAX_PLAYERS && |env.names| == MAX_PLAYERS
    requires s.state != PlayerWon
    ensures c != 0 ==> var r := Received(s, env, OpponentLeft(i, c));
              r.state == Pausing && r.matchPaused && r.enabled == s.enabled[i := false]
    ensures c == 0 ==> Received(s, env, OpponentLeft(i, c)) == s.(state := NetState.OpponentDisconnected)
  {
  }

  /** Every packet keeps the two chat logs in step and the selection on the last
      entry, and leaves the slot table its size. */
  lemma ReceivedKeepsChat(s: ClientSnap, env: ClientEnv, p: Packet)
    requires IndexOk(p) && |s.enabled| == MAX_PLAYERS && |env.names| == MAX_PLAYERS
    requires |s.chatlog| == |s.chatOrigin| && (|s.chatlog| > 0 ==> s.selected == |s.chatlog| - 1)
    ensures var r := Received(s, env, p);
            |r.chatlog| == |r.chatOrigin| && |r.enabled| == MAX_PLAYERS
            && (|r.chatlog| > 0 ==> r.selected == |r.chatlog| - 1)
            && |s.chatlog| <= |r.chatlog| <= |s.chatlog| + 2
  {
  }

  // ---------------------------------------------------------------------------------
  // The client's game state

  class NetworkGameState {
    var networkState: NetState
    var matchPaused: bool
    var enabled: seq<bool>
    var winningPlayer: int
    var chatlog: seq<string>
    var chatOrigin: seq<bool>
    var selectedChat: int
    const env: ClientEnv

    ghost predicate Valid()
      reads this
    {
      |enabled| == MAX_PLAYERS && |env.names| == MAX_PLAYERS && |chatlog| == |chatOrigin|
    }

    function Value(): ClientSnap
      reads this
    {
      ClientSnap(networkState, matchPaused, enabled, winningPlayer, chatlog, chatOrigin, selectedChat)
    }

    /** A client waits for its opponent with the match paused, no winner and an empty
        chat. */
    constructor(playerEnabled: seq<bool>, environment: ClientEnv)
      requires |playerEnabled| == MAX_PLAYERS && |environment.names| == MAX_PLAYERS
      ensures Valid() && env == environment
      ensures Value() == ClientSnap(WaitingForOpponent, true, playerEnabled, NO_PLAYER, [], [], 0)
    {
      networkState := WaitingForOpponent;
      matchPaused := true;
      enabled := playerEnabled;
      winningPlayer := NO_PLAYER;
      chatlog := [];
      chatOrigin := [];
      selectedChat := 0;
      env := environment;
    }

    /** `appendChat` with the sender's name already in front of the message. */
    method AppendChat(result: string, local: bool)
      requires Valid()
      modifies this
      ensures Valid()
      ensures Value() == Chatted(old(Value()), result, local)
    {
      ghost var log, origin := chatlog, chatOrigin;
      ghost var lines := ChatLines(result);
      if |result| > MAX_MESSAGE_SIZE {
        var spacePos := MAX_MESSAGE_SIZE;
        while spacePos > 0 && result[spacePos] != ' '
          invariant 0 <= spacePos <= MAX_MESSAGE_SIZE
          invariant SpaceAtOrBelow(result, spacePos) == SpaceAtOrBelow(result, MAX_MESSAGE_SIZE)
          decreases spacePos
        {
          spacePos := spacePos - 1;
        }
        if spacePos > 0 {
          chatlog := chatlog + [result[..spacePos]];
          chatlog := chatlog + [result[spacePos + 1..]];
          chatOrigin := chatOrigin + [local];
          chatOrigin := chatOrigin + [local];
          assert lines == [result[..spacePos], result[spacePos + 1..]];
          assert chatlog == log + lines;
          assert chatOrigin == origin + seq(2, _ => local);
        } else {
          chatlog := chatlog + [result];
          chatOrigin := chatOrigin + [local];
          assert lines == [result];
          assert chatOrigin == origin + seq(1, _ => local);
        }
      } else {
        chatlog := chatlog + [result];
        chatOrigin := chatOrigin + [local];
        assert lines == [result];
        assert chatOrigin == origin + seq(1, _ => local);
      }
      selectedChat := |chatlog| - 1;
    }

    /** The status part of `processPacket` for one packet. */
    method ProcessPacket(p: Packet)
      requires Valid() && IndexOk(p)
      modifies this
      ensures Valid()
      ensures Value() == Received(old(Value()), env, p)
    {
      match p
      case WinNotification(w) =>
        winningPlayer := w;
        networkState := PlayerWon;
      case OpponentLeft(i, c) =>
        if networkState != PlayerWon {
          if c != 0 {
            enabled := enabled[i := false];
            networkState := Pausing;
            matchPaused := true;
            AppendChat(env.names[i] + " " + env.disconnectText, false);
          } else {
            networkState := NetState.OpponentDisconnected;
          }
        }
      case PausedBy(i) =>
        if networkState == Playing || networkState == WaitingForOpponent {
          networkState := Pausing;
          matchPaused := true;
          AppendChat(env.names[i] + " " + env.pausedText, false);
        }
      case UnpausedBy(i, c) =>
        if networkState == Pausing {
          if env.playerIndex == i {
            networkState := WaitingForOpponent;
          } else {
            AppendChat(env.names[i] + " " + env.waitingText, false);
          }
        }
        if c != 0 {
          networkState := Playing;
          matchPaused := false;
        }
      case GameReady =>
        networkState := Playing;
        matchPaused := false;
      case ConnectionClosed =>
        if networkState != PlayerWon {
          networkState := Disconnected;
        }
      case NoFreeConnections =>
        networkState := ServerFull;
      case ChatMessage(i, buffer) =>
        var message := CText(buffer[..Min(|buffer|, MAX_MESSAGE_SIZE - 1)]);
        AppendChat(env.names[i] + ": " + message, false);
      case StatusOnly =>
    }
  }
}
