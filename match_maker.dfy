/** The lobby of the dedicated server: open games keyed by an unsigned 32-bit ID, each
    with its connected players and two team lists, and the map of players waiting in the
    lobby. Games are looked up "first in key order", as the `std::map` iteration of the
    server does. */
module MatchMakers {
  import opened Common

  type PlayerID = nat

  /** `(unsigned)-1`, what `openGame` returns when it refuses. */
  const INVALID_GAME: nat := TWO_32 - 1

  datatype PlayerInfo = PlayerInfo(name: string, desiredSide: int)

  datatype OpenGame = OpenGame(
    creator: PlayerID, name: string, speed: int, rules: int, points: int,
    connected: seq<PlayerID>, firstTeam: seq<PlayerID>, secondTeam: seq<PlayerID>)

  /** The whole lobby: open games, the ID counter, the waiting players and whether new
      games may be opened. */
  datatype Lobby = Lobby(
    games: map<nat, OpenGame>, counter: nat, players: map<PlayerID, PlayerInfo>,
    allowNewGames: bool)

  /** What `startGame` hands to the game factory: the player of each slot, which slots
      are enabled, which clients see the field mirrored, and the game's settings. */
  datatype GameRequest = GameRequest(
    players: seq<Option<PlayerID>>, enabled: seq<bool>, switchSide: seq<bool>,
    rules: int, points: int, speed: int)

  /** How `startGame` ends: no game of the host, a rules or speed index that the
      `at` lookups reject with `std::out_of_range`, or the request for the factory. */
  datatype StartOutcome = NoSuchGame | LookupFailed | Requested(request: GameRequest)

  /** The `at` lookups of `startGame` succeed: both indices, taken as `size_t`, lie
      within the rules and speed lists. */
  predicate LookupsSucceed(g: OpenGame, rulesCount: nat, speedsCount: nat)
  {
    0 <= g.rules < rulesCount && 0 <= g.speed < speedsCount
  }

  // ---------------------------------------------------------------------------------
  // Vectors of player IDs

  /** `v.erase(std::find(v.begin(), v.end(), x))` when `x` is present: the first
      occurrence goes, everything else keeps its order. */
  function Erase(s: seq<PlayerID>, x: PlayerID): (r: seq<PlayerID>)
    ensures multiset(r) == multiset(s) - multiset{x}
    ensures |r| == if x in s then |s| - 1 else |s|
  {
    if |s| == 0 then []
    else if s[0] == x then
      assert s == [s[0]] + s[1..];
      s[1..]
    else
      assert s == [s[0]] + s[1..];
      [s[0]] + Erase(s[1..], x)
  }

  /** No player is listed twice. */
  ghost predicate NoDup(s: seq<PlayerID>)
  {
    forall x :: x in multiset(s) ==> multiset(s)[x] == 1
  }

  // ---------------------------------------------------------------------------------
  // One open game

  /** The game `openGame` creates: named after its creator, who is its only player and
      is in the first team. */
  function NewGame(creator: PlayerID, creatorName: string, speed: int, rules: int, points: int): (g: OpenGame)
    ensures GameTidy(g) && g.creator == creator && g.connected == [creator]
    ensures g.speed == speed && g.rules == rules && g.points == points
    ensures creator in g.firstTeam && |g.secondTeam| == 0
  {
    OpenGame(creator, creatorName + "'s game", speed, rules, points, [creator], [creator], [])
  }

  /** `removePlayerFromGame` on one game. */
  function RemovedFrom(g: OpenGame, p: PlayerID): (r: OpenGame)
    ensures multiset(r.connected) == multiset(g.connected) - multiset{p}
    ensures multiset(r.firstTeam) == multiset(g.firstTeam) - multiset{p}
    ensures multiset(r.secondTeam) == multiset(g.secondTeam) - multiset{p}
    ensures r.creator == g.creator && r.name == g.name && r.speed == g.speed && r.rules == g.rules && r.points == g.points
  {
    g.(connected := Erase(g.connected, p), firstTeam := Erase(g.firstTeam, p),
       secondTeam := Erase(g.secondTeam, p))
  }

  /** `joinGame` on one game: the player joins the smaller team, the first one on a tie. */
  function Joined(g: OpenGame, p: PlayerID): (r: OpenGame)
    ensures r.connected == g.connected + [p]
    ensures |r.firstTeam| + |r.secondTeam| == |g.firstTeam| + |g.secondTeam| + 1
    ensures r.creator == g.creator && r.name == g.name && r.speed == g.speed && r.rules == g.rules && r.points == g.points
  {
    if |g.firstTeam| <= |g.secondTeam| then
      g.(connected := g.connected + [p], firstTeam := g.firstTeam + [p])
    else
      g.(connected := g.connected + [p], secondTeam := g.secondTeam + [p])
  }

  /** `changePlayerTeam` on one game. */
  function TeamChanged(g: OpenGame, p: PlayerID): (r: OpenGame)
    ensures r.connected == g.connected
    ensures p in g.firstTeam ==> p in r.secondTeam
    ensures p !in g.firstTeam ==> p in r.firstTeam
    ensures r.creator == g.creator && r.name == g.name && r.speed == g.speed && r.rules == g.rules && r.points == g.points
  {
    if p in g.firstTeam then
      g.(firstTeam := Erase(g.firstTeam, p), secondTeam := g.secondTeam + [p])
    else
      g.(secondTeam := Erase(g.secondTeam, p), firstTeam := g.firstTeam + [p])
  }

  /** A game is tidy when nobody is connected twice, its creator is connected, and the
      two teams together hold exactly the connected players. */
  ghost predicate GameTidy(g: OpenGame)
  {
    NoDup(g.connected) && g.creator in g.connected
    && multiset(g.firstTeam) + multiset(g.secondTeam) == multiset(g.connected)
  }

  /** In a tidy game each connected player is in exactly one team, once. */
  lemma TidyTeams(g: OpenGame, p: PlayerID)
    requires GameTidy(g) && p in g.connected
    ensures (p in g.firstTeam) != (p in g.secondTeam)
    ensures multiset(g.firstTeam)[p] + multiset(g.secondTeam)[p] == 1
  {
    assert multiset(g.connected)[p] == 1;
  }

  /** A tidy team assignment stays tidy when a player changes team, and the player
      ends up in the other team. */
  lemma TeamChangedTidy(g: OpenGame, p: PlayerID)
    requires GameTidy(g) && p in g.connected
    ensures GameTidy(TeamChanged(g, p))
    ensures p in TeamChanged(g, p).firstTeam <==> p !in g.firstTeam
    ensures p in TeamChanged(g, p).secondTeam <==> p !in g.secondTeam
    ensures TeamChanged(g, p).connected == g.connected
  {
    TidyTeams(g, p);
    var h := TeamChanged(g, p);
    if p in g.firstTeam {
      assert multiset(h.firstTeam)[p] == 0;
    } else {
      assert multiset(h.secondTeam)[p] == 0;
    }
  }

  /** Changing team twice puts the player back into its team. */
  lemma TeamChangedTwice(g: OpenGame, p: PlayerID)
    requires GameTidy(g) && p in g.connected
    ensures (p in TeamChanged(TeamChanged(g, p), p).firstTeam) == (p in g.firstTeam)
    ensures (p in TeamChanged(TeamChanged(g, p), p).secondTeam) == (p in g.secondTeam)
  {
    TeamChangedTidy(g, p);
    TeamChangedTidy(TeamChanged(g, p), p);
  }

  /** Erasing from a list without duplicates leaves it without duplicates and without
      the erased player. */
  lemma EraseNoDup(s: seq<PlayerID>, p: PlayerID)
    requires NoDup(s)
    ensures NoDup(Erase(s, p)) && p !in Erase(s, p)
    ensures forall x :: x in Erase(s, p) <==> x in s && x != p
  {
    var r: seq<PlayerID> := Erase(s, p);
    assert multiset(r)[p] == 0;
    forall x
      ensures x in r <==> x in s && x != p
    {
      assert x in r <==> x in multiset(r);
      assert x in s <==> x in multiset(s);
    }
  }

  /** Erasing a player from two teams takes it off their union once, if it was in the
      union once. */
  lemma EraseTeams(f: seq<PlayerID>, t: seq<PlayerID>, c: seq<PlayerID>, p: PlayerID)
    requires multiset(f) + multiset(t) == multiset(c) && multiset(c)[p] == 1
    ensures multiset(Erase(f, p)) + multiset(Erase(t, p)) == multiset(Erase(c, p))
  {
    if p in f {
      assert p !in multiset(t);
    } else {
      assert p !in multiset(f);
    }
  }

  /** Removing a connected player who is not the creator keeps the game tidy and leaves
      the player nowhere in it. */
  lemma RemovedFromTidy(g: OpenGame, p: PlayerID)
    requires GameTidy(g) && p in g.connected && p != g.creator
    ensures GameTidy(RemovedFrom(g, p))
    ensures p !in RemovedFrom(g, p).connected
    ensures p !in RemovedFrom(g, p).firstTeam && p !in RemovedFrom(g, p).secondTeam
    ensures forall x :: x in RemovedFrom(g, p).connected <==> x in g.connected && x != p
  {
    assert multiset(g.connected)[p] == 1;
    EraseNoDup(g.connected, p);
    EraseTeams(g.firstTeam, g.secondTeam, g.connected, p);
    var h := RemovedFrom(g, p);
    assert p !in multiset(h.firstTeam) by {
      assert multiset(h.firstTeam) + multiset(h.secondTeam) == multiset(h.connected);
    }
    assert p !in multiset(h.secondTeam) by {
      assert multiset(h.firstTeam) + multiset(h.secondTeam) == multiset(h.connected);
    }
  }

  /** A player who is in no team joins, and the game stays tidy. */
  lemma JoinedTidy(g: OpenGame, p: PlayerID)
    requires GameTidy(g) && p !in g.connected
    ensures GameTidy(Joined(g, p))
    ensures forall x :: x in Joined(g, p).connected <==> x in g.connected || x == p
  {
    assert multiset(g.connected)[p] == 0;
  }

  /** Joining never unbalances the teams: with `first` at most one larger than
      `second`, that stays true. */
  lemma JoinedBalance(g: OpenGame, p: PlayerID)
    requires |g.secondTeam| <= |g.firstTeam| <= |g.secondTeam| + 1
    ensures |Joined(g, p).secondTeam| <= |Joined(g, p).firstTeam| <= |Joined(g, p).secondTeam| + 1
    ensures |Joined(g, p).firstTeam| + |Joined(g, p).secondTeam| == |g.firstTeam| + |g.secondTeam| + 1
  {
  }

  /** The game after its creator opened it and the players `ps` joined in turn, with
      nobody leaving. */
  function JoinedAll(g: OpenGame, ps: seq<PlayerID>): OpenGame
  {
    if |ps| == 0 then g else Joined(JoinedAll(g, ps[..|ps| - 1]), ps[|ps| - 1])
  }

  /** In a game built by joins only, the teams alternate along the join order: the
      first team holds the players at even positions of `connected`, the second team
      those at odd positions. */
  lemma {:induction false} JoinOrderTeams(g: OpenGame, ps: seq<PlayerID>)
    requires g.connected == g.firstTeam == [g.creator] && g.secondTeam == []
    ensures JoinedAll(g, ps).connected == [g.creator] + ps
    ensures |JoinedAll(g, ps).firstTeam| == (|ps| + 2) / 2
    ensures |JoinedAll(g, ps).secondTeam| == (|ps| + 1) / 2
    ensures forall j :: 0 <= j < |JoinedAll(g, ps).firstTeam| ==>
              JoinedAll(g, ps).firstTeam[j] == JoinedAll(g, ps).connected[2 * j]
    ensures forall j :: 0 <= j < |JoinedAll(g, ps).secondTeam| ==>
              JoinedAll(g, ps).secondTeam[j] == JoinedAll(g, ps).connected[2 * j + 1]
  {
    if |ps| > 0 {
      var qs := ps[..|ps| - 1];
      JoinOrderTeams(g, qs);
      var h := JoinedAll(g, qs);
      assert [g.creator] + ps == ([g.creator] + qs) + [ps[|ps| - 1]];
      if |h.firstTeam| <= |h.secondTeam| {
        assert |qs| % 2 == 1;
      } else {
        assert |qs| % 2 == 0;
      }
    }
  }

  // ---------------------------------------------------------------------------------
  // The map of open games

  /** The least element of a finite set of keys. */
  ghost function MinOf(S: set<nat>): (m: nat)
    requires S != {}
    ensures m in S && forall x :: x in S ==> m <= x
    decreases S
  {
    var x :| x in S;
    if S == {x} then x
    else
      var m := MinOf(S - {x});
      assert forall y :: y in S ==> y == x || y in S - {x};
      if x < m then x else m
  }

  /** The first key, in `std::map` order, of the keys in `S`. */
  ghost function FirstKey(S: set<nat>): (r: Option<nat>)
    ensures r.None? <==> S == {}
    ensures r.Some? ==> r.value in S && forall x :: x in S ==> r.value <= x
  {
    if S == {} then None else Some(MinOf(S))
  }

  lemma FirstKeyIs(S: set<nat>, k: nat)
    requires k in S && forall x :: x in S ==> k <= x
    ensures FirstKey(S) == Some(k)
  {
  }

  /** The first game, in key order, that `p` created (`std::find_if` on the creator). */
  ghost function CreatedBy(games: map<nat, OpenGame>, p: PlayerID): (r: Option<nat>)
    ensures r.Some? ==> r.value in games && games[r.value].creator == p
    ensures r.Some? ==> forall k :: k in games && games[k].creator == p ==> r.value <= k
    ensures r.None? ==> forall k :: k in games ==> games[k].creator != p
  {
    var S := set k | k in games && games[k].creator == p;
    var r := FirstKey(S);
    assert forall k :: k in games && games[k].creator == p ==> k in S;
    r
  }

  /** The first game, in key order, that `p` is connected to. */
  ghost function GameWith(games: map<nat, OpenGame>, p: PlayerID): (r: Option<nat>)
    ensures r.Some? ==> r.value in games && p in games[r.value].connected
    ensures r.Some? ==> forall k :: k in games && p in games[k].connected ==> r.value <= k
    ensures r.None? ==> forall k :: k in games ==> p !in games[k].connected
  {
    var S := set k | k in games && p in games[k].connected;
    var r := FirstKey(S);
    assert forall k :: k in games && p in games[k].connected ==> k in S;
    r
  }

  /** The second half of `removePlayerFromAllGames`, on one game. */
  function LeftGame(g: OpenGame, p: PlayerID): OpenGame
  {
    if p in g.connected then RemovedFrom(g, p) else g
  }

  /** `removePlayerFromAllGames`: the first game the player created is removed, then
      the player leaves every other game it is connected to. */
  ghost function WithoutPlayer(games: map<nat, OpenGame>, p: PlayerID): (r: map<nat, OpenGame>)
    ensures r.Keys <= games.Keys
    ensures forall k :: k in games && k !in r <==> CreatedBy(games, p) == Some(k)
  {
    var rest := if CreatedBy(games, p).Some? then games - {CreatedBy(games, p).value} else games;
    map k | k in rest :: LeftGame(rest[k], p)
  }

  /** Every game is tidy and no player is connected to two games. */
  ghost predicate GamesTidy(games: map<nat, OpenGame>)
  {
    (forall k :: k in games ==> GameTidy(games[k]))
    && (forall k1, k2, x :: k1 in games && k2 in games && k1 != k2 && x in games[k1].connected
          ==> x !in games[k2].connected)
  }

  /** Every connected player is a known lobby player. */
  ghost predicate Known(games: map<nat, OpenGame>, players: map<PlayerID, PlayerInfo>)
  {
    forall k, x :: k in games && x in games[k].connected ==> x in players
  }

  /** The invariant the lobby operations keep. */
  ghost predicate Tidy(l: Lobby)
  {
    GamesTidy(l.games) && Known(l.games, l.players)
  }

  /** In tidy games a player has created at most one game, so that game is the one
      `find_if` finds. */
  lemma CreatorUnique(games: map<nat, OpenGame>, k: nat)
    requires GamesTidy(games) && k in games
    ensures CreatedBy(games, games[k].creator) == Some(k)
  {
    var p := games[k].creator;
    var S := set k' | k' in games && games[k'].creator == p;
    forall k' | k' in S
      ensures k' == k
    {
      assert p in games[k'].connected;
    }
    FirstKeyIs(S, k);
  }

  /** After `removePlayerFromAllGames` on tidy games, the games are tidy, the player is
      in no game and created none, and the other players' memberships are unchanged. */
  lemma WithoutPlayerTidy(games: map<nat, OpenGame>, p: PlayerID)
    requires GamesTidy(games)
    ensures GamesTidy(WithoutPlayer(games, p))
    ensures forall k :: k in WithoutPlayer(games, p) ==>
              p !in WithoutPlayer(games, p)[k].connected && WithoutPlayer(games, p)[k].creator != p
    ensures forall k, x :: k in WithoutPlayer(games, p) && x != p ==>
              (x in WithoutPlayer(games, p)[k].connected <==> x in games[k].connected)
  {
    var r := WithoutPlayer(games, p);
    forall k | k in r
      ensures GameTidy(r[k]) && p !in r[k].connected && r[k].creator != p
      ensures forall x :: x in r[k].connected <==> x in games[k].connected && x != p
    {
      var g := games[k];
      assert r[k] == LeftGame(g, p);
      if g.creator == p {
        CreatorUnique(games, k);
        assert false;
      }
      if p in g.connected {
        RemovedFromTidy(g, p);
      }
    }
  }

  /** `removePlayerFromAllGames` as a lobby operation. */
  ghost function LeftAll(l: Lobby, p: PlayerID): (r: Lobby)
    ensures r.players == l.players && r.counter == l.counter && r.allowNewGames == l.allowNewGames
    ensures r.games.Keys <= l.games.Keys
  {
    l.(games := WithoutPlayer(l.games, p))
  }

  /** `removePlayer`: out of every game, then out of the player map. */
  ghost function RemovedPlayer(l: Lobby, p: PlayerID): (r: Lobby)
    ensures r.players.Keys == l.players.Keys - {p} && r.counter == l.counter && r.allowNewGames == l.allowNewGames
    ensures r.games.Keys <= l.games.Keys
  {
    l.(games := WithoutPlayer(l.games, p), players := l.players - {p})
  }

  /** `removePlayer` for each of `ps` in turn. */
  ghost function RemovedPlayers(l: Lobby, ps: seq<PlayerID>): Lobby
  {
    if |ps| == 0 then l else RemovedPlayer(RemovedPlayers(l, ps[..|ps| - 1]), ps[|ps| - 1])
  }

  /** `joinGame`: the player leaves all games; if it is still a known player and the
      game still exists, it joins that game. */
  ghost function JoinedGame(l: Lobby, p: PlayerID, id: nat): (r: Lobby)
    ensures r.players == l.players && r.counter == l.counter && r.allowNewGames == l.allowNewGames
    ensures r.games.Keys <= l.games.Keys
  {
    var games := WithoutPlayer(l.games, p);
    if p !in l.players || id !in games then l.(games := games)
    else l.(games := games[id := Joined(games[id], p)])
  }

  /** `changePlayerTeam`: the first game the player is connected to, if any. */
  ghost function ChangedTeam(l: Lobby, p: PlayerID): (r: Lobby)
    ensures r.players == l.players && r.counter == l.counter && r.games.Keys == l.games.Keys
    ensures forall k :: k in l.games ==> r.games[k].connected == l.games[k].connected
  {
    match GameWith(l.games, p)
    case None => l
    case Some(k) => l.(games := l.games[k := TeamChanged(l.games[k], p)])
  }

  /** After `removePlayer` the player is unknown and connected nowhere, and the lobby is
      still tidy. */
  lemma RemovedPlayerTidy(l: Lobby, p: PlayerID)
    requires Tidy(l)
    ensures Tidy(RemovedPlayer(l, p))
    ensures p !in RemovedPlayer(l, p).players
    ensures forall k :: k in RemovedPlayer(l, p).games ==> p !in RemovedPlayer(l, p).games[k].connected
  {
    WithoutPlayerTidy(l.games, p);
    WithoutPlayerKnown(l.games, l.players, p);
  }

  /** Joining keeps the lobby tidy, and a known player who joins an existing game is then
      connected to that game and no other. */
  lemma JoinedGameTidy(l: Lobby, p: PlayerID, id: nat)
    requires Tidy(l)
    ensures Tidy(JoinedGame(l, p, id))
    ensures p in l.players && id in WithoutPlayer(l.games, p) ==>
              forall k :: k in JoinedGame(l, p, id).games ==>
                (p in JoinedGame(l, p, id).games[k].connected <==> k == id)
  {
    WithoutPlayerTidy(l.games, p);
    WithoutPlayerKnown(l.games, l.players, p);
    var games := WithoutPlayer(l.games, p);
    if p in l.players && id in games {
      JoinedTidy(games[id], p);
      JoinAtTidy(games, p, id);
      JoinAtKnown(games, l.players, p, id);
      var r := games[id := Joined(games[id], p)];
      assert JoinedGame(l, p, id) == l.(games := r);
      forall k | k in r
        ensures p in r[k].connected <==> k == id
      {
        if k != id {
          assert r[k] == games[k];
        }
      }
    } else {
      assert JoinedGame(l, p, id) == l.(games := games);
    }
  }

  /** Leaving all games keeps every connected player known, even once the leaving
      player is forgotten. */
  lemma WithoutPlayerKnown(games: map<nat, OpenGame>, players: map<PlayerID, PlayerInfo>, p: PlayerID)
    requires GamesTidy(games) && Known(games, players)
    ensures Known(WithoutPlayer(games, p), players)
    ensures Known(WithoutPlayer(games, p), players - {p})
  {
    WithoutPlayerTidy(games, p);
  }

  /** A known player joins: everyone connected stays known. */
  lemma JoinAtKnown(games: map<nat, OpenGame>, players: map<PlayerID, PlayerInfo>, p: PlayerID, id: nat)
    requires Known(games, players) && id in games && p in players
    requires forall x :: x in Joined(games[id], p).connected <==> x in games[id].connected || x == p
    ensures Known(games[id := Joined(games[id], p)], players)
  {
  }

  /** A player connected nowhere joins one of tidy games. */
  lemma JoinAtTidy(games: map<nat, OpenGame>, p: PlayerID, id: nat)
    requires GamesTidy(games) && id in games
    requires forall k :: k in games ==> p !in games[k].connected
    requires GameTidy(Joined(games[id], p))
    requires forall x :: x in Joined(games[id], p).connected <==> x in games[id].connected || x == p
    ensures GamesTidy(games[id := Joined(games[id], p)])
  {
  }

  /** Changing team keeps the lobby tidy and moves the player to the other team of its
      game. */
  lemma ChangedTeamTidy(l: Lobby, p: PlayerID)
    requires Tidy(l)
    ensures Tidy(ChangedTeam(l, p))
    ensures GameWith(l.games, p).Some? ==>
              var k := GameWith(l.games, p).value;
              (p in ChangedTeam(l, p).games[k].firstTeam <==> p !in l.games[k].firstTeam)
  {
    match GameWith(l.games, p)
    case None =>
    case Some(k) =>
      TeamChangedTidy(l.games[k], p);
      ReplacedTidy(l.games, l.players, k, TeamChanged(l.games[k], p));
  }

  /** Replacing a game by a tidy one with the same players keeps the lobby tidy. */
  lemma ReplacedTidy(games: map<nat, OpenGame>, players: map<PlayerID, PlayerInfo>, k: nat, h: OpenGame)
    requires GamesTidy(games) && Known(games, players) && k in games
    requires GameTidy(h) && h.connected == games[k].connected
    ensures GamesTidy(games[k := h]) && Known(games[k := h], players)
  {
  }

  /** Opening a game: the creator leaves all games, then its new game is stored under a
      free ID. The lobby stays tidy. */
  lemma OpenedTidy(l: Lobby, creator: PlayerID, id: nat, speed: int, rules: int, points: int)
    requires Tidy(l) && creator in l.players && id !in WithoutPlayer(l.games, creator)
    ensures Tidy(l.(games := WithoutPlayer(l.games, creator)[id := NewGame(creator, l.players[creator].name, speed, rules, points)]))
  {
    WithoutPlayerTidy(l.games, creator);
    WithoutPlayerKnown(l.games, l.players, creator);
    var g := NewGame(creator, l.players[creator].name, speed, rules, points);
    assert multiset(g.connected)[creator] == 1;
    AddedTidy(WithoutPlayer(l.games, creator), l.players, id, g);
  }

  /** A tidy game whose players are known and in no other game is added under a fresh
      key. */
  lemma AddedTidy(games: map<nat, OpenGame>, players: map<PlayerID, PlayerInfo>, id: nat, g: OpenGame)
    requires GamesTidy(games) && Known(games, players) && id !in games && GameTidy(g)
    requires forall x :: x in g.connected ==> x in players
    requires forall k, x :: k in games && x in g.connected ==> x !in games[k].connected
    ensures GamesTidy(games[id := g]) && Known(games[id := g], players)
  {
  }

  /** `removePlayer` for several players keeps the lobby tidy; afterwards none of them
      is known or connected anywhere, and no game they created is left. */
  lemma {:induction false} RemovedPlayersTidy(l: Lobby, ps: seq<PlayerID>)
    requires Tidy(l)
    ensures Tidy(RemovedPlayers(l, ps))
    ensures RemovedPlayers(l, ps).games.Keys <= l.games.Keys
    ensures forall x :: x in ps ==> x !in RemovedPlayers(l, ps).players
    ensures forall k, x :: k in RemovedPlayers(l, ps).games && x in ps ==>
              x !in RemovedPlayers(l, ps).games[k].connected
    ensures forall k :: k in RemovedPlayers(l, ps).games ==> RemovedPlayers(l, ps).games[k].creator !in ps
  {
    if |ps| > 0 {
      var qs := ps[..|ps| - 1];
      var p := ps[|ps| - 1];
      RemovedPlayersTidy(l, qs);
      var l1 := RemovedPlayers(l, qs);
      RemovedPlayerTidy(l1, p);
      WithoutPlayerTidy(l1.games, p);
      var l2 := RemovedPlayers(l, ps);
      assert l2 == RemovedPlayer(l1, p);
      forall k, x | k in l2.games && x in ps
        ensures x !in l2.games[k].connected
      {
        if x != p {
          assert x in qs;
        }
      }
      forall k | k in l2.games
        ensures l2.games[k].creator !in ps
      {
        assert GameTidy(l2.games[k]);
      }
    }
  }

  // ---------------------------------------------------------------------------------
  // Allocation of game IDs

  /** No key exceeds the 32-bit range of `unsigned`. */
  ghost predicate IdsFit(games: map<nat, OpenGame>)
  {
    forall k :: k in games ==> k < TWO_32
  }

  /** How many increments of the wrapping 32-bit counter lead from `from` to `to`. */
  function Dist(from: nat, to: nat): (d: nat)
    requires from < TWO_32 && to < TWO_32
    ensures d < TWO_32
    ensures d == 0 <==> from == to
  {
    if to >= from then to - from else to + TWO_32 - from
  }

  /** `++` on a 32-bit `unsigned`. */
  function NextId(c: nat): (r: nat)
    requires c < TWO_32
    ensures r < TWO_32
    ensures r == (c + 1) % TWO_32
  {
    if c == TWO_32 - 1 then 0 else c + 1
  }

  /** `id` is the first free ID the counter reaches from `c`. */
  ghost predicate FirstFreeFrom(games: map<nat, OpenGame>, c: nat, id: nat)
    requires c < TWO_32
  {
    id < TWO_32 && id !in games
    && forall j :: 0 <= j < TWO_32 && Dist(c, j) < Dist(c, id) ==> j in games
  }

  /** The IDs `0 .. n - 1`. */
  function Range(n: nat): (r: set<nat>)
    ensures forall i: nat :: i in r <==> i < n
    ensures |r| == n
  {
    if n == 0 then {}
    else
      assert n - 1 !in Range(n - 1);
      Range(n - 1) + {n - 1}
  }

  lemma SubsetCard(a: set<nat>, b: set<nat>)
    requires a <= b
    ensures |a| <= |b|
  {
    assert b == a + (b - a);
  }

  /** Fewer than `n` keys leave a key below `n` free. */
  lemma FreeBelow(keys: set<nat>, n: nat) returns (j: nat)
    requires |keys| < n
    ensures j < n && j !in keys
  {
    var R := Range(n);
    var D := R - keys;
    SubsetCard(R * keys, keys);
    assert R == D + R * keys;
    j :| j in D;
  }

  /** With fewer than 2^32 games some 32-bit ID is free. */
  lemma FreeIdExists(games: map<nat, OpenGame>) returns (j: nat)
    requires |games| < TWO_32
    ensures j < TWO_32 && j !in games
  {
    assert |games.Keys| == |games|;
    j := FreeBelow(games.Keys, TWO_32);
  }

  /** One step of the counter's walk over a taken ID comes one step nearer to the
      free ID. */
  lemma DistStep(games: map<nat, OpenGame>, c: nat, x: nat, free: nat)
    requires c < TWO_32 && x < TWO_32 && free < TWO_32
    requires x in games && free !in games && Dist(c, x) <= Dist(c, free)
    ensures Dist(c, x) < Dist(c, free)
    ensures Dist(c, NextId(x)) == Dist(c, x) + 1
    ensures forall j :: 0 <= j < TWO_32 && Dist(c, j) == Dist(c, x) ==> j == x
  {
  }

  /** The first free ID is well defined. */
  lemma FirstFreeUnique(games: map<nat, OpenGame>, c: nat, a: nat, b: nat)
    requires c < TWO_32 && FirstFreeFrom(games, c, a) && FirstFreeFrom(games, c, b)
    ensures a == b
  {
  }

  /** When some ID at or above the counter is free, the counter does not wrap: the ID
      found is the least free one at or above it. */
  lemma FirstFreeNoWrap(games: map<nat, OpenGame>, c: nat, id: nat, free: nat)
    requires c < TWO_32 && FirstFreeFrom(games, c, id)
    requires c <= free < TWO_32 && free !in games
    ensures c <= id <= free
    ensures forall j :: c <= j < id ==> j in games
  {
    assert Dist(c, id) <= Dist(c, free);
    forall j | c <= j < id
      ensures j in games
    {
      assert Dist(c, j) < Dist(c, id);
    }
  }

  /** `std::find_if` over the ordered map: the least key of `S`, or none. */
  method FindFirst(S: set<nat>) returns (r: Option<nat>)
    ensures r == FirstKey(S)
  {
    r := None;
    var rest := S;
    while rest != {}
      invariant rest <= S
      invariant r.None? ==> rest == S
      invariant r.Some? ==> r.value in S && r.value !in rest
      invariant r.Some? ==> forall x :: x in S && x !in rest ==> r.value <= x
      decreases rest
    {
      var x :| x in rest;
      if r.None? || x < r.value {
        r := Some(x);
      }
      rest := rest - {x};
    }
    if r.Some? {
      FirstKeyIs(S, r.value);
    }
  }

  // ---------------------------------------------------------------------------------
  // Slot assignment on start

  /** The player `startGame` puts into slot `i`: the first team fills the even slots,
      the second team the odd ones, each in list order. */
  function SlotMember(g: OpenGame, i: nat): Option<PlayerID>
  {
    var team := if i % 2 == 0 then g.firstTeam else g.secondTeam;
    if i / 2 < |team| then Some(team[i / 2]) else None
  }

  /** What the request of `startGame` holds for game `g`. */
  ghost predicate AssignsSlots(g: OpenGame, players: map<PlayerID, PlayerInfo>, r: GameRequest)
  {
    |r.players| == MAX_PLAYERS && |r.enabled| == MAX_PLAYERS && |r.switchSide| == MAX_PLAYERS
    && r.rules == g.rules && r.points == g.points && r.speed == g.speed
    && forall i :: 0 <= i < MAX_PLAYERS ==>
         r.players[i] == SlotMember(g, i) && (r.enabled[i] <==> SlotMember(g, i).Some?)
         && (r.switchSide[i] <==>
               SlotMember(g, i).Some? && SlotMember(g, i).value in players
               && players[SlotMember(g, i).value].desiredSide == (if i % 2 == 0 then RIGHT_SIDE else LEFT_SIDE))
  }

  /** What `startGame` asserts about the host's game. */
  ghost predicate Startable(g: OpenGame, players: map<PlayerID, PlayerInfo>)
  {
    |g.firstTeam| <= MAX_PLAYERS / 2 && |g.secondTeam| <= MAX_PLAYERS / 2
    && (forall x :: x in g.firstTeam ==> x in players)
    && (forall x :: x in g.secondTeam ==> x in players)
  }

  /** In a tidy lobby every team member is a known player, so `startGame`'s lookups
      succeed. */
  lemma TidyMembersKnown(l: Lobby, k: nat, x: PlayerID)
    requires Tidy(l) && k in l.games
    requires x in l.games[k].firstTeam || x in l.games[k].secondTeam
    ensures x in l.players
  {
    var g := l.games[k];
    assert x in multiset(g.firstTeam) + multiset(g.secondTeam);
    assert x in multiset(g.connected);
  }

  /** In a game built by joins only, slot `i` goes to the `i`-th connected player. */
  lemma JoinOrderSlots(g: OpenGame, ps: seq<PlayerID>, i: nat)
    requires g.connected == g.firstTeam == [g.creator] && g.secondTeam == []
    requires i < MAX_PLAYERS
    ensures SlotMember(JoinedAll(g, ps), i) ==
              if i <= |ps| then Some(([g.creator] + ps)[i]) else None
  {
    JoinOrderTeams(g, ps);
    var h := JoinedAll(g, ps);
    if i % 2 == 0 {
      if i / 2 < |h.firstTeam| {
        assert h.firstTeam[i / 2] == h.connected[2 * (i / 2)];
      }
    } else {
      if i / 2 < |h.secondTeam| {
        assert h.secondTeam[i / 2] == h.connected[2 * (i / 2) + 1];
      }
    }
  }

  // ---------------------------------------------------------------------------------
  // The match maker

  class MatchMaker {
    var openGames: map<nat, OpenGame>
    var idCounter: nat
    var playerMap: map<PlayerID, PlayerInfo>
    var allowNewGames: bool

    ghost predicate Valid()
      reads this
    {
      idCounter < TWO_32 && IdsFit(openGames)
    }

    function Value(): Lobby
      reads this
    {
      Lobby(openGames, idCounter, playerMap, allowNewGames)
    }

    /** An empty lobby; the counter's and the flag's initial values are parameters. */
    constructor(counter: nat, allowNew: bool)
      requires counter < TWO_32
      ensures Valid() && Value() == Lobby(map[], counter, map[], allowNew)
      ensures Tidy(Value())
    {
      openGames := map[];
      idCounter := counter;
      playerMap := map[];
      allowNewGames := allowNew;
    }

    method SetAllowNewGames(allow: bool)
      modifies this
      ensures Value() == old(Value()).(allowNewGames := allow)
    {
      allowNewGames := allow;
    }

    /** `addGame`: the counter walks, wrapping at 2^32, to the first free ID, which the
        game is stored under and returned. Fewer than 2^32 games keep the walk finite. */
    method AddGame(game: OpenGame) returns (id: nat)
      requires Valid() && |openGames| < TWO_32
      modifies this
      ensures Valid()
      ensures FirstFreeFrom(old(openGames), old(idCounter), id)
      ensures Value() == old(Value()).(games := old(openGames)[id := game], counter := id)
    {
      ghost var c0 := idCounter;
      ghost var free := FreeIdExists(openGames);
      while idCounter in openGames
        invariant openGames == old(openGames) && playerMap == old(playerMap)
        invariant allowNewGames == old(allowNewGames)
        invariant idCounter < TWO_32
        invariant Dist(c0, idCounter) <= Dist(c0, free)
        invariant forall j :: 0 <= j < TWO_32 && Dist(c0, j) < Dist(c0, idCounter) ==> j in openGames
        decreases Dist(c0, free) - Dist(c0, idCounter)
      {
        DistStep(openGames, c0, idCounter, free);
        idCounter := NextId(idCounter);
      }
      openGames := openGames[idCounter := game];
      id := idCounter;
    }

    /** `removeGame`, which asserts that the game exists. */
    method RemoveGame(id: nat)
      requires Valid() && id in openGames
      modifies this
      ensures Valid()
      ensures Value() == old(Value()).(games := old(openGames) - {id})
    {
      openGames := openGames - {id};
    }

    /** `removePlayerFromGame`, which asserts that the game exists and the player is
        connected to it. */
    method RemovePlayerFromGame(game: nat, player: PlayerID)
      requires Valid() && game in openGames && player in openGames[game].connected
      modifies this
      ensures Valid()
      ensures Value() == old(Value()).(games := old(openGames)[game := RemovedFrom(old(openGames)[game], player)])
    {
      openGames := openGames[game := RemovedFrom(openGames[game], player)];
    }

    /** `removePlayerFromAllGames`. */
    method RemovePlayerFromAllGames(player: PlayerID)
      requires Valid()
      modifies this
      ensures Valid()
      ensures Value() == LeftAll(old(Value()), player)
    {
      var S := set k | k in openGames && openGames[k].creator == player;
      assert S == set k | k in old(openGames) && old(openGames)[k].creator == player;
      var created := FindFirst(S);
      if created.Some? {
        RemoveGame(created.value);
      }
      LeaveGames(player);
    }

    /** The loop of `removePlayerFromAllGames`: the player leaves every game it is
        connected to. */
    method LeaveGames(player: PlayerID)
      requires Valid()
      modifies this
      ensures Valid()
      ensures Value() == old(Value()).(games := map k | k in old(openGames) :: LeftGame(old(openGames)[k], player))
    {
      ghost var g0 := openGames;
      var keys := openGames.Keys;
      while keys != {}
        invariant Valid()
        invariant idCounter == old(idCounter) && playerMap == old(playerMap)
        invariant allowNewGames == old(allowNewGames)
        invariant keys <= g0.Keys && openGames.Keys == g0.Keys
        invariant forall k :: k in g0 ==> openGames[k] == if k in keys then g0[k] else LeftGame(g0[k], player)
        decreases keys
      {
        var k :| k in keys;
        if player in openGames[k].connected {
          RemovePlayerFromGame(k, player);
        }
        keys := keys - {k};
      }
      assert openGames == map k | k in g0 :: LeftGame(g0[k], player);
    }

    /** `addPlayer`, which asserts that the ID is new. */
    method AddPlayer(id: PlayerID, info: PlayerInfo)
      requires id !in playerMap
      modifies this
      ensures Value() == old(Value()).(players := old(playerMap)[id := info])
    {
      playerMap := playerMap[id := info];
    }

    /** `removePlayer`; an unknown ID is allowed. */
    method RemovePlayer(id: PlayerID)
      requires Valid()
      modifies this
      ensures Valid()
      ensures Value() == RemovedPlayer(old(Value()), id)
    {
      RemovePlayerFromAllGames(id);
      playerMap := playerMap - {id};
    }

    /** `openGame`: refused with `INVALID_GAME` when new games are disabled or the creator
        is unknown; otherwise the creator leaves all games and its new game is added. */
    method OpenGame(creator: PlayerID, speed: int, rules: int, points: int) returns (id: nat)
      requires Valid() && |openGames| < TWO_32
      modifies this
      ensures Valid()
      ensures !old(allowNewGames) || creator !in old(playerMap) ==>
                id == INVALID_GAME && Value() == old(Value())
      ensures old(allowNewGames) && creator in old(playerMap) ==>
                FirstFreeFrom(WithoutPlayer(old(openGames), creator), old(idCounter), id)
                && Value() == old(Value()).(counter := id,
                     games := WithoutPlayer(old(openGames), creator)[id :=
                       NewGame(creator, old(playerMap)[creator].name, speed, rules, points)])
    {
      if !allowNewGames {
        return INVALID_GAME;
      }
      if creator !in playerMap {
        return INVALID_GAME;
      }
      var newgame := NewGame(creator, playerMap[creator].name, speed, rules, points);
      RemovePlayerFromAllGames(creator);
      SubsetCard(openGames.Keys, old(openGames).Keys);
      assert |openGames.Keys| == |openGames| && |old(openGames).Keys| == |old(openGames)|;
      id := AddGame(newgame);
    }

    /** `joinGame`. */
    method JoinGame(player: PlayerID, gameID: nat)
      requires Valid()
      modifies this
      ensures Valid()
      ensures Value() == JoinedGame(old(Value()), player, gameID)
    {
      RemovePlayerFromAllGames(player);
      if player !in playerMap {
        return;
      }
      if gameID !in openGames {
        return;
      }
      openGames := openGames[gameID := Joined(openGames[gameID], player)];
    }

    /** `changePlayerTeam`. */
    method ChangePlayerTeam(player: PlayerID)
      requires Valid()
      modifies this
      ensures Valid()
      ensures Value() == ChangedTeam(old(Value()), player)
    {
      var found := FindFirst(set k | k in openGames && player in openGames[k].connected);
      if found.Some? {
        var k := found.value;
        openGames := openGames[k := TeamChanged(openGames[k], player)];
      }
    }

    /** The slot loops of `startGame`. */
    method AssignSlots(g: OpenGame) returns (r: GameRequest)
      requires Startable(g, playerMap)
      ensures AssignsSlots(g, playerMap, r)
    {
      var players: seq<Option<PlayerID>> := [None, None, None, None];
      var enabled := [false, false, false, false];
      var switchSide := [false, false, false, false];
      var num := 0;
      var j := 0;
      while j < |g.firstTeam|
        invariant 0 <= j <= |g.firstTeam| && num == 2 * j
        invariant |players| == |enabled| == |switchSide| == MAX_PLAYERS
        invariant forall i :: 0 <= i < MAX_PLAYERS ==>
                    if i % 2 == 0 && i / 2 < j then
                      players[i] == SlotMember(g, i) && enabled[i]
                      && (switchSide[i] <==> playerMap[g.firstTeam[i / 2]].desiredSide == RIGHT_SIDE)
                    else
                      players[i] == None && !enabled[i] && !switchSide[i]
      {
        var found := playerMap[g.firstTeam[j]];
        players := players[num := Some(g.firstTeam[j])];
        switchSide := switchSide[num := found.desiredSide == RIGHT_SIDE];
        enabled := enabled[num := true];
        num := num + 2;
        j := j + 1;
      }
      num := 1;
      j := 0;
      while j < |g.secondTeam|
        invariant 0 <= j <= |g.secondTeam| && num == 2 * j + 1
        invariant |players| == |enabled| == |switchSide| == MAX_PLAYERS
        invariant forall i :: 0 <= i < MAX_PLAYERS ==>
                    if i % 2 == 0 then
                      if i / 2 < |g.firstTeam| then
                        players[i] == SlotMember(g, i) && enabled[i]
                        && (switchSide[i] <==> playerMap[g.firstTeam[i / 2]].desiredSide == RIGHT_SIDE)
                      else
                        players[i] == None && !enabled[i] && !switchSide[i]
                    else if i / 2 < j then
                      players[i] == SlotMember(g, i) && enabled[i]
                      && (switchSide[i] <==> playerMap[g.secondTeam[i / 2]].desiredSide == LEFT_SIDE)
                    else
                      players[i] == None && !enabled[i] && !switchSide[i]
      {
        var found := playerMap[g.secondTeam[j]];
        players := players[num := Some(g.secondTeam[j])];
        switchSide := switchSide[num := found.desiredSide == LEFT_SIDE];
        enabled := enabled[num := true];
        num := num + 2;
        j := j + 1;
      }
      r := GameRequest(players, enabled, switchSide, g.rules, g.points, g.speed);
    }

    /** `startGame`: nothing when the host has no game; otherwise the slots are
        assigned, and when the rules and speed lookups then throw nothing else happens;
        otherwise the request for the host's game, after which every connected player
        is removed from the lobby. `rulesCount` and `speedsCount` are the lengths of
        the rules-file and speed lists. */
    method StartGame(host: PlayerID, rulesCount: nat, speedsCount: nat) returns (outcome: StartOutcome)
      requires Valid()
      requires CreatedBy(openGames, host).Some? ==>
                 Startable(openGames[CreatedBy(openGames, host).value], playerMap)
      modifies this
      ensures Valid()
      ensures CreatedBy(old(openGames), host).None? ==> outcome == NoSuchGame && Value() == old(Value())
      ensures CreatedBy(old(openGames), host).Some? ==>
                var g := old(openGames)[CreatedBy(old(openGames), host).value];
                if LookupsSucceed(g, rulesCount, speedsCount) then
                  outcome.Requested? && AssignsSlots(g, old(playerMap), outcome.request)
                  && Value() == RemovedPlayers(old(Value()), g.connected)
                else
                  outcome == LookupFailed && Value() == old(Value())
    {
      var S := set k | k in openGames && openGames[k].creator == host;
      assert S == set k | k in old(openGames) && old(openGames)[k].creator == host;
      var found := FindFirst(S);
      if found.None? {
        return NoSuchGame;
      }
      var g := openGames[found.value];
      var r := AssignSlots(g);
      if !(0 <= g.rules < rulesCount && 0 <= g.speed < speedsCount) {
        return LookupFailed;
      }
      outcome := Requested(r);
      RemovePlayers(g.connected);
    }

    /** The last loop of `startGame`: `removePlayer` for each of `ps`, which is a copy
        of the host game's `connected` list. */
    method RemovePlayers(ps: seq<PlayerID>)
      requires Valid()
      modifies this
      ensures Valid()
      ensures Value() == RemovedPlayers(old(Value()), ps)
    {
      ghost var start := Value();
      var i := 0;
      while i < |ps|
        invariant 0 <= i <= |ps|
        invariant Valid() && Value() == RemovedPlayers(start, ps[..i])
      {
        ghost var done := ps[..i + 1];
        assert done[..i] == ps[..i] && done[i] == ps[i];
        assert RemovedPlayers(start, done) == RemovedPlayer(RemovedPlayers(start, ps[..i]), ps[i]);
        RemovePlayer(ps[i]);
        i := i + 1;
      }
      assert ps[..|ps|] == ps;
    }
  }
}
