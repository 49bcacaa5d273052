/** The replay loader for format 2.x (src/replays/ReplayLoader.cpp): reading a saved
    replay document back into fields, seeking to a save point, and unpacking the
    inputs of one byte. */
module ReplayLoaders {
  import opened Common
  import Numerals
  import opened ReplayRecorders

  /** The loader's fields. The `unsigned int` ones are kept as values below 2^32. */
  datatype LoaderSnap = LoaderSnap(
    buffer: seq<bv8>,
    savePoints: seq<SavePoint>,
    playerNames: seq<string>,
    playerColors: seq<int>,
    playersEnabled: seq<bool>,
    leftScore: nat,
    rightScore: nat,
    gameSpeed: nat,
    gameDate: nat,
    gameLength: nat,
    gameDuration: nat,
    playersCount: nat,
    bytesPerStep: nat,
    rules: string,
    formatVersion: UChar)
  {
    predicate WellFormed() {
      |playerNames| == MAX_PLAYERS && |playerColors| == MAX_PLAYERS && |playersEnabled| == MAX_PLAYERS
    }
  }

  /** A freshly made loader: empty names and containers; the plain fields, which the
      source leaves uninitialised, are taken as zero. */
  function Fresh(): (s: LoaderSnap)
    ensures s.WellFormed()
  {
    LoaderSnap([], [], seq(MAX_PLAYERS, _ => ""), seq(MAX_PLAYERS, _ => 0), seq(MAX_PLAYERS, _ => false),
               0, 0, 0, 0, 0, 0, 0, 0, "", 0)
  }

  // ---------------------------------------------------------------------------
  // initLoading

  /** An attribute's text; a missing attribute leaves the `std::string` empty. */
  function AttrText(a: Option<string>): string
  {
    if a.Some? then a.value else ""
  }

  /** The slot loop for an attribute that is none of the fixed names: the first slot
      from slot i on whose `name_` or `color_` attribute it is takes the value, and a
      color that does not parse throws. */
  function SetPlayerVar(s: LoaderSnap, name: string, value: string, prefix: int -> string, i: nat): (r: Option<LoaderSnap>)
    requires s.WellFormed() && i <= MAX_PLAYERS
    ensures r.Some? ==> r.value.WellFormed()
    decreases MAX_PLAYERS - i
  {
    if i == MAX_PLAYERS then Some(s)
    else if name == "name_" + prefix(i) then Some(s.(playerNames := s.playerNames[i := value]))
    else if name == "color_" + prefix(i) then
      match Numerals.Stoi(value)
      case None => None
      case Some(c) => Some(s.(playerColors := s.playerColors[i := c]))
    else SetPlayerVar(s, name, value, prefix, i + 1)
  }

  /** The attribute names of the match values. */
  predicate IsFixedName(name: string)
  {
    name == "game_speed" || name == "game_length" || name == "game_duration" ||
    name == "game_date" || name == "score_left" || name == "score_right"
  }

  /** The match value a fixed name stores into. */
  function SetFixed(s: LoaderSnap, name: string, n: nat): LoaderSnap
    requires IsFixedName(name)
  {
    if name == "game_speed" then s.(gameSpeed := n)
    else if name == "game_length" then s.(gameLength := n)
    else if name == "game_duration" then s.(gameDuration := n)
    else if name == "game_date" then s.(gameDate := n)
    else if name == "score_left" then s.(leftScore := n)
    else s.(rightScore := n)
  }

  /** Each fixed name stores into its own field. */
  lemma SetFixedFields(s: LoaderSnap, n: nat)
    ensures SetFixed(s, "game_speed", n) == s.(gameSpeed := n)
    ensures SetFixed(s, "game_length", n) == s.(gameLength := n)
    ensures SetFixed(s, "game_duration", n) == s.(gameDuration := n)
    ensures SetFixed(s, "game_date", n) == s.(gameDate := n)
    ensures SetFixed(s, "score_left", n) == s.(leftScore := n)
    ensures SetFixed(s, "score_right", n) == s.(rightScore := n)
  {
    assert "game_length"[5] != "game_speed"[5];
    assert "game_duration"[5] != "game_speed"[5] && "game_duration"[5] != "game_length"[5];
    assert "game_date"[5] != "game_speed"[5] && "game_date"[5] != "game_length"[5] && |"game_date"| != |"game_duration"|;
    assert "score_left"[0] != "game_speed"[0] && |"score_left"| != |"game_length"| && |"score_left"| != |"game_duration"|;
    assert |"score_left"| != |"game_date"|;
    assert "score_right"[0] != "game_speed"[0] && "score_right"[0] != "game_length"[0] && |"score_right"| != |"game_duration"|;
    assert |"score_right"| != |"game_date"| && |"score_right"| != |"score_left"|;
  }

  /** One pass of the attribute loop. A fixed name whose value does not parse throws;
      the value is stored into the `unsigned int` field. */
  function ApplyVar(s: LoaderSnap, v: XmlVar, prefix: int -> string): (r: Option<LoaderSnap>)
    requires s.WellFormed()
    ensures r.Some? ==> r.value.WellFormed()
  {
    var name, value := AttrText(v.name), AttrText(v.value);
    if IsFixedName(name) then
      match Numerals.Stoi(value)
      case None => None
      case Some(x) => Some(SetFixed(s, name, ToU32(x)))
    else SetPlayerVar(s, name, value, prefix, 0)
  }

  /** The attribute loop over the remaining elements. */
  function ApplyVars(s: LoaderSnap, vars: seq<XmlVar>, prefix: int -> string): (r: Option<LoaderSnap>)
    requires s.WellFormed()
    ensures r.Some? ==> r.value.WellFormed()
    decreases |vars|
  {
    if |vars| == 0 then Some(s)
    else
      match ApplyVar(s, vars[0], prefix)
      case None => None
      case Some(s1) => ApplyVars(s1, vars[1..], prefix)
  }

  /** A slot is enabled exactly when its name is not empty. */
  function NamedSlots(names: seq<string>): (en: seq<bool>)
    ensures |en| == |names| && forall k :: 0 <= k < |names| ==> (en[k] <==> |names[k]| > 0)
  {
    seq(|names|, k requires 0 <= k < |names| => |names[k]| > 0)
  }

  /** The enabled flags, their count and the bytes per tick, after the attributes. */
  function Derived(s: LoaderSnap): (r: LoaderSnap)
    requires s.WellFormed()
    ensures r.WellFormed()
  {
    var en := NamedSlots(s.playerNames);
    s.(playersEnabled := en, playersCount := Count(en), bytesPerStep := (Count(en) + 1) / 2)
  }

  /** The checks on the document and its `version` element: the format minor version
      as the `unsigned char` field keeps it, and the element's own attributes. */
  function VersionOf(doc: ReplayDoc): (r: Option<(UChar, XmlVar)>)
    ensures r.Some? ==> (!doc.parseError && doc.hasReplay && doc.version.Some? &&
      doc.version.value.major.Some? && doc.version.value.minor.Some? && r.value.1 == doc.version.value.attrs)
  {
    if doc.parseError || !doc.hasReplay || doc.version.None? then None
    else
      var ver := doc.version.value;
      if ver.minor.None? || ver.major.None? then None
      else
        match Numerals.Stoi(ver.minor.value)
        case None => None
        case Some(minor) => Some((ToUChar(minor), ver.attrs))
  }

  /** The rules, input and save points, each an element with content. */
  function Contents(doc: ReplayDoc): (r: Option<(string, seq<bv8>, seq<SavePoint>)>)
    ensures r.Some? <==> doc.rules.Some? && doc.rules.value.Some? && doc.input.Some? && doc.input.value.Some? &&
                         doc.states.Some? && doc.states.value.Some?
    ensures r.Some? ==> r.value == (doc.rules.value.value, doc.input.value.value, doc.states.value.value)
  {
    if doc.rules.None? || doc.rules.value.None? || doc.input.None? || doc.input.value.None? ||
       doc.states.None? || doc.states.value.None? then None
    else Some((doc.rules.value.value, doc.input.value.value, doc.states.value.value))
  }

  /** The first part of `initLoading`: the version, the attributes and the players. */
  function LoadHeader(doc: ReplayDoc, prefix: int -> string, s: LoaderSnap): (r: Option<LoaderSnap>)
    requires s.WellFormed()
    ensures r.Some? ==> r.value.WellFormed()
  {
    match VersionOf(doc)
    case None => None
    case Some((minor, attrs)) =>
      match ApplyVars(s.(formatVersion := minor), [attrs] + doc.vars, prefix)
      case None => None
      case Some(s1) => Some(Derived(s1))
  }

  /** `initLoading` from a freshly made loader `s`: `None` where the source throws. */
  function Load(doc: ReplayDoc, prefix: int -> string, s: LoaderSnap): (r: Option<LoaderSnap>)
    requires s.WellFormed()
    ensures r.Some? ==> r.value.WellFormed()
  {
    match LoadHeader(doc, prefix, s)
    case None => None
    case Some(s1) =>
      match Contents(doc)
      case None => None
      case Some((rules, input, states)) => Some(s1.(rules := rules, buffer := input, savePoints := states))
  }

  /** Loading fails whenever an element it needs is missing, and a loaded replay has the
      document's rules, input and save points, a slot enabled exactly when its name is
      not empty, and ceil(count / 2) bytes per tick. */
  lemma LoadRequires(doc: ReplayDoc, prefix: int -> string, s: LoaderSnap)
    requires s.WellFormed()
    ensures Load(doc, prefix, s).Some? ==>
      !doc.parseError && doc.hasReplay && doc.version.Some? &&
      doc.version.value.major.Some? && doc.version.value.minor.Some? &&
      doc.rules.Some? && doc.rules.value.Some? && doc.input.Some? && doc.input.value.Some? &&
      doc.states.Some? && doc.states.value.Some?
    ensures Load(doc, prefix, s).Some? ==>
      var l := Load(doc, prefix, s).value;
      l.rules == doc.rules.value.value && l.buffer == doc.input.value.value &&
      l.savePoints == doc.states.value.value &&
      (forall k :: 0 <= k < MAX_PLAYERS ==> (l.playersEnabled[k] <==> |l.playerNames[k]| > 0)) &&
      l.playersCount == Count(l.playersEnabled) && l.bytesPerStep == (l.playersCount + 1) / 2
  {
  }

  // ---------------------------------------------------------------------------
  // Reading back what `save` wrote

  /** The slot prefixes tell the slots apart. */
  predicate DistinctPrefixes(prefix: int -> string)
  {
    forall a, b :: 0 <= a < MAX_PLAYERS && 0 <= b < MAX_PLAYERS && a != b ==> prefix(a) != prefix(b)
  }

  lemma {:induction false} ApplyVarsAppend(s: LoaderSnap, a: seq<XmlVar>, b: seq<XmlVar>, prefix: int -> string)
    requires s.WellFormed()
    ensures ApplyVars(s, a + b, prefix) ==
      match ApplyVars(s, a, prefix) case None => None case Some(s1) => ApplyVars(s1, b, prefix)
    decreases |a|
  {
    if |a| == 0 {
      assert a + b == b;
    } else {
      assert (a + b)[0] == a[0] && (a + b)[1..] == a[1..] + b;
      var r := ApplyVar(s, a[0], prefix);
      if r.Some? {
        ApplyVarsAppend(r.value, a[1..], b, prefix);
      }
    }
  }

  /** A fixed attribute whose value parses. */
  lemma ApplyFixed(s: LoaderSnap, name: string, x: int, prefix: int -> string)
    requires s.WellFormed() && IsFixedName(name) && Numerals.INT_MIN <= x <= Numerals.INT_MAX
    ensures ApplyVar(s, Var(name, Numerals.Decimal(x)), prefix) == Some(SetFixed(s, name, ToU32(x)))
  {
    Numerals.StoiDecimal(x);
  }

  /** The first elements of an attribute list, taken one at a time. */
  lemma ApplyVarsCons(s: LoaderSnap, vars: seq<XmlVar>, prefix: int -> string)
    requires s.WellFormed() && |vars| > 0
    ensures ApplyVars(s, vars, prefix) ==
      match ApplyVar(s, vars[0], prefix) case None => None case Some(s1) => ApplyVars(s1, vars[1..], prefix)
  {
  }

  /** `name_` and `color_` attributes never hit a fixed name. */
  lemma PlayerNameNotFixed(p: string)
    ensures var n := "name_" + p;
      n != "game_speed" && n != "game_length" && n != "game_duration" &&
      n != "game_date" && n != "score_left" && n != "score_right"
    ensures var c := "color_" + p;
      c != "game_speed" && c != "game_length" && c != "game_duration" &&
      c != "game_date" && c != "score_left" && c != "score_right"
  {
    assert ("name_" + p)[0] == 'n';
    assert ("color_" + p)[0] == 'c';
  }

  /** The `name_` attribute of slot i reaches slot i. */
  lemma {:induction false} SetPlayerName(s: LoaderSnap, value: string, prefix: int -> string, i: nat, j: nat)
    requires s.WellFormed() && DistinctPrefixes(prefix) && j <= i < MAX_PLAYERS
    ensures SetPlayerVar(s, "name_" + prefix(i), value, prefix, j) == Some(s.(playerNames := s.playerNames[i := value]))
    decreases i - j
  {
    assert ("name_" + prefix(i))[0] != ("color_" + prefix(j))[0];
    if j < i {
      assert ("name_" + prefix(i))[5..] == prefix(i) && ("name_" + prefix(j))[5..] == prefix(j);
      SetPlayerName(s, value, prefix, i, j + 1);
    }
  }

  /** The `color_` attribute of slot i reaches slot i. */
  lemma {:induction false} SetPlayerColor(s: LoaderSnap, c: int, prefix: int -> string, i: nat, j: nat)
    requires s.WellFormed() && DistinctPrefixes(prefix) && j <= i < MAX_PLAYERS
    requires Numerals.INT_MIN <= c <= Numerals.INT_MAX
    ensures SetPlayerVar(s, "color_" + prefix(i), Numerals.Decimal(c), prefix, j) == Some(s.(playerColors := s.playerColors[i := c]))
    decreases i - j
  {
    assert ("color_" + prefix(i))[0] != ("name_" + prefix(j))[0];
    if j < i {
      assert ("color_" + prefix(i))[6..] == prefix(i) && ("color_" + prefix(j))[6..] == prefix(j);
      SetPlayerColor(s, c, prefix, i, j + 1);
    } else {
      Numerals.StoiDecimal(c);
    }
  }

  /** The player attributes of `save` restore the names and colors of the enabled
      slots from slot i on and leave the rest. */
  lemma {:induction false} PlayerVarsLoad(r: Recording, s: LoaderSnap, prefix: int -> string, i: nat)
    requires r.WellFormed() && s.WellFormed() && DistinctPrefixes(prefix) && i <= MAX_PLAYERS
    requires forall k :: 0 <= k < MAX_PLAYERS ==> Numerals.INT_MIN <= r.playerColors[k] <= Numerals.INT_MAX
    ensures ApplyVars(s, PlayerVars(r, prefix, i), prefix) ==
      Some(s.(playerNames := Merge(r.playerEnabled, r.playerNames, s.playerNames, i),
              playerColors := Merge(r.playerEnabled, r.playerColors, s.playerColors, i)))
    decreases MAX_PLAYERS - i
  {
    if i == MAX_PLAYERS {
      MergeEnd(r.playerEnabled, r.playerNames, s.playerNames);
      MergeEnd(r.playerEnabled, r.playerColors, s.playerColors);
    } else if !r.playerEnabled[i] {
      assert PlayerVars(r, prefix, i) == PlayerVars(r, prefix, i + 1);
      PlayerVarsLoad(r, s, prefix, i + 1);
      MergeKeep(r.playerEnabled, r.playerNames, s.playerNames, i);
      MergeKeep(r.playerEnabled, r.playerColors, s.playerColors, i);
    } else {
      var s2 := s.(playerNames := s.playerNames[i := r.playerNames[i]], playerColors := s.playerColors[i := r.playerColors[i]]);
      PlayerVarsStep(r, s, prefix, i);
      PlayerVarsLoad(r, s2, prefix, i + 1);
      MergeTake(r.playerEnabled, r.playerNames, s.playerNames, i);
      MergeTake(r.playerEnabled, r.playerColors, s.playerColors, i);
    }
  }

  /** The name and color attributes of one enabled slot set that slot's name and color. */
  lemma PlayerVarsStep(r: Recording, s: LoaderSnap, prefix: int -> string, i: nat)
    requires r.WellFormed() && s.WellFormed() && DistinctPrefixes(prefix) && i < MAX_PLAYERS && r.playerEnabled[i]
    requires Numerals.INT_MIN <= r.playerColors[i] <= Numerals.INT_MAX
    ensures ApplyVars(s, PlayerVars(r, prefix, i), prefix) ==
      ApplyVars(s.(playerNames := s.playerNames[i := r.playerNames[i]], playerColors := s.playerColors[i := r.playerColors[i]]),
                PlayerVars(r, prefix, i + 1), prefix)
  {
    var nv := Var("name_" + prefix(i), r.playerNames[i]);
    var cv := Var("color_" + prefix(i), Numerals.Decimal(r.playerColors[i]));
    var rest := PlayerVars(r, prefix, i + 1);
    assert PlayerVars(r, prefix, i) == [nv, cv] + rest;
    PlayerNameNotFixed(prefix(i));
    SetPlayerName(s, r.playerNames[i], prefix, i, 0);
    var s1 := s.(playerNames := s.playerNames[i := r.playerNames[i]]);
    SetPlayerColor(s1, r.playerColors[i], prefix, i, 0);
    var s2 := s1.(playerColors := s1.playerColors[i := r.playerColors[i]]);
    assert ([nv, cv] + rest)[1..] == [cv] + rest;
    assert ([cv] + rest)[1..] == rest;
  }

  /** The six fixed attributes of `save`. */
  function HeaderVars(r: Recording, date: int): seq<XmlVar>
    requires r.gameSpeed > 0 && r.bytesPerStep > 0
  {
    [Var("game_speed", Numerals.Decimal(r.gameSpeed)),
     Var("game_length", Numerals.Decimal(|r.saveData|)),
     Var("game_duration", Numerals.Decimal(Duration(r))),
     Var("game_date", Numerals.Decimal(date)),
     Var("score_left", Numerals.Decimal(r.leftScore)),
     Var("score_right", Numerals.Decimal(r.rightScore))]
  }

  /** A recording whose every attribute fits the `int` that `std::stoi` returns. */
  predicate Loadable(r: Recording, date: int)
  {
    r.WellFormed() && 0 < r.gameSpeed && r.bytesPerStep > 0 && |r.saveData| <= Numerals.INT_MAX &&
    Numerals.INT_MIN <= date <= Numerals.INT_MAX &&
    r.leftScore <= Numerals.INT_MAX && r.rightScore <= Numerals.INT_MAX &&
    forall k :: 0 <= k < MAX_PLAYERS ==> Numerals.INT_MIN <= r.playerColors[k] <= Numerals.INT_MAX
  }

  lemma DurationBound(r: Recording)
    requires 0 < r.gameSpeed && r.bytesPerStep > 0
    ensures Duration(r) <= |r.saveData|
  {
    var d := r.gameSpeed * r.bytesPerStep;
    assert d >= 1 by {
      assert r.gameSpeed * r.bytesPerStep >= 1 * r.bytesPerStep;
    }
    DivAtMost(|r.saveData|, d);
  }

  lemma DivAtMost(a: nat, d: nat)
    requires d >= 1
    ensures a / d <= a
  {
  }

  lemma {:induction false} HeaderVarsLoad(r: Recording, date: int, s: LoaderSnap, prefix: int -> string)
    requires Loadable(r, date) && s.WellFormed()
    ensures ApplyVars(s, HeaderVars(r, date), prefix) ==
      Some(s.(gameSpeed := r.gameSpeed, gameLength := |r.saveData|, gameDuration := Duration(r),
              gameDate := ToU32(date), leftScore := r.leftScore, rightScore := r.rightScore))
  {
    var h := HeaderVars(r, date);
    DurationBound(r);
    SmallU32(r.gameSpeed);
    SmallU32(|r.saveData|);
    SmallU32(Duration(r));
    SmallU32(r.leftScore);
    SmallU32(r.rightScore);
    var s1 := s.(gameSpeed := r.gameSpeed);
    var s2 := s1.(gameLength := |r.saveData|);
    var s3 := s2.(gameDuration := Duration(r));
    var s4 := s3.(gameDate := ToU32(date));
    var s5 := s4.(leftScore := r.leftScore);
    var s6 := s5.(rightScore := r.rightScore);
    assert ApplyVars(s, h, prefix) == ApplyVars(s1, h[1..], prefix) by {
      SetFixedFields(s, r.gameSpeed);
      ApplyFixed(s, "game_speed", r.gameSpeed, prefix);
      ApplyVarsCons(s, h, prefix);
    }
    assert ApplyVars(s1, h[1..], prefix) == ApplyVars(s2, h[2..], prefix) by {
      SetFixedFields(s1, |r.saveData|);
      ApplyFixed(s1, "game_length", |r.saveData|, prefix);
      ApplyVarsCons(s1, h[1..], prefix);
      assert h[1..][1..] == h[2..];
    }
    assert ApplyVars(s2, h[2..], prefix) == ApplyVars(s3, h[3..], prefix) by {
      SetFixedFields(s2, Duration(r));
      ApplyFixed(s2, "game_duration", Duration(r), prefix);
      ApplyVarsCons(s2, h[2..], prefix);
      assert h[2..][1..] == h[3..];
    }
    assert ApplyVars(s3, h[3..], prefix) == ApplyVars(s4, h[4..], prefix) by {
      SetFixedFields(s3, ToU32(date));
      ApplyFixed(s3, "game_date", date, prefix);
      ApplyVarsCons(s3, h[3..], prefix);
      assert h[3..][1..] == h[4..];
    }
    assert ApplyVars(s4, h[4..], prefix) == ApplyVars(s5, h[5..], prefix) by {
      SetFixedFields(s4, r.leftScore);
      ApplyFixed(s4, "score_left", r.leftScore, prefix);
      ApplyVarsCons(s4, h[4..], prefix);
      assert h[4..][1..] == h[5..];
    }
    assert ApplyVars(s5, h[5..], prefix) == Some(s6) by {
      SetFixedFields(s5, r.rightScore);
      ApplyFixed(s5, "score_right", r.rightScore, prefix);
      ApplyVarsCons(s5, h[5..], prefix);
      assert h[5..][1..] == [];
    }
  }

  lemma SmallU32(x: nat)
    requires x < TWO_32
    ensures ToU32(x) == x
  {
  }

  /** What `save` writes, `initLoading` reads back into a fresh loader: the data, the
      save points, the rules, the scores, speed, length, duration and date, and the
      name and color of every enabled slot, provided every enabled slot has a name
      (the loader enables a slot by its name) and every value fits an `int`. */
  lemma SaveLoadRoundTrip(r: Recording, date: int, prefix: int -> string)
    requires Loadable(r, date) && DistinctPrefixes(prefix)
    requires forall k :: 0 <= k < MAX_PLAYERS && r.playerEnabled[k] ==> |r.playerNames[k]| > 0
    ensures Load(SavedDoc(r, date, prefix), prefix, Fresh()) ==
      Some(LoaderSnap(r.saveData, r.savePoints,
        Merge(r.playerEnabled, r.playerNames, Fresh().playerNames, 0),
        Merge(r.playerEnabled, r.playerColors, Fresh().playerColors, 0),
        r.playerEnabled, r.leftScore, r.rightScore, r.gameSpeed, ToU32(date), |r.saveData|, Duration(r),
        Count(r.playerEnabled), r.bytesPerStep, r.gameRules, REPLAY_FILE_VERSION_MINOR))
  {
    var doc := SavedDoc(r, date, prefix);
    var s2 := SavedVars(r, date, prefix);
    SavedHeaderLoad(r, date, prefix);
    LoadParts(doc, prefix, Fresh(), Derived(s2), (r.gameRules, r.saveData, r.savePoints));
    SavedDerived(r, date, prefix);
  }

  /** The players the loader derives from what `save` wrote are those recorded. */
  lemma SavedDerived(r: Recording, date: int, prefix: int -> string)
    requires Loadable(r, date)
    requires forall k :: 0 <= k < MAX_PLAYERS && r.playerEnabled[k] ==> |r.playerNames[k]| > 0
    ensures Derived(SavedVars(r, date, prefix)).(rules := r.gameRules, buffer := r.saveData, savePoints := r.savePoints) ==
      LoaderSnap(r.saveData, r.savePoints,
        Merge(r.playerEnabled, r.playerNames, Fresh().playerNames, 0),
        Merge(r.playerEnabled, r.playerColors, Fresh().playerColors, 0),
        r.playerEnabled, r.leftScore, r.rightScore, r.gameSpeed, ToU32(date), |r.saveData|, Duration(r),
        Count(r.playerEnabled), r.bytesPerStep, r.gameRules, REPLAY_FILE_VERSION_MINOR)
  {
    assert NamedSlots(SavedVars(r, date, prefix).playerNames) == r.playerEnabled;
  }

  /** `initLoading` is its header part followed by its content part. */
  lemma LoadParts(doc: ReplayDoc, prefix: int -> string, s: LoaderSnap, h: LoaderSnap, c: (string, seq<bv8>, seq<SavePoint>))
    requires s.WellFormed() && LoadHeader(doc, prefix, s) == Some(h)
    requires doc.rules == Some(Some(c.0)) && doc.input == Some(Some(c.1)) && doc.states == Some(Some(c.2))
    ensures Load(doc, prefix, s) == Some(h.(rules := c.0, buffer := c.1, savePoints := c.2))
  {
  }

  /** The first part of `initLoading` on what `save` wrote. */
  lemma SavedHeaderLoad(r: Recording, date: int, prefix: int -> string)
    requires Loadable(r, date) && DistinctPrefixes(prefix)
    ensures LoadHeader(SavedDoc(r, date, prefix), prefix, Fresh()) == Some(Derived(SavedVars(r, date, prefix)))
  {
    assert VersionOf(SavedDoc(r, date, prefix)) == Some((REPLAY_FILE_VERSION_MINOR, XmlVar(None, None))) by {
      Numerals.StoiDecimal(REPLAY_FILE_VERSION_MINOR);
    }
    SavedVarsLoad(r, date, prefix);
  }

  /** The loader after the attribute loop over what `save` wrote. */
  function SavedVars(r: Recording, date: int, prefix: int -> string): LoaderSnap
    requires Loadable(r, date)
  {
    Fresh().(formatVersion := REPLAY_FILE_VERSION_MINOR,
             gameSpeed := r.gameSpeed, gameLength := |r.saveData|, gameDuration := Duration(r),
             gameDate := ToU32(date), leftScore := r.leftScore, rightScore := r.rightScore,
             playerNames := Merge(r.playerEnabled, r.playerNames, Fresh().playerNames, 0),
             playerColors := Merge(r.playerEnabled, r.playerColors, Fresh().playerColors, 0))
  }

  lemma SavedVarsLoad(r: Recording, date: int, prefix: int -> string)
    requires Loadable(r, date) && DistinctPrefixes(prefix)
    ensures var doc := SavedDoc(r, date, prefix);
      ApplyVars(Fresh().(formatVersion := REPLAY_FILE_VERSION_MINOR), [XmlVar(None, None)] + doc.vars, prefix) ==
      Some(SavedVars(r, date, prefix))
  {
    var doc := SavedDoc(r, date, prefix);
    var s0 := Fresh().(formatVersion := REPLAY_FILE_VERSION_MINOR);
    var h := HeaderVars(r, date);
    var pv := PlayerVars(r, prefix, 0);
    assert doc.vars == h + pv;
    var all := [XmlVar(None, None)] + (h + pv);
    assert ApplyVars(s0, all, prefix) == ApplyVars(s0, h + pv, prefix) by {
      NoAttributesNoSlot(s0, prefix, 0);
      ApplyVarsCons(s0, all, prefix);
      assert all[1..] == h + pv;
    }
    ApplyVarsAppend(s0, h, pv, prefix);
    HeaderVarsLoad(r, date, s0, prefix);
    var s1 := s0.(gameSpeed := r.gameSpeed, gameLength := |r.saveData|, gameDuration := Duration(r),
                  gameDate := ToU32(date), leftScore := r.leftScore, rightScore := r.rightScore);
    PlayerVarsLoad(r, s1, prefix, 0);
  }

  /** An element without a name attribute matches no slot. */
  lemma {:induction false} NoAttributesNoSlot(s: LoaderSnap, prefix: int -> string, i: nat)
    requires s.WellFormed() && i <= MAX_PLAYERS
    ensures SetPlayerVar(s, "", "", prefix, i) == Some(s)
    decreases MAX_PLAYERS - i
  {
    if i < MAX_PLAYERS {
      assert |"name_" + prefix(i)| > 0 && |"color_" + prefix(i)| > 0;
      NoAttributesNoSlot(s, prefix, i + 1);
    }
  }

  // ---------------------------------------------------------------------------
  // Seeking

  /** The coarse index: the target offset, as `unsigned`, over the save-point period. */
  function CoarseIndex(target: int, bytesPerStep: nat): (n: nat)
    requires bytesPerStep > 0
    ensures target >= 0 ==> n * (REPLAY_SAVEPOINT_PERIOD * bytesPerStep) <= target
  {
    ToU32(target) / (REPLAY_SAVEPOINT_PERIOD * bytesPerStep)
  }

  /** The scan to the right: the last index from `index` on before the first save point
      lying beyond the target. */
  function Scan(sp: seq<SavePoint>, target: int, index: nat): (r: nat)
    requires index < |sp|
    ensures index <= r < |sp|
    ensures forall k :: index < k <= r ==> sp[k].step <= target
    ensures r + 1 == |sp| || sp[r + 1].step > target
    decreases |sp| - index
  {
    if index + 1 < |sp| && sp[index + 1].step <= target then Scan(sp, target, index + 1) else index
  }

  /** With increasing steps and a start at or before the target, the scan ends on the
      latest save point at or before the target. */
  lemma ScanFindsLatest(sp: seq<SavePoint>, target: int, index: nat)
    requires index < |sp| && StepsIncreasing(sp) && sp[index].step <= target
    ensures sp[Scan(sp, target, index)].step <= target
    ensures forall k :: Scan(sp, target, index) < k < |sp| ==> sp[k].step > target
  {
    var r := Scan(sp, target, index);
    if r > index {
      assert sp[r].step <= target;
    }
  }

  /** Save points taken as `record` takes them are early enough for the coarse index:
      any offset the data covers has a save point at or before it, and seeking ends on
      the latest one. */
  lemma SeekRecorded(r: Recording, target: int)
    requires r.WellFormed() && Seekable(r) && Ordered(r) && 0 <= target < |r.saveData|
    ensures CoarseIndex(target, r.bytesPerStep) < |r.savePoints|
    ensures var i := Scan(r.savePoints, target, CoarseIndex(target, r.bytesPerStep));
      r.savePoints[i].step <= target && forall k :: i < k < |r.savePoints| ==> r.savePoints[k].step > target
  {
    var period := REPLAY_SAVEPOINT_PERIOD * r.bytesPerStep;
    var c := CoarseIndex(target, r.bytesPerStep);
    BytesPerStepRange(r);
    if r.bytesPerStep == 1 {
      assert period == 750;
    } else {
      assert period == 1500;
    }
    assert r.savePoints[c].step <= c * period;
    ScanFindsLatest(r.savePoints, target, c);
  }

  // ---------------------------------------------------------------------------
  // Unpacking

  /** The input stored in a byte: bits 5..3 for the first of a pair, bits 2..0 for the
      second, in the order left, right, jump. */
  function Unpack(packet: bv8, first: bool): (i: PlayerInput)
    ensures i.GetAll() == if first then (packet >> 3) & 7 else packet & 7
  {
    if first then PlayerInput(packet & 32 != 0, packet & 16 != 0, packet & 8 != 0)
    else PlayerInput(packet & 4 != 0, packet & 2 != 0, packet & 1 != 0)
  }

  /** Unpacking inverts the packing of a byte. */
  lemma UnpackByte(b: bv8, a: PlayerInput, second: Option<PlayerInput>)
    requires ByteHolds(b, a, second)
    ensures Unpack(b, true) == a
    ensures second.Some? ==> Unpack(b, false) == second.value
  {
    var x := a.GetAll();
    assert (b >> 3) & 7 == x;
    assert (b & 32 != 0) == (x & 4 != 0) && (b & 16 != 0) == (x & 2 != 0) && (b & 8 != 0) == (x & 1 != 0);
  }

  /** The bytes one `record` call appends read back as the enabled players' inputs, in
      slot order. */
  lemma RecordedInputsReadBack(r: Recording, state: DuelMatchStates.MatchSnap, k: nat)
    requires r.WellFormed() && r.bytesPerStep > 0 && |state.playerInput| == MAX_PLAYERS
    requires k < r.bytesPerStep
    ensures var act := Enabled(r.playerEnabled, state.playerInput);
      var b := Recorded(r, state).saveData[|r.saveData| + k];
      2 * k < |act| && Unpack(b, true) == act[2 * k] &&
      (2 * k + 1 < |act| ==> Unpack(b, false) == act[2 * k + 1])
  {
    var act := Enabled(r.playerEnabled, state.playerInput);
    PackedTickSize(r.playerEnabled, state.playerInput);
    assert Recorded(r, state).saveData[|r.saveData| + k] == Pack(act)[k];
    PackLayout(act, k);
    UnpackByte(Pack(act)[k], act[2 * k], if 2 * k + 1 < |act| then Some(act[2 * k + 1]) else None);
  }

  // ---------------------------------------------------------------------------

  class ReplayLoader {
    var buffer: seq<bv8>
    var savePoints: seq<SavePoint>
    const playerNames: array<string>
    const playerColors: array<int>
    const playersEnabled: array<bool>
    var leftScore: nat
    var rightScore: nat
    var gameSpeed: nat
    var gameDate: nat
    var gameLength: nat
    var gameDuration: nat
    var playersCount: nat
    var bytesPerStep: nat
    var rules: string
    var formatVersion: UChar

    ghost predicate Valid()
      reads this
    {
      playerNames.Length == MAX_PLAYERS && playerColors.Length == MAX_PLAYERS && playersEnabled.Length == MAX_PLAYERS
    }

    function Value(): (s: LoaderSnap)
      reads this, playerNames, playerColors, playersEnabled
      requires Valid()
      ensures s.WellFormed()
    {
      LoaderSnap(buffer, savePoints, playerNames[..], playerColors[..], playersEnabled[..], leftScore, rightScore,
                 gameSpeed, gameDate, gameLength, gameDuration, playersCount, bytesPerStep, rules, formatVersion)
    }

    constructor ()
      ensures Valid() && Value() == Fresh()
    {
      buffer, savePoints := [], [];
      playerNames := new string[MAX_PLAYERS](_ => "");
      playerColors := new int[MAX_PLAYERS](_ => 0);
      playersEnabled := new bool[MAX_PLAYERS](_ => false);
      leftScore, rightScore, gameSpeed, gameDate, gameLength, gameDuration := 0, 0, 0, 0, 0, 0;
      playersCount, bytesPerStep, rules, formatVersion := 0, 0, "", 0;
      new;
      assert playerNames[..] == Fresh().playerNames && playerColors[..] == Fresh().playerColors;
      assert playersEnabled[..] == Fresh().playersEnabled;
    }

    /** The slot loop of one attribute, with its `break`s. */
    method ApplyPlayerVar(name: string, value: string, prefix: int -> string) returns (ok: bool)
      requires Valid()
      modifies playerNames, playerColors
      ensures ok <==> SetPlayerVar(old(Value()), name, value, prefix, 0).Some?
      ensures ok ==> Value() == SetPlayerVar(old(Value()), name, value, prefix, 0).value
    {
      ghost var s := Value();
      ok := true;
      var i := 0;
      while i < MAX_PLAYERS
        invariant 0 <= i <= MAX_PLAYERS && Value() == s
        invariant SetPlayerVar(s, name, value, prefix, 0) == SetPlayerVar(s, name, value, prefix, i)
      {
        var p := prefix(i);
        if name == "name_" + p {
          playerNames[i] := value;
          assert playerNames[..] == s.playerNames[i := value];
          return;
        }
        if name == "color_" + p {
          var c := Numerals.Stoi(value);
          if c.None? {
            ok := false;
            return;
          }
          playerColors[i] := c.value;
          assert playerColors[..] == s.playerColors[i := c.value];
          return;
        }
        i := i + 1;
      }
    }

    /** One pass of the attribute loop. */
    method ApplyVarMethod(v: XmlVar, prefix: int -> string) returns (ok: bool)
      requires Valid()
      modifies this, playerNames, playerColors
      ensures ok <==> ApplyVar(old(Value()), v, prefix).Some?
      ensures ok ==> Value() == ApplyVar(old(Value()), v, prefix).value
    {
      var name, value := AttrText(v.name), AttrText(v.value);
      if name == "game_speed" || name == "game_length" || name == "game_duration" ||
         name == "game_date" || name == "score_left" || name == "score_right" {
        var x := Numerals.Stoi(value);
        if x.None? {
          return false;
        }
        var n := ToU32(x.value);
        if name == "game_speed" {
          gameSpeed := n;
        } else if name == "game_length" {
          gameLength := n;
        } else if name == "game_duration" {
          gameDuration := n;
        } else if name == "game_date" {
          gameDate := n;
        } else if name == "score_left" {
          leftScore := n;
        } else {
          rightScore := n;
        }
        ok := true;
      } else {
        ok := ApplyPlayerVar(name, value, prefix);
      }
    }

    /** The attribute loop, from the version element over its `var` siblings. */
    method LoadVars(vars: seq<XmlVar>, prefix: int -> string) returns (ok: bool)
      requires Valid()
      modifies this, playerNames, playerColors
      ensures ok <==> ApplyVars(old(Value()), vars, prefix).Some?
      ensures ok ==> Value() == ApplyVars(old(Value()), vars, prefix).value
    {
      ghost var goal := ApplyVars(Value(), vars, prefix);
      var i := 0;
      while i < |vars|
        invariant 0 <= i <= |vars| && Valid()
        invariant goal == ApplyVars(Value(), vars[i..], prefix)
      {
        assert vars[i..][1..] == vars[i + 1..];
        ok := ApplyVarMethod(vars[i], prefix);
        if !ok {
          return;
        }
        i := i + 1;
      }
      ok := true;
    }

    /** The enabled flags from the names, their count and the bytes per tick. */
    method DerivePlayers()
      requires Valid()
      modifies this, playersEnabled
      ensures Value() == Derived(old(Value()))
    {
      var count := MarkNamedSlots();
      playersCount := count;
      bytesPerStep := (count + 1) / 2;
    }

    /** The slot loop of `initLoading`: a slot is enabled when it has a name. */
    method MarkNamedSlots() returns (count: nat)
      requires playerNames.Length == MAX_PLAYERS && playersEnabled.Length == MAX_PLAYERS
      modifies playersEnabled
      ensures playersEnabled[..] == NamedSlots(playerNames[..]) && count == Count(playersEnabled[..])
    {
      ghost var en := NamedSlots(playerNames[..]);
      count := 0;
      var i := 0;
      while i < MAX_PLAYERS
        invariant 0 <= i <= MAX_PLAYERS && count == Count(en[..i])
        invariant forall k :: 0 <= k < i ==> playersEnabled[k] == en[k]
      {
        assert en[..i + 1][..i] == en[..i];
        playersEnabled[i] := |playerNames[i]| > 0;
        if playersEnabled[i] {
          count := count + 1;
        }
        i := i + 1;
      }
      assert en[..i] == en && playersEnabled[..] == en;
    }

    /** The version check, the attribute loop and the player count of `initLoading`. */
    method ReadHeader(doc: ReplayDoc, prefix: int -> string) returns (ok: bool)
      requires Valid()
      modifies this, playerNames, playerColors, playersEnabled
      ensures ok <==> LoadHeader(doc, prefix, old(Value())).Some?
      ensures ok ==> Value() == LoadHeader(doc, prefix, old(Value())).value
    {
      var version := VersionOf(doc);
      if version.None? {
        return false;
      }
      formatVersion := version.value.0;
      ok := LoadVars([version.value.1] + doc.vars, prefix);
      if !ok {
        return;
      }
      DerivePlayers();
    }

    /** `initLoading`: `ok` is false where the source throws, and then the loader is
        discarded. */
    method InitLoading(doc: ReplayDoc, prefix: int -> string) returns (ok: bool)
      requires Valid()
      modifies this, playerNames, playerColors, playersEnabled
      ensures ok <==> Load(doc, prefix, old(Value())).Some?
      ensures ok ==> Value() == Load(doc, prefix, old(Value())).value
    {
      ok := ReadHeader(doc, prefix);
      if !ok {
        return;
      }
      var contents := Contents(doc);
      if contents.None? {
        return false;
      }
      rules, buffer, savePoints := contents.value.0, contents.value.1, contents.value.2;
    }

    /** `getSavePoint`: -1 when the coarse index is past the save points, which leaves
        `savepoint` as it was; otherwise the index the scan to the right ends on, and
        its offset. */
    method GetSavePoint(target: int, savepointIn: int) returns (index: int, savepoint: int)
      requires bytesPerStep > 0
      ensures CoarseIndex(target, bytesPerStep) >= |savePoints| ==> index == -1 && savepoint == savepointIn
      ensures CoarseIndex(target, bytesPerStep) < |savePoints| ==>
        CoarseIndex(target, bytesPerStep) <= index < |savePoints| &&
        index == Scan(savePoints, target, CoarseIndex(target, bytesPerStep)) &&
        savepoint == savePoints[index].step
    {
      var i := ToU32(target) / (REPLAY_SAVEPOINT_PERIOD * bytesPerStep);
      if i >= |savePoints| {
        return -1, savepointIn;
      }
      savepoint := savePoints[i].step;
      while true
        invariant CoarseIndex(target, bytesPerStep) <= i < |savePoints| && savepoint == savePoints[i].step
        invariant Scan(savePoints, target, i) == Scan(savePoints, target, CoarseIndex(target, bytesPerStep))
        decreases |savePoints| - i
      {
        var next := i + 1;
        if next >= |savePoints| {
          break;
        }
        var nextPos := savePoints[next].step;
        if nextPos > target {
          break;
        }
        i := next;
        savepoint := nextPos;
      }
      index := i;
    }

    /** `isSavePoint`: whether a save point lies exactly at `position`. */
    method IsSavePoint(position: int, savePositionIn: int) returns (yes: bool, savePosition: int)
      requires bytesPerStep > 0
      ensures var c := CoarseIndex(position, bytesPerStep);
        yes <==> c < |savePoints| && savePoints[Scan(savePoints, position, c)].step == position
      ensures CoarseIndex(position, bytesPerStep) >= |savePoints| ==> savePosition == -1
      ensures CoarseIndex(position, bytesPerStep) < |savePoints| ==>
        savePosition == Scan(savePoints, position, CoarseIndex(position, bytesPerStep))
    {
      var found: int;
      savePosition, found := GetSavePoint(position, 0);
      yes := savePosition != -1 && found == position;
    }

    /** `getInputAt`: the input of the first or second player of the pair stored at
        byte `offset + step`. */
    function GetInputAt(step: int, first: bool, offset: nat): (i: PlayerInput)
      reads this
      requires ToU32(step) < gameLength && ToU32(offset + step) < |buffer|
      ensures i.GetAll() == if first then (buffer[ToU32(offset + step)] >> 3) & 7 else buffer[ToU32(offset + step)] & 7
    {
      Unpack(buffer[ToU32(offset + step)], first)
    }

    /** `getFinalScore`: the score of a side; any other side fails the assertion. */
    function GetFinalScore(side: int): (score: int)
      reads this
      requires side == LEFT_SIDE || side == RIGHT_SIDE
      ensures side == LEFT_SIDE ==> score == FromU32(leftScore)
      ensures side == RIGHT_SIDE ==> score == FromU32(rightScore)
    {
      if side == LEFT_SIDE then FromU32(leftScore) else FromU32(rightScore)
    }
  }
}
