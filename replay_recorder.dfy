/** Recording a match for replay (src/replays/ReplayRecorder.cpp): one packed input
    record per tick, periodic and score-change save points, the network transfer of a
    recording and the attributes of the saved file. */
module ReplayRecorders {
  import opened Common
  import Numerals
  import DuelMatchStates

  type MatchSnap = DuelMatchStates.MatchSnap

  /** Ticks between two periodic save points. */
  const REPLAY_SAVEPOINT_PERIOD: nat := 750
  const REPLAY_FILE_VERSION_MAJOR: int := 2
  const REPLAY_FILE_VERSION_MINOR: int := 1
  /** Ticks of empty input `finalize` appends: one second of play. */
  const FINAL_PADDING_TICKS: nat := 75

  /** A match snapshot and the offset, in bytes of input data, at which it was taken. */
  datatype SavePoint = SavePoint(state: MatchSnap, step: nat)

  // ---------------------------------------------------------------------------
  // Input packing

  /** The number of enabled slots. */
  function Count(en: seq<bool>): (n: nat)
    ensures n <= |en|
  {
    if |en| == 0 then 0 else Count(en[..|en| - 1]) + (if en[|en| - 1] then 1 else 0)
  }

  lemma {:induction false} CountNone(en: seq<bool>)
    requires forall k :: 0 <= k < |en| ==> !en[k]
    ensures Count(en) == 0
  {
    if |en| > 0 {
      CountNone(en[..|en| - 1]);
    }
  }

  /** The inputs of the enabled slots, in slot order. */
  function Enabled(en: seq<bool>, inputs: seq<PlayerInput>): (r: seq<PlayerInput>)
    requires |en| == |inputs|
    ensures |r| == Count(en)
  {
    if |en| == 0 then []
    else Enabled(en[..|en| - 1], inputs[..|en| - 1]) + (if en[|en| - 1] then [inputs[|en| - 1]] else [])
  }

  lemma EnabledSnoc(en: seq<bool>, inputs: seq<PlayerInput>, i: nat)
    requires |en| == |inputs| && i < |en|
    ensures Enabled(en[..i + 1], inputs[..i + 1]) == Enabled(en[..i], inputs[..i]) + (if en[i] then [inputs[i]] else [])
  {
    assert en[..i + 1][..i] == en[..i] && inputs[..i + 1][..i] == inputs[..i];
  }

  /** The three input bits, `getAll() & 7`. */
  function Bits(i: PlayerInput): (b: bv8)
    ensures b < 8
  {
    i.GetAll() & 7
  }

  /** The byte begun by the first input of a pair: bit 7 set, the input in bits 5..3. */
  function FirstByte(a: PlayerInput): bv8
  {
    (1 << 7) | (Bits(a) << 3)
  }

  /** The byte completed by the second input of the pair, in bits 2..0. */
  function PairByte(a: PlayerInput, b: PlayerInput): bv8
  {
    FirstByte(a) | Bits(b)
  }

  /** One tick's bytes: the enabled inputs taken two to a byte, an odd last one alone. */
  function Pack(act: seq<PlayerInput>): (r: seq<bv8>)
    ensures |r| == (|act| + 1) / 2
    decreases |act|
  {
    if |act| == 0 then []
    else if |act| == 1 then [FirstByte(act[0])]
    else [PairByte(act[0], act[1])] + Pack(act[2..])
  }

  /** The layout of one packed byte. */
  predicate ByteHolds(b: bv8, first: PlayerInput, second: Option<PlayerInput>)
  {
    b & 0x80 == 0x80 && b & 0x40 == 0 && (b >> 3) & 7 == Bits(first) &&
    b & 7 == (if second.Some? then Bits(second.value) else 0)
  }

  lemma FirstByteHolds(a: PlayerInput)
    ensures ByteHolds(FirstByte(a), a, None)
  {
  }

  lemma PairByteHolds(a: PlayerInput, b: PlayerInput)
    ensures ByteHolds(PairByte(a, b), a, Some(b))
  {
  }

  /** Every byte has bit 7 set and bit 6 clear; the first input of a pair is in bits
      5..3 and the second, if any, in bits 2..0. */
  lemma {:induction false} PackLayout(act: seq<PlayerInput>, k: nat)
    requires k < |Pack(act)|
    ensures ByteHolds(Pack(act)[k], act[2 * k], if 2 * k + 1 < |act| then Some(act[2 * k + 1]) else None)
    decreases |act|
  {
    if |act| == 1 {
      FirstByteHolds(act[0]);
    } else if k == 0 {
      PairByteHolds(act[0], act[1]);
    } else {
      PackLayout(act[2..], k - 1);
      assert act[2..][2 * (k - 1)] == act[2 * k];
    }
  }

  /** Appending to an even number of inputs starts a new byte. */
  lemma {:induction false} PackSnocEven(act: seq<PlayerInput>, x: PlayerInput, h: nat)
    requires |act| == 2 * h
    ensures Pack(act + [x]) == Pack(act) + [FirstByte(x)]
    decreases h
  {
    if h > 0 {
      PackSnocEven(act[2..], x, h - 1);
      assert (act + [x])[2..] == act[2..] + [x];
    }
  }

  /** Appending to an odd number of inputs completes the last byte. */
  lemma {:induction false} PackSnocOdd(act: seq<PlayerInput>, x: PlayerInput, h: nat)
    requires |act| == 2 * h + 1
    ensures Pack(act + [x]) == Pack(act[..2 * h]) + [PairByte(act[2 * h], x)]
    decreases h
  {
    if h > 0 {
      PackSnocOdd(act[2..], x, h - 1);
      assert (act + [x])[2..] == act[2..] + [x];
      assert act[..2 * h][2..] == act[2..][..2 * (h - 1)];
      assert act[..2 * h] == [act[0], act[1]] + act[2..][..2 * (h - 1)];
    } else {
      assert act[..0] == [];
    }
  }

  /** A tick with n enabled players takes ceil(n / 2) bytes. */
  lemma PackedTickSize(en: seq<bool>, inputs: seq<PlayerInput>)
    requires |en| == |inputs|
    ensures |Pack(Enabled(en, inputs))| == (Count(en) + 1) / 2
  {
  }

  // ---------------------------------------------------------------------------
  // The recording as a value

  datatype Recording = Recording(
    playerEnabled: seq<bool>,
    playerNames: seq<string>,
    playerColors: seq<int>,
    gameSpeed: int,
    leftScore: nat,
    rightScore: nat,
    gameRules: string,
    saveData: seq<bv8>,
    savePoints: seq<SavePoint>,
    bytesPerStep: nat)
  {
    predicate WellFormed()
    {
      |playerEnabled| == MAX_PLAYERS && |playerNames| == MAX_PLAYERS && |playerColors| == MAX_PLAYERS &&
      bytesPerStep == (Count(playerEnabled) + 1) / 2 &&
      FitsU32(leftScore) && FitsU32(rightScore) && Numerals.INT_MIN <= gameSpeed <= Numerals.INT_MAX
    }
  }

  predicate StepsIncreasing(sp: seq<SavePoint>)
  {
    forall j, k :: 0 <= j < k < |sp| ==> sp[j].step < sp[k].step
  }

  /** Save points lie strictly inside the data, in increasing order of offset. */
  predicate Ordered(r: Recording)
  {
    StepsIncreasing(r.savePoints) && forall k :: 0 <= k < |r.savePoints| ==> r.savePoints[k].step < |r.saveData|
  }

  /** The save point k lies no later than the k-th periodic offset. */
  predicate SeekBound(sp: seq<SavePoint>, period: nat)
  {
    forall k :: 0 <= k < |sp| ==> sp[k].step <= k * period
  }

  /** While recording: the data is whole ticks, the periodic save points cover it, and
      every save point is early enough for the loader's coarse index. */
  predicate Seekable(r: Recording)
  {
    var period := REPLAY_SAVEPOINT_PERIOD * r.bytesPerStep;
    r.bytesPerStep > 0 && |r.saveData| % r.bytesPerStep == 0 &&
    |r.saveData| <= |r.savePoints| * period && SeekBound(r.savePoints, period)
  }

  /** `record` takes a save point at every period boundary and whenever a score moved. */
  predicate SavePointDue(r: Recording, state: MatchSnap)
    requires r.bytesPerStep > 0
  {
    |r.saveData| % (REPLAY_SAVEPOINT_PERIOD * r.bytesPerStep) == 0 ||
    r.leftScore != state.logic.leftScore || r.rightScore != state.logic.rightScore
  }

  /** The recording after `record(state)`. */
  function Recorded(r: Recording, state: MatchSnap): (n: Recording)
    requires r.WellFormed() && r.bytesPerStep > 0 && |state.playerInput| == MAX_PLAYERS
    ensures FitsU32(state.logic.leftScore) && FitsU32(state.logic.rightScore) ==> n.WellFormed()
    ensures n.playerEnabled == r.playerEnabled && n.bytesPerStep == r.bytesPerStep
    ensures |r.saveData| < |n.saveData| && n.saveData[..|r.saveData|] == r.saveData
    ensures |r.savePoints| <= |n.savePoints| && n.savePoints[..|r.savePoints|] == r.savePoints
  {
    r.(saveData := r.saveData + Pack(Enabled(r.playerEnabled, state.playerInput)),
       savePoints := r.savePoints + (if SavePointDue(r, state) then [SavePoint(state, |r.saveData|)] else []),
       leftScore := state.logic.leftScore, rightScore := state.logic.rightScore)
  }

  /** Each tick adds exactly bytesPerStep bytes, a save point at the old end of the data
      iff one is due, and the end scores become the state's scores. */
  lemma RecordedShape(r: Recording, state: MatchSnap)
    requires r.WellFormed() && r.bytesPerStep > 0 && |state.playerInput| == MAX_PLAYERS
    ensures var n := Recorded(r, state);
      |n.saveData| == |r.saveData| + r.bytesPerStep && n.saveData[..|r.saveData|] == r.saveData &&
      (SavePointDue(r, state) <==> |n.savePoints| == |r.savePoints| + 1) &&
      (SavePointDue(r, state) ==> n.savePoints[|r.savePoints|].step == |r.saveData|) &&
      n.leftScore == state.logic.leftScore && n.rightScore == state.logic.rightScore
  {
    PackedTickSize(r.playerEnabled, state.playerInput);
    var n := Recorded(r, state);
    assert n.saveData[..|r.saveData|] == r.saveData;
  }

  /** Recording keeps save points in strictly increasing order inside the data. */
  lemma RecordedOrdered(r: Recording, state: MatchSnap)
    requires r.WellFormed() && r.bytesPerStep > 0 && |state.playerInput| == MAX_PLAYERS && Ordered(r)
    ensures Ordered(Recorded(r, state))
  {
    RecordedShape(r, state);
  }

  /** The arithmetic of one recorded tick against the period of b * 750 bytes, for the
      one or two bytes a tick takes. */
  lemma TickArithmetic(d: nat, cnt: nat, b: nat)
    requires b == 1 || b == 2
    requires d % b == 0 && d <= cnt * (REPLAY_SAVEPOINT_PERIOD * b)
    ensures (d + b) % b == 0
    ensures d + b <= (cnt + 1) * (REPLAY_SAVEPOINT_PERIOD * b)
    ensures d % (REPLAY_SAVEPOINT_PERIOD * b) != 0 ==> d + b <= cnt * (REPLAY_SAVEPOINT_PERIOD * b)
  {
    if b == 1 {
      assert cnt * (REPLAY_SAVEPOINT_PERIOD * b) == cnt * 750;
      assert (cnt + 1) * (REPLAY_SAVEPOINT_PERIOD * b) == cnt * 750 + 750;
    } else {
      assert cnt * (REPLAY_SAVEPOINT_PERIOD * b) == cnt * 1500;
      assert (cnt + 1) * (REPLAY_SAVEPOINT_PERIOD * b) == cnt * 1500 + 1500;
    }
  }

  /** With four slots a tick takes one or two bytes. */
  lemma BytesPerStepRange(r: Recording)
    requires r.WellFormed() && r.bytesPerStep > 0
    ensures r.bytesPerStep == 1 || r.bytesPerStep == 2
  {
  }

  /** Recording keeps the data seekable: the loader's coarse index never lands on a
      save point later than the position it looks for. */
  lemma {:induction false} RecordedSeekable(r: Recording, state: MatchSnap)
    requires r.WellFormed() && |state.playerInput| == MAX_PLAYERS && Seekable(r)
    ensures Seekable(Recorded(r, state))
  {
    var n := Recorded(r, state);
    RecordedShape(r, state);
    BytesPerStepRange(r);
    var period := REPLAY_SAVEPOINT_PERIOD * r.bytesPerStep;
    TickArithmetic(|r.saveData|, |r.savePoints|, r.bytesPerStep);
    if SavePointDue(r, state) {
      forall k | 0 <= k < |n.savePoints| ensures n.savePoints[k].step <= k * period {
        if k < |r.savePoints| {
          assert n.savePoints[k] == r.savePoints[k];
        }
      }
    } else {
      assert n.savePoints == r.savePoints;
    }
  }

  /** The recording after `finalize(left, right)`. */
  function Finalized(r: Recording, left: nat, right: nat): (n: Recording)
    ensures n.savePoints == r.savePoints && n.playerEnabled == r.playerEnabled && n.bytesPerStep == r.bytesPerStep
    ensures |n.saveData| == |r.saveData| + FINAL_PADDING_TICKS * r.bytesPerStep
    ensures n.leftScore == left && n.rightScore == right
  {
    r.(leftScore := left, rightScore := right,
       saveData := r.saveData + seq(FINAL_PADDING_TICKS * r.bytesPerStep, _ => 0))
  }

  /** `finalize` appends 75 ticks of zero bytes, keeps every save point, and so keeps
      the loader's coarse index sound. */
  lemma FinalizedShape(r: Recording, left: nat, right: nat)
    requires Ordered(r)
    ensures var n := Finalized(r, left, right);
      |n.saveData| == |r.saveData| + FINAL_PADDING_TICKS * r.bytesPerStep &&
      n.saveData[..|r.saveData|] == r.saveData &&
      (forall k :: |r.saveData| <= k < |n.saveData| ==> n.saveData[k] == 0) &&
      n.savePoints == r.savePoints && Ordered(n) &&
      (SeekBound(r.savePoints, REPLAY_SAVEPOINT_PERIOD * r.bytesPerStep) ==>
        SeekBound(n.savePoints, REPLAY_SAVEPOINT_PERIOD * n.bytesPerStep))
  {
    var n := Finalized(r, left, right);
    assert n.saveData[..|r.saveData|] == r.saveData;
  }

  // ---------------------------------------------------------------------------
  // Network transfer: one field per typed call on the generic stream

  datatype Field =
    | Text(s: string)
    | ColorInt(c: int)
    | Word(n: nat)
    | Bytes(b: seq<bv8>)
    | Points(p: seq<SavePoint>)

  /** `uint32(x)` of an int: x modulo 2^32. */
  function ToU32(x: int): (n: nat)
    ensures FitsU32(n)
  {
    x % TWO_32
  }

  /** An `unsigned int` read back into an `int`. */
  function FromU32(n: nat): int
  {
    if n >= 0x8000_0000 then n - TWO_32 else n
  }

  lemma U32RoundTrip(x: int)
    requires Numerals.INT_MIN <= x <= Numerals.INT_MAX
    ensures FromU32(ToU32(x)) == x
  {
  }

  /** Name and color of every enabled slot from slot i on. */
  function NameFields(en: seq<bool>, names: seq<string>, colors: seq<int>, i: nat): (out: seq<Field>)
    requires |en| == MAX_PLAYERS && |names| == MAX_PLAYERS && |colors| == MAX_PLAYERS && i <= MAX_PLAYERS
    ensures |out| % 2 == 0 && |out| <= 2 * (MAX_PLAYERS - i)
    decreases MAX_PLAYERS - i
  {
    if i == MAX_PLAYERS then []
    else NamePiece(en, names, colors, i) + NameFields(en, names, colors, i + 1)
  }

  /** The fields slot k contributes: its name and color when it is enabled. */
  function NamePiece(en: seq<bool>, names: seq<string>, colors: seq<int>, k: nat): seq<Field>
    requires |en| == MAX_PLAYERS && |names| == MAX_PLAYERS && |colors| == MAX_PLAYERS && k < MAX_PLAYERS
  {
    if en[k] then [Text(names[k]), ColorInt(colors[k])] else []
  }

  /** The name and color fields of the enabled slots below n, as `send`'s loop has
      written them after n turns. */
  function NameFieldsBelow(en: seq<bool>, names: seq<string>, colors: seq<int>, n: nat): seq<Field>
    requires |en| == MAX_PLAYERS && |names| == MAX_PLAYERS && |colors| == MAX_PLAYERS && n <= MAX_PLAYERS
  {
    if n == 0 then []
    else NameFieldsBelow(en, names, colors, n - 1) + NamePiece(en, names, colors, n - 1)
  }

  /** The fields below slot i, then the fields from slot i on, are all the fields. */
  lemma {:induction false} NameFieldsSplit(en: seq<bool>, names: seq<string>, colors: seq<int>, i: nat)
    requires |en| == MAX_PLAYERS && |names| == MAX_PLAYERS && |colors| == MAX_PLAYERS && i <= MAX_PLAYERS
    ensures NameFields(en, names, colors, 0) == NameFieldsBelow(en, names, colors, i) + NameFields(en, names, colors, i)
  {
    if i == 0 {
      assert NameFieldsBelow(en, names, colors, 0) == [];
    } else {
      NameFieldsSplit(en, names, colors, i - 1);
      var below, rest := NameFieldsBelow(en, names, colors, i - 1), NameFields(en, names, colors, i);
      var piece := NamePiece(en, names, colors, i - 1);
      assert NameFields(en, names, colors, i - 1) == piece + rest;
      AppendAssoc(below, piece, rest);
      assert NameFieldsBelow(en, names, colors, i) == below + piece;
    }
  }

  /** Concatenation is associative. */
  lemma AppendAssoc<T>(a: seq<T>, b: seq<T>, c: seq<T>)
    ensures a + (b + c) == (a + b) + c
  {
  }

  /** `send`: names and colors of the enabled slots, speed, the two end scores, the
      rules, the data and the save points. */
  function Sent(r: Recording): (f: seq<Field>)
    requires r.WellFormed()
    ensures 6 <= |f| <= 2 * MAX_PLAYERS + 6 && |f| % 2 == 0
  {
    NameFields(r.playerEnabled, r.playerNames, r.playerColors, 0) +
    [Word(ToU32(r.gameSpeed)), Word(r.leftScore), Word(r.rightScore), Text(r.gameRules), Bytes(r.saveData), Points(r.savePoints)]
  }

  /** The name and color reads of `receive` from slot i on, for the receiver's own
      enabled flags. */
  function ReadNames(t: seq<Field>, en: seq<bool>, names: seq<string>, colors: seq<int>, i: nat): (res: Option<(seq<string>, seq<int>, seq<Field>)>)
    requires |en| == MAX_PLAYERS && |names| == MAX_PLAYERS && |colors| == MAX_PLAYERS && i <= MAX_PLAYERS
    ensures res.Some? ==> |res.value.0| == MAX_PLAYERS && |res.value.1| == MAX_PLAYERS
    decreases MAX_PLAYERS - i
  {
    if i == MAX_PLAYERS then Some((names, colors, t))
    else if !en[i] then ReadNames(t, en, names, colors, i + 1)
    else if |t| < 2 || !t[0].Text? || !t[1].ColorInt? then None
    else ReadNames(t[2..], en, names[i := t[0].s], colors[i := t[1].c], i + 1)
  }

  /** `receive`. Fields the stream does not carry (the enabled flags, bytes per step)
      stay the receiver's. */
  function Received(t: seq<Field>, r: Recording): (res: Option<(Recording, seq<Field>)>)
    requires r.WellFormed()
    ensures res.Some? ==> res.value.0.WellFormed()
  {
    match ReadNames(t, r.playerEnabled, r.playerNames, r.playerColors, 0)
    case None => None
    case Some((names, colors, t1)) =>
      if |t1| < 6 || !t1[0].Word? || !t1[1].Word? || !t1[2].Word? || !t1[3].Text? || !t1[4].Bytes? || !t1[5].Points? then None
      else if !FitsU32(t1[1].n) || !FitsU32(t1[2].n) then None
      else Some((r.(playerNames := names, playerColors := colors,
                    gameSpeed := FromU32(t1[0].n % TWO_32), leftScore := t1[1].n, rightScore := t1[2].n,
                    gameRules := t1[3].s, saveData := t1[4].b, savePoints := t1[5].p), t1[6..]))
  }

  /** The sender's values for enabled slots from slot i on, the receiver's own for the
      rest. */
  function Merge<T>(en: seq<bool>, from: seq<T>, into: seq<T>, i: nat): (res: seq<T>)
    requires |en| == MAX_PLAYERS && |from| == MAX_PLAYERS && |into| == MAX_PLAYERS
    ensures |res| == MAX_PLAYERS
    ensures forall k :: 0 <= k < MAX_PLAYERS ==> res[k] == if i <= k && en[k] then from[k] else into[k]
  {
    seq(MAX_PLAYERS, k requires 0 <= k < MAX_PLAYERS => if i <= k && en[k] then from[k] else into[k])
  }

  lemma MergeEnd<T>(en: seq<bool>, from: seq<T>, into: seq<T>)
    requires |en| == MAX_PLAYERS && |from| == MAX_PLAYERS && |into| == MAX_PLAYERS
    ensures Merge(en, from, into, MAX_PLAYERS) == into
  {
  }

  lemma MergeKeep<T>(en: seq<bool>, from: seq<T>, into: seq<T>, i: nat)
    requires |en| == MAX_PLAYERS && |from| == MAX_PLAYERS && |into| == MAX_PLAYERS
    requires i < MAX_PLAYERS && !en[i]
    ensures Merge(en, from, into, i + 1) == Merge(en, from, into, i)
  {
  }

  lemma MergeTake<T>(en: seq<bool>, from: seq<T>, into: seq<T>, i: nat)
    requires |en| == MAX_PLAYERS && |from| == MAX_PLAYERS && |into| == MAX_PLAYERS
    requires i < MAX_PLAYERS && en[i]
    ensures Merge(en, from, into[i := from[i]], i + 1) == Merge(en, from, into, i)
  {
  }

  lemma {:induction false} ReadNamesRoundTrip(en: seq<bool>, names: seq<string>, colors: seq<int>,
                                              names0: seq<string>, colors0: seq<int>, i: nat, rest: seq<Field>)
    requires |en| == MAX_PLAYERS && |names| == MAX_PLAYERS && |colors| == MAX_PLAYERS && i <= MAX_PLAYERS
    requires |names0| == MAX_PLAYERS && |colors0| == MAX_PLAYERS
    ensures ReadNames(NameFields(en, names, colors, i) + rest, en, names0, colors0, i) ==
      Some((Merge(en, names, names0, i), Merge(en, colors, colors0, i), rest))
    decreases MAX_PLAYERS - i
  {
    var t := NameFields(en, names, colors, i) + rest;
    if i == MAX_PLAYERS {
      MergeEnd(en, names, names0);
      MergeEnd(en, colors, colors0);
      assert t == rest;
    } else if !en[i] {
      assert t == NameFields(en, names, colors, i + 1) + rest;
      ReadNamesRoundTrip(en, names, colors, names0, colors0, i + 1, rest);
      MergeKeep(en, names, names0, i);
      MergeKeep(en, colors, colors0, i);
    } else {
      var head := [Text(names[i]), ColorInt(colors[i])];
      var t1 := NameFields(en, names, colors, i + 1) + rest;
      assert t == head + t1;
      assert t[2..] == t1 && t[0] == Text(names[i]) && t[1] == ColorInt(colors[i]);
      ReadNamesRoundTrip(en, names, colors, names0[i := names[i]], colors0[i := colors[i]], i + 1, rest);
      MergeTake(en, names, names0, i);
      MergeTake(en, colors, colors0, i);
    }
  }

  /** What `send` writes, `receive` reads back, for a receiver with the sender's enabled
      flags: the flags are not transferred, and neither are the names and colors of
      disabled slots, which stay the receiver's. */
  lemma TransferRoundTrip(r: Recording, into: Recording, rest: seq<Field>)
    requires r.WellFormed() && into.WellFormed() && into.playerEnabled == r.playerEnabled
    ensures var res := Received(Sent(r) + rest, into);
      res.Some? && res.value.1 == rest &&
      res.value.0 == r.(playerNames := Merge(r.playerEnabled, r.playerNames, into.playerNames, 0),
                        playerColors := Merge(r.playerEnabled, r.playerColors, into.playerColors, 0))
  {
    var tail := [Word(ToU32(r.gameSpeed)), Word(r.leftScore), Word(r.rightScore), Text(r.gameRules), Bytes(r.saveData), Points(r.savePoints)];
    assert Sent(r) + rest == NameFields(r.playerEnabled, r.playerNames, r.playerColors, 0) + (tail + rest);
    ReadNamesRoundTrip(r.playerEnabled, r.playerNames, r.playerColors, into.playerNames, into.playerColors, 0, tail + rest);
    assert (tail + rest)[6..] == rest;
    U32RoundTrip(r.gameSpeed);
  }

  /** A receiver that agrees with the sender on the disabled slots gets the whole
      recording back. */
  lemma TransferRoundTripExact(r: Recording, into: Recording, rest: seq<Field>)
    requires r.WellFormed() && into.WellFormed() && into.playerEnabled == r.playerEnabled
    requires forall k :: 0 <= k < MAX_PLAYERS && !r.playerEnabled[k] ==>
      into.playerNames[k] == r.playerNames[k] && into.playerColors[k] == r.playerColors[k]
    ensures Received(Sent(r) + rest, into) == Some((r, rest))
  {
    TransferRoundTrip(r, into, rest);
    assert Merge(r.playerEnabled, r.playerNames, into.playerNames, 0) == r.playerNames;
    assert Merge(r.playerEnabled, r.playerColors, into.playerColors, 0) == r.playerColors;
  }

  // ---------------------------------------------------------------------------
  // The client's download: what a receiver's own flags decide

  /** The number of enabled slots from slot i on. */
  function CountFrom(en: seq<bool>, i: nat): (n: nat)
    requires i <= |en|
    ensures n <= |en| - i
    decreases |en| - i
  {
    if i == |en| then 0 else (if en[i] then 1 else 0) + CountFrom(en, i + 1)
  }

  /** The slots below i and the slots from i on together are all the enabled slots. */
  lemma {:induction false} CountSplit(en: seq<bool>, i: nat)
    requires i <= |en|
    ensures Count(en[..i]) + CountFrom(en, i) == Count(en)
    decreases |en| - i
  {
    if i < |en| {
      CountSplit(en, i + 1);
      assert en[..i + 1][..i] == en[..i];
    } else {
      assert en[..i] == en;
    }
  }

  /** The name fields from slot i on are empty exactly when no slot from i on is
      enabled, and otherwise start with a name. */
  lemma {:induction false} NameFieldsStart(en: seq<bool>, names: seq<string>, colors: seq<int>, i: nat)
    requires |en| == MAX_PLAYERS && |names| == MAX_PLAYERS && |colors| == MAX_PLAYERS && i <= MAX_PLAYERS
    ensures var f := NameFields(en, names, colors, i);
      (f == [] <==> CountFrom(en, i) == 0) && (f != [] ==> f[0].Text?)
    decreases MAX_PLAYERS - i
  {
    if i < MAX_PLAYERS {
      NameFieldsStart(en, names, colors, i + 1);
    }
  }

  /** Reading the name fields of a sender with flags `es` by the receiver's flags `er`
      reaches a number field only when both have equally many enabled slots left. */
  lemma {:induction false} ReadNamesCount(es: seq<bool>, ns: seq<string>, cs: seq<int>, i: nat,
                                          er: seq<bool>, names0: seq<string>, colors0: seq<int>, j: nat, tail: seq<Field>)
    requires |es| == MAX_PLAYERS && |ns| == MAX_PLAYERS && |cs| == MAX_PLAYERS && i <= MAX_PLAYERS
    requires |er| == MAX_PLAYERS && |names0| == MAX_PLAYERS && |colors0| == MAX_PLAYERS && j <= MAX_PLAYERS
    requires |tail| > 0 && tail[0].Word?
    ensures var res := ReadNames(NameFields(es, ns, cs, i) + tail, er, names0, colors0, j);
      res.Some? && |res.value.2| > 0 && res.value.2[0].Word? ==> CountFrom(es, i) == CountFrom(er, j)
    decreases (MAX_PLAYERS - i) + (MAX_PLAYERS - j)
  {
    var f := NameFields(es, ns, cs, i);
    if j == MAX_PLAYERS {
      NameFieldsStart(es, ns, cs, i);
      if f != [] {
        assert (f + tail)[0] == f[0];
      }
    } else if !er[j] {
      ReadNamesCount(es, ns, cs, i, er, names0, colors0, j + 1, tail);
    } else if i == MAX_PLAYERS {
      assert f + tail == tail;
    } else if !es[i] {
      assert f == NameFields(es, ns, cs, i + 1);
      ReadNamesCount(es, ns, cs, i + 1, er, names0, colors0, j, tail);
    } else {
      var t, t2 := f + tail, NameFields(es, ns, cs, i + 1) + tail;
      assert f == [Text(ns[i]), ColorInt(cs[i])] + NameFields(es, ns, cs, i + 1);
      assert t[0] == Text(ns[i]) && t[1] == ColorInt(cs[i]) && t[2..] == t2;
      assert ReadNames(t, er, names0, colors0, j) == ReadNames(t2, er, names0[j := ns[i]], colors0[j := cs[i]], j + 1);
      ReadNamesCount(es, ns, cs, i + 1, er, names0[j := ns[i]], colors0[j := cs[i]], j + 1, tail);
    }
  }

  /** `receive` reads names and colors for its own enabled slots, and the stream does
      not carry the sender's flags: a receiver with a different number of enabled slots
      never reads what `send` wrote. */
  lemma ReceiveNeedsSenderCount(r: Recording, into: Recording, rest: seq<Field>)
    requires r.WellFormed() && into.WellFormed()
    ensures Received(Sent(r) + rest, into).Some? ==> Count(into.playerEnabled) == Count(r.playerEnabled)
  {
    var tail := [Word(ToU32(r.gameSpeed)), Word(r.leftScore), Word(r.rightScore), Text(r.gameRules), Bytes(r.saveData), Points(r.savePoints)];
    assert Sent(r) + rest == NameFields(r.playerEnabled, r.playerNames, r.playerColors, 0) + (tail + rest);
    ReadNamesCount(r.playerEnabled, r.playerNames, r.playerColors, 0,
                   into.playerEnabled, into.playerNames, into.playerColors, 0, tail + rest);
    CountSplit(r.playerEnabled, 0);
    CountSplit(into.playerEnabled, 0);
  }

  /** The recording of a freshly constructed recorder: speed -1, nothing recorded, and
      the flags, names, colors, end scores and bytes per step, which the constructor
      leaves alone, taken as false, empty and zero. */
  function FreshRecording(): (r: Recording)
    ensures r.WellFormed() && Count(r.playerEnabled) == 0 && r.gameSpeed == -1
    ensures r.saveData == [] && r.savePoints == []
  {
    var en := seq(MAX_PLAYERS, _ => false);
    CountNone(en);
    Recording(en, seq(MAX_PLAYERS, _ => ""), seq(MAX_PLAYERS, _ => 0), -1, 0, 0, "", [], [], 0)
  }

  /** As written, the client receives the replay into a fresh recorder
      (src/state/NetworkState.cpp:414-415). It then fails on the replay of every game
      with an enabled slot. */
  lemma FreshReceiverMisreads(r: Recording, rest: seq<Field>)
    requires r.WellFormed() && Count(r.playerEnabled) > 0
    ensures Received(Sent(r) + rest, FreshRecording()).None?
  {
    ReceiveNeedsSenderCount(r, FreshRecording(), rest);
  }

  /** A receiver after `setPlayerEnabled(en)`: the flags copied and one byte per two
      enabled players, rounded up. */
  function Told(into: Recording, en: seq<bool>): (r: Recording)
    requires |en| == MAX_PLAYERS
    ensures r.playerEnabled == en && r.bytesPerStep == (Count(en) + 1) / 2
    ensures into.WellFormed() ==> r.WellFormed()
  {
    into.(playerEnabled := en, bytesPerStep := (Count(en) + 1) / 2)
  }

  /** Corrected: a receiver told the sender's flags first, a fresh one included, reads
      the replay back, keeping only the disabled slots' names and colors its own. */
  lemma ToldReceiverRoundTrip(r: Recording, into: Recording, rest: seq<Field>)
    requires r.WellFormed() && into.WellFormed()
    ensures Received(Sent(r) + rest, Told(into, r.playerEnabled)) ==
      Some((r.(playerNames := Merge(r.playerEnabled, r.playerNames, into.playerNames, 0),
               playerColors := Merge(r.playerEnabled, r.playerColors, into.playerColors, 0)), rest))
  {
    TransferRoundTrip(r, Told(into, r.playerEnabled), rest);
  }

  // ---------------------------------------------------------------------------
  // The saved file, as the XML reader presents it

  /** A `<var name=.. value=..>` element; either attribute may be missing. */
  datatype XmlVar = XmlVar(name: Option<string>, value: Option<string>)

  /** The `version` element: its two attributes, and the `name`/`value` attributes it
      may also carry, since the loader's attribute loop starts at this element. */
  datatype VersionElem = VersionElem(major: Option<string>, minor: Option<string>, attrs: XmlVar)

  /** The parts of a replay document the loader looks at. `None` is a missing element
      and `Some(None)` an element without content; the input and save-point contents
      are already decoded. */
  datatype ReplayDoc = ReplayDoc(
    parseError: bool,
    hasReplay: bool,
    version: Option<VersionElem>,
    vars: seq<XmlVar>,
    rules: Option<Option<string>>,
    input: Option<Option<seq<bv8>>>,
    states: Option<Option<seq<SavePoint>>>)

  function Var(name: string, value: string): XmlVar { XmlVar(Some(name), Some(value)) }

  /** The player attributes of `save` from slot i on. */
  function PlayerVars(r: Recording, prefix: int -> string, i: nat): (vs: seq<XmlVar>)
    requires r.WellFormed() && i <= MAX_PLAYERS
    ensures |vs| <= 2 * (MAX_PLAYERS - i)
    decreases MAX_PLAYERS - i
  {
    if i == MAX_PLAYERS then []
    else (if r.playerEnabled[i] then [Var("name_" + prefix(i), r.playerNames[i]), Var("color_" + prefix(i), Numerals.Decimal(r.playerColors[i]))] else [])
         + PlayerVars(r, prefix, i + 1)
  }

  /** Seconds recorded: the data length over the bytes per second. */
  function Duration(r: Recording): nat
    requires r.gameSpeed > 0 && r.bytesPerStep > 0
  {
    |r.saveData| / (r.gameSpeed * r.bytesPerStep)
  }

  /** `save`, with `date` the clock reading and `prefix` the per-slot attribute
      suffix. */
  function SavedDoc(r: Recording, date: int, prefix: int -> string): (d: ReplayDoc)
    requires r.WellFormed() && r.gameSpeed > 0 && r.bytesPerStep > 0
    ensures !d.parseError && d.hasReplay && d.version.Some?
    ensures 6 <= |d.vars| <= 6 + 2 * MAX_PLAYERS
  {
    ReplayDoc(false, true,
      Some(VersionElem(Some(Numerals.Decimal(REPLAY_FILE_VERSION_MAJOR)), Some(Numerals.Decimal(REPLAY_FILE_VERSION_MINOR)), XmlVar(None, None))),
      [Var("game_speed", Numerals.Decimal(r.gameSpeed)),
       Var("game_length", Numerals.Decimal(|r.saveData|)),
       Var("game_duration", Numerals.Decimal(Duration(r))),
       Var("game_date", Numerals.Decimal(date)),
       Var("score_left", Numerals.Decimal(r.leftScore)),
       Var("score_right", Numerals.Decimal(r.rightScore))]
      + PlayerVars(r, prefix, 0),
      Some(Some(r.gameRules)), Some(Some(r.saveData)), Some(Some(r.savePoints)))
  }

  // ---------------------------------------------------------------------------

  class ReplayRecorder {
    const playerEnabled: array<bool>
    const playerNames: array<string>
    const playerColors: array<int>
    var gameSpeed: int
    var leftScore: nat
    var rightScore: nat
    var gameRules: string
    var saveData: seq<bv8>
    var savePoints: seq<SavePoint>
    var bytesPerStep: nat

    ghost predicate Valid()
      reads this, playerEnabled, playerNames, playerColors
    {
      playerEnabled.Length == MAX_PLAYERS && playerNames.Length == MAX_PLAYERS && playerColors.Length == MAX_PLAYERS &&
      Value().WellFormed() && Ordered(Value())
    }

    function Value(): Recording
      reads this, playerEnabled, playerNames, playerColors
    {
      Recording(playerEnabled[..], playerNames[..], playerColors[..], gameSpeed, leftScore, rightScore,
                gameRules, saveData, savePoints, bytesPerStep)
    }

    /** A recorder with no slot enabled yet, speed -1 and nothing recorded. */
    constructor ()
      ensures Valid() && Value() == FreshRecording()
    {
      playerEnabled := new bool[MAX_PLAYERS](_ => false);
      playerNames := new string[MAX_PLAYERS](_ => "");
      playerColors := new int[MAX_PLAYERS](_ => 0);
      gameSpeed := -1;
      leftScore, rightScore := 0, 0;
      gameRules := "";
      saveData, savePoints := [], [];
      bytesPerStep := 0;
      new;
      assert playerEnabled[..] == seq(MAX_PLAYERS, _ => false);
      assert playerNames[..] == seq(MAX_PLAYERS, _ => "");
      assert playerColors[..] == seq(MAX_PLAYERS, _ => 0);
      CountNone(playerEnabled[..]);
    }

    /** `setPlayerEnabled`: the flags are copied, and a tick then takes one byte per
        two enabled players, rounded up. */
    method SetPlayerEnabled(en: seq<bool>)
      requires Valid() && |en| == MAX_PLAYERS
      modifies playerEnabled, this
      ensures Valid()
      ensures Value() == Told(old(Value()), en)
    {
      var playersCount := 0;
      var i := 0;
      while i < MAX_PLAYERS
        modifies playerEnabled
        invariant 0 <= i <= MAX_PLAYERS
        invariant playerEnabled[..i] == en[..i] && playersCount == Count(en[..i])
        invariant forall k :: i <= k < MAX_PLAYERS ==> playerEnabled[k] == old(playerEnabled[k])
      {
        assert en[..i + 1][..i] == en[..i];
        playerEnabled[i] := en[i];
        if en[i] {
          playersCount := playersCount + 1;
        }
        i := i + 1;
        assert playerEnabled[..i] == playerEnabled[..i - 1] + [en[i - 1]];
      }
      assert en[..i] == en && playerEnabled[..] == playerEnabled[..i];
      bytesPerStep := (playersCount + 1) / 2;
      assert Value() == old(Value()).(playerEnabled := en, bytesPerStep := (Count(en) + 1) / 2);
    }

    method SetPlayerNames(names: seq<string>)
      requires Valid() && |names| == MAX_PLAYERS
      modifies playerNames
      ensures Valid() && Value() == old(Value()).(playerNames := names)
    {
      var i := 0;
      while i < MAX_PLAYERS
        invariant 0 <= i <= MAX_PLAYERS
        invariant forall k :: 0 <= k < i ==> playerNames[k] == names[k]
        invariant forall k :: i <= k < MAX_PLAYERS ==> playerNames[k] == old(playerNames[k])
      {
        playerNames[i] := names[i];
        i := i + 1;
      }
      assert playerNames[..] == names;
    }

    method SetPlayerColors(colors: seq<int>)
      requires Valid() && |colors| == MAX_PLAYERS
      modifies playerColors
      ensures Valid() && Value() == old(Value()).(playerColors := colors)
    {
      var i := 0;
      while i < MAX_PLAYERS
        invariant 0 <= i <= MAX_PLAYERS
        invariant forall k :: 0 <= k < i ==> playerColors[k] == colors[k]
        invariant forall k :: i <= k < MAX_PLAYERS ==> playerColors[k] == old(playerColors[k])
      {
        playerColors[i] := colors[i];
        i := i + 1;
      }
      assert playerColors[..] == colors;
    }

    method SetGameSpeed(fps: int)
      requires Valid() && Numerals.INT_MIN <= fps <= Numerals.INT_MAX
      modifies this
      ensures Valid() && Value() == old(Value()).(gameSpeed := fps)
    {
      gameSpeed := fps;
    }

    /** `setGameRules` with the rules file already read and trimmed. */
    method SetGameRules(rules: string)
      requires Valid()
      modifies this
      ensures Valid() && Value() == old(Value()).(gameRules := rules)
    {
      gameRules := rules;
    }

    /** The packing loop of `record`: the inputs of the enabled slots, two to a byte. */
    method PackedTick(inputs: seq<PlayerInput>) returns (data: seq<bv8>)
      requires playerEnabled.Length == MAX_PLAYERS && |inputs| == MAX_PLAYERS
      ensures data == Pack(Enabled(playerEnabled[..], inputs))
    {
      ghost var en := playerEnabled[..];
      ghost var act: seq<PlayerInput> := [];
      data := [];
      var packet: bv8 := 1 << 7;
      var newPacket := true;
      var i := 0;
      while i < MAX_PLAYERS
        invariant 0 <= i <= MAX_PLAYERS && act == Enabled(en[..i], inputs[..i])
        invariant en == playerEnabled[..] && |en| == MAX_PLAYERS
        invariant newPacket ==> |act| == 2 * |data| && data == Pack(act)
        invariant !newPacket ==> |act| == 2 * |data| + 1 && data == Pack(act[..2 * |data|]) && packet == FirstByte(act[2 * |data|])
      {
        EnabledSnoc(en, inputs, i);
        assert playerEnabled[i] == en[i];
        if playerEnabled[i] {
          var x := inputs[i];
          if newPacket {
            PackSnocEven(act, x, |data|);
            packet := 1 << 7;
            packet := packet | ((x.GetAll() & 7) << 3);
            assert packet == FirstByte(x);
            newPacket := false;
            assert (act + [x])[..2 * |data|] == act;
          } else {
            PackSnocOdd(act, x, |data|);
            packet := packet | (x.GetAll() & 7);
            assert packet == PairByte(act[2 * |data|], x);
            data := data + [packet];
            newPacket := true;
          }
          act := act + [x];
        }
        i := i + 1;
      }
      if !newPacket {
        PackSnocEven(act[..2 * |data|], act[2 * |data|], |data|);
        assert act[..2 * |data|] + [act[2 * |data|]] == act;
        data := data + [packet];
      }
      assert en[..i] == en && inputs[..i] == inputs;
    }

    /** `record`: a save point when one is due, then the tick's packed inputs, then the
        end scores. */
    method Record(state: MatchSnap)
      requires Valid() && bytesPerStep > 0 && |state.playerInput| == MAX_PLAYERS
      requires FitsU32(state.logic.leftScore) && FitsU32(state.logic.rightScore)
      modifies this
      ensures Valid() && Value() == Recorded(old(Value()), state)
    {
      ghost var r := Value();
      if |saveData| % (REPLAY_SAVEPOINT_PERIOD * bytesPerStep) == 0 ||
         leftScore != state.logic.leftScore || rightScore != state.logic.rightScore {
        savePoints := savePoints + [SavePoint(state, |saveData|)];
      }
      var packed := PackedTick(state.playerInput);
      saveData := saveData + packed;
      leftScore := state.logic.leftScore;
      rightScore := state.logic.rightScore;
      RecordedOrdered(r, state);
    }

    /** `finalize`: the final scores, then one second of empty input. */
    method Finalize(left: nat, right: nat)
      requires Valid() && FitsU32(left) && FitsU32(right)
      modifies this
      ensures Valid() && Value() == Finalized(old(Value()), left, right)
    {
      ghost var r := Value();
      leftScore := left;
      rightScore := right;
      var i := 0;
      while i < FINAL_PADDING_TICKS * bytesPerStep
        invariant 0 <= i <= FINAL_PADDING_TICKS * bytesPerStep
        invariant saveData == r.saveData + seq(i, _ => 0)
        invariant savePoints == r.savePoints && bytesPerStep == r.bytesPerStep && gameSpeed == r.gameSpeed && gameRules == r.gameRules
        invariant leftScore == left && rightScore == right
      {
        saveData := saveData + [0];
        i := i + 1;
      }
      FinalizedShape(r, left, right);
    }

    /** `send`. */
    method Send() returns (out: seq<Field>)
      requires Valid()
      ensures out == Sent(Value())
    {
      out := SendNames();
      out := out + [Word(ToU32(gameSpeed)), Word(leftScore), Word(rightScore), Text(gameRules), Bytes(saveData), Points(savePoints)];
    }

    /** The slot loop of `send`: name and color of every enabled slot. */
    method SendNames() returns (out: seq<Field>)
      requires playerEnabled.Length == MAX_PLAYERS && playerNames.Length == MAX_PLAYERS && playerColors.Length == MAX_PLAYERS
      ensures out == NameFields(playerEnabled[..], playerNames[..], playerColors[..], 0)
    {
      ghost var en, nm, co := playerEnabled[..], playerNames[..], playerColors[..];
      out := [];
      var i := 0;
      while i < MAX_PLAYERS
        invariant 0 <= i <= MAX_PLAYERS
        invariant en == playerEnabled[..] && nm == playerNames[..] && co == playerColors[..]
        invariant out == NameFieldsBelow(en, nm, co, i)
      {
        if playerEnabled[i] {
          out := out + [Text(playerNames[i]), ColorInt(playerColors[i])];
        }
        i := i + 1;
      }
      NameFieldsSplit(en, nm, co, MAX_PLAYERS);
      assert NameFields(en, nm, co, MAX_PLAYERS) == [];
    }

    /** Corrected download: the replay's flags set first, then `receive`. */
    method ReceiveFor(en: seq<bool>, t: seq<Field>) returns (ok: bool, rest: seq<Field>)
      requires Valid() && |en| == MAX_PLAYERS
      modifies this, playerEnabled, playerNames, playerColors
      ensures ok <==> Received(t, Told(old(Value()), en)).Some?
      ensures ok ==> (Value(), rest) == Received(t, Told(old(Value()), en)).value
    {
      SetPlayerEnabled(en);
      ok, rest := Receive(t);
    }

    /** `receive`: true and the fields read when the stream holds them in `send`'s
        order; a short or mistyped stream is false. The method decides the whole read
        with `Received` first and then stores the fields; it does not read them one by
        one in stream order as the source does, and it leaves the state alone when the
        read fails. */
    method Receive(t: seq<Field>) returns (ok: bool, rest: seq<Field>)
      requires Valid()
      modifies this, playerNames, playerColors
      ensures ok <==> Received(t, old(Value())).Some?
      ensures ok ==> (Value(), rest) == Received(t, old(Value())).value
    {
      ghost var r := Value();
      var read := Received(t, Value());
      ok := read.Some?;
      rest := t;
      if !ok {
        return;
      }
      var n := read.value.0;
      rest := read.value.1;
      var i := 0;
      while i < MAX_PLAYERS
        modifies playerNames, playerColors
        invariant 0 <= i <= MAX_PLAYERS
        invariant forall k :: 0 <= k < i ==> playerNames[k] == n.playerNames[k] && playerColors[k] == n.playerColors[k]
      {
        playerNames[i] := n.playerNames[i];
        playerColors[i] := n.playerColors[i];
        i := i + 1;
      }
      gameSpeed, leftScore, rightScore, gameRules, saveData, savePoints :=
        n.gameSpeed, n.leftScore, n.rightScore, n.gameRules, n.saveData, n.savePoints;
      assert playerNames[..] == n.playerNames && playerColors[..] == n.playerColors;
    }
  }
}
