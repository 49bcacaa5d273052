/** The parts of the base game state that do not draw: the default replay name, saving a
    replay with its retry flag and error message, and the two-part error box. */
module GameStates {
  import opened Common

  /** `std::string::npos` on a 64-bit target, and the modulus of `size_t`. */
  const TWO_64: nat := 0x1_0000_0000_0000_0000
  const NPOS: nat := TWO_64 - 1

  /** How many characters of each name the default replay name keeps. */
  const NAME_PREFIX: nat := 7

  // ---------------------------------------------------------------------------------
  // Default replay name

  /** A name cut down to `NAME_PREFIX` characters by `resize`. */
  function Shortened(name: string): (r: string)
    ensures |r| == if |name| > NAME_PREFIX then NAME_PREFIX else |name|
    ensures r == name[..|r|]
  {
    if |name| > NAME_PREFIX then name[..NAME_PREFIX] else name
  }

  /** `setDefaultReplayName`: the left player's shortened name, " vs ", the right
      player's shortened name. */
  function DefaultReplayName(names: seq<string>): (name: string)
    requires |names| == MAX_PLAYERS
    ensures 4 <= |name| <= 2 * NAME_PREFIX + 4
  {
    Shortened(names[LEFT_PLAYER]) + " vs " + Shortened(names[RIGHT_PLAYER])
  }

  /** The default name is at most 18 characters; it is made of a prefix of the left name
      of length min(7, |left|), " vs ", and a prefix of the right name of length
      min(7, |right|); names of at most 7 characters are kept whole. */
  lemma DefaultReplayNameShape(names: seq<string>)
    requires |names| == MAX_PLAYERS
    ensures var r := DefaultReplayName(names);
            var a := if |names[LEFT_PLAYER]| > NAME_PREFIX then NAME_PREFIX else |names[LEFT_PLAYER]|;
            var b := if |names[RIGHT_PLAYER]| > NAME_PREFIX then NAME_PREFIX else |names[RIGHT_PLAYER]|;
            |r| == a + 4 + b && |r| <= 2 * NAME_PREFIX + 4
            && r[..a] == names[LEFT_PLAYER][..a] && r[a..a + 4] == " vs "
            && r[a + 4..] == names[RIGHT_PLAYER][..b]
    ensures |names[LEFT_PLAYER]| <= NAME_PREFIX && |names[RIGHT_PLAYER]| <= NAME_PREFIX ==>
              DefaultReplayName(names) == names[LEFT_PLAYER] + " vs " + names[RIGHT_PLAYER]
  {
  }

  /** Only the two front slots influence the default name. */
  lemma DefaultReplayNameFrontSlots(names: seq<string>, others: seq<string>)
    requires |names| == MAX_PLAYERS && |others| == MAX_PLAYERS
    requires names[LEFT_PLAYER] == others[LEFT_PLAYER] && names[RIGHT_PLAYER] == others[RIGHT_PLAYER]
    ensures DefaultReplayName(names) == DefaultReplayName(others)
  {
  }

  // ---------------------------------------------------------------------------------
  // The error box

  /** `mErrorMessage.find(':')`: the first colon's index, or `npos`. */
  function FindColon(s: string): (r: nat)
    requires |s| < NPOS
    ensures r == NPOS || (r < |s| && s[r] == ':')
    ensures r == NPOS <==> ':' !in s
    ensures forall k :: 0 <= k < |s| && k < r ==> s[k] != ':'
  {
    if |s| == 0 then NPOS
    else if s[0] == ':' then 0
    else
      var r := FindColon(s[1..]);
      assert forall k :: 1 <= k < |s| ==> s[k] == s[1..][k - 1];
      if r == NPOS then NPOS else r + 1
  }

  /** `s.substr(pos, count)`, with `pos` within the string. */
  function Substr(s: string, pos: nat, count: nat): (r: string)
    requires pos <= |s|
    ensures |r| <= |s| - pos
  {
    if count < |s| - pos then s[pos..pos + count] else s[pos..]
  }

  /** The two lines of the error box: the text up to the first colon, and the text from
      `split + 1` on, where `split + 1` is computed in `size_t`. */
  function ErrorParts(msg: string): (lines: (string, string))
    requires |msg| < NPOS
    ensures |lines.0| <= |msg| && |lines.1| <= |msg|
  {
    var split := FindColon(msg);
    var from := (split + 1) % TWO_64;
    assert from <= |msg|;
    (Substr(msg, 0, split), Substr(msg, from, NPOS))
  }

  /** A message with a colon shows the text before the first colon and the text after
      it, and nothing else is lost. */
  lemma ErrorPartsColon(msg: string)
    requires |msg| < NPOS && ':' in msg
    ensures ErrorParts(msg).0 + ":" + ErrorParts(msg).1 == msg
    ensures ':' !in ErrorParts(msg).0
  {
    var split := FindColon(msg);
    assert msg == msg[..split] + [msg[split]] + msg[split + 1..];
  }

  /** Without a colon, `npos + 1` wraps to 0 and both lines show the whole message. */
  lemma ErrorPartsNoColon(msg: string)
    requires |msg| < NPOS && ':' !in msg
    ensures ErrorParts(msg) == (msg, msg)
  {
  }

  // ---------------------------------------------------------------------------------
  // Saving a replay

  /** What writing the replay to a path ends in: success, or one of the three kinds of
      exception `saveReplay` catches. */
  datatype SaveOutcome =
    | Written
    | CannotCreate(fileName: string)
    | AlreadyExists(fileName: string)
    | OtherFailure

  /** The file a replay called `name` is saved to. */
  function ReplayPath(name: string): (path: string)
    ensures |path| == |name| + 12
    ensures path[..8] == "replays/" && path[8..|path| - 4] == name && path[|path| - 4..] == ".bvr"
  {
    "replays/" + name + ".bvr"
  }

  /** The message `saveReplay` leaves for a failed write. */
  function SaveError(o: SaveOutcome): (msg: string)
    requires !o.Written?
    ensures |msg| > 20
  {
    match o
    case CannotCreate(f) => "Unable to create file:" + f
    case AlreadyExists(f) => "File already exists!:" + f
    case OtherFailure => "Could not save replay: "
  }

  /** A message made of a colon-free kind, a colon and a rest shows the kind on the first
      line and the rest on the second. */
  lemma ErrorPartsOf(kind: string, rest: string)
    requires ':' !in kind && |kind| + 1 + |rest| < NPOS
    ensures ErrorParts(kind + ":" + rest) == (kind, rest)
  {
    var m := kind + ":" + rest;
    assert m[|kind|] == ':';
    forall k | 0 <= k < |kind|
      ensures m[k] != ':'
    {
      assert m[k] == kind[k];
    }
    var split := FindColon(m);
    assert split == |kind| by {
      assert split < |m| && m[split] == ':';
    }
    assert (split + 1) % TWO_64 == |kind| + 1;
    assert Substr(m, 0, split) == m[..|kind|] == kind;
    assert Substr(m, |kind| + 1, NPOS) == m[|kind| + 1..] == rest;
  }

  /** The error box shows each failure's kind on its first line and the file name, if
      any, on its second. */
  lemma SaveErrorShown(o: SaveOutcome)
    requires !o.Written? && |SaveError(o)| < NPOS
    ensures SaveError(o) != ""
    ensures o.CannotCreate? ==> ErrorParts(SaveError(o)) == ("Unable to create file", o.fileName)
    ensures o.AlreadyExists? ==> ErrorParts(SaveError(o)) == ("File already exists!", o.fileName)
    ensures o.OtherFailure? ==> ErrorParts(SaveError(o)) == ("Could not save replay", " ")
  {
    match o
    case CannotCreate(f) =>
      assert SaveError(o) == "Unable to create file" + ":" + f;
      ErrorPartsOf("Unable to create file", f);
    case AlreadyExists(f) =>
      assert SaveError(o) == "File already exists!" + ":" + f;
      ErrorPartsOf("File already exists!", f);
    case OtherFailure =>
      assert SaveError(o) == "Could not save replay" + ":" + " ";
      ErrorPartsOf("Could not save replay", " ");
  }

  /** The saving part of the game state. */
  datatype GameSnap = GameSnap(filename: string, saveReplay: bool, errorMessage: string)

  /** `saveReplay`, where `write` says how writing to a path ends. */
  function Saved(s: GameSnap, write: string -> SaveOutcome): (r: GameSnap)
    ensures r.filename == s.filename
    ensures s.filename != "" && r.saveReplay ==> r.errorMessage != ""
  {
    if s.filename == "" then s
    else
      var o := write(ReplayPath(s.filename));
      if o.Written? then s.(saveReplay := false)
      else s.(saveReplay := true, errorMessage := SaveError(o))
  }

  /** With no file name nothing happens. Otherwise only the write to
      "replays/<name>.bvr" decides: success clears the retry flag and keeps the message;
      a failure sets the retry flag and leaves a non-empty message. The name itself is
      never changed. */
  lemma SavedEffect(s: GameSnap, write: string -> SaveOutcome)
    ensures s.filename == "" ==> Saved(s, write) == s
    ensures Saved(s, write).filename == s.filename
    ensures s.filename != "" && write(ReplayPath(s.filename)).Written? ==>
              !Saved(s, write).saveReplay && Saved(s, write).errorMessage == s.errorMessage
    ensures s.filename != "" && !write(ReplayPath(s.filename)).Written? ==>
              Saved(s, write).saveReplay && Saved(s, write).errorMessage != ""
  {
  }

  class GameState {
    var filename: string
    var saveReplay: bool
    var errorMessage: string

    function Value(): GameSnap
      reads this
    {
      GameSnap(filename, saveReplay, errorMessage)
    }

    /** No replay is pending and there is no error. */
    constructor()
      ensures Value() == GameSnap("", false, "")
    {
      filename := "";
      saveReplay := false;
      errorMessage := "";
    }

    method SetDefaultReplayName(playerNames: seq<string>)
      requires |playerNames| == MAX_PLAYERS
      modifies this
      ensures Value() == old(Value()).(filename := DefaultReplayName(playerNames))
    {
      var left := playerNames[LEFT_PLAYER];
      var right := playerNames[RIGHT_PLAYER];
      filename := left;
      if |filename| > NAME_PREFIX {
        filename := filename[..NAME_PREFIX];
      }
      filename := filename + " vs ";
      var opp := right;
      if |right| > NAME_PREFIX {
        opp := opp[..NAME_PREFIX];
      }
      filename := filename + opp;
    }

    method SaveReplay(write: string -> SaveOutcome)
      modifies this
      ensures Value() == Saved(old(Value()), write)
    {
      if filename != "" {
        var repFileName := "replays/" + filename + ".bvr";
        var outcome := write(repFileName);
        match outcome
        case Written =>
          saveReplay := false;
        case CannotCreate(f) =>
          errorMessage := "Unable to create file:" + f;
          saveReplay := true;
        case AlreadyExists(f) =>
          errorMessage := "File already exists!:" + f;
          saveReplay := true;
        case OtherFailure =>
          errorMessage := "Could not save replay: ";
          saveReplay := true;
      }
    }

    /** The buttons of the save prompt: OK saves when there is a name, Cancel drops the
        pending save and wins over OK. */
    method SaveReplayPrompt(okPressed: bool, cancelPressed: bool) returns (doSave: bool)
      modifies this
      ensures doSave <==> okPressed && !cancelPressed && filename != ""
      ensures Value() == old(Value()).(saveReplay := if cancelPressed then false else old(saveReplay))
    {
      doSave := false;
      if okPressed {
        if filename != "" {
          doSave := true;
        }
      }
      if cancelPressed {
        saveReplay := false;
        doSave := false;
      }
    }

    /** The error box: its two lines, and OK clears the message. */
    method DisplayErrorMessageBox(okPressed: bool) returns (problem: string, info: string, closed: bool)
      requires |errorMessage| < NPOS
      modifies this
      ensures (problem, info) == ErrorParts(old(errorMessage)) && closed == okPressed
      ensures Value() == old(Value()).(errorMessage := if okPressed then "" else old(errorMessage))
    {
      var split := FindColon(errorMessage);
      problem := Substr(errorMessage, 0, split);
      var from := (split + 1) % TWO_64;
      info := Substr(errorMessage, from, NPOS);
      closed := false;
      if okPressed {
        errorMessage := "";
        closed := true;
      }
    }
  }
}
