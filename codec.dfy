/**
 * The two textual wire messages of the game protocol, `PLAY(player,row,col)`
 * and `NEWGAME(boardSize,players,assignedPlayerNumber)`: encoders, prefix
 * classifiers and decoders, with Kotlin's string operations written out.
 */
module Codec {
  import opened Ints
  import opened Engine

  datatype Play = Play(player: Int32, position: Position)

  datatype NewGame = NewGame(boardSize: Int32, players: Int32, assignedPlayerNumber: Int32)

  /** Why a decoder gave up: too few fields after splitting, or a field that is not an `Int`. */
  datatype DecodeError = MissingField | NotAnInt(field: string)

  datatype Result<+T> = Ok(value: T) | Err(error: DecodeError)

  const PLAY_TAG: string := "PLAY"
  const NEWGAME_TAG: string := "NEWGAME"

  // ---------------------------------------------------------------------------
  // Kotlin string operations

  predicate StartsWith(s: string, prefix: string) {
    prefix <= s
  }

  predicate EndsWith(s: string, suffix: string) {
    |suffix| <= |s| && s[|s| - |suffix|..] == suffix
  }

  /**
   * `removeSurrounding(prefix, suffix)`: strips both only when the string is
   * long enough and starts with the prefix and ends with the suffix; otherwise
   * the string is returned unchanged.
   */
  function RemoveSurrounding(s: string, prefix: string, suffix: string): (r: string)
    ensures |prefix| + |suffix| <= |s| && StartsWith(s, prefix) && EndsWith(s, suffix) ==> s == prefix + r + suffix
    ensures !(|prefix| + |suffix| <= |s| && StartsWith(s, prefix) && EndsWith(s, suffix)) ==> r == s
  {
    if |prefix| + |suffix| <= |s| && StartsWith(s, prefix) && EndsWith(s, suffix) then
      var r := s[|prefix|..|s| - |suffix|];
      assert s == s[..|prefix|] + r + s[|s| - |suffix|..];
      r
    else s
  }

  /**
   * `split(d)`: the pieces between occurrences of `d`, empty pieces included;
   * never an empty list.
   */
  function Split(s: string, d: char): (parts: seq<string>)
    ensures |parts| > 0
    ensures forall i | 0 <= i < |parts| :: d !in parts[i]
  {
    if s == [] then [[]]
    else
      var rest := Split(s[1..], d);
      if s[0] == d then [[]] + rest
      else [[s[0]] + rest[0]] + rest[1..]
  }

  /** The pieces put back together with `d` between them (Kotlin's `joinToString`). */
  function Join(parts: seq<string>, d: char): string
    requires |parts| > 0
  {
    if |parts| == 1 then parts[0] else parts[0] + [d] + Join(parts[1..], d)
  }

  lemma {:induction false} SplitWithoutDelimiter(a: string, d: char)
    requires d !in a
    ensures Split(a, d) == [a]
  {
    if a != [] {
      assert a == [a[0]] + a[1..];
      SplitWithoutDelimiter(a[1..], d);
    }
  }

  lemma {:induction false} SplitAtFirstDelimiter(a: string, d: char, t: string)
    requires d !in a
    ensures Split(a + [d] + t, d) == [a] + Split(t, d)
  {
    if a == [] {
      assert (a + [d] + t)[1..] == t;
    } else {
      assert (a + [d] + t)[1..] == a[1..] + [d] + t;
      assert a == [a[0]] + a[1..];
      SplitAtFirstDelimiter(a[1..], d, t);
    }
  }

  /** Splitting what was joined gives back the pieces, when no piece holds the delimiter. */
  lemma {:induction false} SplitJoin(parts: seq<string>, d: char)
    requires |parts| > 0
    requires forall i | 0 <= i < |parts| :: d !in parts[i]
    ensures Split(Join(parts, d), d) == parts
  {
    if |parts| == 1 {
      SplitWithoutDelimiter(parts[0], d);
    } else {
      SplitJoin(parts[1..], d);
      SplitAtFirstDelimiter(parts[0], d, Join(parts[1..], d));
    }
  }

  /** Joining the pieces of a split gives back the string. */
  lemma {:induction false} JoinSplit(s: string, d: char)
    ensures Join(Split(s, d), d) == s
  {
    if s != [] {
      JoinSplit(s[1..], d);
      var rest := Split(s[1..], d);
      if s[0] != d && |rest| > 1 {
        assert Join(rest, d) == rest[0] + [d] + Join(rest[1..], d);
      }
    }
  }

  /** The first piece of a split starts with the string's first character unless that is the delimiter. */
  lemma FirstPieceStart(s: string, d: char)
    requires s != [] && s[0] != d
    ensures Split(s, d)[0] != [] && Split(s, d)[0][0] == s[0]
  {
  }

  // ---------------------------------------------------------------------------
  // Framing shared by both messages: TAG(a,b,c)

  /** The `"TAG($a,$b,$c)"` template both encoders use. */
  function Frame(tag: string, a: Int32, b: Int32, c: Int32): (s: string)
    ensures StartsWith(s, tag + "(") && EndsWith(s, ")")
  {
    tag + "(" + Join([IntToString(a), IntToString(b), IntToString(c)], ',') + ")"
  }

  /**
   * What `removeSurrounding("TAG(", ")").split(",")` followed by the
   * three-way destructuring and `toInt()` on each field does: the list needs at
   * least three pieces (extra pieces are ignored) and the fields are parsed
   * left to right, the first failure winning.
   */
  function Unframe(s: string, tag: string): (r: Result<(Int32, Int32, Int32)>)
    ensures var parts := Split(RemoveSurrounding(s, tag + "(", ")"), ',');
      && (r.Err? <==> |parts| < 3 || exists k | 0 <= k < 3 :: ParseInt(parts[k]).None?)
      && (|parts| < 3 ==> r == Err(MissingField))
      && (r.Ok? ==> r.value == (ParseInt(parts[0]).value, ParseInt(parts[1]).value, ParseInt(parts[2]).value))
  {
    var parts := Split(RemoveSurrounding(s, tag + "(", ")"), ',');
    if |parts| < 3 then Err(MissingField)
    else if ParseInt(parts[0]).None? then Err(NotAnInt(parts[0]))
    else if ParseInt(parts[1]).None? then Err(NotAnInt(parts[1]))
    else if ParseInt(parts[2]).None? then Err(NotAnInt(parts[2]))
    else Ok((ParseInt(parts[0]).value, ParseInt(parts[1]).value, ParseInt(parts[2]).value))
  }

  lemma UnframeFrame(tag: string, a: Int32, b: Int32, c: Int32)
    ensures Unframe(Frame(tag, a, b, c), tag) == Ok((a, b, c))
  {
    var fields := [IntToString(a), IntToString(b), IntToString(c)];
    var body := Join(fields, ',');
    var s := Frame(tag, a, b, c);
    assert s == (tag + "(") + body + ")";
    assert s[..|tag + "("|] == tag + "(";
    assert s[|s| - 1..] == ")";
    assert RemoveSurrounding(s, tag + "(", ")") == body;
    IntToStringHasNoDelimiters(a);
    IntToStringHasNoDelimiters(b);
    IntToStringHasNoDelimiters(c);
    SplitJoin(fields, ',');
    ParseIntToString(a);
    ParseIntToString(b);
    ParseIntToString(c);
  }

  /**
   * A payload that starts with the tag but is not framed as `TAG(...)` never
   * decodes: the unstripped tag lands in the first field, which is not a number.
   */
  lemma UnframeNeedsFraming(s: string, tag: string)
    requires tag != [] && IsDigit(tag[0]) == false && tag[0] !in ",+-"
    ensures StartsWith(s, tag) && Unframe(s, tag).Ok? ==>
      StartsWith(s, tag + "(") && EndsWith(s, ")") && |s| >= |tag| + 2
  {
    var body := RemoveSurrounding(s, tag + "(", ")");
    if StartsWith(s, tag) && body == s {
      FirstPieceStart(s, ',');
    }
  }

  // ---------------------------------------------------------------------------
  // PLAY(player,row,col)

  /** `Payload.isPlay()`: a play never carries the NEWGAME tag, so the two classifications never overlap. */
  predicate IsPlay(s: string)
    ensures IsPlay(s) ==> !StartsWith(s, NEWGAME_TAG)
  {
    var b := StartsWith(s, PLAY_TAG);
    assert b ==> s[0] == PLAY_TAG[0];
    b
  }

  /** `Play.toPayload()`: always classified as a play, never as a new game. */
  function EncodePlay(p: Play): (s: string)
    ensures IsPlay(s) && !IsNewGame(s)
  {
    var s := Frame(PLAY_TAG, p.player, p.position.row, p.position.col);
    assert s[..|PLAY_TAG|] == (PLAY_TAG + "(")[..|PLAY_TAG|];
    s
  }

  /**
   * `Payload.toPlay()`; `Err` stands for the exception the Kotlin code throws.
   * The three fields are the player, the row and the column, in that order, and
   * a payload classified as a play decodes only if it is framed as `PLAY(...)`.
   */
  function DecodePlay(s: string): (r: Result<Play>)
    ensures r.Ok? <==> Unframe(s, PLAY_TAG).Ok?
    ensures r.Ok? ==> Unframe(s, PLAY_TAG).value == (r.value.player, r.value.position.row, r.value.position.col)
    ensures r.Ok? && IsPlay(s) ==> StartsWith(s, "PLAY(") && EndsWith(s, ")")
  {
    UnframeNeedsFraming(s, PLAY_TAG);
    match Unframe(s, PLAY_TAG)
    case Ok((player, row, col)) => Ok(Play(player, Position(row, col)))
    case Err(e) => Err(e)
  }

  lemma DecodeEncodePlay(p: Play)
    ensures DecodePlay(EncodePlay(p)) == Ok(p)
  {
    UnframeFrame(PLAY_TAG, p.player, p.position.row, p.position.col);
  }

  // ---------------------------------------------------------------------------
  // NEWGAME(boardSize,players,assignedPlayerNumber)

  /** `Payload.isNewGame()`: a new game never carries the PLAY tag. */
  predicate IsNewGame(s: string)
    ensures IsNewGame(s) ==> !StartsWith(s, PLAY_TAG)
  {
    var b := StartsWith(s, NEWGAME_TAG);
    assert b ==> s[0] == NEWGAME_TAG[0];
    b
  }

  /** `NewGame.toPayload()`: always classified as a new game, never as a play. */
  function EncodeNewGame(g: NewGame): (s: string)
    ensures IsNewGame(s) && !IsPlay(s)
  {
    var s := Frame(NEWGAME_TAG, g.boardSize, g.players, g.assignedPlayerNumber);
    assert s[..|NEWGAME_TAG|] == (NEWGAME_TAG + "(")[..|NEWGAME_TAG|];
    s
  }

  /**
   * `Payload.toNewGame()`; `Err` stands for the exception the Kotlin code
   * throws. The three fields are the board size, the player count and the
   * assigned player number, in that order, and a payload classified as a new
   * game decodes only if it is framed as `NEWGAME(...)`.
   */
  function DecodeNewGame(s: string): (r: Result<NewGame>)
    ensures r.Ok? <==> Unframe(s, NEWGAME_TAG).Ok?
    ensures r.Ok? ==> Unframe(s, NEWGAME_TAG).value == (r.value.boardSize, r.value.players, r.value.assignedPlayerNumber)
    ensures r.Ok? && IsNewGame(s) ==> StartsWith(s, "NEWGAME(") && EndsWith(s, ")")
  {
    UnframeNeedsFraming(s, NEWGAME_TAG);
    match Unframe(s, NEWGAME_TAG)
    case Ok((boardSize, players, number)) => Ok(NewGame(boardSize, players, number))
    case Err(e) => Err(e)
  }

  lemma DecodeEncodeNewGame(g: NewGame)
    ensures DecodeNewGame(EncodeNewGame(g)) == Ok(g)
  {
    UnframeFrame(NEWGAME_TAG, g.boardSize, g.players, g.assignedPlayerNumber);
  }

  /** The decoder ignores fields beyond the third one. */
  lemma DecodePlayIgnoresExtraFields(p: Play, extra: string)
    ensures DecodePlay("PLAY(" + Join([IntToString(p.player), IntToString(p.position.row), IntToString(p.position.col), extra], ',') + ")") == Ok(p)
  {
    var fields := [IntToString(p.player), IntToString(p.position.row), IntToString(p.position.col)];
    var all := [fields[0], fields[1], fields[2], extra];
    var body := Join(all, ',');
    var s := "PLAY(" + body + ")";
    assert all[1..] == [fields[1], fields[2], extra];
    assert all[1..][1..] == [fields[2], extra];
    assert all[1..][1..][1..] == [extra];
    assert Join(all[1..][1..], ',') == fields[2] + [','] + extra;
    assert Join(all[1..], ',') == fields[1] + [','] + Join(all[1..][1..], ',');
    assert body == fields[0] + [','] + Join(all[1..], ',');
    assert s[..5] == "PLAY(";
    assert s[|s| - 1..] == ")";
    assert RemoveSurrounding(s, PLAY_TAG + "(", ")") == body;
    IntToStringHasNoDelimiters(p.player);
    IntToStringHasNoDelimiters(p.position.row);
    IntToStringHasNoDelimiters(p.position.col);
    assert body == fields[0] + [','] + (fields[1] + [','] + (fields[2] + [','] + extra));
    SplitAtFirstDelimiter(fields[0], ',', fields[1] + [','] + (fields[2] + [','] + extra));
    SplitAtFirstDelimiter(fields[1], ',', fields[2] + [','] + extra);
    SplitAtFirstDelimiter(fields[2], ',', extra);
    ParseIntToString(p.player);
    ParseIntToString(p.position.row);
    ParseIntToString(p.position.col);
  }
}
