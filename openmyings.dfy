/**
 * The per-game transformation of the Openmyings exporter: one Lichess game
 * record becomes one statistics row (the player's colour, the result from the
 * player's side, the opening's name, the player's first N moves and the game's
 * length), and a loop collects one row per game, in order.
 */
module Openmyings {
  import opened Wrappers
  import opened PyStr

  datatype Color = White | Black

  /** The colour as the exporter writes it: "white" or "black". */
  function ColorName(c: Color): (name: string)
    ensures name == "white" <==> c == White
    ensures name == "black" <==> c == Black
  {
    match c
    case White => "white"
    case Black => "black"
  }

  function Opposite(c: Color): (other: Color)
  {
    match c
    case White => Black
    case Black => White
  }

  /** The opening descriptor of a game record; its `name` may be missing. */
  datatype Opening = Opening(name: Option<string>)

  /**
   * One game record as the Lichess export delivers it. A field the record may
   * lack is an `Option`: `players.white.user.name`, `players.black.user.name`,
   * `winner` (absent on a draw) and `opening`. `moves` is one string of
   * ' '-separated half-moves, white's first.
   */
  datatype Game = Game(
    id: Option<string>,
    whiteName: Option<string>,
    blackName: Option<string>,
    winner: Option<string>,
    opening: Option<Opening>,
    moves: string)

  /** The result from the player's side; its score in half-points is 2, 1 or 0. */
  datatype Score = Loss | Draw | Win

  /** Twice the exporter's score: 1 (win) is 2, 0.5 (draw) is 1, 0 (loss) is 0. */
  function HalfPoints(s: Score): (points: nat)
    ensures points <= 2
    ensures points == 2 <==> s == Win
    ensures points == 0 <==> s == Loss
  {
    match s
    case Win => 2
    case Draw => 1
    case Loss => 0
  }

  /** One statistics row, with the exporter's columns in their order. */
  datatype Row = Row(
    id: Option<string>,
    color: Color,
    result: Score,
    openingTag: Option<string>,
    firstMoves: string,
    totalMoves: nat)

  /**
   * The player's colour: white when the white side's user name is the player's
   * name, and otherwise black, whatever the black side's name is.
   */
  function PlayerColor(g: Game, playerName: string): (c: Color)
    ensures c == White <==> g.whiteName == Some(playerName)
  {
    if g.whiteName == Some(playerName) then White else Black
  }

  /**
   * The result from the player's side: a win when `winner` names the player's
   * colour, a draw when `winner` is neither "white" nor "black" (absent
   * included), and a loss exactly when `winner` names the other colour.
   */
  function ResultIndicator(g: Game, playerName: string): (s: Score)
    ensures s == Win <==> g.winner == Some(ColorName(PlayerColor(g, playerName)))
    ensures s == Draw <==> g.winner != Some("white") && g.winner != Some("black")
    ensures s == Loss <==> g.winner == Some(ColorName(Opposite(PlayerColor(g, playerName))))
  {
    var playerColor := PlayerColor(g, playerName);
    if g.winner == Some(ColorName(playerColor)) then Win
    else if g.winner != Some("black") && g.winner != Some("white") then Draw
    else Loss
  }

  /** Where the player's own half-moves start: 0 for white, 1 for black. */
  function Offset(c: Color): (off: nat)
  {
    if c == White then 0 else 1
  }

  /**
   * The pieces `game_get_first_n_moves` keeps,
   * `moves.split(" ", 2*n)[offset:2*n:2]`: at most n of them, each the piece at
   * index offset + 2k below 2n, so the unsplit remainder at index 2n is never
   * among them. They are the same stepped slice of the unlimited
   * `moves.split(" ")`, so each is a single move with no ' ' in it.
   */
  function OwnMoves(g: Game, color: Color, n: nat): (w: seq<string>)
    ensures |w| <= n
    ensures forall k :: 0 <= k < |w| ==>
              Offset(color) + 2 * k < 2 * n && Offset(color) + 2 * k < |SplitOn(g.moves, 2 * n)| &&
              w[k] == SplitOn(g.moves, 2 * n)[Offset(color) + 2 * k]
    ensures w == StepSlice(SplitOn(g.moves, NoLimit), Offset(color), 2 * n)
    ensures forall k :: 0 <= k < |w| ==> ' ' !in w[k]
  {
    var limited, tokens := SplitOn(g.moves, 2 * n), SplitOn(g.moves, NoLimit);
    LimitedSplitWindow(g.moves, 2 * n);
    StepSliceAgree(limited, tokens, Offset(color), 2 * n);
    StepSlice(limited, Offset(color), 2 * n)
  }

  /**
   * `game_get_first_n_moves`: the kept pieces joined with ' '. Splitting the
   * result on ' ' gives those pieces back, so (for n >= 1) it holds at most n
   * ' '-separated moves.
   */
  function FirstNMoves(g: Game, color: Color, n: nat): (moves: string)
    ensures OwnMoves(g, color, n) != [] ==> SplitOn(moves, NoLimit) == OwnMoves(g, color, n)
    ensures n >= 1 ==> |SplitOn(moves, NoLimit)| <= n
  {
    var w := OwnMoves(g, color, n);
    if w == [] then Join(w)
    else SplitJoin(w); Join(w)
  }

  /**
   * `len(moves.split(" "))`: one more half-move than there are ' ' in `moves`,
   * whatever the player's colour and the move count.
   */
  function TotalMoves(g: Game): (total: nat)
    ensures total == Count(g.moves, ' ') + 1
  {
    SplitLength(g.moves, NoLimit);
    |SplitOn(g.moves, NoLimit)|
  }

  /** The opening's name, or nothing when the record has no opening. */
  function OpeningTag(g: Game): (tag: Option<string>)
    ensures g.opening.None? ==> tag.None?
    ensures g.opening.Some? ==> tag == g.opening.value.name
  {
    match g.opening
    case None => None
    case Some(o) => o.name
  }

  /**
   * The player's colour does not depend on the black side's name, so a game in
   * which neither side is the player is counted as the player's game as black.
   */
  lemma ColorIgnoresBlackSide(g: Game, playerName: string, otherName: Option<string>)
    ensures PlayerColor(g.(blackName := otherName), playerName) == PlayerColor(g, playerName)
    ensures g.whiteName != Some(playerName) && g.blackName != Some(playerName) ==>
              PlayerColor(g, playerName) == Black
  {
  }

  /**
   * Two players on opposite sides of one game share one point between them:
   * their half-points add up to 2.
   */
  lemma ResultZeroSum(g: Game, p: string, q: string)
    requires PlayerColor(g, p) != PlayerColor(g, q)
    ensures HalfPoints(ResultIndicator(g, p)) + HalfPoints(ResultIndicator(g, q)) == 2
  {
  }

  /**
   * Every move of the player's among the game's first 2n half-moves is kept, in
   * order; a game shorter than 2n half-moves yields fewer moves, unpadded.
   */
  lemma OwnMovesComplete(g: Game, color: Color, n: nat)
    ensures var tokens, w, off := SplitOn(g.moves, NoLimit), OwnMoves(g, color, n), Offset(color);
      && (forall k :: 0 <= k < |w| ==> off + 2 * k < |tokens| && w[k] == tokens[off + 2 * k])
      && off + 2 * |w| >= Min(2 * n, |tokens|)
  {
    var tokens, w := SplitOn(g.moves, NoLimit), OwnMoves(g, color, n);
    assert w == StepSlice(tokens, Offset(color), 2 * n);
  }

  /**
   * The row of one game: the id copied, the player's colour, the result from
   * the player's side, the opening's name, the player's first n moves and the
   * number of half-moves.
   */
  function GameStats(g: Game, playerName: string, n: nat): (r: Row)
    ensures r.id == g.id
    ensures r.color == White <==> g.whiteName == Some(playerName)
    ensures r.result == Win <==> g.winner == Some(ColorName(r.color))
    ensures r.result == Draw <==> g.winner != Some("white") && g.winner != Some("black")
    ensures r.result == Loss <==> g.winner == Some(ColorName(Opposite(r.color)))
    ensures g.opening.None? ==> r.openingTag.None?
    ensures g.opening.Some? ==> r.openingTag == g.opening.value.name
    ensures n >= 1 ==> |SplitOn(r.firstMoves, NoLimit)| <= n
    ensures r.firstMoves == Join(StepSlice(SplitOn(g.moves, NoLimit), Offset(r.color), 2 * n))
    ensures r.totalMoves == Count(g.moves, ' ') + 1
  {
    var color := PlayerColor(g, playerName);
    Row(g.id, color, ResultIndicator(g, playerName), OpeningTag(g), FirstNMoves(g, color, n), TotalMoves(g))
  }

  /**
   * `encapsulate_data`: one row per game, in the games' order, each filled
   * field by field as the exporter's loop does.
   */
  method EncapsulateData(games: seq<Game>, username: string, n: nat) returns (data: seq<Row>)
    ensures |data| == |games|
    ensures forall i :: 0 <= i < |games| ==> data[i] == GameStats(games[i], username, n)
  {
    data := [];
    for i := 0 to |games|
      invariant |data| == i
      invariant forall j :: 0 <= j < i ==> data[j] == GameStats(games[j], username, n)
    {
      var game := games[i];
      var color := PlayerColor(game, username);
      var result := ResultIndicator(game, username);
      var openingTag := OpeningTag(game);
      var firstMoves := FirstNMoves(game, color, n);
      var totalMoves := TotalMoves(game);
      data := data + [Row(game.id, color, result, openingTag, firstMoves, totalMoves)];
    }
  }

  /** The half-moves of the sample game "e4 e5 Nf3 Nc6 Bb5 a6". */
  const SampleTokens: seq<string> := ["e4", "e5", "Nf3", "Nc6", "Bb5", "a6"]

  lemma JoinSampleTokens()
    ensures Join(SampleTokens) == "e4 e5 Nf3 Nc6 Bb5 a6"
  {
    var t5, t4, t3 := ["a6"], ["Bb5", "a6"], ["Nc6", "Bb5", "a6"];
    var t2, t1 := ["Nf3"] + t3, ["e5"] + ["Nf3"] + t3;
    assert t4[1..] == t5 && t3[1..] == t4 && t2[1..] == t3 && t1[1..] == t2;
    assert SampleTokens == ["e4"] + t1 && SampleTokens[1..] == t1;
    assert Join(t4) == "Bb5 a6";
    assert Join(t3) == "Nc6" + " " + Join(t4) == "Nc6 Bb5 a6";
    assert Join(t2) == "Nf3" + " " + Join(t3) == "Nf3 Nc6 Bb5 a6";
    assert Join(t1) == "e5" + " " + Join(t2) == "e5 Nf3 Nc6 Bb5 a6";
    assert Join(SampleTokens) == "e4" + " " + Join(t1);
  }

  /** No move of the sample game contains a ' '. */
  lemma SampleTokensHaveNoSpace()
    ensures forall i :: 0 <= i < |SampleTokens| ==> ' ' !in SampleTokens[i]
  {
  }

  /**
   * Split with a limit of 4 cuts, the sample game leaves "Bb5 a6" as the
   * unsplit remainder.
   */
  lemma ScenarioSplit(g: Game)
    requires g.moves == "e4 e5 Nf3 Nc6 Bb5 a6"
    ensures SplitOn(g.moves, 4) == ["e4", "e5", "Nf3", "Nc6", "Bb5 a6"]
  {
    JoinSampleTokens();
    SampleTokensHaveNoSpace();
    var t := SampleTokens;
    SplitJoinLimited(t, 4);
    assert t[..4] == ["e4", "e5", "Nf3", "Nc6"] && t[4..] == ["Bb5", "a6"];
    assert Join(t[4..]) == "Bb5" + " " + Join(["a6"]) == "Bb5 a6";
  }

  /** The sample game has six half-moves. */
  lemma ScenarioTotalMoves(g: Game)
    requires g.moves == "e4 e5 Nf3 Nc6 Bb5 a6"
    ensures TotalMoves(g) == 6
  {
    JoinSampleTokens();
    SampleTokensHaveNoSpace();
    SplitJoin(SampleTokens);
  }

  /** "e4 e5 Nf3 Nc6 Bb5 a6" with n = 2: white's first moves are "e4 Nf3". */
  lemma ScenarioWhite(g: Game)
    requires g.moves == "e4 e5 Nf3 Nc6 Bb5 a6"
    ensures FirstNMoves(g, White, 2) == "e4 Nf3"
  {
    ScenarioSplit(g);
    var limited := SplitOn(g.moves, 4);
    assert StepSlice(limited, 4, 4) == [];
    assert StepSlice(limited, 2, 4) == ["Nf3"];
    assert OwnMoves(g, White, 2) == ["e4", "Nf3"];
    assert Join(["e4", "Nf3"]) == "e4" + " " + Join(["Nf3"]);
  }

  /** The same game with n = 2: black's first moves are "e5 Nc6". */
  lemma ScenarioBlack(g: Game)
    requires g.moves == "e4 e5 Nf3 Nc6 Bb5 a6"
    ensures FirstNMoves(g, Black, 2) == "e5 Nc6"
  {
    ScenarioSplit(g);
    var limited := SplitOn(g.moves, 4);
    assert StepSlice(limited, 5, 4) == [];
    assert StepSlice(limited, 3, 4) == ["Nc6"];
    assert OwnMoves(g, Black, 2) == ["e5", "Nc6"];
    assert Join(["e5", "Nc6"]) == "e5" + " " + Join(["Nc6"]);
  }

  /** A three half-move game with n = 4 yields only white's two moves, unpadded. */
  lemma ScenarioShortGame(g: Game)
    requires g.moves == "e4 e5 Nf3"
    ensures OwnMoves(g, White, 4) == ["e4", "Nf3"]
    ensures FirstNMoves(g, White, 4) == "e4 Nf3"
    ensures FirstNMoves(g, Black, 4) == "e5"
  {
    var tokens := ["e4", "e5", "Nf3"];
    assert g.moves == Join(tokens);
    SplitJoinLimited(tokens, 8);
  }

  /** With no winner the game is a draw for either colour. */
  lemma ScenarioDraw(g: Game, playerName: string)
    requires g.winner == None
    ensures ResultIndicator(g, playerName) == Draw
  {
  }
}
