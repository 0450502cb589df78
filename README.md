# Openmyings: the per-game statistics transformation

Openmyings exports a Lichess player's game history as a table. Its logic is
the transformation in `main.py`, which turns one game record into one row:

- `color` is the side the player had. It is "white" when the white side's
  user name is the player's name, and "black" otherwise.
- `result` is the outcome from the player's side: 1 for a win, 0.5 for a
  draw or for a `winner` that is neither "white" nor "black", and 0 for a loss.
- `opening_tag` is the opening's name, if the record has one.
- `first_moves` is the player's own first N half-moves.
- `total_moves` is the number of half-moves.

A loop then collects one row per game, in input order.

The model has three modules:

- `Wrappers` (`wrappers.dfy`) holds `Option`, used for record fields that may be missing.
- `PyStr` (`pystr.dfy`) writes out the Python built-ins this code uses, over `seq<char>`:
  - `str.split(" ", maxsplit)` as `SplitOn`, with a negative `maxsplit` meaning no limit, as Python's default of -1 does;
  - `" ".join` as `Join`;
  - the slice `xs[start:stop:2]` as `StepSlice`.

  It also defines `Count`, the number of ' ' in a string. The code never calls it; it is used to state what `total_moves` (main.py:138) computes.
- `Openmyings` (`openmyings.dfy`) holds the game record, the row and the four functions of `main.py`. `encapsulate_data` becomes the method `EncapsulateData`, whose loop builds a `seq<Row>`.

Modelling choices:

- The score is the enum `Score` (`Loss`, `Draw`, `Win`). `HalfPoints` maps it to 0/1/2, which is twice the exporter's 0/0.5/1.
- The move count N and the user name are explicit parameters, not the global `args`. N is a `nat`, and N = 0 behaves as the Python code does: no moves are kept.
- The per-game functions are pure, so running them twice on the same record gives the same row.

Two behaviours of the code worth knowing:

- **Splitting.** `main.py` splits `moves` on the single character ' ', so empty pieces (from doubled, leading or trailing spaces) count towards `total_moves`, and the bound on `first_moves` is a bound on its ' '-separated pieces.
- **Missing white name.** When the white side has a `user` without a `name`, `.get("name")` gives `None`, the comparison with the player's name fails, and the colour is black.

## Model

| member | source | states |
|---|---|---|
| `Openmyings.ColorName` | main.py:85-87 | the colour is written "white" exactly for White and "black" exactly for Black |
| `Openmyings.HalfPoints` | main.py:101-105 | the score in half-points is at most 2; it is 2 exactly for a win (the exporter's 1) and 0 exactly for a loss (its 0), leaving 1 for a draw (its 0.5) |
| `Openmyings.PlayerColor` | main.py:73-87 | the colour is White exactly when the white side's user name equals the player's name, and Black in every other case |
| `Openmyings.ColorIgnoresBlackSide` | main.py:83-87 | the black side's name never affects the colour, so a game where neither side is the player still resolves to Black |
| `Openmyings.ResultIndicator` | main.py:89-105 | Win exactly when `winner` names the resolved colour; Draw exactly when `winner` is neither "white" nor "black" (absent included); Loss exactly when `winner` names the opposite colour |
| `Openmyings.ResultZeroSum` | main.py:99-105 | two players on opposite sides of one game score half-points that add up to 2 (one point shared) |
| `Openmyings.ScenarioDraw` | main.py:102-103 | a game with no winner is a draw for the player, whatever their colour |
| `Openmyings.OpeningTag` | main.py:136 | no tag when the record has no opening, otherwise the opening's (possibly missing) name |
| `Openmyings.OwnMoves` | main.py:117-118 | the pieces kept by `moves.split(" ", 2N)[offset:2N:2]` (offset 0 for White, 1 for Black): at most N of them, each the piece at index offset+2k below 2N, so the unsplit remainder at index 2N is never kept; they equal the same slice of the unlimited `moves.split(" ")`, and none holds a ' ' |
| `Openmyings.OwnMovesComplete` | main.py:118 | each kept piece is the game's token at index offset+2k, and every own token among the first 2N half-moves is kept, so a short game yields fewer moves with no padding |
| `Openmyings.FirstNMoves` | main.py:107-119 | `first_moves` split on ' ' gives back exactly the kept pieces (when there are any), so for N >= 1 it holds at most N moves |
| `Openmyings.TotalMoves` | main.py:138 | `len(moves.split(" "))` is the number of ' ' in `moves` plus one, independent of colour and N |
| `Openmyings.GameStats` | main.py:132-138 | the row for one game: id copied, colour and result as above, opening tag as above, `first_moves` is the join of the own tokens at offset, offset+2, ... below 2N of the full split, at most N ' '-separated moves, and `total_moves` is the count of ' ' plus one |
| `Openmyings.EncapsulateData` | main.py:130-139 | exactly one row per input game, in input order, each equal to that game's `GameStats` row with its id copied |
| `Openmyings.ScenarioSplit` | main.py:118 | "e4 e5 Nf3 Nc6 Bb5 a6" split with a limit of 4 cuts is four moves followed by the remainder "Bb5 a6" |
| `Openmyings.ScenarioTotalMoves` | main.py:138 | "e4 e5 Nf3 Nc6 Bb5 a6" counts six half-moves |
| `Openmyings.ScenarioWhite` | main.py:118-119 | with N = 2 white's first moves of "e4 e5 Nf3 Nc6 Bb5 a6" are "e4 Nf3" |
| `Openmyings.ScenarioBlack` | main.py:118-119 | with N = 2 black's first moves of the same game are "e5 Nc6" |
| `Openmyings.ScenarioShortGame` | main.py:118-119 | a three half-move game with N = 4 yields white's two moves "e4 Nf3" and black's one move "e5", with no padding |
| `Openmyings.JoinSampleTokens` | main.py:119 | joining the six sample moves with ' ' gives the sample move string |
| `Openmyings.SampleTokensHaveNoSpace` | main.py:118 | no move of the sample game holds a ' ' |
| `PyStr.Join` | main.py:119 | `" ".join` of no pieces is empty, and otherwise starts with the first piece |
| `PyStr.SplitOn` | main.py:118 | a split has at least one piece and, with a limit of m cuts, at most m + 1 pieces |
| `PyStr.JoinSplit` | main.py:118-119 | joining the pieces of any split with ' ' gives back the string that was split |
| `PyStr.SplitLength` | main.py:138 | an unlimited split has one more piece than there are ' '; a split limited to m cuts has min(count, m) + 1 pieces |
| `PyStr.SplitPiecesHaveNoSpace` | main.py:118 | no piece but the last holds a ' ', and the last does not either when the split had no limit or did not use up its cuts |
| `PyStr.SplitPrefix` | main.py:118 | a limited split agrees with the unlimited split on every piece before its remainder, and equals it when the limit was not reached |
| `PyStr.LimitedSplitWindow` | main.py:118 | below the limit m, the limited and the unlimited split have the same pieces, none of which holds a ' ' |
| `PyStr.SplitWhole` | main.py:118 | a string without ' ' splits into itself alone |
| `PyStr.SplitSeparated` | main.py:118 | splitting `a + " " + rest` with `a` free of ' ' cuts off exactly `a` and uses one cut |
| `PyStr.SplitJoin` | main.py:119 | splitting the ' '-join of pieces that hold no ' ' gives back those pieces |
| `PyStr.SplitJoinLimited` | main.py:118 | splitting such a join with a limit of m cuts gives the first m pieces and the rest re-joined |
| `PyStr.StepSlice` | main.py:118 | `xs[start:stop:2]` holds exactly the elements at start, start+2, ... below both `stop` and `len(xs)`, in order |
| `PyStr.StepSliceAgree` | main.py:118 | stepped slices of two lists that agree below the bound are equal |
| `PyStr.Count` | main.py:138 | the count of a character is at most the length and is zero exactly when the character does not occur |

## Left out

- Argument parsing and logging setup (main.py:9-27): command-line plumbing. The user name and move count are parameters instead.
- `connect` and `download_games` (main.py:30-71): network calls to the Lichess client library, `strptime` parsing of `--since`, and `exit(0)`. The input is a plain finite `seq<Game>`, so errors raised while the game stream is being produced are not modelled.
- `pd.DataFrame`, `to_excel` and `main` (main.py:140-149): serialisation and file output through foreign libraries. `EncapsulateData` returns the row list that would be handed to `pd.DataFrame`.
- Crashes on malformed records: a missing `players`, white side or `user` entry, a missing `moves` string, or an `opening` key whose value is `None` (main.py:83-84, 118, 136, 138). These raise Python `AttributeError`. The record type makes these fields present, so those records cannot be written.
- A negative move count: Python would split without limit and read the slice bound as counted from the end. N is a `nat` here.
- The Python types of the score (`int` 1 and 0, `float` 0.5): the model uses the enum `Score`, and `HalfPoints` gives its value.
