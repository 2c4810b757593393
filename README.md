# PokeJong rules core in Dafny

PokeJong is a two-player, Mahjong-style game played with Pokemon tiles. A
tile is a Pokemon id with a point value: 5 points for ids up to 50 and 10
above, or 5 when the Pokemon data could not be fetched. Tiles compare equal
when their ids are equal. The game builds a set of ids 1..n, four copies
each, and shuffles it into a draw pile. It then deals 13 tiles to each
player, popping from the end of the pile and alternating between the two
players. Each player keeps:

- a concealed hand, re-sorted by id after every draw, meld and claim (a discard only removes a tile);
- exposed melds;
- a discard history;
- a score.

On a turn the current player can draw, discard by position, or form a meld
from three same-id tiles of their hand; the meld's points are added to the
score. After a discard the opponent may win on the discarded tile (RON).
Otherwise, an opponent holding two or more tiles of its id claims it as a
PUNG, or as a KONG when holding three (a KONG scores double), and takes the
turn.

A player wins when hand, melds and the optional claimed tile make exactly 14
tiles whose id counts split into four triplets and one pair. A recursive
backtracking search over the id counts decides this. When the draw pile runs
out, the game ends and the higher score wins; equal scores mean no winner.

The project is organised as follows:

- `tiles.dfy` (module `Tiles`) covers the tile value, tile equality, the
  point tier, and building the shuffled tile set.
- `win_shape.dfy` (module `WinShape`) covers the id-count table and the
  recursive search. It also has a reference definition of a winning shape (a
  split into groups), proved equivalent to the search.
- `players.dfy` (module `Players`) has the `Player` class and the pure
  functions its methods are specified by:
  - a stable insertion sort by id;
  - popping positions in decreasing order;
  - first-match removal by id.
- `game.dfy` (module `Game`) has the `PokeJongGame` class and its turn
  operations. Every operation that moves tiles keeps the table of ids in play
  (draw pile, discard pile, hands and melds) unchanged. A claim is the one
  exception: it swaps the popped discard for the claimed tile.

## Model

| member | source | states |
|---|---|---|
| `Tiles.TileEquals` | pokemon_tile.py:30-33 | A tile equals an operand exactly when the operand is a tile with the same id; it never equals a non-tile. |
| `Tiles.CreateTile` | pokemon_tile.py:61-80 | The tile keeps its id and is worth 5 or 10 points. It is worth 10 exactly when the fetch succeeded and the id is above 50. |
| `Tiles.Shuffle` | pokemon_tile.py:106 | The shuffle only rearranges: same length, same tiles. |
| `Tiles.AppendCopies` | pokemon_tile.py:102-103 | Keeps the given tiles as they were and appends exactly `n` copies of the tile after them (none when `n` is not positive). So the count of its id rises by that many and no other id changes. |
| `Tiles.OrderedTileSet` | pokemon_tile.py:95-103 | The unshuffled set holds numPokemon times numCopies tiles. Every id in 1..numPokemon appears numCopies times and no other id appears. Each tile is the created tile of its id. |
| `Tiles.CreateTileSet` | pokemon_tile.py:83-107 | The same length, per-id counts and tile values hold after the shuffle. |
| `WinShape.TileCounts` | game.py:11-13 | The frequency table has one entry per tile. |
| `WinShape.TileCountsCount` | game.py:11-13 | For every id, the table's count is the number of tiles with that id. |
| `WinShape.SmallestId` | game.py:21-22 | Picks an id with a positive count that is no larger than any other such id. |
| `WinShape.SplitOf` | game.py:15-41 | Soundness: when the search succeeds, the groups it took are a split. That means triplets covering exactly the counts, plus one pair unless a pair was already used. |
| `WinShape.SplitFound` | game.py:15-41 | Completeness: whenever such a split exists, the search succeeds. |
| `WinShape.CheckRecursiveSplits` | game.py:15-41 | The search succeeds if and only if the counts split into triplets plus exactly the missing pair. |
| `WinShape.SearchSize` | game.py:15-41 | A successful search used a multiple of three tiles, plus two when it still had to find the pair. |
| `WinShape.WinningHandShape` | game.py:149-154 | A winning 14-tile hand splits into exactly five groups: four triplets and the pair. |
| `WinShape.IdCountInWin` | game.py:15-41 | In a successful search, each id's count is a multiple of three, or, for the pair's id when the pair was still to be found, two more than a multiple of three. |
| `WinShape.FourCopiesNeverWin` | game.py:15-41 | Counts holding an id four times (any count of 1 mod 3) never win. |
| `WinShape.TwoPairIdsNeverWin` | game.py:15-41 | Two distinct ids whose counts are 2 mod 3 block a win, since there is only one pair. |
| `WinShape.FourTripletsAndPairWin` | game.py:15-41 | Counts with three each of ids 1 to 4 and two of id 5 win. |
| `WinShape.TwoPairsLose` | game.py:15-41 | Three triplets plus two pairs do not win. |
| `Players.SortByIdSorts` | player.py:33-36 | Sorting the hand rearranges its tiles into non-decreasing id order. |
| `Players.SortByIdStable` | player.py:33-36 | The sort is stable: the tiles of each id keep their relative order. |
| `Players.Player.SortHand` | player.py:33-36 | The hand becomes the sorted old hand; discards, melds and score are unchanged. |
| `Players.Player.constructor` | player.py:13-26 | A new player has its name and seat, an empty hand, no discards, no melds and score 0. |
| `Players.Player.DrawTile` | player.py:28-31 | The hand becomes the old hand plus the drawn tile, sorted. Nothing else changes. |
| `Players.RemoveAtTiles` | player.py:50 | Popping a position takes exactly the tile at that position out of the hand. |
| `Players.Player.DiscardTile` | player.py:38-56 | For an index in range, the tile there is popped, returned and appended to the discards. Any other index returns None and changes nothing. |
| `Players.Descending` | player.py:89 | `sorted(..., reverse=True)` lists the same indices. |
| `Players.DescendingSelection` | player.py:89-90 | Listing a selection of distinct indices largest first gives a strictly decreasing order of the same positions, and the tiles there still share one id. |
| `Players.PopInOrder` | player.py:88-90 | Popping positions in decreasing order removes exactly those positions and keeps the rest in order. The popped tiles are the selected ones in popping order, and no tile is lost. |
| `Players.MeldOf` | player.py:88-92 | The formed meld is the selected tiles, all of one id, as many as selected. |
| `Players.PopMeld` | player.py:88-94 | A successful selection produces a three-tile meld of one id and a sorted rest; together they hold exactly the old hand. |
| `Players.Player.FormMeld` | player.py:70-95 | Succeeds exactly when three indices select tiles of one id. On success the meld is appended, the other tiles stay sorted in the hand, and the meld's points are added to the score. On failure nothing changes. |
| `Players.RemoveSupporting` | player.py:101-107 | The scan-and-pop loop removes, for each supporting tile in turn, the first hand tile equal to it under tile equality, which compares ids (or nothing when there is none). |
| `Players.RemoveFirstIdAt` | player.py:104-107 | A scan that skipped only other ids and stopped at position `i` pops what first-match removal removes. |
| `Players.RemoveEachIdCount` | player.py:101-107 | Removing `k` tiles of id `d` from a hand holding at least `k` of them shortens it by `k`, lowers the count of `d` by `k` and leaves other ids alone. |
| `Players.Player.ClaimMeld` | player.py:97-117 | The meld is the claimed tile followed by the supporting tiles. The supporting tiles leave the hand by first-match removal and the hand is re-sorted. The meld's points are scored, doubled for a KONG. |
| `Game.WinTiles` | game.py:142-147 | The tiles checked number the hand's, plus all meld tiles, plus one when a tile is claimed. |
| `Game.CollectWinTiles` | game.py:142-147 | The copy-and-extend loop gathers hand, melds in order, then the claimed tile. |
| `Game.ClaimCounts` | game.py:186 | Taking every tile of id `d` out of a hand leaves a hand whose ids, with those of the taken tiles, are the old hand's. |
| `Game.ClaimedMeld` | game.py:181-193 | With two or more tiles of the discarded id in hand, the claimed meld is a valid meld: three or more tiles of one id. |
| `Game.TableSwap` | game.py:84-86 | Swapping the players' roles leaves the tiles in play unchanged. |
| `Game.TableDraw` | game.py:95-99 | Moving the last draw-pile tile into the sorted hand leaves the ids in play unchanged. |
| `Game.TableDiscard` | game.py:114-116 | Moving a hand tile onto the discard pile leaves the ids in play unchanged. |
| `Game.TableMeld` | game.py:121-131 | Moving tiles from the hand into a new meld leaves the ids in play unchanged. |
| `Game.TableClaim` | game.py:193-196 | A claim takes the last discard off the pile and puts the claimed tile into the meld, with the supporting tiles moved there from the hand. The ids in play change by exactly that swap. |
| `Game.DealtHandTiles` | game.py:78-80 | After `r` rounds a seat's hand holds its earlier tiles plus its `r` dealt tiles (`r` more tiles), sorted. |
| `Game.DealtTop` | game.py:78-80 | The last `2r` tiles of the pile are exactly the first `r` tiles dealt to each seat. |
| `Game.DealtTiles` | game.py:78-80 | Thirteen rounds split the last 26 tiles between the two seats. |
| `Game.DealConserves` | game.py:78-80 | After the deal, the remaining pile and the two hands hold the pile's tiles and the hands' earlier tiles. |
| `Game.DealCounts` | game.py:78-80 | The deal keeps every id's count, and each hand grows by 13. |
| `Game.SetupCounts` | game.py:73-80 | Dealing a full four-copy set of ids 1..n leaves 4n - 26 tiles in the pile. Every id's count across pile and hands is its earlier count in the hands, plus 4 for ids in 1..n. |
| `Game.PokeJongGame.constructor` | game.py:46-61 | Two fresh players with their names and seats, empty hands, discards and melds, and score 0; player one to move, empty piles, game not over, no winner. |
| `Game.PokeJongGame.SwitchTurn` | game.py:84-86 | The current and other player swap, and nothing else changes. |
| `Game.PokeJongGame.DrawTile` | game.py:88-101 | Succeeds exactly when the draw pile is non-empty. On success its last tile moves into the current player's sorted hand. The ids in play are unchanged. |
| `Game.PokeJongGame.DiscardTile` | game.py:104-119 | Succeeds exactly when the index is in range. On success the tile goes from the current player's hand to the discard pile and the player's discards. On failure nothing changes. The ids in play are unchanged. |
| `Game.PokeJongGame.FormMeld` | game.py:121-131 | Delegates to the current player's `form_meld`, with the same result and effect. The ids in play are unchanged. |
| `Game.PokeJongGame.CheckWinCondition` | game.py:133-159 | True exactly when the given player (the current player by default) has 14 tiles across hand, melds and claimed tile that split into four triplets and a pair. A win sets game over and the winner; otherwise nothing changes. |
| `Game.PokeJongGame.MeldDiscard` | game.py:181-196 | The opponent claims the discard with all their tiles of its id: the meld is added, the score rises by the meld's points, and the discard is popped. |
| `Game.PokeJongGame.OpponentClaims` | game.py:193 | The opponent's `claim_meld` call: the supporting tiles leave the opponent's hand, the meld is appended and scored, and the game stays well formed. |
| `Game.PokeJongGame.ClaimDiscard` | game.py:176-202 | The PUNG/KONG branch: the claim is made (a KONG with three tiles in hand), the discard pile is popped and the opponent takes the turn. The ids in play change only by the swap of the popped discard for the claimed tile. |
| `Game.PokeJongGame.CheckOpponentAction` | game.py:161-204 | Acts exactly when the opponent wins on the discard or holds two or more of its id. RON comes first and ends the game; otherwise the claim is made as in `ClaimDiscard`, with the claimer's discard history unchanged. With no action nothing changes. |
| `Game.PokeJongGame.CheckDrawCondition` | game.py:220-238 | True exactly when the draw pile is empty. Then the game is over, and the winner is the player with the higher score, or nobody on equal scores. |
| `Game.PokeJongGame.SetupGame` | game.py:64-82 | Builds the tile set and deals. The pile keeps 4n - 26 tiles, each hand gains 13, every id's count adds up, and every pile tile is the created tile of an id in 1..n. |
| `Game.PokeJongGame.Deal` | game.py:78-80 | The pile loses its last 26 tiles. Each hand becomes its 13 dealt tiles drawn one at a time, alternately, each draw re-sorting the hand. |
| `Game.PokeJongGame.DealRound` | game.py:78-80 | One round: the top tile goes to player one, the next to player two. |
| `Game.PokeJongGame.DealOne` | game.py:79-80 | One pop: the last pile tile goes into the player's sorted hand. |

## Left out

- Printing, the `show_*`, `get_status` and `__repr__` display functions, `show_game_state` and `show_final_scores`: they are output only.
- `run_game_loop` is not modelled: it is a driver loop over the modelled operations with console output.
- The HTTP fetch (`fetch_pokemon`) is not modelled. Its success is the input `fetched`, and the tile name it supplies is not modelled; names, including their capitalisation, take part in no rule.
- `random.shuffle`'s random numbers are the input `draw`; the model only promises the shuffle is a rearrangement.
- Python's negative list indices are not modelled. `discard_tile` rejects them through its own range test, exactly as modelled; for `form_meld` see below.
- Players.Player.FormMeld: requires distinct, in-range indices when three are given. The source raises on an out-of-range index, wraps negative ones, and pops a repeated index more than once; the model does not follow those paths.
- Game.PokeJongGame.FormMeld: carries the same requirement on the indices, for the same reason.
- Game.PokeJongGame.CheckOpponentAction: requires a non-empty discard pile. The source pops it when claiming and would raise on an empty pile; its callers always discard first.
- Game.PokeJongGame.ClaimDiscard: requires a non-empty discard pile, for the same reason.
- Game.PokeJongGame.SetupGame: requires at least 7 ids, so that the 26 dealt tiles exist. The source raises on a pop from an empty pile for smaller sets.
- Game.PokeJongGame.SetupGame: states the pile by length, per-id counts and tile values, not by position. Position is random.
- The `None` result of the `min(..., default=None)` lookup in `_check_recursive` is unreachable once some count is positive, so it has no counterpart. The search is stated over a multiset of ids, whose empty case is the source's "all counts zero" base case.
- Game.PokeJongGame.MeldDiscard pops the discard pile before the opponent's `claim_meld` instead of after. The two steps touch disjoint state, so the result is the same.
- Players.Player.DrawTile: states the new hand as the sorted old hand plus the tile. The fact that it is a rearrangement of those tiles is the separate lemma `Players.SortByIdSorts`.
- The sort is `Players.SortById`, a stable insertion sort. Python's `list.sort` is also stable and orders by the same key, so both give the same sequence.
- Default arguments are not modelled: `setup_game`'s `num_pokemon=20`, `create_tile_set`'s `num_pokemon=20` and `num_copies=4`, and the constructor's default player names. The model takes each as an explicit parameter. `SetupGame` passes 4 copies, as `setup_game` does.
- `player_id` and `name` are kept as the constants `seat` and `name`, and only the constructors set them.
