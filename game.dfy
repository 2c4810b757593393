/**
 * Game: the two-player table of game.py — draw pile, discard pile, whose
 * turn it is, the end-of-game flags — and the turn operations on it.
 *
 * Tiles are compared by id, as PokemonTile.__eq__ does; what the game
 * conserves is therefore the table of ids in play (`InPlay`): for every id,
 * how many tiles of it lie in the draw pile, the discard pile, the hands and
 * the melds.
 */
module Game {
  import opened Options
  import opened Tiles
  import opened WinShape
  import opened Players

  // ---------------------------------------------------------------------
  // Id tables of tile sequences
  // ---------------------------------------------------------------------

  lemma TileCountsAppend(a: seq<Tile>, b: seq<Tile>)
    ensures TileCounts(a + b) == TileCounts(a) + TileCounts(b)
  {
    forall x ensures TileCounts(a + b)[x] == TileCounts(a)[x] + TileCounts(b)[x] {
      FilterIdAppend(a, b, x);
      TileCountsCount(a + b, x);
      TileCountsCount(a, x);
      TileCountsCount(b, x);
    }
  }

  /** Rearranging tiles does not change their id table. */
  lemma TileCountsSame(a: seq<Tile>, b: seq<Tile>)
    requires multiset(a) == multiset(b)
    ensures TileCounts(a) == TileCounts(b)
  {
    forall x ensures TileCounts(a)[x] == TileCounts(b)[x] {
      CountIdPermutation(a, b, x);
      TileCountsCount(a, x);
      TileCountsCount(b, x);
    }
  }

  /** When the tiles of `a` are those of `b` and `c` together, so are their ids. */
  lemma TileCountsSplit(a: seq<Tile>, b: seq<Tile>, c: seq<Tile>)
    requires multiset(a) == multiset(b) + multiset(c)
    ensures TileCounts(a) == TileCounts(b) + TileCounts(c)
  {
    TileCountsSame(a, b + c);
    TileCountsAppend(b, c);
  }

  /** `list.pop()` from the end takes one tile's id out of the table. */
  lemma TileCountsPop(s: seq<Tile>)
    requires s != []
    ensures TileCounts(s) == TileCounts(s[..|s| - 1]) + multiset{s[|s| - 1].id}
  {
    LastSplit(s);
    TileCountsAppend(s[..|s| - 1], [s[|s| - 1]]);
  }

  lemma FlattenAppend(melds: seq<seq<Tile>>, m: seq<Tile>)
    ensures Flatten(melds + [m]) == Flatten(melds) + m
  {
    assert (melds + [m])[..|melds|] == melds;
  }

  /** A sequence whose tiles all have id `d` counts only `d`. */
  lemma {:induction false} CountIdUniform(s: seq<Tile>, d: int, x: int)
    requires forall k :: 0 <= k < |s| ==> s[k].id == d
    ensures CountId(s, x) == if x == d then |s| else 0
  {
    if s != [] {
      CountIdUniform(s[1..], d, x);
    }
  }

  /** Filtering by id keeps only tiles of that id. */
  lemma FilterIdIds(s: seq<Tile>, d: int)
    ensures forall k :: 0 <= k < |FilterId(s, d)| ==> FilterId(s, d)[k].id == d
  {
    FilterIdOccurrences(s, d);
    forall k | 0 <= k < |FilterId(s, d)| ensures FilterId(s, d)[k].id == d {
      assert FilterId(s, d)[k] in multiset(FilterId(s, d));
    }
  }

  /**
   * What `check_opponent_action` does to the caller's hand: every tile of
   * id `d` is taken away (one first-match removal per supporting tile),
   * and the ids taken are exactly the supporting tiles' ids.
   */
  lemma ClaimCounts(h: seq<Tile>, d: int)
    ensures |RemoveEachId(h, FilterId(h, d))| + |FilterId(h, d)| == |h|
    ensures TileCounts(RemoveEachId(h, FilterId(h, d))) + TileCounts(FilterId(h, d)) == TileCounts(h)
  {
    var ts := FilterId(h, d);
    FilterIdIds(h, d);
    forall x ensures TileCounts(RemoveEachId(h, ts))[x] + TileCounts(ts)[x] == TileCounts(h)[x] {
      RemoveEachIdCount(h, ts, d, x);
      CountIdUniform(ts, d, x);
      TileCountsCount(RemoveEachId(h, ts), x);
      TileCountsCount(ts, x);
      TileCountsCount(h, x);
    }
    RemoveEachIdCount(h, ts, d, d);
  }

  /** Every meld holds three or more tiles of one id. */
  predicate AllMelds(melds: seq<seq<Tile>>)
  {
    forall k :: 0 <= k < |melds| ==> IsMeld(melds[k])
  }

  lemma AllMeldsAppend(melds: seq<seq<Tile>>, m: seq<Tile>)
    requires AllMelds(melds) && IsMeld(m)
    ensures AllMelds(melds + [m])
  {
  }

  /** The tiles `check_win_condition` looks at: hand, then every meld, then the claimed tile. */
  function WinTiles(hand: seq<Tile>, melds: seq<seq<Tile>>, claimed: Option<Tile>): (r: seq<Tile>)
    ensures |r| == |hand| + |Flatten(melds)| + (if claimed.Some? then 1 else 0)
  {
    hand + Flatten(melds) + if claimed.Some? then [claimed.value] else []
  }

  /**
   * The ids of every tile on the table: the draw pile, the discard pile,
   * and each player's hand and melds.
   */
  ghost function Table(drawPile: seq<Tile>, discardPile: seq<Tile>,
                       hand: seq<Tile>, melds: seq<seq<Tile>>,
                       hand': seq<Tile>, melds': seq<seq<Tile>>): multiset<int>
  {
    TileCounts(drawPile) + TileCounts(discardPile)
      + TileCounts(hand) + TileCounts(Flatten(melds))
      + TileCounts(hand') + TileCounts(Flatten(melds'))
  }

  lemma TableSwap(drawPile: seq<Tile>, discardPile: seq<Tile>,
                  hand: seq<Tile>, melds: seq<seq<Tile>>, hand': seq<Tile>, melds': seq<seq<Tile>>)
    ensures Table(drawPile, discardPile, hand', melds', hand, melds)
         == Table(drawPile, discardPile, hand, melds, hand', melds')
  {
  }

  /** Drawing moves the last tile of the draw pile into the (re-sorted) hand. */
  lemma TableDraw(drawPile: seq<Tile>, discardPile: seq<Tile>,
                  hand: seq<Tile>, melds: seq<seq<Tile>>, hand': seq<Tile>, melds': seq<seq<Tile>>)
    requires drawPile != []
    ensures Table(drawPile[..|drawPile| - 1], discardPile,
                  SortById(hand + [drawPile[|drawPile| - 1]]), melds, hand', melds')
         == Table(drawPile, discardPile, hand, melds, hand', melds')
  {
    var tile := drawPile[|drawPile| - 1];
    TileCountsPop(drawPile);
    SortByIdSorts(hand + [tile]);
    TileCountsSplit(SortById(hand + [tile]), hand, [tile]);
  }

  /** Discarding moves the tile at `i` from the hand onto the discard pile. */
  lemma TableDiscard(drawPile: seq<Tile>, discardPile: seq<Tile>,
                     hand: seq<Tile>, melds: seq<seq<Tile>>, hand': seq<Tile>, melds': seq<seq<Tile>>, i: int,
                     discarded: seq<Tile>, kept: seq<Tile>)
    requires 0 <= i < |hand|
    requires discarded == discardPile + [hand[i]] && kept == hand[..i] + hand[i + 1..]
    ensures Table(drawPile, discarded, kept, melds, hand', melds')
         == Table(drawPile, discardPile, hand, melds, hand', melds')
  {
    RemoveAtTiles(hand, i);
    TileCountsSplit(hand, hand[..i] + hand[i + 1..], [hand[i]]);
    TileCountsAppend(discardPile, [hand[i]]);
  }

  /** Forming a meld moves tiles from the hand into a new meld. */
  lemma TableMeld(drawPile: seq<Tile>, discardPile: seq<Tile>,
                  hand: seq<Tile>, melds: seq<seq<Tile>>, hand': seq<Tile>, melds': seq<seq<Tile>>,
                  rest: seq<Tile>, meld: seq<Tile>)
    requires multiset(rest) + multiset(meld) == multiset(hand)
    ensures Table(drawPile, discardPile, rest, melds + [meld], hand', melds')
         == Table(drawPile, discardPile, hand, melds, hand', melds')
  {
    FlattenAppend(melds, meld);
    TileCountsAppend(Flatten(melds), meld);
    TileCountsSplit(hand, rest, meld);
  }

  /**
   * A claim moves the opponent's tiles of the claimed id, behind the claimed
   * tile, into a new meld, and pops the discard pile: the table loses the
   * popped tile's id and gains the claimed tile's.
   */
  lemma TableClaim(drawPile: seq<Tile>, discardPile: seq<Tile>,
                   hand: seq<Tile>, melds: seq<seq<Tile>>, hand': seq<Tile>, melds': seq<seq<Tile>>, t: Tile,
                   popped: seq<Tile>, claimer: seq<Tile>, claimerMelds: seq<seq<Tile>>)
    requires discardPile != [] && popped == discardPile[..|discardPile| - 1]
    requires claimer == SortById(RemoveEachId(hand', FilterId(hand', t.id)))
    requires claimerMelds == melds' + [[t] + FilterId(hand', t.id)]
    ensures Table(drawPile, popped, hand, melds, claimer, claimerMelds) + multiset{discardPile[|discardPile| - 1].id}
         == Table(drawPile, discardPile, hand, melds, hand', melds') + multiset{t.id}
  {
    var held := FilterId(hand', t.id);
    var rest := RemoveEachId(hand', held);
    TileCountsPop(discardPile);
    ClaimCounts(hand', t.id);
    SortByIdSorts(rest);
    TileCountsSame(claimer, rest);
    FlattenAppend(melds', [t] + held);
    TileCountsAppend(Flatten(melds'), [t] + held);
    TileCountsAppend([t], held);
    assert TileCounts([t]) == multiset{t.id};
    ClaimSums(TileCounts(drawPile), TileCounts(popped), TileCounts(discardPile), TileCounts(hand), TileCounts(Flatten(melds)),
              TileCounts(claimer), TileCounts(Flatten(claimerMelds)), TileCounts(hand'), TileCounts(Flatten(melds')),
              TileCounts(held), multiset{discardPile[|discardPile| - 1].id}, multiset{t.id});
  }

  /** The multiset arithmetic behind TableClaim. */
  lemma ClaimSums(pile: multiset<int>, popped: multiset<int>, discards: multiset<int>, hand: multiset<int>, melds: multiset<int>,
                  claimer: multiset<int>, claimerMelds: multiset<int>, hand': multiset<int>, melds': multiset<int>,
                  held: multiset<int>, last: multiset<int>, claimed: multiset<int>)
    requires discards == popped + last
    requires claimer + held == hand'
    requires claimerMelds == melds' + (claimed + held)
    ensures pile + popped + hand + melds + claimer + claimerMelds + last
         == pile + discards + hand + melds + hand' + melds' + claimed
  {
  }

  /** A claimed meld: the claimed tile and every held tile of its id, when two or more are held. */
  lemma ClaimedMeld(hand: seq<Tile>, t: Tile)
    requires CountId(hand, t.id) >= 2
    ensures IsMeld([t] + FilterId(hand, t.id))
  {
    FilterIdIds(hand, t.id);
  }

  /** The copy-and-extend loop of `check_win_condition`. */
  method CollectWinTiles(hand: seq<Tile>, melds: seq<seq<Tile>>, claimed: Option<Tile>) returns (tiles: seq<Tile>)
    ensures tiles == WinTiles(hand, melds, claimed)
  {
    tiles := hand;
    for k := 0 to |melds|
      invariant tiles == hand + Flatten(melds[..k])
    {
      TakeNext(melds, k);
      FlattenAppend(melds[..k], melds[k]);
      AppendAssoc(hand, Flatten(melds[..k]), melds[k]);
      tiles := tiles + melds[k];
    }
    assert melds[..|melds|] == melds;
    if claimed.Some? {
      tiles := tiles + [claimed.value];
    }
  }

  /**
   * The tiles one seat receives in the first `rounds` rounds of dealing:
   * seat 0 takes the top of the pile, seat 1 the tile below it, and each
   * round goes two tiles further down.
   */
  function Dealt(tiles: seq<Tile>, seat: nat, rounds: nat): (r: seq<Tile>)
    requires seat <= 1 && 2 * rounds <= |tiles|
    ensures |r| == rounds
  {
    if rounds == 0 then []
    else Dealt(tiles, seat, rounds - 1) + [tiles[|tiles| - 1 - seat - 2 * (rounds - 1)]]
  }

  /**
   * A seat's hand after `rounds` rounds of dealing: each round draws the
   * seat's next tile and sorts the hand, as Player.draw_tile does.
   */
  ghost function DealtHand(hand: seq<Tile>, tiles: seq<Tile>, seat: nat, rounds: nat): seq<Tile>
    requires seat <= 1 && 2 * rounds <= |tiles|
  {
    if rounds == 0 then hand
    else SortById(DealtHand(hand, tiles, seat, rounds - 1) + [tiles[|tiles| - 1 - seat - 2 * (rounds - 1)]])
  }

  /** The dealt hand holds the tiles it held before and the seat's dealt tiles, sorted by id. */
  lemma {:induction false} DealtHandTiles(hand: seq<Tile>, tiles: seq<Tile>, seat: nat, rounds: nat)
    requires seat <= 1 && 2 * rounds <= |tiles|
    ensures multiset(DealtHand(hand, tiles, seat, rounds)) == multiset(hand) + multiset(Dealt(tiles, seat, rounds))
    ensures |DealtHand(hand, tiles, seat, rounds)| == |hand| + rounds
    ensures rounds > 0 ==> SortedById(DealtHand(hand, tiles, seat, rounds))
  {
    if rounds > 0 {
      var prev := DealtHand(hand, tiles, seat, rounds - 1);
      var t := tiles[|tiles| - 1 - seat - 2 * (rounds - 1)];
      DealtHandTiles(hand, tiles, seat, rounds - 1);
      SortByIdSorts(prev + [t]);
      assert Dealt(tiles, seat, rounds) == Dealt(tiles, seat, rounds - 1) + [t];
    }
  }

  /** The draw pile after `rounds` rounds of dealing: two tiles fewer each round. */
  ghost function Undealt(tiles: seq<Tile>, rounds: nat): seq<Tile>
    requires 2 * rounds <= |tiles|
  {
    tiles[..|tiles| - 2 * rounds]
  }

  /** Before round `r` the pile is what the earlier rounds left; its top two tiles are the round's. */
  lemma DealtPile(tiles: seq<Tile>, r: nat, pile: seq<Tile>)
    requires |tiles| >= 26 && r < 13 && pile == Undealt(tiles, r)
    ensures |pile| >= 2
    ensures pile[|pile| - 1] == tiles[|tiles| - 1 - 0 - 2 * r]
    ensures pile[|pile| - 2] == tiles[|tiles| - 1 - 1 - 2 * r]
    ensures pile[..|pile| - 2] == Undealt(tiles, r + 1)
  {
  }

  /** Dealing splits the last 26 tiles of the pile between the two seats. */
  lemma DealtTiles(tiles: seq<Tile>)
    requires |tiles| >= 26
    ensures multiset(tiles) == multiset(tiles[..|tiles| - 26]) + multiset(Dealt(tiles, 0, 13)) + multiset(Dealt(tiles, 1, 13))
  {
    var n := |tiles|;
    var low, high := tiles[..n - 26], tiles[n - 26..];
    assert tiles == low + high;
    assert multiset(tiles) == multiset(low) + multiset(high);
    DealtTop(tiles, 13);
  }

  /** After the deal, the pile and the two hands hold the tiles dealt from and the hands held before. */
  lemma DealConserves(tiles: seq<Tile>, hand1: seq<Tile>, hand2: seq<Tile>)
    requires |tiles| >= 26
    ensures multiset(tiles[..|tiles| - 26]) + multiset(DealtHand(hand1, tiles, 0, 13)) + multiset(DealtHand(hand2, tiles, 1, 13))
         == multiset(tiles) + multiset(hand1) + multiset(hand2)
  {
    DealtTiles(tiles);
    DealtHandTiles(hand1, tiles, 0, 13);
    DealtHandTiles(hand2, tiles, 1, 13);
  }

  /** The deal keeps every id's count: what the pile lost, the two hands gained. */
  lemma DealCounts(tiles: seq<Tile>, hand1: seq<Tile>, hand2: seq<Tile>)
    requires |tiles| >= 26
    ensures |DealtHand(hand1, tiles, 0, 13)| == |hand1| + 13
    ensures |DealtHand(hand2, tiles, 1, 13)| == |hand2| + 13
    ensures forall x ::
              CountId(tiles[..|tiles| - 26], x) + CountId(DealtHand(hand1, tiles, 0, 13), x) + CountId(DealtHand(hand2, tiles, 1, 13), x)
              == CountId(tiles, x) + CountId(hand1, x) + CountId(hand2, x)
  {
    var pile, now1, now2 := tiles[..|tiles| - 26], DealtHand(hand1, tiles, 0, 13), DealtHand(hand2, tiles, 1, 13);
    DealtHandTiles(hand1, tiles, 0, 13);
    DealtHandTiles(hand2, tiles, 1, 13);
    DealConserves(tiles, hand1, hand2);
    forall x ensures CountId(pile, x) + CountId(now1, x) + CountId(now2, x) == CountId(tiles, x) + CountId(hand1, x) + CountId(hand2, x) {
      CountIdPermutation(pile + now1 + now2, tiles + hand1 + hand2, x);
      FilterIdAppend(pile, now1, x);
      FilterIdAppend(pile + now1, now2, x);
      FilterIdAppend(tiles, hand1, x);
      FilterIdAppend(tiles + hand1, hand2, x);
    }
  }

  /** Dealing a full four-copy set of `numPokemon` ids: the pile keeps the rest, and every id's count adds up. */
  lemma SetupCounts(numPokemon: int, tiles: seq<Tile>, hand1: seq<Tile>, hand2: seq<Tile>)
    requires numPokemon >= 7
    requires |tiles| == Span(numPokemon) * Span(4)
    requires forall x :: CountId(tiles, x) == if 1 <= x <= numPokemon then Span(4) else 0
    ensures |tiles| >= 26 && |tiles[..|tiles| - 26]| == 4 * numPokemon - 26
    ensures |DealtHand(hand1, tiles, 0, 13)| == |hand1| + 13
    ensures |DealtHand(hand2, tiles, 1, 13)| == |hand2| + 13
    ensures forall x ::
              CountId(tiles[..|tiles| - 26], x) + CountId(DealtHand(hand1, tiles, 0, 13), x) + CountId(DealtHand(hand2, tiles, 1, 13), x)
              == CountId(hand1, x) + CountId(hand2, x) + (if 1 <= x <= numPokemon then 4 else 0)
  {
    DealCounts(tiles, hand1, hand2);
  }

  /** The last `2 * r` tiles of the pile are the first `r` tiles dealt to each seat. */
  lemma {:induction false} DealtTop(tiles: seq<Tile>, r: nat)
    requires 2 * r <= |tiles|
    ensures multiset(tiles[|tiles| - 2 * r..]) == multiset(Dealt(tiles, 0, r)) + multiset(Dealt(tiles, 1, r))
  {
    if r > 0 {
      var n := |tiles|;
      var below, top := tiles[n - 2 * r], tiles[n - 2 * r + 1];
      DealtTop(tiles, r - 1);
      assert tiles[n - 2 * r..] == [below, top] + tiles[n - 2 * (r - 1)..];
      assert Dealt(tiles, 0, r) == Dealt(tiles, 0, r - 1) + [top];
      assert Dealt(tiles, 1, r) == Dealt(tiles, 1, r - 1) + [below];
      PairSums(multiset(tiles[n - 2 * r..]), multiset(tiles[n - 2 * (r - 1)..]),
               multiset(Dealt(tiles, 0, r - 1)), multiset(Dealt(tiles, 1, r - 1)),
               multiset(Dealt(tiles, 0, r)), multiset(Dealt(tiles, 1, r)), below, top);
    }
  }

  /** The multiset arithmetic behind one step of DealtTop. */
  lemma PairSums(all: multiset<Tile>, rest: multiset<Tile>, seat0: multiset<Tile>, seat1: multiset<Tile>,
                 seat0': multiset<Tile>, seat1': multiset<Tile>, below: Tile, top: Tile)
    requires all == multiset{below, top} + rest && rest == seat0 + seat1
    requires seat0' == seat0 + multiset{top} && seat1' == seat1 + multiset{below}
    ensures all == seat0' + seat1'
  {
  }

  /** `check_win_condition`'s verdict on a player, with an optional claimed tile. */
  ghost predicate WinsWith(p: Player, claimed: Option<Tile>)
    reads p
  {
    HandWins(WinTiles(p.hand, p.melds, claimed))
  }

  // ---------------------------------------------------------------------
  // The game
  // ---------------------------------------------------------------------

  class PokeJongGame {
    const player1: Player
    const player2: Player
    var currentPlayer: Player
    var otherPlayer: Player
    var drawPile: seq<Tile>
    var discardPile: seq<Tile>
    var gameOver: bool
    var winner: Player?

    /** Two distinct players taking turns, sorted hands, and only well-formed melds. */
    ghost predicate Valid()
      reads this, currentPlayer, otherPlayer
    {
      && player1 != player2
      && ((currentPlayer == player1 && otherPlayer == player2) ||
          (currentPlayer == player2 && otherPlayer == player1))
      && currentPlayer.Valid() && otherPlayer.Valid()
      && AllMelds(currentPlayer.melds) && AllMelds(otherPlayer.melds)
    }

    /** The ids of every tile on the table. */
    ghost function InPlay(): multiset<int>
      reads this, currentPlayer, otherPlayer
    {
      Table(drawPile, discardPile, currentPlayer.hand, currentPlayer.melds, otherPlayer.hand, otherPlayer.melds)
    }

    constructor(name1: string, name2: string)
      ensures Valid()
      ensures fresh(player1) && fresh(player2)
      ensures player1.name == name1 && player1.seat == 1
      ensures player2.name == name2 && player2.seat == 2
      ensures player1.hand == player2.hand == [] && player1.melds == player2.melds == []
      ensures player1.discards == player2.discards == []
      ensures player1.score == player2.score == 0
      ensures currentPlayer == player1 && otherPlayer == player2
      ensures drawPile == discardPile == [] && !gameOver && winner == null
    {
      player1 := new Player(name1, 1);
      player2 := new Player(name2, 2);
      currentPlayer := player1;
      otherPlayer := player2;
      drawPile, discardPile := [], [];
      gameOver, winner := false, null;
    }

    /** `switch_turn`: the two players swap roles. */
    method SwitchTurn()
      requires Valid()
      modifies this
      ensures Valid()
      ensures currentPlayer == old(otherPlayer) && otherPlayer == old(currentPlayer)
      ensures unchanged(this`drawPile, this`discardPile, this`gameOver, this`winner)
      ensures InPlay() == old(InPlay())
    {
      TableSwap(drawPile, discardPile, currentPlayer.hand, currentPlayer.melds, otherPlayer.hand, otherPlayer.melds);
      currentPlayer, otherPlayer := otherPlayer, currentPlayer;
    }

    /** `draw_tile`: the current player takes the last tile of the draw pile, if there is one. */
    method DrawTile() returns (drawn: bool)
      requires Valid()
      modifies this, currentPlayer
      ensures Valid()
      ensures drawn <==> old(drawPile) != []
      ensures drawn ==>
                && drawPile == old(drawPile[..|drawPile| - 1])
                && currentPlayer.hand == SortById(old(currentPlayer.hand + [drawPile[|drawPile| - 1]]))
      ensures !drawn ==> unchanged(this, currentPlayer)
      ensures unchanged(this`currentPlayer, this`otherPlayer, this`discardPile, this`gameOver, this`winner)
      ensures unchanged(currentPlayer`melds, currentPlayer`discards, currentPlayer`score)
      ensures InPlay() == old(InPlay())
    {
      if drawPile == [] {
        return false;
      }
      TableDraw(drawPile, discardPile, currentPlayer.hand, currentPlayer.melds, otherPlayer.hand, otherPlayer.melds);
      var tile := drawPile[|drawPile| - 1];
      drawPile := drawPile[..|drawPile| - 1];
      currentPlayer.DrawTile(tile);
      assert AllMelds(currentPlayer.melds) && otherPlayer.Valid() && AllMelds(otherPlayer.melds);
      drawn := true;
    }

    /** `discard_tile`: the current player's tile at `index` goes onto the discard pile; false when out of range. */
    method DiscardTile(index: int) returns (ok: bool)
      requires Valid()
      modifies this, currentPlayer
      ensures Valid()
      ensures ok <==> 0 <= index < |old(currentPlayer.hand)|
      ensures ok ==>
                && discardPile == old(discardPile + [currentPlayer.hand[index]])
                && currentPlayer.hand == old(currentPlayer.hand[..index] + currentPlayer.hand[index + 1..])
                && currentPlayer.discards == old(currentPlayer.discards + [currentPlayer.hand[index]])
      ensures !ok ==> unchanged(this, currentPlayer)
      ensures unchanged(this`currentPlayer, this`otherPlayer, this`drawPile, this`gameOver, this`winner)
      ensures unchanged(currentPlayer`melds, currentPlayer`score)
      ensures InPlay() == old(InPlay())
    {
      ghost var discards, hand := discardPile, currentPlayer.hand;
      var tile := currentPlayer.DiscardTile(index);
      assert AllMelds(currentPlayer.melds) && otherPlayer.Valid() && AllMelds(otherPlayer.melds);
      if tile.Some? {
        discardPile := discardPile + [tile.value];
        TableDiscard(drawPile, discards, hand, currentPlayer.melds, otherPlayer.hand, otherPlayer.melds, index,
                     discardPile, currentPlayer.hand);
        ok := true;
      } else {
        ok := false;
      }
    }

    /** `form_meld`: delegated to the current player. */
    method FormMeld(indices: seq<int>) returns (ok: bool)
      requires Valid()
      requires |indices| == 3 ==> ValidSelection(indices, |currentPlayer.hand|)
      modifies currentPlayer
      ensures Valid()
      ensures ok <==> |indices| == 3 && AllSameId(Pick(old(currentPlayer.hand), indices))
      ensures ok ==>
                var meld := old(MeldOf(currentPlayer.hand, indices));
                && currentPlayer.melds == old(currentPlayer.melds) + [meld]
                && currentPlayer.hand == old(SortById(Without(currentPlayer.hand, Elements(indices))))
                && currentPlayer.score == old(currentPlayer.score) + SumPoints(meld)
      ensures !ok ==> unchanged(currentPlayer)
      ensures unchanged(currentPlayer`discards)
      ensures InPlay() == old(InPlay())
    {
      var h, ms := currentPlayer.hand, currentPlayer.melds;
      ok := currentPlayer.FormMeld(indices);
      assert otherPlayer.Valid() && AllMelds(otherPlayer.melds);
      if ok {
        var meld := currentPlayer.melds[|ms|];
        TableMeld(drawPile, discardPile, h, ms, otherPlayer.hand, otherPlayer.melds,
                  currentPlayer.hand, meld);
        AllMeldsAppend(ms, meld);
      }
    }

    /**
     * `check_win_condition`: the given player (the current player when
     * none is given) wins when hand, melds and the claimed tile make 14
     * tiles that split into four triplets and a pair; a win ends the game.
     */
    method CheckWinCondition(player: Player?, claimed: Option<Tile>) returns (won: bool)
      requires Valid()
      modifies this
      ensures Valid()
      ensures won <==> WinsWith(if player == null then currentPlayer else player, claimed)
      ensures won ==> gameOver && winner == (if player == null then currentPlayer else player)
      ensures !won ==> unchanged(this)
      ensures unchanged(this`currentPlayer, this`otherPlayer, this`drawPile, this`discardPile)
    {
      var p := if player == null then currentPlayer else player;
      var tiles := CollectWinTiles(p.hand, p.melds, claimed);
      if |tiles| != 14 {
        return false;
      }
      var tileCounts := TileCounts(tiles);
      if CheckRecursive(tileCounts, false) {
        gameOver, winner := true, p;
        return true;
      }
      return false;
    }

    /**
     * The PUNG/KONG branch of `check_opponent_action`: the opponent, who
     * holds `count` >= 2 tiles of the discarded id, claims the discard with
     * all of them (a KONG when there are exactly three), the discard pile
     * is popped and the opponent takes the turn.
     */
    method ClaimDiscard(discarded: Tile, count: int)
      requires Valid() && discardPile != []
      requires count == CountId(otherPlayer.hand, discarded.id) && count >= 2
      modifies this, otherPlayer
      ensures Valid()
      ensures currentPlayer == old(otherPlayer) && otherPlayer == old(currentPlayer)
      ensures var held := old(FilterId(otherPlayer.hand, discarded.id));
              && currentPlayer.hand == SortById(RemoveEachId(old(otherPlayer.hand), held))
              && currentPlayer.melds == old(otherPlayer.melds) + [[discarded] + held]
              && currentPlayer.score == old(otherPlayer.score) + MeldPoints([discarded] + held, if count == 3 then Kong else Pung)
      ensures unchanged(currentPlayer`discards)
      ensures discardPile == old(discardPile[..|discardPile| - 1])
      ensures unchanged(this`drawPile, this`gameOver, this`winner)
      ensures InPlay() + multiset{old(discardPile[|discardPile| - 1]).id} == old(InPlay()) + multiset{discarded.id}
    {
      MeldDiscard(discarded, count);
      SwitchTurn();
    }

    /** The claim of `check_opponent_action` before the turn passes: the meld, the score and the popped discard. */
    method MeldDiscard(discarded: Tile, count: int)
      requires Valid() && discardPile != []
      requires count == CountId(otherPlayer.hand, discarded.id) && count >= 2
      modifies this, otherPlayer
      ensures Valid()
      ensures var held := old(FilterId(otherPlayer.hand, discarded.id));
              && otherPlayer.hand == SortById(RemoveEachId(old(otherPlayer.hand), held))
              && otherPlayer.melds == old(otherPlayer.melds) + [[discarded] + held]
              && otherPlayer.score == old(otherPlayer.score) + MeldPoints([discarded] + held, if count == 3 then Kong else Pung)
      ensures unchanged(otherPlayer`discards)
      ensures discardPile == old(discardPile[..|discardPile| - 1])
      ensures unchanged(this`currentPlayer, this`otherPlayer, this`drawPile, this`gameOver, this`winner)
      ensures InPlay() + multiset{old(discardPile[|discardPile| - 1]).id} == old(InPlay()) + multiset{discarded.id}
    {
      var opponent := otherPlayer;
      var kind := if count == 3 then Kong else Pung;
      var held := FilterId(opponent.hand, discarded.id);
      var supporting := held[..count];
      assert supporting == held;
      ghost var discards, hand, melds := discardPile, opponent.hand, opponent.melds;
      ClaimedMeld(opponent.hand, discarded);
      // The pop and the opponent's claim touch disjoint state, so they are done in the other order here.
      discardPile := discardPile[..|discardPile| - 1];
      OpponentClaims(discarded, supporting, kind);
      TableClaim(drawPile, discards, currentPlayer.hand, currentPlayer.melds, hand, melds, discarded,
                 discardPile, opponent.hand, opponent.melds);
    }

    /** The opponent's `claim_meld` call, which keeps the game valid. */
    method OpponentClaims(claimed: Tile, supporting: seq<Tile>, kind: CallType)
      requires Valid() && IsMeld([claimed] + supporting)
      modifies otherPlayer
      ensures Valid()
      ensures otherPlayer.hand == SortById(RemoveEachId(old(otherPlayer.hand), supporting))
      ensures otherPlayer.melds == old(otherPlayer.melds) + [[claimed] + supporting]
      ensures otherPlayer.score == old(otherPlayer.score) + MeldPoints([claimed] + supporting, kind)
      ensures unchanged(otherPlayer`discards)
    {
      AllMeldsAppend(otherPlayer.melds, [claimed] + supporting);
      otherPlayer.ClaimMeld(claimed, supporting, kind);
      assert currentPlayer.Valid() && AllMelds(currentPlayer.melds);
    }

    /**
     * `check_opponent_action`: after `discarded` was discarded, the
     * opponent wins on it (RON) if it completes a winning hand; otherwise
     * the opponent claims it when holding two or more tiles of its id.
     */
    method CheckOpponentAction(discarded: Tile) returns (acted: bool)
      requires Valid() && discardPile != []
      modifies this, otherPlayer
      ensures Valid()
      ensures acted <==> old(WinsWith(otherPlayer, Some(discarded))) || old(CountId(otherPlayer.hand, discarded.id)) >= 2
      ensures old(WinsWith(otherPlayer, Some(discarded))) ==>
                && gameOver && winner == otherPlayer
                && unchanged(otherPlayer)
                && unchanged(this`currentPlayer, this`otherPlayer, this`drawPile, this`discardPile)
      ensures !old(WinsWith(otherPlayer, Some(discarded))) && old(CountId(otherPlayer.hand, discarded.id)) >= 2 ==>
                var held := old(FilterId(otherPlayer.hand, discarded.id));
                && currentPlayer == old(otherPlayer) && otherPlayer == old(currentPlayer)
                && currentPlayer.hand == SortById(RemoveEachId(old(otherPlayer.hand), held))
                && currentPlayer.melds == old(otherPlayer.melds) + [[discarded] + held]
                && currentPlayer.score == old(otherPlayer.score) + MeldPoints([discarded] + held, if |held| == 3 then Kong else Pung)
                && unchanged(currentPlayer`discards)
                && discardPile == old(discardPile[..|discardPile| - 1])
                && unchanged(this`drawPile, this`gameOver, this`winner)
                && InPlay() + multiset{old(discardPile[|discardPile| - 1]).id} == old(InPlay()) + multiset{discarded.id}
      ensures !acted ==> unchanged(this, otherPlayer)
    {
      var opponent := otherPlayer;
      var won := CheckWinCondition(opponent, Some(discarded));
      if won {
        return true;
      }
      var handCounts := TileCounts(opponent.hand);
      var discardId := discarded.id;
      TileCountsCount(opponent.hand, discardId);
      var currentCount := handCounts[discardId];
      if currentCount >= 2 {
        ClaimDiscard(discarded, currentCount);
        return true;
      }
      return false;
    }

    /**
     * `check_draw_condition`: with the draw pile empty the game ends, won by
     * the player with the higher score, or by nobody on equal scores.
     */
    method CheckDrawCondition() returns (isDraw: bool)
      requires Valid()
      modifies this
      ensures Valid()
      ensures isDraw <==> drawPile == []
      ensures isDraw ==> gameOver
      ensures isDraw ==> (winner == player1 <==> player1.score > player2.score)
      ensures isDraw ==> (winner == player2 <==> player2.score > player1.score)
      ensures isDraw ==> (winner == null <==> player1.score == player2.score)
      ensures !isDraw ==> unchanged(this)
      ensures unchanged(this`currentPlayer, this`otherPlayer, this`drawPile, this`discardPile)
    {
      if drawPile == [] {
        gameOver := true;
        if player1.score > player2.score {
          winner := player1;
        } else if player2.score > player1.score {
          winner := player2;
        } else {
          winner := null;
        }
        return true;
      }
      return false;
    }

    /**
     * `setup_game`: a fresh shuffled set of `numPokemon` ids, four copies
     * each, becomes the draw pile, and 13 rounds of dealing give each player
     * 13 tiles from its top. `fetched` and `draw` stand for the data fetch
     * and the shuffle's random draws.
     */
    method SetupGame(numPokemon: int, fetched: int -> bool, draw: nat -> nat)
      requires Valid()
      requires numPokemon >= 7
      modifies this, player1, player2
      ensures Valid()
      ensures |drawPile| == 4 * numPokemon - 26
      ensures |player1.hand| == old(|player1.hand|) + 13 && |player2.hand| == old(|player2.hand|) + 13
      ensures forall x :: CountId(drawPile, x) + CountId(player1.hand, x) + CountId(player2.hand, x)
                          == old(CountId(player1.hand, x) + CountId(player2.hand, x)) + (if 1 <= x <= numPokemon then 4 else 0)
      ensures forall t :: t in drawPile ==> 1 <= t.id <= numPokemon && t == CreateTile(t.id, fetched(t.id))
      ensures unchanged(this`currentPlayer, this`otherPlayer, this`discardPile, this`gameOver, this`winner,
        player1`melds, player1`discards, player1`score, player2`melds, player2`discards, player2`score)
    {
      ghost var hand1, hand2 := player1.hand, player2.hand;
      var tiles := CreateTileSet(numPokemon, 4, fetched, draw);
      SetupCounts(numPokemon, tiles, hand1, hand2);
      Deal(tiles);
      assert forall t :: t in drawPile ==> t in tiles;
    }

    /**
     * The dealing loop of `setup_game`: 13 rounds, each popping one tile
     * from the end of the pile to player 1 and then one to player 2.
     */
    method Deal(tiles: seq<Tile>)
      requires Valid()
      requires |tiles| >= 26
      modifies this, player1, player2
      ensures Valid()
      ensures drawPile == tiles[..|tiles| - 26]
      ensures player1.hand == DealtHand(old(player1.hand), tiles, 0, 13)
      ensures player2.hand == DealtHand(old(player2.hand), tiles, 1, 13)
      ensures unchanged(this`currentPlayer, this`otherPlayer, this`discardPile, this`gameOver, this`winner,
        player1`melds, player1`discards, player1`score, player2`melds, player2`discards, player2`score)
    {
      ghost var hand1, hand2 := player1.hand, player2.hand;
      drawPile := tiles;
      assert Undealt(tiles, 0) == tiles;
      for round := 0 to 13
        invariant Valid()
        invariant drawPile == Undealt(tiles, round)
        invariant player1.hand == DealtHand(hand1, tiles, 0, round)
        invariant player2.hand == DealtHand(hand2, tiles, 1, round)
        invariant unchanged(this`currentPlayer, this`otherPlayer, this`discardPile, this`gameOver, this`winner,
          player1`melds, player1`discards, player1`score, player2`melds, player2`discards, player2`score)
      {
        DealRound(tiles, round, hand1, hand2);
      }
    }

    /** Round `round` of the deal: the top tile to player one, the next to player two. */
    method DealRound(ghost tiles: seq<Tile>, ghost round: nat, ghost hand1: seq<Tile>, ghost hand2: seq<Tile>)
      requires Valid() && |tiles| >= 26 && round < 13
      requires drawPile == Undealt(tiles, round)
      requires player1.hand == DealtHand(hand1, tiles, 0, round)
      requires player2.hand == DealtHand(hand2, tiles, 1, round)
      modifies this, player1, player2
      ensures Valid()
      ensures drawPile == Undealt(tiles, round + 1)
      ensures player1.hand == DealtHand(hand1, tiles, 0, round + 1)
      ensures player2.hand == DealtHand(hand2, tiles, 1, round + 1)
      ensures unchanged(this`currentPlayer, this`otherPlayer, this`discardPile, this`gameOver, this`winner,
        player1`melds, player1`discards, player1`score, player2`melds, player2`discards, player2`score)
    {
      DealtPile(tiles, round, drawPile);
      DealOne(player1);
      DealOne(player2);
    }

    /** One pop of the dealing loop: the top tile of the pile goes to `p`'s hand. */
    method DealOne(p: Player)
      requires Valid() && drawPile != [] && (p == player1 || p == player2)
      modifies this, p
      ensures Valid()
      ensures drawPile == old(drawPile[..|drawPile| - 1])
      ensures p.hand == SortById(old(p.hand + [drawPile[|drawPile| - 1]]))
      ensures unchanged(p`melds, p`discards, p`score)
      ensures unchanged(this`currentPlayer, this`otherPlayer, this`discardPile, this`gameOver, this`winner)
    {
      var tile := drawPile[|drawPile| - 1];
      drawPile := drawPile[..|drawPile| - 1];
      p.DrawTile(tile);
    }
  }
}
