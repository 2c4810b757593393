/**
 * WinShape: the pure part of game.py. The tile-frequency table
 * (`get_tile__counts`), the recursive backtracking test
 * (`_check_recursive`), and what that test decides: whether the counts
 * split into triplets and exactly one pair.
 *
 * A frequency table is a `multiset<int>`: the multiplicity of an id is its
 * count. Each branch of the Python search works on a copy of the table; here
 * the tables are values, so no call can change its caller's table.
 */
module WinShape {
  import opened Tiles

  /** `get_tile__counts`: how many tiles of each id. */
  function TileCounts(tiles: seq<Tile>): (counts: multiset<int>)
    ensures |counts| == |tiles|
  {
    if tiles == [] then multiset{}
    else multiset{tiles[0].id} + TileCounts(tiles[1..])
  }

  /** The table holds, for each id, the number of tiles of that id. */
  lemma {:induction false} TileCountsCount(tiles: seq<Tile>, x: int)
    ensures TileCounts(tiles)[x] == CountId(tiles, x)
  {
    if tiles != [] {
      TileCountsCount(tiles[1..], x);
      FilterIdCons(tiles, x);
    }
  }

  lemma HasElement(s: multiset<int>)
    requires s != multiset{}
    ensures exists y :: y in s
  {
    if forall y :: y !in s {
      assert false;
    }
  }

  /** A least element of a non-empty table (exists because the table is finite). */
  ghost function Least(s: multiset<int>): (m: int)
    requires s != multiset{}
    ensures m in s && forall x :: x in s ==> m <= x
    decreases |s|
  {
    HasElement(s);
    var y :| y in s;
    var rest := s - multiset{y};
    assert forall x :: x in s && x != y ==> x in rest;
    if rest == multiset{} then y
    else
      var m := Least(rest);
      if y < m then y else m
  }

  /** The smallest id whose count is positive. */
  function SmallestId(counts: multiset<int>): (m: int)
    requires counts != multiset{}
    ensures m in counts && forall x :: x in counts ==> m <= x
  {
    assert Least(counts) in counts;
    var m :| m in counts && forall x :: x in counts ==> m <= x; m
  }

  /** One group of a winning shape: the pair (the eye) or a triplet. */
  datatype Group = Pair(id: int) | Triplet(id: int)

  function GroupTiles(g: Group): multiset<int>
  {
    match g
    case Pair(x) => multiset{x, x}
    case Triplet(x) => multiset{x, x, x}
  }

  /** Taking a group's tiles out of counts that hold enough copies of its id. */
  lemma TakeGroup(counts: multiset<int>, g: Group)
    requires counts[g.id] >= |GroupTiles(g)|
    ensures GroupTiles(g) + (counts - GroupTiles(g)) == counts
    ensures |counts - GroupTiles(g)| + |GroupTiles(g)| == |counts|
  {
    assert GroupTiles(g) <= counts;
  }

  /**
   * `_check_recursive`: take the smallest id with a positive count; try to
   * use two of it as the pair (if no pair is used yet), then three of it as a
   * triplet. Every call removes two or three tiles, so the search ends. With
   * fewer than two copies neither branch applies and the search fails.
   */
  function CheckRecursive(counts: multiset<int>, hasPair: bool): bool
    decreases |counts|
  {
    if counts == multiset{} then hasPair
    else
      var id := SmallestId(counts);
      var count := counts[id];
      if count < 2 then false
      else
        TakeGroup(counts, Pair(id));
        if !hasPair && CheckRecursive(counts - multiset{id, id}, true) then true
        else if count >= 3 then
          TakeGroup(counts, Triplet(id));
          CheckRecursive(counts - multiset{id, id, id}, hasPair)
        else false
  }

  /** The 14-tile decision of `check_win_condition`: exactly 14 tiles, and the search succeeds. */
  predicate HandWins(tiles: seq<Tile>)
  {
    |tiles| == 14 && CheckRecursive(TileCounts(tiles), false)
  }

  // ---------------------------------------------------------------------
  // The reference definition: a split into groups
  // ---------------------------------------------------------------------

  /** All tiles the groups use. */
  function Cover(gs: seq<Group>): multiset<int>
  {
    if gs == [] then multiset{} else GroupTiles(gs[0]) + Cover(gs[1..])
  }

  function PairCount(gs: seq<Group>): nat
  {
    if gs == [] then 0 else (if gs[0].Pair? then 1 else 0) + PairCount(gs[1..])
  }

  /** `gs` uses exactly the tiles of `counts`, with one pair unless the pair is already used. */
  predicate IsSplit(counts: multiset<int>, hasPair: bool, gs: seq<Group>)
  {
    Cover(gs) == counts && PairCount(gs) == if hasPair then 0 else 1
  }

  /** Taking one group out of a split takes exactly its tiles out of the cover. */
  lemma {:induction false} CoverWithout(left: seq<Group>, g: Group, right: seq<Group>)
    ensures Cover(left + [g] + right) == GroupTiles(g) + Cover(left + right)
    ensures PairCount(left + [g] + right) == PairCount([g]) + PairCount(left + right)
  {
    if left == [] {
      assert left + [g] + right == [g] + right;
      assert left + right == right;
      CoverCons(g, right);
    } else {
      var h, t := left[0], left[1..];
      assert left + [g] + right == [h] + (t + [g] + right) by {
        assert left == [h] + t;
      }
      assert left + right == [h] + (t + right) by {
        assert left == [h] + t;
      }
      CoverWithout(t, g, right);
      CoverCons(h, t + [g] + right);
      CoverCons(h, t + right);
      UnionSwap(GroupTiles(g), GroupTiles(h), Cover(t + right));
    }
  }

  lemma UnionSwap(a: multiset<int>, b: multiset<int>, c: multiset<int>)
    ensures a + (b + c) == b + (a + c)
  {
  }

  /** Every id the cover holds belongs to some group: `gs` is `left + [g] + right` with `g` of that id. */
  lemma {:induction false} GroupOf(gs: seq<Group>, x: int) returns (left: seq<Group>, g: Group, right: seq<Group>)
    requires x in Cover(gs)
    ensures gs == left + [g] + right && g.id == x
  {
    assert gs != [];
    assert gs == [gs[0]] + gs[1..];
    if x in GroupTiles(gs[0]) {
      left, g, right := [], gs[0], gs[1..];
    } else {
      var l;
      l, g, right := GroupOf(gs[1..], x);
      left := [gs[0]] + l;
    }
  }

  /** Pairs and triplets of id `x` among the groups. */
  function PairsOf(gs: seq<Group>, x: int): nat
  {
    if gs == [] then 0 else (if gs[0] == Pair(x) then 1 else 0) + PairsOf(gs[1..], x)
  }

  function TripletsOf(gs: seq<Group>, x: int): nat
  {
    if gs == [] then 0 else (if gs[0] == Triplet(x) then 1 else 0) + TripletsOf(gs[1..], x)
  }

  lemma {:induction false} CoverCount(gs: seq<Group>, x: int)
    ensures Cover(gs)[x] == 2 * PairsOf(gs, x) + 3 * TripletsOf(gs, x)
  {
    if gs != [] {
      CoverCount(gs[1..], x);
    }
  }

  lemma {:induction false} CoverSize(gs: seq<Group>)
    ensures |Cover(gs)| == 2 * PairCount(gs) + 3 * (|gs| - PairCount(gs))
    ensures PairCount(gs) <= |gs|
  {
    if gs != [] {
      CoverSize(gs[1..]);
    }
  }

  lemma {:induction false} PairsOfTwoIds(gs: seq<Group>, x: int, y: int)
    requires x != y
    ensures PairsOf(gs, x) + PairsOf(gs, y) <= PairCount(gs)
  {
    if gs != [] {
      PairsOfTwoIds(gs[1..], x, y);
    }
  }

  // ---------------------------------------------------------------------
  // The search decides exactly the existence of a split
  // ---------------------------------------------------------------------

  lemma CoverCons(g: Group, gs: seq<Group>)
    ensures Cover([g] + gs) == GroupTiles(g) + Cover(gs)
    ensures PairCount([g] + gs) == (if g.Pair? then 1 else 0) + PairCount(gs)
  {
    assert ([g] + gs)[1..] == gs;
  }

  /** Soundness: a successful search yields a split (the groups it chose). */
  ghost function SplitOf(counts: multiset<int>, hasPair: bool): (gs: seq<Group>)
    requires CheckRecursive(counts, hasPair)
    ensures IsSplit(counts, hasPair, gs)
    decreases |counts|
  {
    if counts == multiset{} then []
    else
      var id := SmallestId(counts);
      var g := if !hasPair && CheckRecursive(counts - multiset{id, id}, true) then Pair(id) else Triplet(id);
      TakeGroup(counts, g);
      var rest := SplitOf(counts - GroupTiles(g), hasPair || g.Pair?);
      CoverCons(g, rest);
      [g] + rest
  }

  /** The group of a split that holds `id`, and the split of what is left once it is taken out. */
  lemma SplitStep(counts: multiset<int>, hasPair: bool, gs: seq<Group>, id: int) returns (g: Group, rest: seq<Group>)
    requires IsSplit(counts, hasPair, gs) && id in counts
    ensures g.id == id && counts[id] >= |GroupTiles(g)| && (g.Pair? ==> !hasPair)
    ensures IsSplit(counts - GroupTiles(g), hasPair || g.Pair?, rest)
  {
    var left, right;
    left, g, right := GroupOf(gs, id);
    rest := left + right;
    CoverWithout(left, g, right);
    UnionMinus(GroupTiles(g), Cover(rest));
  }

  /** Completeness: whenever a split exists, the search finds one. */
  lemma {:induction false} SplitFound(counts: multiset<int>, hasPair: bool, gs: seq<Group>)
    requires IsSplit(counts, hasPair, gs)
    ensures CheckRecursive(counts, hasPair)
    decreases |counts|
  {
    if counts == multiset{} {
      CoverSize(gs);
    } else {
      var id := SmallestId(counts);
      var g, rest := SplitStep(counts, hasPair, gs, id);
      TakeGroup(counts, g);
      SplitFound(counts - GroupTiles(g), hasPair || g.Pair?, rest);
    }
  }

  lemma UnionMinus(a: multiset<int>, b: multiset<int>)
    ensures (a + b) - a == b
  {
  }

  /** `_check_recursive(counts, has_pair)` holds exactly when the counts split into triplets plus the missing pair. */
  lemma CheckRecursiveSplits(counts: multiset<int>, hasPair: bool)
    ensures CheckRecursive(counts, hasPair) <==> exists gs :: IsSplit(counts, hasPair, gs)
  {
    if CheckRecursive(counts, hasPair) {
      var gs := SplitOf(counts, hasPair);
      assert IsSplit(counts, hasPair, gs);
    }
    if exists gs :: IsSplit(counts, hasPair, gs) {
      var gs :| IsSplit(counts, hasPair, gs);
      SplitFound(counts, hasPair, gs);
    }
  }

  /** A successful search used up a multiple of three tiles, plus two for the pair it had to find. */
  lemma SearchSize(counts: multiset<int>, hasPair: bool)
    requires CheckRecursive(counts, hasPair)
    ensures |counts| % 3 == if hasPair then 0 else 2
  {
    var gs := SplitOf(counts, hasPair);
    CoverSize(gs);
    SizeRemainder(|counts|, PairCount(gs), |gs| - PairCount(gs));
  }

  lemma SizeRemainder(size: int, pairs: int, triplets: int)
    requires size == 2 * pairs + 3 * triplets && 0 <= pairs <= 1
    ensures size % 3 == if pairs == 0 then 0 else 2
  {
    if pairs == 0 {
      assert size % 3 == (3 * triplets) % 3;
    } else {
      assert size % 3 == (3 * triplets + 2) % 3;
    }
  }

  /** A winning 14-tile hand is four triplets and one pair. */
  lemma WinningHandShape(tiles: seq<Tile>)
    requires HandWins(tiles)
    ensures exists gs :: IsSplit(TileCounts(tiles), false, gs) && |gs| == 5
  {
    var gs := SplitOf(TileCounts(tiles), false);
    CoverSize(gs);
  }

  lemma {:induction false} PairsOfBound(gs: seq<Group>, x: int)
    ensures PairsOf(gs, x) <= PairCount(gs)
  {
    if gs != [] {
      PairsOfBound(gs[1..], x);
    }
  }

  /** With at most one pair among the groups, an id's count leaves remainder 0, or 2 when the pair has that id. */
  lemma CountRemainder(gs: seq<Group>, x: int)
    requires PairCount(gs) <= 1
    ensures Cover(gs)[x] % 3 == if PairsOf(gs, x) == 0 then 0 else 2
  {
    CoverCount(gs, x);
    PairsOfBound(gs, x);
    SizeRemainder(Cover(gs)[x], PairsOf(gs, x), TripletsOf(gs, x));
  }

  /** The count of an id in a successful search is a multiple of three, plus two for the pair's id. */
  lemma IdCountInWin(counts: multiset<int>, hasPair: bool, x: int)
    requires CheckRecursive(counts, hasPair)
    ensures counts[x] % 3 == 0 || (counts[x] % 3 == 2 && !hasPair)
  {
    var gs := SplitOf(counts, hasPair);
    CountRemainder(gs, x);
    PairsOfBound(gs, x);
  }

  /** An id held four times (or once) can never be used up, so such counts never win. */
  lemma FourCopiesNeverWin(counts: multiset<int>, hasPair: bool, x: int)
    requires counts[x] % 3 == 1
    ensures !CheckRecursive(counts, hasPair)
  {
    if CheckRecursive(counts, hasPair) {
      IdCountInWin(counts, hasPair, x);
    }
  }

  /** Two different ids that can each only end as a pair: there is only one pair, so no win. */
  lemma TwoPairIdsNeverWin(counts: multiset<int>, hasPair: bool, x: int, y: int)
    requires x != y && counts[x] % 3 == 2 && counts[y] % 3 == 2
    ensures !CheckRecursive(counts, hasPair)
  {
    if CheckRecursive(counts, hasPair) {
      var gs := SplitOf(counts, hasPair);
      CountRemainder(gs, x);
      CountRemainder(gs, y);
      PairsOfTwoIds(gs, x, y);
    }
  }

  // ---------------------------------------------------------------------
  // Concrete hands over ids 1..5
  // ---------------------------------------------------------------------

  /** Four triplets of ids 1, 2, 3, 4 and a pair of id 5 win. */
  lemma FourTripletsAndPairWin(counts: multiset<int>)
    requires forall x :: counts[x] == if 1 <= x <= 4 then 3 else if x == 5 then 2 else 0
    ensures CheckRecursive(counts, false)
  {
    var g5 := [Pair(5)];
    var g4 := [Triplet(4)] + g5;
    var g3 := [Triplet(3)] + g4;
    var g2 := [Triplet(2)] + g3;
    var gs := [Triplet(1)] + g2;
    CoverCons(Pair(5), []);
    assert g5 == [Pair(5)] + [];
    CoverCons(Triplet(4), g5);
    CoverCons(Triplet(3), g4);
    CoverCons(Triplet(2), g3);
    CoverCons(Triplet(1), g2);
    forall x ensures Cover(gs)[x] == counts[x] {
      assert Cover(g5)[x] == if x == 5 then 2 else 0;
      assert Cover(g4)[x] == (if x == 4 then 3 else 0) + Cover(g5)[x];
      assert Cover(g3)[x] == (if x == 3 then 3 else 0) + Cover(g4)[x];
      assert Cover(g2)[x] == (if x == 2 then 3 else 0) + Cover(g3)[x];
      assert Cover(gs)[x] == (if x == 1 then 3 else 0) + Cover(g2)[x];
    }
    assert Cover(gs) == counts;
    assert PairCount(gs) == 1;
    SplitFound(counts, false, gs);
  }

  /** Three triplets and two pairs do not win. */
  lemma TwoPairsLose()
    ensures !CheckRecursive(multiset{1, 1, 1, 2, 2, 2, 3, 3, 3, 4, 4, 5, 5}, false)
  {
    TwoPairIdsNeverWin(multiset{1, 1, 1, 2, 2, 2, 3, 3, 3, 4, 4, 5, 5}, false, 4, 5);
  }
}
