/**
 * Players: a player's concealed hand, exposed melds, discard history and
 * score, and the four operations that change them (player.py).
 */
module Players {
  import opened Tiles
  import opened Options

  /** How a meld was claimed from a discard. */
  datatype CallType = Pung | Kong

  // ---------------------------------------------------------------------
  // Sorting the hand by id (list.sort with key=pokemon_id, a stable sort)
  // ---------------------------------------------------------------------

  predicate SortedById(s: seq<Tile>)
  {
    forall i, j :: 0 <= i < j < |s| ==> s[i].id <= s[j].id
  }

  /** Puts `t` in front of the first tile whose id is not smaller. */
  function Insert(t: Tile, s: seq<Tile>): (r: seq<Tile>)
    ensures |r| == |s| + 1
  {
    if s == [] || t.id <= s[0].id then [t] + s
    else [s[0]] + Insert(t, s[1..])
  }

  /** Inserting adds exactly the one tile. */
  lemma {:induction false} InsertTiles(t: Tile, s: seq<Tile>)
    ensures multiset(Insert(t, s)) == multiset(s) + multiset{t}
  {
    if s != [] && t.id > s[0].id {
      InsertTiles(t, s[1..]);
      assert s == [s[0]] + s[1..];
    }
  }

  lemma {:induction false} InsertSorted(t: Tile, s: seq<Tile>)
    requires SortedById(s)
    ensures SortedById(Insert(t, s))
  {
    if s != [] && t.id > s[0].id {
      var r' := Insert(t, s[1..]);
      InsertSorted(t, s[1..]);
      assert r'[0] == t || r'[0] == s[1] by {
        assert s[1..] != [] ==> s[1..][0] == s[1];
      }
    }
  }

  /** The hand order after `sort_hand`: non-decreasing ids, a rearrangement of `s`. */
  function SortById(s: seq<Tile>): (r: seq<Tile>)
    ensures |r| == |s|
  {
    if s == [] then []
    else Insert(s[0], SortById(s[1..]))
  }

  /** Sorting rearranges the tiles into non-decreasing id order. */
  lemma {:induction false} SortByIdSorts(s: seq<Tile>)
    ensures multiset(SortById(s)) == multiset(s)
    ensures SortedById(SortById(s))
  {
    if s != [] {
      SortByIdSorts(s[1..]);
      assert s == [s[0]] + s[1..];
      InsertSorted(s[0], SortById(s[1..]));
      InsertTiles(s[0], SortById(s[1..]));
    }
  }

  lemma {:induction false} InsertFilter(t: Tile, s: seq<Tile>, x: int)
    ensures FilterId(Insert(t, s), x) == FilterId([t], x) + FilterId(s, x)
  {
    if s == [] || t.id <= s[0].id {
      FilterIdAppend([t], s, x);
    } else {
      InsertFilter(t, s[1..], x);
      FilterIdAppend([s[0]], Insert(t, s[1..]), x);
      FilterIdCons(s, x);
      FilterSwap(s[0], t, FilterId(s[1..], x), x);
    }
  }

  /** Tiles of different ids can trade places in front of a filtered sequence. */
  lemma FilterSwap(a: Tile, b: Tile, rest: seq<Tile>, x: int)
    requires a.id != b.id
    ensures FilterId([a], x) + (FilterId([b], x) + rest) == FilterId([b], x) + (FilterId([a], x) + rest)
  {
    assert FilterId([a], x) == [] || FilterId([b], x) == [] by {
      assert [a][1..] == [] && [b][1..] == [];
    }
  }

  /** Sorting is stable: the tiles of one id keep their relative order. */
  lemma {:induction false} SortByIdStable(s: seq<Tile>, x: int)
    ensures FilterId(SortById(s), x) == FilterId(s, x)
  {
    if s != [] {
      SortByIdStable(s[1..], x);
      InsertFilter(s[0], SortById(s[1..]), x);
      FilterIdCons(s, x);
    }
  }

  // ---------------------------------------------------------------------
  // Removing tiles from a hand
  // ---------------------------------------------------------------------

  /** `list.pop(i)`: everything but position `i`, in order. */
  function RemoveAt(s: seq<Tile>, i: int): (r: seq<Tile>)
    requires 0 <= i < |s|
    ensures |r| == |s| - 1
    ensures SortedById(s) ==> SortedById(r)
  {
    s[..i] + s[i + 1..]
  }

  /** Popping a position takes exactly that one tile out of the hand. */
  lemma RemoveAtTiles(s: seq<Tile>, i: int)
    requires 0 <= i < |s|
    ensures multiset(RemoveAt(s, i)) + multiset{s[i]} == multiset(s)
  {
    assert s == s[..i] + [s[i]] + s[i + 1..];
  }

  /** The tiles of `s` at the positions `drop` does not name, in order. */
  function Without(s: seq<Tile>, drop: set<int>): seq<Tile>
  {
    if s == [] then []
    else Without(s[..|s| - 1], drop) + (if |s| - 1 in drop then [] else [s[|s| - 1]])
  }

  lemma {:induction false} WithoutNothing(s: seq<Tile>, drop: set<int>)
    requires forall d :: d in drop ==> d >= |s|
    ensures Without(s, drop) == s
  {
    if s != [] {
      WithoutNothing(s[..|s| - 1], drop);
    }
  }

  /**
   * Popping position `j` below every dropped position: the positions
   * before the dropped ones have not moved, so the tile at `j` is the
   * original one and popping it drops `j` as well.
   */
  lemma {:induction false} WithoutPopBelow(s: seq<Tile>, drop: set<int>, j: int)
    requires 0 <= j < |s|
    requires forall d :: d in drop ==> d > j
    ensures j < |Without(s, drop)| && Without(s, drop)[j] == s[j]
    ensures RemoveAt(Without(s, drop), j) == Without(s, drop + {j})
  {
    if j == |s| - 1 {
      WithoutPopLast(s, drop);
    } else {
      var init := s[..|s| - 1];
      WithoutPopBelow(init, drop, j);
      WithoutPopEarlier(s, drop, j);
    }
  }

  /** Popping the last position, when nothing is dropped before it. */
  lemma WithoutPopLast(s: seq<Tile>, drop: set<int>)
    requires s != []
    requires forall d :: d in drop ==> d > |s| - 1
    ensures Without(s, drop) == s
    ensures RemoveAt(s, |s| - 1) == Without(s, drop + {|s| - 1})
  {
    var n := |s| - 1;
    var init := s[..n];
    WithoutNothing(init, drop);
    WithoutNothing(init, drop + {n});
    LastSplit(s);
  }

  lemma LastSplit<T>(s: seq<T>)
    requires s != []
    ensures s[..|s| - 1] + [s[|s| - 1]] == s
    ensures s[..|s| - 1] + s[|s|..] == s[..|s| - 1]
  {
  }

  /** The inductive step: popping `j` commutes with appending the last tile, which `j` lies below. */
  lemma WithoutPopEarlier(s: seq<Tile>, drop: set<int>, j: int)
    requires 0 <= j < |s| - 1
    requires forall d :: d in drop ==> d > j
    requires var w := Without(s[..|s| - 1], drop);
      j < |w| && w[j] == s[j] && RemoveAt(w, j) == Without(s[..|s| - 1], drop + {j})
    ensures j < |Without(s, drop)| && Without(s, drop)[j] == s[j]
    ensures RemoveAt(Without(s, drop), j) == Without(s, drop + {j})
  {
    var n := |s| - 1;
    var w := Without(s[..n], drop);
    var last := if n in drop then [] else [s[n]];
    assert j < |Without(s, drop)| && Without(s, drop)[j] == s[j] by {
      assert Without(s, drop) == w + last;
    }
    assert RemoveAt(Without(s, drop), j) == Without(s, drop + {j}) by {
      assert Without(s, drop) == w + last;
      assert Without(s, drop + {j}) == Without(s[..n], drop + {j}) + last;
      RemoveAtAppend(w, last, j);
    }
  }

  lemma RemoveAtAppend(a: seq<Tile>, b: seq<Tile>, j: int)
    requires 0 <= j < |a|
    ensures RemoveAt(a + b, j) == RemoveAt(a, j) + b
  {
    assert (a + b)[..j] == a[..j];
    assert (a + b)[j + 1..] == a[j + 1..] + b;
  }

  predicate NonIncreasing(s: seq<int>)
  {
    forall i, j :: 0 <= i < j < |s| ==> s[i] >= s[j]
  }

  predicate Decreasing(s: seq<int>)
  {
    forall i, j :: 0 <= i < j < |s| ==> s[i] > s[j]
  }

  /** Indices `xs` from largest to smallest: `sorted(xs, reverse=True)`. */
  function Descending(xs: seq<int>): (r: seq<int>)
    ensures |r| == |xs|
    ensures multiset(r) == multiset(xs)
  {
    if xs == [] then []
    else
      assert xs == [xs[0]] + xs[1..];
      InsertDescending(xs[0], Descending(xs[1..]))
  }

  lemma {:induction false} DescendingOrdered(xs: seq<int>)
    ensures NonIncreasing(Descending(xs))
    ensures Distinct(xs) ==> Decreasing(Descending(xs))
  {
    if xs != [] {
      var rest := Descending(xs[1..]);
      DescendingOrdered(xs[1..]);
      InsertDescendingSorted(xs[0], rest);
      if Distinct(xs) {
        assert Distinct(xs[1..]);
        assert xs[0] !in multiset(xs[1..]) by {
          assert xs[0] !in xs[1..];
        }
        InsertDescendingStrict(xs[0], rest);
      }
    }
  }

  function InsertDescending(v: int, s: seq<int>): (r: seq<int>)
    ensures |r| == |s| + 1
    ensures multiset(r) == multiset(s) + multiset{v}
  {
    if s == [] || v >= s[0] then [v] + s
    else
      assert s == [s[0]] + s[1..];
      [s[0]] + InsertDescending(v, s[1..])
  }

  lemma {:induction false} InsertDescendingSorted(v: int, s: seq<int>)
    requires NonIncreasing(s)
    ensures NonIncreasing(InsertDescending(v, s))
  {
    if s != [] && v < s[0] {
      var r' := InsertDescending(v, s[1..]);
      InsertDescendingSorted(v, s[1..]);
      assert r'[0] == v || r'[0] == s[1] by {
        assert s[1..] != [] ==> s[1..][0] == s[1];
      }
    }
  }

  lemma {:induction false} InsertDescendingStrict(v: int, s: seq<int>)
    requires Decreasing(s) && v !in s
    ensures Decreasing(InsertDescending(v, s))
  {
    if s != [] && v < s[0] {
      var r' := InsertDescending(v, s[1..]);
      assert v !in s[1..];
      InsertDescendingStrict(v, s[1..]);
      assert r'[0] == v || r'[0] == s[1] by {
        assert s[1..] != [] ==> s[1..][0] == s[1];
      }
    }
  }

  /** The set of positions listed in `xs`. */
  function Elements(xs: seq<int>): set<int>
  {
    set i | i in xs
  }

  predicate Distinct(xs: seq<int>)
  {
    forall i, j :: 0 <= i < j < |xs| ==> xs[i] != xs[j]
  }

  /** What `form_meld` accepts: three distinct positions of the hand. */
  predicate ValidSelection(indices: seq<int>, size: nat)
  {
    Distinct(indices) && InRange(indices, size)
  }

  /**
   * `form_meld`'s pop loop: pop the positions of `order`, largest first,
   * collecting the popped tiles. Popping in decreasing order keeps every
   * later position valid, so exactly the named tiles leave the hand.
   */
  method PopInOrder(h: seq<Tile>, order: seq<int>) returns (rest: seq<Tile>, popped: seq<Tile>)
    requires Decreasing(order)
    requires InRange(order, |h|)
    ensures rest == Without(h, Elements(order))
    ensures popped == Pick(h, order)
    ensures |rest| == |h| - |order|
    ensures multiset(rest) + multiset(popped) == multiset(h)
  {
    rest, popped := h, [];
    WithoutNothing(h, {});
    assert Elements(order[..0]) == {};
    for k := 0 to |order|
      invariant rest == Without(h, Elements(order[..k]))
      invariant popped == Pick(h, order[..k])
      invariant |rest| == |h| - k
      invariant multiset(rest) + multiset(popped) == multiset(h)
    {
      PopStep(h, order, k);
      MoveTile(rest, popped, order[k]);
      popped := popped + [rest[order[k]]];
      rest := RemoveAt(rest, order[k]);
    }
    assert order[..|order|] == order;
  }

  /** Moving the tile at `i` from one sequence to the end of another keeps the tiles of both together. */
  lemma MoveTile(from: seq<Tile>, to: seq<Tile>, i: int)
    requires 0 <= i < |from|
    ensures multiset(RemoveAt(from, i)) + multiset(to + [from[i]]) == multiset(from) + multiset(to)
  {
    RemoveAtTiles(from, i);
    assert multiset(to + [from[i]]) == multiset(to) + multiset{from[i]};
  }

  /** One turn of PopInOrder's loop: popping `order[k]` from what is left pops the original tile there. */
  lemma PopStep(h: seq<Tile>, order: seq<int>, k: nat)
    requires Decreasing(order)
    requires k < |order| && InRange(order, |h|)
    ensures var rest := Without(h, Elements(order[..k]));
      && order[k] < |rest| && rest[order[k]] == h[order[k]]
      && RemoveAt(rest, order[k]) == Without(h, Elements(order[..k + 1]))
      && Pick(h, order[..k + 1]) == Pick(h, order[..k]) + [h[order[k]]]
  {
    assert forall d :: d in Elements(order[..k]) ==> d > order[k];
    WithoutPopBelow(h, Elements(order[..k]), order[k]);
    TakeNext(order, k);
    assert Elements(order[..k]) + {order[k]} == Elements(order[..k + 1]);
    PickNext(h, order[..k + 1]);
  }

  lemma TakeNext<T>(s: seq<T>, k: nat)
    requires k < |s|
    ensures s[..k + 1] == s[..k] + [s[k]]
  {
  }

  /** Picking one more index appends the tile there. */
  lemma PickNext(h: seq<Tile>, xs: seq<int>)
    requires xs != [] && InRange(xs, |h|)
    ensures Pick(h, xs) == Pick(h, xs[..|xs| - 1]) + [h[xs[|xs| - 1]]]
  {
  }

  /** Listing a one-id selection from the largest index down gives the same positions and a one-id meld. */
  lemma DescendingSelection(h: seq<Tile>, indices: seq<int>)
    requires ValidSelection(indices, |h|) && indices != []
    requires AllSameId(Pick(h, indices))
    ensures var order := Descending(indices);
      && Decreasing(order)
      && InRange(order, |h|)
      && Elements(order) == Elements(indices)
      && AllSameId(Pick(h, order))
      && Pick(h, order)[0].id == h[indices[0]].id
  {
    var order := Descending(indices);
    DescendingOrdered(indices);
    forall k | 0 <= k < |order| ensures order[k] in indices {
      assert order[k] in multiset(order);
    }
    forall i | i in indices ensures i in order {
      assert i in multiset(indices);
    }
    var picked := Pick(h, order);
    forall j | 0 <= j < |order| ensures picked[j].id == h[indices[0]].id {
      assert order[j] in indices;
    }
  }

  /**
   * The successful part of `form_meld`: pop the three selected positions,
   * largest first, into a meld and re-sort what is left.
   */
  method PopMeld(h: seq<Tile>, indices: seq<int>) returns (rest: seq<Tile>, meld: seq<Tile>)
    requires ValidSelection(indices, |h|) && |indices| == 3
    requires AllSameId(Pick(h, indices))
    ensures meld == MeldOf(h, indices) && IsMeld(meld) && |meld| == 3
    ensures rest == SortById(Without(h, Elements(indices))) && SortedById(rest)
    ensures multiset(rest) + multiset(meld) == multiset(h)
  {
    var order := Descending(indices);
    DescendingSelection(h, indices);
    var left;
    left, meld := PopInOrder(h, order);
    rest := SortById(left);
    SortByIdSorts(left);
  }

  /** The meld `form_meld` builds from a one-id selection: the selected tiles, largest index first. */
  function MeldOf(h: seq<Tile>, indices: seq<int>): (m: seq<Tile>)
    requires ValidSelection(indices, |h|) && indices != []
    requires AllSameId(Pick(h, indices))
    ensures AllSameId(m) && |m| == |indices| && m[0].id == h[indices[0]].id
  {
    DescendingSelection(h, indices);
    Pick(h, Descending(indices))
  }

  predicate InRange(xs: seq<int>, size: int)
  {
    forall k :: 0 <= k < |xs| ==> 0 <= xs[k] < size
  }

  /** The tiles at `indices`, in the order the indices are listed. */
  function Pick(s: seq<Tile>, indices: seq<int>): (r: seq<Tile>)
    requires InRange(indices, |s|)
    ensures |r| == |indices|
    ensures forall k :: 0 <= k < |r| ==> r[k] == s[indices[k]]
  {
    seq(|indices|, k requires 0 <= k < |indices| => s[indices[k]])
  }

  /** Removes the first tile of the hand equal to `t` (tile equality compares ids), if there is one. */
  function RemoveFirstId(h: seq<Tile>, t: Tile): (r: seq<Tile>)
  {
    if h == [] then []
    else if TileEquals(h[0], TileOperand(t)) then h[1..]
    else [h[0]] + RemoveFirstId(h[1..], t)
  }

  /** `claim_meld`'s removal loop: one first-match removal per supporting tile, in order. */
  function RemoveEachId(h: seq<Tile>, ts: seq<Tile>): seq<Tile>
  {
    if ts == [] then h
    else RemoveFirstId(RemoveEachId(h, ts[..|ts| - 1]), ts[|ts| - 1])
  }

  /**
   * `claim_meld`'s removal loop: for each supporting tile, scan the hand
   * for the first tile equal to it (same id) and pop it; a tile with no
   * match removes nothing.
   */
  method RemoveSupporting(hand: seq<Tile>, supporting: seq<Tile>) returns (h: seq<Tile>)
    ensures h == RemoveEachId(hand, supporting)
  {
    h := hand;
    for k := 0 to |supporting|
      invariant h == RemoveEachId(hand, supporting[..k])
    {
      var i := 0;
      while i < |h| && !TileEquals(h[i], TileOperand(supporting[k]))
        invariant 0 <= i <= |h|
        invariant forall j :: 0 <= j < i ==> h[j].id != supporting[k].id
      {
        i := i + 1;
      }
      RemoveFirstIdAt(h, supporting[k], i);
      assert supporting[..k + 1][..k] == supporting[..k];
      if i < |h| {
        h := RemoveAt(h, i);
      }
    }
    assert supporting[..|supporting|] == supporting;
  }

  /** A search that skipped only tiles of other ids and stopped at `i` finds what RemoveFirstId removes. */
  lemma {:induction false} RemoveFirstIdAt(h: seq<Tile>, t: Tile, i: nat)
    requires i <= |h|
    requires forall j :: 0 <= j < i ==> h[j].id != t.id
    requires i < |h| ==> h[i].id == t.id
    ensures RemoveFirstId(h, t) == if i < |h| then RemoveAt(h, i) else h
  {
    if i == 0 {
      if h != [] {
        assert h[..0] + h[1..] == h[1..];
      }
    } else {
      RemoveFirstIdAt(h[1..], t, i - 1);
      if i < |h| {
        assert [h[0]] + (h[1..][..i - 1] + h[1..][i..]) == h[..i] + h[i + 1..];
      } else {
        assert [h[0]] + h[1..] == h;
      }
    }
  }

  /** Removing a tile of an id the hand holds takes away exactly one tile, of that id. */
  lemma {:induction false} RemoveFirstIdCount(h: seq<Tile>, t: Tile, x: int)
    requires CountId(h, t.id) > 0
    ensures |RemoveFirstId(h, t)| == |h| - 1
    ensures CountId(RemoveFirstId(h, t), x) == CountId(h, x) - if x == t.id then 1 else 0
  {
    assert h != [];
    if h[0].id == t.id {
      FilterIdAppend([h[0]], h[1..], x);
      assert h == [h[0]] + h[1..];
    } else {
      FilterIdAppend([h[0]], h[1..], t.id);
      assert h == [h[0]] + h[1..];
      RemoveFirstIdCount(h[1..], t, x);
      FilterIdAppend([h[0]], RemoveFirstId(h[1..], t), x);
      FilterIdAppend([h[0]], h[1..], x);
    }
  }

  /** Removing k tiles of id d from a hand holding at least k of them. */
  lemma {:induction false} RemoveEachIdCount(h: seq<Tile>, ts: seq<Tile>, d: int, x: int)
    requires forall k :: 0 <= k < |ts| ==> ts[k].id == d
    requires |ts| <= CountId(h, d)
    ensures |RemoveEachId(h, ts)| == |h| - |ts|
    ensures CountId(RemoveEachId(h, ts), x) == CountId(h, x) - if x == d then |ts| else 0
  {
    if ts != [] {
      var init := ts[..|ts| - 1];
      RemoveEachIdCount(h, init, d, x);
      RemoveEachIdCount(h, init, d, d);
      RemoveFirstIdCount(RemoveEachId(h, init), ts[|ts| - 1], x);
    }
  }

  /** All melds laid end to end. */
  function Flatten(melds: seq<seq<Tile>>): seq<Tile>
  {
    if melds == [] then [] else Flatten(melds[..|melds| - 1]) + melds[|melds| - 1]
  }

  function SumPoints(s: seq<Tile>): int
  {
    if s == [] then 0 else s[0].points + SumPoints(s[1..])
  }

  /** Points a claimed meld earns: its tiles' points, doubled for a KONG. */
  function MeldPoints(meld: seq<Tile>, kind: CallType): int
  {
    if kind == Kong then 2 * SumPoints(meld) else SumPoints(meld)
  }

  /** Every tile has the first tile's id. */
  predicate AllSameId(s: seq<Tile>)
  {
    forall k :: 0 <= k < |s| ==> s[k].id == s[0].id
  }

  /** A meld of three or more tiles of one id (`form_meld` makes three, a claim three or more). */
  predicate IsMeld(m: seq<Tile>)
  {
    |m| >= 3 && AllSameId(m)
  }

  // ---------------------------------------------------------------------
  // The player
  // ---------------------------------------------------------------------

  class Player {
    const name: string
    const seat: int
    var hand: seq<Tile>
    var discards: seq<Tile>
    var melds: seq<seq<Tile>>
    var score: int

    /** Every operation leaves the hand sorted by id. */
    ghost predicate Valid()
      reads this`hand
    {
      SortedById(hand)
    }

    constructor(name: string, seat: int)
      ensures Valid()
      ensures this.name == name && this.seat == seat
      ensures hand == [] && discards == [] && melds == [] && score == 0
    {
      this.name := name;
      this.seat := seat;
      hand, discards, melds, score := [], [], [], 0;
    }

    method SortHand()
      modifies this
      ensures Valid()
      ensures hand == SortById(old(hand))
      ensures unchanged(this`discards, this`melds, this`score)
    {
      SortByIdSorts(hand);
      hand := SortById(hand);
    }

    /** `draw_tile`: the hand gains exactly `t` and is re-sorted. */
    method DrawTile(t: Tile)
      modifies this
      ensures Valid()
      ensures hand == SortById(old(hand) + [t])
      ensures unchanged(this`discards, this`melds, this`score)
    {
      hand := hand + [t];
      SortHand();
    }

    /** `discard_tile`: pop position `index` into the discard history, or None when out of range. */
    method DiscardTile(index: int) returns (r: Option<Tile>)
      requires Valid()
      modifies this
      ensures Valid()
      ensures 0 <= index < |old(hand)| ==>
                && r == Some(old(hand)[index])
                && hand == old(hand)[..index] + old(hand)[index + 1..]
                && discards == old(discards) + [old(hand)[index]]
      ensures !(0 <= index < |old(hand)|) ==> r == None && unchanged(this)
      ensures unchanged(this`melds, this`score)
    {
      if 0 <= index < |hand| {
        var t := hand[index];
        hand := RemoveAt(hand, index);
        discards := discards + [t];
        r := Some(t);
      } else {
        r := None;
      }
    }

    /**
     * `form_meld`: when exactly three indices select tiles of one id, pop
     * them (largest index first) into a new meld, score their points and
     * re-sort; otherwise fail without change.
     */
    method FormMeld(indices: seq<int>) returns (ok: bool)
      requires Valid()
      requires |indices| == 3 ==> ValidSelection(indices, |hand|)
      modifies this
      ensures unchanged(this`discards)
      ensures Valid()
      ensures ok <==> |indices| == 3 && AllSameId(Pick(old(hand), indices))
      ensures !ok ==> unchanged(this)
      ensures ok ==>
                var meld := MeldOf(old(hand), indices);
                && melds == old(melds) + [meld]
                && hand == SortById(Without(old(hand), Elements(indices)))
                && score == old(score) + SumPoints(meld)
      ensures ok ==> IsMeld(melds[|melds| - 1]) && |melds[|melds| - 1]| == 3
      ensures ok ==> multiset(hand) + multiset(melds[|melds| - 1]) == multiset(old(hand))
    {
      if |indices| != 3 {
        return false;
      }
      var selected := Pick(hand, indices);
      if !AllSameId(selected) {
        return false;
      }
      var rest, meld := PopMeld(hand, indices);
      hand, melds, score, ok := rest, melds + [meld], score + SumPoints(meld), true;
    }

    /**
     * `claim_meld`: the meld is the claimed tile followed by the supporting
     * tiles; each supporting tile takes the first hand tile of its id away
     * (if any); the meld's points are scored, doubled for a KONG.
     */
    method ClaimMeld(claimed: Tile, supporting: seq<Tile>, kind: CallType)
      requires Valid()
      modifies this
      ensures Valid()
      ensures hand == SortById(RemoveEachId(old(hand), supporting))
      ensures melds == old(melds) + [[claimed] + supporting]
      ensures score == old(score) + MeldPoints([claimed] + supporting, kind)
      ensures unchanged(this`discards)
    {
      var newMeld := [claimed] + supporting;
      var h := RemoveSupporting(hand, supporting);
      var meldPoints := SumPoints(newMeld);
      if kind == Kong {
        meldPoints := meldPoints * 2;
      }
      SortByIdSorts(h);
      hand, melds, score := SortById(h), melds + [newMeld], score + meldPoints;
    }
  }
}
