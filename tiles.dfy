/**
 * Tiles: the identity/value model of a single tile and the construction of
 * the full play set (pokemon_tile.py).
 *
 * A tile is its identity (the Pokemon id) plus its point value. The display
 * name is left out: it never takes part in a rule.
 */
module Tiles {

  datatype Tile = Tile(id: int, points: int)

  /** The right-hand operand of a tile comparison: another tile, or any other value. */
  datatype Operand = TileOperand(tile: Tile) | NonTile

  /** PokemonTile.__eq__: equal exactly when the other operand is a tile with the same id. */
  function TileEquals(t: Tile, other: Operand): (r: bool)
    ensures r ==> other.TileOperand?
    ensures other.TileOperand? ==> (r <==> other.tile.id == t.id)
  {
    match other
    case NonTile => false
    case TileOperand(u) => t.id == u.id
  }

  /** Points of a freshly created tile: the id tier when the data fetch succeeded, 5 on the fallback path. */
  function CreateTile(id: int, fetched: bool): (t: Tile)
    ensures t.id == id
    ensures t.points == 5 || t.points == 10
    ensures t.points == 10 <==> fetched && id > 50
  {
    if fetched then Tile(id, if id <= 50 then 5 else 10)
    else Tile(id, 5)
  }

  /** The tiles of `s` whose id is `x`, in their original order. */
  function FilterId(s: seq<Tile>, x: int): (r: seq<Tile>)
    ensures |r| <= |s|
  {
    if s == [] then []
    else (if s[0].id == x then [s[0]] else []) + FilterId(s[1..], x)
  }

  /** Number of tiles of `s` with id `x`. */
  function CountId(s: seq<Tile>, x: int): nat
  {
    |FilterId(s, x)|
  }

  lemma AppendAssoc<T>(p: seq<T>, q: seq<T>, r: seq<T>)
    ensures p + (q + r) == (p + q) + r
  {
  }

  lemma {:induction false} FilterIdAppend(a: seq<Tile>, b: seq<Tile>, x: int)
    ensures FilterId(a + b, x) == FilterId(a, x) + FilterId(b, x)
  {
    if a == [] {
      assert a + b == b;
    } else {
      assert (a + b)[1..] == a[1..] + b;
      FilterIdAppend(a[1..], b, x);
      AppendAssoc(if a[0].id == x then [a[0]] else [], FilterId(a[1..], x), FilterId(b, x));
    }
  }

  lemma FilterIdCons(s: seq<Tile>, x: int)
    requires s != []
    ensures FilterId(s, x) == FilterId([s[0]], x) + FilterId(s[1..], x)
  {
    assert s == [s[0]] + s[1..];
    FilterIdAppend([s[0]], s[1..], x);
  }

  /** Filtering keeps every copy of a tile with id `x` and no other tile. */
  lemma {:induction false} FilterIdOccurrences(s: seq<Tile>, x: int)
    ensures forall t :: multiset(FilterId(s, x))[t] == if t.id == x then multiset(s)[t] else 0
  {
    if s != [] {
      FilterIdOccurrences(s[1..], x);
      assert s == [s[0]] + s[1..];
      assert multiset(s) == multiset{s[0]} + multiset(s[1..]);
    }
  }

  /** Filtering by id commutes with rearranging: equal multisets filter to equal multisets. */
  lemma FilterIdMultiset(a: seq<Tile>, b: seq<Tile>, x: int)
    requires multiset(a) == multiset(b)
    ensures multiset(FilterId(a, x)) == multiset(FilterId(b, x))
  {
    FilterIdOccurrences(a, x);
    FilterIdOccurrences(b, x);
    assert forall t :: multiset(FilterId(a, x))[t] == multiset(FilterId(b, x))[t];
  }

  /** Rearranging a sequence of tiles leaves every id's count unchanged. */
  lemma CountIdPermutation(a: seq<Tile>, b: seq<Tile>, x: int)
    requires multiset(a) == multiset(b)
    ensures CountId(a, x) == CountId(b, x)
  {
    FilterIdMultiset(a, b, x);
    assert |multiset(FilterId(a, x))| == |multiset(FilterId(b, x))|;
  }

  /** `n` when positive, else 0: the length of Python's range(n). */
  function Span(n: int): nat
  {
    if n > 0 then n else 0
  }

  /**
   * random.shuffle: the standard library's Fisher-Yates loop. The random
   * numbers are an input: `draw(i)` stands for the draw made when position
   * `i` is filled, reduced into the range [0, i].
   */
  method Shuffle(s: seq<Tile>, draw: nat -> nat) returns (r: seq<Tile>)
    ensures |r| == |s|
    ensures multiset(r) == multiset(s)
  {
    r := s;
    var i := |r| - 1;
    while i > 0
      invariant i < |r| == |s|
      invariant multiset(r) == multiset(s)
    {
      var j := draw(i) % (i + 1);
      r := r[i := r[j]][j := r[i]];
      i := i - 1;
    }
  }

  /** `n` copies of one tile. */
  function Copies(tile: Tile, n: nat): (r: seq<Tile>)
    ensures |r| == n
  {
    if n == 0 then [] else Copies(tile, n - 1) + [tile]
  }

  /** The inner loop of create_tile_set: append `n` copies of `tile`. */
  method AppendCopies(tiles: seq<Tile>, tile: Tile, n: int) returns (r: seq<Tile>)
    ensures |r| == |tiles| + Span(n)
    ensures forall x :: CountId(r, x) == CountId(tiles, x) + if x == tile.id then Span(n) else 0
    ensures r == tiles + Copies(tile, Span(n))
    ensures forall t :: t in r ==> t in tiles || t == tile
  {
    r := tiles;
    var copy := 0;
    while copy < n
      invariant 0 <= copy <= Span(n)
      invariant |r| == |tiles| + copy
      invariant r == tiles + Copies(tile, copy)
      invariant forall x :: CountId(r, x) == CountId(tiles, x) + if x == tile.id then copy else 0
      invariant forall t :: t in r ==> t in tiles || t == tile
    {
      forall x ensures CountId(r + [Tile(tile.id, tile.points)], x) == CountId(r, x) + if x == tile.id then 1 else 0 {
        FilterIdAppend(r, [Tile(tile.id, tile.points)], x);
      }
      r := r + [Tile(tile.id, tile.points)];
      copy := copy + 1;
    }
  }

  /** The tiles of create_tile_set before the shuffle: ids 1..numPokemon in order, each copied numCopies times. */
  method OrderedTileSet(numPokemon: int, numCopies: int, fetched: int -> bool) returns (tiles: seq<Tile>)
    ensures |tiles| == Span(numPokemon) * Span(numCopies)
    ensures forall x :: CountId(tiles, x) == if 1 <= x <= numPokemon then Span(numCopies) else 0
    ensures forall t :: t in tiles ==> 1 <= t.id <= numPokemon && t == CreateTile(t.id, fetched(t.id))
  {
    tiles := [];
    var id := 1;
    while id <= numPokemon
      invariant 1 <= id && (id <= numPokemon + 1 || id == 1)
      invariant |tiles| == (id - 1) * Span(numCopies)
      invariant forall x :: CountId(tiles, x) == if 1 <= x < id then Span(numCopies) else 0
      invariant forall t :: t in tiles ==> 1 <= t.id < id && t == CreateTile(t.id, fetched(t.id))
    {
      var tile := CreateTile(id, fetched(id));
      tiles := AppendCopies(tiles, tile, numCopies);
      id := id + 1;
    }
  }

  /**
   * create_tile_set: one tile per id in 1..numPokemon, copied numCopies
   * times, then shuffled. `fetched(id)` is whether the data fetch for `id`
   * succeeded.
   */
  method CreateTileSet(numPokemon: int, numCopies: int, fetched: int -> bool, draw: nat -> nat)
    returns (tiles: seq<Tile>)
    ensures |tiles| == Span(numPokemon) * Span(numCopies)
    ensures forall x :: CountId(tiles, x) == if 1 <= x <= numPokemon then Span(numCopies) else 0
    ensures forall t :: t in tiles ==> 1 <= t.id <= numPokemon && t == CreateTile(t.id, fetched(t.id))
  {
    var ordered := OrderedTileSet(numPokemon, numCopies, fetched);
    tiles := Shuffle(ordered, draw);
    forall x ensures CountId(tiles, x) == CountId(ordered, x) {
      CountIdPermutation(tiles, ordered, x);
    }
    assert forall t :: t in tiles ==> t in multiset(ordered);
  }
}
