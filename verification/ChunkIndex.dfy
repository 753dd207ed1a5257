/**
 * The updates of the chunk index (`World.Chunks`) as functions on maps, and
 * the invariant that ties the scene tree's lookup of structures and dropped
 * items by name to the index, with the lemmas that each update keeps it.
 */
module ChunkIndex {
  import opened Geometry
  import opened Chunks

  type ChunkMap = map<ChunkKey, Chunk>

  /** The chunk at k, or a new empty one when the index has none there. */
  function ChunkAt(chunks: ChunkMap, k: ChunkKey): Chunk
  {
    if k in chunks then chunks[k] else EmptyChunk
  }

  function TileKey(t: Tile): ChunkKey { ChunkTuple(t.pos) }
  function ItemKey(i: DroppedItem): ChunkKey { ChunkTuple(i.pos) }
  function MobKey(m: Mob): ChunkKey { ChunkTuple(m.pos) }

  /** Every chunk key is the snap of some position. */
  predicate KeysAligned(chunks: ChunkMap)
  {
    forall k :: k in chunks ==> Aligned(k)
  }

  /** A map whose keys are among those of a snapped map is snapped. */
  lemma KeysAlignedSub(c0: ChunkMap, c1: ChunkMap)
    requires KeysAligned(c0) && c1.Keys <= c0.Keys
    ensures KeysAligned(c1)
  {
  }

  /** `c1` is `c0` except at key k, which `c1` holds. */
  predicate ChangedOnlyAt(c0: ChunkMap, c1: ChunkMap, k: ChunkKey)
  {
    && k in c1
    && (forall j :: j in c0 ==> j in c1)
    && (forall j :: j in c1 && j != k ==> j in c0 && c1[j] == c0[j])
  }

  /**
   * Every chunk that holds a structure or an item is still there in `c1` with
   * the same structures and items (mobs and entities may differ).
   */
  predicate SameStructures(c0: ChunkMap, c1: ChunkMap)
  {
    forall k :: k in c0 && c0[k].KeptAlive() ==>
      k in c1 && c1[k].tiles == c0[k].tiles && c1[k].items == c0[k].items
  }

  /** Every structure and item filed under a key in `c0` is still filed there in `c1`. */
  predicate Keeps(c0: ChunkMap, c1: ChunkMap)
  {
    && (forall k, t :: k in c0 && t in c0[k].tiles ==> k in c1 && t in c1[k].tiles)
    && (forall k, i :: k in c0 && i in c0[k].items ==> k in c1 && i in c1[k].items)
  }

  /**
   * The scene-tree lookup of structures agrees with the index: a structure
   * found by name carries that name and sits in the chunk its position snaps to.
   */
  predicate TilesIndexed(chunks: ChunkMap, tiles: map<string, Tile>)
  {
    forall n :: n in tiles ==>
      tiles[n].name == n && TileKey(tiles[n]) in chunks && tiles[n] in chunks[TileKey(tiles[n])].tiles
  }

  /** The same agreement for dropped items. */
  predicate ItemsIndexed(chunks: ChunkMap, items: map<string, DroppedItem>)
  {
    forall n :: n in items ==>
      items[n].name == n && ItemKey(items[n]) in chunks && items[n] in chunks[ItemKey(items[n])].items
  }

  predicate Indexed(chunks: ChunkMap, tiles: map<string, Tile>, items: map<string, DroppedItem>)
  {
    TilesIndexed(chunks, tiles) && ItemsIndexed(chunks, items)
  }

  /** An empty index files nothing: it agrees with the lookups exactly when both are empty. */
  lemma IndexedEmpty(tiles: map<string, Tile>, items: map<string, DroppedItem>)
    ensures Indexed(map[], tiles, items) <==> tiles == map[] && items == map[]
  {
    if tiles != map[] {
      var n :| n in tiles;
    }
    if items != map[] {
      var n :| n in items;
    }
  }

  /** `AddTileToChunk`: the structure is appended to chunk k, which is created if absent. */
  function WithTile(chunks: ChunkMap, k: ChunkKey, t: Tile): (r: ChunkMap)
    ensures ChangedOnlyAt(chunks, r, k)
    ensures r[k].tiles == ChunkAt(chunks, k).tiles + [t]
    ensures var c := ChunkAt(chunks, k);
      r[k].items == c.items && r[k].mobs == c.mobs && r[k].entities == c.entities
    ensures Keeps(chunks, r)
  {
    var c := ChunkAt(chunks, k);
    chunks[k := c.(tiles := c.tiles + [t])]
  }

  /** `AddItemToChunk`: the item is appended to chunk k, which is created if absent. */
  function WithItem(chunks: ChunkMap, k: ChunkKey, i: DroppedItem): (r: ChunkMap)
    ensures ChangedOnlyAt(chunks, r, k)
    ensures r[k].items == ChunkAt(chunks, k).items + [i]
    ensures var c := ChunkAt(chunks, k);
      r[k].tiles == c.tiles && r[k].mobs == c.mobs && r[k].entities == c.entities
    ensures Keeps(chunks, r)
  {
    var c := ChunkAt(chunks, k);
    chunks[k := c.(items := c.items + [i])]
  }

  /** `AddMobToChunk`: the mob is appended to chunk k, which is created if absent. */
  function WithMob(chunks: ChunkMap, k: ChunkKey, m: Mob): (r: ChunkMap)
    ensures ChangedOnlyAt(chunks, r, k)
    ensures r[k].mobs == ChunkAt(chunks, k).mobs + [m]
    ensures var c := ChunkAt(chunks, k);
      r[k].tiles == c.tiles && r[k].items == c.items && r[k].entities == c.entities
    ensures SameStructures(chunks, r)
  {
    var c := ChunkAt(chunks, k);
    chunks[k := c.(mobs := c.mobs + [m])]
  }

  /** `AddEntityToChunk`: the entity is appended to chunk k, which is created if absent. */
  function WithEntity(chunks: ChunkMap, k: ChunkKey, e: Entity): (r: ChunkMap)
    ensures ChangedOnlyAt(chunks, r, k)
    ensures r[k].entities == ChunkAt(chunks, k).entities + [e]
    ensures var c := ChunkAt(chunks, k);
      r[k].tiles == c.tiles && r[k].items == c.items && r[k].mobs == c.mobs
    ensures SameStructures(chunks, r)
  {
    var c := ChunkAt(chunks, k);
    chunks[k := c.(entities := c.entities + [e])]
  }

  /**
   * `RemoveEntityFromChunk`: the entity leaves the chunk recorded for it, and
   * that chunk is dropped exactly when nothing at all is left in it; a
   * missing chunk changes nothing.
   */
  function WithoutEntity(chunks: ChunkMap, k: ChunkKey, e: Entity): (r: ChunkMap)
    ensures SameStructures(chunks, r)
    ensures forall j :: j != k ==> (j in r <==> j in chunks) && (j in r ==> r[j] == chunks[j])
    ensures k !in chunks ==> r == chunks
    ensures k in chunks ==> (k !in r <==>
      chunks[k].tiles == [] && chunks[k].items == [] && chunks[k].mobs == [] && RemoveFirst(chunks[k].entities, e) == [])
    ensures k in r ==> k in chunks && r[k] == chunks[k].(entities := RemoveFirst(chunks[k].entities, e))
  {
    if k in chunks then
      var c := chunks[k].(entities := RemoveFirst(chunks[k].entities, e));
      var r := if c.IsEmpty() then chunks - {k} else chunks[k := c];
      EntityUpdateKeepsStructures(chunks, k, c, r);
      r
    else chunks
  }

  /** Replacing or dropping one chunk whose structures and items stay as they were keeps them all. */
  lemma EntityUpdateKeepsStructures(chunks: ChunkMap, k: ChunkKey, c: Chunk, r: ChunkMap)
    requires k in chunks && c.tiles == chunks[k].tiles && c.items == chunks[k].items
    requires r == if c.IsEmpty() then chunks - {k} else chunks[k := c]
    ensures SameStructures(chunks, r)
  {
  }

  /**
   * Filing an entity and unfiling it again restores the index, except that an
   * empty chunk left in the index goes with it.
   */
  lemma EntityRoundTrip(chunks: ChunkMap, k: ChunkKey, e: Entity)
    requires e !in ChunkAt(chunks, k).entities
    ensures WithoutEntity(WithEntity(chunks, k, e), k, e) ==
      if k in chunks && !chunks[k].IsEmpty() then chunks else chunks - {k}
  {
    var c := ChunkAt(chunks, k);
    RemoveFirstAppended(c.entities, e);
    var r := WithoutEntity(WithEntity(chunks, k, e), k, e);
    if k in chunks && !c.IsEmpty() {
      assert r[k] == c;
    }
  }

  /**
   * `RemoveTile` on the index: the structure leaves chunk k, and the chunk is
   * dropped when it has neither structures nor items left, whatever mobs or
   * entities it still holds.
   */
  function WithoutTile(chunks: ChunkMap, k: ChunkKey, t: Tile): (r: ChunkMap)
    requires k in chunks
    ensures forall j :: j != k ==> (j in r <==> j in chunks) && (j in r ==> r[j] == chunks[j])
    ensures k in r <==> |RemoveFirst(chunks[k].tiles, t)| > 0 || |chunks[k].items| > 0
    ensures k in r ==> r[k] == chunks[k].(tiles := RemoveFirst(chunks[k].tiles, t))
  {
    var c := chunks[k].(tiles := RemoveFirst(chunks[k].tiles, t));
    if c.KeptAlive() then chunks[k := c] else chunks - {k}
  }

  /** `RemoveDroppedItem` on the index, by the same rule as `WithoutTile`. */
  function WithoutItem(chunks: ChunkMap, k: ChunkKey, i: DroppedItem): (r: ChunkMap)
    requires k in chunks
    ensures forall j :: j != k ==> (j in r <==> j in chunks) && (j in r ==> r[j] == chunks[j])
    ensures k in r <==> |chunks[k].tiles| > 0 || |RemoveFirst(chunks[k].items, i)| > 0
    ensures k in r ==> r[k] == chunks[k].(items := RemoveFirst(chunks[k].items, i))
  {
    var c := chunks[k].(items := RemoveFirst(chunks[k].items, i));
    if c.KeptAlive() then chunks[k := c] else chunks - {k}
  }

  /** Removing what was just appended gives the list back. */
  lemma {:induction false} RemoveFirstAppended<T>(s: seq<T>, x: T)
    requires x !in s
    ensures RemoveFirst(s + [x], x) == s
  {
    if s != [] {
      assert (s + [x])[1..] == s[1..] + [x];
      RemoveFirstAppended(s[1..], x);
    }
  }

  /**
   * Placing a structure and removing it again restores the index, except that
   * a chunk that held only mobs or entities is dropped with them.
   */
  lemma PlaceThenRemoveTile(chunks: ChunkMap, k: ChunkKey, t: Tile)
    requires t !in ChunkAt(chunks, k).tiles
    ensures WithoutTile(WithTile(chunks, k, t), k, t) ==
      if k in chunks && !chunks[k].KeptAlive() then chunks - {k} else chunks
  {
    var c := ChunkAt(chunks, k);
    RemoveFirstAppended(c.tiles, t);
    var r := WithoutTile(WithTile(chunks, k, t), k, t);
    if k in chunks && c.KeptAlive() {
      assert r[k] == c;
    }
  }

  /** A chunk that still holds an entity is dropped with its last structure. */
  lemma TileRemovalDropsEntities(k: ChunkKey, t: Tile, e: Entity)
    ensures k !in WithoutTile(map[k := Chunk([t], [], [], [e])], k, t)
  {
    assert RemoveFirst([t], t) == [];
  }

  /** An index whose structures and items all stay filed stays consistent with an unchanged lookup. */
  lemma IndexKept(c0: ChunkMap, c1: ChunkMap, tiles: map<string, Tile>, items: map<string, DroppedItem>)
    requires Indexed(c0, tiles, items)
    requires Keeps(c0, c1)
    ensures Indexed(c1, tiles, items)
  {
  }

  /** Keeping the structures and items of every chunk that has any keeps them all filed. */
  lemma StructuresKept(c0: ChunkMap, c1: ChunkMap)
    requires SameStructures(c0, c1)
    ensures Keeps(c0, c1)
  {
    forall k, t | k in c0 && t in c0[k].tiles ensures k in c1 && t in c1[k].tiles {
      assert c0[k].KeptAlive();
    }
    forall k, i | k in c0 && i in c0[k].items ensures k in c1 && i in c1[k].items {
      assert c0[k].KeptAlive();
    }
  }

  /** Placing a structure under a fresh name keeps the lookup consistent with the index. */
  lemma IndexAfterPlace(chunks: ChunkMap, tiles: map<string, Tile>, items: map<string, DroppedItem>, t: Tile)
    requires Indexed(chunks, tiles, items)
    requires t.name !in tiles
    ensures Indexed(WithTile(chunks, TileKey(t), t), tiles[t.name := t], items)
  {
    var r := WithTile(chunks, TileKey(t), t);
    forall n | n in tiles
      ensures TileKey(tiles[n]) in r && tiles[n] in r[TileKey(tiles[n])].tiles
    {
      if TileKey(tiles[n]) == TileKey(t) {
        assert tiles[n] in ChunkAt(chunks, TileKey(t)).tiles;
      }
    }
  }

  /** Removing a structure by name keeps the lookup, with that name gone, consistent with the index. */
  lemma IndexAfterRemoveTile(chunks: ChunkMap, tiles: map<string, Tile>, items: map<string, DroppedItem>, n: string)
    requires n in tiles
    ensures Indexed(chunks, tiles, items) ==> Indexed(WithoutTile(chunks, TileKey(tiles[n]), tiles[n]), tiles - {n}, items)
  {
    if Indexed(chunks, tiles, items) {
      var t := tiles[n];
      var k := TileKey(t);
      var r := WithoutTile(chunks, k, t);
      var rest := RemoveFirst(chunks[k].tiles, t);
      forall m | m in tiles && m != n
        ensures TileKey(tiles[m]) in r && tiles[m] in r[TileKey(tiles[m])].tiles
      {
        if TileKey(tiles[m]) == k {
          assert multiset(rest)[tiles[m]] == multiset(chunks[k].tiles)[tiles[m]];
          assert tiles[m] in rest;
        }
      }
      forall m | m in items
        ensures ItemKey(items[m]) in r && items[m] in r[ItemKey(items[m])].items
      {
        if ItemKey(items[m]) == k {
          assert items[m] in chunks[k].items;
        }
      }
    }
  }

  /** Removing a dropped item by name keeps the lookup, with that name gone, consistent with the index. */
  lemma IndexAfterRemoveItem(chunks: ChunkMap, tiles: map<string, Tile>, items: map<string, DroppedItem>, n: string)
    requires n in items
    ensures Indexed(chunks, tiles, items) ==> Indexed(WithoutItem(chunks, ItemKey(items[n]), items[n]), tiles, items - {n})
  {
    if Indexed(chunks, tiles, items) {
      var i := items[n];
      var k := ItemKey(i);
      var r := WithoutItem(chunks, k, i);
      var rest := RemoveFirst(chunks[k].items, i);
      forall m | m in items && m != n
        ensures ItemKey(items[m]) in r && items[m] in r[ItemKey(items[m])].items
      {
        if ItemKey(items[m]) == k {
          assert multiset(rest)[items[m]] == multiset(chunks[k].items)[items[m]];
          assert items[m] in rest;
        }
      }
      forall m | m in tiles
        ensures TileKey(tiles[m]) in r && tiles[m] in r[TileKey(tiles[m])].tiles
      {
        if TileKey(tiles[m]) == k {
          assert tiles[m] in chunks[k].tiles;
        }
      }
    }
  }

  /** The names of a run of structures. */
  function TileNames(ts: seq<Tile>): set<string>
  {
    set t | t in ts :: t.name
  }

  /** The names of a run of items. */
  function ItemNames(ds: seq<DroppedItem>): set<string>
  {
    set i | i in ds :: i.name
  }

  /** The lookup with the given names taken out. */
  function Without<V>(m: map<string, V>, names: set<string>): map<string, V>
  {
    map n | n in m && n !in names :: m[n]
  }

  /**
   * Freeing a chunk's structures and items and then dropping the chunk keeps
   * the lookup consistent with the index.
   */
  lemma IndexAfterPrepare(chunks: ChunkMap, tiles: map<string, Tile>, items: map<string, DroppedItem>, k: ChunkKey)
    requires k in chunks
    ensures Indexed(chunks, tiles, items) ==> Indexed(chunks - {k}, Without(tiles, TileNames(chunks[k].tiles)), Without(items, ItemNames(chunks[k].items)))
  {
    if Indexed(chunks, tiles, items) {
      var t1 := Without(tiles, TileNames(chunks[k].tiles));
      var i1 := Without(items, ItemNames(chunks[k].items));
      forall n | n in t1 ensures TileKey(t1[n]) != k {
        assert tiles[n] in chunks[TileKey(tiles[n])].tiles;
      }
      forall n | n in i1 ensures ItemKey(i1[n]) != k {
        assert items[n] in chunks[ItemKey(items[n])].items;
      }
    }
  }

  /** The names of every structure filed in the index. */
  function StoredNames(chunks: ChunkMap): (ns: set<string>)
    ensures forall k, t :: k in chunks && t in chunks[k].tiles ==> t.name in ns
  {
    set k, t | k in chunks && t in chunks[k].tiles :: t.name
  }

  /** Each element of `xs` removed once from `s`, in order (`List.Remove` applied repeatedly). */
  function RemoveEach<T(==)>(s: seq<T>, xs: seq<T>): (r: seq<T>)
    ensures multiset(r) == multiset(s) - multiset(xs)
  {
    if xs == [] then s
    else
      var front, last := xs[..|xs| - 1], xs[|xs| - 1];
      assert xs == front + [last];
      RemoveFirst(RemoveEach(s, front), last)
  }

  /** Removing every element of a list from itself leaves nothing. */
  lemma RemoveEachSelf<T>(s: seq<T>)
    ensures RemoveEach(s, s) == []
  {
    assert |multiset(RemoveEach(s, s))| == 0;
  }

  /** Removing the first i + 1 items is removing the first i, then item i. */
  lemma RemoveItemsStep(m: map<string, DroppedItem>, s: seq<DroppedItem>, ds: seq<DroppedItem>, i: nat)
    requires i < |ds|
    ensures Without(m, ItemNames(ds[..i + 1])) == Without(m, ItemNames(ds[..i])) - {ds[i].name}
    ensures RemoveEach(s, ds[..i + 1]) == RemoveFirst(RemoveEach(s, ds[..i]), ds[i])
  {
    assert ds[..i + 1] == ds[..i] + [ds[i]];
    assert ds[..i + 1][..i] == ds[..i];
    assert ItemNames(ds[..i + 1]) == ItemNames(ds[..i]) + {ds[i].name};
  }
}
