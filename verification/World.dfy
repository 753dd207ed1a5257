/**
 * The world's bookkeeping as one object: the chunk index, the scene tree's
 * lookup of structures and dropped items by name, the navigation graph, and the
 * server's per-observer streaming lists, updated in place by the operations of
 * `World`. Remote calls the world makes are appended to `trace`.
 */
module WorldStore {
  import opened Geometry
  import opened Chunks
  import opened ChunkIndex
  import opened NavRules
  import opened Pathfinding
  import opened Streaming

  class World {
    /** `Chunks`: the spatial index. */
    var chunks: ChunkMap
    /** The structures under the scene's entity root, by node name. */
    var tiles: map<string, Tile>
    /** The dropped items under the scene's entity root, by node name. */
    var items: map<string, DroppedItem>
    /** `ItemList`. */
    var itemList: seq<DroppedItem>
    /** `IEntity.CurrentChunk`, for each entity filed so far. */
    var entityChunk: map<Entity, ChunkKey>
    /** The chunk a mob was last filed under, by mob id. */
    var mobChunk: map<nat, ChunkKey>
    /** `Pathfinder`. */
    const nav: NavGraph
    /** `Net.Players`: each connected peer, with the position of its player once spawned. */
    var players: map<int, Option<Vec3>>
    /** `RemoteLoadedChunks`, `RemoteLoadingChunks` and `ChunkRenderDistances`, by peer id. */
    var loaded: map<int, seq<ChunkKey>>
    var loading: map<int, seq<ChunkKey>>
    var renderDistances: map<int, int>
    /** The remote calls made so far, in order. */
    var trace: seq<Msg>
    /** `IsOpen`: a world is loaded. */
    var isOpen: bool
    /** This process has a network peer, is the server, and has this peer id. */
    const networked: bool
    const isServer: bool
    const selfId: int

    /**
     * The navigation graph is well formed, every chunk key is a snapped
     * position, and every connected peer has streaming lists and a render
     * distance.
     */
    ghost predicate Consistent()
      reads this`chunks, this`players, this`loaded, this`loading, this`renderDistances, nav
    {
      && nav.Valid()
      && KeysAligned(chunks)
      && PeersReady()
    }

    /** Every connected peer has streaming lists and a render distance. */
    ghost predicate PeersReady()
      reads this`players, this`loaded, this`loading, this`renderDistances
    {
      forall id :: id in players ==> id in loaded && id in loading && id in renderDistances
    }

    /** In addition, every structure and item found by name is filed in its chunk. */
    ghost predicate Valid()
      reads this`chunks, this`tiles, this`items, this`players, this`loaded, this`loading, this`renderDistances, nav
    {
      Consistent() && Indexed(chunks, tiles, items)
    }

    /** Peer `id` is a remote player, spawned, with chunk k within its render distance. */
    predicate Sees(id: int, k: ChunkKey)
      reads this`players, this`renderDistances
    {
      && id in players && id != ServerId && players[id].Some? && id in renderDistances
      && WithinDistance(k, renderDistances[id], players[id].value)
    }

    /** An empty world for the given peers, each with empty streaming lists. */
    constructor (networked: bool, isServer: bool, selfId: int, open: bool,
                 players: map<int, Option<Vec3>>, distances: map<int, int>)
      requires isServer ==> networked
      requires players.Keys <= distances.Keys
      ensures Valid() && fresh(nav)
      ensures chunks == map[] && tiles == map[] && items == map[] && itemList == []
      ensures nav.points == map[] && nav.edges == {} && trace == []
      ensures this.players == players && renderDistances == distances && isOpen == open
      ensures loaded == (map id | id in players :: []) && loading == loaded
      ensures this.networked == networked && this.isServer == isServer && this.selfId == selfId
    {
      this.networked := networked;
      this.isServer := isServer;
      this.selfId := selfId;
      nav := new NavGraph();
      chunks := map[];
      tiles := map[];
      items := map[];
      itemList := [];
      entityChunk := map[];
      mobChunk := map[];
      this.players := players;
      loaded := map id | id in players :: [];
      loading := map id | id in players :: [];
      renderDistances := distances;
      trace := [];
      isOpen := open;
    }

    /** `ChunkExists`. */
    predicate ChunkExists(p: Vec3)
      reads this
    {
      ChunkTuple(p) in chunks
    }

    /**
     * `AddEntityToChunk`: files the entity in the chunk of its present
     * position `pos` and records that chunk as its current one.
     */
    method AddEntityToChunk(e: Entity, pos: Vec3)
      requires Valid()
      modifies this`chunks, this`entityChunk
      ensures Valid()
      ensures chunks == WithEntity(old(chunks), ChunkTuple(pos), e)
      ensures entityChunk == old(entityChunk)[e := ChunkTuple(pos)]
    {
      var k := ChunkTuple(pos);
      chunks := WithEntity(chunks, k, e);
      entityChunk := entityChunk[e := k];
      StructuresKept(old(chunks), chunks);
      IndexKept(old(chunks), chunks, tiles, items);
    }

    /** `RemoveEntityFromChunk`: unfiles the entity from its current chunk. */
    method RemoveEntityFromChunk(e: Entity)
      requires Valid()
      requires e in entityChunk
      modifies this`chunks
      ensures Valid()
      ensures chunks == WithoutEntity(old(chunks), entityChunk[e], e)
    {
      chunks := WithoutEntity(chunks, entityChunk[e], e);
      StructuresKept(old(chunks), chunks);
      IndexKept(old(chunks), chunks, tiles, items);
    }

    /** `AddMobToChunk`: records the mob's chunk and files it there. */
    method AddMobToChunk(m: Mob)
      requires Valid()
      modifies this`chunks, this`mobChunk
      ensures Valid()
      ensures chunks == WithMob(old(chunks), ChunkTuple(m.pos), m)
      ensures mobChunk == old(mobChunk)[m.id := ChunkTuple(m.pos)]
    {
      var k := ChunkTuple(m.pos);
      mobChunk := mobChunk[m.id := k];
      chunks := WithMob(chunks, k, m);
      StructuresKept(old(chunks), chunks);
      IndexKept(old(chunks), chunks, tiles, items);
    }

    /** `AddItemToChunk`: files the item in its chunk. */
    method AddItemToChunk(i: DroppedItem)
      requires Valid()
      modifies this`chunks
      ensures Valid()
      ensures chunks == WithItem(old(chunks), ChunkTuple(i.pos), i)
    {
      chunks := WithItem(chunks, ChunkTuple(i.pos), i);
      IndexKept(old(chunks), chunks, tiles, items);
    }

    /** `AddTileToChunk`: files the structure in its chunk. */
    method AddTileToChunk(b: Tile)
      requires Consistent()
      modifies this`chunks
      ensures Consistent()
      ensures chunks == WithTile(old(chunks), ChunkTuple(b.pos), b)
    {
      chunks := WithTile(chunks, ChunkTuple(b.pos), b);
    }

    /**
     * `TryAddTileToPathfinder`: a platform or slope gets a navigation point
     * two units above it, linked both ways to every structure its probes find;
     * any other structure leaves the graph alone.
     */
    method TryAddTileToPathfinder(b: Tile, lookup: Lookup, clear: LineClear)
      requires nav.Valid()
      modifies nav
      ensures nav.Valid()
      ensures Pathable(b.kind) ==>
        && nav.points == old(nav.points)[b.name := PointOf(b)]
        && nav.edges == old(nav.edges) + LinkEdges(b.name, NavLinks(b, lookup, clear))
      ensures !Pathable(b.kind) ==> nav.points == old(nav.points) && nav.edges == old(nav.edges)
    {
      if !Pathable(b.kind) {
        return;
      }
      nav.AddPoint(b.name, PointOf(b));
      var links := NavLinks(b, lookup, clear);
      var i := 0;
      while i < |links|
        invariant 0 <= i <= |links|
        invariant nav.Valid()
        invariant nav.points == old(nav.points)[b.name := PointOf(b)]
        invariant nav.edges == old(nav.edges) + LinkEdges(b.name, links[..i])
      {
        LinkEdgesStep(b.name, links, i);
        if links[i].Some? {
          nav.ConnectPoints(b.name, links[i].value.name);
        }
        i := i + 1;
      }
      assert links[..i] == links;
    }

    /**
     * `PlaceWithName`: a client that has a player in the world refuses a
     * structure outside its render distance; otherwise the structure joins the
     * scene and its chunk, and on the server it also joins the navigation
     * graph and its chunk is counted as loaded for every remote player in
     * whose render distance it falls. The position and render distance of
     * the local player are parameters.
     */
    method PlaceWithName(kind: TileKind, pos: Vec3, rotY: int, owner: int, name: string,
                         possessed: Option<Vec3>, localDistance: int, lookup: Lookup, clear: LineClear)
      returns (placed: bool)
      requires Valid()
      requires name !in tiles
      modifies this`chunks, this`tiles, this`loaded, nav
      ensures Valid()
      ensures placed <==>
        !(networked && !isServer && possessed.Some? && !WithinDistance(ChunkTuple(pos), localDistance, possessed.value))
      ensures !placed ==> chunks == old(chunks) && tiles == old(tiles)
      ensures placed ==>
        var b := Tile(name, kind, owner, pos, rotY);
        tiles == old(tiles)[name := b] && chunks == WithTile(old(chunks), ChunkTuple(pos), b)
      ensures placed && networked && isServer && Pathable(kind) ==>
        var b := Tile(name, kind, owner, pos, rotY);
        nav.points == old(nav.points)[name := PointOf(b)]
        && nav.edges == old(nav.edges) + LinkEdges(name, NavLinks(b, lookup, clear))
      ensures !(placed && networked && isServer && Pathable(kind)) ==>
        nav.points == old(nav.points) && nav.edges == old(nav.edges)
      ensures loaded.Keys == old(loaded).Keys
      ensures forall id :: id in loaded ==>
        loaded[id] == if placed && networked && isServer && Sees(id, ChunkTuple(pos))
                      then AddIfAbsent(old(loaded)[id], ChunkTuple(pos)) else old(loaded)[id]
    {
      if networked && !isServer && possessed.Some? {
        if !WithinDistance(ChunkTuple(pos), localDistance, possessed.value) {
          return false;
        }
      }
      placed := true;
      var b := Tile(name, kind, owner, pos, rotY);
      FileTile(b);
      if networked && isServer {
        TryAddTileToPathfinder(b, lookup, clear);
        MarkPlacedChunk(ChunkTuple(pos));
      }
    }

    /** The new structure joins the scene and its chunk. */
    method FileTile(b: Tile)
      requires Valid()
      requires b.name !in tiles
      modifies this`chunks, this`tiles
      ensures Valid()
      ensures tiles == old(tiles)[b.name := b] && chunks == WithTile(old(chunks), TileKey(b), b)
    {
      IndexAfterPlace(chunks, tiles, items, b);
      tiles := tiles[b.name := b];
      AddTileToChunk(b);
    }

    /**
     * Chunk k, which just received a structure, is counted as loaded by every
     * remote player that sees it (once: a key already listed is not repeated).
     */
    method MarkPlacedChunk(k: ChunkKey)
      requires PeersReady()
      modifies this`loaded
      ensures PeersReady()
      ensures loaded.Keys == old(loaded).Keys
      ensures forall id :: id in loaded ==>
        loaded[id] == if Sees(id, k) then AddIfAbsent(old(loaded)[id], k) else old(loaded)[id]
    {
      var ids := players.Keys;
      while ids != {}
        invariant ids <= players.Keys
        invariant loaded.Keys == old(loaded).Keys && PeersReady()
        invariant forall id :: id in loaded ==>
          loaded[id] == if id !in ids && Sees(id, k) then AddIfAbsent(old(loaded)[id], k) else old(loaded)[id]
        decreases ids
      {
        if forall y :: y !in ids {
          assert false;  // the loop guard says ids has a member
        }
        var id :| id in ids;
        var sees := id != ServerId && players[id].Some? && WithinDistance(k, renderDistances[id], players[id].value);
        assert sees == Sees(id, k);
        if sees && k !in loaded[id] {
          loaded := loaded[id := loaded[id] + [k]];
        }
        ids := ids - {id};
      }
    }

    /**
     * `RemoveTile`: a name that is not a structure in the scene changes
     * nothing. Otherwise the structure leaves its chunk (the chunk is dropped
     * when no structure or item is left in it), its navigation point goes, and
     * it leaves the scene. `ok` is false where the source throws: the
     * structure's chunk is no longer in the index.
     */
    method RemoveTile(name: string) returns (ok: bool)
      requires Consistent()
      modifies this`chunks, this`tiles, nav
      ensures Consistent()
      ensures old(Valid()) ==> ok && Valid()
      ensures ok <==> name !in old(tiles) || TileKey(old(tiles)[name]) in old(chunks)
      ensures !ok || name !in old(tiles) ==>
        chunks == old(chunks) && tiles == old(tiles) && nav.points == old(nav.points) && nav.edges == old(nav.edges)
      ensures ok && name in old(tiles) ==>
        && chunks == WithoutTile(old(chunks), TileKey(old(tiles)[name]), old(tiles)[name])
        && tiles == old(tiles) - {name}
        && nav.points == old(nav.points) - {name}
        && nav.edges == if name in old(nav.points) then set e | e in old(nav.edges) && e.0 != name && e.1 != name
                        else old(nav.edges)
    {
      if name !in tiles {
        return true;
      }
      var b := tiles[name];
      var k := ChunkTuple(b.pos);
      if k !in chunks {
        return false;
      }
      IndexAfterRemoveTile(chunks, tiles, items, name);
      KeysAlignedSub(chunks, WithoutTile(chunks, k, b));
      UnfileTile(name, k);
      nav.RemovePointIfAny(name);
      ok := true;
    }

    /** The index and lookup part of `RemoveTile` once the structure and its chunk are known to exist. */
    method UnfileTile(name: string, k: ChunkKey)
      requires name in tiles && k in chunks
      modifies this`chunks, this`tiles
      ensures chunks == WithoutTile(old(chunks), k, old(tiles)[name])
      ensures tiles == old(tiles) - {name}
    {
      chunks := WithoutTile(chunks, k, tiles[name]);
      tiles := tiles - {name};
    }

    /** `RemoveDroppedItem`: as `RemoveTile`, for a dropped item, which also leaves `ItemList`. */
    method RemoveDroppedItem(name: string) returns (ok: bool)
      requires Consistent()
      modifies this`chunks, this`items, this`itemList
      ensures Consistent()
      ensures old(Valid()) ==> ok && Valid()
      ensures ok <==> name !in old(items) || ItemKey(old(items)[name]) in old(chunks)
      ensures !ok || name !in old(items) ==>
        chunks == old(chunks) && items == old(items) && itemList == old(itemList)
      ensures ok && name in old(items) ==>
        && chunks == WithoutItem(old(chunks), ItemKey(old(items)[name]), old(items)[name])
        && items == old(items) - {name}
        && itemList == RemoveFirst(old(itemList), old(items)[name])
    {
      if name !in items {
        return true;
      }
      var i := items[name];
      var k := ChunkTuple(i.pos);
      if k !in chunks {
        return false;
      }
      IndexAfterRemoveItem(chunks, tiles, items, name);
      KeysAlignedSub(chunks, WithoutItem(chunks, k, i));
      UnfileItem(name, k);
      assert PeersReady() && KeysAligned(chunks) && nav.Valid();
      ok := true;
    }

    /** The body of `RemoveDroppedItem` once the item and its chunk are known to exist. */
    method UnfileItem(name: string, k: ChunkKey)
      requires name in items && k in chunks
      modifies this`chunks, this`items, this`itemList
      ensures chunks == WithoutItem(old(chunks), k, old(items)[name])
      ensures items == old(items) - {name}
      ensures itemList == RemoveFirst(old(itemList), old(items)[name])
    {
      var i := items[name];
      chunks := WithoutItem(chunks, k, i);
      itemList := RemoveFirst(itemList, i);
      items := items - {name};
    }

    /** Each item of `ds` leaves the scene and `ItemList` (the effect taken for `DroppedItem.Remove`). */
    method RemoveItemNodes(ds: seq<DroppedItem>)
      modifies this`items, this`itemList
      ensures items == Without(old(items), ItemNames(ds))
      ensures itemList == RemoveEach(old(itemList), ds)
    {
      var m, s := items, itemList;
      var i := 0;
      while i < |ds|
        invariant 0 <= i <= |ds|
        invariant m == Without(old(items), ItemNames(ds[..i]))
        invariant s == RemoveEach(old(itemList), ds[..i])
      {
        RemoveItemsStep(old(items), old(itemList), ds, i);
        m := m - {ds[i].name};
        s := RemoveFirst(s, ds[i]);
        i := i + 1;
      }
      assert ds[..i] == ds;
      items, itemList := m, s;
    }

    /**
     * `PrepareChunkSpace`: the chunk at (x, z), if there is one, has its
     * structures freed and its items removed, and leaves the index.
     */
    method PrepareChunkSpace(x: int, z: int)
      requires Consistent()
      modifies this`chunks, this`tiles, this`items, this`itemList
      ensures Consistent()
      ensures old(Valid()) ==> Valid()
      ensures (x, z) !in old(chunks) ==>
        chunks == old(chunks) && tiles == old(tiles) && items == old(items) && itemList == old(itemList)
      ensures (x, z) in old(chunks) ==>
        var c := old(chunks)[(x, z)];
        && chunks == old(chunks) - {(x, z)}
        && tiles == Without(old(tiles), TileNames(c.tiles))
        && items == Without(old(items), ItemNames(c.items))
        && itemList == RemoveEach(old(itemList), c.items)
    {
      var k := (x, z);
      if k in chunks {
        IndexAfterPrepare(chunks, tiles, items, k);
        KeysAlignedSub(chunks, chunks - {k});
        FreeChunk(k);
        assert nav.Valid() && PeersReady() && KeysAligned(chunks);
        assert Consistent();
      }
    }

    /** The body of `PrepareChunkSpace` once the chunk is known to exist. */
    method FreeChunk(k: ChunkKey)
      requires k in chunks
      modifies this`chunks, this`tiles, this`items, this`itemList
      ensures chunks == old(chunks) - {k}
      ensures tiles == Without(old(tiles), TileNames(old(chunks)[k].tiles))
      ensures items == Without(old(items), ItemNames(old(chunks)[k].items))
      ensures itemList == RemoveEach(old(itemList), old(chunks)[k].items)
    {
      var c := chunks[k];
      tiles := Without(tiles, TileNames(c.tiles));
      RemoveItemNodes(c.items);
      chunks := chunks - {k};
    }

    /**
     * `Clear`: every structure filed in the index is removed with
     * `RemoveTile`, every item of `ItemList` is removed, and the index, the
     * navigation graph and every peer's Loaded list are emptied (Loading
     * lists are kept).
     */
    method Clear()
      requires Consistent()
      modifies this`chunks, this`tiles, this`items, this`itemList, this`loaded, nav
      ensures Consistent()
      ensures chunks == map[] && nav.points == map[] && nav.edges == {} && itemList == []
      ensures items == Without(old(items), ItemNames(old(itemList)))
      ensures forall n :: n in tiles ==> n in old(tiles) && tiles[n] == old(tiles)[n]
      ensures old(Valid()) ==> tiles == map[] && (Valid() <==> items == map[])
      ensures loaded == map id | id in old(loaded) :: []
    {
      RemoveStoredTiles();
      RemoveItemNodes(itemList);
      RemoveEachSelf(old(itemList));
      nav.Clear();
      chunks := map[];
      EmptyLoadedLists();
      IndexedEmpty(tiles, items);
    }

    /** The first step of `Clear`: every structure filed in the index goes through `RemoveTile`. */
    method RemoveStoredTiles()
      requires Consistent()
      modifies this`chunks, this`tiles, nav
      ensures Consistent()
      ensures forall n :: n in tiles ==> n in old(tiles) && tiles[n] == old(tiles)[n]
      ensures old(Valid()) ==> tiles == map[] && Valid()
    {
      var names := StoredNames(chunks);
      ghost var all := names;
      ghost var wasValid := Valid();
      if wasValid {
        forall n | n in tiles ensures n in all {
          assert tiles[n] in chunks[TileKey(tiles[n])].tiles;
        }
      }
      while names != {}
        invariant names <= all
        invariant Consistent()
        invariant forall n :: n in tiles ==> n in old(tiles) && tiles[n] == old(tiles)[n]
        invariant wasValid ==> Valid() && old(tiles).Keys <= all
        invariant wasValid ==> forall n :: n in all - names ==> n !in tiles
        decreases names
      {
        if forall y :: y !in names {
          assert false;  // the loop guard says names has a member
        }
        var n :| n in names;
        var removed := RemoveTile(n);
        names := names - {n};
      }
    }

    /** The last step of `Clear`: every peer's Loaded list is emptied. */
    method EmptyLoadedLists()
      requires PeersReady()
      modifies this`loaded
      ensures PeersReady()
      ensures loaded.Keys == old(loaded).Keys
      ensures loaded == map id | id in old(loaded) :: []
    {
      var ids := loaded.Keys;
      while ids != {}
        invariant ids <= loaded.Keys
        invariant loaded.Keys == old(loaded).Keys && PeersReady()
        invariant forall id :: id in loaded ==> loaded[id] == if id in ids then old(loaded)[id] else []
        decreases ids
      {
        if forall y :: y !in ids {
          assert false;  // the loop guard says ids has a member
        }
        var id :| id in ids;
        loaded := loaded[id := []];
        ids := ids - {id};
      }
      assert forall id :: id in loaded ==> loaded[id] == [];
    }

    /**
     * `GetEntitiesWithinArea`: the entities of the 3x3 block of chunks around
     * the centre's chunk, in probe order. The nine keys are taken as the block
     * the query means (`BlockKeys`); off a tie they are the keys the source
     * computes, and on a tie the source's keys collide (`AreaKeysCollideOnTie`).
     * The radius is only checked against the chunk size.
     */
    method GetEntitiesWithinArea(center: Vec3, radius: int) returns (found: seq<Entity>)
      requires radius < ChunkSize
      ensures found == AreaEntities(chunks, BlockKeys(center))
      ensures !OnTie(center.x) && !OnTie(center.z) ==> found == AreaEntities(chunks, AreaKeys(center))
      ensures forall e :: e in found <==> exists i :: 0 <= i < 9 && e in EntitiesAt(chunks, BlockKeys(center)[i])
    {
      if !OnTie(center.x) && !OnTie(center.z) {
        AreaKeysAreBlockOffTie(center);
      }
      var keys := BlockKeys(center);
      found := [];
      var i := 0;
      while i < |keys|
        invariant 0 <= i <= |keys|
        invariant found == AreaEntities(chunks, keys[..i])
      {
        assert keys[..i + 1][..i] == keys[..i];
        if keys[i] in chunks {
          found := found + chunks[keys[i]].entities;
        }
        i := i + 1;
      }
      assert keys[..i] == keys;
    }

    /**
     * `SendChunk`: tells peer `to` to prepare the chunk's space, sends each
     * entity of the chunk (and its inventory, if it has one), then signals the
     * end of the chunk.
     */
    method SendChunk(to: int, k: ChunkKey)
      requires k in chunks
      modifies this`trace
      ensures trace == old(trace) + ChunkMessages(to, k, chunks[k].entities)
    {
      var es := chunks[k].entities;
      var ms := [PrepareChunkSpaceCall(to, k)];
      var i := 0;
      while i < |es|
        invariant 0 <= i <= |es|
        invariant ms == [PrepareChunkSpaceCall(to, k)] + EntityMessages(to, es[..i])
      {
        assert es[..i + 1][..i] == es[..i];
        ms := ms + [CreateEntity(to, es[i])];
        if es[i].hasInventory {
          ms := ms + [SyncInventory(to, es[i])];
        }
        i := i + 1;
      }
      assert es[..i] == es;
      trace := trace + (ms + [NotifyEndOfChunkCall(to, k)]);
    }

    /**
     * `RequestChunks`: a client forwards the request to the server. On the
     * server, for a connected peer, the render distance is recorded and every
     * chunk of the index is visited in some order: one in range that the peer
     * neither has nor is loading is added to Loading and sent; one out of range
     * is removed once from Loaded. `sent` is the order the chunks went out in.
     */
    method RequestChunks(id: int, pos: Vec3, rd: int) returns (ghost sent: seq<ChunkKey>)
      requires Consistent()
      modifies this`loaded, this`loading, this`renderDistances, this`trace
      ensures Consistent()
      ensures old(Valid()) ==> Valid()
      ensures !isServer ==>
        && trace == old(trace) + [RequestChunksCall(id, pos, rd)]
        && loaded == old(loaded) && loading == old(loading) && renderDistances == old(renderDistances)
      ensures isServer && id !in players ==>
        trace == old(trace) && loaded == old(loaded) && loading == old(loading) && renderDistances == old(renderDistances)
      ensures isServer && id in players ==>
        && renderDistances == old(renderDistances)[id := rd]
        && loaded == old(loaded)[id := loaded[id]] && loading == old(loading)[id := loading[id]]
        && RequestOutcome(chunks.Keys, rd, pos, old(loaded)[id], old(loading)[id], loaded[id], loading[id], sent)
        && trace == old(trace) + ChunksMessages(id, sent, chunks)
    {
      sent := [];
      if !isServer {
        trace := trace + [RequestChunksCall(id, pos, rd)];
        return;
      }
      if id !in players {
        return;
      }
      sent := ServeRequest(id, pos, rd);
    }

    /** `RequestChunks` on the server, for a connected peer. */
    method ServeRequest(id: int, pos: Vec3, rd: int) returns (ghost sent: seq<ChunkKey>)
      requires Consistent() && id in players
      modifies this`loaded, this`loading, this`renderDistances, this`trace
      ensures Consistent()
      ensures old(Valid()) ==> Valid()
      ensures renderDistances == old(renderDistances)[id := rd]
      ensures loaded == old(loaded)[id := loaded[id]] && loading == old(loading)[id := loading[id]]
      ensures RequestOutcome(chunks.Keys, rd, pos, old(loaded)[id], old(loading)[id], loaded[id], loading[id], sent)
      ensures trace == old(trace) + ChunksMessages(id, sent, chunks)
    {
      var l0, g0 := loaded[id], loading[id];
      var l, g;
      l, g, sent := StreamChunks(id, pos, rd, l0, g0);
      renderDistances := renderDistances[id := rd];
      loaded := loaded[id := l];
      loading := loading[id := g];
      assert loaded[id] == l && loading[id] == g;
      assert PeersReady();
    }

    /**
     * The pass of `RequestChunks` over the index for peer `id`, starting from
     * its Loaded list l0 and Loading list g0: returns the two lists as the
     * pass leaves them, and sends each newly in-range chunk.
     */
    method StreamChunks(id: int, pos: Vec3, rd: int, l0: seq<ChunkKey>, g0: seq<ChunkKey>)
      returns (l: seq<ChunkKey>, g: seq<ChunkKey>, ghost sent: seq<ChunkKey>)
      requires KeysAligned(chunks)
      modifies this`trace
      ensures RequestOutcome(chunks.Keys, rd, pos, l0, g0, l, g, sent)
      ensures trace == old(trace) + ChunksMessages(id, sent, chunks)
    {
      l, g, sent := l0, g0, [];
      RequestStart(rd, pos, l, g);
      var remaining := chunks.Keys;
      assert chunks.Keys - remaining == {};
      while remaining != {}
        invariant remaining <= chunks.Keys
        invariant RequestOutcome(chunks.Keys - remaining, rd, pos, l0, g0, l, g, sent)
        invariant trace == old(trace) + ChunksMessages(id, sent, chunks)
        decreases remaining
      {
        if forall y :: y !in remaining {
          assert false;  // the loop guard says remaining has a member
        }
        var key :| key in remaining;
        ChunkTupleOfKey(key);
        var k := ChunkTuple(Vec3(key.0, 0, key.1));
        assert k == key;
        ghost var done := chunks.Keys - remaining;
        VisitOne(chunks.Keys, remaining, k);
        RequestStep(done, k, rd, pos, l0, g0, l, g, sent);
        if WithinDistance(k, rd, pos) {
          if k in l || k in g {
          } else {
            g := g + [k];
            SendChunk(id, k);
            ChunksMessagesStep(id, sent, k, chunks);
            AppendAssoc(old(trace), ChunksMessages(id, sent, chunks), ChunkMessages(id, k, chunks[k].entities));
            sent := sent + [k];
          }
        } else {
          if k in l {
            l := RemoveFirst(l, k);
          }
        }
        remaining := remaining - {key};
      }
      assert chunks.Keys - remaining == chunks.Keys;
    }

    /** `NotifyEndOfChunk`: a client acknowledges a chunk to the server; on the server it fails. */
    method NotifyEndOfChunk(x: int, z: int) returns (ok: bool)
      modifies this`trace
      ensures ok <==> !isServer
      ensures ok ==> trace == old(trace) + [MarkChunkLoadedCall(x, z)]
      ensures !ok ==> trace == old(trace)
    {
      if isServer {
        return false;
      }
      trace := trace + [MarkChunkLoadedCall(x, z)];
      ok := true;
    }

    /**
     * `MarkChunkLoaded`: on the server, the acknowledged chunk moves from the
     * sender's Loading list (its first occurrence) to the end of its Loaded
     * list. It fails on a client, for sender 0, and for a sender without lists.
     */
    method MarkChunkLoaded(sender: int, x: int, z: int) returns (ok: bool)
      requires Consistent()
      modifies this`loaded, this`loading
      ensures Consistent()
      ensures old(Valid()) ==> Valid()
      ensures ok <==> isServer && sender != 0 && sender in old(loaded) && sender in old(loading)
      ensures loading == if isServer && sender != 0 && sender in old(loading)
        then old(loading)[sender := RemoveFirst(old(loading)[sender], (x, z))] else old(loading)
      ensures loaded == if ok then old(loaded)[sender := old(loaded)[sender] + [(x, z)]] else old(loaded)
    {
      if !isServer || sender == 0 || sender !in loading {
        return false;
      }
      loading := loading[sender := RemoveFirst(loading[sender], (x, z))];
      if sender !in loaded {
        assert PeersReady() && KeysAligned(chunks) && nav.Valid();
        return false;
      }
      loaded := loaded[sender := loaded[sender] + [(x, z)]];
      assert PeersReady() && KeysAligned(chunks) && nav.Valid();
      assert Consistent();
      ok := true;
    }

    /**
     * `UnloadAndRequestChunks`: with a world open, a client drops from the
     * index every chunk beyond `distance` chunks of `pos` and asks the server
     * for the chunks around `pos` flattened to the ground plane. On the
     * server only visibility changes, which this model leaves out.
     */
    method UnloadAndRequestChunks(pos: Vec3, distance: int)
      requires Consistent()
      modifies this`chunks, this`loaded, this`loading, this`renderDistances, this`trace
      ensures Consistent()
      ensures loaded == old(loaded) && loading == old(loading) && renderDistances == old(renderDistances)
      ensures !isOpen || isServer ==> chunks == old(chunks) && trace == old(trace)
      ensures isOpen && !isServer ==>
        && chunks == (map k | k in old(chunks) && WithinDistance(k, distance, pos) :: old(chunks)[k])
        && trace == old(trace) + [RequestChunksCall(selfId, Vec3(pos.x, 0, pos.z), distance)]
    {
      if !isOpen {
        return;
      }
      var dead: set<ChunkKey> := {};
      var remaining := chunks.Keys;
      while remaining != {}
        invariant remaining <= chunks.Keys
        invariant dead == if isServer then {} else set k | k in chunks.Keys - remaining && !WithinDistance(k, distance, pos)
        decreases remaining
      {
        if forall y :: y !in remaining {
          assert false;  // the loop guard says remaining has a member
        }
        var k :| k in remaining;
        if !WithinDistance(k, distance, pos) && !isServer {
          dead := dead + {k};
        }
        remaining := remaining - {k};
      }
      chunks := chunks - dead;
      if !isServer {
        ghost var sent: seq<ChunkKey>;
        sent := RequestChunks(selfId, Vec3(pos.x, 0, pos.z), distance);
      }
    }
  }
}
