# SkyOfSteel world bookkeeping, modelled in Dafny

This project models the bookkeeping core of the SkyOfSteel `World` class:

- **Spatial partition.** Positions are snapped to chunk keys (multiples of `ChunkSize = 9 * PlatformSize = 108`). The chunk map `Chunks` holds, per key, lists of structures (tiles), dropped items, mobs and entities. The add, remove and prepare operations update that map. Adding a structure, item, mob or entity creates the chunk when it is missing. `RemoveTile` and `RemoveDroppedItem` drop a chunk as soon as it has neither structures nor items, whatever mobs or entities it still holds. `RemoveEntityFromChunk` drops a chunk only when all four of its lists are empty.
- **Server-side chunk streaming.** For each peer, the server keeps a Loaded list, a Loading list and a render distance. `RequestChunks` computes what to send and what to forget. `SendChunk` emits the message sequence for one chunk. `MarkChunkLoaded` moves an acknowledged chunk from Loading to Loaded. `PlaceWithName` and `Clear` also touch the lists. Remote calls are recorded as an ordered message trace.
- **Navigation-graph builder.** `TryAddTileToPathfinder` gives a new platform or slope a navigation point and links it to the neighbours its probes find. The grid lookup and the physics ray test are oracles passed in as functions.

Modules:

- `Geometry`: snapping with C#'s half-to-even `Math.Round`, and the range test on squared distances.
- `Chunks`: chunk contents and list operations.
- `ChunkIndex`: the chunk-map updates as functions, and the invariant that ties the scene's name lookup to the index.
- `NavRules`: probe slots and the slope facing tests.
- `Pathfinding`: the navigation graph as a class with a symmetric edge set.
- `Streaming`: messages, and the effect of a request on a peer's lists.
- `WorldStore`: the `World` class, whose methods update the state in place.

`ChunkExists` is the predicate `WorldStore.World.ChunkExists`. It only tests key membership, so it has no row.

## Model

| member | source | states |
|---|---|---|
| Geometry.RoundDiv | World/World.cs:263-270 | `Math.Round` of a quotient: within half a step of the exact quotient, and even when the quotient lies exactly half-way |
| Geometry.ChunkCoord | World/World.cs:263-270 | the snapped coordinate is a multiple of ChunkSize within half a chunk of the input |
| Geometry.ChunkTuple | World/World.cs:268-270 | both key coordinates are multiples of ChunkSize, each within half a chunk of the position's x and z |
| Geometry.ChunkPos | World/World.cs:263-265 | the chunk position lies on the ground plane and agrees with the chunk key |
| Geometry.ChunkCoordOfAligned | World/World.cs:263-270 | snapping a multiple of ChunkSize returns it unchanged |
| Geometry.ChunkTupleOfKey | World/World.cs:806-807 | re-snapping a chunk key, as RequestChunks does, gives the key back |
| Geometry.SnapUnique | World/World.cs:263-270 | two multiples of ChunkSize that are both nearest to a value off a tie are equal |
| Geometry.ChunkCoordShift | World/World.cs:321-334 | off a tie, moving a coordinate by ±ChunkSize moves its snap by exactly ±ChunkSize |
| Geometry.RoundDivStep | World/World.cs:268-270 | off a tie, one more ChunkSize in the numerator adds one to the rounded quotient |
| Geometry.WithinDistanceMonotone | World/World.cs:283-287 | the range test is monotone in the distance: in range for d implies in range for every d' >= d |
| Geometry.WithinZeroIffSameChunk | World/World.cs:283-287 | a key is within distance 0 of a position exactly when the position snaps to that key |
| Geometry.AreaKeys | World/World.cs:321-334 | the nine keys the area query computes as written: the first is the centre's key and all are snapped keys |
| Geometry.BlockKeys | World/World.cs:321-334 | the intended 3x3 block: the centre's key, then each listed neighbour exactly one ChunkSize away per axis; the nine are pairwise distinct |
| Geometry.AreaKeysAreBlockOffTie | World/World.cs:321-334 | off a tie on both axes, the keys as written are the intended block, so they are pairwise distinct |
| Geometry.AreaKeysCollideOnTie | World/World.cs:321-334 | for a centre at x = 54 the keys as written repeat (0,0) and skip the chunk at x = 108, which the intended block contains |
| Chunks.RemoveFirst | World/World.cs:307 | List.Remove: one occurrence of x fewer, the rest as a multiset unchanged; no effect when x is absent |
| Chunks.FirstIndex | World/World.cs:307 | the position of the first occurrence of x: every earlier element differs from x, and it lies inside the list exactly when x occurs |
| Chunks.RemoveFirstKeepsOrder | World/World.cs:307 | List.Remove cuts out exactly the first occurrence; the elements before and after it keep their order |
| Chunks.Elems | World/World.cs:809-810 | the set of keys a list holds |
| Chunks.DropOnce | World/World.cs:816-822 | removing each key of a set once: keys outside the set keep their count, keys in the set lose one occurrence if present |
| Chunks.DropOnceStep | World/World.cs:816-822 | one more List.Remove of a new key extends the set of keys dropped once, so the visiting order does not matter |
| Chunks.DropOnceNone | World/World.cs:816-822 | dropping keys that are absent leaves the list unchanged |
| Chunks.DropOnceClears | World/World.cs:816-822 | from a list without repeats, dropping a set once removes every key of the set |
| Chunks.AreaEntities | World/World.cs:336-341 | an entity is in the result exactly when it is in one of the existing chunks named by the keys |
| ChunkIndex.WithTile | World/World.cs:345-356 | the chunk at the key exists and its structures gain the new one at the end; mobs, entities, items and every other key are unchanged |
| ChunkIndex.WithItem | World/World.cs:373-384 | the chunk at the key exists and its items gain the new one at the end; everything else is unchanged |
| ChunkIndex.WithMob | World/World.cs:359-370 | the chunk exists and its mobs gain the mob at the end; its structures, items and entities, and every other key, are unchanged |
| ChunkIndex.WithEntity | World/World.cs:290-302 | the chunk exists and its entities gain the entity at the end; its structures, items and mobs, and every other key, are unchanged |
| ChunkIndex.WithoutEntity | World/World.cs:305-312 | a missing chunk changes nothing; otherwise the first occurrence of the entity leaves the chunk, whose other lists are unchanged, and the chunk is dropped exactly when all four lists are then empty; other keys are unchanged |
| ChunkIndex.EntityRoundTrip | World/World.cs:290-311 | filing a new entity and removing it again restores the index, except that a chunk that was missing or empty is gone afterwards |
| ChunkIndex.WithoutTile | World/World.cs:704-715 | the structure leaves its chunk; the chunk is kept exactly when structures or items remain, whatever mobs or entities it has; other keys are unchanged |
| ChunkIndex.WithoutItem | World/World.cs:725-733 | the same rule for a dropped item |
| ChunkIndex.PlaceThenRemoveTile | World/World.cs:345-356 | placing then removing a structure restores the index, except that a chunk that held only mobs or entities is dropped |
| ChunkIndex.TileRemovalDropsEntities | World/World.cs:709-711 | a chunk still holding an entity is dropped together with its last structure |
| ChunkIndex.IndexAfterPlace | World/World.cs:399-432 | filing a structure under a fresh name keeps the name lookup consistent with the index |
| ChunkIndex.IndexAfterRemoveTile | World/World.cs:704-720 | removing a structure keeps the lookup, without its name, consistent with the index |
| ChunkIndex.IndexAfterRemoveItem | World/World.cs:725-739 | removing a dropped item keeps the lookup, without its name, consistent with the index |
| ChunkIndex.IndexAfterPrepare | World/World.cs:900-919 | dropping a chunk with its structures' and items' names keeps the lookup consistent with the index |
| ChunkIndex.IndexedEmpty | World/World.cs:136-167 | an empty index is consistent with the lookups exactly when both are empty |
| NavRules.LoopRotation | World/World.cs:496-497 | the angle wrapped into [0, 360), congruent to the input modulo 360 |
| NavRules.SnapRotation | World/World.cs:496-497 | the rotation is one of 0, 90, 180 or 270 and lies within 45 degrees of the wrapped angle; exactly half-way it is the even multiple of 90 (0 or 180) |
| NavRules.RotateY | World/World.cs:641-644 | the rotation matrix about the vertical axis for a right angle: x' = x cos + z sin, z' = z cos - x sin, height kept, so a quarter turn takes +Z to +X |
| NavRules.RotateCompose | World/World.cs:641-644 | turns compose by adding their angles modulo 360, and a zero turn is the identity |
| NavRules.FacingTestsAreProjections | World/World.cs:495-531 | each facing test is one inequality on the projection onto the slope's facing direction, for every rotation, so the trailing throw is unreachable |
| NavRules.FacingTestsExclusive | World/World.cs:495-531 | no point is both pointed at and pointed away from |
| NavRules.SnapHalfTurn | World/World.cs:496-497 | snapping commutes with a half turn |
| NavRules.PointingAtIsAwayTurned | World/World.cs:495-531 | a slope points at exactly the points that the half-turned slope points away from |
| NavRules.FirstOfKind | World/World.cs:455-456 | the structure at the first position holding the kind, every earlier one being of another kind; none exactly when none has that kind |
| NavRules.TryGet | World/World.cs:453-492 | something is found exactly when the lookup has a structure of the kind and the ray to it is clear; a blocked first match gives nothing |
| NavRules.PlatformSlot | World/World.cs:535-628 | platform links: slots 0-7 are platforms, 8-15 slopes; a slot holds the first structure of its kind at its probe, and is linked exactly when that probe finds one with a clear ray and, for a diagonal, both adjacent cardinals were found, for a same-level slope it points away, for a lower slope it points at the platform |
| NavRules.SlopeSlot | World/World.cs:635-678 | slope links: slots 0-3 are slopes and 4-5 platforms, each the first of its kind at the rotated probe with a clear ray |
| NavRules.NavLinks | World/World.cs:533-682 | 16 slots for a platform, 6 for a slope, none otherwise; each slot is linked exactly when its probe finds a structure with a clear ray (and, on a platform, the diagonal and facing conditions hold), and then holds the first of the slot's kind at the probe |
| NavRules.LinkedNames | World/World.cs:533-682 | the names linked are exactly the structures held by some slot |
| NavRules.LinkEdges | World/World.cs:533-682 | the edges added are symmetric, all touch the new point, and reach exactly the linked names |
| NavRules.BlockedRaysLinkNothing | World/World.cs:453-492 | with every ray blocked a new structure links to nothing |
| NavRules.AdjacentPlatformsLink | World/World.cs:538-555 | a platform that is the first one the grid holds ahead, behind, right or left of a new platform, with a clear ray between their navigation points, is linked and gets edges both ways |
| Pathfinding.NavGraph.constructor | World/World.cs:25 | a new graph has no points and no edges |
| Pathfinding.NavGraph.AddPoint | World/World.cs:535 | adds one point and leaves the edges unchanged |
| Pathfinding.NavGraph.ConnectPoints | World/World.cs:549 | each point becomes a friend of the other; the friend relation stays symmetric |
| Pathfinding.NavGraph.RemovePoint | World/World.cs:715 | the point and every edge touching it go; no point keeps it as a friend |
| Pathfinding.NavGraph.RemovePointIfAny | World/World.cs:714-715 | the point is detached only when the structure has one |
| Pathfinding.NavGraph.Clear | World/World.cs:160 | no points and no edges |
| Streaming.EntityMessagesShape | World/World.cs:830-834 | the entity messages are creates and syncs to the peer about the chunk's entities; each entity is created, and synced exactly when it has an inventory |
| Streaming.EntityCreatesInOrder | World/World.cs:830-834 | the creates among the entity messages are exactly one per entity, in the chunk's order |
| Streaming.EntitySyncFollowsCreate | World/World.cs:830-834 | every inventory sync comes right after the create of its entity, and every create of an entity with an inventory is followed by its sync |
| Streaming.ChunkMessages | World/World.cs:827-838 | the chunk's messages start with PrepareChunkSpace and end with NotifyEndOfChunk for that key |
| Streaming.ChunkMessagesShape | World/World.cs:827-838 | between the prepare and the end of chunk come only the chunk's entity messages, and every entity is created |
| Streaming.ChunkMessagesOrder | World/World.cs:827-838 | in a chunk's whole message sequence the creates are one per entity in chunk order, each sync right after its create |
| Streaming.ChunksMessagesStep | World/World.cs:810-813 | sending one more chunk appends its messages to the trace |
| Streaming.RequestStep | World/World.cs:805-821 | visiting one more chunk in any order extends the request outcome to it |
| Streaming.RequestCoversRange | World/World.cs:805-821 | afterwards every in-range chunk is loaded or loading, only in-range chunks were sent, and Loaded only shrank |
| Streaming.RequestNeverLoads | World/World.cs:805-821 | a request adds nothing to Loaded |
| Streaming.RequestIdempotent | World/World.cs:794-824 | a second identical request sends nothing and leaves both lists unchanged, when Loaded had no repeats |
| Streaming.NothingNewAfterRequest | World/World.cs:805-821 | after a request no in-range chunk is left to send |
| Streaming.RequestKeepsDisjoint | World/World.cs:805-821 | a request keeps Loaded and Loading disjoint if they were |
| Streaming.MarkLoadedKeepsDisjoint | World/World.cs:852-863 | the move keeps the lists disjoint when the chunk occurs at most once in Loading |
| Streaming.AddIfAbsent | World/World.cs:440-443 | the set of keys grows by exactly the key, a list without repeats stays without repeats, and the old list is kept as a prefix with at most one key added |
| Streaming.AddIfAbsentIdempotent | World/World.cs:440-443 | adding the same key twice is the same as adding it once |
| Streaming.PlaceMayOverlapLoading | World/World.cs:434-446 | for a peer that still has the chunk in Loading, the Loaded list placing gives it shares that chunk with Loading, so disjointness is not an invariant |
| WorldStore.World.constructor | World/World.cs:19-27 | an empty world, consistent, with empty lists for every peer |
| WorldStore.World.AddEntityToChunk | World/World.cs:290-302 | the entity is filed at the key of the given position and CurrentChunk records that key; the invariant is kept |
| WorldStore.World.RemoveEntityFromChunk | World/World.cs:305-312 | the entity, matched by identity, leaves the chunk recorded as its current one, wherever it has moved since; the invariant is kept |
| WorldStore.World.AddMobToChunk | World/World.cs:359-370 | the mob's chunk is recorded and the mob is filed there |
| WorldStore.World.AddItemToChunk | World/World.cs:373-384 | the item is filed at its key |
| WorldStore.World.AddTileToChunk | World/World.cs:345-356 | the structure is filed at its key |
| WorldStore.World.TryAddTileToPathfinder | World/World.cs:452-682 | a platform or slope gets a point two units up and exactly the edges of its links, both ways; any other structure leaves the graph unchanged |
| WorldStore.World.PlaceWithName | World/World.cs:399-449 | a client refuses a structure beyond its player's render distance; otherwise the structure is in the lookup and its chunk, and on the server it joins the graph and its chunk is added once to each remote player's Loaded list when in range |
| WorldStore.World.MarkPlacedChunk | World/World.cs:434-446 | each remote player that sees the chunk has it in Loaded exactly once more if it was absent; other lists are unchanged |
| WorldStore.World.RemoveTile | World/World.cs:704-720 | an unknown name changes nothing; otherwise the structure leaves its chunk, the lookup and the graph; it fails only where the source would throw |
| WorldStore.World.RemoveDroppedItem | World/World.cs:725-739 | the same for a dropped item, which also leaves ItemList |
| WorldStore.World.RemoveItemNodes | World/World.cs:147-151 | each given item leaves the lookup and ItemList |
| WorldStore.World.PrepareChunkSpace | World/World.cs:900-919 | a missing chunk changes nothing; otherwise the chunk leaves the index with its structures and items, and the invariant is kept |
| WorldStore.World.FreeChunk | World/World.cs:905-917 | the chunk, its structures' names and its items go |
| WorldStore.World.Clear | World/World.cs:136-167 | the index, graph and ItemList are emptied; each Loaded list is emptied and Loading lists are kept; the scene loses every filed structure |
| WorldStore.World.RemoveStoredTiles | World/World.cs:137-145 | every structure filed in the index is removed through RemoveTile |
| WorldStore.World.EmptyLoadedLists | World/World.cs:164-166 | every peer keeps its entry with an empty Loaded list |
| WorldStore.World.GetEntitiesWithinArea | World/World.cs:315-342 | the entities of the existing chunks of the 3x3 block, in probe order; off a tie this is the result of the keys as written |
| WorldStore.World.SendChunk | World/World.cs:827-838 | the trace gains prepare, one create per entity with a sync for each with an inventory, and end of chunk |
| WorldStore.World.RequestChunks | World/World.cs:794-824 | a client only forwards; an unknown id changes nothing; otherwise the render distance is recorded and the peer's lists and trace satisfy the request outcome |
| WorldStore.World.ServeRequest | World/World.cs:801-823 | the server side for a known peer: request outcome, recorded render distance, and trace |
| WorldStore.World.StreamChunks | World/World.cs:805-821 | in any enumeration order, out-of-range chunks are dropped once from Loaded and newly in-range ones are appended to Loading and sent, once each |
| WorldStore.World.NotifyEndOfChunk | World/World.cs:842-848 | a client sends the acknowledgement; on the server it fails |
| WorldStore.World.MarkChunkLoaded | World/World.cs:852-863 | on the server, for a sender with both lists, one occurrence leaves Loading and the chunk is appended to Loaded; a sender with only a Loading list loses the occurrence before the failure; otherwise it fails and nothing changes |
| WorldStore.World.UnloadAndRequestChunks | World/World.cs:756-790 | with a world open, a client keeps exactly the chunks within the distance and sends one request for the flattened position; otherwise nothing changes |

## Left out

- Positions, rotations and the render-distance test use integers, not floats. Ties of `Math.Round` are kept, but float rounding error is not modelled.
- `SteelMath.LoopRotation` and `SteelMath.SnapToGrid` are not part of this model. They are taken to wrap into [0, 360) and to snap to the nearest multiple of 90, with a tie going to the even multiple.
- NavRules.SlopeSlot: the slope's probes are turned by the snapped rotation. The source turns them by the raw angle in radians, which agrees only for right-angle rotations.
- `Grid.GetItems`, `GridClass.CalculateArea` and `IntersectRay` are oracles (`Lookup`, `LineClear`). A navigation point's position is derived from its structure's position.
- The `Pathfinding` internals are not modelled. The graph is a point map and a symmetric edge set keyed by structure name.
- `ChunkClass.IsEmpty` is not part of this model. It is taken to mean that all four lists are empty.
- `DroppedItem.Remove` is taken to remove the item from the scene lookup and from `ItemList`. `Tile.Free` is taken to remove the structure from the scene lookup.
- WorldStore.World.RemoveTile: returns false where the source throws `KeyNotFoundException`, i.e. when the structure's chunk is missing from the index.
- WorldStore.World.RemoveDroppedItem: returns false where the source throws `KeyNotFoundException`.
- WorldStore.World.NotifyEndOfChunk: returns false where the source throws on the server.
- WorldStore.World.MarkChunkLoaded: returns false where the source's assertion or dictionary lookup fails; the removal from Loading that precedes a failing Loaded lookup is kept.
- WorldStore.World.PlaceWithName: requires a fresh name. The scene tree's handling of a duplicate node name is not modelled.
- WorldStore.World.Valid: the peer set is fixed at construction, and every peer has a Loaded list, a Loading list and a render distance from then on, the render distances being supplied by the constructor's caller. Peers joining or leaving, and the `KeyNotFoundException` that a peer without these entries would raise (World/World.cs:441, 810-818), are not modelled.
- WorldStore.World.RemoveEntityFromChunk: requires that the entity's `CurrentChunk` has been set. The source would dereference an unset one.
- WorldStore.World.Clear: the model keeps the invariant that every item in the scene is in `ItemList` only when that was so before. Items missing from `ItemList` stay in the lookup after the index is emptied.
- WorldStore.World.UnloadAndRequestChunks: on a client the dropped chunks' structures stay in the scene lookup, as in the source, so the lookup is not shown to stay consistent with the index. The server setting `Entity.Visible` on the entities of each chunk (World/World.cs:765-773) and the client's `PhaseOut` of a dropped chunk's entities (World/World.cs:776-778) are scene-tree effects and are left out.
- WorldStore.World.StreamChunks: works on local copies of the peer's lists, which `ServeRequest` writes back after the pass. The source updates the lists in place; the result is the same because nothing else runs in between.
- Dictionary enumeration order is an arbitrary choice in every loop over the chunk map. The request outcome is proved for every order.
- Freeing entity nodes in `Clear`, `QueueFree`, node visibility (including `Hide` in `PlaceWithName`) and mob movement are scene-tree effects and are left out. `QueueFree` is deferred to the end of the frame, so in the source a removed structure or item stays findable by `HasNode` until then; the model drops its name at once.
- Positions of structures and dropped items are fixed from filing to removal. `RemoveDroppedItem` recomputes the key from the item's current position (World/World.cs:728), so an item that has moved into another chunk is not modelled.
- Entities are compared by identity, as C# compares object references; an entity's position is passed to `AddEntityToChunk` when it is filed and is not part of the entity.
- WorldStore.World.GetEntitiesWithinArea: probes the corrected 3x3 block (`BlockKeys`). At a tie the source's keys collide and skip a chunk (see Findings); off a tie the two agree, which its ensures states.
- The following are left out: save and load (`Save`, `Load`, `SaveChunk`, `LoadChunk`) because they are file I/O; `DropItem` and `DropOrUpdateItem` because they use randomness and RPCs; `InitialNetWorldSend` and the connect handler because they are player spawning; the time of day and sky because they are cosmetic floating point; scene start-up and debug drawing because they are engine glue.
- `Items/Logic/PipeJoint.cs` and `Scripting/Scripting.cs` are not part of this model. They wrap physics raycasts, unseen pipe-system code and the Python engine.
- RPC delivery, reliability and `GetRpcSenderId` are not modelled. Calls are trace entries, and the sender id is a parameter.

## Findings

| source | as written | input that shows it | evidently intended | confidence | as-written member | corrected member |
|---|---|---|---|---|---|---|
| World/World.cs:321-334 | each of the nine keys is the snap of the centre moved by a whole chunk, with half-to-even rounding | a centre at x = 54, z = 0: the centre and its backward neighbour both snap to (0, 0), and the forward one to (216, 0), so the chunk at (108, 0) is never probed | the 3x3 block of distinct keys around the centre's chunk | not executed | Geometry.AreaKeysCollideOnTie | Geometry.BlockKeys |
