/**
 * The server side of chunk streaming, as values: the messages the server
 * sends, the message sequence for one chunk, and the effect of one chunk
 * request on an observer's Loaded and Loading lists, with the properties of
 * that effect.
 */
module Streaming {
  import opened Geometry
  import opened Chunks

  /** The id Godot gives the network server. */
  const ServerId: int := 1

  /** Outgoing remote calls, each addressed to one peer. */
  datatype Msg =
    | PrepareChunkSpaceCall(to: int, key: ChunkKey)
    | CreateEntity(to: int, entity: Entity)
    | SyncInventory(to: int, entity: Entity)
    | NotifyEndOfChunkCall(to: int, key: ChunkKey)
    | RequestChunksCall(id: int, pos: Vec3, renderDistance: int)
    | MarkChunkLoadedCall(x: int, z: int)

  /** One create per entity, followed by an inventory sync for each entity that has one. */
  function EntityMessages(to: int, es: seq<Entity>): seq<Msg>
  {
    if es == [] then []
    else
      var e := es[|es| - 1];
      EntityMessages(to, es[..|es| - 1]) + [CreateEntity(to, e)] + (if e.hasInventory then [SyncInventory(to, e)] else [])
  }

  /**
   * The entity messages are creates and syncs addressed to `to`, about the
   * given entities only: each entity is created, and synced exactly when it
   * has an inventory.
   */
  lemma {:induction false} EntityMessagesShape(to: int, es: seq<Entity>)
    ensures forall m :: m in EntityMessages(to, es) ==> (m.CreateEntity? || m.SyncInventory?) && m.to == to && m.entity in es
    ensures forall e :: e in es ==> CreateEntity(to, e) in EntityMessages(to, es)
    ensures forall e :: SyncInventory(to, e) in EntityMessages(to, es) <==> e in es && e.hasInventory
  {
    if es != [] {
      var e, front := es[|es| - 1], es[..|es| - 1];
      assert es == front + [e];
      EntityMessagesShape(to, front);
    }
  }

  /** The entity creations among some messages, in the order sent. */
  function Creates(ms: seq<Msg>): seq<Msg>
  {
    if ms == [] then []
    else Creates(ms[..|ms| - 1]) + if ms[|ms| - 1].CreateEntity? then [ms[|ms| - 1]] else []
  }

  /** The creations of two runs of messages are those of the first, then those of the second. */
  lemma {:induction false} CreatesAppend(a: seq<Msg>, b: seq<Msg>)
    ensures Creates(a + b) == Creates(a) + Creates(b)
  {
    if b == [] {
      assert a + b == a;
    } else {
      assert (a + b)[..|a + b| - 1] == a + b[..|b| - 1];
      assert (a + b)[|a + b| - 1] == b[|b| - 1];
      CreatesAppend(a, b[..|b| - 1]);
    }
  }

  /** `cs` creates the entities `es` for `to`, one each, in order. */
  predicate CreatesEach(to: int, cs: seq<Msg>, es: seq<Entity>)
  {
    |cs| == |es| && forall i :: 0 <= i < |es| ==> cs[i] == CreateEntity(to, es[i])
  }

  /** The entity messages create the entities one each, in list order. */
  lemma {:induction false} EntityCreatesInOrder(to: int, es: seq<Entity>)
    ensures CreatesEach(to, Creates(EntityMessages(to, es)), es)
  {
    if es != [] {
      var e, front := es[|es| - 1], es[..|es| - 1];
      var ms0 := EntityMessages(to, front);
      var tail := if e.hasInventory then [SyncInventory(to, e)] else [];
      assert EntityMessages(to, es) == (ms0 + [CreateEntity(to, e)]) + tail;
      EntityCreatesInOrder(to, front);
      CreatesAppend(ms0 + [CreateEntity(to, e)], tail);
      CreatesAppend(ms0, [CreateEntity(to, e)]);
      assert Creates(tail) == [] by {
        if tail != [] {
          assert tail[..0] == [];
        }
      }
      assert Creates([CreateEntity(to, e)]) == [CreateEntity(to, e)] by {
        assert [CreateEntity(to, e)][..0] == [];
      }
      var cs := Creates(EntityMessages(to, es));
      assert cs == Creates(ms0) + [CreateEntity(to, e)];
      forall i | 0 <= i < |es| ensures cs[i] == CreateEntity(to, es[i]) {
        if i < |front| {
          assert es[i] == front[i];
        }
      }
    }
  }

  /**
   * In a run of messages to `to`, an entity's inventory sync comes right
   * after its creation, and the creation of an entity with an inventory is
   * followed by its sync.
   */
  predicate SyncsFollowCreates(to: int, ms: seq<Msg>)
  {
    && (forall i :: 0 <= i < |ms| && ms[i].SyncInventory? ==> 0 < i && ms[i - 1] == CreateEntity(to, ms[i].entity))
    && (forall i :: 0 <= i < |ms| && ms[i].CreateEntity? && ms[i].entity.hasInventory ==>
          i + 1 < |ms| && ms[i + 1] == SyncInventory(to, ms[i].entity))
  }

  /** The entity messages sync each entity with an inventory right after creating it. */
  lemma {:induction false} EntitySyncFollowsCreate(to: int, es: seq<Entity>)
    ensures SyncsFollowCreates(to, EntityMessages(to, es))
  {
    if es != [] {
      var e, front := es[|es| - 1], es[..|es| - 1];
      var ms0 := EntityMessages(to, front);
      var ms := EntityMessages(to, es);
      EntitySyncFollowsCreate(to, front);
      assert ms == ms0 + [CreateEntity(to, e)] + if e.hasInventory then [SyncInventory(to, e)] else [];
      forall i | 0 <= i < |ms| && ms[i].SyncInventory?
        ensures 0 < i && ms[i - 1] == CreateEntity(to, ms[i].entity)
      {
        if i < |ms0| {
          assert ms[i] == ms0[i];
          assert ms[i - 1] == ms0[i - 1];
        } else {
          assert i == |ms0| + 1 && ms[i - 1] == CreateEntity(to, e);
        }
      }
      forall i | 0 <= i < |ms| && ms[i].CreateEntity? && ms[i].entity.hasInventory
        ensures i + 1 < |ms| && ms[i + 1] == SyncInventory(to, ms[i].entity)
      {
        if i < |ms0| {
          assert ms[i] == ms0[i];
          assert ms[i + 1] == ms0[i + 1];
        } else {
          assert i == |ms0| && ms[i + 1] == SyncInventory(to, e);
        }
      }
    }
  }

  /** `SendChunk`'s messages: prepare, the chunk's entities, end of chunk. */
  function ChunkMessages(to: int, key: ChunkKey, es: seq<Entity>): (ms: seq<Msg>)
    ensures |ms| >= 2 && ms[0] == PrepareChunkSpaceCall(to, key) && ms[|ms| - 1] == NotifyEndOfChunkCall(to, key)
  {
    [PrepareChunkSpaceCall(to, key)] + EntityMessages(to, es) + [NotifyEndOfChunkCall(to, key)]
  }

  /** Between the prepare and the end of chunk come only the chunk's entity messages, and every entity is created. */
  lemma ChunkMessagesShape(to: int, key: ChunkKey, es: seq<Entity>)
    ensures var ms := ChunkMessages(to, key, es);
      && (forall i :: 0 < i < |ms| - 1 ==> (ms[i].CreateEntity? || ms[i].SyncInventory?) && ms[i].to == to && ms[i].entity in es)
      && (forall e :: e in es ==> CreateEntity(to, e) in ms)
  {
    var mid := EntityMessages(to, es);
    var ms := ChunkMessages(to, key, es);
    EntityMessagesShape(to, es);
    assert forall i :: 0 < i < |ms| - 1 ==> ms[i] == mid[i - 1];
    forall e | e in es ensures CreateEntity(to, e) in ms {
      assert CreateEntity(to, e) in mid;
    }
  }

  /**
   * A chunk's messages create its entities one each in the chunk's order, and
   * sync each inventory right after its entity's creation.
   */
  lemma ChunkMessagesOrder(to: int, key: ChunkKey, es: seq<Entity>)
    ensures CreatesEach(to, Creates(ChunkMessages(to, key, es)), es)
    ensures SyncsFollowCreates(to, ChunkMessages(to, key, es))
  {
    EntityCreatesInOrder(to, es);
    ChunkCreates(to, key, es);
    ChunkSyncs(to, key, es);
  }

  lemma ChunkCreates(to: int, key: ChunkKey, es: seq<Entity>)
    ensures Creates(ChunkMessages(to, key, es)) == Creates(EntityMessages(to, es))
  {
    var first, mid, last := [PrepareChunkSpaceCall(to, key)], EntityMessages(to, es), [NotifyEndOfChunkCall(to, key)];
    CreatesAppend(first + mid, last);
    CreatesAppend(first, mid);
    assert Creates(first) == [] by { assert first[..0] == []; }
    assert Creates(last) == [] by { assert last[..0] == []; }
  }

  lemma ChunkSyncs(to: int, key: ChunkKey, es: seq<Entity>)
    ensures SyncsFollowCreates(to, ChunkMessages(to, key, es))
  {
    var mid := EntityMessages(to, es);
    var ms := ChunkMessages(to, key, es);
    EntitySyncFollowsCreate(to, es);
    forall i | 0 <= i < |ms| && ms[i].SyncInventory?
      ensures 0 < i && ms[i - 1] == CreateEntity(to, ms[i].entity)
    {
      assert ms[i] == mid[i - 1];
      assert ms[i - 1] == mid[i - 2];
    }
    forall i | 0 <= i < |ms| && ms[i].CreateEntity? && ms[i].entity.hasInventory
      ensures i + 1 < |ms| && ms[i + 1] == SyncInventory(to, ms[i].entity)
    {
      assert ms[i] == mid[i - 1];
      assert ms[i + 1] == mid[i];
    }
  }

  /** The messages for a run of chunks, concatenated in order. */
  function ChunksMessages(to: int, keys: seq<ChunkKey>, chunks: map<ChunkKey, Chunk>): seq<Msg>
  {
    if keys == [] then []
    else
      var k := keys[|keys| - 1];
      ChunksMessages(to, keys[..|keys| - 1], chunks) + ChunkMessages(to, k, EntitiesAt(chunks, k))
  }

  /** Appending is associative. */
  lemma AppendAssoc(a: seq<Msg>, b: seq<Msg>, c: seq<Msg>)
    ensures a + (b + c) == (a + b) + c
  {
  }

  /** One more chunk sent adds its messages at the end. */
  lemma ChunksMessagesStep(to: int, keys: seq<ChunkKey>, k: ChunkKey, chunks: map<ChunkKey, Chunk>)
    requires k in chunks
    ensures ChunksMessages(to, keys + [k], chunks) == ChunksMessages(to, keys, chunks) + ChunkMessages(to, k, chunks[k].entities)
  {
    assert (keys + [k])[..|keys|] == keys;
  }

  /** The chunks (among `keys`) beyond render distance `rd` of `pos`. */
  function OutOfRange(keys: set<ChunkKey>, rd: int, pos: Vec3): set<ChunkKey>
  {
    set k | k in keys && !WithinDistance(k, rd, pos)
  }

  /** The chunks (among `keys`) in range and neither loaded nor loading. */
  function NewlyInRange(keys: set<ChunkKey>, rd: int, pos: Vec3, loaded: seq<ChunkKey>, loading: seq<ChunkKey>): set<ChunkKey>
  {
    set k | k in keys && WithinDistance(k, rd, pos) && k !in loaded && k !in loading
  }

  /**
   * The effect of one `RequestChunks` on an observer's lists, whatever order
   * the chunk map is enumerated in: every out-of-range chunk is removed once
   * from Loaded (Loading is not touched), and the newly in-range chunks are
   * appended to Loading, each once, in the order they were sent.
   */
  ghost predicate RequestOutcome(keys: set<ChunkKey>, rd: int, pos: Vec3,
                                 l0: seq<ChunkKey>, g0: seq<ChunkKey>,
                                 l1: seq<ChunkKey>, g1: seq<ChunkKey>, sent: seq<ChunkKey>)
  {
    && l1 == DropOnce(l0, OutOfRange(keys, rd, pos))
    && g1 == g0 + sent
    && NoDup(sent)
    && Elems(sent) == NewlyInRange(keys, rd, pos, l0, g0)
  }

  /** Visiting one more of the remaining keys adds it to the visited ones. */
  lemma VisitOne(keys: set<ChunkKey>, remaining: set<ChunkKey>, k: ChunkKey)
    requires k in remaining && remaining <= keys
    ensures k !in keys - remaining && keys - (remaining - {k}) == (keys - remaining) + {k}
  {
  }

  /** Before any chunk is visited, nothing has changed and nothing is sent. */
  lemma RequestStart(rd: int, pos: Vec3, l0: seq<ChunkKey>, g0: seq<ChunkKey>)
    ensures RequestOutcome({}, rd, pos, l0, g0, l0, g0, [])
  {
    DropOnceNone(l0, {});
    assert OutOfRange({}, rd, pos) == {};
    assert NewlyInRange({}, rd, pos, l0, g0) == {};
  }

  /**
   * One visited chunk extends a partial outcome: over the chunks visited so
   * far, the lists before the visit are in the relation, and after the visit
   * (in range and new: appended to Loading and sent; in range and known:
   * nothing; out of range: removed once from Loaded) they are in it for the
   * visited chunks plus this one.
   */
  lemma RequestStep(done: set<ChunkKey>, k: ChunkKey, rd: int, pos: Vec3,
                    l0: seq<ChunkKey>, g0: seq<ChunkKey>, l: seq<ChunkKey>, g: seq<ChunkKey>, sent: seq<ChunkKey>)
    requires k !in done
    requires RequestOutcome(done, rd, pos, l0, g0, l, g, sent)
    ensures (k in l <==> k in l0) && (k in g <==> k in g0)
    ensures WithinDistance(k, rd, pos) && k !in l && k !in g ==>
      RequestOutcome(done + {k}, rd, pos, l0, g0, l, g + [k], sent + [k])
    ensures WithinDistance(k, rd, pos) && (k in l || k in g) ==>
      RequestOutcome(done + {k}, rd, pos, l0, g0, l, g, sent)
    ensures !WithinDistance(k, rd, pos) ==>
      RequestOutcome(done + {k}, rd, pos, l0, g0, RemoveFirst(l, k), g, sent)
  {
    RequestStepLists(done, k, rd, pos, l0, g0, l, g, sent);
    if WithinDistance(k, rd, pos) {
      if k !in l && k !in g {
        RequestStepNew(done, k, rd, pos, l0, g0, l, g, sent);
      } else {
        RequestStepKnown(done, k, rd, pos, l0, g0, l, g, sent);
      }
    } else {
      RequestStepOut(done, k, rd, pos, l0, g0, l, g, sent);
    }
  }

  /** A chunk not yet visited has kept its place in both lists and has not been sent. */
  lemma RequestStepLists(done: set<ChunkKey>, k: ChunkKey, rd: int, pos: Vec3,
                    l0: seq<ChunkKey>, g0: seq<ChunkKey>, l: seq<ChunkKey>, g: seq<ChunkKey>, sent: seq<ChunkKey>)
    requires k !in done
    requires RequestOutcome(done, rd, pos, l0, g0, l, g, sent)
    ensures (k in l <==> k in l0) && (k in g <==> k in g0) && k !in sent
  {
    assert k !in OutOfRange(done, rd, pos);
    assert multiset(l)[k] == multiset(l0)[k];
    assert k in sent ==> k in Elems(sent);
  }

  /** A new in-range chunk is appended to Loading and sent. */
  lemma RequestStepNew(done: set<ChunkKey>, k: ChunkKey, rd: int, pos: Vec3,
                    l0: seq<ChunkKey>, g0: seq<ChunkKey>, l: seq<ChunkKey>, g: seq<ChunkKey>, sent: seq<ChunkKey>)
    requires k !in done
    requires RequestOutcome(done, rd, pos, l0, g0, l, g, sent)
    requires WithinDistance(k, rd, pos) && k !in l && k !in g
    ensures RequestOutcome(done + {k}, rd, pos, l0, g0, l, g + [k], sent + [k])
  {
    RequestStepLists(done, k, rd, pos, l0, g0, l, g, sent);
    assert OutOfRange(done + {k}, rd, pos) == OutOfRange(done, rd, pos);
    assert Elems(sent + [k]) == Elems(sent) + {k};
    assert NewlyInRange(done + {k}, rd, pos, l0, g0) == NewlyInRange(done, rd, pos, l0, g0) + {k};
    assert NoDup(sent + [k]) by {
      forall i, j | 0 <= i < j < |sent + [k]| ensures (sent + [k])[i] != (sent + [k])[j] {
        if j == |sent| {
          assert (sent + [k])[i] == sent[i];
        } else {
          assert (sent + [k])[i] == sent[i] && (sent + [k])[j] == sent[j];
        }
      }
    }
  }

  /** An in-range chunk already loaded or loading changes nothing. */
  lemma RequestStepKnown(done: set<ChunkKey>, k: ChunkKey, rd: int, pos: Vec3,
                    l0: seq<ChunkKey>, g0: seq<ChunkKey>, l: seq<ChunkKey>, g: seq<ChunkKey>, sent: seq<ChunkKey>)
    requires k !in done
    requires RequestOutcome(done, rd, pos, l0, g0, l, g, sent)
    requires WithinDistance(k, rd, pos) && (k in l || k in g)
    ensures RequestOutcome(done + {k}, rd, pos, l0, g0, l, g, sent)
  {
    RequestStepLists(done, k, rd, pos, l0, g0, l, g, sent);
    assert OutOfRange(done + {k}, rd, pos) == OutOfRange(done, rd, pos);
    assert NewlyInRange(done + {k}, rd, pos, l0, g0) == NewlyInRange(done, rd, pos, l0, g0);
  }

  /** An out-of-range chunk is removed once from Loaded. */
  lemma RequestStepOut(done: set<ChunkKey>, k: ChunkKey, rd: int, pos: Vec3,
                    l0: seq<ChunkKey>, g0: seq<ChunkKey>, l: seq<ChunkKey>, g: seq<ChunkKey>, sent: seq<ChunkKey>)
    requires k !in done
    requires RequestOutcome(done, rd, pos, l0, g0, l, g, sent)
    requires !WithinDistance(k, rd, pos)
    ensures RequestOutcome(done + {k}, rd, pos, l0, g0, RemoveFirst(l, k), g, sent)
  {
    var out := OutOfRange(done, rd, pos);
    assert OutOfRange(done + {k}, rd, pos) == out + {k};
    DropOnceStep(l0, out, k);
    assert NewlyInRange(done + {k}, rd, pos, l0, g0) == NewlyInRange(done, rd, pos, l0, g0);
  }

  /** Neither list holds a key that the other holds. */
  predicate Disjoint(loaded: seq<ChunkKey>, loading: seq<ChunkKey>)
  {
    forall k :: k in loaded ==> k !in loading
  }

  /** After a request every in-range chunk is loaded or loading, and no out-of-range one became either. */
  lemma RequestCoversRange(keys: set<ChunkKey>, rd: int, pos: Vec3,
                           l0: seq<ChunkKey>, g0: seq<ChunkKey>, l1: seq<ChunkKey>, g1: seq<ChunkKey>, sent: seq<ChunkKey>)
    requires RequestOutcome(keys, rd, pos, l0, g0, l1, g1, sent)
    ensures forall k :: k in keys && WithinDistance(k, rd, pos) ==> k in l1 || k in g1
    ensures forall k :: k in sent ==> k in keys && WithinDistance(k, rd, pos)
    ensures multiset(l1) <= multiset(l0)
  {
    var out := OutOfRange(keys, rd, pos);
    forall k | k in keys && WithinDistance(k, rd, pos)
      ensures k in l1 || k in g1
    {
      assert k !in out;
      assert multiset(l1)[k] == multiset(l0)[k];
      if k !in l0 && k !in g0 {
        assert k in NewlyInRange(keys, rd, pos, l0, g0);
        assert k in sent;
      }
    }
    forall k | k in sent ensures k in keys && WithinDistance(k, rd, pos) {
      assert k in Elems(sent);
      assert k in NewlyInRange(keys, rd, pos, l0, g0);
    }
  }

  /** A request adds nothing to Loaded: a chunk becomes Loaded only through an acknowledgement. */
  lemma RequestNeverLoads(keys: set<ChunkKey>, rd: int, pos: Vec3,
                          l0: seq<ChunkKey>, g0: seq<ChunkKey>, l1: seq<ChunkKey>, g1: seq<ChunkKey>, sent: seq<ChunkKey>)
    requires RequestOutcome(keys, rd, pos, l0, g0, l1, g1, sent)
    ensures forall k :: k in l1 ==> k in l0
  {
    forall k | k in l1 ensures k in l0 {
      assert multiset(l1)[k] > 0;
    }
  }

  /**
   * Repeating a request with the same position and distance over the same
   * chunks sends nothing and leaves both lists as the first request left them,
   * provided Loaded held no repeated key before the first request.
   */
  lemma RequestIdempotent(keys: set<ChunkKey>, rd: int, pos: Vec3,
                          l0: seq<ChunkKey>, g0: seq<ChunkKey>,
                          l1: seq<ChunkKey>, g1: seq<ChunkKey>, s1: seq<ChunkKey>,
                          l2: seq<ChunkKey>, g2: seq<ChunkKey>, s2: seq<ChunkKey>)
    requires NoDup(l0)
    requires RequestOutcome(keys, rd, pos, l0, g0, l1, g1, s1)
    requires RequestOutcome(keys, rd, pos, l1, g1, l2, g2, s2)
    ensures s2 == [] && l2 == l1 && g2 == g1
  {
    NothingNewAfterRequest(keys, rd, pos, l0, g0, l1, g1, s1);
    ElemsEmpty(s2);
    var out := OutOfRange(keys, rd, pos);
    DropOnceClears(l0, out);
    DropOnceNone(l1, out);
  }

  /** After a request, no chunk in range is left to send. */
  lemma NothingNewAfterRequest(keys: set<ChunkKey>, rd: int, pos: Vec3,
                               l0: seq<ChunkKey>, g0: seq<ChunkKey>, l1: seq<ChunkKey>, g1: seq<ChunkKey>, sent: seq<ChunkKey>)
    requires RequestOutcome(keys, rd, pos, l0, g0, l1, g1, sent)
    ensures NewlyInRange(keys, rd, pos, l1, g1) == {}
  {
    RequestCoversRange(keys, rd, pos, l0, g0, l1, g1, sent);
    forall k ensures k !in NewlyInRange(keys, rd, pos, l1, g1) {
    }
  }

  /** A request keeps Loaded and Loading disjoint if they were. */
  lemma RequestKeepsDisjoint(keys: set<ChunkKey>, rd: int, pos: Vec3,
                             l0: seq<ChunkKey>, g0: seq<ChunkKey>, l1: seq<ChunkKey>, g1: seq<ChunkKey>, sent: seq<ChunkKey>)
    requires Disjoint(l0, g0)
    requires RequestOutcome(keys, rd, pos, l0, g0, l1, g1, sent)
    ensures Disjoint(l1, g1)
  {
    RequestNeverLoads(keys, rd, pos, l0, g0, l1, g1, sent);
    forall k | k in l1 ensures k !in g1 {
      assert k in Elems(sent) ==> k in NewlyInRange(keys, rd, pos, l0, g0);
    }
  }

  /**
   * `MarkChunkLoaded` keeps the lists disjoint when the acknowledged chunk
   * occurs at most once in Loading (the unconditional append makes this the
   * only way to keep them so).
   */
  lemma MarkLoadedKeepsDisjoint(l0: seq<ChunkKey>, g0: seq<ChunkKey>, k: ChunkKey)
    requires Disjoint(l0, g0)
    requires multiset(g0)[k] <= 1
    ensures Disjoint(l0 + [k], RemoveFirst(g0, k))
  {
    var g1 := RemoveFirst(g0, k);
    forall j | j in l0 + [k] ensures j !in g1 {
      assert multiset(g1)[j] <= multiset(g0)[j];
      if j == k {
        assert multiset(g1)[k] == 0;
      } else {
        assert j in l0;
        assert multiset(g0)[j] == 0;
      }
    }
  }

  /** A key is appended to a list only when absent (`PlaceWithName`'s update of Loaded). */
  function AddIfAbsent(s: seq<ChunkKey>, k: ChunkKey): (r: seq<ChunkKey>)
    ensures Elems(r) == Elems(s) + {k}
    ensures NoDup(s) ==> NoDup(r)
    ensures |s| <= |r| <= |s| + 1 && r[..|s|] == s
  {
    if k in s then s else s + [k]
  }

  /** Adding a key that is already there changes nothing, so adding twice is adding once. */
  lemma AddIfAbsentIdempotent(s: seq<ChunkKey>, k: ChunkKey)
    ensures AddIfAbsent(AddIfAbsent(s, k), k) == AddIfAbsent(s, k)
  {
  }

  /**
   * `PlaceWithName` can make a chunk that is still Loading also Loaded: for
   * a peer that sees the chunk and still has it in Loading, the Loaded list
   * it gets (`AddIfAbsent`, as `MarkPlacedChunk` states) shares the chunk
   * with Loading, however disjoint the two lists were before.
   */
  lemma PlaceMayOverlapLoading(loaded: seq<ChunkKey>, loading: seq<ChunkKey>, k: ChunkKey)
    requires k in loading
    ensures !Disjoint(AddIfAbsent(loaded, k), loading)
  {
    assert k in AddIfAbsent(loaded, k);
  }
}
