/**
 * The contents of the world's spatial index: what a chunk holds, and the list
 * operations (`List.Remove`, dropping a set of keys once each) that the world
 * applies to chunk contents and to the per-observer key lists.
 */
module Chunks {
  import opened Geometry

  /** Structure types; only platforms and slopes take part in path finding. */
  datatype TileKind = Platform | Slope | OtherKind(id: nat)

  /** A placed structure. `name` is its network-wide GUID handle. */
  datatype Tile = Tile(name: string, kind: TileKind, owner: int, pos: Vec3, rotY: int)

  /** An item lying on the ground. */
  datatype DroppedItem = DroppedItem(name: string, itemType: nat, pos: Vec3)

  /** A mobile creature. */
  datatype Mob = Mob(id: nat, pos: Vec3)

  /**
   * A generic entity (a player, say), by identity: two values are the same
   * entity exactly when they are the same object. Its position is not part of
   * it; the world reads the position where it files the entity. Some entities
   * carry an inventory.
   */
  datatype Entity = Entity(id: nat, hasInventory: bool)

  /** One cell of the spatial index, with its four independent lists. */
  datatype Chunk = Chunk(tiles: seq<Tile>, items: seq<DroppedItem>, mobs: seq<Mob>, entities: seq<Entity>)
  {
    /** Structures or dropped items keep a chunk in the index; mobs and entities do not. */
    predicate KeptAlive() { |tiles| > 0 || |items| > 0 }

    /** No list holds anything. */
    predicate IsEmpty() { tiles == [] && items == [] && mobs == [] && entities == [] }
  }

  const EmptyChunk := Chunk([], [], [], [])

  /** Where x first occurs in s; |s| when it does not occur. */
  function FirstIndex<T(==)>(s: seq<T>, x: T): (i: nat)
    ensures i <= |s| && (i < |s| <==> x in s)
    ensures i < |s| ==> s[i] == x
    ensures forall j :: 0 <= j < i ==> s[j] != x
  {
    if s == [] || s[0] == x then 0 else 1 + FirstIndex(s[1..], x)
  }

  /** `List.Remove`: drop the first occurrence of x, if any (its order: `RemoveFirstKeepsOrder`). */
  function RemoveFirst<T(==)>(s: seq<T>, x: T): (r: seq<T>)
    ensures multiset(r) == multiset(s) - multiset{x}
    ensures x in s ==> |r| == |s| - 1
    ensures x !in s ==> r == s
  {
    if s == [] then []
    else
      assert s == [s[0]] + s[1..];
      if s[0] == x then s[1..]
      else [s[0]] + RemoveFirst(s[1..], x)
  }

  /**
   * `List.Remove` cuts out exactly the first occurrence of x and keeps
   * everything else in order.
   */
  lemma {:induction false} RemoveFirstKeepsOrder<T>(s: seq<T>, x: T)
    requires x in s
    ensures RemoveFirst(s, x) == s[..FirstIndex(s, x)] + s[FirstIndex(s, x) + 1..]
  {
    assert s == [s[0]] + s[1..];
    if s[0] != x {
      assert x in s[1..];
      RemoveFirstKeepsOrder(s[1..], x);
      ConsSlices(s, FirstIndex(s[1..], x));
    }
  }

  /** Slicing below the head of a list is slicing its tail, one index lower. */
  lemma ConsSlices<T>(s: seq<T>, i: nat)
    requires i < |s| - 1
    ensures s[..i + 1] == [s[0]] + s[1..][..i] && s[i + 2..] == s[1..][i + 1..]
  {
  }

  /** The keys a list holds. */
  function Elems(s: seq<ChunkKey>): (r: set<ChunkKey>)
    ensures forall k :: k in r <==> k in s
  {
    if s == [] then {} else {s[0]} + Elems(s[1..])
  }

  lemma ElemsEmpty(s: seq<ChunkKey>)
    requires Elems(s) == {}
    ensures s == []
  {
  }

  /** A list without repeated elements. */
  predicate NoDup<T(==)>(s: seq<T>)
  {
    forall i, j :: 0 <= i < j < |s| ==> s[i] != s[j]
  }

  /**
   * The list left after removing, once each, every key of `out` (the order
   * of the removals does not matter, see `DropOnceStep`).
   */
  function DropOnce(s: seq<ChunkKey>, out: set<ChunkKey>): (r: seq<ChunkKey>)
    ensures forall k :: k !in out ==> multiset(r)[k] == multiset(s)[k]
    ensures forall k :: k in out ==> multiset(r)[k] == if multiset(s)[k] == 0 then 0 else multiset(s)[k] - 1
  {
    if s == [] then []
    else
      assert s == [s[0]] + s[1..];
      if s[0] in out then DropOnce(s[1..], out - {s[0]})
      else [s[0]] + DropOnce(s[1..], out)
  }

  /** Removing one more key from a list already cleared of `out` clears it of `out + {k}`. */
  lemma {:induction false} DropOnceStep(s: seq<ChunkKey>, out: set<ChunkKey>, k: ChunkKey)
    requires k !in out
    ensures RemoveFirst(DropOnce(s, out), k) == DropOnce(s, out + {k})
  {
    if s != [] {
      if s[0] in out {
        assert out + {k} - {s[0]} == (out - {s[0]}) + {k};
        DropOnceStep(s[1..], out - {s[0]}, k);
      } else if s[0] == k {
        assert out + {k} - {k} == out;
      } else {
        DropOnceStep(s[1..], out, k);
      }
    }
  }

  /** Dropping nothing leaves the list as it was. */
  lemma {:induction false} DropOnceNone(s: seq<ChunkKey>, out: set<ChunkKey>)
    requires forall k :: k in out ==> k !in s
    ensures DropOnce(s, out) == s
  {
    if s != [] {
      assert s[0] in s;
      DropOnceNone(s[1..], out);
    }
  }

  /** From a list without repeats, dropping `out` once leaves no key of `out` behind. */
  lemma DropOnceClears(s: seq<ChunkKey>, out: set<ChunkKey>)
    requires NoDup(s)
    ensures forall k :: k in out ==> k !in DropOnce(s, out)
  {
    forall k | k in out
      ensures k !in DropOnce(s, out)
    {
      CountAtMostOne(s, k);
    }
  }

  /** In a list without repeats every element occurs at most once. */
  lemma {:induction false} CountAtMostOne<T>(s: seq<T>, k: T)
    requires NoDup(s)
    ensures multiset(s)[k] <= 1
  {
    if s != [] {
      assert s == [s[0]] + s[1..];
      assert NoDup(s[1..]) by {
        forall i, j | 0 <= i < j < |s[1..]| ensures s[1..][i] != s[1..][j] {
          assert s[1..][i] == s[i + 1] && s[1..][j] == s[j + 1];
        }
      }
      CountAtMostOne(s[1..], k);
      forall j | 0 <= j < |s[1..]| ensures s[1..][j] != s[0] {
        assert s[1..][j] == s[j + 1];
      }
      assert s[0] !in s[1..];
    }
  }

  /** The entities of chunk k, or none if k is not in the index. */
  function EntitiesAt(chunks: map<ChunkKey, Chunk>, k: ChunkKey): seq<Entity>
  {
    if k in chunks then chunks[k].entities else []
  }

  /**
   * The entities of the chunks named by `keys` that exist, concatenated in the
   * order of `keys` (no filtering by distance).
   */
  function AreaEntities(chunks: map<ChunkKey, Chunk>, keys: seq<ChunkKey>): (es: seq<Entity>)
    ensures forall i, e :: 0 <= i < |keys| && e in EntitiesAt(chunks, keys[i]) ==> e in es
    ensures forall e :: e in es ==> exists i :: 0 <= i < |keys| && e in EntitiesAt(chunks, keys[i])
  {
    if keys == [] then []
    else
      var front := keys[..|keys| - 1];
      assert forall i :: 0 <= i < |front| ==> front[i] == keys[i];
      AreaEntities(chunks, front) + EntitiesAt(chunks, keys[|keys| - 1])
  }
}
