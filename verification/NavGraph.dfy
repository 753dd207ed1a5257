/**
 * The path-finding graph (`Pathfinding`) as the world uses it: a set of
 * navigation points, one per pathable structure (keyed by the structure's
 * name), and an undirected friend relation kept as a symmetric edge set.
 */
module Pathfinding {
  import opened Geometry

  type PointName = string

  class NavGraph {
    var points: map<PointName, Vec3>
    var edges: set<(PointName, PointName)>

    /** Friendship is mutual: every edge is stored in both directions. */
    ghost predicate Valid()
      reads this
    {
      forall a, b :: (a, b) in edges ==> (b, a) in edges
    }

    /** The friends of a point. */
    function Friends(a: PointName): set<PointName>
      reads this
    {
      set e | e in edges && e.0 == a :: e.1
    }

    constructor ()
      ensures Valid() && points == map[] && edges == {}
    {
      points := map[];
      edges := {};
    }

    /** `AddPoint`: a new navigation point with no friends yet. */
    method AddPoint(name: PointName, pos: Vec3)
      requires Valid()
      modifies this
      ensures Valid()
      ensures points == old(points)[name := pos] && edges == old(edges)
    {
      points := points[name := pos];
    }

    /** `ConnectPoints`: each point becomes a friend of the other; a repeated edge changes nothing. */
    method ConnectPoints(a: PointName, b: PointName)
      requires Valid()
      modifies this
      ensures Valid()
      ensures points == old(points) && edges == old(edges) + {(a, b), (b, a)}
      ensures Friends(a) == old(Friends(a)) + {b} && Friends(b) == old(Friends(b)) + {a}
    {
      edges := edges + {(a, b), (b, a)};
    }

    /** `RemovePoint`: the point leaves every friend's friend set and is discarded. */
    method RemovePoint(a: PointName)
      requires Valid()
      modifies this
      ensures Valid()
      ensures points == old(points) - {a}
      ensures edges == set e | e in old(edges) && e.0 != a && e.1 != a
      ensures forall b :: a !in Friends(b)
      ensures Friends(a) == {}
    {
      points := points - {a};
      edges := set e | e in edges && e.0 != a && e.1 != a;
    }

    /** `RemovePoint` guarded by the structure having a point at all. */
    method RemovePointIfAny(a: PointName)
      requires Valid()
      modifies this
      ensures Valid()
      ensures points == old(points) - {a}
      ensures edges == if a in old(points) then set e | e in old(edges) && e.0 != a && e.1 != a else old(edges)
    {
      if a in points {
        RemovePoint(a);
      }
    }

    /** `Clear`: no points and no edges. */
    method Clear()
      modifies this
      ensures Valid() && points == map[] && edges == {}
    {
      points := map[];
      edges := {};
    }
  }
}
