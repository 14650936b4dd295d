/**
The consistent-hash ring (internal/gateway/policy.go:175-255). The hash of a virtual node and
of a key are parameters; virtual nodes of the members in use are assumed not to collide.
*/
module Ring {

  datatype Point = Point(h: nat, m: string)

  type Hasher = (string, nat) -> nat

  /** The virtual points of a set of members. */
  ghost function PointsOf(members: set<string>, vnodes: nat, hash: Hasher): set<Point> {
    set m, v | m in members && 0 <= v < vnodes :: Point(hash(m, v), m)
  }

  /** No two virtual nodes of these members share a position. */
  ghost predicate NoCollision(members: set<string>, vnodes: nat, hash: Hasher) {
    forall m, v, m', v' :: m in members && m' in members && 0 <= v < vnodes && 0 <= v' < vnodes
                           && hash(m, v) == hash(m', v') ==>
                             m == m' && v == v'
  }

  /** The first point clockwise from h: the least one at or after it, else the least of all. */
  ghost predicate FirstFrom(points: set<Point>, h: nat, p: Point) {
    && p in points
    && (if exists q :: q in points && q.h >= h
        then p.h >= h && forall q :: q in points && q.h >= h ==> p.h <= q.h
        else forall q :: q in points ==> p.h <= q.h)
  }

  /** Positions name points. */
  ghost predicate DistinctPositions(points: set<Point>) {
    forall p, q :: p in points && q in points && p.h == q.h ==> p == q
  }

  lemma PointsDoNotCollide(members: set<string>, vnodes: nat, hash: Hasher)
    requires NoCollision(members, vnodes, hash)
    ensures DistinctPositions(PointsOf(members, vnodes, hash))
  {
  }

  lemma FirstIsUnique(points: set<Point>, h: nat, p: Point, q: Point)
    requires DistinctPositions(points) && FirstFrom(points, h, p) && FirstFrom(points, h, q)
    ensures p == q
  {
  }

  // ---------------------------------------------------------------- membership changes move few keys

  /** Adding points: the owner stays, or is one of the new points. */
  lemma OwnerAfterAdding(points: set<Point>, more: set<Point>, h: nat, p: Point, q: Point)
    requires DistinctPositions(points + more)
    requires FirstFrom(points, h, q) && FirstFrom(points + more, h, p)
    ensures p == q || p in more
  {
    if p !in more {
      assert p in points;
      if x :| x in points && x.h >= h {
        assert x in points + more;
      }
      assert q in points + more;
    }
  }

  /** Add(m) moves keys only to m. */
  lemma AddMovesOnlyToNewMember(members: set<string>, m: string, vnodes: nat, hash: Hasher, h: nat, before: Point,
                                after: Point)
    requires NoCollision(members + {m}, vnodes, hash)
    requires FirstFrom(PointsOf(members, vnodes, hash), h, before)
    requires FirstFrom(PointsOf(members + {m}, vnodes, hash), h, after)
    ensures after == before || after.m == m
  {
    var had, more := PointsOf(members, vnodes, hash), PointsOf({m}, vnodes, hash);
    assert PointsOf(members + {m}, vnodes, hash) == had + more;
    PointsDoNotCollide(members + {m}, vnodes, hash);
    OwnerAfterAdding(had, more, h, after, before);
  }

  /** Remove(m) moves only the keys m owned. */
  lemma RemoveMovesOnlyItsKeys(members: set<string>, m: string, vnodes: nat, hash: Hasher, h: nat, before: Point,
                               after: Point)
    requires NoCollision(members, vnodes, hash)
    requires FirstFrom(PointsOf(members, vnodes, hash), h, before)
    requires FirstFrom(PointsOf(members - {m}, vnodes, hash), h, after)
    ensures before.m != m ==> after == before
  {
    if m in members {
      assert members - {m} + {m} == members;
      AddMovesOnlyToNewMember(members - {m}, m, vnodes, hash, h, after, before);
    } else {
      assert members - {m} == members;
      PointsDoNotCollide(members, vnodes, hash);
      FirstIsUnique(PointsOf(members, vnodes, hash), h, before, after);
    }
  }

  // ---------------------------------------------------------------- the sorted ring

  ghost predicate Sorted(ring: seq<Point>) {
    forall i, j :: 0 <= i < j < |ring| ==> ring[i].h < ring[j].h
  }

  ghost function Elems(ring: seq<Point>): set<Point> {
    set p | p in ring
  }

  /** The ring holds exactly the points of its members, in order. */
  ghost predicate IsRing(ring: seq<Point>, members: set<string>, vnodes: nat, hash: Hasher) {
    Sorted(ring) && Elems(ring) == PointsOf(members, vnodes, hash)
  }

  /** sort.Search: the first index at or past h. */
  method Search(ring: seq<Point>, h: nat) returns (idx: nat)
    requires Sorted(ring)
    ensures idx <= |ring|
    ensures forall i :: 0 <= i < idx ==> ring[i].h < h
    ensures forall i :: idx <= i < |ring| ==> ring[i].h >= h
  {
    var lo, hi := 0, |ring|;
    while lo < hi
      invariant 0 <= lo <= hi <= |ring|
      invariant forall i :: 0 <= i < lo ==> ring[i].h < h
      invariant forall i :: hi <= i < |ring| ==> ring[i].h >= h
    {
      var mid := (lo + hi) / 2;
      if ring[mid].h >= h {
        hi := mid;
      } else {
        lo := mid + 1;
      }
    }
    return lo;
  }

  /** Binary search with wrap-around finds the cyclic first successor. */
  method Locate(ring: seq<Point>, h: nat) returns (p: Point)
    requires Sorted(ring) && ring != []
    ensures FirstFrom(Elems(ring), h, p)
    ensures p in ring && (p.h >= h ==> forall i :: 0 <= i < |ring| && ring[i].h >= h ==> p.h <= ring[i].h)
    ensures p.h < h ==> forall i :: 0 <= i < |ring| ==> ring[i].h < h && p.h <= ring[i].h
  {
    var idx := Search(ring, h);
    if idx == |ring| {
      p := ring[0];
      assert forall q :: q in Elems(ring) ==> q.h < h && p.h <= q.h by {
        forall q | q in Elems(ring) ensures q.h < h && p.h <= q.h {
          var i :| 0 <= i < |ring| && ring[i] == q;
        }
      }
    } else {
      p := ring[idx];
      assert p in Elems(ring) && p.h >= h;
      forall q | q in Elems(ring) && q.h >= h ensures p.h <= q.h {
        var i :| 0 <= i < |ring| && ring[i] == q;
      }
    }
  }

  method InsertPoint(ring: seq<Point>, p: Point) returns (r: seq<Point>)
    requires Sorted(ring) && forall q :: q in ring ==> q.h != p.h
    ensures Sorted(r) && Elems(r) == Elems(ring) + {p}
  {
    var at := |ring|;
    while at > 0 && ring[at - 1].h > p.h
      invariant 0 <= at <= |ring|
      invariant forall i :: at <= i < |ring| ==> ring[i].h > p.h
    {
      at := at - 1;
    }
    assert at > 0 ==> ring[at - 1] in ring;
    r := ring[..at] + [p] + ring[at..];
    InsertedSorted(ring, at, p);
    InsertedElems(ring, at, p);
  }

  lemma InsertedSorted(ring: seq<Point>, at: nat, p: Point)
    requires Sorted(ring) && at <= |ring| && (at > 0 ==> ring[at - 1].h < p.h)
    requires forall i :: at <= i < |ring| ==> ring[i].h > p.h
    ensures Sorted(ring[..at] + [p] + ring[at..])
  {
    var r := ring[..at] + [p] + ring[at..];
    forall i, j | 0 <= i < j < |r| ensures r[i].h < r[j].h {
      assert i != at ==> r[i] == ring[if i < at then i else i - 1];
      assert j != at ==> r[j] == ring[if j < at then j else j - 1];
    }
  }

  lemma InsertedElems(ring: seq<Point>, at: nat, p: Point)
    requires at <= |ring|
    ensures Elems(ring[..at] + [p] + ring[at..]) == Elems(ring) + {p}
  {
    var r := ring[..at] + [p] + ring[at..];
    forall q ensures q in Elems(r) <==> q in Elems(ring) + {p} {
      assert ring == ring[..at] + ring[at..];
      assert q in ring <==> q in ring[..at] || q in ring[at..];
    }
  }

  method DropPoints(ring: seq<Point>, member: string) returns (r: seq<Point>)
    requires Sorted(ring)
    ensures Sorted(r) && Elems(r) == set p | p in Elems(ring) && p.m != member
  {
    r := [];
    for i := 0 to |ring|
      invariant Sorted(r) && (r != [] ==> i > 0 && r[|r| - 1].h <= ring[i - 1].h)
      invariant forall p :: p in r <==> p in ring[..i] && p.m != member
    {
      if ring[i].m != member {
        assert forall k :: 0 <= k < |r| ==> r[k].h <= (if r == [] then 0 else r[|r| - 1].h);
        r := r + [ring[i]];
      }
      assert ring[..i + 1] == ring[..i] + [ring[i]];
    }
    assert ring[..|ring|] == ring;
    forall p ensures p in Elems(r) <==> p in (set q | q in Elems(ring) && q.m != member) {
      assert p in r <==> p in ring && p.m != member;
    }
  }

  /** Ring: members in arrival order and their points in hash order. */
  class HashRing {
    const vnodes: nat
    const hash: Hasher
    const keyHash: string -> nat
    var ring: seq<Point>
    var members: seq<string>

    ghost predicate Valid(universe: set<string>)
      reads this
    {
      && vnodes >= 1 && NoCollision(universe, vnodes, hash)
      && (forall m :: m in members ==> m in universe)
      && (forall i, j :: 0 <= i < j < |members| ==> members[i] != members[j])
      && IsRing(ring, Members(), vnodes, hash)
    }

    ghost function Members(): set<string>
      reads this
    {
      set m | m in members
    }

    constructor (vnodes: int, hash: Hasher, keyHash: string -> nat, ghost universe: set<string>)
      requires NoCollision(universe, if vnodes < 1 then 1 else vnodes, hash)
      ensures Valid(universe) && Members() == {} && this.keyHash == keyHash
      ensures this.vnodes == (if vnodes < 1 then 1 else vnodes) && this.hash == hash
    {
      this.vnodes := if vnodes < 1 then 1 else vnodes;
      this.hash, this.keyHash := hash, keyHash;
      ring, members := [], [];
    }

    method Add(member: string, ghost universe: set<string>)
      requires Valid(universe) && member in universe
      modifies this
      ensures Valid(universe) && Members() == old(Members()) + {member}
    {
      if member in members {
        return;
      }
      ghost var was := Members();
      var points := ring;
      for v := 0 to vnodes
        invariant members == old(members) && ring == old(ring)
        invariant Sorted(points)
        invariant Elems(points) == PointsOf(was, vnodes, hash) + PointsOf({member}, v, hash)
      {
        forall q | q in points ensures q.h != hash(member, v) {
          assert q in Elems(points);
        }
        points := InsertPoint(points, Point(hash(member, v), member));
        assert PointsOf({member}, v + 1, hash) == PointsOf({member}, v, hash) + {Point(hash(member, v), member)};
      }
      members := members + [member];
      ring := points;
      assert Members() == was + {member};
      assert PointsOf(was + {member}, vnodes, hash) == PointsOf(was, vnodes, hash) + PointsOf({member}, vnodes, hash);
    }

    method Remove(member: string, ghost universe: set<string>)
      requires Valid(universe)
      modifies this
      ensures Valid(universe) && Members() == old(Members()) - {member}
    {
      var kept: seq<string> := [];
      for i := 0 to |members|
        invariant members == old(members) && ring == old(ring)
        invariant forall m :: m in kept <==> m in members[..i] && m != member
        invariant forall a, b :: 0 <= a < b < |kept| ==> kept[a] != kept[b]
      {
        if members[i] != member {
          assert forall a :: 0 <= a < |kept| ==> kept[a] in kept;
          kept := kept + [members[i]];
        }
        assert members[..i + 1] == members[..i] + [members[i]];
      }
      assert members[..|members|] == members;
      ghost var was := Members();
      var points := DropPoints(ring, member);
      members := kept;
      ring := points;
      assert Members() == was - {member};
      assert PointsOf(was - {member}, vnodes, hash) == set p | p in PointsOf(was, vnodes, hash) && p.m != member;
    }

    /** Route fails only without members; otherwise the owner is a matter of the member set alone. */
    method Route(key: string, ghost universe: set<string>) returns (member: string, ok: bool)
      requires Valid(universe)
      ensures ok <==> Members() != {}
      ensures ok ==> Owns(Members(), vnodes, hash, keyHash(key), member)
    {
      if |ring| == 0 {
        RingEmptyIff(ring, Members(), vnodes, hash);
        return "", false;
      }
      RingEmptyIff(ring, Members(), vnodes, hash);
      var p := Locate(ring, keyHash(key));
      return p.m, true;
    }
  }

  // ---------------------------------------------------------------- histories

  /** The member that owns a position: the one of the cyclic first point. */
  ghost predicate Owns(members: set<string>, vnodes: nat, hash: Hasher, h: nat, member: string) {
    exists p :: FirstFrom(PointsOf(members, vnodes, hash), h, p) && p.m == member
  }

  lemma OwnerIsUnique(members: set<string>, vnodes: nat, hash: Hasher, h: nat, a: string, b: string)
    requires NoCollision(members, vnodes, hash)
    requires Owns(members, vnodes, hash, h, a) && Owns(members, vnodes, hash, h, b)
    ensures a == b
  {
    var points := PointsOf(members, vnodes, hash);
    PointsDoNotCollide(members, vnodes, hash);
    var p :| FirstFrom(points, h, p) && p.m == a;
    var q :| FirstFrom(points, h, q) && q.m == b;
    hide FirstFrom, PointsOf, NoCollision;
    FirstIsUnique(points, h, p, q);
  }

  datatype Change = Join(member: string) | Quit(member: string)

  /** Who is a member after a history of changes. */
  function MembersAfter(members: set<string>, changes: seq<Change>): set<string>
    decreases |changes|
  {
    if changes == [] then members
    else
      var c := changes[0];
      MembersAfter(if c.Join? then members + {c.member} else members - {c.member}, changes[1..])
  }

  method Replay(ring: HashRing, changes: seq<Change>, ghost universe: set<string>)
    requires ring.Valid(universe) && forall c :: c in changes ==> c.member in universe
    modifies ring
    ensures ring.Valid(universe) && ring.Members() == MembersAfter(old(ring.Members()), changes)
  {
    for i := 0 to |changes|
      invariant ring.Valid(universe)
      invariant MembersAfter(ring.Members(), changes[i..]) == MembersAfter(old(ring.Members()), changes)
    {
      var c := changes[i];
      assert changes[i..][1..] == changes[i + 1..] && c in changes;
      match c {
        case Join(m) => ring.Add(m, universe);
        case Quit(m) => ring.Remove(m, universe);
      }
    }
  }

  /** A new ring after a history: the owner is that of the members left, however they came to be. */
  method RouteAfter(vnodes: int, hash: Hasher, keyHash: string -> nat, changes: seq<Change>, key: string,
                    ghost universe: set<string>)
    returns (member: string, ok: bool)
    requires NoCollision(universe, if vnodes < 1 then 1 else vnodes, hash)
    requires forall c :: c in changes ==> c.member in universe
    ensures ok <==> MembersAfter({}, changes) != {}
    ensures ok ==> Owns(MembersAfter({}, changes), if vnodes < 1 then 1 else vnodes, hash, keyHash(key), member)
  {
    var ring := new HashRing(vnodes, hash, keyHash, universe);
    Replay(ring, changes, universe);
    member, ok := ring.Route(key, universe);
  }

  lemma {:induction false} MembersStayIn(members: set<string>, changes: seq<Change>, universe: set<string>)
    requires members <= universe && forall c :: c in changes ==> c.member in universe
    ensures MembersAfter(members, changes) <= universe
    decreases |changes|
  {
    if changes != [] {
      var c := changes[0];
      MembersStayIn(if c.Join? then members + {c.member} else members - {c.member}, changes[1..], universe);
    }
  }

  /** Two histories that leave the same members route every key alike. */
  lemma HistoryDoesNotMatter(vnodes: nat, hash: Hasher, h: nat, x: seq<Change>, y: seq<Change>, a: string, b: string,
                             universe: set<string>)
    requires NoCollision(universe, vnodes, hash) && MembersAfter({}, x) == MembersAfter({}, y)
    requires forall c :: c in x ==> c.member in universe
    requires Owns(MembersAfter({}, x), vnodes, hash, h, a) && Owns(MembersAfter({}, y), vnodes, hash, h, b)
    ensures a == b
  {
    MembersStayIn({}, x, universe);
    OwnerIsUnique(MembersAfter({}, x), vnodes, hash, h, a, b);
  }

  lemma RingEmptyIff(ring: seq<Point>, members: set<string>, vnodes: nat, hash: Hasher)
    requires IsRing(ring, members, vnodes, hash) && vnodes >= 1
    ensures ring == [] <==> members == {}
  {
    if ring != [] {
      assert ring[0] in Elems(ring);
    }
    if m :| m in members {
      assert Point(hash(m, 0), m) in PointsOf(members, vnodes, hash);
      assert Point(hash(m, 0), m) in Elems(ring);
    }
  }

  /** Two histories with the same members give the same ring, hence the same routing. */
  lemma {:induction false} RingIsCanonical(a: seq<Point>, b: seq<Point>)
    requires Sorted(a) && Sorted(b) && Elems(a) == Elems(b)
    ensures a == b
    decreases |a|
  {
    SomePoint(a);
    SomePoint(b);
    if a != [] && b != [] {
      var i, j := |a| - 1, |b| - 1;
      LastIsGreatest(a);
      LastIsGreatest(b);
      assert a[i].h == b[j].h && a[i] == b[j] by {
        assert a[i] in Elems(b) && b[j] in Elems(a);
        SameHeightSamePoint(b, a[i], b[j]);
      }
      TailElems(a);
      TailElems(b);
      hide Sorted, Elems;
      SortedPrefix(a);
      SortedPrefix(b);
      RingIsCanonical(a[..i], b[..j]);
      assert a == a[..i] + [a[i]] && b == b[..j] + [b[j]];
    }
  }

  lemma SameHeightSamePoint(a: seq<Point>, p: Point, q: Point)
    requires Sorted(a) && p in Elems(a) && q in Elems(a) && p.h == q.h
    ensures p == q
  {
    var i :| 0 <= i < |a| && a[i] == p;
    var j :| 0 <= j < |a| && a[j] == q;
  }

  lemma SortedPrefix(a: seq<Point>)
    requires Sorted(a) && a != []
    ensures Sorted(a[..|a| - 1])
  {
  }

  lemma SomePoint(a: seq<Point>)
    ensures a == [] <==> Elems(a) == {}
  {
    if a != [] {
      assert a[0] in Elems(a);
    }
  }

  lemma LastIsGreatest(a: seq<Point>)
    requires Sorted(a) && a != []
    ensures a[|a| - 1] in Elems(a)
    ensures forall p :: p in Elems(a) ==> p.h <= a[|a| - 1].h
  {
    forall p | p in Elems(a) ensures p.h <= a[|a| - 1].h {
      var i :| 0 <= i < |a| && a[i] == p;
    }
  }

  lemma TailElems(a: seq<Point>)
    requires Sorted(a) && a != []
    ensures Elems(a[..|a| - 1]) == Elems(a) - {a[|a| - 1]}
  {
    var n := |a| - 1;
    assert a == a[..n] + [a[n]];
    forall p ensures p in Elems(a[..n]) <==> p in Elems(a) - {a[n]} {
      assert p in a <==> p in a[..n] || p == a[n];
    }
  }
}
