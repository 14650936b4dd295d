/**
Pools of nodes: the present ones in id order (internal/partitioner/solver.go:265-274)
and the enumeration of all groups of a given size (276-299).
*/
module Pools {
  import opened Seqs
  import opened StringOrder
  import opened Plans

  ghost predicate DistinctIds(nodes: seq<NodeProfile>) {
    forall i, j :: 0 <= i < j < |nodes| ==> nodes[i].id != nodes[j].id
  }

  ghost predicate SortedById(nodes: seq<NodeProfile>) {
    forall i, j :: 0 <= i < j < |nodes| ==> Less(nodes[i].id, nodes[j].id)
  }

  /** A pool as the solvers see it: present nodes only, in id order, no id twice. */
  ghost predicate IsPool(nodes: seq<NodeProfile>) {
    SortedById(nodes) && forall n :: n in nodes ==> !n.absent
  }

  ghost function IdsOf(nodes: seq<NodeProfile>): set<string> {
    set n | n in nodes :: n.id
  }

  // ---------------------------------------------------------------- presentSorted

  function Present(nodes: seq<NodeProfile>): seq<NodeProfile> {
    if nodes == [] then []
    else Present(nodes[..|nodes| - 1]) + if nodes[|nodes| - 1].absent then [] else [nodes[|nodes| - 1]]
  }

  function Insert(n: NodeProfile, sorted: seq<NodeProfile>): seq<NodeProfile> {
    if sorted == [] then [n]
    else if Less(sorted[|sorted| - 1].id, n.id) then sorted + [n]
    else Insert(n, sorted[..|sorted| - 1]) + [sorted[|sorted| - 1]]
  }

  function SortById(nodes: seq<NodeProfile>): seq<NodeProfile> {
    if nodes == [] then [] else Insert(nodes[|nodes| - 1], SortById(nodes[..|nodes| - 1]))
  }

  function PresentSorted(nodes: seq<NodeProfile>): seq<NodeProfile> {
    SortById(Present(nodes))
  }

  lemma {:induction false} InsertKeeps(n: NodeProfile, sorted: seq<NodeProfile>)
    ensures multiset(Insert(n, sorted)) == multiset(sorted) + multiset{n}
    ensures forall m :: m in Insert(n, sorted) <==> m == n || m in sorted
  {
    if sorted == [] {
    } else {
      var front, last := sorted[..|sorted| - 1], sorted[|sorted| - 1];
      assert sorted == front + [last];
      InsertKeeps(n, front);
    }
  }

  lemma {:induction false} InsertSorts(n: NodeProfile, sorted: seq<NodeProfile>)
    requires SortedById(sorted) && n.id !in IdsOf(sorted)
    ensures SortedById(Insert(n, sorted))
  {
    if sorted == [] {
    } else {
      var front, last := sorted[..|sorted| - 1], sorted[|sorted| - 1];
      assert last in sorted;
      LessTotal(last.id, n.id);
      if Less(last.id, n.id) {
        forall i | 0 <= i < |front| ensures Less(front[i].id, n.id) {
          LessTransitive(front[i].id, last.id, n.id);
        }
      } else {
        assert forall m :: m in front ==> m in sorted;
        InsertSorts(n, front);
        InsertKeeps(n, front);
        var placed := Insert(n, front);
        forall i | 0 <= i < |placed| ensures Less(placed[i].id, last.id) {
          assert placed[i] in placed;
        }
      }
    }
  }

  lemma {:induction false} SortByIdKeeps(nodes: seq<NodeProfile>)
    ensures multiset(SortById(nodes)) == multiset(nodes)
    ensures forall n :: n in SortById(nodes) <==> n in nodes
  {
    if nodes != [] {
      var front, last := nodes[..|nodes| - 1], nodes[|nodes| - 1];
      SortByIdKeeps(front);
      OneMore(nodes, |front|);
      assert nodes == front + [last];
      InsertKeeps(last, SortById(front));
    }
  }

  lemma {:induction false} SortByIdSorts(nodes: seq<NodeProfile>)
    requires DistinctIds(nodes)
    ensures SortedById(SortById(nodes))
  {
    if nodes != [] {
      var front, last := nodes[..|nodes| - 1], nodes[|nodes| - 1];
      SortByIdSorts(front);
      SortByIdKeeps(front);
      InsertSorts(last, SortById(front));
    }
  }

  lemma {:induction false} PresentKeeps(nodes: seq<NodeProfile>)
    ensures forall n :: n in Present(nodes) <==> n in nodes && !n.absent
    ensures DistinctIds(nodes) ==> DistinctIds(Present(nodes))
  {
    if nodes == [] {
    } else {
      var front, last := nodes[..|nodes| - 1], nodes[|nodes| - 1];
      PresentKeeps(front);
      assert nodes == front + [last];
    }
  }

  /** presentSorted yields a pool holding exactly the present nodes. */
  lemma PresentSortedIsPool(nodes: seq<NodeProfile>)
    requires DistinctIds(nodes)
    ensures IsPool(PresentSorted(nodes))
    ensures forall n :: n in PresentSorted(nodes) <==> n in nodes && !n.absent
  {
    PresentKeeps(nodes);
    SortByIdSorts(Present(nodes));
    SortByIdKeeps(Present(nodes));
  }

  lemma {:induction false} SortedIsUnique(a: seq<NodeProfile>, b: seq<NodeProfile>)
    requires SortedById(a) && SortedById(b)
    requires forall n :: n in a <==> n in b
    ensures a == b
  {
    if a == [] {
      SomeMember(b);
    } else {
      assert a[0] in b;
      assert b != [] && b[0] in a;
      var i :| 0 <= i < |b| && b[i] == a[0];
      var j :| 0 <= j < |a| && a[j] == b[0];
      if i > 0 {
        assert Less(b[0].id, a[0].id);
        assert j > 0 || a[0] == b[0];
        LessAsymmetric(b[0].id, a[0].id);
      }
      assert a[0] == b[0];
      forall n ensures n in a[1..] <==> n in b[1..] {
        HeadOnce(a, n);
        HeadOnce(b, n);
      }
      SortedIsUnique(a[1..], b[1..]);
      assert a == [a[0]] + a[1..] && b == [b[0]] + b[1..];
    }
  }

  lemma SomeMember(a: seq<NodeProfile>)
    ensures a == [] || exists n :: n in a
  {
    if a != [] {
      assert a[0] in a;
    }
  }

  lemma HeadOnce(a: seq<NodeProfile>, n: NodeProfile)
    requires SortedById(a) && a != []
    ensures n in a[1..] <==> n in a && n != a[0]
  {
    assert a == [a[0]] + a[1..];
    LessIrreflexive(a[0].id);
    if n in a[1..] {
      var i :| 0 <= i < |a[1..]| && a[1..][i] == n;
      assert Less(a[0].id, a[i + 1].id);
    }
  }

  lemma HeadIdOnce(a: seq<NodeProfile>)
    requires SortedById(a) && a != []
    ensures forall n :: n in a[1..] ==> n.id != a[0].id
  {
    forall n | n in a[1..] ensures n.id != a[0].id {
      var i :| 0 <= i < |a[1..]| && a[1..][i] == n;
      assert n == a[i + 1];
      LessAsymmetric(a[0].id, n.id);
    }
  }

  /** The order in which the nodes are listed does not matter. */
  lemma PresentSortedIgnoresOrder(a: seq<NodeProfile>, b: seq<NodeProfile>)
    requires DistinctIds(a) && DistinctIds(b) && multiset(a) == multiset(b)
    ensures PresentSorted(a) == PresentSorted(b)
  {
    PresentSortedIsPool(a);
    PresentSortedIsPool(b);
    assert forall n :: n in a <==> n in multiset(a);
    assert forall n :: n in b <==> n in multiset(b);
    SortedIsUnique(PresentSorted(a), PresentSorted(b));
  }

  lemma SortedIsDistinct(nodes: seq<NodeProfile>)
    requires SortedById(nodes)
    ensures DistinctIds(nodes)
  {
    forall i, j | 0 <= i < j < |nodes| ensures nodes[i].id != nodes[j].id {
      LessAsymmetric(nodes[i].id, nodes[j].id);
    }
  }

  /** Solving a pool again sees the same pool. */
  lemma PresentSortedOfPool(pool: seq<NodeProfile>)
    requires IsPool(pool)
    ensures PresentSorted(pool) == pool
  {
    SortedIsDistinct(pool);
    PresentSortedIsPool(pool);
    SortedIsUnique(PresentSorted(pool), pool);
  }

  method SortPresent(nodes: seq<NodeProfile>) returns (present: seq<NodeProfile>)
    ensures present == PresentSorted(nodes)
  {
    var kept: seq<NodeProfile> := [];
    for i := 0 to |nodes|
      invariant kept == Present(nodes[..i])
    {
      assert nodes[..i + 1][..i] == nodes[..i];
      if !nodes[i].absent {
        kept := kept + [nodes[i]];
      }
    }
    assert nodes[..|nodes|] == nodes;
    present := [];
    for i := 0 to |kept|
      invariant present == SortById(kept[..i])
    {
      assert kept[..i + 1][..i] == kept[..i];
      present := Insert(kept[i], present);
    }
    assert kept[..|kept|] == kept;
  }

  // ---------------------------------------------------------------- groups of a pool

  /** The nodes of the pool named by `ids`, in pool order. */
  function Restrict(pool: seq<NodeProfile>, ids: set<string>): seq<NodeProfile> {
    if pool == [] then []
    else (if pool[0].id in ids then [pool[0]] else []) + Restrict(pool[1..], ids)
  }

  lemma {:induction false} RestrictElems(pool: seq<NodeProfile>, ids: set<string>)
    ensures forall n :: n in Restrict(pool, ids) <==> n in pool && n.id in ids
    ensures |Restrict(pool, ids)| <= |pool|
  {
    if pool != [] {
      var head, rest := if pool[0].id in ids then [pool[0]] else [], Restrict(pool[1..], ids);
      RestrictElems(pool[1..], ids);
      assert Restrict(pool, ids) == head + rest;
      assert pool == [pool[0]] + pool[1..];
    }
  }

  lemma {:induction false} RestrictSorts(pool: seq<NodeProfile>, ids: set<string>)
    requires SortedById(pool)
    ensures SortedById(Restrict(pool, ids))
  {
    if pool != [] {
      var rest := Restrict(pool[1..], ids);
      RestrictSorts(pool[1..], ids);
      RestrictElems(pool[1..], ids);
      hide Less;
      forall i | 0 <= i < |rest| ensures Less(pool[0].id, rest[i].id) {
        assert rest[i] in pool[1..];
      }
    }
  }

  lemma RestrictMembers(pool: seq<NodeProfile>, ids: set<string>)
    ensures forall n :: n in Restrict(pool, ids) <==> n in pool && n.id in ids
    ensures |Restrict(pool, ids)| <= |pool|
    ensures SortedById(pool) ==> SortedById(Restrict(pool, ids))
  {
    RestrictElems(pool, ids);
    if SortedById(pool) {
      RestrictSorts(pool, ids);
    }
  }

  lemma RestrictIsPool(pool: seq<NodeProfile>, ids: set<string>)
    requires IsPool(pool)
    ensures IsPool(Restrict(pool, ids))
    ensures IdsOf(Restrict(pool, ids)) == IdsOf(pool) * ids
  {
    RestrictMembers(pool, ids);
  }

  lemma {:induction false} RestrictAgain(pool: seq<NodeProfile>, a: set<string>, b: set<string>)
    ensures Restrict(Restrict(pool, a), b) == Restrict(pool, a * b)
  {
    if pool == [] {
    } else {
      RestrictAgain(pool[1..], a, b);
      var rest := Restrict(pool[1..], a);
      if pool[0].id in a {
        assert Restrict(pool, a) == [pool[0]] + rest;
        assert ([pool[0]] + rest)[1..] == rest;
      } else {
        assert Restrict(pool, a) == rest;
      }
    }
  }

  /** Only the ids that name a node matter. */
  lemma {:induction false} RestrictSame(pool: seq<NodeProfile>, a: set<string>, b: set<string>)
    requires forall n :: n in pool ==> (n.id in a <==> n.id in b)
    ensures Restrict(pool, a) == Restrict(pool, b)
  {
    if pool != [] {
      assert pool[0] in pool;
      RestrictSame(pool[1..], a, b);
    }
  }

  lemma {:induction false} RestrictAll(pool: seq<NodeProfile>, ids: set<string>)
    requires forall n :: n in pool ==> n.id in ids
    ensures Restrict(pool, ids) == pool
  {
    if pool != [] {
      assert pool[0] in pool;
      RestrictAll(pool[1..], ids);
      assert pool == [pool[0]] + pool[1..];
    }
  }

  lemma {:induction false} RestrictAppend(pool: seq<NodeProfile>, n: NodeProfile, ids: set<string>)
    ensures Restrict(pool + [n], ids) == if n.id in ids then Restrict(pool, ids) + [n] else Restrict(pool, ids)
  {
    if pool == [] {
      assert pool + [n] == [n];
    } else {
      var head := if pool[0].id in ids then [pool[0]] else [];
      RestrictAppend(pool[1..], n, ids);
      HeadStays(pool, n);
      Assoc(head, Restrict(pool[1..], ids), [n]);
    }
  }

  /** The pool after some of its nodes are lost or given away. */
  ghost function Without(pool: seq<NodeProfile>, lost: set<string>): seq<NodeProfile> {
    Restrict(pool, IdsOf(pool) - lost)
  }

  /** The groups available without those nodes are the groups that do not use them. */
  lemma GroupsWithout(pool: seq<NodeProfile>, lost: set<string>, ids: set<string>)
    requires IsPool(pool)
    ensures IsPool(Without(pool, lost)) && IdsOf(Without(pool, lost)) == IdsOf(pool) - lost
    ensures Restrict(Without(pool, lost), ids) == Restrict(pool, ids - lost)
  {
    var keep := IdsOf(pool) - lost;
    RestrictIsPool(pool, keep);
    RestrictAgain(pool, keep, ids);
    RestrictSame(pool, keep * ids, ids - lost);
  }

  method DropNodes(pool: seq<NodeProfile>, lost: set<string>) returns (rest: seq<NodeProfile>)
    ensures rest == Without(pool, lost)
  {
    rest := [];
    ghost var keep := IdsOf(pool) - lost;
    for i := 0 to |pool|
      invariant rest == Restrict(pool[..i], keep)
    {
      OneMore(pool, i);
      RestrictAppend(pool[..i], pool[i], keep);
      assert pool[i].id in IdsOf(pool);
      if pool[i].id !in lost {
        rest := rest + [pool[i]];
      }
    }
    assert pool[..|pool|] == pool;
  }

  /** The ids of a pool that are not in use, in pool order. */
  function Unused(pool: seq<NodeProfile>, used: set<string>): seq<string> {
    if pool == [] then []
    else Unused(pool[..|pool| - 1], used) + if pool[|pool| - 1].id in used then [] else [pool[|pool| - 1].id]
  }

  lemma {:induction false} UnusedIsTheRest(pool: seq<NodeProfile>, used: set<string>)
    ensures forall id :: id in Unused(pool, used) <==> id in IdsOf(pool) - used
  {
    if pool != [] {
      var n := |pool| - 1;
      UnusedIsTheRest(pool[..n], used);
      assert pool == pool[..n] + [pool[n]];
      assert IdsOf(pool) == IdsOf(pool[..n]) + {pool[n].id};
    }
  }

  method ListUnused(pool: seq<NodeProfile>, used: set<string>) returns (idle: seq<string>)
    ensures idle == Unused(pool, used)
  {
    idle := [];
    for i := 0 to |pool|
      invariant idle == Unused(pool[..i], used)
    {
      assert pool[..i + 1][..i] == pool[..i];
      if pool[i].id !in used {
        idle := idle + [pool[i].id];
      }
    }
    assert pool[..|pool|] == pool;
  }

  // ---------------------------------------------------------------- combinations

  type Group = seq<NodeProfile>

  function Prefixed(chosen: Group, groups: seq<Group>): (r: seq<Group>)
    ensures |r| == |groups|
  {
    seq(|groups|, i requires 0 <= i < |groups| => chosen + groups[i])
  }

  /** All groups of k nodes, in lexicographic order of their indexes. */
  function Combos(items: Group, k: nat): seq<Group> {
    if k == 0 then [[]]
    else if |items| < k then []
    else Prefixed([items[0]], Combos(items[1..], k - 1)) + Combos(items[1..], k)
  }

  /** A group of k nodes either takes the first item or it does not. */
  lemma CombosMembers(items: Group, k: nat, tail: Group)
    requires items != [] && k > 0
    ensures |items| >= k && tail in Combos(items[1..], k - 1) ==> [items[0]] + tail in Combos(items, k)
    ensures |items| >= k && tail in Combos(items[1..], k) ==> tail in Combos(items, k)
  {
    if |items| >= k {
      var first, others := Combos(items[1..], k - 1), Combos(items[1..], k);
      var taken := Prefixed([items[0]], first);
      assert Combos(items, k) == taken + others;
      if tail in first {
        var i :| 0 <= i < |first| && first[i] == tail;
        assert taken[i] == [items[0]] + tail;
      }
    }
  }

  lemma {:induction false} CombosComplete(pool: Group, ids: set<string>)
    ensures Restrict(pool, ids) in Combos(pool, |Restrict(pool, ids)|)
  {
    if pool != [] {
      var group, rest := Restrict(pool, ids), Restrict(pool[1..], ids);
      RestrictMembers(pool[1..], ids);
      CombosComplete(pool[1..], ids);
      assert group == if pool[0].id in ids then [pool[0]] + rest else rest;
      if group != [] {
        CombosMembers(pool, |group|, rest);
      }
      hide Restrict;
    }
  }

  lemma RestrictHead(pool: Group, tail: Group)
    requires SortedById(pool) && pool != [] && tail == Restrict(pool[1..], IdsOf(tail))
    ensures Restrict(pool, IdsOf([pool[0]] + tail)) == [pool[0]] + tail
    ensures Restrict(pool, IdsOf(tail)) == tail
  {
    HeadIdOnce(pool);
    var both := IdsOf([pool[0]] + tail);
    assert both == {pool[0].id} + IdsOf(tail);
    RestrictSame(pool[1..], both, IdsOf(tail));
    RestrictMembers(pool[1..], IdsOf(tail));
    assert forall n :: n in tail ==> n in pool[1..];
  }

  lemma RestrictNothing(pool: Group)
    ensures Restrict(pool, {}) == []
  {
    RestrictMembers(pool, {});
    SomeMember(Restrict(pool, {}));
  }

  /** Which way a group takes: with the first item and this tail, or without it (-1). */
  lemma CombosSplit(pool: Group, k: nat, group: Group) returns (i: int)
    requires SortedById(pool) && k > 0 && group in Combos(pool, k)
    ensures pool != [] && SortedById(pool[1..])
    ensures i < 0 ==> group in Combos(pool[1..], k)
    ensures i >= 0 ==> i < |Combos(pool[1..], k - 1)| && group == [pool[0]] + Combos(pool[1..], k - 1)[i]
  {
    var tails, others := Combos(pool[1..], k - 1), Combos(pool[1..], k);
    var all := Prefixed([pool[0]], tails) + others;
    assert Combos(pool, k) == all;
    hide SortedById, Combos;
    i :| 0 <= i < |all| && all[i] == group;
    if i >= |tails| {
      assert group == others[i - |tails|];
      i := -1;
    }
  }

  lemma {:induction false} CombosSound(pool: Group, k: nat, group: Group)
    requires SortedById(pool) && group in Combos(pool, k)
    ensures |group| == k && group == Restrict(pool, IdsOf(group))
  {
    hide Restrict;
    if k == 0 {
      assert group == [] && IdsOf(group) == {};
      RestrictNothing(pool);
    } else {
      var i := CombosSplit(pool, k, group);
      hide Combos, SortedById, IdsOf;
      if i >= 0 {
        var tail := Combos(pool[1..], k - 1)[i];
        CombosSound(pool[1..], k - 1, tail);
        RestrictHead(pool, tail);
      } else {
        CombosSound(pool[1..], k, group);
        RestrictHead(pool, group);
      }
    }
  }

  lemma PrefixedTwice(chosen: Group, n: NodeProfile, groups: seq<Group>)
    ensures Prefixed(chosen, Prefixed([n], groups)) == Prefixed(chosen + [n], groups)
  {
    forall i | 0 <= i < |groups|
      ensures Prefixed(chosen, Prefixed([n], groups))[i] == Prefixed(chosen + [n], groups)[i]
    {
      assert chosen + ([n] + groups[i]) == chosen + [n] + groups[i];
    }
  }

  /** Taking the first item off: the groups with it, then the groups without it. */
  lemma CombosStep(items: Group, i: nat, left: nat, chosen: Group)
    requires left >= 1 && i + left <= |items|
    ensures Prefixed(chosen, Combos(items[i..], left)) ==
              Prefixed(chosen + [items[i]], Combos(items[i + 1..], left - 1)) + Prefixed(chosen, Combos(items[i +
                  1..], left))
  {
    var tails, others := Combos(items[i + 1..], left - 1), Combos(items[i + 1..], left);
    assert items[i..][0] == items[i] && items[i..][1..] == items[i + 1..];
    PrefixedTwice(chosen, items[i], tails);
    assert Combos(items[i..], left) == Prefixed([items[i]], tails) + others;
  }

  lemma CombosEnds(items: Group, left: nat, chosen: Group)
    ensures left == 0 ==> Prefixed(chosen, Combos(items, left)) == [chosen]
    ensures |items| < left ==> Prefixed(chosen, Combos(items, left)) == []
  {
    assert chosen + [] == chosen;
  }

  /** The recursive enumerator: `chosen` are the nodes picked so far, `start` the next candidate. */
  method CombinationsFrom(items: Group, k: nat, start: nat, chosen: Group) returns (groups: seq<Group>)
    requires start <= |items| && |chosen| <= k
    ensures groups == Prefixed(chosen, Combos(items[start..], k - |chosen|))
    decreases k - |chosen|
  {
    hide Combos, Prefixed;
    if |chosen| == k {
      CombosEnds(items[start..], 0, chosen);
      return [chosen];
    }
    groups := [];
    var left := k - |chosen|;
    ghost var want := Prefixed(chosen, Combos(items[start..], left));
    var i := start;
    while i <= |items| - left
      invariant start <= i <= |items|
      invariant groups + Prefixed(chosen, Combos(items[i..], left)) == want
    {
      var more := CombinationsFrom(items, k, i + 1, chosen + [items[i]]);
      CombosStep(items, i, left, chosen);
      ghost var others := Prefixed(chosen, Combos(items[i + 1..], left));
      assert groups + (more + others) == groups + more + others;
      groups := groups + more;
      i := i + 1;
    }
    CombosEnds(items[i..], left, chosen);
  }
}
