/** The prefix trie of the KV-aware router, refining a finite map from hash paths to backends. */
module Trie {
  import opened Basics

  datatype Node = Node(backend: Option<BackendId>, children: map<nat, Node>)

  const LEAF := Node(None, map[])

  function Child(n: Node, h: nat): Node {
    if h in n.children then n.children[h] else LEAF
  }

  /** The node reached along a path, if the path exists. */
  function Walk(n: Node, path: seq<nat>): Option<Node>
    decreases path
  {
    if path == [] then Some(n)
    else if path[0] in n.children then Walk(n.children[path[0]], path[1..])
    else None
  }

  function Lookup(n: Node, path: seq<nat>): Option<BackendId> {
    match Walk(n, path)
    case Some(m) => m.backend
    case None => None
  }

  function InsertAt(n: Node, path: seq<nat>, b: BackendId): Node
    decreases path
  {
    if path == [] then n.(backend := Some(b))
    else n.(children := n.children[path[0] := InsertAt(Child(n, path[0]), path[1..], b)])
  }

  lemma {:induction false} LeafIsEmpty(path: seq<nat>)
    ensures Lookup(LEAF, path) == None
  {
  }

  /** Insertion changes the value at its own path and nowhere else. */
  lemma {:induction false} LookupInsert(n: Node, path: seq<nat>, b: BackendId, at: seq<nat>)
    ensures Lookup(InsertAt(n, path, b), at) == if at == path then Some(b) else Lookup(n, at)
    decreases path
  {
    if path != [] && at != [] && at[0] == path[0] {
      LookupInsert(Child(n, path[0]), path[1..], b, at[1..]);
      assert at == path <==> at[1..] == path[1..] by {
        assert at == [at[0]] + at[1..] && path == [path[0]] + path[1..];
      }
      if path[0] !in n.children {
        LeafIsEmpty(at[1..]);
      }
    }
  }

  lemma {:induction false} WalkSnoc(n: Node, path: seq<nat>, h: nat)
    ensures Walk(n, path + [h]) ==
            match Walk(n, path)
            case None => None
            case Some(m) => if h in m.children then Some(m.children[h]) else None
    decreases path
  {
    if path == [] {
      assert path + [h] == [h];
      assert [h][1..] == [];
    } else {
      assert (path + [h])[1..] == path[1..] + [h];
      if path[0] in n.children {
        WalkSnoc(n.children[path[0]], path[1..], h);
      }
    }
  }

  lemma {:induction false} WalkStops(n: Node, path: seq<nat>, more: seq<nat>)
    requires Walk(n, path).None?
    ensures Walk(n, path + more).None?
    decreases path
  {
    assert (path + more)[0] == path[0] && (path + more)[1..] == path[1..] + more;
    if path[0] in n.children {
      WalkStops(n.children[path[0]], path[1..], more);
    }
  }

  // ----- the map it stands for

  ghost predicate Holds(root: Node, recorded: map<seq<nat>, BackendId>) {
    forall p: seq<nat> :: Lookup(root, p) == if p in recorded then Some(recorded[p]) else None
  }

  lemma {:induction false} LeafHolds()
    ensures Holds(LEAF, map[])
  {
    forall p: seq<nat>
      ensures Lookup(LEAF, p) == None
    {
      LeafIsEmpty(p);
    }
  }

  /** Insertion is map update; a new key shows as an absent value. */
  lemma {:induction false} InsertHolds(root: Node, recorded: map<seq<nat>, BackendId>, path: seq<nat>, b: BackendId)
    requires Holds(root, recorded)
    ensures Holds(InsertAt(root, path, b), recorded[path := b])
    ensures |recorded[path := b]| == |recorded| + (if Lookup(root, path).None? then 1 else 0)
  {
    hide Lookup, InsertAt;
    forall p: seq<nat>
      ensures Lookup(InsertAt(root, path, b), p)
           == if p in recorded[path := b] then Some(recorded[path := b][p]) else None
    {
      LookupInsert(root, path, b, p);
    }
    assert recorded[path := b].Keys == recorded.Keys + {path};
  }

  /** `r` is the value at the longest recorded nonempty prefix of `hashes`. */
  predicate LongestMatch(recorded: map<seq<nat>, BackendId>, hashes: seq<nat>, r: Option<BackendId>) {
    if r.None? then forall k :: 0 < k <= |hashes| ==> hashes[..k] !in recorded
    else exists k :: 0 < k <= |hashes| && hashes[..k] in recorded && recorded[hashes[..k]] == r.value
                     && forall j :: k < j <= |hashes| ==> hashes[..j] !in recorded
  }

  lemma {:induction false} LongestSnoc(recorded: map<seq<nat>, BackendId>, hashes: seq<nat>, i: nat,
      r: Option<BackendId>)
    requires i < |hashes| && LongestMatch(recorded, hashes[..i], r)
    ensures LongestMatch(recorded, hashes[..i + 1],
                         if hashes[..i + 1] in recorded then Some(recorded[hashes[..i + 1]]) else r)
  {
    var p, before := hashes[..i + 1], hashes[..i];
    assert p[..i + 1] == p;
    forall k | 0 <= k <= i
      ensures p[..k] == before[..k]
    {
    }
    if p !in recorded && r.Some? {
      var k :| 0 < k <= i && before[..k] in recorded && recorded[before[..k]] == r.value
               && forall j :: k < j <= i ==> before[..j] !in recorded;
      assert p[..k] in recorded && recorded[p[..k]] == r.value;
      forall j | k < j <= |p|
        ensures p[..j] !in recorded
      {
        if j <= i {
          assert p[..j] == before[..j];
        }
      }
    }
  }

  lemma {:induction false} LongestExtends(recorded: map<seq<nat>, BackendId>, hashes: seq<nat>, i: nat,
      r: Option<BackendId>)
    requires i <= |hashes| && LongestMatch(recorded, hashes[..i], r)
    requires forall k :: i < k <= |hashes| ==> hashes[..k] !in recorded
    ensures LongestMatch(recorded, hashes, r)
  {
    assert forall k :: 0 <= k <= i ==> hashes[..i][..k] == hashes[..k];
  }

  /** Recording in a bounded map: a full map is emptied first. */
  function Recorded(recorded: map<seq<nat>, BackendId>, cap: nat, hashes: seq<nat>,
      b: BackendId): map<seq<nat>, BackendId> {
    if hashes == [] then recorded
    else (if |recorded| >= cap then map[] else recorded)[hashes := b]
  }

  /** What recording means: the path gets the backend; below the capacity every other path keeps
      its value or its absence, at the capacity every other path is forgotten. */
  lemma {:induction false} RecordedMeans(
    recorded: map<seq<nat>, BackendId>, cap: nat, hashes: seq<nat>, b: BackendId, p: seq<nat>)
    ensures var r := Recorded(recorded, cap, hashes, b);
            if hashes == [] then r == recorded
            else if p == hashes then p in r && r[p] == b
            else if |recorded| < cap then
              (p in r <==> p in recorded) && (p in recorded ==> r[p] == recorded[p])
            else p !in r
  {
  }

  /** A run of insertions, from an empty trie. */
  function RecordAll(cap: nat, inserts: seq<(seq<nat>, BackendId)>): map<seq<nat>, BackendId> {
    if inserts == [] then map[]
    else
      var last := inserts[|inserts| - 1];
      Recorded(RecordAll(cap, inserts[..|inserts| - 1]), cap, last.0, last.1)
  }

  /** The value last inserted at a path. */
  function LastAt(inserts: seq<(seq<nat>, BackendId)>, p: seq<nat>): Option<BackendId> {
    if inserts == [] then None
    else
      var last := inserts[|inserts| - 1];
      if last.0 == p then Some(last.1) else LastAt(inserts[..|inserts| - 1], p)
  }

  /** As long as the trie never was full when something was inserted, it holds at every nonempty
      path exactly the value last inserted there. */
  lemma {:induction false} LastInsertIsHeld(cap: nat, inserts: seq<(seq<nat>, BackendId)>, p: seq<nat>)
    requires p != []
    requires forall i :: 0 <= i < |inserts| ==> |RecordAll(cap, inserts[..i])| < cap
    ensures var r := RecordAll(cap, inserts);
            LastAt(inserts, p) == if p in r then Some(r[p]) else None
  {
    if inserts != [] {
      hide Recorded;
      var past, last := inserts[..|inserts| - 1], inserts[|inserts| - 1];
      forall i | 0 <= i < |past|
        ensures |RecordAll(cap, past[..i])| < cap
      {
        assert past[..i] == inserts[..i];
      }
      LastInsertIsHeld(cap, past, p);
      RecordedMeans(RecordAll(cap, past), cap, last.0, last.1, p);
    }
  }

  class PrefixTrie {
    var root: Node
    var count: nat
    const cap: nat
    ghost var recorded: map<seq<nat>, BackendId>

    /** The trie stands for `recorded`; `count` is its size and stays within the capacity
        (within one entry when the capacity is zero). */
    ghost predicate Valid()
      reads this
    {
      && Holds(root, recorded)
      && [] !in recorded
      && count == |recorded|
      && count <= (if cap > 1 then cap else 1)
    }

    constructor (cap: nat)
      ensures Valid() && recorded == map[] && this.cap == cap
    {
      root := LEAF;
      count := 0;
      this.cap := cap;
      recorded := map[];
      new;
      LeafHolds();
    }

    /** Flush if full, then record. */
    method Insert(hashes: seq<nat>, backend: BackendId)
      requires Valid()
      modifies this
      ensures Valid()
      ensures recorded == Recorded(old(recorded), cap, hashes, backend)
      ensures hashes == [] ==> recorded == old(recorded)
      ensures hashes != [] ==> hashes in recorded && recorded[hashes] == backend
      ensures hashes != [] && |old(recorded)| < cap ==>
                && (forall p :: p != hashes ==> (p in recorded <==> p in old(recorded)))
                && (forall p <- old(recorded) :: p != hashes ==> recorded[p] == old(recorded)[p])
      ensures hashes != [] && |old(recorded)| >= cap ==> recorded.Keys == {hashes}
    {
      hide Lookup, InsertAt, Holds;
      if hashes == [] {
        return;
      }
      if count >= cap {
        root := LEAF;
        count := 0;
        recorded := map[];
        LeafHolds();
      }
      InsertHolds(root, recorded, hashes, backend);
      if Lookup(root, hashes).None? {
        count := count + 1;
      }
      root := InsertAt(root, hashes, backend);
      recorded := recorded[hashes := backend];
    }

    /** The read-only walk with a running best. */
    method FindLongest(hashes: seq<nat>) returns (best: Option<BackendId>)
      requires Valid()
      ensures LongestMatch(recorded, hashes, best)
    {
      hide Walk, LongestMatch;
      var node := root;
      best := None;
      assert hashes[..0] == [];
      EmptyMatch(recorded);
      StartWalk(root);
      for i := 0 to |hashes|
        invariant Walk(root, hashes[..i]) == Some(node)
        invariant LongestMatch(recorded, hashes[..i], best)
      {
        var h := hashes[i];
        WalkSnoc(root, hashes[..i], h);
        assert hashes[..i] + [h] == hashes[..i + 1];
        LongestSnoc(recorded, hashes, i, best);
        if h !in node.children {
          forall k | i < k <= |hashes|
            ensures hashes[..k] !in recorded
          {
            WalkStops(root, hashes[..i + 1], hashes[i + 1..k]);
            assert hashes[..k] == hashes[..i + 1] + hashes[i + 1..k];
            assert Lookup(root, hashes[..k]) == None;
          }
          LongestExtends(recorded, hashes, i, best);
          return;
        }
        node := node.children[h];
        assert Lookup(root, hashes[..i + 1]) == node.backend;
        if node.backend.Some? {
          best := node.backend;
        }
      }
      assert hashes[..|hashes|] == hashes;
    }
  }

  lemma {:induction false} EmptyMatch(recorded: map<seq<nat>, BackendId>)
    ensures LongestMatch(recorded, [], None)
  {
  }

  lemma {:induction false} StartWalk(n: Node)
    ensures Walk(n, []) == Some(n)
  {
  }
}
