/** Making a whole disk quiet: swap and holder checks, then unmounting the deepest mountpoints first. */
module Quiescence {
  import opened Basics
  import opened Paths
  import opened Sorting

  datatype Node = Node(path: string, mountpoint: Option<string>, children: seq<Node>)

  datatype QuiescenceError =
    | CommandFailed
    | ActiveSwap(path: string)
    | Holders(path: string, names: seq<string>)
    | HolderIo(name: string)
    | Mounted(mountpoint: string)

  /** The nodes of some trees, each before its children. */
  function Preorder(nodes: seq<Node>): seq<Node> {
    if nodes == [] then [] else [nodes[0]] + Preorder(nodes[0].children) + Preorder(nodes[1..])
  }

  /** `node` is `root` or one of its descendants. */
  ghost predicate Within(node: Node, root: Node)
    decreases root
  {
    node == root || exists i :: 0 <= i < |root.children| && Within(node, root.children[i])
  }

  /** The flattened list is the whole forest, at any depth. */
  lemma {:induction false} PreorderIsForest(nodes: seq<Node>, node: Node)
    ensures node in Preorder(nodes) <==> exists i :: 0 <= i < |nodes| && Within(node, nodes[i])
  {
    if nodes != [] {
      PreorderIsForest(nodes[0].children, node);
      PreorderIsForest(nodes[1..], node);
      assert forall i :: 0 <= i < |nodes| - 1 ==> nodes[1..][i] == nodes[i + 1];
      if i :| 0 <= i < |nodes| && Within(node, nodes[i]) {
        assert i > 0 ==> Within(node, nodes[1..][i - 1]);
      }
      if node in Preorder(nodes) && node != nodes[0] && node !in Preorder(nodes[0].children) {
        var i :| 0 <= i < |nodes[1..]| && Within(node, nodes[1..][i]);
        assert Within(node, nodes[i + 1]);
      }
      if node == nodes[0] || node in Preorder(nodes[0].children) {
        assert Within(node, nodes[0]);
      }
    }
  }

  lemma {:induction false} PreorderAppend(a: seq<Node>, b: seq<Node>)
    ensures Preorder(a + b) == Preorder(a) + Preorder(b)
  {
    if a == [] {
      assert a + b == b;
    } else {
      assert (a + b)[1..] == a[1..] + b;
      PreorderAppend(a[1..], b);
    }
  }

  /** `flatten`: push the node, then each child's subtree. */
  method FlattenNode(node: Node, output: seq<Node>) returns (extended: seq<Node>)
    ensures extended == output + Preorder([node])
    decreases node
  {
    extended := output + [node];
    for i := 0 to |node.children|
      invariant extended == output + [node] + Preorder(node.children[..i])
    {
      PreorderAppend(node.children[..i], [node.children[i]]);
      assert node.children[..i + 1] == node.children[..i] + [node.children[i]];
      extended := FlattenNode(node.children[i], extended);
    }
    assert node.children[..|node.children|] == node.children;
    assert Preorder([node]) == [node] + Preorder(node.children) + Preorder([]);
  }

  method FlattenAll(nodes: seq<Node>) returns (all: seq<Node>)
    ensures all == Preorder(nodes)
  {
    all := [];
    for i := 0 to |nodes|
      invariant all == Preorder(nodes[..i])
    {
      PreorderAppend(nodes[..i], [nodes[i]]);
      assert nodes[..i + 1] == nodes[..i] + [nodes[i]];
      all := FlattenNode(nodes[i], all);
    }
    assert nodes[..|nodes|] == nodes;
  }

  // ----- Deepest first -----

  /** Deeper paths first, ties in string order. */
  predicate InOrder(a: string, b: string) {
    Depth(a) > Depth(b) || (Depth(a) == Depth(b) && LexLe(a, b))
  }

  predicate Distinct(mounts: seq<string>) {
    forall i, j :: 0 <= i < j < |mounts| ==> mounts[i] != mounts[j]
  }

  lemma OrderIsTotal(a: string, b: string)
    ensures InOrder(a, b) || InOrder(b, a)
    ensures InOrder(a, b) && InOrder(b, a) ==> a == b
  {
    LexTotal(a, b);
  }

  lemma OrderIsTransitive(a: string, b: string, c: string)
    requires InOrder(a, b) && InOrder(b, c)
    ensures InOrder(a, c)
  {
    if Depth(a) == Depth(b) == Depth(c) {
      LexTransitive(a, b, c);
    }
  }

  lemma OrderIsTotalOrder()
    ensures TotalOrder(InOrder)
  {
    hide InOrder;
    forall a, b ensures InOrder(a, b) || InOrder(b, a) {
      OrderIsTotal(a, b);
    }
    forall a, b, c | InOrder(a, b) && InOrder(b, c) ensures InOrder(a, c) {
      OrderIsTransitive(a, b, c);
    }
  }

  /** `dedup`: drops an element equal to the one before it. */
  method Dedup(sorted: seq<string>) returns (r: seq<string>)
    requires SortedBy(InOrder, sorted)
    ensures SortedBy(InOrder, r) && Distinct(r) && forall m :: m in r <==> m in sorted
  {
    hide InOrder;
    r := [];
    for i := 0 to |sorted|
      invariant SortedBy(InOrder, r) && Distinct(r)
      invariant forall m :: m in r <==> m in sorted[..i]
      invariant r != [] ==> i > 0 && r[|r| - 1] == sorted[i - 1]
      invariant forall m :: m in r && i < |sorted| ==> InOrder(m, sorted[i])
    {
      var x := sorted[i];
      if r == [] || r[|r| - 1] != x {
        forall k | 0 <= k < |r| ensures r[k] != x {
          assert k < |r| - 1 ==> InOrder(r[k], r[|r| - 1]);
          assert r[|r| - 1] in r;
          OrderIsTotal(r[|r| - 1], x);
        }
        r := r + [x];
      }
      forall m | m in r && i + 1 < |sorted| ensures InOrder(m, sorted[i + 1]) {
        var k :| 0 <= k < i + 1 && sorted[k] == m;
      }
    }
    assert sorted[..|sorted|] == sorted;
  }

  /** Everything strictly beneath a mountpoint comes before it. */
  lemma BeneathComesFirst(mounts: seq<string>, i: nat, inner: string)
    requires SortedBy(InOrder, mounts) && i < |mounts| && inner in mounts && StrictlyBeneath(inner, mounts[i])
    ensures inner in mounts[..i]
  {
    var j :| 0 <= j < |mounts| && mounts[j] == inner;
    assert Depth(inner) > Depth(mounts[i]);
    assert !InOrder(mounts[i], inner);
  }

  // ----- quiesce_disk -----

  ghost predicate Mountpoint(nodes: seq<Node>, m: string) {
    exists node :: node in Preorder(nodes) && node.mountpoint == Some(m)
  }

  /** The name holders are looked up by. */
  function NodeName(path: string): string {
    if FileName(path).Some? then FileName(path).value else path
  }

  /** Swap on the disk, or a kernel holder of any of its nodes. */
  ghost predicate InUse(nodes: seq<Node>, swaps: seq<string>, holders: string -> Result<seq<string>, ()>) {
    || (exists node :: node in Preorder(nodes) && node.path in swaps)
    || (exists node :: node in Preorder(nodes) && holders(NodeName(node.path)) != Ok([]))
  }

  /** Every mountpoint of the disk strictly beneath an attempted one was attempted before it. */
  ghost predicate DeepestFirst(nodes: seq<Node>, attempts: seq<string>) {
    forall i, inner ::
      0 <= i < |attempts| && Mountpoint(nodes, inner) && StrictlyBeneath(inner, attempts[i]) ==> inner in attempts[..i]
  }

  method MountsOf(all: seq<Node>) returns (mounts: seq<string>)
    ensures forall m :: m in mounts <==> exists node :: node in all && node.mountpoint == Some(m)
  {
    mounts := [];
    for i := 0 to |all|
      invariant forall m :: m in mounts <==> exists node :: node in all[..i] && node.mountpoint == Some(m)
    {
      if all[i].mountpoint.Some? {
        mounts := mounts + [all[i].mountpoint.value];
      }
    }
    assert all[..|all|] == all;
  }

  method CheckUnused(all: seq<Node>, swaps: seq<string>, holders: string -> Result<seq<string>, ()>)
    returns (r: Result<(), QuiescenceError>)
    ensures r.Ok? <==> (forall node :: node in all ==> node.path !in swaps && holders(NodeName(node.path)) == Ok([]))
    ensures r.Err? && r.error.ActiveSwap? ==>
              r.error.path in swaps && exists node :: node in all && node.path == r.error.path
    ensures r.Err? && r.error.Holders? ==>
              exists node :: node in all && node.path == r.error.path
                             && holders(NodeName(node.path)) == Ok(r.error.names)
    ensures r.Err? ==> !r.error.Mounted? && !r.error.CommandFailed?
  {
    for i := 0 to |swaps|
      invariant forall k, node :: 0 <= k < i && node in all ==> node.path != swaps[k]
    {
      for j := 0 to |all|
        invariant forall k :: 0 <= k < j ==> all[k].path != swaps[i]
      {
        if all[j].path == swaps[i] {
          assert all[j] in all;
          return Err(ActiveSwap(swaps[i]));
        }
      }
    }
    for i := 0 to |all|
      invariant forall k :: 0 <= k < i ==> holders(NodeName(all[k].path)) == Ok([])
    {
      var name := NodeName(all[i].path);
      var active := holders(name);
      assert all[i] in all;
      if active.Err? {
        return Err(HolderIo(name));
      }
      if active.value != [] {
        return Err(Holders(all[i].path, active.value));
      }
    }
    return Ok(());
  }

  /** The mountpoints of the disk, each once, in the order they are unmounted. */
  method UnmountOrder(nodes: seq<Node>, all: seq<Node>) returns (mounts: seq<string>)
    requires all == Preorder(nodes)
    ensures Distinct(mounts) && DeepestFirst(nodes, mounts)
    ensures forall m :: m in mounts <==> Mountpoint(nodes, m)
  {
    hide InOrder, Preorder;
    var found := MountsOf(all);
    OrderIsTotalOrder();
    var sorted := Sort(InOrder, found);
    forall m ensures m in sorted <==> Mountpoint(nodes, m) {
      assert m in sorted <==> m in multiset(sorted);
      assert m in found <==> m in multiset(found);
    }
    mounts := Dedup(sorted);
    forall i, inner | 0 <= i < |mounts| && inner in mounts && StrictlyBeneath(inner, mounts[i])
      ensures inner in mounts[..i]
    {
      BeneathComesFirst(mounts, i, inner);
    }
  }

  lemma PrefixIsDeepestFirst(nodes: seq<Node>, mounts: seq<string>, n: nat)
    requires n <= |mounts| && Distinct(mounts) && DeepestFirst(nodes, mounts)
    ensures Distinct(mounts[..n]) && DeepestFirst(nodes, mounts[..n])
  {
    hide Mountpoint, StrictlyBeneath;
    forall i, inner | 0 <= i < n && Mountpoint(nodes, inner) && StrictlyBeneath(inner, mounts[..n][i])
      ensures inner in mounts[..n][..i]
    {
      assert mounts[..n][..i] == mounts[..i];
    }
  }

  /** One `umount` after another, up to the first failure. */
  method UnmountAll(mounts: seq<string>, unmounts: nat -> bool) returns (ok: bool, attempts: seq<string>)
    ensures |attempts| <= |mounts| && attempts == mounts[..|attempts|]
    ensures ok ==> attempts == mounts
    ensures !ok ==> attempts != [] && !unmounts(|attempts| - 1)
    ensures forall i :: 0 <= i < |attempts| - 1 ==> unmounts(i)
  {
    attempts := [];
    for i := 0 to |mounts|
      invariant attempts == mounts[..i]
      invariant forall k :: 0 <= k < i ==> unmounts(k)
    {
      attempts := attempts + [mounts[i]];
      if !unmounts(i) {
        return false, attempts;
      }
    }
    return true, attempts;
  }

  method FirstMount(nodes: seq<Node>) returns (r: Option<string>)
    ensures r.Some? ==> Mountpoint(nodes, r.value)
    ensures r.None? ==> forall m :: !Mountpoint(nodes, m)
  {
    var remaining := FlattenAll(nodes);
    for i := 0 to |remaining|
      invariant forall k :: 0 <= k < i ==> remaining[k].mountpoint.None?
    {
      if remaining[i].mountpoint.Some? {
        assert remaining[i] in Preorder(nodes);
        return remaining[i].mountpoint;
      }
    }
    return None;
  }

  /**
   * `quiesce_disk`; `attempts` are the mountpoints `umount` was called on, in order, and `unmounts(i)`
   * says whether the i-th call succeeds. `after` is what the topology reads as afterwards.
   */
  method QuiesceDisk(
    before: Result<seq<Node>, ()>, swaps: Result<seq<string>, ()>, holders: string -> Result<seq<string>, ()>,
    unmounts: nat -> bool, after: Result<seq<Node>, ()>)
    returns (r: Result<(), QuiescenceError>, attempts: seq<string>)
    ensures before.Err? || swaps.Err? ==> r == Err(CommandFailed) && attempts == []
    ensures before.Ok? && swaps.Ok? && InUse(before.value, swaps.value, holders) ==> r.Err? && attempts == []
    ensures Distinct(attempts)
    ensures forall m :: m in attempts ==> before.Ok? && Mountpoint(before.value, m)
    ensures before.Ok? ==> DeepestFirst(before.value, attempts)
    ensures forall i :: 0 <= i < |attempts| - 1 ==> unmounts(i)
    ensures r.Ok? ==> && (forall m :: Mountpoint(before.value, m) ==> m in attempts)
                      && after.Ok? && forall m :: !Mountpoint(after.value, m)
    ensures r.Err? && r.error.Mounted? ==> after.Ok? && Mountpoint(after.value, r.error.mountpoint)
    ensures before.Ok? && swaps.Ok? && !InUse(before.value, swaps.value, holders) && (forall i :: unmounts(i))
            ==> (r.Ok? <==> after.Ok? && forall m :: !Mountpoint(after.value, m))
  {
    hide Preorder, Mountpoint, InOrder, StrictlyBeneath;
    attempts := [];
    if before.Err? || swaps.Err? {
      return Err(CommandFailed), attempts;
    }
    var all := FlattenAll(before.value);
    var unused := CheckUnused(all, swaps.value, holders);
    if unused.Err? {
      return Err(unused.error), attempts;
    }
    var mounts := UnmountOrder(before.value, all);
    var ok;
    ok, attempts := UnmountAll(mounts, unmounts);
    PrefixIsDeepestFirst(before.value, mounts, |attempts|);
    if !ok || after.Err? {
      return Err(CommandFailed), attempts;
    }
    var remaining := FirstMount(after.value);
    if remaining.Some? {
      return Err(Mounted(remaining.value)), attempts;
    }
    return Ok(()), attempts;
  }
}
