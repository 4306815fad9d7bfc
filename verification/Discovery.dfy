/** Choosing USB disks that are safe to image from the block-device forest and the mount table. */
module Discovery {
  import opened Basics
  import opened Paths
  import opened Preparation
  import opened Sorting
  import opened Text

  datatype BlockDevice = BlockDevice(
    path: string,
    kind: string,
    size: U64,
    logicalSectorSize: U64,
    tran: Option<string>,
    model: Option<string>,
    serial: Option<string>,
    majorMinor: string,
    removable: bool,
    fstype: Option<string>,
    children: seq<BlockDevice>)

  datatype Mount = Mount(target: string, source: string)

  datatype DiscoveryError = OutputPathNotAbsolute

  // ----- Trees -----

  /** `node` is `root` or a descendant of it, at any depth. */
  ghost predicate Within(node: BlockDevice, root: BlockDevice)
    decreases root
  {
    node == root || exists i :: 0 <= i < |root.children| && Within(node, root.children[i])
  }

  ghost predicate Holds(root: BlockDevice, path: string) {
    exists node :: Within(node, root) && node.path == path
  }

  ghost predicate HasSwap(root: BlockDevice) {
    exists node :: Within(node, root) && node.fstype == Some("swap")
  }

  predicate ContainsSwap(device: BlockDevice)
    decreases device
  {
    device.fstype == Some("swap") || exists i :: 0 <= i < |device.children| && ContainsSwap(device.children[i])
  }

  lemma {:induction false} ContainsSwapAtAnyDepth(device: BlockDevice)
    ensures ContainsSwap(device) <==> HasSwap(device)
    decreases device
  {
    forall i | 0 <= i < |device.children| ensures ContainsSwap(device.children[i]) <==> HasSwap(device.children[i]) {
      ContainsSwapAtAnyDepth(device.children[i]);
    }
    if device.fstype == Some("swap") {
      assert Within(device, device);
    }
    if i :| 0 <= i < |device.children| && ContainsSwap(device.children[i]) {
      var node :| Within(node, device.children[i]) && node.fstype == Some("swap");
      assert Within(node, device);
    }
    if node :| Within(node, device) && node.fstype == Some("swap") && node != device {
      var i :| 0 <= i < |device.children| && Within(node, device.children[i]);
      assert HasSwap(device.children[i]);
    }
  }

  ghost predicate AnyHolds(devices: seq<BlockDevice>, path: string) {
    exists i :: 0 <= i < |devices| && Holds(devices[i], path)
  }

  lemma HoldsUnfolds(root: BlockDevice, path: string)
    ensures Holds(root, path) <==> root.path == path || AnyHolds(root.children, path)
  {
    assert Within(root, root);
    if node :| Within(node, root) && node.path == path && node != root {
      var i :| 0 <= i < |root.children| && Within(node, root.children[i]);
      assert Holds(root.children[i], path);
    }
    if AnyHolds(root.children, path) {
      var i :| 0 <= i < |root.children| && Holds(root.children[i], path);
      var node :| Within(node, root.children[i]) && node.path == path;
      assert Within(node, root);
    }
  }

  lemma AnyHoldsExtends(devices: seq<BlockDevice>, n: nat, path: string)
    requires n < |devices|
    ensures AnyHolds(devices[..n + 1], path) <==> AnyHolds(devices[..n], path) || Holds(devices[n], path)
  {
    if i :| 0 <= i < n && Holds(devices[i], path) {
      assert Holds(devices[..n + 1][i], path) && Holds(devices[..n][i], path);
    }
    assert Holds(devices[n], path) ==> Holds(devices[..n + 1][n], path);
  }

  /** `index_children`: every path of the tree now leads to `disk`, whatever it led to before. */
  method IndexChildren(device: BlockDevice, disk: string, index: map<string, string>)
    returns (updated: map<string, string>)
    ensures forall p :: p in updated <==> p in index || Holds(device, p)
    ensures forall p :: p in updated ==> updated[p] == if Holds(device, p) then disk else index[p]
    decreases device
  {
    hide Holds, AnyHolds;
    updated := index[device.path := disk];
    forall p ensures AnyHolds(device.children[..0], p) <==> false {
      NothingHolds(p);
    }
    for i := 0 to |device.children|
      invariant forall p :: p in updated <==> p in index || p == device.path || AnyHolds(device.children[..i], p)
      invariant forall p :: p in updated ==>
        updated[p] == if p == device.path || AnyHolds(device.children[..i], p) then disk else index[p]
    {
      updated := IndexChildren(device.children[i], disk, updated);
      forall p ensures AnyHolds(device.children[..i + 1], p)
                       <==> AnyHolds(device.children[..i], p) || Holds(device.children[i], p) {
        AnyHoldsExtends(device.children, i, p);
      }
    }
    assert device.children[..|device.children|] == device.children;
    forall p ensures Holds(device, p) <==> device.path == p || AnyHolds(device.children, p) {
      HoldsUnfolds(device, p);
    }
  }

  lemma NothingHolds(path: string)
    ensures !AnyHolds([], path)
  {
  }

  // ----- What the code decides -----

  /** The path of the last disk that holds `path`: what the index ends up with. */
  ghost function LastHolder(disks: seq<BlockDevice>, path: string): (r: Option<string>)
    ensures r.Some? <==> AnyHolds(disks, path)
    ensures r.Some? ==> exists i :: 0 <= i < |disks| && Holds(disks[i], path) && disks[i].path == r.value
  {
    if disks == [] then None
    else
      var last, rest := disks[|disks| - 1], disks[..|disks| - 1];
      assert AnyHolds(disks, path) <==> AnyHolds(rest, path) || Holds(last, path) by {
        AnyHoldsExtends(disks, |rest|, path);
        assert disks[..|disks|] == disks;
      }
      if Holds(last, path) then Some(last.path) else LastHolder(rest, path)
  }

  ghost function Owner(disks: seq<BlockDevice>, source: string): string {
    var holder := LastHolder(disks, source);
    if holder.Some? then holder.value else source
  }

  /** A mount the running system or the output file needs. */
  predicate Protected(mount: Mount, output: Option<string>) {
    mount.target in {"/", "/boot", "/boot/efi"} || (output.Some? && StartsWith(output.value, mount.target))
  }

  ghost predicate Swapped(disks: seq<BlockDevice>, path: string) {
    exists i :: 0 <= i < |disks| && disks[i].path == path && HasSwap(disks[i])
  }

  ghost predicate OwnsMount(disks: seq<BlockDevice>, mounts: seq<Mount>, output: Option<string>, path: string) {
    exists k :: 0 <= k < |mounts| && Protected(mounts[k], output) && Owner(disks, mounts[k].source) == path
  }

  ghost predicate Excluded(disks: seq<BlockDevice>, mounts: seq<Mount>, output: Option<string>, path: string) {
    Swapped(disks, path) || OwnsMount(disks, mounts, output, path)
  }

  predicate ValidSdPath(path: string) {
    match FileName(path)
    case None => false
    case Some(name) => |name| >= 3 && name[..2] == "sd" && forall i :: 2 <= i < |name| ==> 'a' <= name[i] <= 'z'
  }

  predicate Eligible(device: BlockDevice) {
    device.kind == "disk" && ValidSdPath(device.path) && device.tran == Some("usb") && device.logicalSectorSize == 512
  }

  function OrEmpty(s: Option<string>): string {
    if s.Some? then s.value else ""
  }

  function Identity(device: BlockDevice): DeviceIdentity {
    DeviceIdentity(
      device.path, device.majorMinor, Trim(OrEmpty(device.serial)), Trim(OrEmpty(device.model)), device.size,
      device.logicalSectorSize, OrEmpty(device.tran), device.removable)
  }

  /** The identities of the disks that pass the filters, in listing order. */
  ghost function Kept(disks: seq<BlockDevice>, excluded: iset<string>): seq<DeviceIdentity> {
    if disks == [] then []
    else
      var last := disks[|disks| - 1];
      Kept(disks[..|disks| - 1], excluded)
      + if Eligible(last) && last.path !in excluded then [Identity(last)] else []
  }

  ghost function ExcludedPaths(disks: seq<BlockDevice>, mounts: seq<Mount>, output: Option<string>): iset<string> {
    iset p | Excluded(disks, mounts, output, p)
  }

  // ----- The loops -----

  method IndexForest(disks: seq<BlockDevice>) returns (index: map<string, string>, swapped: set<string>)
    ensures forall p :: p in index <==> LastHolder(disks, p).Some?
    ensures forall p :: p in index ==> LastHolder(disks, p) == Some(index[p])
    ensures forall p :: p in swapped <==> Swapped(disks, p)
  {
    hide Holds, HasSwap, AnyHolds;
    index, swapped := map[], {};
    for i := 0 to |disks|
      invariant forall p :: p in index <==> LastHolder(disks[..i], p).Some?
      invariant forall p :: p in index ==> LastHolder(disks[..i], p) == Some(index[p])
      invariant forall p :: p in swapped <==> Swapped(disks[..i], p)
    {
      index := IndexChildren(disks[i], disks[i].path, index);
      assert disks[..i + 1][..i] == disks[..i];
      ContainsSwapAtAnyDepth(disks[i]);
      forall p ensures Swapped(disks[..i + 1], p)
                       <==> Swapped(disks[..i], p) || (p == disks[i].path && HasSwap(disks[i])) {
        SwappedExtends(disks, i, p);
      }
      if ContainsSwap(disks[i]) {
        swapped := swapped + {disks[i].path};
      }
    }
    assert disks[..|disks|] == disks;
  }

  lemma SwappedExtends(disks: seq<BlockDevice>, n: nat, path: string)
    requires n < |disks|
    ensures Swapped(disks[..n + 1], path) <==> Swapped(disks[..n], path) || (path == disks[n].path && HasSwap(disks[n]))
  {
    if i :| 0 <= i < n && disks[i].path == path && HasSwap(disks[i]) {
      assert disks[..n + 1][i] == disks[i] && disks[..n][i] == disks[i];
    }
    assert disks[..n + 1][n] == disks[n];
  }

  method ExcludeOwners(
    disks: seq<BlockDevice>, index: map<string, string>, swapped: set<string>, mounts: seq<Mount>,
    output: Option<string>) returns (excluded: set<string>)
    requires forall p :: p in index <==> LastHolder(disks, p).Some?
    requires forall p :: p in index ==> LastHolder(disks, p) == Some(index[p])
    requires forall p :: p in swapped <==> Swapped(disks, p)
    ensures forall p :: p in excluded <==> Excluded(disks, mounts, output, p)
  {
    hide LastHolder, Protected, Swapped;
    excluded := swapped;
    for k := 0 to |mounts|
      invariant forall p :: p in excluded <==> Swapped(disks, p) || OwnsMount(disks, mounts[..k], output, p)
    {
      var source := mounts[k].source;
      forall p ensures OwnsMount(disks, mounts[..k + 1], output, p)
                       <==> || OwnsMount(disks, mounts[..k], output, p)
                            || (Protected(mounts[k], output) && Owner(disks, source) == p) {
        OwnsMountExtends(disks, mounts, k, output, p);
      }
      if Protected(mounts[k], output) {
        excluded := excluded + {if source in index then index[source] else source};
      }
    }
    assert mounts[..|mounts|] == mounts;
  }

  lemma OwnsMountExtends(disks: seq<BlockDevice>, mounts: seq<Mount>, n: nat, output: Option<string>, path: string)
    requires n < |mounts|
    ensures OwnsMount(disks, mounts[..n + 1], output, path)
            <==> || OwnsMount(disks, mounts[..n], output, path)
                 || (Protected(mounts[n], output) && Owner(disks, mounts[n].source) == path)
  {
    hide Owner, Protected;
    if k :| 0 <= k < n && Protected(mounts[k], output) && Owner(disks, mounts[k].source) == path {
      assert mounts[..n + 1][k] == mounts[k] && mounts[..n][k] == mounts[k];
    }
    assert mounts[..n + 1][n] == mounts[n];
  }

  predicate PathLe(a: DeviceIdentity, b: DeviceIdentity) {
    LexLe(a.path, b.path)
  }

  lemma PathLeIsTotalOrder()
    ensures TotalOrder(PathLe)
  {
    hide LexLe;
    forall a: DeviceIdentity, b: DeviceIdentity ensures PathLe(a, b) || PathLe(b, a) {
      LexTotal(a.path, b.path);
    }
    forall a: DeviceIdentity, b: DeviceIdentity, c: DeviceIdentity | PathLe(a, b) && PathLe(b, c) ensures PathLe(a, c) {
      LexTransitive(a.path, b.path, c.path);
    }
  }

  /** The identity read from a USB disk of 512-byte sectors whose name is sd and lower-case letters. */
  ghost predicate IdentityOf(disk: BlockDevice, d: DeviceIdentity) {
    && d.path == disk.path && d.majorMinor == disk.majorMinor && d.sizeBytes == disk.size
    && d.model == Trim(OrEmpty(disk.model)) && d.serial == Trim(OrEmpty(disk.serial))
    && d.removable == disk.removable && d.transport == "usb" && disk.tran == Some("usb")
    && d.logicalSectorSize == disk.logicalSectorSize == 512
    && exists letters :: Letters(letters) && FileName(disk.path) == Some("sd" + letters)
  }

  predicate Letters(s: string) {
    s != "" && forall i :: 0 <= i < |s| ==> 'a' <= s[i] <= 'z'
  }

  lemma SdNameMeans(path: string)
    ensures ValidSdPath(path) <==> exists letters :: Letters(letters) && FileName(path) == Some("sd" + letters)
  {
    hide FileName;
    if ValidSdPath(path) {
      var name := FileName(path).value;
      assert name == "sd" + name[2..] && Letters(name[2..]);
    }
    if letters :| Letters(letters) && FileName(path) == Some("sd" + letters) {
      var name := "sd" + letters;
      assert name[..2] == "sd";
      assert forall i :: 2 <= i < |name| ==> name[i] == letters[i - 2];
    }
  }

  lemma {:induction false} KeptIsUsbDisk(disks: seq<BlockDevice>, excluded: iset<string>, d: DeviceIdentity)
    requires d in Kept(disks, excluded)
    ensures exists i :: 0 <= i < |disks| && IdentityOf(disks[i], d) && disks[i].kind == "disk"
  {
    KeptIsFiltered(disks, excluded, d);
    var i :| KeptFrom(disks, excluded, i, d);
    SdNameMeans(disks[i].path);
    hide ValidSdPath, Trim, FileName, Kept;
    assert IdentityOf(disks[i], d);
  }

  /** `discover_candidates` on parsed listings. */
  method DiscoverCandidates(disks: seq<BlockDevice>, mounts: seq<Mount>, output: Option<string>)
    returns (r: Result<seq<DeviceIdentity>, DiscoveryError>)
    ensures r.Err? <==> output.Some? && (output.value == "" || output.value[0] != '/')
    ensures r.Ok? ==> forall d :: d in r.value ==>
              exists i :: 0 <= i < |disks| && IdentityOf(disks[i], d) && disks[i].kind == "disk"
    ensures r.Ok? ==> && SortedBy(PathLe, r.value)
                      && multiset(r.value) == multiset(Kept(disks, ExcludedPaths(disks, mounts, output)))
  {
    if output.Some? && (output.value == "" || output.value[0] != '/') {
      return Err(OutputPathNotAbsolute);
    }
    var index, swapped := IndexForest(disks);
    var excluded := ExcludeOwners(disks, index, swapped, mounts, output);
    ghost var paths := ExcludedPaths(disks, mounts, output);
    hide Excluded;
    var candidates := [];
    for i := 0 to |disks|
      invariant candidates == Kept(disks[..i], paths)
    {
      assert disks[..i + 1][..i] == disks[..i];
      if Eligible(disks[i]) && disks[i].path !in excluded {
        candidates := candidates + [Identity(disks[i])];
      }
    }
    assert disks[..|disks|] == disks;
    PathLeIsTotalOrder();
    ghost var kept := candidates;
    candidates := Sort(PathLe, candidates);
    forall d | d in candidates
      ensures exists i :: 0 <= i < |disks| && IdentityOf(disks[i], d) && disks[i].kind == "disk"
    {
      assert d in multiset(candidates) && d in kept;
      KeptIsUsbDisk(disks, paths, d);
    }
    return Ok(candidates);
  }

  // ----- What the decisions mean -----

  /** Something beneath the disk is swap, or the source of a protected mount. */
  ghost predicate Touches(disk: BlockDevice, mounts: seq<Mount>, output: Option<string>) {
    HasSwap(disk) || exists k :: 0 <= k < |mounts| && Protected(mounts[k], output) && Holds(disk, mounts[k].source)
  }

  ghost predicate Offered(disks: seq<BlockDevice>, mounts: seq<Mount>, output: Option<string>, i: int)
    requires 0 <= i < |disks|
  {
    Eligible(disks[i]) && disks[i].path !in ExcludedPaths(disks, mounts, output)
  }

  /** No offered disk is in use anywhere in its tree. */
  ghost predicate Safe(disks: seq<BlockDevice>, mounts: seq<Mount>, output: Option<string>) {
    forall i :: 0 <= i < |disks| && Offered(disks, mounts, output, i) ==> !Touches(disks[i], mounts, output)
  }

  ghost predicate KeptFrom(disks: seq<BlockDevice>, excluded: iset<string>, i: int, d: DeviceIdentity) {
    0 <= i < |disks| && Eligible(disks[i]) && disks[i].path !in excluded && Identity(disks[i]) == d
  }

  /** The result holds exactly the disks that pass the filters. */
  lemma {:induction false} KeptIsFiltered(disks: seq<BlockDevice>, excluded: iset<string>, d: DeviceIdentity)
    ensures d in Kept(disks, excluded) <==> exists i :: KeptFrom(disks, excluded, i, d)
  {
    hide Eligible, Identity;
    if disks != [] {
      var n := |disks| - 1;
      KeptIsFiltered(disks[..n], excluded, d);
      forall i | 0 <= i < n ensures KeptFrom(disks[..n], excluded, i, d) <==> KeptFrom(disks, excluded, i, d) {
        assert disks[..n][i] == disks[i];
      }
      assert KeptFrom(disks, excluded, n, d)
             <==> Eligible(disks[n]) && disks[n].path !in excluded && Identity(disks[n]) == d;
    }
  }

  /** Every path of an eligible disk without swap leads back to that disk in the index. */
  ghost predicate OwnersStand(disks: seq<BlockDevice>) {
    forall i, p :: 0 <= i < |disks| && Eligible(disks[i]) && !Swapped(disks, disks[i].path) && Holds(disks[i], p)
                   ==> LastHolder(disks, p) == Some(disks[i].path)
  }

  lemma SafeWhenOwnersStand(disks: seq<BlockDevice>, mounts: seq<Mount>, output: Option<string>)
    requires OwnersStand(disks)
    ensures Safe(disks, mounts, output)
  {
    hide Eligible, Protected, Holds, HasSwap, LastHolder;
    forall i | 0 <= i < |disks| && Offered(disks, mounts, output, i) ensures !Touches(disks[i], mounts, output) {
      assert !Excluded(disks, mounts, output, disks[i].path);
      assert !HasSwap(disks[i]);
      forall k | 0 <= k < |mounts| && Holds(disks[i], mounts[k].source)
        ensures Owner(disks, mounts[k].source) == disks[i].path {
      }
    }
  }

  /** A path that leads to another disk, mounted at the root, makes the listing offer a disk in use. */
  lemma UnsafeOtherwise(disks: seq<BlockDevice>, i: nat, p: string)
    requires i < |disks| && Eligible(disks[i]) && !Swapped(disks, disks[i].path) && Holds(disks[i], p)
    requires LastHolder(disks, p) != Some(disks[i].path)
    ensures !Safe(disks, [Mount("/", p)], None)
  {
    hide Eligible, Holds, HasSwap;
    var mounts := [Mount("/", p)];
    assert Protected(mounts[0], None);
    assert AnyHolds(disks, p);
    assert Owner(disks, p) != disks[i].path;
    assert Offered(disks, mounts, None, i);
    assert Touches(disks[i], mounts, None);
  }

  /** The listing is safe for every mount table and output exactly when the index keeps every disk's paths. */
  lemma SafeExactly(disks: seq<BlockDevice>)
    ensures OwnersStand(disks) <==> forall mounts, output :: Safe(disks, mounts, output)
  {
    hide Safe, LastHolder, Holds, Eligible, Swapped;
    if OwnersStand(disks) {
      forall mounts, output ensures Safe(disks, mounts, output) {
        SafeWhenOwnersStand(disks, mounts, output);
      }
    } else {
      var i, p :| 0 <= i < |disks| && Eligible(disks[i]) && !Swapped(disks, disks[i].path) && Holds(disks[i], p)
                  && LastHolder(disks, p) != Some(disks[i].path);
      UnsafeOtherwise(disks, i, p);
    }
  }

  /** No path appears beneath two disks. */
  ghost predicate UniquePaths(disks: seq<BlockDevice>) {
    forall i, j, p :: 0 <= i < j < |disks| && Holds(disks[i], p) ==> !Holds(disks[j], p)
  }

  lemma UniqueHolder(disks: seq<BlockDevice>, i: nat, p: string)
    requires UniquePaths(disks) && i < |disks| && Holds(disks[i], p)
    ensures LastHolder(disks, p) == Some(disks[i].path)
    ensures forall j :: 0 <= j < |disks| && Holds(disks[j], p) ==> j == i
  {
    hide Holds;
    assert AnyHolds(disks, p);
  }

  ghost predicate FreeDisk(
    disks: seq<BlockDevice>, mounts: seq<Mount>, output: Option<string>, i: int, d: DeviceIdentity)
  {
    0 <= i < |disks| && Eligible(disks[i]) && !Touches(disks[i], mounts, output) && Identity(disks[i]) == d
  }

  /** With unique paths exactly the eligible disks not in use are kept, whatever is mounted. */
  lemma CandidatesExactly(disks: seq<BlockDevice>, mounts: seq<Mount>, output: Option<string>, d: DeviceIdentity)
    requires UniquePaths(disks)
    ensures d in Kept(disks, ExcludedPaths(disks, mounts, output))
            <==> exists i :: FreeDisk(disks, mounts, output, i, d)
  {
    hide Eligible, Identity, Touches, Excluded, UniquePaths;
    var excluded := ExcludedPaths(disks, mounts, output);
    KeptIsFiltered(disks, excluded, d);
    forall i ensures KeptFrom(disks, excluded, i, d) <==> FreeDisk(disks, mounts, output, i, d) {
      if 0 <= i < |disks| {
        ExcludedMeansTouched(disks, mounts, output, i);
      }
    }
  }

  lemma ExcludedMeansTouched(disks: seq<BlockDevice>, mounts: seq<Mount>, output: Option<string>, i: nat)
    requires UniquePaths(disks) && i < |disks|
    ensures Excluded(disks, mounts, output, disks[i].path) <==> Touches(disks[i], mounts, output)
  {
    hide Protected, HasSwap, LastHolder;
    forall j | 0 <= j < |disks| ensures Holds(disks[j], disks[j].path) {
      assert Within(disks[j], disks[j]);
    }
    UniqueHolder(disks, i, disks[i].path);
    hide Holds, UniquePaths;
    if Swapped(disks, disks[i].path) {
      assert HasSwap(disks[i]);
    }
    forall k | 0 <= k < |mounts| && Protected(mounts[k], output)
      ensures Owner(disks, mounts[k].source) == disks[i].path <==> Holds(disks[i], mounts[k].source)
    {
      OwnerHolds(disks, i, mounts[k].source);
    }
  }

  lemma OwnerHolds(disks: seq<BlockDevice>, i: nat, source: string)
    requires UniquePaths(disks) && i < |disks|
    ensures Owner(disks, source) == disks[i].path <==> Holds(disks[i], source)
  {
    forall j | 0 <= j < |disks| ensures Holds(disks[j], disks[j].path) {
      assert Within(disks[j], disks[j]);
    }
    hide Holds;
    UniqueHolder(disks, i, disks[i].path);
    if Holds(disks[i], source) {
      UniqueHolder(disks, i, source);
    }
  }

  /** Of two disks that hold the mounted path, only the later one is withheld. */
  lemma EarlierHolderIsOffered(first: BlockDevice, second: BlockDevice, p: string)
    requires Eligible(first) && !HasSwap(first) && !HasSwap(second) && first.path != second.path
    requires Holds(first, p) && Holds(second, p)
    ensures !Safe([first, second], [Mount("/", p)], None)
  {
    hide Eligible, Holds, HasSwap, Safe;
    var disks := [first, second];
    assert LastHolder(disks, p) == Some(second.path);
    assert !Swapped(disks, disks[0].path);
    UnsafeOtherwise(disks, 0, p);
  }

  function Mirror(): BlockDevice {
    BlockDevice("/dev/md0", "raid1", 0, 512, None, None, None, "", false, None, [])
  }

  /** A stick whose whole surface belongs to the mirror. */
  function Stick(path: string): BlockDevice {
    BlockDevice(path, "disk", 0, 512, Some("usb"), None, None, "", true, None, [Mirror()])
  }

  lemma StickHoldsMirror(path: string)
    ensures Holds(Stick(path), Mirror().path) && !HasSwap(Stick(path))
  {
    assert Within(Mirror(), Stick(path).children[0]);
    assert Within(Mirror(), Stick(path));
    assert forall node :: Within(node, Stick(path)) ==> node.fstype == None;
  }

  /** A mirror over two sticks that carries the root file system: the first stick is offered. */
  lemma SharedPathIsOffered()
    ensures !Safe([Stick("/dev/sda"), Stick("/dev/sdb")], [Mount("/", Mirror().path)], None)
  {
    var a, b := "/dev/sda", "/dev/sdb";
    SdaIsEligible(Stick(a));
    StickHoldsMirror(a);
    StickHoldsMirror(b);
    assert a[7] != b[7];
    hide *;
    assert Stick(a).path == a && Stick(b).path == b by {
      StickPath(a);
      StickPath(b);
    }
    EarlierHolderIsOffered(Stick(a), Stick(b), Mirror().path);
  }

  lemma StickPath(path: string)
    ensures Stick(path).path == path
  {
  }

  /** Every USB disk of 512-byte sectors named /dev/sd and lower-case letters passes the filters. */
  lemma UsbDiskIsEligible(d: BlockDevice, letters: string)
    requires Letters(letters) && d.path == "/dev/" + "sd" + letters
    requires d.kind == "disk" && d.tran == Some("usb") && d.logicalSectorSize == 512
    ensures Eligible(d)
  {
    hide Components, ValidSdPath;
    var name := "sd" + letters;
    assert '/' !in name;
    assert "/dev" + "/" + name == d.path;
    JoinedIsBeneath("/dev", name);
    assert name[0] == 's' && name != "." && name != "..";
    assert FileName(d.path) == Some(name);
    SdNameMeans(d.path);
  }

  lemma SdaIsEligible(d: BlockDevice)
    requires d.path == "/dev/sda" && d.kind == "disk" && d.tran == Some("usb") && d.logicalSectorSize == 512
    ensures Eligible(d)
  {
    assert "/dev/" + "sd" + "a" == "/dev/sda";
    UsbDiskIsEligible(d, "a");
  }

  // ----- What is withheld, in terms of the mounts alone -----

  lemma WithheldWhenProtected(
    disks: seq<BlockDevice>, mounts: seq<Mount>, output: Option<string>, i: nat, k: nat)
    requires UniquePaths(disks) && i < |disks| && k < |mounts| && Holds(disks[i], mounts[k].source)
    requires Protected(mounts[k], output)
    ensures disks[i].path in ExcludedPaths(disks, mounts, output)
  {
    hide UniquePaths, Holds, Protected, HasSwap, Excluded;
    ExcludedMeansTouched(disks, mounts, output, i);
  }

  /** The disk that would receive the output is never offered, whatever partition of it is mounted where. */
  lemma OutputDiskIsWithheld(disks: seq<BlockDevice>, mounts: seq<Mount>, i: nat, k: nat, name: string)
    requires UniquePaths(disks) && i < |disks| && k < |mounts| && Holds(disks[i], mounts[k].source)
    requires mounts[k].target != "" && mounts[k].target[0] == '/'
    requires '/' !in name && name != "" && name != "."
    ensures disks[i].path in ExcludedPaths(disks, mounts, Some(mounts[k].target + "/" + name))
  {
    hide UniquePaths, Holds, ExcludedPaths, Components;
    JoinedIsBeneath(mounts[k].target, name);
    WithheldWhenProtected(disks, mounts, Some(mounts[k].target + "/" + name), i, k);
  }

  /** Nor is a disk behind the running system's root or boot directories, whatever the output. */
  lemma SystemDiskIsWithheld(
    disks: seq<BlockDevice>, mounts: seq<Mount>, output: Option<string>, i: nat, k: nat)
    requires UniquePaths(disks) && i < |disks| && k < |mounts| && Holds(disks[i], mounts[k].source)
    requires mounts[k].target == "/" || mounts[k].target == "/boot" || mounts[k].target == "/boot/efi"
    ensures disks[i].path in ExcludedPaths(disks, mounts, output)
  {
    hide UniquePaths, Holds, ExcludedPaths;
    WithheldWhenProtected(disks, mounts, output, i, k);
  }

  /** A mount that is none of these and does not contain the output withholds nothing. */
  lemma OtherMountWithholdsNothing(
    disks: seq<BlockDevice>, mounts: seq<Mount>, output: Option<string>, i: nat)
    requires UniquePaths(disks) && i < |disks| && !HasSwap(disks[i])
    requires forall k :: 0 <= k < |mounts| && Holds(disks[i], mounts[k].source) ==>
               && mounts[k].target != "/" && mounts[k].target != "/boot" && mounts[k].target != "/boot/efi"
               && (output.Some? ==> !(Components(mounts[k].target) <= Components(output.value)))
    ensures disks[i].path !in ExcludedPaths(disks, mounts, output)
  {
    hide UniquePaths, Holds, HasSwap, Components;
    ExcludedMeansTouched(disks, mounts, output, i);
  }
}
