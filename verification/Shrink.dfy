/** The ordered, fail-closed shrink transaction and the check that closes it. */
module Shrink {
  import opened Basics
  import opened Mbr
  import opened MbrLaws

  datatype Ext4Geometry = Ext4Geometry(minimumBytes: U64, currentBytes: U64, blockSize: U64)

  datatype ShrinkRequest = ShrinkRequest(
    partitionNumber: nat,
    rootStartLba: U64,
    rootEndLba: U64,
    targetFilesystemKib: U64,
    deviceSizeBytes: U64,
    logicalSectorSize: U64,
    original: seq<Partition>)

  datatype PostShrinkError =
    | InvalidSectorSize
    | OriginalRootMissing
    | RootMissing
    | Disappeared(number: nat)
    | Changed(number: nat)
    | CountChanged
    | RootIdentityChanged
    | EndNotApplied
    | PartitionSizeOverflow
    | FilesystemExceedsPartition
    | TargetOverflow
    | SizeMismatch

  // ----- validate_post_shrink -----

  /** What the check says about one original entry, the root apart. */
  function Disturbed(p: Partition, number: nat, changed: seq<Partition>): Option<PostShrinkError> {
    if p.number == number then None
    else
      match Find(changed, p.number)
      case None => Some(Disappeared(p.number))
      case Some(current) => if current != p then Some(PostShrinkError.Changed(p.number)) else None
  }

  /** The complaint about the first original entry that has one. */
  function FirstDisturbed(original: seq<Partition>, number: nat, changed: seq<Partition>)
    : Option<PostShrinkError>
  {
    if original == [] then None
    else
      var first := Disturbed(original[0], number, changed);
      if first.Some? then first else FirstDisturbed(original[1..], number, changed)
  }

  function RootVerdict(request: ShrinkRequest, originalRoot: Partition, changedRoot: Partition, geometry: Ext4Geometry)
    : Result<(), PostShrinkError>
  {
    if || changedRoot.startLba != originalRoot.startLba || changedRoot.startLba != request.rootStartLba
       || changedRoot.typeCode != originalRoot.typeCode || changedRoot.kind != originalRoot.kind
       || changedRoot.bootable != originalRoot.bootable
    then Err(RootIdentityChanged)
    else if changedRoot.endLba != request.rootEndLba then Err(EndNotApplied)
    else
      var partitionBytes :- Checked(changedRoot.sectors * request.logicalSectorSize, PartitionSizeOverflow);
      if geometry.currentBytes > partitionBytes then Err(FilesystemExceedsPartition)
      else
        var targetBytes :- Checked(request.targetFilesystemKib * 1024, TargetOverflow);
        if geometry.currentBytes > targetBytes
           || SaturatingSub(targetBytes, geometry.currentBytes) >= geometry.blockSize
        then Err(SizeMismatch)
        else Ok(())
  }

  function Verdict(request: ShrinkRequest, changed: seq<Partition>, geometry: Ext4Geometry)
    : Result<(), PostShrinkError>
  {
    if request.logicalSectorSize == 0 then Err(InvalidSectorSize)
    else if Find(request.original, request.partitionNumber).None? then Err(OriginalRootMissing)
    else if Find(changed, request.partitionNumber).None? then Err(RootMissing)
    else if FirstDisturbed(request.original, request.partitionNumber, changed).Some? then
      Err(FirstDisturbed(request.original, request.partitionNumber, changed).value)
    else if |changed| != |request.original| then Err(CountChanged)
    else
      RootVerdict(request, Find(request.original, request.partitionNumber).value,
                  Find(changed, request.partitionNumber).value, geometry)
  }

  method ValidatePostShrink(request: ShrinkRequest, changed: seq<Partition>, geometry: Ext4Geometry)
    returns (r: Result<(), PostShrinkError>)
    ensures r == Verdict(request, changed, geometry)
  {
    if request.logicalSectorSize == 0 {
      return Err(InvalidSectorSize);
    }
    var originalRoot := Find(request.original, request.partitionNumber);
    if originalRoot.None? {
      return Err(OriginalRootMissing);
    }
    var changedRoot := Find(changed, request.partitionNumber);
    if changedRoot.None? {
      return Err(RootMissing);
    }
    for i := 0 to |request.original|
      invariant FirstDisturbed(request.original, request.partitionNumber, changed)
                == FirstDisturbed(request.original[i..], request.partitionNumber, changed)
    {
      var original := request.original[i];
      if original.number != request.partitionNumber {
        var current := Find(changed, original.number);
        if current.None? {
          return Err(Disappeared(original.number));
        }
        if current.value != original {
          return Err(PostShrinkError.Changed(original.number));
        }
      }
    }
    if |changed| != |request.original| {
      return Err(CountChanged);
    }
    return RootVerdict(request, originalRoot.value, changedRoot.value, geometry);
  }

  // ----- The check is exact -----

  lemma {:induction false} UndisturbedMeans(original: seq<Partition>, number: nat, changed: seq<Partition>)
    ensures FirstDisturbed(original, number, changed).None? <==>
            forall p :: p in original && p.number != number ==> Find(changed, p.number) == Some(p)
  {
    if original != [] {
      UndisturbedMeans(original[1..], number, changed);
      assert original == [original[0]] + original[1..];
      assert original[0] in original;
    }
  }

  /** Two ascending lists of one length, the first's members among the second's, are one list. */
  lemma {:induction false} AscendingSublist(a: seq<Partition>, b: seq<Partition>)
    requires Ascending(a) && Ascending(b) && forall p :: p in a ==> p in b
    ensures |a| <= |b| && (|a| == |b| ==> a == b)
  {
    if a != [] {
      var a', p := a[..|a| - 1], a[|a| - 1];
      assert p in a;
      var j :| 0 <= j < |b| && b[j] == p;
      forall q | q in a' ensures q in b[..j] {
        assert q in a;
        var k :| 0 <= k < |b| && b[k] == q;
        assert k < j;
        assert b[..j][k] == q;
      }
      AscendingSublist(a', b[..j]);
    }
  }

  lemma MovedMembers(ps: seq<Partition>, number: nat, endLba: nat)
    requires Ascending(ps)
    ensures Ascending(WithEnd(ps, number, endLba))
    ensures forall p :: p in ps ==> Moved(p, number, endLba) in WithEnd(ps, number, endLba)
    ensures forall q :: q in WithEnd(ps, number, endLba) ==>
                          exists p :: p in ps && q == Moved(p, number, endLba)
  {
    var moved := WithEnd(ps, number, endLba);
    forall i, j | 0 <= i < j < |moved| ensures moved[i].number < moved[j].number {
      assert ps[i].number < ps[j].number;
    }
    forall p | p in ps ensures Moved(p, number, endLba) in moved {
      var i :| 0 <= i < |ps| && ps[i] == p;
      assert moved[i] == Moved(p, number, endLba);
    }
    forall q | q in moved ensures exists p :: p in ps && q == Moved(p, number, endLba) {
      var i :| 0 <= i < |moved| && moved[i] == q;
      assert ps[i] in ps;
    }
  }

  /** The planned table, with room in the root for a filesystem of the asked size. */
  ghost predicate AppliedExactly(request: ShrinkRequest, changed: seq<Partition>, geometry: Ext4Geometry) {
    var root := Find(request.original, request.partitionNumber);
    && request.logicalSectorSize > 0
    && root.Some? && root.value.startLba == request.rootStartLba <= request.rootEndLba
    && changed == WithEnd(request.original, request.partitionNumber, request.rootEndLba)
    && GeometryFits(request, geometry)
  }

  predicate GeometryFits(request: ShrinkRequest, geometry: Ext4Geometry) {
    var partitionBytes := (request.rootEndLba + 1 - request.rootStartLba) * request.logicalSectorSize;
    var targetBytes := request.targetFilesystemKib * 1024;
    && geometry.currentBytes <= partitionBytes <= MAX_U64
    && geometry.currentBytes <= targetBytes <= MAX_U64
    && targetBytes - geometry.currentBytes < geometry.blockSize
  }

  /**
   * On tables that came out of the parser the post-shrink check accepts exactly the planned outcome:
   * the original list in its order with only the root's end and length replaced.
   */
  lemma ValidationIsExact(
    request: ShrinkRequest, changed: seq<Partition>, geometry: Ext4Geometry, total: nat, total': nat)
    requires Valid(request.original, total) && Valid(changed, total')
    ensures Verdict(request, changed, geometry).Ok? <==> AppliedExactly(request, changed, geometry)
  {
    var number, endLba := request.partitionNumber, request.rootEndLba;
    var root, root' := Find(request.original, number), Find(changed, number);
    if root.Some? && root'.Some? {
      TableExact(request.original, number, endLba, changed, total, total');
      RootExact(request, root.value, root'.value, geometry);
    }
    if root.Some? && changed == WithEnd(request.original, number, endLba) {
      RootSurvives(request.original, number, endLba, root.value);
    }
    hide FirstDisturbed, WithEnd, RootVerdict, Valid, GeometryFits, Ascending, Find, Moved;
  }

  lemma RootSurvives(original: seq<Partition>, number: nat, endLba: nat, root: Partition)
    requires Ascending(original) && root in original && root.number == number
    ensures Find(WithEnd(original, number, endLba), number) == Some(Moved(root, number, endLba))
  {
    MovedMembers(original, number, endLba);
    FindMember(WithEnd(original, number, endLba), Moved(root, number, endLba));
  }

  lemma TableExact(original: seq<Partition>, number: nat, endLba: nat, changed: seq<Partition>, total: nat, total': nat)
    requires Valid(original, total) && Valid(changed, total')
    requires Find(original, number).Some? && Find(changed, number).Some?
    ensures changed == WithEnd(original, number, endLba) <==>
            && FirstDisturbed(original, number, changed).None? && |changed| == |original|
            && Find(changed, number).value == Moved(Find(original, number).value, number, endLba)
  {
    var moved := WithEnd(original, number, endLba);
    UndisturbedMeans(original, number, changed);
    MovedMembers(original, number, endLba);
    if FirstDisturbed(original, number, changed).None? && |changed| == |original|
       && Find(changed, number).value == Moved(Find(original, number).value, number, endLba)
    {
      forall q | q in moved ensures q in changed {
        var p :| p in original && q == Moved(p, number, endLba);
        if p.number == number {
          FindMember(original, p);
        }
      }
      AscendingSublist(moved, changed);
    }
    if changed == moved {
      forall p | p in original ensures Find(changed, p.number) == Some(Moved(p, number, endLba)) {
        FindMember(changed, Moved(p, number, endLba));
      }
    }
  }

  lemma RootExact(request: ShrinkRequest, root: Partition, root': Partition, geometry: Ext4Geometry)
    requires root.number == root'.number == request.partitionNumber
    requires root.kind == Classify(root.typeCode) && root'.kind == Classify(root'.typeCode)
    requires root'.startLba <= root'.endLba == root'.startLba + root'.sectors - 1
    ensures RootVerdict(request, root, root', geometry).Ok? <==>
            && root' == Moved(root, request.partitionNumber, request.rootEndLba)
            && root.startLba == request.rootStartLba <= request.rootEndLba
            && GeometryFits(request, geometry)
  {
    hide Classify;
  }
}
