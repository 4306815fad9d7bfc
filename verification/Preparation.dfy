/** Read-only analysis: root choice, layout class, and everything the destructive part is told. */
module Preparation {
  import opened Basics
  import opened Text
  import opened Mbr
  import opened MbrLaws
  import opened Plan
  import opened Shrink

  const ALIGNMENT: nat := MIB
  const SUPPORTED_SECTOR: nat := 512

  datatype DeviceIdentity = DeviceIdentity(
    path: string,
    majorMinor: string,
    serial: string,
    model: string,
    sizeBytes: U64,
    logicalSectorSize: U64,
    transport: string,
    removable: bool)

  datatype Filesystem = FatFilesystem | Ext4Filesystem | OtherFilesystem(name: string) | UnknownFilesystem

  datatype PartitionEvidence = PartitionEvidence(
    number: nat, filesystem: Filesystem, rootDirectories: seq<string>, bootFiles: seq<string>)

  datatype Profile = RaspberryPi | Odroid
  datatype LayoutClass = Recognized(profile: Profile) | WarningUnknown | Unsupported

  /** `max_by_key(end_lba)`: the last of the partitions with the greatest end. */
  function LastByEnd(ps: seq<Partition>): (root: Partition)
    requires ps != []
    ensures root in ps && forall p :: p in ps ==> p.endLba <= root.endLba
  {
    if |ps| == 1 then ps[0]
    else
      var best, last := LastByEnd(ps[..|ps| - 1]), ps[|ps| - 1];
      assert ps == ps[..|ps| - 1] + [last];
      if last.endLba >= best.endLba then last else best
  }

  /** In a parsed table nothing lies behind the chosen root, or overlaps it. */
  lemma RootIsLast(ps: seq<Partition>, total: nat)
    requires Valid(ps, total) && ps != []
    ensures forall p :: p in ps && p != LastByEnd(ps) ==> p.endLba < LastByEnd(ps).startLba
  {
    hide LastByEnd, Classify;
    var root := LastByEnd(ps);
    var r :| 0 <= r < |ps| && ps[r] == root;
    forall p | p in ps && p != root ensures p.endLba < root.startLba {
      var i :| 0 <= i < |ps| && ps[i] == p;
      assert if i < r then Disjoint(ps[i], ps[r]) else Disjoint(ps[r], ps[i]);
    }
  }

  function EvidenceFor(evidence: seq<PartitionEvidence>, number: nat): (r: Option<PartitionEvidence>)
    ensures r.Some? ==> r.value in evidence && r.value.number == number
  {
    if evidence == [] then None
    else if evidence[0].number == number then Some(evidence[0])
    else EvidenceFor(evidence[1..], number)
  }

  function FirstFat(evidence: seq<PartitionEvidence>): Option<PartitionEvidence> {
    if evidence == [] then None
    else if evidence[0].filesystem.FatFilesystem? then Some(evidence[0])
    else FirstFat(evidence[1..])
  }

  predicate LooksLikeLinuxRoot(item: PartitionEvidence) {
    "etc" in item.rootDirectories && "usr" in item.rootDirectories && "var" in item.rootDirectories
  }

  function ClassifyLayout(ps: seq<Partition>, evidence: seq<PartitionEvidence>): LayoutClass {
    if ps == [] then Unsupported
    else
      var last := LastByEnd(ps);
      match EvidenceFor(evidence, last.number)
      case None => Unsupported
      case Some(root) =>
        if last.kind != Linux || root.filesystem != Ext4Filesystem || !LooksLikeLinuxRoot(root) then Unsupported
        else
          match FirstFat(evidence)
          case None => WarningUnknown
          case Some(boot) =>
            if "config.txt" in boot.bootFiles && exists file :: file in boot.bootFiles && "start" <= file
            then Recognized(RaspberryPi)
            else if "boot.ini" in boot.bootFiles then Recognized(Odroid)
            else WarningUnknown
  }

  /** A layout that is not refused has, as the partition to be shrunk, an ext4 Linux root. */
  lemma AcceptedLayoutHasLinuxRoot(ps: seq<Partition>, evidence: seq<PartitionEvidence>)
    requires !ClassifyLayout(ps, evidence).Unsupported?
    ensures ps != [] && LastByEnd(ps).kind == Linux
    ensures exists item :: && item in evidence && item.number == LastByEnd(ps).number
                           && item.filesystem == Ext4Filesystem && LooksLikeLinuxRoot(item)
  {
    assert EvidenceFor(evidence, LastByEnd(ps).number).Some?;
  }

  /** What the evidence says about one partition: the first item with its number. */
  ghost predicate Evident(evidence: seq<PartitionEvidence>, number: nat, i: int) {
    && 0 <= i < |evidence| && evidence[i].number == number
    && forall j :: 0 <= j < i ==> evidence[j].number != number
  }

  lemma {:induction false} EvidenceIsFirst(evidence: seq<PartitionEvidence>, number: nat)
    ensures EvidenceFor(evidence, number).None? <==> forall item :: item in evidence ==> item.number != number
    ensures EvidenceFor(evidence, number).Some? ==>
              exists i :: Evident(evidence, number, i) && evidence[i] == EvidenceFor(evidence, number).value
    ensures forall i :: Evident(evidence, number, i) ==> EvidenceFor(evidence, number) == Some(evidence[i])
  {
    if evidence != [] {
      EvidenceIsFirst(evidence[1..], number);
      if evidence[0].number == number {
        assert Evident(evidence, number, 0);
      } else {
        forall i ensures Evident(evidence, number, i) <==> i > 0 && Evident(evidence[1..], number, i - 1) {
          assert forall j :: 0 <= j < |evidence| - 1 ==> evidence[1..][j] == evidence[j + 1];
          assert i > 0 && Evident(evidence[1..], number, i - 1) ==>
                   forall j :: 0 <= j < i ==> j == 0 || evidence[j] == evidence[1..][j - 1];
        }
        if i :| Evident(evidence[1..], number, i) {
          assert Evident(evidence, number, i + 1) && evidence[i + 1] == evidence[1..][i];
        }
      }
    }
  }

  /** A Linux partition behind all others whose evidence is an ext4 root directory. */
  ghost predicate LinuxRootLast(ps: seq<Partition>, evidence: seq<PartitionEvidence>) {
    && ps != [] && LastByEnd(ps).kind == Linux
    && exists i :: && Evident(evidence, LastByEnd(ps).number, i) && evidence[i].filesystem == Ext4Filesystem
                   && "etc" in evidence[i].rootDirectories && "usr" in evidence[i].rootDirectories
                   && "var" in evidence[i].rootDirectories
  }

  /** The first FAT partition of the evidence. */
  ghost predicate FirstFatAt(evidence: seq<PartitionEvidence>, i: int) {
    && 0 <= i < |evidence| && evidence[i].filesystem == FatFilesystem
    && forall j :: 0 <= j < i ==> evidence[j].filesystem != FatFilesystem
  }

  lemma {:induction false} FirstFatIsFirst(evidence: seq<PartitionEvidence>)
    ensures FirstFat(evidence).None? ==> forall i :: !FirstFatAt(evidence, i)
    ensures FirstFat(evidence).Some? ==> exists i :: FirstFatAt(evidence, i) && evidence[i] == FirstFat(evidence).value
    ensures forall i :: FirstFatAt(evidence, i) ==> FirstFat(evidence) == Some(evidence[i])
  {
    if evidence != [] {
      FirstFatIsFirst(evidence[1..]);
      if evidence[0].filesystem == FatFilesystem {
        assert FirstFatAt(evidence, 0);
      } else {
        forall i ensures FirstFatAt(evidence, i) <==> i > 0 && FirstFatAt(evidence[1..], i - 1) {
          assert forall j :: 0 <= j < |evidence| - 1 ==> evidence[1..][j] == evidence[j + 1];
          assert i > 0 && FirstFatAt(evidence[1..], i - 1) ==>
                   forall j :: 0 <= j < i ==> j == 0 || evidence[j] == evidence[1..][j - 1];
        }
        if i :| FirstFatAt(evidence[1..], i) {
          assert FirstFatAt(evidence, i + 1) && evidence[i + 1] == evidence[1..][i];
        }
      }
    }
  }

  /** Exactly when a layout is accepted, and as what. */
  lemma ClassifiedExactly(ps: seq<Partition>, evidence: seq<PartitionEvidence>)
    ensures var layout := ClassifyLayout(ps, evidence);
            && (layout != Unsupported <==> LinuxRootLast(ps, evidence))
            && (layout == Recognized(RaspberryPi) <==>
                  && LinuxRootLast(ps, evidence)
                  && exists i :: && FirstFatAt(evidence, i) && "config.txt" in evidence[i].bootFiles
                                 && exists file :: file in evidence[i].bootFiles && "start" <= file)
            && (layout == Recognized(Odroid) <==>
                  && LinuxRootLast(ps, evidence)
                  && exists i :: && FirstFatAt(evidence, i) && "boot.ini" in evidence[i].bootFiles
                                 && !("config.txt" in evidence[i].bootFiles
                                      && exists file :: file in evidence[i].bootFiles && "start" <= file))
  {
    hide EvidenceFor, FirstFat, LastByEnd;
    if ps != [] {
      EvidenceIsFirst(evidence, LastByEnd(ps).number);
      RootDecides(ps, evidence);
    }
    FirstFatIsFirst(evidence);
    hide Evident, FirstFatAt, LinuxRootLast;
  }

  lemma RootDecides(ps: seq<Partition>, evidence: seq<PartitionEvidence>)
    requires ps != []
    ensures LinuxRootLast(ps, evidence) <==>
            && LastByEnd(ps).kind == Linux && EvidenceFor(evidence, LastByEnd(ps).number).Some?
            && var root := EvidenceFor(evidence, LastByEnd(ps).number).value;
               root.filesystem == Ext4Filesystem && LooksLikeLinuxRoot(root)
  {
    hide EvidenceFor, LastByEnd, Evident;
    EvidenceIsFirst(evidence, LastByEnd(ps).number);
  }

  // ----- ext4 geometry from the numbers the tools print -----

  datatype GeometryError = InvalidExt4Geometry | Ext4GeometryOverflow

  function ParseExt4Geometry(minimumBlocks: Option<U64>, blockCount: Option<U64>, blockSize: Option<U64>)
    : (r: Result<Ext4Geometry, GeometryError>)
    ensures r.Ok? <==> && minimumBlocks.Some? && blockCount.Some? && blockSize.Some?
                       && minimumBlocks.value * blockSize.value <= MAX_U64
                       && blockCount.value * blockSize.value <= MAX_U64
    ensures r.Ok? ==> && r.value.minimumBytes == minimumBlocks.value * blockSize.value
                      && r.value.currentBytes == blockCount.value * blockSize.value
                      && r.value.blockSize == blockSize.value
  {
    if minimumBlocks.None? || blockCount.None? || blockSize.None? then Err(InvalidExt4Geometry)
    else
      var minimum :- Checked(minimumBlocks.value * blockSize.value, Ext4GeometryOverflow);
      var current :- Checked(blockCount.value * blockSize.value, Ext4GeometryOverflow);
      Ok(Ext4Geometry(minimum, current, blockSize.value))
  }

  // ----- prepare -----

  datatype ImageRequest = ImageRequest(
    device: string,
    output: string,
    confirmModel: string,
    compression: Compression,
    verification: VerificationLevel)

  datatype PrepareError =
    | Unavailable
    | NotACandidate
    | UnsupportedSectorSize
    | ModelMismatch
    | UnsupportedTable(mbr: MbrError)
    | UnsupportedLayout
    | BadGeometry(geometry: GeometryError)
    | NotLocal
    | Unplannable(plan: PlanError)
    | DeviceGone
    | IdentityChanged

  /** Everything `prepare` reads from the outside, in the order it reads it. */
  datatype Facts = Facts(
    candidates: Result<seq<DeviceIdentity>, ()>,
    sectorZero: Sector,
    lbaOne: seq<Byte>,
    evidence: Result<seq<PartitionEvidence>, ()>,
    minimumBlocks: Option<U64>,
    blockCount: Option<U64>,
    blockSize: Option<U64>,
    outputIsLocal: bool,
    outputAvailable: Option<U64>,
    recheck: Result<seq<DeviceIdentity>, ()>)

  datatype PartitionMetadata = PartitionMetadata(number: nat, typeCode: Byte, startLba: nat, endLba: nat)

  datatype Prepared = Prepared(
    selected: DeviceIdentity,
    plan: ExecutionPlan,
    rootNumber: nat,
    rootStartLba: nat,
    partitions: seq<PartitionMetadata>,
    original: seq<Partition>,
    unknownLayoutWarning: bool,
    currentFilesystemBytes: nat,
    outputAvailableBytes: nat)

  function FindDevice(devices: seq<DeviceIdentity>, path: string): (r: Option<DeviceIdentity>)
    ensures r.Some? ==> r.value in devices && r.value.path == path
  {
    if devices == [] then None
    else if devices[0].path == path then Some(devices[0])
    else FindDevice(devices[1..], path)
  }

  /** Discover again and insist on the very same identity. */
  function Revalidated(selected: DeviceIdentity, recheck: Result<seq<DeviceIdentity>, ()>): Result<(), PrepareError> {
    if recheck.Err? then Err(Unavailable)
    else
      match FindDevice(recheck.value, selected.path)
      case None => Err(DeviceGone)
      case Some(current) => if current == selected then Ok(()) else Err(IdentityChanged)
  }

  /** The sidecar's view of the table, with the root already cut. */
  function SidecarPartitions(ps: seq<Partition>, rootNumber: nat, rootEndLba: nat): seq<PartitionMetadata> {
    seq(|ps|, i requires 0 <= i < |ps| =>
        PartitionMetadata(ps[i].number, ps[i].typeCode, ps[i].startLba,
                          if ps[i].number == rootNumber then rootEndLba else ps[i].endLba))
  }

  function PlanInputFor(selected: DeviceIdentity, root: Partition, ext4: Ext4Geometry, available: U64): PlanInput
    requires root.startLba <= MAX_U32
  {
    PlanInput(selected.sizeBytes, selected.logicalSectorSize, root.startLba, ext4.minimumBytes,
              ext4.currentBytes, available, true, ALIGNMENT)
  }

  function Prepare(request: ImageRequest, facts: Facts): Result<Prepared, PrepareError> {
    if facts.candidates.Err? then Err(Unavailable)
    else if FindDevice(facts.candidates.value, request.device).None? then Err(NotACandidate)
    else
      var selected := FindDevice(facts.candidates.value, request.device).value;
      if selected.logicalSectorSize != SUPPORTED_SECTOR then Err(UnsupportedSectorSize)
      else if selected.model != Trim(request.confirmModel) then Err(ModelMismatch)
      else
        var table := Parse(facts.sectorZero, Some(facts.lbaOne), selected.sizeBytes / selected.logicalSectorSize);
        if table.Err? then Err(UnsupportedTable(table.error))
        else if facts.evidence.Err? then Err(Unavailable)
        else
          ParsedIsValid(facts.sectorZero, Some(facts.lbaOne), selected.sizeBytes / selected.logicalSectorSize);
          PrepareTable(request, facts, selected, table.value)
  }

  /** `prepare` from the classified table on. */
  function PrepareTable(request: ImageRequest, facts: Facts, selected: DeviceIdentity, ps: seq<Partition>)
    : Result<Prepared, PrepareError>
    requires facts.evidence.Ok?
    requires forall p :: p in ps ==> p.startLba <= MAX_U32
  {
    var layout := ClassifyLayout(ps, facts.evidence.value);
    if layout.Unsupported? then Err(UnsupportedLayout)
    else
      var root := LastByEnd(ps);
      var ext4 := ParseExt4Geometry(facts.minimumBlocks, facts.blockCount, facts.blockSize);
      if ext4.Err? then Err(BadGeometry(ext4.error))
      else if !facts.outputIsLocal then Err(NotLocal)
      else if facts.outputAvailable.None? then Err(Unavailable)
      else
        var plan := BuildPlan(PlanInputFor(selected, root, ext4.value, facts.outputAvailable.value));
        if plan.Err? then Err(Unplannable(plan.error))
        else
          var same :- Revalidated(selected, facts.recheck);
          Ok(Prepared(selected, plan.value, root.number, root.startLba,
                      SidecarPartitions(ps, root.number, plan.value.rootEndLba), ps,
                      layout.WarningUnknown?, ext4.value.currentBytes, facts.outputAvailable.value))
  }

  /** The first device of a list with a path is the one chosen. */
  ghost predicate Chosen(list: Result<seq<DeviceIdentity>, ()>, path: string, d: DeviceIdentity) {
    list.Ok? && FindDevice(list.value, path) == Some(d)
  }

  /** Everything that has to hold for preparation to succeed on a device. */
  ghost predicate Preparable(request: ImageRequest, facts: Facts, d: DeviceIdentity) {
    && Chosen(facts.candidates, request.device, d) && Chosen(facts.recheck, request.device, d)
    && d.logicalSectorSize == 512 && d.model == Trim(request.confirmModel)
    && facts.outputIsLocal && facts.outputAvailable.Some?
    && facts.evidence.Ok?
    && var table := Parse(facts.sectorZero, Some(facts.lbaOne), d.sizeBytes / 512);
       && table.Ok? && LinuxRootLast(table.value, facts.evidence.value)
       && var ext4 := ParseExt4Geometry(facts.minimumBlocks, facts.blockCount, facts.blockSize);
          && ext4.Ok?
          && LastByEnd(table.value).startLba <= MAX_U32
          && BuildPlan(PlanInputFor(d, LastByEnd(table.value), ext4.value, facts.outputAvailable.value)).Ok?
  }

  /** Preparation succeeds exactly then, on exactly that device, and warns exactly of an unknown layout. */
  lemma PrepareSucceedsExactly(request: ImageRequest, facts: Facts)
    ensures Prepare(request, facts).Ok? <==> exists d :: Preparable(request, facts, d)
    ensures Prepare(request, facts).Ok? ==>
              var p := Prepare(request, facts).value;
              && Preparable(request, facts, p.selected)
              && (p.unknownLayoutWarning <==> ClassifyLayout(p.original, facts.evidence.value) == WarningUnknown)
              && p.currentFilesystemBytes == facts.blockCount.value * facts.blockSize.value
              && p.outputAvailableBytes == facts.outputAvailable.value
  {
    hide BuildPlan, Parse, ClassifyLayout, SidecarPartitions, LastByEnd, FindDevice, Trim, LinuxRootLast;
    if facts.candidates.Ok? && FindDevice(facts.candidates.value, request.device).Some? {
      var d := FindDevice(facts.candidates.value, request.device).value;
      if d.logicalSectorSize == 512 {
        var table := Parse(facts.sectorZero, Some(facts.lbaOne), d.sizeBytes / 512);
        if table.Ok? && facts.evidence.Ok? {
          ParsedIsValid(facts.sectorZero, Some(facts.lbaOne), d.sizeBytes / 512);
          ClassifiedExactly(table.value, facts.evidence.value);
          SupportedIsNotEmpty(table.value, facts.evidence.value);
        }
      }
      assert Prepare(request, facts).Ok? ==> Preparable(request, facts, d);
    }
  }

  lemma SupportedIsNotEmpty(ps: seq<Partition>, evidence: seq<PartitionEvidence>)
    ensures LinuxRootLast(ps, evidence) ==> ps != []
  {
  }

  /** The request `execute` hands to the shrink transaction. */
  function ShrinkRequestFor(prepared: Prepared): ShrinkRequest
    requires prepared.rootStartLba <= MAX_U64 && prepared.plan.rootEndLba <= MAX_U64
    requires prepared.plan.targetFilesystemBytes <= MAX_U64
  {
    ShrinkRequest(prepared.rootNumber, prepared.rootStartLba, prepared.plan.rootEndLba,
                  prepared.plan.targetFilesystemBytes / 1024, prepared.selected.sizeBytes,
                  prepared.selected.logicalSectorSize, prepared.original)
  }
}
