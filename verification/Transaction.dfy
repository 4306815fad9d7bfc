/** The ten destructive stages as changes to the source medium, with every way a tool can fail. */
module Transaction {
  import opened Basics
  import opened Mbr
  import opened MbrLaws
  import opened Plan
  import opened Shrink

  datatype Stage =
    | Unmount
    | PreflightFsck
    | InstallFirstBoot
    | UnmountAfterInstall
    | PreResizeFsck
    | ResizeFilesystem
    | PostResizeFsck
    | ResizePartition
    | RereadPartitionTable
    | Revalidate

  const STAGES: seq<Stage> := [
    Unmount, PreflightFsck, InstallFirstBoot, UnmountAfterInstall, PreResizeFsck,
    ResizeFilesystem, PostResizeFsck, ResizePartition, RereadPartitionTable, Revalidate]

  datatype StageError =
    | ToolFailed
    | EndPrecedesStart
    | InvalidLogicalSector
    | Unreadable
    | BadTable(mbr: MbrError)
    | Rejected(reason: PostShrinkError)

  datatype ShrinkError = ShrinkError(stage: Stage, detail: StageError)

  /**
   * The source: its bytes, the size recorded in the root's ext4 superblock, and how large the kernel
   * believes the root partition to be.
   */
  datatype Medium = Medium(
    bytes: seq<Byte>,
    filesystemBytes: U64,
    minimumBytes: U64,
    blockSize: U64,
    kernelRootBytes: nat)

  /**
   * What the outside world does during one stage: whether the tool reports success, whether a failing
   * tool took effect all the same (for the last stage, whether the disk could be read), what size it
   * left, and what filesystem tools write outside sector zero.
   */
  datatype Outcome = Outcome(succeeds: bool, tookEffect: bool, leftBytes: nat, fill: nat -> Byte)

  type Media = m: Medium | |m.bytes| >= 1024 && m.blockSize > 0
    witness Medium(seq(1024, _ => 0), 0, 0, 1, 0)

  function SectorZero(m: Media): Sector {
    m.bytes[..SECTOR_BYTES]
  }

  /** The eight bytes read from LBA 1. */
  function LbaOne(m: Media): seq<Byte> {
    m.bytes[SECTOR_BYTES..SECTOR_BYTES + 8]
  }

  /** Mounting, checking, installing and unmounting may change any byte except the partition table's sector. */
  function Written(m: Media, fill: nat -> Byte): (r: Media)
    ensures SectorZero(r) == SectorZero(m)
  {
    var bytes := seq(|m.bytes|, i requires 0 <= i < |m.bytes| =>
                     if i < SECTOR_BYTES then m.bytes[i] else fill(i));
    assert bytes[..SECTOR_BYTES] == m.bytes[..SECTOR_BYTES];
    m.(bytes := bytes)
  }

  function Clamp(value: nat, a: nat, b: nat): nat {
    Max(Min(a, b), Min(value, Max(a, b)))
  }

  /** `resize2fs`: the planned size on success; anything on the way there when it fails. */
  function Resized(m: Media, request: ShrinkRequest, outcome: Outcome): Media {
    var goal := Min(ResizedBytes(request.targetFilesystemKib, m.blockSize), MAX_U64);
    var reached := if outcome.succeeds then goal else Clamp(outcome.leftBytes, goal, m.filesystemBytes);
    Written(m, outcome.fill).(filesystemBytes := reached)
  }

  /** The length `resize_primary` hands to `sfdisk`. */
  function PrimarySectors(startLba: U64, endLba: U64): Result<U64, StageError> {
    var distance :- Checked(endLba - startLba, EndPrecedesStart);
    Checked(distance + 1, EndPrecedesStart)
  }

  /** A table length `sfdisk` can store. */
  predicate Storable(request: ShrinkRequest) {
    var sectors := PrimarySectors(request.rootStartLba, request.rootEndLba);
    sectors.Ok? && sectors.value <= MAX_U32 && 1 <= request.partitionNumber <= 4
  }

  function Repartitioned(m: Media, request: ShrinkRequest): Media
    requires Storable(request)
  {
    var sectors := PrimarySectors(request.rootStartLba, request.rootEndLba).value;
    m.(bytes := SetSectors(SectorZero(m), request.partitionNumber, sectors) + m.bytes[SECTOR_BYTES..])
  }

  function TableRootBytes(m: Media, number: nat): nat {
    if 1 <= number <= 4 then EntryAt(SectorZero(m), number).sectors * SECTOR_BYTES else 0
  }

  /** The medium after a stage, whatever the stage reports. */
  function Effect(m: Media, stage: Stage, request: ShrinkRequest, outcome: Outcome): Media {
    match stage
    case ResizeFilesystem => Resized(m, request, outcome)
    case ResizePartition =>
      if Storable(request) && (outcome.succeeds || outcome.tookEffect) then Repartitioned(m, request) else m
    case RereadPartitionTable =>
      if outcome.succeeds || outcome.tookEffect
      then m.(kernelRootBytes := TableRootBytes(m, request.partitionNumber)) else m
    case Revalidate => m
    case _ => Written(m, outcome.fill)
  }

  /** What a stage reports. */
  function Answer(m: Media, stage: Stage, request: ShrinkRequest, outcome: Outcome): Result<(), StageError> {
    match stage
    case ResizePartition =>
      var sectors :- PrimarySectors(request.rootStartLba, request.rootEndLba);
      if outcome.succeeds && Storable(request) then Ok(()) else Err(ToolFailed)
    case Revalidate => Revalidation(m, request, outcome)
    case _ => if outcome.succeeds then Ok(()) else Err(ToolFailed)
  }

  function Revalidation(m: Media, request: ShrinkRequest, outcome: Outcome): Result<(), StageError> {
    if request.logicalSectorSize == 0 then Err(InvalidLogicalSector)
    else if !outcome.succeeds && !outcome.tookEffect then Err(Unreadable)
    else
      var table := Parse(SectorZero(m), Some(LbaOne(m)), request.deviceSizeBytes / request.logicalSectorSize);
      if table.Err? then Err(BadTable(table.error))
      else
        var verdict := Verdict(request, table.value, Ext4Geometry(m.minimumBytes, m.filesystemBytes, m.blockSize));
        if verdict.Err? then Err(Rejected(verdict.error))
        else if outcome.succeeds then Ok(()) else Err(ToolFailed)
  }

  // ----- The transaction -----

  /** The medium after the first k stages, whatever they reported. */
  function After(m: Media, request: ShrinkRequest, outcomes: Stage -> Outcome, k: nat): Media
    requires k <= |STAGES|
  {
    if k == 0 then m
    else Effect(After(m, request, outcomes, k - 1), STAGES[k - 1], request, outcomes(STAGES[k - 1]))
  }

  /** What stage number k reports when every earlier one has run. */
  function Report(m: Media, request: ShrinkRequest, outcomes: Stage -> Outcome, k: nat): Result<(), StageError>
    requires k < |STAGES|
  {
    Answer(After(m, request, outcomes, k), STAGES[k], request, outcomes(STAGES[k]))
  }

  /** The first k stages all report success. */
  ghost predicate Passed(m: Media, request: ShrinkRequest, outcomes: Stage -> Outcome, k: nat)
    requires k <= |STAGES|
  {
    forall j :: 0 <= j < k ==> Report(m, request, outcomes, j).Ok?
  }

  /** Ok is never the answer to a tool that failed, and up to the last stage a working tool's answer is Ok. */
  lemma AnswerMeans(m: Media, stage: Stage, request: ShrinkRequest, outcome: Outcome)
    ensures Answer(m, stage, request, outcome).Ok? ==> outcome.succeeds
    ensures stage != Revalidate ==>
              (Answer(m, stage, request, outcome).Ok?
               <==> outcome.succeeds && (stage == ResizePartition ==> Storable(request)))
  {
  }

  /** Every tool of a stage that was passed succeeded. */
  lemma PassedMeansSucceeded(m: Media, request: ShrinkRequest, outcomes: Stage -> Outcome, k: nat)
    requires k <= |STAGES| && Passed(m, request, outcomes, k)
    ensures forall j :: 0 <= j < k ==> outcomes(STAGES[j]).succeeds
  {
    hide Answer, After;
    forall j | 0 <= j < k ensures outcomes(STAGES[j]).succeeds {
      assert Report(m, request, outcomes, j).Ok?;
      AnswerMeans(After(m, request, outcomes, j), STAGES[j], request, outcomes(STAGES[j]));
    }
  }

  /**
   * What is known when a stage is attempted: the boot files go onto an unmounted, checked root; it is
   * shrunk only when it is unmounted again and checked again, and cut only when it is shrunk and checked.
   */
  lemma AttemptedInOrder(m: Media, request: ShrinkRequest, outcomes: Stage -> Outcome, reached: nat)
    requires 0 < reached <= |STAGES| && Passed(m, request, outcomes, reached - 1)
    ensures InstallFirstBoot in STAGES[..reached] ==> outcomes(Unmount).succeeds && outcomes(PreflightFsck).succeeds
    ensures ResizeFilesystem in STAGES[..reached] ==>
              && outcomes(InstallFirstBoot).succeeds && outcomes(UnmountAfterInstall).succeeds
              && outcomes(PreResizeFsck).succeeds
    ensures ResizePartition in STAGES[..reached] ==>
              outcomes(ResizeFilesystem).succeeds && outcomes(PostResizeFsck).succeeds
    ensures Revalidate in STAGES[..reached] ==>
              outcomes(ResizePartition).succeeds && outcomes(RereadPartitionTable).succeeds
  {
    PassedMeansSucceeded(m, request, outcomes, reached - 1);
    hide Passed;
    assert reached > 1 ==> outcomes(STAGES[0]).succeeds;
    assert reached > 2 ==> outcomes(STAGES[1]).succeeds;
    assert reached > 3 ==> outcomes(STAGES[2]).succeeds;
    assert reached > 4 ==> outcomes(STAGES[3]).succeeds;
    assert reached > 5 ==> outcomes(STAGES[4]).succeeds;
    assert reached > 6 ==> outcomes(STAGES[5]).succeeds;
    assert reached > 7 ==> outcomes(STAGES[6]).succeeds;
    assert reached > 8 ==> outcomes(STAGES[7]).succeeds;
    assert reached > 9 ==> outcomes(STAGES[8]).succeeds;
  }

  class LinuxShrinkBackend {
    var medium: Media
    var performed: seq<Stage>
    const outcomes: Stage -> Outcome

    constructor (medium: Media, outcomes: Stage -> Outcome)
      ensures this.medium == medium && performed == [] && this.outcomes == outcomes
    {
      this.medium := medium;
      this.outcomes := outcomes;
      performed := [];
    }

    /** One stage. The parts that decide something are computed here; the tools' part is their outcome. */
    method Perform(stage: Stage, request: ShrinkRequest) returns (r: Result<(), StageError>)
      modifies this
      ensures medium == Effect(old(medium), stage, request, outcomes(stage))
      ensures performed == old(performed) + [stage]
      ensures r == Answer(old(medium), stage, request, outcomes(stage))
      ensures r.Ok? ==> outcomes(stage).succeeds
    {
      performed := performed + [stage];
      var outcome := outcomes(stage);
      match stage
      case ResizeFilesystem =>
        medium := Resized(medium, request, outcome);
        r := if outcome.succeeds then Ok(()) else Err(ToolFailed);
      case ResizePartition =>
        var sectors :- PrimarySectors(request.rootStartLba, request.rootEndLba);
        if !Storable(request) {
          return Err(ToolFailed);
        }
        if outcome.succeeds || outcome.tookEffect {
          medium := Repartitioned(medium, request);
        }
        r := if outcome.succeeds then Ok(()) else Err(ToolFailed);
      case RereadPartitionTable =>
        if outcome.succeeds || outcome.tookEffect {
          medium := medium.(kernelRootBytes := TableRootBytes(medium, request.partitionNumber));
        }
        r := if outcome.succeeds then Ok(()) else Err(ToolFailed);
      case Revalidate =>
        if request.logicalSectorSize == 0 {
          return Err(InvalidLogicalSector);
        }
        if !outcome.succeeds && !outcome.tookEffect {
          return Err(Unreadable);
        }
        var table := ParseMbr(SectorZero(medium), Some(LbaOne(medium)),
                              request.deviceSizeBytes / request.logicalSectorSize);
        if table.Err? {
          return Err(BadTable(table.error));
        }
        var verdict := ValidatePostShrink(
          request, table.value, Ext4Geometry(medium.minimumBytes, medium.filesystemBytes, medium.blockSize));
        if verdict.Err? {
          return Err(Rejected(verdict.error));
        }
        r := if outcome.succeeds then Ok(()) else Err(ToolFailed);
      case _ =>
        medium := Written(medium, outcome.fill);
        r := if outcome.succeeds then Ok(()) else Err(ToolFailed);
    }
  }

  /** Runs the stages in order and stops at the first that fails; `reached` counts those attempted. */
  method ExecuteShrink(backend: LinuxShrinkBackend, request: ShrinkRequest)
    returns (r: Result<(), ShrinkError>, ghost reached: nat)
    modifies backend
    ensures reached <= |STAGES|
    ensures backend.medium == After(old(backend.medium), request, backend.outcomes, reached)
    ensures backend.performed == old(backend.performed) + STAGES[..reached]
    ensures r.Ok? ==> reached == |STAGES| && Passed(old(backend.medium), request, backend.outcomes, reached)
    ensures r.Err? ==> && reached > 0 && Passed(old(backend.medium), request, backend.outcomes, reached - 1)
                       && r.error.stage == STAGES[reached - 1]
                       && Report(old(backend.medium), request, backend.outcomes, reached - 1) == Err(r.error.detail)
    ensures forall j :: 0 <= j < reached - 1 ==> backend.outcomes(STAGES[j]).succeeds
    ensures r.Ok? ==> forall j :: 0 <= j < |STAGES| ==> backend.outcomes(STAGES[j]).succeeds
  {
    hide Effect, Answer;
    reached := 0;
    for k := 0 to |STAGES|
      invariant reached == k
      invariant backend.medium == After(old(backend.medium), request, backend.outcomes, k)
      invariant backend.performed == old(backend.performed) + STAGES[..k]
      invariant Passed(old(backend.medium), request, backend.outcomes, k)
      invariant forall j :: 0 <= j < k ==> backend.outcomes(STAGES[j]).succeeds
    {
      var answer := backend.Perform(STAGES[k], request);
      reached := k + 1;
      assert STAGES[..k + 1] == STAGES[..k] + [STAGES[k]];
      if answer.Err? {
        return Err(ShrinkError(STAGES[k], answer.error)), reached;
      }
    }
    return Ok(()), reached;
  }
}
