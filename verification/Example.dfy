/** One stick on which every hypothesis of the end-to-end theorem holds: none of them is empty. */
module Example {
  import opened Basics
  import opened Mbr
  import opened MbrLaws
  import opened Plan
  import opened Shrink
  import opened Transaction
  import opened Preparation
  import opened ShrinkSafety
  import opened Tools
  import opened Flash
  import opened SelfAcceptance
  import opened Imaging
  import Extract
  import Streams
  import Verify

  const SIZE: U64 := 4 * MIB
  const ROOT: Partition := Partition(1, 0x83, Linux, 1, 8000, 8000, false)

  /** Nothing is written beyond zeros, every tool works. */
  function Quiet(stage: Stage): Outcome {
    Outcome(true, true, 0, _ => 0)
  }

  function Stick(): DeviceIdentity {
    DeviceIdentity("/dev/sda", "8:0", "", "", SIZE, 512, "usb", true)
  }

  function Request(): ImageRequest {
    ImageRequest("/dev/sda", "out.img.zst", "", Zstandard(3), Decode)
  }

  function TableSector(): Sector {
    EncodeTable([ROOT])
  }

  /** An empty filesystem of 1 MiB in a partition that fills most of the stick. */
  function Start(): Media {
    Medium(TableSector() + seq(SIZE - SECTOR_BYTES, _ => 0), 1024 * 1024, 1024, 1024, 8000 * 512)
  }

  function Evidence(): PartitionEvidence {
    PartitionEvidence(1, Ext4Filesystem, ["etc", "usr", "var"], [])
  }

  function Read(): Facts {
    Facts(Ok([Stick()]), TableSector(), seq(8, _ => 0), Ok([Evidence()]), Some(1), Some(1024), Some(1024), true,
          Some(SIZE), Ok([Stick()]))
  }

  lemma RootIsValid()
    ensures Valid([ROOT], SIZE / SUPPORTED_SECTOR)
  {
  }

  lemma TableParses()
    ensures Parse(TableSector(), Some(seq(8, _ => 0)), SIZE / SUPPORTED_SECTOR) == Ok([ROOT])
  {
    RootIsValid();
    hide EncodeTable, Parse;
    EncodeParseRoundTrip([ROOT], Some(seq(8, _ => 0)), SIZE / SUPPORTED_SECTOR);
    ZerosAreNoHeader();
  }

  lemma ZerosAreNoHeader()
    ensures !GptHeader(Some(seq(8, _ => 0)))
  {
    var zeros: seq<Byte> := seq(8, _ => 0);
    assert zeros[0] == 0 && GPT_SIGNATURE[0] == 0x45;
  }

  function Input(): PlanInput {
    PlanInput(SIZE, 512, 1, 1024, 1024 * 1024, SIZE, true, ALIGNMENT)
  }

  lemma PlanExists()
    ensures BuildPlan(Input()) == Ok(ExecutionPlan(1, 1024 * 1024, FIXED_MARGIN, 4095, 2 * MIB))
  {
  }

  lemma LayoutIsUnknown()
    ensures ClassifyLayout([ROOT], [Evidence()]) == WarningUnknown
  {
  }

  function Planned(): Prepared {
    Prepared(Stick(), ExecutionPlan(1, 1024 * 1024, FIXED_MARGIN, 4095, 2 * MIB), 1, 1,
             SidecarPartitions([ROOT], 1, 4095), [ROOT], true, 1024 * 1024, SIZE)
  }

  lemma StickPrepares()
    ensures Prepare(Request(), Read()) == Ok(Planned())
  {
    hide EncodeTable, Parse, BuildPlan, ClassifyLayout, SidecarPartitions;
    TableParses();
    PlanExists();
    LayoutIsUnknown();
    assert LastByEnd([ROOT]) == ROOT;
    assert PlanInputFor(Stick(), ROOT, Ext4Geometry(1024, 1024 * 1024, 1024), SIZE) == Input();
  }

  lemma StartTable()
    ensures SectorZero(Start()) == TableSector()
    ensures LbaOne(Start()) == seq(8, _ => 0)
    ensures TableRootBytes(Start(), 1) == 8000 * 512
  {
    hide EncodeTable;
    EncodedSlots([ROOT]);
    SlotIsEntry(TableSector(), 1);
    hide Slots, EntryAt;
    assert Find([ROOT], 1) == Some(ROOT);
    assert Slots(TableSector())[0] == EntryFor(Some(ROOT));
  }

  lemma StickIsPrepared()
    ensures PreparedOn(Start(), Request(), Read())
  {
    hide Prepare, TableSector, SectorZero, LbaOne, TableRootBytes;
    StickPrepares();
    StartTable();
  }

  function StickJob(): Job {
    Job(Start(), ShrinkRequestFor(Planned()), ROOT)
  }

  /** Bytes that tools leave zero stay zero. */
  lemma {:induction false} ZerosStay(m: Media, request: ShrinkRequest, k: nat)
    requires k <= |STAGES| && forall i :: SECTOR_BYTES <= i < |m.bytes| ==> m.bytes[i] == 0
    ensures var later := After(m, request, Quiet, k);
            |later.bytes| == |m.bytes| && forall i :: SECTOR_BYTES <= i < |m.bytes| ==> later.bytes[i] == 0
  {
    hide Effect;
    if k > 0 {
      ZerosStay(m, request, k - 1);
      ZerosStayOnce(After(m, request, Quiet, k - 1), request, STAGES[k - 1]);
    }
  }

  lemma ZerosStayOnce(m: Media, request: ShrinkRequest, stage: Stage)
    requires forall i :: SECTOR_BYTES <= i < |m.bytes| ==> m.bytes[i] == 0
    ensures var later := Effect(m, stage, request, Quiet(stage));
            |later.bytes| == |m.bytes| && forall i :: SECTOR_BYTES <= i < |m.bytes| ==> later.bytes[i] == 0
  {
    hide Repartitioned;
    if Storable(request) {
      RepartitionedTail(m, request);
    }
  }

  lemma RepartitionedTail(m: Media, request: ShrinkRequest)
    requires Storable(request)
    ensures var r := Repartitioned(m, request);
            |r.bytes| == |m.bytes| && forall i :: SECTOR_BYTES <= i < |m.bytes| ==> r.bytes[i] == m.bytes[i]
  {
    hide SetSectors;
  }

  lemma StickShrinks()
    ensures Passed(Start(), ShrinkRequestFor(Planned()), Quiet, |STAGES|)
  {
    StickIsPrepared();
    StickPrepares();
    EncodedSlots([ROOT]);
    StartTable();
    assert LastByEnd([ROOT]) == ROOT;
    ZerosStay(Start(), StickJob().request, |STAGES|);
    hide Prepare, PreparedOn, EncodeTable, HasSignature, SectorZero, LbaOne, After, Passed, Sound, GptHeader;
    PreparedJobIsSound(Start(), Request(), Read());
    ZeroLba(After(Start(), StickJob().request, Quiet, |STAGES|));
    HonestToolsSucceed(StickJob(), Quiet);
  }

  lemma ZeroLba(m: Media)
    requires forall i :: SECTOR_BYTES <= i < |m.bytes| ==> m.bytes[i] == 0
    ensures !GptHeader(Some(LbaOne(m)))
  {
    assert LbaOne(m)[0] == 0 && GPT_SIGNATURE[0] == 0x45;
  }

  /** A codec that stores, and a digest that is the identity. */
  function Storing(): Toolbox {
    Toolbox(bytes => bytes, (c, chunks) => Flatten(chunks), (format, bytes) => Decoded(bytes, true))
  }

  lemma StoringIsLossless()
    ensures Lossless(Storing())
  {
  }

  /** The run on this stick, its image the raw range and its sidecar what the program would write. */
  function StickRun(): Imaged {
    var shrunk := After(Start(), ShrinkRequestFor(Planned()), Quiet, |STAGES|);
    var range := if 2 * MIB <= |shrunk.bytes| then shrunk.bytes[..2 * MIB] else [];
    Imaged(Start(), Request(), Read(), Quiet, range,
           ImageMetadata(2 * MIB, |range|, Zstandard(3), range,
                         Verify.VerificationResult(Decode, Verify.Passed, Some(range), |range|),
                         Some(SIZE), Some(512), Planned().partitions))
  }

  lemma StickKeepsSize()
    ensures |After(Start(), ShrinkRequestFor(Planned()), Quiet, |STAGES|).bytes| == SIZE
  {
    ZerosStay(Start(), ShrinkRequestFor(Planned()), |STAGES|);
  }

  /** There is a lossless codec, and a run on this stick that completes. */
  lemma CompletedRunExists()
    ensures Lossless(Storing()) && Completed(Storing(), StickRun())
  {
    StoringIsLossless();
    StickIsPrepared();
    StickPrepares();
    StickShrinks();
    StickKeepsSize();
    hide Prepare, PreparedOn, After, Passed, Start, Read, ShrinkRequestFor, Lossless;
    assert LastByEnd([ROOT]) == ROOT;
  }

  /** A world that puts nothing in the way. */
  function Calm(): World {
    World(true, true, true, true, Read(), Ok([Stick()]), true, true, true, true, _ => Extract.Join, true,
          _ => Streams.Delivers(1), true, _ => Streams.Delivers(1), SidecarWritten, true, true)
  }

  lemma StickToolsWork()
    ensures ToolsWork(Start(), Quiet, Calm(), Request())
    ensures Prepare(Request(), Calm().facts).Ok? && TableHolds(Start(), Quiet, Calm(), Request())
  {
    StickIsPrepared();
    StickPrepares();
    ZerosStay(Start(), ShrinkRequestFor(Planned()), |STAGES|);
    ZeroLba(After(Start(), ShrinkRequestFor(Planned()), Quiet, |STAGES|));
    assert Revalidated(Stick(), Ok([Stick()])).Ok?;
    hide Prepare, PreparedOn, After, Start, Read, LbaOne, GptHeader;
  }

  /** The program's own run on this stick succeeds, and its flasher accepts what it made. */
  method ImageTheStick() returns (m: Machine, r: Result<(), RunError>)
    ensures r.Ok? && fresh(m) && ImageFile in m.files && m.files[ImageFile].Raw?
    ensures SidecarFile in m.files && m.files[SidecarFile].Described?
    ensures FlasherAccepts(m.tools, ImagedBy(m, Start(), Calm(), Request()))
  {
    hide ToolsWork, TableHolds, Start, Read, Request, Lossless, Prepare, FlasherAccepts, LetsRun, LevelInRange;
    var backend := new LinuxShrinkBackend(Start(), Quiet);
    m := new Machine(Storing(), backend, map[]);
    StoringIsLossless();
    StickToolsWork();
    CalmLetsRun();
    ghost var reached, milestones;
    r, reached, milestones := RunImage(m, Calm(), Request());
  }

  /** The same run on a log whose last line cannot be written: all is done, and the log does not say so. */
  method ImageWithoutLog() returns (m: Machine, r: Result<(), RunError>, ghost reached: nat)
    ensures reached == |STAGES| && r == Err(LogFailure) && fresh(m) && !RecordsModified(m.files)
  {
    hide ToolsWork, TableHolds, Start, Read, Request, Lossless, Prepare, FlasherAccepts, LetsRun, LevelInRange;
    var backend := new LinuxShrinkBackend(Start(), Quiet);
    m := new Machine(Storing(), backend, map[]);
    StoringIsLossless();
    StickToolsWork();
    CalmLetsRun();
    LogDoesNotMatter(Start(), Quiet, Calm(), Request());
    ghost var milestones;
    r, reached, milestones := RunImage(m, Calm().(resultWrites := false), Request());
  }

  lemma LogDoesNotMatter(start: Media, outcomes: Stage -> Outcome, world: World, request: ImageRequest)
    ensures var other := world.(resultWrites := false);
            && LetsRun(other) == LetsRun(world)
            && ToolsWork(start, outcomes, other, request) == ToolsWork(start, outcomes, world, request)
            && (Prepare(request, world.facts).Ok? ==>
                  TableHolds(start, outcomes, other, request) == TableHolds(start, outcomes, world, request))
  {
    hide Prepare, PreparedOn;
  }

  lemma CalmLetsRun()
    ensures LetsRun(Calm()) && LevelInRange(Request().compression) && Calm().facts == Read()
  {
  }
}
