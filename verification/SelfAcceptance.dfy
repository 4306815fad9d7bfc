/** Whatever this tool images, its own flasher accepts. */
module SelfAcceptance {
  import opened Basics
  import opened Mbr
  import opened MbrLaws
  import opened Plan
  import opened Shrink
  import opened Transaction
  import opened Preparation
  import opened ShrinkSafety
  import opened Tools
  import opened Flash
  import opened Streams
  import Verify

  /** The facts one imaging run establishes about its image: prepared, shrunk, extracted, described. */
  datatype Imaged = Imaged(
    start: Media,
    request: ImageRequest,
    facts: Facts,
    outcomes: Stage -> Outcome,
    file: seq<Byte>,
    metadata: ImageMetadata)

  function PreparedOf(run: Imaged): Prepared
    requires Prepare(run.request, run.facts).Ok?
  {
    Prepare(run.request, run.facts).value
  }

  /** The request the shrink transaction was given. */
  function RequestOf(run: Imaged): ShrinkRequest
    requires Prepare(run.request, run.facts).Ok?
  {
    PreparedFits(run.request, run.facts);
    ShrinkRequestFor(PreparedOf(run))
  }

  /** The source as the ten stages left it. */
  function Shrunk(run: Imaged): Media
    requires Prepare(run.request, run.facts).Ok?
  {
    After(run.start, RequestOf(run), run.outcomes, |STAGES|)
  }

  /** The table the plan calls for. */
  function PlannedTable(run: Imaged): seq<Partition>
    requires Prepare(run.request, run.facts).Ok?
  {
    WithEnd(PreparedOf(run).original, PreparedOf(run).rootNumber, PreparedOf(run).plan.rootEndLba)
  }

  /**
   * Preparation, all ten stages, extraction of the planned range, verification and sidecar succeeded.
   * Nothing is said about the medium the run started from: it may have changed since it was prepared.
   */
  ghost predicate Completed(tools: Toolbox, run: Imaged) {
    && Prepare(run.request, run.facts).Ok?
    && Passed(run.start, RequestOf(run), run.outcomes, |STAGES|)
    && PreparedOf(run).plan.imageBytes <= |Shrunk(run).bytes|
    && var range := Shrunk(run).bytes[..PreparedOf(run).plan.imageBytes];
       && tools.decode(FormatOf(run.request.compression), run.file) == Decoded(range, true)
       && run.metadata.rawBytes == |range|
       && run.metadata.compression == run.request.compression
       && run.metadata.compressedSha256 == tools.sha(run.file)
       && run.metadata.verification.rawSha256 in {None, Some(tools.sha(range))}
       && run.metadata.partitions == PreparedOf(run).partitions
  }

  /** Every end of the planned table lies inside the imaged sectors. */
  lemma EndsBeforeRoot(run: Imaged)
    requires Prepare(run.request, run.facts).Ok?
    ensures forall p :: p in PlannedTable(run) ==> p.endLba <= PreparedOf(run).plan.rootEndLba
  {
    PlanNumbers(run.request, run.facts);
    PreparedMeans(run.request, run.facts);
    hide Prepare, BuildPlan, Parse;
    var p := PreparedOf(run);
    RootIsLast(p.original, p.selected.sizeBytes / SUPPORTED_SECTOR);
    MovedMembers(p.original, p.rootNumber, p.plan.rootEndLba);
    forall q | q in PlannedTable(run) ensures q.endLba <= p.plan.rootEndLba {
      var o :| o in p.original && q == Moved(o, p.rootNumber, p.plan.rootEndLba);
      if o.number == p.rootNumber {
        FindMember(p.original, o);
        FindMember(p.original, LastByEnd(p.original));
      }
    }
  }

  /** The shrunk source parses to the planned table for every bound that leaves room for the root. */
  lemma ShrunkParses(run: Imaged, total: nat)
    requires Prepare(run.request, run.facts).Ok?
    requires Passed(run.start, RequestOf(run), run.outcomes, |STAGES|)
    requires total > PreparedOf(run).plan.rootEndLba
    ensures Parse(SectorZero(Shrunk(run)), Some(LbaOne(Shrunk(run))), total) == Ok(PlannedTable(run))
  {
    PreparedMeans(run.request, run.facts);
    PlanNumbers(run.request, run.facts);
    EndsBeforeRoot(run);
    PreparedFits(run.request, run.facts);
    hide Prepare, BuildPlan, Parse, After, Passed, SectorZero, LbaOne, Revalidation;
    PassedLast(run.start, RequestOf(run), run.outcomes);
    AcceptedIsPlanned(Shrunk(run), RequestOf(run), run.outcomes(Revalidate));
    BoundOnlyLimitsEnds(SectorZero(Shrunk(run)), Some(LbaOne(Shrunk(run))),
                        PreparedOf(run).selected.sizeBytes / SUPPORTED_SECTOR, total);
  }

  lemma SidecarDescribesTable(ps: seq<Partition>, number: nat, endLba: nat)
    ensures LayoutMatches(SidecarPartitions(ps, number, endLba), WithEnd(ps, number, endLba))
  {
  }

  /** The first bytes of the imaged range hold the shrunk source's table. */
  lemma RangeTable(bytes: seq<Byte>, m: Media, n: nat, table: seq<Partition>)
    requires SECTOR_BYTES + 8 <= n <= |m.bytes| && bytes == m.bytes[..n]
    requires Parse(SectorZero(m), Some(LbaOne(m)), n / SECTOR_BYTES) == Ok(table)
    ensures TableOf(bytes) == Ok(table)
  {
    hide Parse;
    assert bytes[..SECTOR_BYTES] == SectorZero(m);
    assert bytes[SECTOR_BYTES..SECTOR_BYTES + 8] == LbaOne(m);
  }

  /**
   * A completed run's image, with its sidecar and the matching format, passes inspection at every level;
   * the table found is the planned one, and its partitions match the sidecar one by one.
   */
  lemma OwnImagesAreAccepted(tools: Toolbox, run: Imaged, level: PreVerify)
    requires Completed(tools, run)
    ensures var range := Shrunk(run).bytes[..PreparedOf(run).plan.imageBytes];
            Inspection(tools, run.file, range, Some(run.metadata), FormatOf(run.request.compression), level)
            == Ok(InspectedImage(
                    PreparedOf(run).plan.imageBytes, tools.sha(range), true,
                    if level.NoPreVerify? then None else Some(PlannedTable(run))))
  {
    var n := PreparedOf(run).plan.imageBytes;
    ImageLength(run);
    PreparedMeans(run.request, run.facts);
    hide Prepare, BuildPlan, Parse, After, Passed, SectorZero, LbaOne;
    assert n / SECTOR_BYTES == PreparedOf(run).plan.rootEndLba + 1;
    ShrunkParses(run, n / SECTOR_BYTES);
    RangeTable(Shrunk(run).bytes[..n], Shrunk(run), n, PlannedTable(run));
    SidecarDescribesTable(PreparedOf(run).original, PreparedOf(run).rootNumber, PreparedOf(run).plan.rootEndLba);
    hide TableOf, LayoutMatches, WithEnd;
  }

  /** What inspection makes of a completed run's image. */
  function Inspected(tools: Toolbox, run: Imaged, level: PreVerify): InspectedImage
    requires Prepare(run.request, run.facts).Ok?
  {
    InspectedImage(
      PreparedOf(run).plan.imageBytes, tools.sha(tools.decode(FormatOf(run.request.compression), run.file).bytes), true,
      if level.NoPreVerify? then None else Some(PlannedTable(run)))
  }

  /** On every target that is large enough, flashing with the inspected facts is not refused. */
  ghost predicate Flashable(tools: Toolbox, inspected: InspectedImage, decoded: seq<Byte>) {
    forall capacity: U64, post :: inspected.rawBytes <= capacity ==>
      Acceptable(tools, FlashRequest(capacity, inspected.rawBytes, Some(inspected.rawSha256), post), decoded)
  }

  /**
   * The flasher takes the file with its sidecar at every level, finds the planned table in it, and then
   * takes its own findings.
   */
  ghost predicate FlasherAccepts(tools: Toolbox, run: Imaged) {
    && Prepare(run.request, run.facts).Ok?
    && var format := FormatOf(run.request.compression);
       var decoded := tools.decode(format, run.file).bytes;
       forall level ::
         && Inspection(tools, run.file, decoded, Some(run.metadata), format, level) == Ok(Inspected(tools, run, level))
         && Flashable(tools, Inspected(tools, run, level), decoded)
  }

  lemma CompletedIsAccepted(tools: Toolbox, run: Imaged)
    requires Completed(tools, run)
    ensures FlasherAccepts(tools, run)
  {
    assert Prepare(run.request, run.facts).Ok?;
    hide Prepare, Passed, Inspection, Acceptable, Completed;
    var format := FormatOf(run.request.compression);
    var decoded := tools.decode(format, run.file).bytes;
    forall level
      ensures Inspection(tools, run.file, decoded, Some(run.metadata), format, level)
              == Ok(Inspected(tools, run, level))
      ensures Flashable(tools, Inspected(tools, run, level), decoded)
    {
      OwnImagesAreAccepted(tools, run, level);
      forall capacity: U64, post | Inspected(tools, run, level).rawBytes <= capacity
        ensures Acceptable(tools, FlashRequest(capacity, Inspected(tools, run, level).rawBytes,
                                               Some(Inspected(tools, run, level).rawSha256), post), decoded)
      {
        InspectedIsAcceptable(tools, run.file, decoded, Some(run.metadata), format, level, capacity, post);
      }
    }
  }

  /**
   * Imaging and flashing compose to the identity on the imaged range: a target flashed with a completed
   * run's image starts with exactly the source bytes that were extracted, and its own table, read under
   * the target's size, is the planned one.
   */
  lemma FlashedTargetIsTheSource(tools: Toolbox, run: Imaged, before: seq<Byte>, now: seq<Byte>)
    requires Completed(tools, run)
    requires HoldsPrefix(now, before, tools.decode(FormatOf(run.request.compression), run.file).bytes,
                         PreparedOf(run).plan.imageBytes)
    ensures var n := PreparedOf(run).plan.imageBytes;
            && SECTOR_BYTES + 8 <= n <= |now|
            && now[..n] == Shrunk(run).bytes[..n] && now[n..] == before[n..]
            && Parse(now[..SECTOR_BYTES], Some(now[SECTOR_BYTES..SECTOR_BYTES + 8]), |now| / SECTOR_BYTES)
               == Ok(PlannedTable(run))
  {
    var n := PreparedOf(run).plan.imageBytes;
    ImageLength(run);
    hide Prepare, BuildPlan, Parse, After, Passed, SectorZero, LbaOne;
    DivBounds(|now|, SECTOR_BYTES);
    ShrunkParses(run, |now| / SECTOR_BYTES);
    SamePrefix(now, Shrunk(run), n);
  }

  /** The image ends with the planned root, and is longer than what holds the table. */
  lemma ImageLength(run: Imaged)
    requires Prepare(run.request, run.facts).Ok?
    ensures var plan := PreparedOf(run).plan;
            SECTOR_BYTES + 8 <= plan.imageBytes == (plan.rootEndLba + 1) * SECTOR_BYTES
  {
    hide Prepare;
    PlanNumbers(run.request, run.facts);
    PositiveMultiple(PreparedOf(run).plan.imageBytes, ALIGNMENT);
  }

  lemma SamePrefix(now: seq<Byte>, m: Media, n: nat)
    requires SECTOR_BYTES + 8 <= n <= |m.bytes| && n <= |now| && now[..n] == m.bytes[..n]
    ensures now[..SECTOR_BYTES] == SectorZero(m) && now[SECTOR_BYTES..SECTOR_BYTES + 8] == LbaOne(m)
  {
    assert now[..SECTOR_BYTES] == now[..n][..SECTOR_BYTES];
    assert now[SECTOR_BYTES..SECTOR_BYTES + 8] == now[..n][SECTOR_BYTES..SECTOR_BYTES + 8];
    assert SectorZero(m) == m.bytes[..n][..SECTOR_BYTES];
    assert LbaOne(m) == m.bytes[..n][SECTOR_BYTES..SECTOR_BYTES + 8];
  }

  /** Inspecting a completed run's own image, at any level, with every read as short as it likes. */
  method InspectOwnImage(
    tools: Toolbox, run: Imaged, level: PreVerify, fileReads: nat -> ReadOutcome, inspectReads: nat -> ReadOutcome)
    returns (r: Result<InspectedImage, FlashError>)
    requires Completed(tools, run) && |run.file| <= MAX_U64
    requires forall i :: fileReads(i).Delivers? && inspectReads(i).Delivers?
    ensures r == Ok(Inspected(tools, run, level))
  {
    PreparedFits(run.request, run.facts);
    var format := FormatOf(run.request.compression);
    var decoded := tools.decode(format, run.file);
    assert decoded.clean && |decoded.bytes| <= MAX_U64;
    CompletedIsAccepted(tools, run);
    hide Completed, Inspection, Prepare, Flashable, IsTableOf, Geometry, PlannedTable;
    var file := Verify.Open(Decoded(run.file, true), true, fileReads);
    var decoder := Verify.Open(decoded, true, inspectReads);
    r := InspectImage(tools, Parsed(Some(run.metadata)), format, level, file, decoder);
  }

  /** Then flashing it with what was found. */
  method FlashOwnImage(
    tools: Toolbox, run: Imaged, level: PreVerify, post: PostVerify, capacity: U64, target: Target,
    fileReads: nat -> ReadOutcome, inspectReads: nat -> ReadOutcome, flashReads: nat -> ReadOutcome,
    rereads: nat -> ReadOutcome)
    returns (r: Result<FlashResult, FlashError>)
    requires Completed(tools, run) && |run.file| <= MAX_U64
    requires PreparedOf(run).plan.imageBytes <= capacity && PreparedOf(run).plan.imageBytes <= target.data.Length
    requires target.pos == 0 && target.Reliable()
    requires forall i :: fileReads(i).Delivers? && inspectReads(i).Delivers? && flashReads(i).Delivers?
    requires forall i :: rereads(i).Delivers?
    modifies target, target.data
    ensures r.Ok? && r.value.bytesWritten == PreparedOf(run).plan.imageBytes
    ensures r.value.postVerified <==> post.FullReread?
    ensures var n := PreparedOf(run).plan.imageBytes;
            && SECTOR_BYTES + 8 <= n <= |Shrunk(run).bytes|
            && target.data[..n] == Shrunk(run).bytes[..n] && target.data[n..] == old(target.data[n..])
            && Parse(target.data[..SECTOR_BYTES], Some(target.data[SECTOR_BYTES..SECTOR_BYTES + 8]),
                     target.data.Length / SECTOR_BYTES)
               == Ok(PlannedTable(run))
  {
    ghost var n, before := PreparedOf(run).plan.imageBytes, target.data[..];
    var format := FormatOf(run.request.compression);
    var decoded := tools.decode(format, run.file);
    assert decoded == Decoded(Shrunk(run).bytes[..n], true);
    CompletedIsAccepted(tools, run);
    hide Completed, Inspection, Prepare, Acceptable, Shrunk, IsTableOf, Geometry, HoldsPrefix, Parse, PlannedTable;
    var inspected := InspectOwnImage(tools, run, level, fileReads, inspectReads);
    assert Flashable(tools, Inspected(tools, run, level), decoded.bytes);
    var decoder := Verify.Open(decoded, true, flashReads);
    var request := FlashRequest(capacity, inspected.value.rawBytes, Some(inspected.value.rawSha256), post);
    ghost var k;
    r, k := FlashImage(tools, request, decoder, target, true, rereads);
    FlashedTargetIsTheSource(tools, run, before, target.data[..]);
    assert target.data[..][n..] == before[n..];
  }
}
