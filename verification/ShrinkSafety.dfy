/** The source medium in every state the shrink transaction can leave it in. */
module ShrinkSafety {
  import opened Basics
  import opened Mbr
  import opened MbrLaws
  import opened Plan
  import opened Shrink
  import opened Transaction
  import opened Preparation

  /** `prepare` succeeded on this very medium, whose root filesystem fits its partition. */
  ghost predicate PreparedOn(m: Media, request: ImageRequest, facts: Facts) {
    && Prepare(request, facts).Ok?
    && facts.sectorZero == SectorZero(m) && facts.lbaOne == LbaOne(m)
    && |m.bytes| == Prepare(request, facts).value.selected.sizeBytes
    && facts.blockSize == Some(m.blockSize) && Ext4BlockSize(m.blockSize)
    && facts.minimumBlocks.Some? && m.minimumBytes == facts.minimumBlocks.value * m.blockSize
    && facts.blockCount.Some? && m.filesystemBytes == facts.blockCount.value * m.blockSize
    && 0 < m.filesystemBytes <= TableRootBytes(m, Prepare(request, facts).value.rootNumber)
    && m.kernelRootBytes == TableRootBytes(m, Prepare(request, facts).value.rootNumber)
  }

  function PlannedInput(facts: Facts, prepared: Prepared): PlanInput
    requires prepared.rootStartLba <= MAX_U64 && facts.outputAvailable.Some?
    requires facts.minimumBlocks.Some? && facts.blockCount.Some? && facts.blockSize.Some?
    requires facts.minimumBlocks.value * facts.blockSize.value <= MAX_U64
    requires facts.blockCount.value * facts.blockSize.value <= MAX_U64
  {
    PlanInput(prepared.selected.sizeBytes, SUPPORTED_SECTOR, prepared.rootStartLba,
              facts.minimumBlocks.value * facts.blockSize.value, facts.blockCount.value * facts.blockSize.value,
              facts.outputAvailable.value, true, ALIGNMENT)
  }

  /** What a successful preparation has established, unfolded. */
  lemma PreparedMeans(request: ImageRequest, facts: Facts)
    requires Prepare(request, facts).Ok?
    ensures var p := Prepare(request, facts).value;
            && p.selected.logicalSectorSize == SUPPORTED_SECTOR
            && Parse(facts.sectorZero, Some(facts.lbaOne), p.selected.sizeBytes / SUPPORTED_SECTOR) == Ok(p.original)
            && p.original != []
            && p.rootNumber == LastByEnd(p.original).number && p.rootStartLba == LastByEnd(p.original).startLba
            && facts.outputAvailable.Some? && p.rootStartLba <= MAX_U64
            && facts.minimumBlocks.Some? && facts.blockCount.Some? && facts.blockSize.Some?
            && facts.minimumBlocks.value * facts.blockSize.value <= MAX_U64
            && facts.blockCount.value * facts.blockSize.value <= MAX_U64
            && BuildPlan(PlannedInput(facts, p)) == Ok(p.plan)
            && p.partitions == SidecarPartitions(p.original, p.rootNumber, p.plan.rootEndLba)
  {
    hide BuildPlan, Parse, ClassifyLayout, SidecarPartitions, Revalidated;
    var selected := FindDevice(facts.candidates.value, request.device).value;
    var ps := Parse(facts.sectorZero, Some(facts.lbaOne), selected.sizeBytes / SUPPORTED_SECTOR).value;
    ParsedIsValid(facts.sectorZero, Some(facts.lbaOne), selected.sizeBytes / SUPPORTED_SECTOR);
    TablePrepared(request, facts, selected, ps);
  }

  lemma TablePrepared(request: ImageRequest, facts: Facts, selected: DeviceIdentity, ps: seq<Partition>)
    requires facts.evidence.Ok? && selected.logicalSectorSize == SUPPORTED_SECTOR
    requires forall p :: p in ps ==> p.startLba <= MAX_U32
    requires PrepareTable(request, facts, selected, ps).Ok?
    ensures var p := PrepareTable(request, facts, selected, ps).value;
            && p.original == ps != [] && p.selected == selected
            && p.rootNumber == LastByEnd(ps).number && p.rootStartLba == LastByEnd(ps).startLba
            && facts.outputAvailable.Some? && p.rootStartLba <= MAX_U64
            && facts.minimumBlocks.Some? && facts.blockCount.Some? && facts.blockSize.Some?
            && facts.minimumBlocks.value * facts.blockSize.value <= MAX_U64
            && facts.blockCount.value * facts.blockSize.value <= MAX_U64
            && BuildPlan(PlannedInput(facts, p)) == Ok(p.plan)
            && p.partitions == SidecarPartitions(ps, p.rootNumber, p.plan.rootEndLba)
  {
    hide BuildPlan;
    if ps != [] {
      AcceptedLayoutHasLinuxRoot(ps, facts.evidence.value);
    }
  }

  /** Plans name u64 quantities only. */
  lemma PlanFits(input: PlanInput)
    requires BuildPlan(input).Ok?
    ensures var plan := BuildPlan(input).value;
            plan.rootEndLba <= MAX_U64 && plan.targetFilesystemBytes <= MAX_U64 && 0 < plan.imageBytes <= MAX_U64
  {
    BuildPlanSucceedsExactly(input);
    hide Ceiling, LastSectorOf;
    assert BuildPlan(input).value.imageBytes <= input.deviceSizeBytes;
    LastSectorFits(input);
  }

  lemma LastSectorFits(input: PlanInput)
    requires BuildPlan(input).Ok?
    ensures BuildPlan(input).value.rootEndLba <= MAX_U64
  {
  }

  lemma PreparedFits(request: ImageRequest, facts: Facts)
    requires Prepare(request, facts).Ok?
    ensures var p := Prepare(request, facts).value;
            && p.rootStartLba <= MAX_U64 && p.plan.rootEndLba <= MAX_U64
            && p.plan.targetFilesystemBytes <= MAX_U64 && 0 < p.plan.imageBytes <= MAX_U64
  {
    hide Prepare, BuildPlan;
    PreparedMeans(request, facts);
    PlanFits(PlannedInput(facts, Prepare(request, facts).value));
  }

  /** What any plan says about its table and device, whatever the disk has come to hold since. */
  lemma PlanNumbers(request: ImageRequest, facts: Facts)
    requires Prepare(request, facts).Ok?
    ensures var p := Prepare(request, facts).value;
            && (p.plan.rootEndLba + 1) * SUPPORTED_SECTOR == p.plan.imageBytes <= p.selected.sizeBytes
            && p.plan.imageBytes > 0 && p.plan.imageBytes % ALIGNMENT == 0
            && 1 <= p.rootStartLba <= p.plan.rootEndLba + 1
            && p.plan.rootEndLba < p.selected.sizeBytes / SUPPORTED_SECTOR
            && Valid(p.original, p.selected.sizeBytes / SUPPORTED_SECTOR)
            && LastByEnd(p.original) in p.original
  {
    hide Prepare, BuildPlan, Parse, UsedBytes;
    PreparedMeans(request, facts);
    var p := Prepare(request, facts).value;
    ParsedIsValid(facts.sectorZero, Some(facts.lbaOne), p.selected.sizeBytes / SUPPORTED_SECTOR);
    PlanCoversTarget(PlannedInput(facts, p));
    PlanFits(PlannedInput(facts, p));
    StartsByEnd(p.rootStartLba, p.plan.rootEndLba, p.plan.targetFilesystemBytes, SUPPORTED_SECTOR);
  }

  lemma StartsByEnd(start: nat, end: nat, target: nat, sectorSize: nat)
    requires sectorSize > 0 && target <= (end + 1 - start) * sectorSize
    ensures start <= end + 1
  {
    assert (end + 1 - start) * sectorSize == (end + 1) * sectorSize - start * sectorSize;
    QuotientMonotone(start, end + 1, sectorSize);
  }

  /** The arithmetic link between plan, device and table. */
  lemma PlanOnTable(request: ImageRequest, facts: Facts)
    requires Prepare(request, facts).Ok? && facts.blockCount.Some? && facts.blockSize.Some?
    requires facts.blockCount.value * facts.blockSize.value > 0
    ensures var p := Prepare(request, facts).value;
            && (p.plan.rootEndLba + 1) * SUPPORTED_SECTOR == p.plan.imageBytes <= p.selected.sizeBytes
            && p.plan.imageBytes > 0 && p.plan.imageBytes % ALIGNMENT == 0
            && 1 <= p.rootStartLba <= p.plan.rootEndLba < p.selected.sizeBytes / SUPPORTED_SECTOR
            && p.plan.targetFilesystemBytes <= (p.plan.rootEndLba + 1 - p.rootStartLba) * SUPPORTED_SECTOR
            && p.plan.rootEndLba <= MAX_U64 && p.plan.targetFilesystemBytes <= MAX_U64
            && Valid(p.original, p.selected.sizeBytes / SUPPORTED_SECTOR)
            && LastByEnd(p.original) in p.original
            && ClearOfOthers(p.original, LastByEnd(p.original), p.plan.rootEndLba)
  {
    hide Prepare, BuildPlan, Parse, UsedBytes;
    PreparedMeans(request, facts);
    var p := Prepare(request, facts).value;
    ParsedIsValid(facts.sectorZero, Some(facts.lbaOne), p.selected.sizeBytes / SUPPORTED_SECTOR);
    RootIsLast(p.original, p.selected.sizeBytes / SUPPORTED_SECTOR);
    PlanCoversTarget(PlannedInput(facts, p));
  }

  // ----- Every stage, every failure -----

  /** The planned request, the medium it starts from, and its root as first parsed. */
  datatype Job = Job(start: Media, request: ShrinkRequest, root: Partition)

  function TotalSectors(job: Job): nat {
    job.request.deviceSizeBytes / SUPPORTED_SECTOR
  }

  /** What `PlanOnTable` gives, in terms of the request alone. */
  ghost predicate Sound(job: Job) {
    var request, root := job.request, job.root;
    && ParseSlots(Slots(SectorZero(job.start)), TotalSectors(job)) == Ok(request.original)
    && Valid(request.original, TotalSectors(job)) && root in request.original
    && root.number == request.partitionNumber && root.startLba == request.rootStartLba
    && root.startLba <= request.rootEndLba < TotalSectors(job)
    && ClearOfOthers(request.original, root, request.rootEndLba)
    && request.targetFilesystemKib * 1024 <= MAX_U64 && Goal(job) <= MAX_U64
    && job.start.minimumBytes <= Goal(job) <= job.start.filesystemBytes
    && Goal(job) <= (request.rootEndLba + 1 - request.rootStartLba) * SUPPORTED_SECTOR
    && job.start.filesystemBytes <= root.sectors * SUPPORTED_SECTOR
    && job.start.kernelRootBytes == root.sectors * SUPPORTED_SECTOR
  }

  /** The filesystem size `resize2fs` aims for. */
  function Goal(job: Job): nat {
    ResizedBytes(job.request.targetFilesystemKib, job.start.blockSize)
  }

  function NewSectors(job: Job): int {
    job.request.rootEndLba + 1 - job.request.rootStartLba
  }

  /** The table is the original one, or the original one with the root's length rewritten. */
  ghost predicate TableKnown(job: Job, m: Media) {
    || Slots(SectorZero(m)) == Slots(SectorZero(job.start))
    || RootRewritten(job, m)
  }

  ghost predicate RootRewritten(job: Job, m: Media) {
    && 1 <= job.request.partitionNumber <= 4 && 1 <= NewSectors(job) <= MAX_U32
    && Slots(SectorZero(m)) == SetSlot(Slots(SectorZero(job.start)), job.request.partitionNumber, NewSectors(job))
  }

  /** What holds after any number of stages, however the last of them went. */
  ghost predicate Invariant(job: Job, m: Media) {
    && |m.bytes| == |job.start.bytes| && m.blockSize == job.start.blockSize && m.minimumBytes == job.start.minimumBytes
    && TableKnown(job, m)
    && Goal(job) <= m.filesystemBytes <= job.start.filesystemBytes
    && (|| m.filesystemBytes == Goal(job)
        || (Slots(SectorZero(m)) == Slots(SectorZero(job.start)) && m.kernelRootBytes == job.start.kernelRootBytes))
    && m.kernelRootBytes in {job.start.kernelRootBytes, NewSectors(job) * SUPPORTED_SECTOR}
  }

  lemma WrittenKeeps(job: Job, m: Media, fill: nat -> Byte)
    requires Invariant(job, m)
    ensures Invariant(job, Written(m, fill))
  {
    hide Slots, SetSlot;
  }

  lemma ResizedKeeps(job: Job, m: Media, outcome: Outcome)
    requires Sound(job) && Invariant(job, m)
    ensures Invariant(job, Resized(m, job.request, outcome))
    ensures outcome.succeeds || m.filesystemBytes == Goal(job) ==>
              Resized(m, job.request, outcome).filesystemBytes == Goal(job)
  {
    hide Slots, SetSlot, ResizedBytes, ParseSlots, Valid, ClearOfOthers;
  }

  lemma SetSlotTwice(slots: Table, number: nat, sectors: U32)
    requires 1 <= number <= 4
    ensures SetSlot(SetSlot(slots, number, sectors), number, sectors) == SetSlot(slots, number, sectors)
  {
  }

  lemma RepartitionedSector(m: Media, request: ShrinkRequest)
    requires Storable(request)
    ensures SectorZero(Repartitioned(m, request))
            == SetSectors(SectorZero(m), request.partitionNumber,
                          PrimarySectors(request.rootStartLba, request.rootEndLba).value)
  {
    hide SetSectors;
  }

  lemma StorableFits(request: ShrinkRequest)
    requires Storable(request)
    ensures 1 <= request.partitionNumber <= 4 && 1 <= request.rootEndLba + 1 - request.rootStartLba <= MAX_U32
    ensures PrimarySectors(request.rootStartLba, request.rootEndLba)
            == Ok(request.rootEndLba + 1 - request.rootStartLba)
  {
  }

  lemma RepartitionedSlots(m: Media, request: ShrinkRequest)
    requires Storable(request)
    ensures 1 <= request.partitionNumber <= 4 && 1 <= request.rootEndLba + 1 - request.rootStartLba <= MAX_U32
    ensures Slots(SectorZero(Repartitioned(m, request)))
            == SetSlot(Slots(SectorZero(m)), request.partitionNumber, request.rootEndLba + 1 - request.rootStartLba)
  {
    hide Slots, HasSignature, SetSectors, SetSlot, SectorZero, Repartitioned, PrimarySectors, Storable;
    StorableFits(request);
    RepartitionedSector(m, request);
    RewrittenSlots(SectorZero(m), request.partitionNumber, request.rootEndLba + 1 - request.rootStartLba);
  }

  lemma RepartitionedRewrites(job: Job, m: Media)
    requires Sound(job) && TableKnown(job, m) && Storable(job.request)
    ensures RootRewritten(job, Repartitioned(m, job.request))
  {
    hide Slots, ResizedBytes, ParseSlots, Valid, ClearOfOthers, SetSlot, Repartitioned, SectorZero;
    RepartitionedSlots(m, job.request);
    SetSlotTwice(Slots(SectorZero(job.start)), job.request.partitionNumber, NewSectors(job));
  }

  lemma RepartitionedKeeps(job: Job, m: Media)
    requires Sound(job) && Invariant(job, m) && m.filesystemBytes == Goal(job) && Storable(job.request)
    ensures Invariant(job, Repartitioned(m, job.request))
  {
    RepartitionedRewrites(job, m);
    hide Slots, ResizedBytes, SetSectors, Sound, RootRewritten;
  }

  lemma RootEntry(job: Job, m: Media)
    requires Sound(job) && TableKnown(job, m)
    ensures 1 <= job.request.partitionNumber <= 4
    ensures TableRootBytes(m, job.request.partitionNumber)
            == if Slots(SectorZero(m)) == Slots(SectorZero(job.start)) then job.root.sectors * SUPPORTED_SECTOR
               else NewSectors(job) * SUPPORTED_SECTOR
  {
    CollectedMembers(Slots(SectorZero(job.start)), 4, job.root);
    hide EntryAt, Slots, Valid, ClearOfOthers, Collected, SectorZero;
    SlotIsEntry(SectorZero(m), job.root.number);
    SlotIsEntry(SectorZero(job.start), job.root.number);
  }

  lemma RereadKeeps(job: Job, m: Media)
    requires Sound(job) && Invariant(job, m) && m.filesystemBytes == Goal(job)
    ensures Invariant(job, m.(kernelRootBytes := TableRootBytes(m, job.request.partitionNumber)))
  {
    RootEntry(job, m);
    hide Slots, SetSlot, ResizedBytes, ParseSlots, Valid, ClearOfOthers, TableRootBytes;
  }

  /** One stage keeps the invariant, provided the table is touched only after the filesystem is small. */
  lemma StageKeepsInvariant(job: Job, m: Media, stage: Stage, outcome: Outcome)
    requires Sound(job) && Invariant(job, m)
    requires stage in {ResizePartition, RereadPartitionTable} ==> m.filesystemBytes == Goal(job)
    ensures Invariant(job, Effect(m, stage, job.request, outcome))
    ensures m.filesystemBytes == Goal(job) || (stage == ResizeFilesystem && outcome.succeeds) ==>
              Effect(m, stage, job.request, outcome).filesystemBytes == Goal(job)
  {
    WrittenKeeps(job, m, outcome.fill);
    ResizedKeeps(job, m, outcome);
    if stage == ResizePartition && Storable(job.request) {
      RepartitionedKeeps(job, m);
    }
    if stage == RereadPartitionTable {
      RereadKeeps(job, m);
    }
    hide Invariant, Sound, Goal;
  }

  /**
   * The filesystem fits both the table's root and the kernel's, nothing but the root's length has
   * moved, and the filesystem is no smaller than its minimum.
   */
  ghost predicate Safe(job: Job, m: Media) {
    var table := ParseSlots(Slots(SectorZero(m)), TotalSectors(job));
    && table.Ok?
    && table.value in {job.request.original, WithEnd(job.request.original, job.root.number, job.request.rootEndLba)}
    && m.filesystemBytes <= TableRootBytes(m, job.root.number)
    && m.filesystemBytes <= m.kernelRootBytes
    && m.minimumBytes <= m.filesystemBytes
  }

  lemma RewrittenTable(job: Job, slots: Table)
    requires Sound(job) && 1 <= job.request.partitionNumber <= 4 && 1 <= NewSectors(job) <= MAX_U32
    requires slots == SetSlot(Slots(SectorZero(job.start)), job.request.partitionNumber, NewSectors(job))
    ensures ParseSlots(slots, TotalSectors(job))
            == Ok(WithEnd(job.request.original, job.root.number, job.request.rootEndLba))
  {
    hide Slots, Valid, ClearOfOthers, SetSlot, Collected, WithEnd, FirstFault, PairwiseDisjoint;
    SlotRewriteParse(Slots(SectorZero(job.start)), TotalSectors(job), job.root, job.request.rootEndLba);
  }

  lemma InvariantIsSafe(job: Job, m: Media)
    requires Sound(job) && Invariant(job, m)
    ensures Safe(job, m)
  {
    RootEntry(job, m);
    if RootRewritten(job, m) {
      RewrittenTable(job, Slots(SectorZero(m)));
    }
    hide Slots, SetSlot, ResizedBytes, ParseSlots, Valid, ClearOfOthers, TableRootBytes, WithEnd;
  }

  /**
   * Why the filesystem goes first: writing the planned partition around the filesystem as it starts out
   * is safe exactly when that filesystem already fits the planned length.
   */
  lemma PartitionFirstIsSafeExactly(job: Job)
    requires Sound(job) && Storable(job.request)
    ensures Safe(job, Repartitioned(job.start, job.request))
            <==> job.start.filesystemBytes <= NewSectors(job) * SUPPORTED_SECTOR
  {
    var m := Repartitioned(job.start, job.request);
    RepartitionedRewrites(job, job.start);
    RewrittenTable(job, Slots(SectorZero(m)));
    RewrittenRoot(job, m);
    hide Slots, SetSlot, ResizedBytes, ParseSlots, Valid, ClearOfOthers, TableRootBytes, WithEnd, SectorZero;
  }

  lemma RewrittenRoot(job: Job, m: Media)
    requires Sound(job) && RootRewritten(job, m)
    ensures TableRootBytes(m, job.request.partitionNumber) == NewSectors(job) * SUPPORTED_SECTOR
  {
    hide EntryAt, Slots, Valid, ClearOfOthers, SectorZero;
    SlotIsEntry(SectorZero(m), job.request.partitionNumber);
  }

  /**
   * However far the transaction got and however its last stage ended, the source is safe: the
   * filesystem fits its partition and every other entry is untouched.
   */
  lemma {:induction false} EveryStageIsSafe(job: Job, outcomes: Stage -> Outcome, k: nat)
    requires Sound(job) && k <= |STAGES|
    requires k > 0 ==> Passed(job.start, job.request, outcomes, k - 1)
    ensures Invariant(job, After(job.start, job.request, outcomes, k))
    ensures Safe(job, After(job.start, job.request, outcomes, k))
    ensures k > 0 && Passed(job.start, job.request, outcomes, k) && k > 5 ==>
              After(job.start, job.request, outcomes, k).filesystemBytes == Goal(job)
  {
    hide Effect, Safe, Invariant, Goal, Sound;
    if k == 0 {
      StartInvariant(job);
    } else {
      EveryStageIsSafe(job, outcomes, k - 1);
      var stage := STAGES[k - 1];
      StageKeepsInvariant(job, After(job.start, job.request, outcomes, k - 1), stage, outcomes(stage));
      assert k == 6 && Passed(job.start, job.request, outcomes, k) ==> outcomes(stage).succeeds by {
        assert Passed(job.start, job.request, outcomes, k) ==> Report(job.start, job.request, outcomes, k - 1).Ok?;
      }
    }
    InvariantIsSafe(job, After(job.start, job.request, outcomes, k));
  }

  lemma StartInvariant(job: Job)
    requires Sound(job)
    ensures Invariant(job, job.start)
  {
    hide Slots, ParseSlots, ResizedBytes, Valid, ClearOfOthers;
  }

  /** The job `execute` runs after `prepare` on this medium. */
  lemma PreparedJobIsSound(m: Media, request: ImageRequest, facts: Facts)
    requires PreparedOn(m, request, facts)
    ensures var p := Prepare(request, facts).value;
            && p.rootStartLba <= MAX_U64 && p.plan.rootEndLba <= MAX_U64 && p.plan.targetFilesystemBytes <= MAX_U64
            && p.original != []
            && Sound(Job(m, ShrinkRequestFor(p), LastByEnd(p.original)))
  {
    hide Prepare, BuildPlan, Slots;
    PreparedMeans(request, facts);
    PlanOnTable(request, facts);
    var p := Prepare(request, facts).value;
    var job := Job(m, ShrinkRequestFor(p), LastByEnd(p.original));
    ResizedSizeAccepted(PlannedInput(facts, p), m.blockSize, facts.minimumBlocks.value, facts.blockCount.value);
    assert ParseSlots(Slots(SectorZero(m)), TotalSectors(job)) == Ok(p.original);
    CollectedMembers(Slots(SectorZero(m)), 4, job.root);
    SlotIsEntry(SectorZero(m), job.root.number);
  }

  lemma SlotIsEntry(sector: Sector, number: nat)
    requires 1 <= number <= 4
    ensures Slots(sector)[number - 1] == EntryAt(sector, number)
  {
  }

  // ----- A transaction that succeeds -----

  /** Success means the table read back is the planned one, under the whole device's bound. */
  lemma SuccessAppliesPlan(job: Job, outcomes: Stage -> Outcome)
    requires Sound(job) && job.request.logicalSectorSize == SUPPORTED_SECTOR
    requires Passed(job.start, job.request, outcomes, |STAGES|)
    ensures var m := After(job.start, job.request, outcomes, |STAGES|);
            && |m.bytes| == |job.start.bytes|
            && Parse(SectorZero(m), Some(LbaOne(m)), TotalSectors(job))
               == Ok(WithEnd(job.request.original, job.request.partitionNumber, job.request.rootEndLba))
            && m.filesystemBytes == Goal(job) && m.kernelRootBytes == NewSectors(job) * SUPPORTED_SECTOR
  {
    KernelKnowsPlan(job, outcomes);
    assert Valid(job.request.original, TotalSectors(job));
    hide Effect, Safe, Parse, Verdict, After, Sound, WithEnd, Valid, Revalidation, SectorZero, LbaOne;
    EveryStageIsSafe(job, outcomes, 10);
    PassedLast(job.start, job.request, outcomes);
    AcceptedIsPlanned(After(job.start, job.request, outcomes, 10), job.request, outcomes(Revalidate));
  }

  /** Once the table was reread the kernel believes the planned length. */
  lemma KernelKnowsPlan(job: Job, outcomes: Stage -> Outcome)
    requires Sound(job) && Passed(job.start, job.request, outcomes, |STAGES|)
    ensures After(job.start, job.request, outcomes, |STAGES|).kernelRootBytes == NewSectors(job) * SUPPORTED_SECTOR
  {
    PassedMeansSucceeded(job.start, job.request, outcomes, |STAGES|);
    assert outcomes(STAGES[8]).succeeds;
    assert STAGES[8] == RereadPartitionTable;
    hide Effect, Sound, Slots, SetSlot;
    FinalTable(job, outcomes);
    LastStageReads(job.start, job.request, outcomes);
    var eight, nine := After(job.start, job.request, outcomes, 8), After(job.start, job.request, outcomes, 9);
    assert nine == Effect(eight, STAGES[8], job.request, outcomes(STAGES[8]));
    RereadTells(eight, job.request, outcomes(RereadPartitionTable));
    RewrittenRoot(job, nine);
  }

  lemma RereadTells(m: Media, request: ShrinkRequest, outcome: Outcome)
    requires outcome.succeeds
    ensures var after := Effect(m, RereadPartitionTable, request, outcome);
            after.kernelRootBytes == TableRootBytes(after, request.partitionNumber)
  {
  }

  /** The last stage changes nothing, so what it accepted is what is left. */
  lemma PassedLast(start: Media, request: ShrinkRequest, outcomes: Stage -> Outcome)
    requires Passed(start, request, outcomes, |STAGES|)
    ensures Revalidation(After(start, request, outcomes, |STAGES|), request, outcomes(Revalidate)).Ok?
  {
    hide Effect, Revalidation, After;
    assert Report(start, request, outcomes, 9).Ok?;
    LastStageReads(start, request, outcomes);
  }

  lemma LastStageReads(start: Media, request: ShrinkRequest, outcomes: Stage -> Outcome)
    ensures After(start, request, outcomes, 10) == After(start, request, outcomes, 9)
    ensures Report(start, request, outcomes, 9)
            == Revalidation(After(start, request, outcomes, 9), request, outcomes(Revalidate))
  {
    hide Effect, Revalidation;
    assert STAGES[9] == Revalidate;
    RevalidateReads(After(start, request, outcomes, 9), request, outcomes(Revalidate));
  }

  /** What the last stage accepts is the planned table, whatever the medium was before. */
  lemma AcceptedIsPlanned(m: Media, request: ShrinkRequest, outcome: Outcome)
    requires request.logicalSectorSize == SUPPORTED_SECTOR
    requires Valid(request.original, request.deviceSizeBytes / SUPPORTED_SECTOR)
    requires Revalidation(m, request, outcome).Ok?
    ensures Parse(SectorZero(m), Some(LbaOne(m)), request.deviceSizeBytes / SUPPORTED_SECTOR)
            == Ok(WithEnd(request.original, request.partitionNumber, request.rootEndLba))
    ensures request.rootStartLba <= request.rootEndLba
  {
    hide Parse, Verdict, SectorZero, LbaOne;
    var total := request.deviceSizeBytes / SUPPORTED_SECTOR;
    var table := Parse(SectorZero(m), Some(LbaOne(m)), total);
    ParsedIsValid(SectorZero(m), Some(LbaOne(m)), total);
    ValidationIsExact(request, table.value, Ext4Geometry(m.minimumBytes, m.filesystemBytes, m.blockSize), total, total);
  }

  lemma EffectKeepsSize(m: Media, stage: Stage, request: ShrinkRequest, outcome: Outcome)
    ensures |Effect(m, stage, request, outcome).bytes| == |m.bytes|
  {
    hide SetSectors;
  }

  /** No stage changes how large the device is. */
  lemma {:induction false} AfterKeepsSize(m: Media, request: ShrinkRequest, outcomes: Stage -> Outcome, k: nat)
    requires k <= |STAGES|
    ensures |After(m, request, outcomes, k).bytes| == |m.bytes|
  {
    hide Effect;
    if k > 0 {
      AfterKeepsSize(m, request, outcomes, k - 1);
      EffectKeepsSize(After(m, request, outcomes, k - 1), STAGES[k - 1], request, outcomes(STAGES[k - 1]));
    }
  }

  lemma RevalidateReads(m: Media, request: ShrinkRequest, outcome: Outcome)
    ensures Effect(m, Revalidate, request, outcome) == m
  {
  }

  /**
   * Planner, tools and validator agree: when every tool does its work, all ten stages succeed exactly
   * when the planned length fits its table field and LBA 1 has not come to look like a GPT header.
   */
  lemma HonestToolsSucceed(job: Job, outcomes: Stage -> Outcome)
    requires Sound(job) && job.request.logicalSectorSize == SUPPORTED_SECTOR
    requires HasSignature(SectorZero(job.start)) && Ext4BlockSize(job.start.blockSize)
    requires forall stage :: outcomes(stage).succeeds
    requires 1 <= job.request.partitionNumber <= 4
    ensures Passed(job.start, job.request, outcomes, |STAGES|)
            <==> && NewSectors(job) <= MAX_U32
                 && !GptHeader(Some(LbaOne(After(job.start, job.request, outcomes, |STAGES|))))
  {
    hide Effect, Safe, Parse, Verdict, Sound, HasSignature, GptHeader, After;
    if Passed(job.start, job.request, outcomes, |STAGES|) {
      PassedMeans(job.start, job.request, outcomes);
    }
    if && NewSectors(job) <= MAX_U32
       && !GptHeader(Some(LbaOne(After(job.start, job.request, outcomes, |STAGES|))))
    {
      FittingTableIsAccepted(job, outcomes);
    }
  }

  /** A run of stages that passed could store its length and found no GPT header. */
  lemma PassedMeans(start: Media, request: ShrinkRequest, outcomes: Stage -> Outcome)
    requires Passed(start, request, outcomes, |STAGES|)
    ensures request.rootEndLba + 1 - request.rootStartLba <= MAX_U32
    ensures !GptHeader(Some(LbaOne(After(start, request, outcomes, |STAGES|))))
  {
    hide Effect, After, Verdict, SectorZero, LbaOne, ParseSlots, Slots, GptHeader;
    PassedLast(start, request, outcomes);
    assert Report(start, request, outcomes, 7).Ok?;
    assert STAGES[7] == ResizePartition;
    StorableFits(request);
  }

  lemma FittingTableIsAccepted(job: Job, outcomes: Stage -> Outcome)
    requires Sound(job) && job.request.logicalSectorSize == SUPPORTED_SECTOR
    requires HasSignature(SectorZero(job.start)) && Ext4BlockSize(job.start.blockSize)
    requires forall stage :: outcomes(stage).succeeds
    requires 1 <= job.request.partitionNumber <= 4 && NewSectors(job) <= MAX_U32
    requires !GptHeader(Some(LbaOne(After(job.start, job.request, outcomes, |STAGES|))))
    ensures Passed(job.start, job.request, outcomes, |STAGES|)
  {
    hide Effect, Safe, Parse, Verdict;
    ToolStagesPass(job, outcomes, 9);
    EveryStageIsSafe(job, outcomes, 9);
    SignatureStays(job, outcomes, 9);
    FinalTable(job, outcomes);
    var before := After(job.start, job.request, outcomes, 9);
    RevalidateReads(before, job.request, outcomes(Revalidate));
    FinalVerdict(job, before, outcomes(Revalidate));
  }

  lemma SignatureKept(m: Media, stage: Stage, request: ShrinkRequest, outcome: Outcome)
    ensures HasSignature(SectorZero(Effect(m, stage, request, outcome))) == HasSignature(SectorZero(m))
  {
    if stage == ResizePartition && Storable(request) {
      RepartitionedSector(m, request);
      RewrittenSlots(SectorZero(m), request.partitionNumber,
                     PrimarySectors(request.rootStartLba, request.rootEndLba).value);
    }
    hide HasSignature, Slots, Repartitioned, SectorZero, SetSlot, SetSectors;
  }

  lemma {:induction false} SignatureStays(job: Job, outcomes: Stage -> Outcome, k: nat)
    requires k <= |STAGES|
    ensures HasSignature(SectorZero(After(job.start, job.request, outcomes, k)))
            == HasSignature(SectorZero(job.start))
  {
    hide Effect, HasSignature, SectorZero;
    if k > 0 {
      SignatureStays(job, outcomes, k - 1);
      var stage := STAGES[k - 1];
      SignatureKept(After(job.start, job.request, outcomes, k - 1), stage, job.request, outcomes(stage));
    }
  }

  /** Once `sfdisk` has succeeded the table stays rewritten. */
  lemma FinalTable(job: Job, outcomes: Stage -> Outcome)
    requires Sound(job) && Passed(job.start, job.request, outcomes, 9)
    ensures RootRewritten(job, After(job.start, job.request, outcomes, 9))
  {
    EveryStageIsSafe(job, outcomes, 7);
    var seven := After(job.start, job.request, outcomes, 7);
    var eight := After(job.start, job.request, outcomes, 8);
    assert Report(job.start, job.request, outcomes, 7).Ok?;
    SfdiskRewrites(job, seven, outcomes(ResizePartition));
    assert eight == Effect(seven, STAGES[7], job.request, outcomes(STAGES[7]));
    assert After(job.start, job.request, outcomes, 9) == Effect(eight, STAGES[8], job.request, outcomes(STAGES[8]));
    RereadKeepsBytes(eight, job.request, outcomes(RereadPartitionTable));
    hide Effect, Slots, SetSlot, Answer, Sound, Safe;
  }

  lemma RereadKeepsBytes(m: Media, request: ShrinkRequest, outcome: Outcome)
    ensures SectorZero(Effect(m, RereadPartitionTable, request, outcome)) == SectorZero(m)
  {
  }

  lemma SfdiskRewrites(job: Job, m: Media, outcome: Outcome)
    requires Sound(job) && TableKnown(job, m)
    requires Answer(m, ResizePartition, job.request, outcome).Ok?
    ensures RootRewritten(job, Effect(m, ResizePartition, job.request, outcome))
  {
    RepartitionedRewrites(job, m);
    hide RootRewritten, TableKnown, Sound, Repartitioned;
  }

  lemma FinalVerdict(job: Job, m: Media, outcome: Outcome)
    requires Sound(job) && Invariant(job, m) && m.filesystemBytes == Goal(job) && RootRewritten(job, m)
    requires job.request.logicalSectorSize == SUPPORTED_SECTOR && outcome.succeeds
    requires HasSignature(SectorZero(m)) && !GptHeader(Some(LbaOne(m)))
    ensures Revalidation(m, job.request, outcome).Ok?
  {
    hide Slots, ParseSlots, Verdict, SetSlot, HasSignature, GptHeader, SectorZero, LbaOne, ClearOfOthers;
    RewrittenTable(job, Slots(SectorZero(m)));
    var table := WithEnd(job.request.original, job.root.number, job.request.rootEndLba);
    assert Parse(SectorZero(m), Some(LbaOne(m)), TotalSectors(job)) == Ok(table);
    ParsedIsValid(SectorZero(m), Some(LbaOne(m)), TotalSectors(job));
    DivBounds(job.request.targetFilesystemKib * 1024, m.blockSize);
    FindMember(job.request.original, job.root);
    ValidationIsExact(job.request, table, Ext4Geometry(m.minimumBytes, m.filesystemBytes, m.blockSize),
                      TotalSectors(job), TotalSectors(job));
  }

  lemma {:induction false} ToolStagesPass(job: Job, outcomes: Stage -> Outcome, k: nat)
    requires forall stage :: outcomes(stage).succeeds
    requires job.request.rootStartLba <= job.request.rootEndLba && NewSectors(job) <= MAX_U32
    requires 1 <= job.request.partitionNumber <= 4 && k <= 9
    ensures Passed(job.start, job.request, outcomes, k)
  {
    hide Effect, Revalidation;
    if k > 0 {
      ToolStagesPass(job, outcomes, k - 1);
      assert STAGES[k - 1] != Revalidate;
    }
  }
}
