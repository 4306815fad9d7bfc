/** Immutable preflight planning: the shrunken filesystem size, the partition end and the byte range. */
module Plan {
  import opened Basics

  const MIB: nat := 1024 * 1024
  const FIXED_MARGIN: nat := 256 * MIB

  datatype Compression = Zstandard(zstdLevel: int) | Xz(xzLevel: nat)
  datatype VerificationLevel = NoVerification | StreamingHash | Decode | SourceReread

  datatype PlanInput = PlanInput(
    deviceSizeBytes: U64,
    sectorSize: U64,
    rootStartLba: U64,
    ext4MinimumBytes: U64,
    ext4CurrentBytes: U64,
    outputAvailableBytes: U64,
    outputIsLocal: bool,
    alignmentBytes: U64)

  datatype ExecutionPlan = ExecutionPlan(
    rootStartLba: nat,
    targetFilesystemBytes: nat,
    safetyMarginBytes: nat,
    rootEndLba: nat,
    imageBytes: nat)

  datatype PlanError = OutputNotLocal | InsufficientOutputSpace | GeometryOverflow | InvalidFilesystemSize

  function AlignUp(value: U64, alignment: U64): Result<U64, PlanError>
    requires alignment > 0
  {
    var remainder := value % alignment;
    if remainder == 0 then Ok(value)
    else Checked(value + (alignment - remainder), GeometryOverflow)
  }

  function BuildPlan(input: PlanInput): Result<ExecutionPlan, PlanError> {
    if !input.outputIsLocal then Err(OutputNotLocal)
    else if input.ext4MinimumBytes > input.ext4CurrentBytes then Err(InvalidFilesystemSize)
    else if input.sectorSize == 0 || input.alignmentBytes == 0 then Err(GeometryOverflow)
    else
      var scaled :- Checked(input.ext4MinimumBytes * 5, GeometryOverflow);
      var safetyMargin := Max(FIXED_MARGIN, scaled / 100);
      var padded :- Checked(input.ext4MinimumBytes + safetyMargin, GeometryOverflow);
      var target := Min(padded, input.ext4CurrentBytes);
      var rootStartBytes :- Checked(input.rootStartLba * input.sectorSize, GeometryOverflow);
      var unaligned :- Checked(rootStartBytes + target, GeometryOverflow);
      var imageBytes :- AlignUp(unaligned, input.alignmentBytes);
      if imageBytes > input.deviceSizeBytes then Err(GeometryOverflow)
      else if input.outputAvailableBytes < imageBytes then Err(InsufficientOutputSpace)
      else
        var roundedUp :- Checked(imageBytes + (input.sectorSize - 1), GeometryOverflow);
        var rootEndLba :- Checked(roundedUp / input.sectorSize - 1, GeometryOverflow);
        Ok(ExecutionPlan(input.rootStartLba, target, safetyMargin, rootEndLba, imageBytes))
  }

  // ----- Reference definitions over unbounded integers -----

  function Margin(minimum: nat): nat {
    Max(FIXED_MARGIN, minimum * 5 / 100)
  }

  function Target(input: PlanInput): nat {
    Min(input.ext4MinimumBytes + Margin(input.ext4MinimumBytes), input.ext4CurrentBytes)
  }

  /** First byte past the shrunken filesystem. */
  function UsedBytes(input: PlanInput): nat
  {
    input.rootStartLba * input.sectorSize + Target(input)
  }

  /** `n` is the least multiple of `alignment` not below `value`. */
  ghost predicate LeastMultiple(n: int, value: int, alignment: int)
    requires alignment > 0
  {
    && n % alignment == 0 && value <= n
    && forall m :: m % alignment == 0 && value <= m ==> n <= m
  }

  function Ceiling(value: nat, alignment: nat): nat
    requires alignment > 0
  {
    (value + alignment - 1) / alignment * alignment
  }

  lemma DivBounds(a: nat, d: nat)
    requires d > 0
    ensures a / d * d <= a < a / d * d + d
    ensures a == a / d * d + a % d
  {
  }

  lemma QuotientMonotone(a: int, b: int, d: int)
    requires d > 0 && a * d < b * d + d
    ensures a <= b
  {
    assert (b + 1) * d == b * d + d;
    assert a >= b + 1 ==> a * d >= (b + 1) * d;
  }

  lemma QuotientUnique(a: int, d: int, q: int, r: int)
    requires d > 0 && 0 <= r < d && a == q * d + r
    ensures a / d == q && a % d == r
  {
    var q' := a / d;
    assert a == q' * d + a % d;
    QuotientMonotone(q, q', d);
    QuotientMonotone(q', q, d);
  }

  lemma MultipleMod(q: int, d: int)
    requires d > 0
    ensures q * d % d == 0
  {
    QuotientUnique(q * d, d, q, 0);
  }

  lemma CeilingIsLeast(value: nat, alignment: nat)
    requires alignment > 0
    ensures LeastMultiple(Ceiling(value, alignment), value, alignment)
    ensures Ceiling(value, alignment) < value + alignment
  {
    var q := (value + alignment - 1) / alignment;
    DivBounds(value + alignment - 1, alignment);
    MultipleMod(q, alignment);
    forall m | m % alignment == 0 && value <= m ensures q * alignment <= m {
      NoSmallerMultiple(q, value, alignment, m);
    }
  }

  lemma NoSmallerMultiple(q: nat, value: nat, alignment: nat, m: int)
    requires alignment > 0 && q * alignment <= value + alignment - 1
    requires m % alignment == 0 && value <= m
    ensures q * alignment <= m
  {
    var k := m / alignment;
    assert m == k * alignment;
    QuotientMonotone(q, k, alignment);
    MultiplesOrdered(q, k, alignment);
  }

  lemma MultiplesOrdered(a: int, b: int, d: nat)
    requires a <= b
    ensures a * d <= b * d
  {
    assert (b - a) * d >= 0;
    assert (b - a) * d == b * d - a * d;
  }

  lemma CeilingCovers(value: nat, alignment: nat)
    requires alignment > 0
    ensures value <= Ceiling(value, alignment) < value + alignment
  {
    CeilingIsLeast(value, alignment);
  }

  lemma AlignUpMeaning(value: U64, alignment: U64)
    requires alignment > 0
    ensures AlignUp(value, alignment)
            == if Ceiling(value, alignment) <= MAX_U64 then Ok(Ceiling(value, alignment)) else Err(GeometryOverflow)
  {
    var q, remainder := value / alignment, value % alignment;
    assert value == q * alignment + remainder;
    if remainder == 0 {
      assert (value + alignment - 1) / alignment == q by {
        QuotientUnique(value + alignment - 1, alignment, q, alignment - 1);
      }
    } else {
      assert (q + 1) * alignment == q * alignment + alignment;
      assert (value + alignment - 1) / alignment == q + 1 by {
        QuotientUnique(value + alignment - 1, alignment, q + 1, remainder - 1);
      }
    }
  }

  /** Everything that has to hold, over unbounded integers, for a plan to exist. */
  predicate Plannable(input: PlanInput) {
    && input.outputIsLocal
    && input.ext4MinimumBytes <= input.ext4CurrentBytes
    && input.sectorSize > 0 && input.alignmentBytes > 0
    && input.ext4MinimumBytes * 5 <= MAX_U64
    && input.ext4MinimumBytes + Margin(input.ext4MinimumBytes) <= MAX_U64
    && 0 < Ceiling(UsedBytes(input), input.alignmentBytes)
    && Ceiling(UsedBytes(input), input.alignmentBytes) <= input.deviceSizeBytes
    && Ceiling(UsedBytes(input), input.alignmentBytes) <= input.outputAvailableBytes
    && Ceiling(UsedBytes(input), input.alignmentBytes) + input.sectorSize - 1 <= MAX_U64
  }

  function LastSectorOf(imageBytes: nat, sectorSize: nat): int
    requires sectorSize > 0
  {
    (imageBytes + sectorSize - 1) / sectorSize - 1
  }

  /**
   * Planning succeeds exactly when the unbounded-integer conditions hold. The intermediate byte
   * offsets need no condition of their own: they are bounded by the image, and the image by the device.
   */
  lemma BuildPlanSucceedsExactly(input: PlanInput)
    ensures BuildPlan(input).Ok? <==> Plannable(input)
    ensures BuildPlan(input).Ok? ==>
              && LastSectorOf(Ceiling(UsedBytes(input), input.alignmentBytes), input.sectorSize) >= 0
              && BuildPlan(input).value
                 == ExecutionPlan(
                      input.rootStartLba, Target(input), Margin(input.ext4MinimumBytes),
                      LastSectorOf(Ceiling(UsedBytes(input), input.alignmentBytes), input.sectorSize),
                      Ceiling(UsedBytes(input), input.alignmentBytes))
  {
    hide Ceiling, LeastMultiple, AlignUp;
    if input.sectorSize > 0 && input.alignmentBytes > 0 {
      var used := UsedBytes(input);
      CeilingCovers(used, input.alignmentBytes);
      assert 0 <= input.rootStartLba * input.sectorSize <= used <= Ceiling(used, input.alignmentBytes);
      if used <= MAX_U64 {
        AlignUpMeaning(used, input.alignmentBytes);
      }
      LastSectorSign(Ceiling(used, input.alignmentBytes), input.sectorSize);
    }
  }

  lemma LastSectorSign(imageBytes: nat, sectorSize: nat)
    requires sectorSize > 0
    ensures LastSectorOf(imageBytes, sectorSize) >= 0 <==> imageBytes > 0
  {
    LastSector(imageBytes, sectorSize);
  }

  /**
   * Why a plan is refused: for a remote output before anything else, then for a minimum above the current
   * size, and for lack of space only when the image exists and fits the device.
   */
  lemma RefusedExactly(input: PlanInput)
    ensures BuildPlan(input) == Err(OutputNotLocal) <==> !input.outputIsLocal
    ensures BuildPlan(input) == Err(InvalidFilesystemSize)
            <==> input.outputIsLocal && input.ext4MinimumBytes > input.ext4CurrentBytes
    ensures BuildPlan(input) == Err(InsufficientOutputSpace)
            <==> && input.outputIsLocal && input.ext4MinimumBytes <= input.ext4CurrentBytes
                 && input.sectorSize > 0 && input.alignmentBytes > 0
                 && input.ext4MinimumBytes * 5 <= MAX_U64
                 && input.ext4MinimumBytes + Margin(input.ext4MinimumBytes) <= MAX_U64
                 && Ceiling(UsedBytes(input), input.alignmentBytes) <= input.deviceSizeBytes
                 && input.outputAvailableBytes < Ceiling(UsedBytes(input), input.alignmentBytes)
  {
    hide Ceiling, LeastMultiple, AlignUp;
    if input.sectorSize > 0 && input.alignmentBytes > 0 {
      var used := UsedBytes(input);
      CeilingCovers(used, input.alignmentBytes);
      assert 0 <= input.rootStartLba * input.sectorSize <= used <= Ceiling(used, input.alignmentBytes);
      if used <= MAX_U64 {
        AlignUpMeaning(used, input.alignmentBytes);
      }
    }
  }

  /** The margin is five percent of the minimum, but at least 256 MiB, and never grows the filesystem. */
  lemma MarginMeans(input: PlanInput)
    requires BuildPlan(input).Ok?
    ensures var plan, minimum := BuildPlan(input).value, input.ext4MinimumBytes;
            && plan.safetyMarginBytes >= 268435456 && 20 * plan.safetyMarginBytes + 20 > minimum
            && (plan.safetyMarginBytes == 268435456 || 20 * plan.safetyMarginBytes <= minimum)
            && minimum <= plan.targetFilesystemBytes <= input.ext4CurrentBytes
            && (plan.targetFilesystemBytes == minimum + plan.safetyMarginBytes
                || plan.targetFilesystemBytes == input.ext4CurrentBytes < minimum + plan.safetyMarginBytes)
  {
    BuildPlanSucceedsExactly(input);
    hide BuildPlan, Ceiling, LastSectorOf;
    DivBounds(input.ext4MinimumBytes * 5, 100);
  }

  /** `LastSectorOf` names the sector holding the image's last byte. */
  lemma LastSector(imageBytes: nat, sectorSize: nat)
    requires sectorSize > 0
    ensures var end := LastSectorOf(imageBytes, sectorSize);
            && (end >= 0 <==> imageBytes > 0)
            && end * sectorSize < imageBytes + (if imageBytes == 0 then 1 else 0)
            && imageBytes <= (end + 1) * sectorSize < imageBytes + sectorSize
            && (imageBytes % sectorSize == 0 ==> (end + 1) * sectorSize == imageBytes)
  {
    var q := (imageBytes + sectorSize - 1) / sectorSize;
    DivBounds(imageBytes + sectorSize - 1, sectorSize);
    assert (q - 1) * sectorSize == q * sectorSize - sectorSize;
    assert q <= 0 ==> q * sectorSize <= 0;
    if imageBytes % sectorSize == 0 {
      var k := imageBytes / sectorSize;
      assert imageBytes == k * sectorSize;
      QuotientUnique(imageBytes + sectorSize - 1, sectorSize, k, sectorSize - 1);
    }
  }

  lemma SectorsHoldTarget(start: nat, end: nat, sectorSize: nat, imageBytes: nat, target: nat)
    requires sectorSize > 0
    requires start * sectorSize + target <= imageBytes <= (end + 1) * sectorSize
    ensures target <= (end + 1 - start) * sectorSize
    ensures target > 0 ==> start <= end
  {
    assert (end + 1 - start) * sectorSize == (end + 1) * sectorSize - start * sectorSize;
    assert (end + 1) * sectorSize == end * sectorSize + sectorSize;
    if target > 0 {
      QuotientMonotone(start, end, sectorSize);
    }
  }

  /** What a plan promises about the bytes and sectors it names. */
  lemma PlanCoversTarget(input: PlanInput)
    requires BuildPlan(input).Ok?
    ensures var plan := BuildPlan(input).value;
            && plan.rootStartLba == input.rootStartLba
            && input.alignmentBytes > 0 && input.sectorSize > 0
            && LeastMultiple(plan.imageBytes, UsedBytes(input), input.alignmentBytes)
            && plan.imageBytes <= input.deviceSizeBytes
            && plan.imageBytes <= (plan.rootEndLba + 1) * input.sectorSize < plan.imageBytes + input.sectorSize
            && plan.targetFilesystemBytes <= (plan.rootEndLba + 1 - plan.rootStartLba) * input.sectorSize
            && (input.alignmentBytes % input.sectorSize == 0 ==>
                  (plan.rootEndLba + 1) * input.sectorSize == plan.imageBytes)
            && (input.ext4CurrentBytes > 0 ==> plan.rootStartLba <= plan.rootEndLba)
  {
    BuildPlanSucceedsExactly(input);
    hide BuildPlan;
    var plan := BuildPlan(input).value;
    CeilingIsLeast(UsedBytes(input), input.alignmentBytes);
    LastSector(plan.imageBytes, input.sectorSize);
    hide Ceiling, LastSectorOf;
    SectorsHoldTarget(plan.rootStartLba, plan.rootEndLba, input.sectorSize, plan.imageBytes, Target(input));
    if input.alignmentBytes % input.sectorSize == 0 {
      DividesThrough(plan.imageBytes, input.alignmentBytes, input.sectorSize);
    }
  }

  lemma StartsWithin(start: nat, end: nat, sectorSize: nat, imageBytes: nat)
    requires sectorSize > 0 && imageBytes <= (end + 1) * sectorSize < imageBytes + sectorSize
    ensures start <= end <==> start * sectorSize < imageBytes
  {
    assert (end + 1) * sectorSize == end * sectorSize + sectorSize;
    if start * sectorSize < imageBytes {
      QuotientMonotone(start, end, sectorSize);
    } else {
      QuotientMonotone(end + 1, start, sectorSize);
    }
  }

  /** The planned root has a sector exactly when there is a filesystem, or its start is unaligned. */
  lemma RootIsNonEmptyExactly(input: PlanInput)
    requires BuildPlan(input).Ok?
    ensures input.alignmentBytes > 0
    ensures var plan := BuildPlan(input).value;
            plan.rootStartLba <= plan.rootEndLba
            <==> input.ext4CurrentBytes > 0 || input.rootStartLba * input.sectorSize % input.alignmentBytes != 0
  {
    BuildPlanSucceedsExactly(input);
    PlanCoversTarget(input);
    hide BuildPlan, Plannable, Ceiling, Margin;
    var plan := BuildPlan(input).value;
    StartsWithin(input.rootStartLba, plan.rootEndLba, input.sectorSize, plan.imageBytes);
    var startBytes := input.rootStartLba * input.sectorSize;
    assert UsedBytes(input) == startBytes + Target(input);
    if input.ext4CurrentBytes == 0 {
      assert Target(input) == 0;
    }
  }

  lemma DividesThrough(n: nat, alignment: nat, sector: nat)
    requires alignment > 0 && sector > 0 && n % alignment == 0 && alignment % sector == 0
    ensures n % sector == 0
  {
    var a, b := n / alignment, alignment / sector;
    assert n == a * alignment && alignment == b * sector;
    assert n == (a * b) * sector;
    MultipleMod(a * b, sector);
  }

  /**
   * When the sector size does not divide the alignment the partition can end past the image: here two
   * sectors of 768 bytes cover an image of 1024, so its last sector is only partly captured.
   */
  lemma UnalignedEndPassesImage()
    ensures var input := PlanInput(4096, 768, 1, 1, 1, 4096, true, 1024);
            && BuildPlan(input).Ok?
            && (BuildPlan(input).value.rootEndLba + 1) * input.sectorSize > BuildPlan(input).value.imageBytes
  {
  }

  /** Exactly when the image ends with the partition: the sector size divides the image length. */
  lemma EndMatchesImageExactly(input: PlanInput)
    requires BuildPlan(input).Ok?
    ensures (BuildPlan(input).value.rootEndLba + 1) * input.sectorSize == BuildPlan(input).value.imageBytes
            <==> Ceiling(UsedBytes(input), input.alignmentBytes) % input.sectorSize == 0
  {
    var plan := BuildPlan(input).value;
    BuildPlanSucceedsExactly(input);
    LastSector(plan.imageBytes, input.sectorSize);
    if (plan.rootEndLba + 1) * input.sectorSize == plan.imageBytes {
      MultipleMod(plan.rootEndLba + 1, input.sectorSize);
    }
  }

  ghost predicate EndsWithImage(input: PlanInput) {
    BuildPlan(input).Ok? ==>
      (BuildPlan(input).value.rootEndLba + 1) * input.sectorSize == BuildPlan(input).value.imageBytes
  }

  /**
   * In terms of the configuration alone: every plan ends with its image exactly when the sector size
   * divides the alignment, or the two are so large that nothing can be planned at all.
   */
  lemma ConfigurationEndsWithImageExactly(sectorSize: U64, alignment: U64)
    requires sectorSize > 0 && alignment > 0
    ensures alignment % sectorSize == 0 || alignment + sectorSize - 1 > MAX_U64
            <==> forall input: PlanInput ::
                   input.sectorSize == sectorSize && input.alignmentBytes == alignment ==> EndsWithImage(input)
  {
    forall input: PlanInput | input.sectorSize == sectorSize && input.alignmentBytes == alignment
      ensures alignment % sectorSize == 0 || alignment + sectorSize - 1 > MAX_U64 ==> EndsWithImage(input)
    {
      if BuildPlan(input).Ok? {
        BuildPlanSucceedsExactly(input);
        PlanCoversTarget(input);
        hide BuildPlan, Ceiling;
        PositiveMultiple(BuildPlan(input).value.imageBytes, alignment);
      }
    }
    if alignment % sectorSize != 0 && alignment + sectorSize - 1 <= MAX_U64 {
      OneByteImage(sectorSize, alignment);
    }
  }

  lemma PositiveMultiple(n: nat, d: nat)
    requires d > 0 && n > 0 && n % d == 0
    ensures n >= d
  {
  }

  /** One byte of filesystem at the start of the device makes an image of one alignment unit. */
  lemma OneByteImage(sectorSize: U64, alignment: U64)
    requires sectorSize > 0 && alignment > 0 && alignment + sectorSize - 1 <= MAX_U64
    ensures var input := PlanInput(alignment, sectorSize, 0, 1, 1, alignment, true, alignment);
            && BuildPlan(input).Ok? && BuildPlan(input).value.imageBytes == alignment
            && (EndsWithImage(input) ==> alignment % sectorSize == 0)
  {
    var input := PlanInput(alignment, sectorSize, 0, 1, 1, alignment, true, alignment);
    assert UsedBytes(input) == 1;
    QuotientUnique(alignment, alignment, 1, 0);
    assert Ceiling(1, alignment) == alignment;
    BuildPlanSucceedsExactly(input);
    hide BuildPlan;
    if EndsWithImage(input) {
      MultipleMod(BuildPlan(input).value.rootEndLba + 1, sectorSize);
    }
  }

  /** An empty filesystem at an aligned start: the planned root ends before it starts. */
  lemma EmptyRootEndsEarly()
    ensures var input := PlanInput(4 * MIB, 512, 2048, 0, 0, 4 * MIB, true, MIB);
            BuildPlan(input).Ok? && BuildPlan(input).value.rootEndLba < BuildPlan(input).value.rootStartLba
  {
  }

  // ----- Planner, resize2fs and the validator agree on the size -----

  /** The block sizes ext4 has: whole KiB up to 64 KiB. */
  predicate Ext4BlockSize(blockSize: nat) {
    1024 <= blockSize <= 65536 && blockSize % 1024 == 0
  }

  /** `resize2fs <kib>K`: the target in whole blocks. */
  function ResizedBytes(kib: nat, blockSize: nat): nat
    requires blockSize > 0
  {
    kib * 1024 / blockSize * blockSize
  }

  /**
   * Through the 5% division, the truncation to KiB and the rounding to blocks, the resized filesystem
   * stays between the e2fsprogs minimum and the target, and within one block of the requested KiB.
   */
  lemma ResizedSizeAccepted(input: PlanInput, blockSize: nat, minimumBlocks: nat, currentBlocks: nat)
    requires BuildPlan(input).Ok? && Ext4BlockSize(blockSize)
    requires input.ext4MinimumBytes == minimumBlocks * blockSize
    requires input.ext4CurrentBytes == currentBlocks * blockSize
    ensures var target := BuildPlan(input).value.targetFilesystemBytes;
            var resized := ResizedBytes(target / 1024, blockSize);
            && input.ext4MinimumBytes <= resized <= target <= input.ext4CurrentBytes
            && resized <= target / 1024 * 1024
            && target / 1024 * 1024 - resized < blockSize
            && resized % blockSize == 0
  {
    BuildPlanSucceedsExactly(input);
    var target := Target(input);
    var wanted := target / 1024 * 1024;
    DivBounds(target, 1024);
    DivBounds(wanted, blockSize);
    MultipleMod(wanted / blockSize, blockSize);
    if target == input.ext4CurrentBytes {
      DivisorOfProduct(currentBlocks, blockSize);
      QuotientUnique(target, blockSize, currentBlocks, 0);
    }
  }

  lemma DivisorOfProduct(count: nat, blockSize: nat)
    requires blockSize % 1024 == 0
    ensures count * blockSize / 1024 * 1024 == count * blockSize
  {
    var k := blockSize / 1024;
    assert count * blockSize == (count * k) * 1024;
  }
}
