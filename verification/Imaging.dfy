/** The imaging engine: prepare, shrink, extract, verify, describe, and the durable log around it. */
module Imaging {
  import opened Basics
  import opened Mbr
  import opened Plan
  import opened Shrink
  import opened Transaction
  import opened Preparation
  import opened ShrinkSafety
  import opened Tools
  import opened SelfAcceptance
  import opened Text
  import Discovery
  import Streams
  import Extract
  import Verify
  import Flash

  const EXTRACT_BUFFER: nat := 1024 * 1024
  const EXTRACT_QUEUE: nat := 4

  /** The five names one output path stands for. */
  datatype Artifact = ImageFile | PartialImage | SidecarFile | PartialSidecar | LogFile

  datatype Phase = PreparingPhase | MutatingPhase | ExtractingPhase | VerifyingPhase | CompletePhase
  datatype LogResult = LogResult(success: bool, phase: Phase, sourceModified: bool)

  datatype Content =
    | Raw(bytes: seq<Byte>)
    | Unfinished
    | Described(metadata: Flash.ImageMetadata)
    | LogText(result: Option<LogResult>)

  /** What an outside observer sees, in order. */
  datatype Event = Attempted(stage: Stage) | Named(artifact: Artifact) | VerifiedImage

  datatype RunError =
    | BadRequest
    | OutputConflict(artifact: Artifact)
    | LogFailure
    | PrepareFailed(prepare: PrepareError)
    | SetupFailed
    | ShrinkFailed(shrink: ShrinkError)
    | ExtractFailed(extract: Extract.ExtractError)
    | VerifyFailed(verify: Verify.VerifyError)
    | SidecarFailed

  /** Where `write_sidecar` gives up, if it does. */
  datatype SidecarOutcome = CannotCreate | CannotWrite | CannotRename | CannotSync | SidecarWritten

  /** Everything the outside world decides during one run. */
  datatype World = World(
    extensionMatches: bool,
    outputInspectable: bool,
    logCreates: bool,
    headerWrites: bool,
    facts: Facts,
    lastCheck: Result<seq<DeviceIdentity>, ()>,
    mountDirectory: bool,
    signalsBlocked: bool,
    listenerJoins: bool,
    partialCreates: bool,
    schedule: nat -> Extract.Choice,
    imageOpens: bool,
    imageReads: nat -> Streams.ReadOutcome,
    sourceOpens: bool,
    sourceReads: nat -> Streams.ReadOutcome,
    sidecar: SidecarOutcome,
    resultWrites: bool,
    resultSyncs: bool)

  class Machine {
    const tools: Toolbox
    const backend: LinuxShrinkBackend
    var files: map<Artifact, Content>
    var trace: seq<Event>

    constructor (tools: Toolbox, backend: LinuxShrinkBackend, files: map<Artifact, Content>)
      ensures this.tools == tools && this.backend == backend && this.files == files && trace == []
    {
      this.tools, this.backend, this.files, trace := tools, backend, files, [];
    }
  }

  function Attempts(stages: seq<Stage>): seq<Event> {
    seq(|stages|, i requires 0 <= i < |stages| => Attempted(stages[i]))
  }

  const MILESTONES: seq<Event> := [Named(ImageFile), VerifiedImage, Named(SidecarFile)]

  /** The only traces a run can leave: some first stages, then some first milestones. */
  function TraceOf(reached: nat, milestones: nat): seq<Event>
    requires reached <= |STAGES| && milestones <= |MILESTONES|
  {
    Attempts(STAGES[..reached]) + MILESTONES[..milestones]
  }

  function ExtractOptionsFor(request: ImageRequest, imageBytes: U64): Extract.ExtractOptions {
    Extract.ExtractOptions(imageBytes, request.compression, !request.verification.NoVerification?,
                           EXTRACT_BUFFER, EXTRACT_QUEUE)
  }

  /** The sidecar's record, from what extraction and verification returned. */
  function MetadataFor(
    request: ImageRequest, prepared: Prepared, extracted: Extract.ExtractResult,
    verification: Verify.VerificationResult)
    : Flash.ImageMetadata
  {
    Flash.ImageMetadata(
      extracted.rawBytes, extracted.compressedBytes, request.compression, extracted.compressedSha256, verification,
      Some(prepared.selected.sizeBytes), Some(prepared.selected.logicalSectorSize), prepared.partitions)
  }

  /** Verification is asked for the planned length and the hash extraction returned. */
  function VerifyRequestFor(request: ImageRequest, imageBytes: U64, extracted: Extract.ExtractResult)
    : Verify.VerifyRequest
  {
    Verify.VerifyRequest(request.verification, imageBytes, extracted.rawSha256)
  }

  /** What the image's name stands for: the planned range of the shrunk source, encoded. */
  ghost predicate HoldsRange(
    tools: Toolbox, request: ImageRequest, source: seq<Byte>, imageBytes: nat, file: seq<Byte>)
  {
    && imageBytes <= |source|
    && exists chunks: seq<seq<Byte>> ::
         Flatten(chunks) == source[..imageBytes] && file == tools.encode(request.compression, chunks)
  }

  /** What extraction returned describes the range and the file it made of it. */
  ghost predicate Describes(
    tools: Toolbox, request: ImageRequest, source: seq<Byte>, imageBytes: nat, file: seq<Byte>,
    extracted: Extract.ExtractResult)
  {
    && imageBytes <= |source| && extracted.rawBytes == imageBytes
    && extracted.rawSha256
       == (if request.verification.NoVerification? then None else Some(tools.sha(source[..imageBytes])))
    && extracted.compressedBytes == |file| && extracted.compressedSha256 == tools.sha(file)
  }

  /** Nothing that existed has been overwritten or removed. */
  ghost predicate Kept(before: map<Artifact, Content>, now: map<Artifact, Content>) {
    forall a :: a in before ==> a in now && now[a] == before[a]
  }

  /** Extraction into the final name, under an arbitrary schedule. */
  method ExtractImage(m: Machine, world: World, request: ImageRequest, imageBytes: U64)
    returns (r: Result<Extract.ExtractResult, Extract.ExtractError>, progressed: bool, ghost named: bool)
    modifies m`files, m`trace
    ensures Kept(old(m.files), m.files)
    ensures m.trace == old(m.trace) + if named then [Named(ImageFile)] else []
    ensures r.Ok? ==> && named && ImageFile in m.files && m.files[ImageFile].Raw?
                      && Describes(m.tools, request, m.backend.medium.bytes, imageBytes, m.files[ImageFile].bytes,
                                   r.value)
    ensures named ==> && ImageFile !in old(m.files) && ImageFile in m.files && m.files[ImageFile].Raw?
                      && HoldsRange(m.tools, request, m.backend.medium.bytes, imageBytes, m.files[ImageFile].bytes)
    ensures named ==> progressed
    ensures !named ==> m.files.Keys <= old(m.files).Keys + {PartialImage}
    ensures m.files.Keys <= old(m.files).Keys + {PartialImage, ImageFile}
    ensures && LevelInRange(request.compression) && 0 < imageBytes <= |m.backend.medium.bytes|
            && ImageFile !in old(m.files) && PartialImage !in old(m.files)
            && world.partialCreates && (forall t :: Extract.Benign(world.schedule(t)))
            ==> r.Ok?
  {
    var env := Extract.Env(m.backend.medium.bytes, ExtractOptionsFor(request, imageBytes), m.tools);
    var result, output, moved;
    ghost var chunks;
    result, output, moved, chunks :=
      Extract.ExtractPath(env, ImageFile in m.files, PartialImage in m.files, world.partialCreates, world.schedule);
    progressed, named := moved, output.Some? && ImageFile !in m.files;
    if output.Some? && ImageFile !in m.files {
      m.files := m.files[ImageFile := Raw(output.value)];
      m.trace := m.trace + [Named(ImageFile)];
      assert Flatten(chunks) == env.source[..imageBytes];
    } else if PartialImage !in m.files && ImageFile !in m.files && world.partialCreates {
      m.files := m.files[PartialImage := Unfinished];
    }
    return result, progressed, named;
  }

  /** `result` is what the requested level concludes about the file and the source. */
  ghost predicate VerifiedAs(
    tools: Toolbox, request: ImageRequest, source: seq<Byte>, imageBytes: U64, file: seq<Byte>,
    extracted: Extract.ExtractResult, result: Verify.VerificationResult)
  {
    var decoded := tools.decode(FormatOf(request.compression), file);
    && Verify.Verdict(tools, VerifyRequestFor(request, imageBytes, extracted), decoded.bytes,
                      if request.verification.SourceReread? then Some(source) else None) == Ok(result)
    && (request.verification.Decode? || request.verification.SourceReread? ==> decoded.clean)
  }

  /** An encoded range passes every level. */
  lemma RangeVerifies(
    tools: Toolbox, request: ImageRequest, source: seq<Byte>, imageBytes: U64, file: seq<Byte>,
    extracted: Extract.ExtractResult)
    requires Lossless(tools) && HoldsRange(tools, request, source, imageBytes, file)
    requires Describes(tools, request, source, imageBytes, file, extracted)
    ensures tools.decode(FormatOf(request.compression), file) == Decoded(source[..imageBytes], true)
    ensures Verify.Verdict(tools, VerifyRequestFor(request, imageBytes, extracted), source[..imageBytes],
                           if request.verification.SourceReread? then Some(source) else None).Ok?
  {
  }

  /** Image and source can be opened and read. */
  ghost predicate LetsVerify(world: World) {
    && world.imageOpens && (forall i :: world.imageReads(i).Delivers?)
    && world.sourceOpens && (forall i :: world.sourceReads(i).Delivers?)
  }

  /** A verdict on what could be opened is the verdict on file and source. */
  lemma VerdictIsVerified(
    tools: Toolbox, request: ImageRequest, source: seq<Byte>, imageBytes: U64, file: seq<Byte>,
    extracted: Extract.ExtractResult, imageOpens: bool, sourceOpens: bool, verified: Verify.VerificationResult)
    requires var decoded := tools.decode(FormatOf(request.compression), file);
             && Verify.Verdict(
                  tools, VerifyRequestFor(request, imageBytes, extracted), if imageOpens then decoded.bytes else [],
                  if request.verification.SourceReread? then Some(if sourceOpens then source else []) else None)
                == Ok(verified)
             && (request.verification.Decode? || request.verification.SourceReread? ==> imageOpens && decoded.clean)
    ensures VerifiedAs(tools, request, source, imageBytes, file, extracted, verified)
  {
    assert |source[..0]| == 0 && source[..0] == [];
  }

  /** The comparison the chosen level asks for, over the file just named. */
  method VerifyOutput(
    m: Machine, world: World, request: ImageRequest, imageBytes: U64, extracted: Extract.ExtractResult)
    returns (r: Result<Verify.VerificationResult, Verify.VerifyError>)
    requires ImageFile in m.files && m.files[ImageFile].Raw?
    ensures r.Ok? ==>
              VerifiedAs(m.tools, request, m.backend.medium.bytes, imageBytes, m.files[ImageFile].bytes, extracted,
                         r.value)
    ensures && LetsVerify(world) && Lossless(m.tools)
            && HoldsRange(m.tools, request, m.backend.medium.bytes, imageBytes, m.files[ImageFile].bytes)
            && Describes(m.tools, request, m.backend.medium.bytes, imageBytes, m.files[ImageFile].bytes, extracted)
            ==> r.Ok?
  {
    hide HoldsRange, Describes, Lossless, VerifiedAs, Verify.Verdict;
    ghost var bytes := m.backend.medium.bytes;
    var file := m.files[ImageFile].bytes;
    if && Lossless(m.tools) && HoldsRange(m.tools, request, bytes, imageBytes, file)
       && Describes(m.tools, request, bytes, imageBytes, file, extracted)
    {
      RangeVerifies(m.tools, request, bytes, imageBytes, file, extracted);
    }
    var image := Verify.Open(m.tools.decode(FormatOf(request.compression), file), world.imageOpens, world.imageReads);
    var source: Option<Streams.Handle> := None;
    if request.verification.SourceReread? {
      var handle := Verify.Open(Decoded(m.backend.medium.bytes, true), world.sourceOpens, world.sourceReads);
      source := Some(handle);
    }
    r := Verify.VerifyImage(m.tools, VerifyRequestFor(request, imageBytes, extracted), image, source);
    if r.Ok? {
      VerdictIsVerified(m.tools, request, bytes, imageBytes, file, extracted, world.imageOpens, world.sourceOpens,
                        r.value);
    }
  }

  /** Sidecars are created under a partial name and renamed. */
  method WriteSidecar(m: Machine, metadata: Flash.ImageMetadata, outcome: SidecarOutcome)
    returns (ok: bool, ghost named: bool)
    modifies m`files, m`trace
    ensures Kept(old(m.files), m.files)
    ensures m.trace == old(m.trace) + if named then [Named(SidecarFile)] else []
    ensures named ==> && SidecarFile !in old(m.files) && SidecarFile in m.files
                      && m.files[SidecarFile] == Described(metadata)
    ensures ok ==> named
    ensures m.files.Keys <= old(m.files).Keys + {PartialSidecar, SidecarFile}
    ensures ok <==> SidecarFile !in old(m.files) && PartialSidecar !in old(m.files) && outcome.SidecarWritten?
  {
    named := false;
    if SidecarFile in m.files || PartialSidecar in m.files || outcome == CannotCreate {
      return false, named;
    }
    if outcome == CannotWrite || outcome == CannotRename {
      m.files := m.files[PartialSidecar := Unfinished];
      return false, named;
    }
    m.files := m.files[SidecarFile := Described(metadata)];
    m.trace := m.trace + [Named(SidecarFile)];
    named := true;
    return outcome == SidecarWritten, named;
  }

  // ----- execute -----

  /** Extraction's own account of the file, and what verification concluded from it. */
  ghost predicate CheckedAs(
    tools: Toolbox, request: ImageRequest, source: seq<Byte>, imageBytes: U64, file: seq<Byte>,
    extracted: Extract.ExtractResult, result: Verify.VerificationResult)
  {
    && Describes(tools, request, source, imageBytes, file, extracted)
    && VerifiedAs(tools, request, source, imageBytes, file, extracted, result)
  }

  /** The outside world lets extraction, verification and the sidecar happen. */
  ghost predicate LetsCapture(world: World) {
    && world.partialCreates && (forall t :: Extract.Benign(world.schedule(t)))
    && LetsVerify(world) && world.sidecar.SidecarWritten?
  }

  /** What reaching each milestone means for the medium and the files. */
  ghost predicate Milestones(
    tools: Toolbox, request: ImageRequest, prepared: Prepared, source: seq<Byte>, files: map<Artifact, Content>,
    milestones: nat)
    requires prepared.plan.imageBytes <= MAX_U64
  {
    var n := prepared.plan.imageBytes;
    && (milestones > 0 ==>
          && ImageFile in files && files[ImageFile].Raw?
          && HoldsRange(tools, request, source, n, files[ImageFile].bytes))
    && (milestones > 1 ==> exists e, v :: CheckedAs(tools, request, source, n, files[ImageFile].bytes, e, v))
    && (milestones > 2 ==>
          && SidecarFile in files
          && exists e, v :: && CheckedAs(tools, request, source, n, files[ImageFile].bytes, e, v)
                            && files[SidecarFile] == Described(MetadataFor(request, prepared, e, v)))
  }

  /** Extracting has begun before the image is named, verifying after it, and is over only at the end. */
  predicate CapturePhase(phase: Phase, milestones: nat) {
    match phase
    case PreparingPhase => false
    case MutatingPhase => milestones == 0
    case ExtractingPhase => milestones <= 1
    case VerifyingPhase => 1 <= milestones
    case CompletePhase => milestones == |MILESTONES|
  }

  lemma PhasesInOrder()
    ensures CapturePhase(MutatingPhase, 0) && CapturePhase(ExtractingPhase, 0) && CapturePhase(ExtractingPhase, 1)
    ensures CapturePhase(VerifyingPhase, 1) && CapturePhase(VerifyingPhase, 2) && CapturePhase(VerifyingPhase, 3)
    ensures CapturePhase(CompletePhase, 3)
  {
  }

  /** From the shrunk source to a described image. */
  method CaptureImage(m: Machine, world: World, request: ImageRequest, prepared: Prepared)
    returns (r: Result<(), RunError>, phase: Phase, ghost milestones: nat)
    requires 0 < prepared.plan.imageBytes <= MAX_U64
    modifies m`files, m`trace
    ensures milestones <= |MILESTONES| && m.trace == old(m.trace) + MILESTONES[..milestones]
    ensures Kept(old(m.files), m.files)
    ensures milestones > 0 ==> ImageFile !in old(m.files)
    ensures milestones > 2 ==> SidecarFile !in old(m.files)
    ensures Milestones(m.tools, request, prepared, m.backend.medium.bytes, m.files, milestones)
    ensures r.Ok? ==> milestones == |MILESTONES| && phase == CompletePhase
    ensures CapturePhase(phase, milestones) && (r.Ok? <==> phase == CompletePhase)
    ensures r.Ok? ==> world.sidecar.SidecarWritten?
    ensures LogFile in m.files <==> LogFile in old(m.files)
    ensures && LetsCapture(world) && Lossless(m.tools) && LevelInRange(request.compression)
            && prepared.plan.imageBytes <= |m.backend.medium.bytes| && old(m.files).Keys <= {LogFile}
            ==> r.Ok?
  {
    hide HoldsRange, Describes, VerifiedAs, MetadataFor, Lossless, LevelInRange, Milestones, LetsVerify, CapturePhase;
    PhasesInOrder();
    milestones, phase := 0, MutatingPhase;
    ghost var source := m.backend.medium.bytes;
    var extracted, progressed;
    ghost var named;
    extracted, progressed, named := ExtractImage(m, world, request, prepared.plan.imageBytes);
    if progressed {
      phase := ExtractingPhase;
    }
    milestones := if named then 1 else 0;
    ImageMilestone(m.tools, request, prepared, source, m.files, named);
    if extracted.Err? {
      return Err(ExtractFailed(extracted.error)), phase, milestones;
    }
    phase := VerifyingPhase;
    var verification := VerifyOutput(m, world, request, prepared.plan.imageBytes, extracted.value);
    if verification.Err? {
      return Err(VerifyFailed(verification.error)), phase, milestones;
    }
    m.trace := m.trace + [VerifiedImage];
    milestones := 2;
    assert MILESTONES[..2] == [Named(ImageFile), VerifiedImage];
    var metadata := MetadataFor(request, prepared, extracted.value, verification.value);
    var ok;
    ok, named := WriteSidecar(m, metadata, world.sidecar);
    if named {
      milestones := 3;
      assert MILESTONES[..3] == [Named(ImageFile), VerifiedImage] + [Named(SidecarFile)];
    }
    DescribedMilestone(m.tools, request, prepared, source, m.files, extracted.value, verification.value, named);
    if !ok {
      return Err(SidecarFailed), phase, milestones;
    }
    return Ok(()), CompletePhase, milestones;
  }

  lemma ImageMilestone(
    tools: Toolbox, request: ImageRequest, prepared: Prepared, source: seq<Byte>, files: map<Artifact, Content>,
    named: bool)
    requires prepared.plan.imageBytes <= MAX_U64
    requires named ==> && ImageFile in files && files[ImageFile].Raw?
                       && HoldsRange(tools, request, source, prepared.plan.imageBytes, files[ImageFile].bytes)
    ensures Milestones(tools, request, prepared, source, files, if named then 1 else 0)
  {
  }

  lemma DescribedMilestone(
    tools: Toolbox, request: ImageRequest, prepared: Prepared, source: seq<Byte>, files: map<Artifact, Content>,
    extracted: Extract.ExtractResult, verified: Verify.VerificationResult, named: bool)
    requires prepared.plan.imageBytes <= MAX_U64 && ImageFile in files && files[ImageFile].Raw?
    requires HoldsRange(tools, request, source, prepared.plan.imageBytes, files[ImageFile].bytes)
    requires CheckedAs(tools, request, source, prepared.plan.imageBytes, files[ImageFile].bytes, extracted, verified)
    requires named ==> && SidecarFile in files
                       && files[SidecarFile] == Described(MetadataFor(request, prepared, extracted, verified))
    ensures Milestones(tools, request, prepared, source, files, if named then 3 else 2)
  {
  }

  /** The transaction, with the stages it attempted entered in the trace. */
  method ShrinkSource(m: Machine, request: ShrinkRequest) returns (r: Result<(), ShrinkError>, ghost reached: nat)
    modifies m`trace, m.backend
    ensures reached <= |STAGES| && m.trace == old(m.trace) + Attempts(STAGES[..reached])
    ensures m.backend.medium == After(old(m.backend.medium), request, m.backend.outcomes, reached)
    ensures r.Ok? ==>
              reached == |STAGES| && Passed(old(m.backend.medium), request, m.backend.outcomes, reached)
    ensures Passed(old(m.backend.medium), request, m.backend.outcomes, |STAGES|) ==> r.Ok?
  {
    hide After, Attempts, Report;
    var before := |m.backend.performed|;
    r, reached := ExecuteShrink(m.backend, request);
    assert m.backend.performed[before..] == STAGES[..reached];
    m.trace := m.trace + Attempts(m.backend.performed[before..]);
  }

  /**
   * The destructive part. `modified` is what the log will say about the source; it is already true when
   * the first stage is attempted.
   */
  method Execute(m: Machine, world: World, request: ImageRequest, prepared: Prepared)
    returns (r: Result<(), RunError>, phase: Phase, modified: bool, ghost reached: nat, ghost milestones: nat)
    requires Prepare(request, world.facts) == Ok(prepared)
    requires prepared.rootStartLba <= MAX_U64 && prepared.plan.rootEndLba <= MAX_U64
    requires prepared.plan.targetFilesystemBytes <= MAX_U64 && 0 < prepared.plan.imageBytes <= MAX_U64
    modifies m`files, m`trace, m.backend
    ensures reached <= |STAGES| && milestones <= |MILESTONES|
    ensures m.trace == old(m.trace) + TraceOf(reached, milestones)
    ensures m.backend.medium == After(old(m.backend.medium), ShrinkRequestFor(prepared), m.backend.outcomes, reached)
    ensures milestones > 0 ==>
              reached == |STAGES| && ImageFile !in old(m.files)
              && Passed(old(m.backend.medium), ShrinkRequestFor(prepared), m.backend.outcomes, reached)
    ensures milestones > 2 ==> SidecarFile !in old(m.files)
    ensures Milestones(m.tools, request, prepared, m.backend.medium.bytes, m.files, milestones)
    ensures Kept(old(m.files), m.files)
    ensures LogFile in m.files <==> LogFile in old(m.files)
    ensures reached > 0 ==> modified && world.signalsBlocked
    ensures modified <==> Revalidated(prepared.selected, world.lastCheck).Ok? && world.mountDirectory
    ensures if modified then CapturePhase(phase, milestones) else phase == PreparingPhase
    ensures (r.Ok? <==> phase == CompletePhase)
    ensures r.Ok? ==> world.listenerJoins && world.sidecar.SidecarWritten?
    ensures milestones > 0 ==> world.listenerJoins
    ensures reached == 0 ==> m.backend.medium == old(m.backend.medium)
    ensures reached > 0 ==> Revalidated(prepared.selected, world.lastCheck).Ok?
    ensures r.Ok? ==> milestones == |MILESTONES| && phase == CompletePhase
    ensures && LetsCapture(world) && world.mountDirectory && world.signalsBlocked && world.listenerJoins
            && Lossless(m.tools) && LevelInRange(request.compression) && old(m.files).Keys <= {LogFile}
            && Revalidated(prepared.selected, world.lastCheck).Ok?
            && Passed(old(m.backend.medium), ShrinkRequestFor(prepared), m.backend.outcomes, |STAGES|)
            && prepared.plan.imageBytes
               <= |After(old(m.backend.medium), ShrinkRequestFor(prepared), m.backend.outcomes, |STAGES|).bytes|
            ==> r.Ok?
  {
    hide Milestones, After, Passed, Attempts, MetadataFor, Revalidated, Prepare, LetsCapture, Lossless, LevelInRange;
    PhasesInOrder();
    hide CapturePhase;
    reached, milestones, phase, modified := 0, 0, PreparingPhase, false;
    NoMilestones(m.tools, request, prepared, m.backend.medium.bytes, m.files);
    AttemptsOfNone();
    AfterNone(m.backend.medium, ShrinkRequestFor(prepared), m.backend.outcomes);
    var same := Revalidated(prepared.selected, world.lastCheck);
    if same.Err? {
      return Err(PrepareFailed(same.error)), phase, modified, reached, milestones;
    }
    if !world.mountDirectory {
      return Err(SetupFailed), phase, modified, reached, milestones;
    }
    phase, modified := MutatingPhase, true;
    if !world.signalsBlocked {
      return Err(SetupFailed), phase, modified, reached, milestones;
    }
    var shrunk;
    shrunk, reached := ShrinkSource(m, ShrinkRequestFor(prepared));
    NoMilestones(m.tools, request, prepared, m.backend.medium.bytes, m.files);
    if !world.listenerJoins {
      return Err(SetupFailed), phase, modified, reached, milestones;
    }
    if shrunk.Err? {
      return Err(ShrinkFailed(shrunk.error)), phase, modified, reached, milestones;
    }
    r, phase, milestones := CaptureImage(m, world, request, prepared);
  }

  lemma NoMilestones(
    tools: Toolbox, request: ImageRequest, prepared: Prepared, source: seq<Byte>, files: map<Artifact, Content>)
    requires prepared.plan.imageBytes <= MAX_U64
    ensures Milestones(tools, request, prepared, source, files, 0)
  {
  }

  lemma AttemptsOfNone()
    ensures Attempts(STAGES[..0]) == [] && TraceOf(0, 0) == []
  {
  }

  lemma AfterNone(m: Media, request: ShrinkRequest, outcomes: Stage -> Outcome)
    ensures After(m, request, outcomes, 0) == m
  {
  }

  // ----- run_image_with_progress -----

  predicate LevelInRange(compression: Compression) {
    match compression
    case Zstandard(level) => -7 <= level <= 22
    case Xz(level) => level <= 9
  }

  const ARTIFACTS: seq<Artifact> := [ImageFile, PartialImage, SidecarFile, PartialSidecar, LogFile]

  predicate FirstTaken(files: map<Artifact, Content>, i: nat)
    requires i < |ARTIFACTS|
  {
    ARTIFACTS[i] in files && forall k :: 0 <= k < i ==> ARTIFACTS[k] !in files
  }

  /** `output_conflict`: the first of the five names already taken. */
  method OutputConflicting(files: map<Artifact, Content>) returns (conflict: Option<Artifact>)
    ensures conflict.None? <==> files == map[]
    ensures conflict.Some? ==>
              exists i :: 0 <= i < |ARTIFACTS| && ARTIFACTS[i] == conflict.value && FirstTaken(files, i)
  {
    for i := 0 to |ARTIFACTS|
      invariant forall k :: 0 <= k < i ==> ARTIFACTS[k] !in files
    {
      if ARTIFACTS[i] in files {
        return Some(ARTIFACTS[i]);
      }
    }
    forall a ensures a !in files {
      assert a == ARTIFACTS[if a == ImageFile then 0 else if a == PartialImage then 1
                            else if a == SidecarFile then 2 else if a == PartialSidecar then 3 else 4];
    }
    return None;
  }

  /** How a run that got as far as its log ends it. */
  predicate LogSays(files: map<Artifact, Content>, success: bool, modified: bool) {
    && LogFile in files && files[LogFile].LogText? && files[LogFile].result.Some?
    && files[LogFile].result.value.success == success && files[LogFile].result.value.sourceModified == modified
  }

  function LogLine(files: map<Artifact, Content>): Option<LogResult> {
    if LogFile in files && files[LogFile].LogText? then files[LogFile].result else None
  }

  /** The request is one to be tried at all, and its log can be started. */
  predicate Permitted(world: World, request: ImageRequest) {
    && (request.compression.Zstandard? ==> -7 <= request.compression.zstdLevel <= 22)
    && (request.compression.Xz? ==> 0 <= request.compression.xzLevel <= 9)
    && world.extensionMatches && world.outputInspectable && world.logCreates && world.headerWrites
  }

  lemma PermittedExactly(world: World, request: ImageRequest)
    ensures Permitted(world, request) <==>
            && LevelInRange(request.compression) && world.extensionMatches && world.outputInspectable
            && world.logCreates && world.headerWrites
  {
  }

  /** Preparation succeeds, its device is found again, and the last thing before mutating succeeds. */
  ghost predicate ReachesMutation(world: World, request: ImageRequest) {
    && Permitted(world, request) && Prepare(request, world.facts).Ok?
    && Revalidated(Prepare(request, world.facts).value.selected, world.lastCheck).Ok? && world.mountDirectory
  }

  lemma MutationExactly(world: World, request: ImageRequest)
    ensures ReachesMutation(world, request) <==>
            && Permitted(world, request) && Prepare(request, world.facts).Ok?
            && Revalidated(Prepare(request, world.facts).value.selected, world.lastCheck).Ok? && world.mountDirectory
  {
  }

  /** The sidecar is there and every number in it is true of the image, the device and the plan. */
  predicate SidecarTells(tools: Toolbox, files: map<Artifact, Content>, request: ImageRequest, prepared: Prepared) {
    && ImageFile in files && files[ImageFile].Raw? && SidecarFile in files && files[SidecarFile].Described?
    && var told, file := files[SidecarFile].metadata, files[ImageFile].bytes;
       && told.rawBytes == prepared.plan.imageBytes
       && told.compressedBytes == |file| && told.compressedSha256 == tools.sha(file)
       && told.compression == request.compression
       && told.sourceSizeBytes == Some(prepared.selected.sizeBytes)
       && told.sectorSize == Some(prepared.selected.logicalSectorSize)
       && told.verification.level == request.verification
       && (told.verification.status == Verify.NotPerformed <==> request.verification == NoVerification)
       && told.partitions == prepared.partitions
  }

  lemma SidecarIsTrue(
    tools: Toolbox, request: ImageRequest, prepared: Prepared, source: seq<Byte>, files: map<Artifact, Content>)
    requires prepared.plan.imageBytes <= MAX_U64
    requires Milestones(tools, request, prepared, source, files, |MILESTONES|)
    ensures SidecarTells(tools, files, request, prepared)
  {
    var n := prepared.plan.imageBytes;
    var e, v :| && CheckedAs(tools, request, source, n, files[ImageFile].bytes, e, v)
                && files[SidecarFile] == Described(MetadataFor(request, prepared, e, v));
    Verify.VerdictTells(tools, VerifyRequestFor(request, n, e),
                        tools.decode(FormatOf(request.compression), files[ImageFile].bytes).bytes,
                        if request.verification.SourceReread? then Some(source) else None);
    hide Verify.Verdict, HoldsRange;
  }

  /** The log's last line is there and says that the source was modified. */
  predicate RecordsModified(files: map<Artifact, Content>) {
    && LogFile in files && files[LogFile].LogText? && files[LogFile].result.Some?
    && files[LogFile].result.value.sourceModified
  }

  /** The medium a run started from and everything it made of it, as one record. */
  function ImagedBy(m: Machine, start: Media, world: World, request: ImageRequest): Imaged
    reads m
    requires ImageFile in m.files && m.files[ImageFile].Raw?
    requires SidecarFile in m.files && m.files[SidecarFile].Described?
  {
    Imaged(start, request, world.facts, m.backend.outcomes, m.files[ImageFile].bytes, m.files[SidecarFile].metadata)
  }

  /** The outside world puts nothing in the way of a run. */
  ghost predicate LetsRun(world: World) {
    && world.extensionMatches && world.outputInspectable && world.logCreates && world.headerWrites
    && world.mountDirectory && world.signalsBlocked && world.listenerJoins
    && LetsCapture(world)
  }

  /** The source is as prepared and still there, and every tool works. */
  ghost predicate ToolsWork(start: Media, outcomes: Stage -> Outcome, world: World, request: ImageRequest) {
    && PreparedOn(start, request, world.facts)
    && var prepared := Prepare(request, world.facts).value;
       && Revalidated(prepared.selected, world.lastCheck).Ok?
       && forall stage :: outcomes(stage).succeeds
  }

  /** The planned length can be stored, and LBA 1 has not come to look like a GPT header. */
  ghost predicate TableHolds(start: Media, outcomes: Stage -> Outcome, world: World, request: ImageRequest)
    requires Prepare(request, world.facts).Ok?
  {
    PreparedFits(request, world.facts);
    var prepared := Prepare(request, world.facts).value;
    && prepared.plan.rootEndLba + 1 - prepared.rootStartLba <= MAX_U32
    && !GptHeader(Some(LbaOne(After(start, ShrinkRequestFor(prepared), outcomes, |STAGES|))))
  }

  /** Then that is exactly when all ten stages pass, and what they leave has room for the image. */
  lemma WorkingToolsPass(start: Media, outcomes: Stage -> Outcome, world: World, request: ImageRequest)
    requires ToolsWork(start, outcomes, world, request)
    ensures var prepared := Prepare(request, world.facts).value;
            && prepared.rootStartLba <= MAX_U64 && prepared.plan.rootEndLba <= MAX_U64
            && prepared.plan.targetFilesystemBytes <= MAX_U64
            && (Passed(start, ShrinkRequestFor(prepared), outcomes, |STAGES|)
                <==> TableHolds(start, outcomes, world, request))
            && prepared.plan.imageBytes <= |After(start, ShrinkRequestFor(prepared), outcomes, |STAGES|).bytes|
  {
    var prepared := Prepare(request, world.facts).value;
    PreparedMeans(request, world.facts);
    PlanOnTable(request, world.facts);
    PreparedJobIsSound(start, request, world.facts);
    hide Prepare, After, Passed, Sound, SectorZero, LbaOne, GptHeader, BuildPlan, ParseSlots, Slots;
    var root := LastByEnd(prepared.original);
    var job := Job(start, ShrinkRequestFor(prepared), root);
    HonestToolsSucceed(job, outcomes);
    AfterKeepsSize(start, job.request, outcomes, |STAGES|);
  }

  /** All ten stages passed on the prepared device, and what they left was imaged as far as the milestones say. */
  ghost predicate Achieved(
    tools: Toolbox, start: Media, medium: Media, outcomes: Stage -> Outcome, world: World, request: ImageRequest,
    files: map<Artifact, Content>, milestones: nat)
  {
    && Prepare(request, world.facts).Ok?
    && var p := Prepare(request, world.facts).value;
       && p.rootStartLba <= MAX_U64 && p.plan.rootEndLba <= MAX_U64
       && p.plan.targetFilesystemBytes <= MAX_U64 && 0 < p.plan.imageBytes <= MAX_U64
       && Passed(start, ShrinkRequestFor(p), outcomes, |STAGES|)
       && medium == After(start, ShrinkRequestFor(p), outcomes, |STAGES|)
       && Milestones(tools, request, p, medium.bytes, files, milestones)
  }

  lemma AchievedNow(
    tools: Toolbox, start: Media, medium: Media, outcomes: Stage -> Outcome, world: World, request: ImageRequest,
    files: map<Artifact, Content>, milestones: nat, p: Prepared)
    requires Prepare(request, world.facts) == Ok(p)
    requires p.rootStartLba <= MAX_U64 && p.plan.rootEndLba <= MAX_U64
    requires p.plan.targetFilesystemBytes <= MAX_U64 && 0 < p.plan.imageBytes <= MAX_U64
    requires Passed(start, ShrinkRequestFor(p), outcomes, |STAGES|)
    requires medium == After(start, ShrinkRequestFor(p), outcomes, |STAGES|)
    requires Milestones(tools, request, p, medium.bytes, files, milestones)
    ensures Achieved(tools, start, medium, outcomes, world, request, files, milestones)
  {
    hide Prepare, After, Passed, Milestones, ShrinkRequestFor;
  }

  /** `validate_request`, and the log with its first line. */
  method Admit(m: Machine, world: World, request: ImageRequest) returns (r: Result<(), RunError>)
    modifies m`files
    ensures r.Ok? <==> Permitted(world, request) && old(m.files) == map[]
    ensures r.Ok? ==> m.files == map[LogFile := LogText(None)]
    ensures Kept(old(m.files), m.files)
    ensures old(m.files) == map[] ==> LogLine(m.files).None? && !RecordsModified(m.files)
    ensures LevelInRange(request.compression) && world.extensionMatches && world.outputInspectable ==>
              (old(m.files) != map[] <==> r.Err? && r.error.OutputConflict?)
    ensures old(m.files) != map[] ==> m.files == old(m.files)
  {
    PermittedExactly(world, request);
    if !LevelInRange(request.compression) || !world.extensionMatches || !world.outputInspectable {
      return Err(BadRequest);
    }
    var conflict := OutputConflicting(m.files);
    if conflict.Some? {
      return Err(OutputConflict(conflict.value));
    }
    if !world.logCreates {
      return Err(LogFailure);
    }
    m.files := m.files[LogFile := LogText(None)];
    if !world.headerWrites {
      return Err(LogFailure);
    }
    return Ok(());
  }

  /**
   * A whole run. The trace is always some first stages followed by some first milestones; a name appears
   * only once everything before it has succeeded; nothing that existed is overwritten; and a run that
   * attempted any stage leaves a log that says the source was modified exactly when its last line could
   * be written.
   */
  method RunImage(m: Machine, world: World, request: ImageRequest)
    returns (r: Result<(), RunError>, ghost reached: nat, ghost milestones: nat)
    modifies m`files, m`trace, m.backend
    ensures reached <= |STAGES| && milestones <= |MILESTONES|
    ensures m.trace == old(m.trace) + TraceOf(reached, milestones)
    ensures Kept(old(m.files), m.files)
    ensures reached > 0 || milestones > 0 ==> Prepare(request, world.facts).Ok? && old(m.files) == map[]
    ensures reached == 0 ==> m.backend.medium == old(m.backend.medium)
    ensures reached > 0 ==> InsistedOn(world, request, Prepare(request, world.facts).value.selected)
    ensures milestones > 0 ==>
              && reached == |STAGES|
              && Achieved(m.tools, old(m.backend.medium), m.backend.medium, m.backend.outcomes, world, request,
                          m.files, milestones)
    ensures reached > 0 && r != Err(LogFailure) ==> LogSays(m.files, r.Ok?, true)
    ensures r.Ok? ==> milestones == |MILESTONES| && LogSays(m.files, true, true)
    ensures reached > 0 ==> (RecordsModified(m.files) <==> world.resultWrites)
    ensures reached > 0 ==> Permitted(world, request) && world.mountDirectory && world.signalsBlocked
    ensures old(m.files) == map[] ==>
              (RecordsModified(m.files) <==> && ReachesMutation(world, request) && world.resultWrites)
    ensures old(m.files) == map[] && LogLine(m.files).Some? ==>
              var line := LogLine(m.files).value;
              && (line.success <==> line.phase == CompletePhase)
              && (if line.sourceModified then CapturePhase(line.phase, milestones) else line.phase == PreparingPhase)
    ensures r.Ok? ==> && world.listenerJoins && world.sidecar.SidecarWritten?
                      && world.resultWrites && world.resultSyncs
                      && SidecarTells(m.tools, m.files, request, Prepare(request, world.facts).value)
    ensures reached > 0 && !world.resultWrites ==> r == Err(LogFailure)
    ensures r.Ok? && Lossless(m.tools) ==>
              && ImageFile in m.files && m.files[ImageFile].Raw?
              && SidecarFile in m.files && m.files[SidecarFile].Described?
              && FlasherAccepts(m.tools, ImagedBy(m, old(m.backend.medium), world, request))
    ensures && LetsRun(world) && LevelInRange(request.compression) && old(m.files) == map[] && Lossless(m.tools)
            && ToolsWork(old(m.backend.medium), m.backend.outcomes, world, request)
            ==> && (milestones == |MILESTONES|
                    <==> TableHolds(old(m.backend.medium), m.backend.outcomes, world, request))
                && (r.Ok? <==> milestones == |MILESTONES| && world.resultWrites && world.resultSyncs)
  {
    hide Milestones, After, Passed, MetadataFor, Attempts, Prepare, FlasherAccepts, LetsCapture, ToolsWork, TableHolds;
    hide LevelInRange, Lossless, InsistedOn, Revalidated, TraceOf, FirstTaken, ShrinkRequestFor, SidecarTells;
    hide CapturePhase, LogLine, RecordsModified, LogSays, Permitted, ReachesMutation, Kept, Achieved;
    KeptFromNothing();
    PermittedExactly(world, request);
    MutationExactly(world, request);
    if ToolsWork(m.backend.medium, m.backend.outcomes, world, request) {
      ToolsWorkMeans(m.backend.medium, m.backend.outcomes, world, request);
      WorkingToolsPass(m.backend.medium, m.backend.outcomes, world, request);
    }
    reached, milestones := 0, 0;
    AttemptsOfNone();
    var admitted := Admit(m, world, request);
    if admitted.Err? {
      return admitted, reached, milestones;
    }
    var phase, modified := PreparingPhase, false;
    var prepared := Prepare(request, world.facts);
    if prepared.Err? {
      r := Err(PrepareFailed(prepared.error));
    } else {
      PreparedFits(request, world.facts);
      if Revalidated(prepared.value.selected, world.lastCheck).Ok? {
        PreparedInsists(world, request);
      }
      r, phase, modified, reached, milestones := Execute(m, world, request, prepared.value);
    }
    LogIsKept(map[LogFile := LogText(None)], m.files);
    ghost var files := m.files;
    r := CloseLog(m, world, r, phase, modified);
    if milestones > 0 {
      LogKeepsMilestones(m.tools, request, prepared.value, m.backend.medium.bytes, files, m.files, milestones);
      AchievedNow(m.tools, old(m.backend.medium), m.backend.medium, m.backend.outcomes, world, request, m.files,
                  milestones, prepared.value);
      if milestones == |MILESTONES| {
        AllMilestones(m.tools, old(m.backend.medium), m.backend.medium, m.backend.outcomes, world, request, m.files);
      }
    }
  }

  lemma KeptFromNothing()
    ensures forall files :: Kept(map[], files)
  {
  }

  lemma LogIsKept(before: map<Artifact, Content>, now: map<Artifact, Content>)
    requires Kept(before, now) && LogFile in before
    ensures LogFile in now && now[LogFile] == before[LogFile]
  {
  }

  /** The log's last line, and what the run then returns. */
  method CloseLog(m: Machine, world: World, result: Result<(), RunError>, phase: Phase, modified: bool)
    returns (r: Result<(), RunError>)
    requires LogFile in m.files && m.files[LogFile] == LogText(None)
    modifies m`files
    ensures m.files == if world.resultWrites
                       then old(m.files)[LogFile := LogText(Some(LogResult(result.Ok?, phase, modified)))]
                       else old(m.files)
    ensures LogLine(m.files) == if world.resultWrites then Some(LogResult(result.Ok?, phase, modified)) else None
    ensures RecordsModified(m.files) <==> world.resultWrites && modified
    ensures world.resultWrites ==> LogSays(m.files, result.Ok?, modified)
    ensures r == if world.resultWrites && world.resultSyncs then result else Err(LogFailure)
  {
    if !world.resultWrites {
      return Err(LogFailure);
    }
    m.files := m.files[LogFile := LogText(Some(LogResult(result.Ok?, phase, modified)))];
    if !world.resultSyncs {
      return Err(LogFailure);
    }
    return result;
  }

  lemma ToolsWorkMeans(start: Media, outcomes: Stage -> Outcome, world: World, request: ImageRequest)
    requires ToolsWork(start, outcomes, world, request)
    ensures Prepare(request, world.facts).Ok?
    ensures Revalidated(Prepare(request, world.facts).value.selected, world.lastCheck).Ok?
  {
  }

  lemma LogKeepsMilestones(
    tools: Toolbox, request: ImageRequest, prepared: Prepared, source: seq<Byte>, files: map<Artifact, Content>,
    files': map<Artifact, Content>, milestones: nat)
    requires prepared.plan.imageBytes <= MAX_U64
    requires forall a :: a in files && a != LogFile ==> a in files' && files'[a] == files[a]
    requires Milestones(tools, request, prepared, source, files, milestones)
    ensures Milestones(tools, request, prepared, source, files', milestones)
  {
    hide HoldsRange, CheckedAs;
  }

  lemma SidecarMilestone(
    tools: Toolbox, request: ImageRequest, prepared: Prepared, source: seq<Byte>, files: map<Artifact, Content>)
    requires prepared.plan.imageBytes <= MAX_U64
    requires Milestones(tools, request, prepared, source, files, |MILESTONES|)
    ensures ImageFile in files && files[ImageFile].Raw? && SidecarFile in files && files[SidecarFile].Described?
  {
  }

  /** What all milestones together mean for the files. */
  lemma AllMilestones(
    tools: Toolbox, start: Media, medium: Media, outcomes: Stage -> Outcome, world: World, request: ImageRequest,
    files: map<Artifact, Content>)
    requires Achieved(tools, start, medium, outcomes, world, request, files, |MILESTONES|)
    ensures SidecarTells(tools, files, request, Prepare(request, world.facts).value)
    ensures ImageFile in files && files[ImageFile].Raw? && SidecarFile in files && files[SidecarFile].Described?
    ensures Lossless(tools) ==>
              FlasherAccepts(tools, Imaged(start, request, world.facts, outcomes, files[ImageFile].bytes,
                                           files[SidecarFile].metadata))
  {
    hide Prepare, After, Passed, Milestones, SidecarTells, FlasherAccepts, Lossless, ShrinkRequestFor;
    var p := Prepare(request, world.facts).value;
    var source := medium.bytes;
    SidecarMilestone(tools, request, p, source, files);
    SidecarIsTrue(tools, request, p, source, files);
    if Lossless(tools) {
      MilestonesAccepted(tools, Imaged(start, request, world.facts, outcomes, files[ImageFile].bytes,
                                       files[SidecarFile].metadata), files);
    }
  }

  lemma MilestonesAccepted(tools: Toolbox, run: Imaged, files: map<Artifact, Content>)
    requires Lossless(tools) && Prepare(run.request, run.facts).Ok? && PreparedOf(run).plan.imageBytes <= MAX_U64
    requires Passed(run.start, RequestOf(run), run.outcomes, |STAGES|)
    requires Milestones(tools, run.request, PreparedOf(run), Shrunk(run).bytes, files, |MILESTONES|)
    requires ImageFile in files && files[ImageFile] == Raw(run.file)
    requires SidecarFile in files && files[SidecarFile] == Described(run.metadata)
    ensures FlasherAccepts(tools, run)
  {
    hide Milestones, After, Passed, Prepare, Completed, FlasherAccepts;
    MilestonesComplete(tools, run, files);
    CompletedIsAccepted(tools, run);
  }

  // ----- The disk that is touched -----

  predicate Lists(list: Result<seq<DeviceIdentity>, ()>, d: DeviceIdentity) {
    list.Ok? && d in list.value
  }

  /** All three discoveries of a run listed this very identity, and the user typed its model. */
  predicate InsistedOn(world: World, request: ImageRequest, d: DeviceIdentity) {
    && Lists(world.facts.candidates, d) && Lists(world.facts.recheck, d) && Lists(world.lastCheck, d)
    && d.path == request.device && d.model == Trim(request.confirmModel) && d.logicalSectorSize == SUPPORTED_SECTOR
  }

  lemma PreparedInsists(world: World, request: ImageRequest)
    requires Prepare(request, world.facts).Ok?
    requires Revalidated(Prepare(request, world.facts).value.selected, world.lastCheck).Ok?
    ensures InsistedOn(world, request, Prepare(request, world.facts).value.selected)
  {
    hide ClassifyLayout, BuildPlan, SidecarPartitions, Parse, LastByEnd;
  }

  /** What `lsblk` and `findmnt` said at one discovery. */
  datatype Listing = Listing(disks: seq<Discovery.BlockDevice>, mounts: seq<Discovery.Mount>)

  /** The list is what discovery makes of a listing whose paths are unique. */
  ghost predicate Discovered(list: Result<seq<DeviceIdentity>, ()>, listing: Listing, output: Option<string>) {
    && Discovery.UniquePaths(listing.disks)
    && (list.Ok? ==>
          multiset(list.value)
          == multiset(Discovery.Kept(listing.disks,
                                     Discovery.ExcludedPaths(listing.disks, listing.mounts, output))))
  }

  /** Some listed disk has this identity, passes the filters, and nothing beneath it is in use. */
  ghost predicate FreeIn(listing: Listing, output: Option<string>, d: DeviceIdentity) {
    exists i :: Discovery.FreeDisk(listing.disks, listing.mounts, output, i, d)
  }

  lemma ListedIsFree(list: Result<seq<DeviceIdentity>, ()>, listing: Listing, output: Option<string>, d: DeviceIdentity)
    requires Discovered(list, listing, output) && Lists(list, d)
    ensures FreeIn(listing, output, d)
  {
    var kept := Discovery.Kept(listing.disks, Discovery.ExcludedPaths(listing.disks, listing.mounts, output));
    assert d in multiset(kept) by {
      assert d in multiset(list.value);
    }
    Discovery.CandidatesExactly(listing.disks, listing.mounts, output, d);
  }

  /**
   * A run that attempted any stage did so on a disk that was, in all three discoveries, eligible and not
   * in use at any depth; `RunImage` gives the first requirement.
   */
  lemma TouchedDiskIsFree(
    world: World, request: ImageRequest, d: DeviceIdentity, first: Listing, second: Listing, third: Listing,
    output: Option<string>)
    requires InsistedOn(world, request, d)
    requires Discovered(world.facts.candidates, first, output) && Discovered(world.facts.recheck, second, output)
    requires Discovered(world.lastCheck, third, output)
    ensures FreeIn(first, output, d) && FreeIn(second, output, d) && FreeIn(third, output, d)
  {
    hide Discovered, FreeIn;
    ListedIsFree(world.facts.candidates, first, output, d);
    ListedIsFree(world.facts.recheck, second, output, d);
    ListedIsFree(world.lastCheck, third, output, d);
  }

  // ----- What the trace and the milestones mean -----

  /**
   * In the trace of any run, a name or a verification at position i has all ten stages before it, the
   * sidecar's name has a verification before it, and every stage comes before every milestone.
   */
  lemma TraceIsOrdered(reached: nat, milestones: nat, i: nat)
    requires reached <= |STAGES| && milestones <= |MILESTONES| && (milestones > 0 ==> reached == |STAGES|)
    requires i < |TraceOf(reached, milestones)| && !TraceOf(reached, milestones)[i].Attempted?
    ensures i >= |STAGES| && TraceOf(reached, milestones)[..|STAGES|] == Attempts(STAGES)
    ensures TraceOf(reached, milestones)[i] == VerifiedImage ==> TraceOf(reached, milestones)[i - 1] == Named(ImageFile)
    ensures TraceOf(reached, milestones)[i] == Named(SidecarFile) ==>
              TraceOf(reached, milestones)[i - 1] == VerifiedImage
  {
    assert STAGES[..reached] == STAGES || reached < |STAGES|;
    assert |Attempts(STAGES[..reached])| == reached;
  }

  /** The last milestone, on a lossless codec, is a completed run in the flasher's terms. */
  lemma MilestonesComplete(tools: Toolbox, run: Imaged, files: map<Artifact, Content>)
    requires Lossless(tools) && Prepare(run.request, run.facts).Ok? && PreparedOf(run).plan.imageBytes <= MAX_U64
    requires Passed(run.start, RequestOf(run), run.outcomes, |STAGES|)
    requires Milestones(tools, run.request, PreparedOf(run), Shrunk(run).bytes, files, |MILESTONES|)
    requires ImageFile in files && files[ImageFile] == Raw(run.file)
    requires SidecarFile in files && files[SidecarFile] == Described(run.metadata)
    ensures Completed(tools, run)
  {
    hide Prepare, After, Passed;
    var n := PreparedOf(run).plan.imageBytes;
    var source := Shrunk(run).bytes;
    var chunks: seq<seq<Byte>> :|
      Flatten(chunks) == source[..n] && run.file == tools.encode(run.request.compression, chunks);
    var e, v :| && CheckedAs(tools, run.request, source, n, run.file, e, v)
                && files[SidecarFile] == Described(MetadataFor(run.request, PreparedOf(run), e, v));
    assert tools.decode(FormatOf(run.request.compression), run.file) == Decoded(source[..n], true);
  }
}
