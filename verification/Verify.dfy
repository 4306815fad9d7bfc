/** Verification of a finished image: what each level promises about the decoded bytes. */
module Verify {
  import opened Basics
  import opened Plan
  import opened Tools
  import opened Streams

  datatype VerificationStatus = NotPerformed | Passed
  datatype VerificationResult = VerificationResult(
    level: VerificationLevel, status: VerificationStatus, rawSha256: Option<Digest>, rawBytes: nat)

  datatype VerifyError =
    | IoFailure
    | SizeMismatch(expected: nat, actual: nat)
    | HashMismatch
    | MissingSource

  datatype VerifyRequest = VerifyRequest(
    level: VerificationLevel, expectedRawBytes: U64, expectedRawSha256: Option<Digest>)

  /** The decision as a function of the decoded bytes and, when one is named, the source. */
  function Verdict(tools: Toolbox, request: VerifyRequest, decoded: seq<Byte>, source: Option<seq<Byte>>)
    : Result<VerificationResult, VerifyError>
  {
    if request.level.NoVerification? then Ok(VerificationResult(request.level, NotPerformed, None, 0))
    else if request.level.StreamingHash? then
      Ok(VerificationResult(request.level, Passed, request.expectedRawSha256, request.expectedRawBytes))
    else if |decoded| != request.expectedRawBytes then Err(SizeMismatch(request.expectedRawBytes, |decoded|))
    else if request.expectedRawSha256.Some? && request.expectedRawSha256.value != tools.sha(decoded) then
      Err(HashMismatch)
    else if request.level.SourceReread? && source.None? then Err(MissingSource)
    else if request.level.SourceReread? && |source.value| < |decoded| then
      Err(SizeMismatch(|decoded|, |source.value|))
    else if request.level.SourceReread? && tools.sha(source.value[..|decoded|]) != tools.sha(decoded) then
      Err(HashMismatch)
    else Ok(VerificationResult(request.level, Passed, Some(tools.sha(decoded)), |decoded|))
  }

  /** The bytes a handle stands for. */
  function BytesOf(handle: Handle): seq<Byte> {
    if handle.Unopenable? then [] else handle.reader.stream.bytes
  }

  function SourceBytes(source: Option<Handle>): Option<seq<Byte>> {
    if source.None? then None else Some(BytesOf(source.value))
  }

  ghost predicate ReliableHandle(handle: Handle) {
    handle.Opened? && handle.reader.Reliable()
  }

  /** A fresh reader at the start of a stream, if it opens. */
  method Open(stream: Decoded, opens: bool, script: nat -> ReadOutcome) returns (handle: Handle)
    ensures BytesOf(handle) == if opens then stream.bytes else []
    ensures handle.Opened? <==> opens
    ensures handle.Opened? ==> fresh(handle.reader) && handle.reader.pos == 0 && handle.reader.stream == stream
    ensures stream.clean && opens && (forall i :: script(i).Delivers?) ==> ReliableHandle(handle)
  {
    handle := Unopenable;
    if opens {
      var reader := new Reader(stream, script);
      handle := Opened(reader);
    }
  }

  function Readers(image: Handle, source: Option<Handle>): set<object> {
    (if image.Opened? then {image.reader} else {})
    + (if source.Some? && source.value.Opened? then {source.value.reader} else {})
  }

  /**
   * `verify_image`: nothing but the requested comparison or an I/O failure comes out, and I/O failures
   * only where a stream really failed.
   */
  method VerifyImage(tools: Toolbox, request: VerifyRequest, image: Handle, source: Option<Handle>)
    returns (r: Result<VerificationResult, VerifyError>)
    requires image.Opened? ==> image.reader.pos == 0
    requires source.Some? && source.value.Opened? ==> source.value.reader.pos == 0
    requires image.Opened? && source.Some? && source.value.Opened? ==> image.reader != source.value.reader
    modifies Readers(image, source)
    ensures r == Err(IoFailure) || r == Verdict(tools, request, BytesOf(image), SourceBytes(source))
    ensures ReliableHandle(image) && (source.Some? ==> ReliableHandle(source.value)) ==> r != Err(IoFailure)
    ensures r.Ok? && (request.level.Decode? || request.level.SourceReread?) ==>
              image.Opened? && image.reader.stream.clean
  {
    if request.level == NoVerification {
      return Ok(VerificationResult(request.level, NotPerformed, None, 0));
    }
    if request.level == StreamingHash {
      return Ok(VerificationResult(request.level, Passed, request.expectedRawSha256, request.expectedRawBytes));
    }
    if image.Unopenable? {
      return Err(IoFailure);
    }
    var decoded := HashReader(tools, image.reader, None);
    if decoded.Err? {
      return Err(IoFailure);
    }
    var (decodedBytes, decodedHash) := decoded.value;
    ghost var bytes := image.reader.stream.bytes;
    assert bytes[..|bytes|] == bytes;
    if decodedBytes != request.expectedRawBytes {
      return Err(SizeMismatch(request.expectedRawBytes, decodedBytes));
    }
    if request.expectedRawSha256.Some? && request.expectedRawSha256.value != decodedHash {
      return Err(HashMismatch);
    }
    if request.level == SourceReread {
      if source.None? {
        return Err(MissingSource);
      }
      if source.value.Unopenable? {
        return Err(IoFailure);
      }
      var reread := HashReader(tools, source.value.reader, Some(request.expectedRawBytes));
      if reread.Err? {
        return Err(IoFailure);
      }
      var (sourceBytes, sourceHash) := reread.value;
      if sourceBytes != decodedBytes {
        return Err(SizeMismatch(decodedBytes, sourceBytes));
      }
      if sourceHash != decodedHash {
        return Err(HashMismatch);
      }
    }
    return Ok(VerificationResult(request.level, Passed, Some(decodedHash), decodedBytes));
  }

  /** The digest tells these two byte strings apart if they differ. */
  ghost predicate Distinguishes(tools: Toolbox, a: seq<Byte>, b: seq<Byte>) {
    tools.sha(a) == tools.sha(b) ==> a == b
  }

  /**
   * Passing at Decode or SourceReread, with the hash taken while extracting, means the image decodes to
   * exactly the bytes that were read, unless two different byte strings share a digest.
   */
  lemma PassedMeansSameBytes(
    tools: Toolbox, request: VerifyRequest, decoded: seq<Byte>, source: Option<seq<Byte>>, extracted: seq<Byte>)
    requires request.level.Decode? || request.level.SourceReread?
    requires request.expectedRawSha256 == Some(tools.sha(extracted)) && request.expectedRawBytes == |extracted|
    requires Distinguishes(tools, extracted, decoded)
    requires source.Some? && |source.value| >= |decoded| ==> Distinguishes(tools, source.value[..|decoded|], decoded)
    ensures Verdict(tools, request, decoded, source).Ok? <==>
            && decoded == extracted
            && (request.level.SourceReread? ==> source.Some? && extracted <= source.value)
    ensures Verdict(tools, request, decoded, source).Ok? ==>
              Verdict(tools, request, decoded, source).value
              == VerificationResult(request.level, Passed, Some(tools.sha(extracted)), |extracted|)
  {
    if source.Some? && |source.value| >= |decoded| && decoded == extracted {
      assert extracted <= source.value <==> source.value[..|decoded|] == extracted;
    }
  }

  /** What each level claims for itself, and what each refusal means. */
  lemma VerdictTells(tools: Toolbox, request: VerifyRequest, decoded: seq<Byte>, source: Option<seq<Byte>>)
    ensures var r := Verdict(tools, request, decoded, source);
            && (request.level == NoVerification ==>
                  r == Ok(VerificationResult(NoVerification, NotPerformed, None, 0)))
            && (request.level == StreamingHash ==>
                  r == Ok(VerificationResult(
                            StreamingHash, Passed, request.expectedRawSha256, request.expectedRawBytes)))
            && (r.Ok? ==> r.value.level == request.level)
            && (r.Ok? ==> (r.value.status == NotPerformed <==> request.level == NoVerification))
            && (r.Err? ==> request.level in {Decode, SourceReread} && r.error != IoFailure)
            && (r == Err(MissingSource) ==> request.level == SourceReread && source.None?)
            && (r.Err? && r.error.SizeMismatch? ==>
                  || (r.error.actual == |decoded| && r.error.expected == request.expectedRawBytes != |decoded|)
                  || (source.Some? && r.error.actual == |source.value| < |decoded| == r.error.expected))
            && (r == Err(HashMismatch) ==>
                  || (request.expectedRawSha256.Some? && request.expectedRawSha256.value != tools.sha(decoded))
                  || (source.Some? && |source.value| >= |decoded|
                      && tools.sha(source.value[..|decoded|]) != tools.sha(decoded)))
  {
  }
}
