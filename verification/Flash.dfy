/** Image inspection before a write, and the bounded streaming write itself. */
module Flash {
  import opened Basics
  import opened Mbr
  import opened Plan
  import opened Tools
  import opened Streams
  import Preparation
  import Verify

  const WINDOW_BYTES: nat := 1024

  datatype PreVerify = NoPreVerify | Basic | Full
  datatype PostVerify = NoPostVerify | FullReread

  datatype ImageMetadata = ImageMetadata(
    rawBytes: nat,
    compressedBytes: nat,
    compression: Compression,
    compressedSha256: Digest,
    verification: Verify.VerificationResult,
    sourceSizeBytes: Option<nat>,
    sectorSize: Option<nat>,
    partitions: seq<Preparation.PartitionMetadata>)

  datatype InspectedImage = InspectedImage(
    rawBytes: nat, rawSha256: Digest, sidecarPresent: bool, mbr: Option<seq<Partition>>)

  datatype FlashError =
    | IoFailure
    | BadMetadata
    | BadTable(mbr: MbrError)
    | SizeMismatch(expected: nat, actual: nat)
    | HashMismatch
    | MetadataLayoutMismatch
    | MetadataFormatMismatch
    | TargetTooSmall

  /** Sidecar parsing has either failed or produced at most one record. */
  datatype Sidecar = Unparsable | Parsed(metadata: Option<ImageMetadata>)

  // ----- inspect_image -----

  predicate FormatMatches(format: ImageFormat, metadata: ImageMetadata) {
    format == RawFormat || format == FormatOf(metadata.compression)
  }

  predicate SameGeometry(expected: Preparation.PartitionMetadata, actual: Partition) {
    expected.number == actual.number && expected.typeCode == actual.typeCode
    && expected.startLba == actual.startLba && expected.endLba == actual.endLba
  }

  predicate LayoutMatches(partitions: seq<Preparation.PartitionMetadata>, table: seq<Partition>) {
    |partitions| == |table| && forall i :: 0 <= i < |table| ==> SameGeometry(partitions[i], table[i])
  }

  /** Sector zero and the LBA 1 prefix, read from the first bytes of an image. */
  function TableOf(bytes: seq<Byte>): Result<seq<Partition>, FlashError> {
    if |bytes| < SECTOR_BYTES then Err(SizeMismatch(SECTOR_BYTES, |bytes|))
    else
      var lba1 := if |bytes| >= SECTOR_BYTES + 8 then Some(bytes[SECTOR_BYTES..SECTOR_BYTES + 8]) else None;
      var table := Parse(bytes[..SECTOR_BYTES], lba1, |bytes| / SECTOR_BYTES);
      if table.Err? then Err(BadTable(table.error)) else Ok(table.value)
  }

  /** The checks that need no decoding. */
  function EarlyVerdict(
    tools: Toolbox, file: seq<Byte>, metadata: Option<ImageMetadata>, format: ImageFormat, level: PreVerify)
    : Result<(), FlashError>
  {
    if metadata.Some? && !FormatMatches(format, metadata.value) then Err(MetadataFormatMismatch)
    else if level.Full? && metadata.Some? && metadata.value.compressedSha256 != tools.sha(file) then Err(HashMismatch)
    else Ok(())
  }

  /** The whole inspection as a function of the file's bytes and the decoded bytes. */
  function Inspection(
    tools: Toolbox, file: seq<Byte>, decoded: seq<Byte>, metadata: Option<ImageMetadata>, format: ImageFormat,
    level: PreVerify)
    : Result<InspectedImage, FlashError>
  {
    var early :- EarlyVerdict(tools, file, metadata, format, level);
    if metadata.Some? && metadata.value.rawBytes != |decoded| then
      Err(SizeMismatch(metadata.value.rawBytes, |decoded|))
    else if level.Full? && metadata.Some? && metadata.value.verification.rawSha256.Some?
            && metadata.value.verification.rawSha256.value != tools.sha(decoded) then Err(HashMismatch)
    else if level.NoPreVerify? then
      Ok(InspectedImage(|decoded|, tools.sha(decoded), metadata.Some?, None))
    else
      var table :- TableOf(decoded);
      if metadata.Some? && metadata.value.partitions != [] && !LayoutMatches(metadata.value.partitions, table)
      then Err(MetadataLayoutMismatch)
      else Ok(InspectedImage(|decoded|, tools.sha(decoded), metadata.Some?, Some(table)))
  }

  /** `first[at..at + count].copy_from_slice(&buffer[..count])`. */
  method CopyInto(first: array<Byte>, at: nat, buffer: array<Byte>, count: nat)
    requires first != buffer && at + count <= first.Length && count <= buffer.Length
    modifies first
    ensures first[..at + count] == old(first[..at]) + buffer[..count]
  {
    forall i | 0 <= i < count {
      first[at + i] := buffer[i];
    }
  }

  lemma WindowGrows(bytes: seq<Byte>, count: nat, read: nat)
    requires count + read <= |bytes|
    ensures var at := Min(WINDOW_BYTES, count);
            var copy := Min(WINDOW_BYTES - at, read);
            && at + copy == Min(WINDOW_BYTES, count + read)
            && bytes[..at] + bytes[count..count + read][..copy] == bytes[..at + copy]
    ensures bytes[..count] + bytes[count..count + read] == bytes[..count + read]
  {
    var at := Min(WINDOW_BYTES, count);
    var copy := Min(WINDOW_BYTES - at, read);
    if copy > 0 {
      assert bytes[count..count + read][..copy] == bytes[at..at + copy];
    }
  }

  /** The facts gathered while decoding: the first bytes, the length and the digest. */
  method DecodeAll(tools: Toolbox, reader: Reader)
    returns (r: Result<(seq<Byte>, nat, Digest), FlashError>)
    requires reader.pos == 0
    modifies reader
    ensures var bytes := reader.stream.bytes;
            r.Ok? ==> reader.stream.clean && r.value == (bytes[..Min(WINDOW_BYTES, |bytes|)], |bytes|, tools.sha(bytes))
    ensures r.Err? ==> r.error == IoFailure && !reader.Reliable()
  {
    ghost var bytes := reader.stream.bytes;
    var first := new Byte[WINDOW_BYTES];
    var firstLen, count := 0, 0;
    var hashed: seq<Byte> := [];
    var buffer := new Byte[BUFFER_BYTES];
    while true
      invariant reader.pos == count <= |bytes| && hashed == bytes[..count]
      invariant firstLen == Min(WINDOW_BYTES, count) && first[..firstLen] == bytes[..firstLen]
      invariant fresh(first) && fresh(buffer) && first != buffer
      invariant first.Length == WINDOW_BYTES && buffer.Length == BUFFER_BYTES
      decreases |bytes| - count
    {
      var read := reader.Read(buffer, buffer.Length);
      if read.Err? {
        return Err(IoFailure);
      }
      if read.value == 0 {
        break;
      }
      var copy := Min(first.Length - firstLen, read.value);
      WindowGrows(bytes, count, read.value);
      assert buffer[..copy] == buffer[..read.value][..copy];
      CopyInto(first, firstLen, buffer, copy);
      firstLen := firstLen + copy;
      hashed := hashed + buffer[..read.value];
      count := count + read.value;
    }
    assert hashed == bytes;
    return Ok((first[..firstLen], count, tools.sha(hashed)));
  }

  /** The window is long enough for all that is parsed. */
  lemma WindowHoldsTable(bytes: seq<Byte>)
    ensures var first := bytes[..Min(WINDOW_BYTES, |bytes|)];
            && (|first| >= SECTOR_BYTES <==> |bytes| >= SECTOR_BYTES)
            && (|first| >= SECTOR_BYTES ==> first[..SECTOR_BYTES] == bytes[..SECTOR_BYTES])
            && (|first| >= SECTOR_BYTES + 8 <==> |bytes| >= SECTOR_BYTES + 8)
            && (|first| >= SECTOR_BYTES + 8 ==>
                  first[SECTOR_BYTES..SECTOR_BYTES + 8] == bytes[SECTOR_BYTES..SECTOR_BYTES + 8])
  {
  }

  /** The table in the first sector, in an image whose second sector does not start a GPT header. */
  ghost predicate IsTableOf(bytes: seq<Byte>, table: seq<Partition>)
    requires |bytes| >= SECTOR_BYTES
  {
    && HasSignature(bytes[..SECTOR_BYTES])
    && !(|bytes| >= SECTOR_BYTES + 8 && bytes[SECTOR_BYTES..SECTOR_BYTES + 8] == GPT_SIGNATURE)
    && ParseSlots(Slots(bytes[..SECTOR_BYTES]), |bytes| / SECTOR_BYTES) == Ok(table)
  }

  lemma TableOfMeans(bytes: seq<Byte>)
    ensures TableOf(bytes).Ok? ==> |bytes| >= SECTOR_BYTES && IsTableOf(bytes, TableOf(bytes).value)
    ensures |bytes| >= SECTOR_BYTES ==> forall table :: IsTableOf(bytes, table) ==> TableOf(bytes) == Ok(table)
  {
    hide ParseSlots, Slots, HasSignature;
    if |bytes| >= SECTOR_BYTES + 8 {
      var prefix := bytes[SECTOR_BYTES..SECTOR_BYTES + 8];
      assert GPT_SIGNATURE <= prefix <==> prefix == GPT_SIGNATURE;
    }
  }

  /** What the sidecar of a table would list. */
  function Geometry(table: seq<Partition>): seq<Preparation.PartitionMetadata> {
    seq(|table|, i requires 0 <= i < |table| =>
        Preparation.PartitionMetadata(table[i].number, table[i].typeCode, table[i].startLba, table[i].endLba))
  }

  lemma LayoutMatchesExactly(partitions: seq<Preparation.PartitionMetadata>, table: seq<Partition>)
    ensures LayoutMatches(partitions, table) <==> partitions == Geometry(table)
  {
    if partitions == Geometry(table) {
      forall i | 0 <= i < |table| ensures SameGeometry(partitions[i], table[i]) {
        assert partitions[i] == Geometry(table)[i];
      }
    }
  }

  /** An image is accepted exactly when everything its sidecar says is true of it and its table can be read. */
  lemma InspectionAcceptsExactly(
    tools: Toolbox, file: seq<Byte>, decoded: seq<Byte>, metadata: Option<ImageMetadata>, format: ImageFormat,
    level: PreVerify)
    ensures Inspection(tools, file, decoded, metadata, format, level).Ok? <==>
            && (level != NoPreVerify ==> TableOf(decoded).Ok?)
            && (metadata.Some? ==>
                  && (format == RawFormat || format == FormatOf(metadata.value.compression))
                  && metadata.value.rawBytes == |decoded|
                  && (level == Full ==>
                        && metadata.value.compressedSha256 == tools.sha(file)
                        && metadata.value.verification.rawSha256 in {None, Some(tools.sha(decoded))})
                  && (level != NoPreVerify && metadata.value.partitions != [] ==>
                        metadata.value.partitions == Geometry(TableOf(decoded).value)))
  {
    hide TableOf, LayoutMatches;
    if TableOf(decoded).Ok? && metadata.Some? {
      LayoutMatchesExactly(metadata.value.partitions, TableOf(decoded).value);
    }
  }

  /** The same as a consequence of acceptance, in the terms of `InspectImage`. */
  lemma InspectionMeans(
    tools: Toolbox, file: seq<Byte>, decoded: seq<Byte>, sidecar: Sidecar, format: ImageFormat, level: PreVerify)
    ensures sidecar.Parsed? && Inspection(tools, file, decoded, sidecar.metadata, format, level).Ok? ==>
              var r := Inspection(tools, file, decoded, sidecar.metadata, format, level).value;
              && r.rawBytes == |decoded| && r.rawSha256 == tools.sha(decoded)
              && (r.sidecarPresent <==> sidecar.metadata.Some?)
              && (r.mbr.None? <==> level == NoPreVerify)
              && (level != NoPreVerify ==> |decoded| >= SECTOR_BYTES && IsTableOf(decoded, r.mbr.value))
              && (sidecar.metadata.Some? && level != NoPreVerify && sidecar.metadata.value.partitions != [] ==>
                    sidecar.metadata.value.partitions == Geometry(r.mbr.value))
  {
    if sidecar.Parsed? {
      InspectionAcceptsExactly(tools, file, decoded, sidecar.metadata, format, level);
      TableOfMeans(decoded);
      hide TableOf, LayoutMatches, IsTableOf;
    }
  }

  /** Lengths are counted in a u64. */
  ghost predicate Countable(handle: Handle) {
    |Verify.BytesOf(handle)| <= MAX_U64
  }

  /** Parses what the window holds of the first two sectors. */
  method WindowTable(first: seq<Byte>, count: U64, ghost bytes: seq<Byte>)
    returns (r: Result<seq<Partition>, FlashError>)
    requires first == bytes[..Min(WINDOW_BYTES, |bytes|)] && count == |bytes|
    ensures r == TableOf(bytes) && r != Err(IoFailure)
  {
    hide Parse;
    if |first| < SECTOR_BYTES {
      return Err(SizeMismatch(SECTOR_BYTES, count));
    }
    WindowHoldsTable(bytes);
    var lba1 := if |first| >= SECTOR_BYTES + 8 then Some(first[SECTOR_BYTES..SECTOR_BYTES + 8]) else None;
    var table := ParseMbr(first[..SECTOR_BYTES], lba1, count / SECTOR_BYTES);
    if table.Err? {
      return Err(BadTable(table.error));
    }
    return Ok(table.value);
  }

  method InspectImage(
    tools: Toolbox, sidecar: Sidecar, format: ImageFormat, level: PreVerify, file: Handle, decoder: Handle)
    returns (r: Result<InspectedImage, FlashError>)
    requires file.Opened? ==> file.reader.pos == 0
    requires decoder.Opened? ==> decoder.reader.pos == 0
    requires file.Opened? && decoder.Opened? ==> file.reader != decoder.reader
    requires Countable(file) && Countable(decoder)
    modifies Verify.Readers(file, Some(decoder))
    ensures sidecar.Unparsable? ==> r == Err(BadMetadata)
    ensures sidecar.Parsed? ==>
              || r == Err(IoFailure)
              || r == Inspection(tools, Verify.BytesOf(file), Verify.BytesOf(decoder), sidecar.metadata, format, level)
    ensures Verify.ReliableHandle(file) && Verify.ReliableHandle(decoder) ==> r != Err(IoFailure)
    ensures r.Ok? ==> decoder.Opened? && decoder.reader.stream.clean
    ensures r.Ok? && sidecar.metadata.Some? ==>
              var told, decoded := sidecar.metadata.value, Verify.BytesOf(decoder);
              && (format == RawFormat || format == FormatOf(told.compression))
              && told.rawBytes == |decoded|
              && (level == Full ==> told.compressedSha256 == tools.sha(Verify.BytesOf(file)))
              && (level == Full && told.verification.rawSha256.Some? ==>
                    told.verification.rawSha256.value == tools.sha(decoded))
              && (level != NoPreVerify && told.partitions != [] ==>
                    r.value.mbr.Some? && told.partitions == Geometry(r.value.mbr.value))
    ensures r.Ok? ==>
              var decoded := Verify.BytesOf(decoder);
              && r.value.rawBytes == |decoded| && r.value.rawSha256 == tools.sha(decoded)
              && (r.value.sidecarPresent <==> sidecar.metadata.Some?)
              && (r.value.mbr.None? <==> level == NoPreVerify)
              && (level != NoPreVerify ==> |decoded| >= SECTOR_BYTES && IsTableOf(decoded, r.value.mbr.value))
  {
    hide TableOf, LayoutMatches, IsTableOf, Geometry;
    InspectionMeans(tools, Verify.BytesOf(file), Verify.BytesOf(decoder), sidecar, format, level);
    if sidecar.Unparsable? {
      return Err(BadMetadata);
    }
    var metadata := sidecar.metadata;
    if metadata.Some? && !FormatMatches(format, metadata.value) {
      return Err(MetadataFormatMismatch);
    }
    if level == Full {
      if file.Unopenable? {
        return Err(IoFailure);
      }
      var hash := HashReader(tools, file.reader, Some(MAX_U64));
      if hash.Err? {
        return Err(IoFailure);
      }
      ghost var all := file.reader.stream.bytes;
      assert all[..|all|] == all;
      if metadata.Some? && metadata.value.compressedSha256 != hash.value.1 {
        return Err(HashMismatch);
      }
    }
    if decoder.Unopenable? {
      return Err(IoFailure);
    }
    var facts :- DecodeAll(tools, decoder.reader);
    var (first, count, rawHash) := facts;
    if metadata.Some? && metadata.value.rawBytes != count {
      return Err(SizeMismatch(metadata.value.rawBytes, count));
    }
    if level == Full && metadata.Some? && metadata.value.verification.rawSha256.Some?
       && metadata.value.verification.rawSha256.value != rawHash
    {
      return Err(HashMismatch);
    }
    if level == NoPreVerify {
      return Ok(InspectedImage(count, rawHash, metadata.Some?, None));
    }
    var table :- WindowTable(first, count, decoder.reader.stream.bytes);
    if metadata.Some? && metadata.value.partitions != [] && !LayoutMatches(metadata.value.partitions, table) {
      return Err(MetadataLayoutMismatch);
    }
    return Ok(InspectedImage(count, rawHash, metadata.Some?, Some(table)));
  }

  // ----- flash_image -----

  /** One `write_all`: whether the device takes everything, and how much it took when it does not. */
  datatype WriteOutcome = WriteOutcome(ok: bool, taken: nat)

  /** The device being flashed: a fixed number of bytes, written in place from the start. */
  class Target {
    const data: array<Byte>
    const script: nat -> WriteOutcome
    const syncs: bool
    const seeks: bool
    var pos: nat
    var calls: nat

    constructor (data: array<Byte>, script: nat -> WriteOutcome, syncs: bool, seeks: bool)
      ensures this.data == data && this.script == script && this.syncs == syncs && this.seeks == seeks && pos == 0
    {
      this.data, this.script, this.syncs, this.seeks := data, script, syncs, seeks;
      pos, calls := 0, 0;
    }

    /** Every write, sync and seek the device is asked for works. */
    ghost predicate Reliable() {
      syncs && seeks && forall i :: script(i).ok
    }

    /** Some first part of `buffer[..count]` reaches the device; all of it when the call succeeds. */
    method WriteAll(buffer: array<Byte>, count: nat) returns (ok: bool)
      requires pos <= data.Length && count <= buffer.Length && buffer != data
      modifies this`pos, this`calls, data
      ensures old(pos) <= pos <= data.Length && pos - old(pos) <= count
      ensures data[..] == old(data[..])[..old(pos)] + buffer[..pos - old(pos)] + old(data[..])[pos..]
      ensures ok ==> pos == old(pos) + count
      ensures Reliable() && old(pos) + count <= data.Length ==> ok
    {
      var outcome := script(calls);
      calls := calls + 1;
      ok := outcome.ok && pos + count <= data.Length;
      var taken := if ok then count else Min(Min(outcome.taken, count), data.Length - pos);
      forall i | 0 <= i < taken {
        data[pos + i] := buffer[i];
      }
      pos := pos + taken;
    }
  }

  datatype FlashRequest = FlashRequest(
    targetCapacity: U64, expectedRawBytes: U64, expectedRawSha256: Option<Digest>, postVerify: PostVerify)

  datatype FlashResult = FlashResult(bytesWritten: nat, rawSha256: Digest, postVerified: bool)

  /** The target holds the first k decoded bytes and, behind them, what it held before. */
  predicate HoldsPrefix(now: seq<Byte>, before: seq<Byte>, decoded: seq<Byte>, k: nat)
  {
    k <= |decoded| && k <= |before| && now == decoded[..k] + before[k..]
  }

  /** Why a flash whose devices all work can still be refused. */
  predicate Acceptable(tools: Toolbox, request: FlashRequest, decoded: seq<Byte>) {
    && request.expectedRawBytes <= request.targetCapacity
    && |decoded| == request.expectedRawBytes
    && (request.expectedRawSha256.Some? ==> request.expectedRawSha256.value == tools.sha(decoded))
  }

  lemma PrefixGrows(bytes: seq<Byte>, count: nat, read: nat)
    requires count + read <= |bytes|
    ensures bytes[..count] + bytes[count..count + read] == bytes[..count + read]
  {
  }

  lemma NothingWritten(before: seq<Byte>, decoded: seq<Byte>)
    ensures HoldsPrefix(before, before, decoded, 0)
  {
  }

  lemma PrefixExtends(now: seq<Byte>, was: seq<Byte>, before: seq<Byte>, decoded: seq<Byte>, k: nat, k': nat)
    requires HoldsPrefix(was, before, decoded, k) && k <= k' <= |decoded| && k' <= |before|
    requires now == was[..k] + decoded[k..k'] + was[k'..]
    ensures HoldsPrefix(now, before, decoded, k')
  {
    assert decoded[..k'] == decoded[..k] + decoded[k..k'];
    assert was[k'..] == before[k'..];
  }

  /**
   * Decode and write. Whatever happens, the target ends as a prefix of the decoded image, no longer than
   * expected, followed by its untouched old contents; `k` is the length of that prefix.
   */
  method FlashImage(
    tools: Toolbox, request: FlashRequest, decoder: Handle, target: Target, reopens: bool, rereads: nat -> ReadOutcome)
    returns (r: Result<FlashResult, FlashError>, ghost k: nat)
    requires target.pos == 0
    requires decoder.Opened? ==> decoder.reader.pos == 0
    modifies Verify.Readers(decoder, None), target, target.data
    ensures HoldsPrefix(target.data[..], old(target.data[..]), Verify.BytesOf(decoder), k)
    ensures k <= request.expectedRawBytes
    ensures r.Ok? ==> && k == request.expectedRawBytes == |Verify.BytesOf(decoder)|
                      && r.value.bytesWritten == k && r.value.rawSha256 == tools.sha(Verify.BytesOf(decoder))
                      && Acceptable(tools, request, Verify.BytesOf(decoder))
                      && (r.value.postVerified <==> request.postVerify.FullReread?)
    ensures request.targetCapacity < request.expectedRawBytes ==> r == Err(TargetTooSmall) && k == 0
    ensures r.Ok? ==> && decoder.Opened? && decoder.reader.stream.clean && target.syncs
                      && (r.value.postVerified ==> target.seeks && reopens)
    ensures r.Ok? && r.value.postVerified ==> k <= |target.data[..]| && tools.sha(target.data[..k]) == r.value.rawSha256
    ensures && Acceptable(tools, request, Verify.BytesOf(decoder)) && Verify.ReliableHandle(decoder)
            && target.Reliable() && request.expectedRawBytes <= target.data.Length
            && (request.postVerify.FullReread? ==> reopens && forall i :: rereads(i).Delivers?)
            ==> r.Ok?
  {
    k := 0;
    ghost var before, decoded := target.data[..], Verify.BytesOf(decoder);
    if request.targetCapacity < request.expectedRawBytes {
      return Err(TargetTooSmall), k;
    }
    if decoder.Unopenable? {
      return Err(IoFailure), k;
    }
    var stop, written, hash;
    stop, written, hash := Stream(tools, request, decoder.reader, target);
    k := target.pos;
    if stop.Some? {
      return Err(stop.value), k;
    }
    if written != request.expectedRawBytes {
      return Err(SizeMismatch(request.expectedRawBytes, written)), k;
    }
    if !target.syncs {
      return Err(IoFailure), k;
    }
    if request.expectedRawSha256.Some? && request.expectedRawSha256.value != hash {
      return Err(HashMismatch), k;
    }
    if request.postVerify == FullReread {
      if !target.seeks || !reopens {
        return Err(IoFailure), k;
      }
      var reread := new Reader(Decoded(target.data[..], true), rereads);
      var back := HashReader(tools, reread, Some(written));
      if back.Err? {
        return Err(IoFailure), k;
      }
      assert target.data[..][..written] == target.data[..written] == decoded;
      if back.value.1 != hash {
        return Err(HashMismatch), k;
      }
    }
    return Ok(FlashResult(written, hash, request.postVerify == FullReread)), k;
  }

  /** `write_all` of the next part of the image keeps the target a prefix of it. */
  method WriteChunk(target: Target, buffer: array<Byte>, count: nat, ghost before: seq<Byte>, ghost bytes: seq<Byte>)
    returns (ok: bool)
    requires buffer != target.data && count <= buffer.Length && target.pos + count <= |bytes|
    requires target.pos <= target.data.Length && HoldsPrefix(target.data[..], before, bytes, target.pos)
    requires buffer[..count] == bytes[target.pos..target.pos + count]
    modifies target`pos, target`calls, target.data
    ensures old(target.pos) <= target.pos <= target.data.Length && target.pos - old(target.pos) <= count
    ensures HoldsPrefix(target.data[..], before, bytes, target.pos)
    ensures ok ==> target.pos == old(target.pos) + count
    ensures target.Reliable() && old(target.pos) + count <= target.data.Length ==> ok
  {
    ghost var was, at := target.data[..], target.pos;
    ghost var chunk := buffer[..count];
    ok := target.WriteAll(buffer, count);
    assert buffer[..target.pos - at] == chunk[..target.pos - at] == bytes[at..target.pos];
    PrefixExtends(target.data[..], was, before, bytes, at, target.pos);
  }

  /** The write loop: stops at the end of the stream, at a failure, or before writing one byte too many. */
  method Stream(tools: Toolbox, request: FlashRequest, reader: Reader, target: Target)
    returns (stop: Option<FlashError>, written: nat, hash: Digest)
    requires target.pos == 0 && reader.pos == 0
    modifies reader, target, target.data
    ensures HoldsPrefix(target.data[..], old(target.data[..]), reader.stream.bytes, target.pos)
    ensures target.pos <= request.expectedRawBytes
    ensures stop.None? ==> && reader.stream.clean && written == target.pos == |reader.stream.bytes|
                           && hash == tools.sha(reader.stream.bytes)
    ensures (&& reader.Reliable() && target.Reliable()
             && |reader.stream.bytes| <= request.expectedRawBytes <= target.data.Length) ==> stop.None?
  {
    ghost var before, bytes := target.data[..], reader.stream.bytes;
    NothingWritten(before, bytes);
    hide HoldsPrefix;
    var hashed: seq<Byte> := [];
    var buffer := new Byte[BUFFER_BYTES];
    written := 0;
    while true
      invariant reader.pos == written == target.pos <= |bytes| && hashed == bytes[..written]
      invariant target.pos <= target.data.Length && target.pos <= request.expectedRawBytes
      invariant HoldsPrefix(target.data[..], before, bytes, target.pos)
      invariant fresh(buffer) && buffer.Length == BUFFER_BYTES
      decreases |bytes| - written
    {
      var read := reader.Read(buffer, buffer.Length);
      if read.Err? {
        return Some(IoFailure), written, [];
      }
      if read.value == 0 {
        break;
      }
      written := written + read.value;
      if written > request.expectedRawBytes {
        return Some(SizeMismatch(request.expectedRawBytes, written)), written, [];
      }
      var chunk := buffer[..read.value];
      var ok := WriteChunk(target, buffer, read.value, before, bytes);
      if !ok {
        return Some(IoFailure), written, [];
      }
      PrefixGrows(bytes, written - read.value, read.value);
      hashed := hashed + chunk;
    }
    assert bytes[..written] == bytes;
    return None, written, tools.sha(hashed);
  }

  /** Flashing the inspected file, unchanged, with the inspected facts is never refused for size or digest. */
  lemma InspectedIsAcceptable(
    tools: Toolbox, file: seq<Byte>, decoded: seq<Byte>, metadata: Option<ImageMetadata>, format: ImageFormat,
    level: PreVerify, capacity: U64, post: PostVerify)
    requires Inspection(tools, file, decoded, metadata, format, level).Ok?
    requires Inspection(tools, file, decoded, metadata, format, level).value.rawBytes <= capacity
    ensures var facts := Inspection(tools, file, decoded, metadata, format, level).value;
            Acceptable(tools, FlashRequest(capacity, facts.rawBytes, Some(facts.rawSha256), post), decoded)
  {
    hide TableOf, LayoutMatches;
  }
}
