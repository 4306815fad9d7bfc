/** Byte streams that may deliver less than asked for, or fail, at every call. */
module Streams {
  import opened Basics
  import opened Tools

  const BUFFER_BYTES: nat := 1024 * 1024

  /** One `read`: an upper limit on what it delivers, or a failure. */
  datatype ReadOutcome = Delivers(limit: nat) | ReadFails

  /** An opened file or decoder; `script` decides every call. */
  class Reader {
    const stream: Decoded
    const script: nat -> ReadOutcome
    var pos: nat
    var calls: nat

    constructor (stream: Decoded, script: nat -> ReadOutcome)
      ensures this.stream == stream && this.script == script && pos == 0
    {
      this.stream := stream;
      this.script := script;
      pos, calls := 0, 0;
    }

    predicate Valid()
      reads this
    {
      pos <= |stream.bytes|
    }

    /** No read fails and the stream ends cleanly. */
    ghost predicate Reliable() {
      stream.clean && forall i :: script(i).Delivers?
    }

    /** `Read::read` into the first `wanted` bytes of the buffer; zero only at a clean end. */
    method Read(buffer: array<Byte>, wanted: nat) returns (r: Result<nat, ()>)
      requires Valid() && 0 < wanted <= buffer.Length
      modifies this`pos, this`calls, buffer
      ensures Valid()
      ensures r.Ok? ==> && r.value <= wanted && pos == old(pos) + r.value
                        && buffer[..r.value] == stream.bytes[old(pos)..pos]
                        && (r.value == 0 ==> old(pos) == |stream.bytes| && stream.clean)
      ensures r.Err? ==> pos == old(pos) && !Reliable()
    {
      var outcome := script(calls);
      calls := calls + 1;
      if outcome.ReadFails? || (pos == |stream.bytes| && !stream.clean) {
        return Err(());
      }
      var count := Min(Min(wanted, |stream.bytes| - pos), Max(1, outcome.limit));
      forall i | 0 <= i < count {
        buffer[i] := stream.bytes[pos + i];
      }
      pos := pos + count;
      return Ok(count);
    }
  }

  /** Either the path cannot be opened, or a reader at its start. */
  datatype Handle = Unopenable | Opened(reader: Reader)

  /** `hash_reader` / `hash_prefix`: count and digest of everything, or of at most `limit` bytes. */
  method HashReader(tools: Toolbox, reader: Reader, limit: Option<U64>)
    returns (r: Result<(nat, Digest), ()>)
    requires reader.pos == 0
    modifies reader
    ensures r.Ok? ==> var count := Limited(reader.stream.bytes, limit);
                      r.value == (count, tools.sha(reader.stream.bytes[..count]))
    ensures r.Ok? && limit.None? ==> reader.stream.clean
    ensures reader.Reliable() ==> r.Ok?
  {
    var hashed: seq<Byte> := [];
    var count := 0;
    var buffer := new Byte[BUFFER_BYTES];
    while true
      invariant reader.Valid() && reader.pos == count == |hashed| && hashed == reader.stream.bytes[..count]
      invariant limit.Some? ==> count <= limit.value
      invariant fresh(buffer) && buffer.Length == BUFFER_BYTES
      decreases |reader.stream.bytes| - count
    {
      var wanted := if limit.None? then buffer.Length else Min(limit.value - count, buffer.Length);
      if wanted == 0 {
        break;
      }
      var read :- reader.Read(buffer, wanted);
      if read == 0 {
        break;
      }
      hashed := hashed + buffer[..read];
      count := count + read;
    }
    return Ok((count, tools.sha(hashed)));
  }

  /** How many bytes a limited read of everything takes. */
  function Limited(bytes: seq<Byte>, limit: Option<U64>): (count: nat)
    ensures count <= |bytes|
  {
    if limit.None? then |bytes| else Min(limit.value, |bytes|)
  }
}
