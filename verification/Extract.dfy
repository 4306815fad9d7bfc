/**
 * Threaded extraction: a reader thread, a bounded channel and the consuming thread, as a step
 * relation over every interleaving, short read and failure.
 */
module Extract {
  import opened Basics
  import opened Plan
  import opened Tools

  datatype ExtractOptions = ExtractOptions(
    bytes: U64,
    compression: Compression,
    rawHash: bool,
    bufferBytes: U64,
    queueDepth: U64)

  datatype ExtractError =
    | InvalidOptions
    | InvalidCompressionLevel
    | OutputExists
    | IoFailure
    | UnexpectedEof(expected: nat, actual: nat)
    | ReaderThread

  datatype ExtractResult = ExtractResult(
    rawBytes: nat, rawSha256: Option<Digest>, compressedSha256: Digest, compressedBytes: nat)

  datatype Message = Data(buffer: seq<Byte>) | Done(hash: Option<Digest>) | Failed(error: ExtractError)

  /** Where the reader thread is. */
  datatype Reader =
    | Opening
    | Reading
    | Sending(buffer: seq<Byte>)
    | Closing(message: Message)
    | Leaving
    | Exited(panicked: bool)

  /** Where the thread that called `extract_path` is. */
  datatype Consumer =
    | StartingEncoder
    | Receiving
    | Holding(buffer: seq<Byte>)
    | Finishing(hash: Option<Digest>)
    | Syncing(hash: Option<Digest>)
    | Joining(hash: Option<Digest>)
    | HashingFile(hash: Option<Digest>)
    | Renaming(hash: Option<Digest>)
    | SyncingParent(hash: Option<Digest>)
    | Returned(result: Result<ExtractResult, ExtractError>)

  /**
   * `actual` counts the bytes read so far, `chunks` is what the encoder was given, `output` the file
   * under its final name.
   */
  datatype System = System(
    reader: Reader,
    actual: nat,
    queue: seq<Message>,
    receiverAlive: bool,
    consumer: Consumer,
    chunks: seq<seq<Byte>>,
    consumed: nat,
    output: Option<seq<Byte>>)

  datatype Env = Env(source: seq<Byte>, options: ExtractOptions, tools: Toolbox)

  const START: System := System(Opening, 0, [], true, StartingEncoder, [], 0, None)

  /** `queued_input_capacity`. */
  function QueuedInputCapacity(options: ExtractOptions): Option<U64> {
    var capacity := options.bufferBytes * options.queueDepth;
    if capacity <= MAX_U64 then Some(capacity) else None
  }

  predicate ValidOptions(options: ExtractOptions) {
    && options.bytes > 0 && options.bufferBytes > 0 && options.queueDepth > 0
    && QueuedInputCapacity(options).Some?
  }

  /** The hash the reader reports once it has read everything. */
  function FullHash(env: Env): Option<Digest> {
    if env.options.rawHash && env.options.bytes <= |env.source|
    then Some(env.tools.sha(env.source[..env.options.bytes])) else None
  }

  /** One thing that can happen next, with the part the outside world decides. */
  datatype Choice =
    | OpenSource(ok: bool)
    | ReadSome(count: nat)
    | ReadFails
    | SendData
    | SendFinal
    | ReaderReturns
    | ReaderPanics
    | StartEncoder(ok: bool)
    | Receive
    | Write(ok: bool, taken: nat)
    | Finish(ok: bool)
    | SyncFile(ok: bool)
    | Join
    | HashFile(ok: bool)
    | Rename(ok: bool)
    | SyncParent(ok: bool)

  // ----- The reader thread -----

  function Room(env: Env, s: System): bool {
    |s.queue| < env.options.queueDepth
  }

  function Wanted(env: Env, s: System): nat {
    Min(SaturatingSub(env.options.bytes, s.actual), env.options.bufferBytes)
  }

  /** After a buffer is on its way: read on, or finish the hash and say Done. */
  function AfterSend(env: Env, actual: nat): Reader {
    if actual >= env.options.bytes then Closing(Done(FullHash(env))) else Reading
  }

  function ReaderStep(env: Env, s: System, c: Choice): Option<System> {
    match (s.reader, c)
    case (Opening, OpenSource(ok)) =>
      Some(s.(reader := if ok then Reading else Closing(Failed(IoFailure))))
    case (Reading, ReadSome(count)) =>
      if count == 0 then Some(s.(reader := Closing(Failed(UnexpectedEof(env.options.bytes, s.actual)))))
      else if count <= Wanted(env, s) && s.actual + count <= |env.source| then
        Some(s.(reader := Sending(env.source[s.actual..s.actual + count]), actual := s.actual + count))
      else None
    case (Reading, ReadFails) => Some(s.(reader := Closing(Failed(IoFailure))))
    case (Sending(buffer), SendData) =>
      if !s.receiverAlive then Some(s.(reader := Closing(Done(None))))
      else if Room(env, s) then Some(s.(reader := AfterSend(env, s.actual), queue := s.queue + [Data(buffer)]))
      else None
    case (Closing(message), SendFinal) =>
      if !s.receiverAlive then Some(s.(reader := Leaving))
      else if Room(env, s) then Some(s.(reader := Leaving, queue := s.queue + [message]))
      else None
    case (Leaving, ReaderReturns) => Some(s.(reader := Exited(false)))
    case (Exited(_), _) => None
    case (_, ReaderPanics) => Some(s.(reader := Exited(true)))
    case _ => None
  }

  // ----- The consuming thread -----

  /** Returning drops the receiver, and with it everything still queued. */
  function Return(s: System, result: Result<ExtractResult, ExtractError>): System {
    s.(consumer := Returned(result), receiverAlive := false, queue := [])
  }

  function Proceed(s: System, ok: bool, next: Consumer): Option<System> {
    Some(if ok then s.(consumer := next) else Return(s, Err(IoFailure)))
  }

  function Received(s: System): Option<System> {
    if s.queue == [] then
      if s.reader.Exited? then Some(Return(s, Err(ReaderThread))) else None
    else
      var rest := s.(queue := s.queue[1..]);
      match s.queue[0]
      case Data(buffer) => Some(rest.(consumer := Holding(buffer)))
      case Done(hash) => Some(rest.(consumer := Finishing(hash)))
      case Failed(error) => Some(Return(s, Err(error)))
  }

  function Written(s: System, buffer: seq<Byte>, ok: bool, taken: nat): System {
    if ok then s.(consumer := Receiving, chunks := s.chunks + [buffer], consumed := s.consumed + |buffer|)
    else Return(s.(chunks := s.chunks + [buffer[..Min(taken, |buffer|)]]), Err(IoFailure))
  }

  function Encoded(env: Env, s: System): seq<Byte> {
    env.tools.encode(env.options.compression, s.chunks)
  }

  function Summary(env: Env, s: System, hash: Option<Digest>): ExtractResult {
    ExtractResult(s.consumed, hash, env.tools.sha(Encoded(env, s)), |Encoded(env, s)|)
  }

  function ConsumerStep(env: Env, s: System, c: Choice): Option<System> {
    match (s.consumer, c)
    case (StartingEncoder, StartEncoder(ok)) =>
      if env.options.compression.Xz? && env.options.compression.xzLevel > 9
      then Some(Return(s, Err(InvalidCompressionLevel)))
      else Proceed(s, ok, Receiving)
    case (Receiving, Receive) => Received(s)
    case (Holding(buffer), Write(ok, taken)) => Some(Written(s, buffer, ok, taken))
    case (Finishing(hash), Finish(ok)) => Proceed(s, ok, Syncing(hash))
    case (Syncing(hash), SyncFile(ok)) => Proceed(s, ok, Joining(hash))
    case (Joining(hash), Join) =>
      if !s.reader.Exited? then None
      else if s.reader.panicked then Some(Return(s, Err(ReaderThread)))
      else Some(s.(consumer := HashingFile(hash)))
    case (HashingFile(hash), HashFile(ok)) => Proceed(s, ok, Renaming(hash))
    case (Renaming(hash), Rename(ok)) =>
      if ok then Some(s.(consumer := SyncingParent(hash), output := Some(Encoded(env, s))))
      else Some(Return(s, Err(IoFailure)))
    case (SyncingParent(hash), SyncParent(ok)) =>
      Some(Return(s, if ok then Ok(Summary(env, s, hash)) else Err(IoFailure)))
    case _ => None
  }

  predicate ReaderChoice(c: Choice) {
    c.OpenSource? || c.ReadSome? || c.ReadFails? || c.SendData? || c.SendFinal? || c.ReaderReturns? || c.ReaderPanics?
  }

  /** The state after `c`, or None when `c` cannot happen now. */
  function Next(env: Env, s: System, c: Choice): Option<System> {
    if ReaderChoice(c) then ReaderStep(env, s, c) else ConsumerStep(env, s, c)
  }

  // ----- What every reachable state satisfies -----

  function Pending(s: System): seq<Byte> {
    if s.reader.Sending? then s.reader.buffer else []
  }

  function Held(s: System): seq<Byte> {
    if s.consumer.Holding? then s.consumer.buffer else []
  }

  function QueuedData(queue: seq<Message>): seq<Byte> {
    if queue == [] then []
    else (if queue[0].Data? then queue[0].buffer else []) + QueuedData(queue[1..])
  }

  lemma {:induction false} QueuedAppend(queue: seq<Message>, message: Message)
    ensures QueuedData(queue + [message]) == QueuedData(queue) + if message.Data? then message.buffer else []
  {
    if queue != [] {
      assert (queue + [message])[1..] == queue[1..] + [message];
      QueuedAppend(queue[1..], message);
    } else {
      assert (queue + [message])[1..] == [];
    }
  }

  /** The consumer has seen the reader's Done. */
  predicate Draining(consumer: Consumer) {
    consumer.Finishing? || consumer.Syncing? || consumer.Joining? || consumer.HashingFile? || consumer.Renaming?
    || consumer.SyncingParent?
  }

  function DrainHash(consumer: Consumer): Option<Digest>
    requires Draining(consumer)
  {
    consumer.hash
  }

  ghost predicate Complete(env: Env, s: System) {
    && s.actual == env.options.bytes <= |env.source|
    && Flatten(s.chunks) == env.source[..env.options.bytes]
    && s.consumed == env.options.bytes
  }

  predicate SmallBuffer(env: Env, message: Message) {
    message.Data? ==> 0 < |message.buffer| <= env.options.bufferBytes
  }

  /** A Done that can still reach the consumer follows the last byte and carries the right hash. */
  predicate HonestDone(env: Env, s: System, message: Message) {
    message.Done? ==> s.actual == env.options.bytes <= |env.source| && message.hash == FullHash(env)
  }

  /** Every byte on its way, oldest first: encoded, in the consumer's hands, queued, in the reader's hands. */
  function Flow(s: System): seq<Byte> {
    Flatten(s.chunks) + Held(s) + QueuedData(s.queue) + Pending(s)
  }

  predicate FinalQueued(s: System) {
    s.queue != [] && !s.queue[|s.queue| - 1].Data?
  }

  ghost predicate QueueShape(env: Env, s: System) {
    && |s.queue| <= env.options.queueDepth
    && (forall i :: 0 <= i < |s.queue| - 1 ==> s.queue[i].Data?)
    && (forall i :: 0 <= i < |s.queue| ==> SmallBuffer(env, s.queue[i]) && HonestDone(env, s, s.queue[i]))
    && (FinalQueued(s) ==> s.reader.Leaving? || s.reader.Exited?)
  }

  /** Positions, sizes and who is still listening. */
  ghost predicate Shape(env: Env, s: System) {
    && ValidOptions(env.options)
    && s.actual <= env.options.bytes && s.actual <= |env.source|
    && QueueShape(env, s)
    && |Pending(s)| <= env.options.bufferBytes && (s.reader.Sending? ==> Pending(s) != [])
    && |Held(s)| <= env.options.bufferBytes
    && (s.reader.Opening? ==> s.actual == 0)
    && (s.reader.Reading? ==> s.actual < env.options.bytes)
    && (s.reader.Closing? ==> !s.reader.message.Data? && (s.receiverAlive ==> HonestDone(env, s, s.reader.message)))
    && (s.receiverAlive <==> !s.consumer.Returned?)
    && (!s.receiverAlive ==> s.queue == [])
  }

  /** No byte is lost, repeated or reordered on the way to the encoder. */
  ghost predicate Conserved(env: Env, s: System)
    requires s.actual <= |env.source|
  {
    && (s.receiverAlive ==>
          && Flow(s) <= env.source[..s.actual]
          && (s.reader != Exited(true) || FinalQueued(s) ==> Flow(s) == env.source[..s.actual])
          && s.consumed == |Flatten(s.chunks)|)
    && Flatten(s.chunks) <= env.source[..s.actual]
  }

  /** The encoder has such a level. */
  predicate LevelTaken(env: Env) {
    env.options.compression.Xz? ==> env.options.compression.xzLevel <= 9
  }

  /** What the consumer may believe once it has seen Done, and what a result means. */
  ghost predicate Outcomes(env: Env, s: System) {
    && (Draining(s.consumer) ==>
          && Complete(env, s) && DrainHash(s.consumer) == FullHash(env) && s.queue == []
          && (s.reader.Leaving? || s.reader.Exited?))
    && (s.output.Some? ==> Complete(env, s) && s.output == Some(Encoded(env, s)))
    && (s.output.Some? ==> s.consumer.SyncingParent? || s.consumer.Returned?)
    && (s.output.Some? ==> s.reader.Leaving? || s.reader.Exited?)
    && (s.consumer.SyncingParent? ==> s.output.Some?)
    && (s.consumer.Receiving? || s.consumer.Holding? || Draining(s.consumer) || s.output.Some? ==> LevelTaken(env))
    && (s.consumer.Returned? && s.consumer.result.Ok? ==>
          s.output.Some? && s.consumer.result.value == Summary(env, s, FullHash(env)))
  }

  ghost predicate Invariant(env: Env, s: System) {
    Shape(env, s) && Conserved(env, s) && Outcomes(env, s)
  }

  lemma StartInvariant(env: Env)
    requires ValidOptions(env.options)
    ensures Invariant(env, START)
  {
  }

  lemma OnlyDataQueued(env: Env, s: System)
    requires QueueShape(env, s) && !s.reader.Leaving? && !s.reader.Exited?
    ensures forall i :: 0 <= i < |s.queue| ==> s.queue[i].Data?
  {
  }

  function AfterRead(env: Env, s: System, count: nat): System
    requires s.actual + count <= |env.source|
  {
    s.(reader := Sending(env.source[s.actual..s.actual + count]), actual := s.actual + count)
  }

  lemma ReadSomeShape(env: Env, s: System, count: nat)
    requires Shape(env, s) && s.reader.Reading?
    requires 0 < count <= Wanted(env, s) && s.actual + count <= |env.source|
    ensures Shape(env, AfterRead(env, s, count))
  {
    OnlyDataQueued(env, s);
    hide FullHash;
  }

  lemma ReadSomeConserves(env: Env, s: System, count: nat)
    requires s.reader.Reading? && s.actual + count <= |env.source| && Conserved(env, s)
    ensures Conserved(env, AfterRead(env, s, count))
  {
    var next := s.actual + count;
    assert env.source[..next] == env.source[..s.actual] + env.source[s.actual..next];
    assert Flow(AfterRead(env, s, count)) == Flow(s) + env.source[s.actual..next];
    hide Flow;
  }

  lemma ReadSomeKeeps(env: Env, s: System, count: nat)
    requires Invariant(env, s) && s.reader.Reading?
    requires 0 < count <= Wanted(env, s) && s.actual + count <= |env.source|
    ensures Invariant(env, AfterRead(env, s, count))
  {
    ReadSomeShape(env, s, count);
    ReadSomeConserves(env, s, count);
    hide Shape, Conserved, FullHash;
  }

  lemma ReadStopsKeeps(env: Env, s: System, error: ExtractError)
    requires Invariant(env, s) && s.reader.Reading?
    ensures Invariant(env, s.(reader := Closing(Failed(error))))
  {
    var s' := s.(reader := Closing(Failed(error)));
    assert Flow(s') == Flow(s);
    assert Shape(env, s');
  }

  lemma ReadKeeps(env: Env, s: System, c: Choice)
    requires Invariant(env, s) && s.reader.Reading? && ReaderStep(env, s, c).Some?
    ensures Invariant(env, ReaderStep(env, s, c).value)
  {
    hide Invariant;
    if c.ReadSome? && c.count > 0 {
      ReadSomeKeeps(env, s, c.count);
    } else if c.ReaderPanics? {
      PanicKeeps(env, s);
    } else {
      ReadStopsKeeps(env, s, ReaderStep(env, s, c).value.reader.message.error);
    }
  }

  lemma SendDataKeeps(env: Env, s: System)
    requires Invariant(env, s) && s.reader.Sending? && s.receiverAlive && Room(env, s)
    ensures Invariant(env, s.(reader := AfterSend(env, s.actual), queue := s.queue + [Data(s.reader.buffer)]))
  {
    var s' := s.(reader := AfterSend(env, s.actual), queue := s.queue + [Data(s.reader.buffer)]);
    QueuedAppend(s.queue, Data(s.reader.buffer));
    assert Flow(s') == Flow(s);
  }

  lemma SendFinalKeeps(env: Env, s: System)
    requires Invariant(env, s) && s.reader.Closing? && s.receiverAlive && Room(env, s)
    ensures Invariant(env, s.(reader := Leaving, queue := s.queue + [s.reader.message]))
  {
    var s' := s.(reader := Leaving, queue := s.queue + [s.reader.message]);
    QueuedAppend(s.queue, s.reader.message);
    assert Flow(s') == Flow(s);
  }

  lemma PanicKeeps(env: Env, s: System)
    requires Invariant(env, s)
    ensures Invariant(env, s.(reader := Exited(true)))
  {
    var s' := s.(reader := Exited(true));
    assert Flow(s) == Flow(s') + Pending(s);
  }

  lemma OtherReaderKeeps(env: Env, s: System, reader: Reader)
    requires Invariant(env, s) && !s.reader.Reading? && s.reader != Exited(true)
    requires s.reader.Sending? ==> !s.receiverAlive
    requires s.reader.Leaving? || s.reader.Exited? ==> reader == Exited(false)
    requires s.reader.Opening? ==> s.actual == 0
    requires reader.Reading? ==> s.reader.Opening?
    requires reader in {Reading, Closing(Failed(IoFailure)), Closing(Done(None)), Leaving, Exited(false)}
    requires reader.Closing? && reader.message.Done? ==> !s.receiverAlive
    ensures Invariant(env, s.(reader := reader))
  {
    var s' := s.(reader := reader);
    assert s.receiverAlive ==> Flow(s') == Flow(s);
    assert Shape(env, s');
  }

  lemma ReaderKeeps(env: Env, s: System, c: Choice)
    requires Invariant(env, s) && ReaderStep(env, s, c).Some?
    ensures Invariant(env, ReaderStep(env, s, c).value)
  {
    hide Invariant;
    if c.ReaderPanics? {
      PanicKeeps(env, s);
    } else if s.reader.Reading? {
      ReadKeeps(env, s, c);
    } else if s.reader.Sending? && s.receiverAlive {
      SendDataKeeps(env, s);
    } else if s.reader.Closing? && s.receiverAlive {
      SendFinalKeeps(env, s);
    } else {
      OpeningAtZero(env, s);
      OtherReaderKeeps(env, s, ReaderStep(env, s, c).value.reader);
    }
  }

  lemma OpeningAtZero(env: Env, s: System)
    requires Invariant(env, s)
    ensures s.reader.Opening? ==> s.actual == 0
  {
  }

  lemma ReturnKeeps(env: Env, s: System, error: ExtractError)
    requires Invariant(env, s)
    ensures Invariant(env, Return(s, Err(error)))
  {
  }

  lemma ReceiveKeeps(env: Env, s: System)
    requires Invariant(env, s) && s.consumer.Receiving? && Received(s).Some?
    ensures Invariant(env, Received(s).value)
  {
    var s' := Received(s).value;
    if s.queue != [] && s.queue[0].Data? {
      assert Flow(s') == Flow(s);
    } else if s.queue != [] && s.queue[0].Done? {
      assert |s.queue| == 1;
      assert Flow(s) == Flatten(s.chunks);
    } else if s.queue != [] {
      ReturnKeeps(env, s, s.queue[0].error);
    } else {
      ReturnKeeps(env, s, ReaderThread);
    }
  }

  lemma WriteAllKeeps(env: Env, s: System)
    requires Invariant(env, s) && s.consumer.Holding?
    ensures Invariant(env, Written(s, s.consumer.buffer, true, 0))
  {
    var s' := Written(s, s.consumer.buffer, true, 0);
    FlattenAppend(s.chunks, s.consumer.buffer);
    assert Flow(s') == Flow(s);
    assert Flatten(s'.chunks) <= Flow(s);
    assert Shape(env, s');
  }

  lemma WriteFailKeeps(env: Env, s: System, taken: nat)
    requires Invariant(env, s) && s.consumer.Holding?
    ensures Invariant(env, Written(s, s.consumer.buffer, false, taken))
  {
    var buffer := s.consumer.buffer;
    var s' := Written(s, buffer, false, taken);
    var given := buffer[..Min(taken, |buffer|)];
    FlattenAppend(s.chunks, given);
    assert Flatten(s.chunks) + buffer <= Flow(s);
    assert Flatten(s'.chunks) <= Flatten(s.chunks) + buffer;
    assert Shape(env, s');
  }

  lemma WriteKeeps(env: Env, s: System, ok: bool, taken: nat)
    requires Invariant(env, s) && s.consumer.Holding?
    ensures Invariant(env, Written(s, s.consumer.buffer, ok, taken))
  {
    if ok {
      WriteAllKeeps(env, s);
    } else {
      WriteFailKeeps(env, s, taken);
    }
  }

  /** The consumer's steps that only move it along. */
  lemma AdvanceKeeps(env: Env, s: System, next: Consumer)
    requires Invariant(env, s)
    requires || (s.consumer.StartingEncoder? && next.Receiving? && LevelTaken(env))
             || (Draining(s.consumer) && Draining(next) && DrainHash(next) == DrainHash(s.consumer)
                 && !next.SyncingParent? && !s.consumer.SyncingParent?)
    ensures Invariant(env, s.(consumer := next))
  {
    assert Flow(s.(consumer := next)) == Flow(s);
  }

  lemma RenameKeeps(env: Env, s: System)
    requires Invariant(env, s) && s.consumer.Renaming?
    ensures Invariant(env, s.(consumer := SyncingParent(s.consumer.hash), output := Some(Encoded(env, s))))
  {
    assert Flow(s.(consumer := SyncingParent(s.consumer.hash), output := Some(Encoded(env, s)))) == Flow(s);
  }

  lemma SuccessKeeps(env: Env, s: System)
    requires Invariant(env, s) && s.consumer.SyncingParent?
    ensures Invariant(env, Return(s, Ok(Summary(env, s, s.consumer.hash))))
  {
  }

  lemma ConsumerKeeps(env: Env, s: System, c: Choice)
    requires Invariant(env, s) && ConsumerStep(env, s, c).Some?
    ensures Invariant(env, ConsumerStep(env, s, c).value)
  {
    hide Invariant, Received;
    if s.consumer.Receiving? {
      ReceiveKeeps(env, s);
    } else if s.consumer.Holding? {
      WriteKeeps(env, s, c.ok, c.taken);
    } else {
      var s' := ConsumerStep(env, s, c).value;
      if s'.consumer.Returned? && s'.consumer.result.Err? {
        ReturnKeeps(env, s, s'.consumer.result.error);
      } else if s.consumer.Renaming? {
        RenameKeeps(env, s);
      } else if s.consumer.SyncingParent? {
        SuccessKeeps(env, s);
      } else {
        AdvanceKeeps(env, s, s'.consumer);
      }
    }
  }

  lemma StepKeepsInvariant(env: Env, s: System, c: Choice)
    requires Invariant(env, s) && Next(env, s, c).Some?
    ensures Invariant(env, Next(env, s, c).value)
  {
    hide Invariant, ReaderStep, ConsumerStep;
    if ReaderChoice(c) {
      ReaderKeeps(env, s, c);
    } else {
      ConsumerKeeps(env, s, c);
    }
  }

  // ----- No deadlock, termination, bounded memory -----

  /** Both threads are through. */
  predicate Finished(s: System) {
    s.consumer.Returned? && s.reader.Exited?
  }

  /** Some step that is possible whenever the system is not finished. */
  function EnabledChoice(env: Env, s: System): Choice {
    match s.consumer
    case StartingEncoder => StartEncoder(true)
    case Receiving => if s.queue != [] || s.reader.Exited? then Receive else ReaderChoiceOf(env, s)
    case Holding(buffer) => Write(true, 0)
    case Finishing(_) => Finish(true)
    case Syncing(_) => SyncFile(true)
    case Joining(_) => if s.reader.Exited? then Join else ReaderChoiceOf(env, s)
    case HashingFile(_) => HashFile(true)
    case Renaming(_) => Rename(true)
    case SyncingParent(_) => SyncParent(true)
    case Returned(_) => ReaderChoiceOf(env, s)
  }

  function ReaderChoiceOf(env: Env, s: System): Choice {
    match s.reader
    case Opening => OpenSource(true)
    case Reading => ReadSome(Min(Wanted(env, s), SaturatingSub(|env.source|, s.actual)))
    case Sending(_) => SendData
    case Closing(_) => SendFinal
    case Leaving => ReaderReturns
    case Exited(_) => ReaderPanics
  }

  /** A reader blocked on a full queue always has a consumer that can move, and the other way round. */
  lemma NeverDeadlocked(env: Env, s: System)
    requires Invariant(env, s) && !Finished(s)
    ensures Next(env, s, EnabledChoice(env, s)).Some?
  {
  }

  function ReaderRank(s: System): nat {
    match s.reader
    case Opening => 6
    case Reading => 5
    case Sending(_) => 8
    case Closing(_) => 4
    case Leaving => 1
    case Exited(_) => 0
  }

  function ConsumerRank(s: System): nat {
    match s.consumer
    case StartingEncoder => 9
    case Receiving => 7
    case Holding(_) => 8
    case Finishing(_) => 6
    case Syncing(_) => 5
    case Joining(_) => 4
    case HashingFile(_) => 3
    case Renaming(_) => 2
    case SyncingParent(_) => 1
    case Returned(_) => 0
  }

  /** An upper bound on the steps still to come. */
  function Measure(env: Env, s: System): nat {
    4 * SaturatingSub(env.options.bytes, s.actual) + 2 * |s.queue| + ReaderRank(s) + ConsumerRank(s)
  }

  lemma StepsDecrease(env: Env, s: System, c: Choice)
    requires Invariant(env, s) && Next(env, s, c).Some?
    ensures Measure(env, Next(env, s, c).value) < Measure(env, s)
  {
    hide Conserved, Outcomes, QueueShape;
  }

  function QueueBytes(queue: seq<Message>): nat {
    if queue == [] then 0
    else QueueBytes(queue[..|queue| - 1])
         + if queue[|queue| - 1].Data? then |queue[|queue| - 1].buffer| else 0
  }

  lemma {:induction false} QueueBytesBounded(queue: seq<Message>, limit: nat)
    requires forall i :: 0 <= i < |queue| && queue[i].Data? ==> |queue[i].buffer| <= limit
    ensures QueueBytes(queue) <= |queue| * limit
  {
    if queue != [] {
      QueueBytesBounded(queue[..|queue| - 1], limit);
      assert |queue| * limit == (|queue| - 1) * limit + limit;
    }
  }

  lemma QueueProduct(queued: nat, depth: nat, size: nat)
    requires queued <= depth
    ensures queued * size <= depth * size
    ensures (depth + 2) * size == depth * size + 2 * size
    ensures size * depth == depth * size
  {
  }

  /** Memory outside the encoder is bounded by the configuration, never by the device. */
  lemma MemoryIsBounded(env: Env, s: System)
    requires Invariant(env, s)
    ensures |s.queue| <= env.options.queueDepth
    ensures QueueBytes(s.queue) + |Pending(s)| + |Held(s)|
            <= (env.options.queueDepth + 2) * env.options.bufferBytes
    ensures env.options.queueDepth * env.options.bufferBytes <= MAX_U64
  {
    hide Conserved, Outcomes, Flow, HonestDone;
    QueueProduct(|s.queue|, env.options.queueDepth, env.options.bufferBytes);
    assert forall i :: 0 <= i < |s.queue| ==> SmallBuffer(env, s.queue[i]);
    QueueBytesBounded(s.queue, env.options.bufferBytes);
  }

  // ----- Whole runs -----

  /** A run: every next state comes from the one before by the choice made there. */
  ghost predicate IsRun(env: Env, states: seq<System>, choices: seq<Choice>) {
    && ValidOptions(env.options)
    && |states| == |choices| + 1 && states[0] == START
    && forall i :: 0 <= i < |choices| ==> Next(env, states[i], choices[i]) == Some(states[i + 1])
  }

  lemma {:induction false} RunKeepsInvariant(env: Env, states: seq<System>, choices: seq<Choice>)
    requires IsRun(env, states, choices)
    ensures Invariant(env, states[|choices|])
    ensures Measure(env, states[|choices|]) + |choices| <= Measure(env, START)
  {
    hide Invariant, Measure;
    if choices == [] {
      StartInvariant(env);
    } else {
      var n := |choices| - 1;
      RunKeepsInvariant(env, states[..n + 1], choices[..n]);
      assert Next(env, states[n], choices[n]) == Some(states[n + 1]);
      StepKeepsInvariant(env, states[n], choices[n]);
      StepsDecrease(env, states[n], choices[n]);
    }
  }

  /**
   * Every interleaving, short read and failure: no run is longer than a bound known at the start, a run
   * that cannot go on has finished, the bytes in flight are always a prefix of the source, and a
   * successful result means exactly the requested bytes were encoded under the final name.
   */
  lemma EveryRun(env: Env, states: seq<System>, choices: seq<Choice>)
    requires IsRun(env, states, choices)
    ensures var s := states[|choices|];
            && |choices| <= 4 * env.options.bytes + 15
            && (!Finished(s) ==> exists c :: Next(env, s, c).Some?)
            && (s.receiverAlive ==> Flow(s) <= env.source)
            && Flatten(s.chunks) <= env.source
            && (s.output.Some? ==> env.options.bytes <= |env.source|
                                   && Flatten(s.chunks) == env.source[..env.options.bytes])
            && (s.consumer.Returned? && s.consumer.result.Ok? ==>
                  && env.options.bytes <= |env.source| && Flatten(s.chunks) == env.source[..env.options.bytes]
                  && s.output == Some(Encoded(env, s))
                  && s.consumer.result.value
                     == ExtractResult(
                          env.options.bytes,
                          if env.options.rawHash then Some(env.tools.sha(env.source[..env.options.bytes])) else None,
                          env.tools.sha(s.output.value), |s.output.value|)
                  && (env.options.compression.Xz? ==> env.options.compression.xzLevel <= 9))
  {
    var s := states[|choices|];
    RunKeepsInvariant(env, states, choices);
    if !Finished(s) {
      NeverDeadlocked(env, s);
    }
    assert env.source[..s.actual] <= env.source;
    hide Shape, Next;
  }

  /** Once the receiver is gone nothing is queued or received any more. */
  lemma DroppedStaysDropped(env: Env, s: System, c: Choice)
    requires Invariant(env, s) && !s.receiverAlive && Next(env, s, c).Some?
    ensures var s' := Next(env, s, c).value;
            !s'.receiverAlive && s'.queue == [] && s'.consumer == s.consumer && s'.chunks == s.chunks
  {
  }

  /** The Done a reader says after a failed send is never received, in any continuation of any run. */
  lemma {:induction false} FailedSendIsNeverAnswered(env: Env, states: seq<System>, choices: seq<Choice>, i: nat)
    requires IsRun(env, states, choices) && i <= |choices| && !states[i].receiverAlive
    ensures var last := states[|choices|];
            !last.receiverAlive && last.queue == [] && last.consumer == states[i].consumer
            && last.chunks == states[i].chunks
    decreases |choices|
  {
    hide Invariant, Next;
    RunKeepsInvariant(env, states[..i + 1], choices[..i]);
    var n := |choices|;
    if i < n {
      FailedSendIsNeverAnswered(env, states[..n], choices[..n - 1], i);
      RunKeepsInvariant(env, states[..n], choices[..n - 1]);
      assert Next(env, states[n - 1], choices[n - 1]) == Some(states[n]);
      DroppedStaysDropped(env, states[n - 1], choices[n - 1]);
    } else {
      QueueOfDropped(env, states[i]);
    }
  }

  lemma QueueOfDropped(env: Env, s: System)
    requires Invariant(env, s) && !s.receiverAlive
    ensures s.queue == []
  {
  }

  // ----- Runs in which nothing fails -----

  predicate Benign(c: Choice) {
    match c
    case OpenSource(ok) => ok
    case ReadSome(count) => count > 0
    case ReadFails => false
    case ReaderPanics => false
    case StartEncoder(ok) => ok
    case Write(ok, _) => ok
    case Finish(ok) => ok
    case SyncFile(ok) => ok
    case HashFile(ok) => ok
    case Rename(ok) => ok
    case SyncParent(ok) => ok
    case _ => true
  }

  /** The whole range exists and the level is one the encoder takes. */
  predicate Feasible(env: Env) {
    && ValidOptions(env.options) && env.options.bytes <= |env.source|
    && (env.options.compression.Xz? ==> env.options.compression.xzLevel <= 9)
  }

  ghost predicate Clean(s: System) {
    && (s.reader.Closing? ==> s.reader.message.Done?)
    && s.reader != Exited(true)
    && (forall i :: 0 <= i < |s.queue| ==> !s.queue[i].Failed?)
    && (s.consumer.Returned? ==> s.consumer.result.Ok?)
    && (s.consumer.Receiving? && s.reader.Exited? ==> s.queue != [])
    && (s.consumer.Receiving? && s.reader.Leaving? ==> FinalQueued(s))
    && (s.consumer.Receiving? && s.reader.Exited? ==> FinalQueued(s))
    && ((s.consumer.Holding? || s.consumer.StartingEncoder?) && (s.reader.Leaving? || s.reader.Exited?) ==>
          FinalQueued(s))
  }

  lemma CleanReaderStep(env: Env, s: System, c: Choice)
    requires Feasible(env) && Invariant(env, s) && Clean(s) && Benign(c) && ReaderStep(env, s, c).Some?
    ensures Clean(ReaderStep(env, s, c).value)
  {
    hide Conserved, HonestDone, SmallBuffer, FullHash;
  }

  lemma CleanConsumerStep(env: Env, s: System, c: Choice)
    requires Feasible(env) && Invariant(env, s) && Clean(s) && Benign(c) && ConsumerStep(env, s, c).Some?
    ensures Clean(ConsumerStep(env, s, c).value)
  {
    hide Conserved, HonestDone, SmallBuffer, Encoded;
  }

  lemma CleanStep(env: Env, s: System, c: Choice)
    requires Feasible(env) && Invariant(env, s) && Clean(s) && Benign(c) && Next(env, s, c).Some?
    ensures Clean(Next(env, s, c).value)
  {
    hide Invariant, Clean, Benign, ReaderStep, ConsumerStep;
    if ReaderChoice(c) {
      CleanReaderStep(env, s, c);
    } else {
      CleanConsumerStep(env, s, c);
    }
  }

  lemma CleanGoesOn(env: Env, s: System)
    requires Feasible(env) && Invariant(env, s) && Clean(s) && !Finished(s)
    ensures Benign(EnabledChoice(env, s)) && Next(env, s, EnabledChoice(env, s)).Some?
  {
    NeverDeadlocked(env, s);
    hide Conserved, Outcomes, Next;
  }

  /** If no tool fails the run can only end in success, and until then it can always go on that way. */
  lemma {:induction false} CleanRunSucceeds(env: Env, states: seq<System>, choices: seq<Choice>)
    requires IsRun(env, states, choices) && Feasible(env)
    requires forall i :: 0 <= i < |choices| ==> Benign(choices[i])
    ensures Clean(states[|choices|])
    ensures var s := states[|choices|];
            if Finished(s) then s.consumer.result.Ok?
            else Benign(EnabledChoice(env, s)) && Next(env, s, EnabledChoice(env, s)).Some?
  {
    var n := |choices|;
    RunKeepsInvariant(env, states, choices);
    if n > 0 {
      hide Invariant, Next;
      CleanRunSucceeds(env, states[..n], choices[..n - 1]);
      RunKeepsInvariant(env, states[..n], choices[..n - 1]);
      assert Next(env, states[n - 1], choices[n - 1]) == Some(states[n]);
      CleanStep(env, states[n - 1], choices[n - 1]);
    }
    if !Finished(states[n]) {
      CleanGoesOn(env, states[n]);
    }
  }

  // ----- Which errors there can be -----

  /** A choice that is not itself a failure; a read may find the source at its end. */
  predicate Faultless(c: Choice) {
    Benign(c) || (c.ReadSome? && c.count == 0)
  }

  /** The source ended before the range did. */
  predicate HonestEof(env: Env, error: ExtractError) {
    && error.UnexpectedEof? && error.expected == env.options.bytes
    && error.actual < env.options.bytes && error.actual <= |env.source|
  }

  predicate Honest(env: Env, message: Message) {
    message.Failed? ==> HonestEof(env, message.error)
  }

  /** Nothing but an early end or a level the encoder has not is being reported. */
  ghost predicate Blameless(env: Env, s: System) {
    && (s.reader.Closing? ==> Honest(env, s.reader.message))
    && s.reader != Exited(true)
    && (forall i :: 0 <= i < |s.queue| ==> Honest(env, s.queue[i]))
    && (s.consumer.Returned? && s.consumer.result.Err? ==>
          || HonestEof(env, s.consumer.result.error)
          || (s.consumer.result.error == InvalidCompressionLevel && !LevelTaken(env)))
    && (s.consumer.Receiving? || s.consumer.Holding? || s.consumer.StartingEncoder? ==>
          (s.reader.Leaving? || s.reader.Exited? ==> FinalQueued(s)))
  }

  lemma BlamelessReaderStep(env: Env, s: System, c: Choice)
    requires Invariant(env, s) && Blameless(env, s) && Faultless(c) && ReaderStep(env, s, c).Some?
    ensures Blameless(env, ReaderStep(env, s, c).value)
  {
    hide Conserved, HonestDone, SmallBuffer, FullHash;
  }

  lemma BlamelessConsumerStep(env: Env, s: System, c: Choice)
    requires Invariant(env, s) && Blameless(env, s) && Faultless(c) && ConsumerStep(env, s, c).Some?
    ensures Blameless(env, ConsumerStep(env, s, c).value)
  {
    hide Conserved, HonestDone, SmallBuffer, Encoded, HonestEof;
  }

  lemma BlamelessStep(env: Env, s: System, c: Choice)
    requires Invariant(env, s) && Blameless(env, s) && Faultless(c) && Next(env, s, c).Some?
    ensures Blameless(env, Next(env, s, c).value)
  {
    hide Invariant, Blameless, Faultless, ReaderStep, ConsumerStep;
    if ReaderChoice(c) {
      BlamelessReaderStep(env, s, c);
    } else {
      BlamelessConsumerStep(env, s, c);
    }
  }

  lemma EnabledIsFaultless(env: Env, s: System)
    requires Invariant(env, s) && !Finished(s)
    ensures Faultless(EnabledChoice(env, s)) && Next(env, s, EnabledChoice(env, s)).Some?
  {
    NeverDeadlocked(env, s);
    hide Conserved, Outcomes, Next;
  }

  // ----- extract_path -----

  /**
   * Extraction under any scheduler: `schedule` proposes what happens next, and when its proposal is not
   * possible some possible step is taken instead.
   */
  method ExtractPath(env: Env, outputExists: bool, partialExists: bool, created: bool, schedule: nat -> Choice)
    returns (r: Result<ExtractResult, ExtractError>, output: Option<seq<Byte>>, progressed: bool,
             ghost chunks: seq<seq<Byte>>)
    ensures r.Ok? ==> && !outputExists && !partialExists && output.Some?
                      && r.value.rawBytes == env.options.bytes
                      && r.value.rawSha256 == FullHash(env)
                      && r.value.compressedBytes == |output.value|
                      && r.value.compressedSha256 == env.tools.sha(output.value)
    ensures output.Some? && env.options.compression.Xz? ==> env.options.compression.xzLevel <= 9
    ensures output.Some? ==> && progressed && 0 < env.options.bytes <= |env.source|
                             && output.value == env.tools.encode(env.options.compression, chunks)
                             && Flatten(chunks) == env.source[..env.options.bytes]
    ensures !ValidOptions(env.options) ==> r == Err(InvalidOptions)
    ensures ValidOptions(env.options) && (outputExists || partialExists) ==> r == Err(OutputExists)
    ensures Feasible(env) && !outputExists && !partialExists && created && (forall t :: Benign(schedule(t))) ==> r.Ok?
    ensures && ValidOptions(env.options) && !outputExists && !partialExists && created
            && (forall t :: Faultless(schedule(t))) && r.Err?
            ==> HonestEof(env, r.error) || (r.error == InvalidCompressionLevel && !LevelTaken(env))
  {
    chunks, progressed := [], false;
    if !ValidOptions(env.options) {
      return Err(InvalidOptions), None, progressed, chunks;
    }
    if outputExists || partialExists {
      return Err(OutputExists), None, progressed, chunks;
    }
    if !created {
      return Err(IoFailure), None, progressed, chunks;
    }
    var s, tick := START, 0;
    StartInvariant(env);
    ghost var smooth := Feasible(env) && forall t :: Benign(schedule(t));
    ghost var blameless := forall t :: Faultless(schedule(t));
    while !s.consumer.Returned?
      invariant Invariant(env, s)
      invariant smooth ==> Clean(s)
      invariant blameless ==> Blameless(env, s)
      decreases Measure(env, s)
    {
      hide Invariant, Measure, Clean, Feasible, Benign, Blameless, Faultless;
      var c := schedule(tick);
      if Next(env, s, c).None? {
        NeverDeadlocked(env, s);
        c := EnabledChoice(env, s);
        EnabledIsFaultless(env, s);
        if smooth {
          CleanGoesOn(env, s);
        }
      }
      if blameless {
        BlamelessStep(env, s, c);
      }
      if smooth {
        CleanStep(env, s, c);
      }
      StepKeepsInvariant(env, s, c);
      StepsDecrease(env, s, c);
      s, tick := Next(env, s, c).value, tick + 1;
    }
    return s.consumer.result, s.output, s.consumed > 0, s.chunks;
  }
}
