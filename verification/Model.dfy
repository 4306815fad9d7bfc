/** The wizard's state: what has been set up so far, what the dashboard shows, and the reducer over actions. */
module Model {
  import opened Basics
  import opened Paths
  import opened Plan
  import opened Preparation
  import opened Text

  const HISTORY: nat := 8
  const NANOS: nat := 1_000_000_000

  datatype Screen =
    | DeviceSelection | ConfirmDevice | OutputScreen | VerificationScreen | Review
    | PreparingScreen | MutatingScreen | ExtractingScreen | VerifyingScreen | CompleteScreen

  datatype OperationPhase = InspectPhase | ShrinkPhase | ExtractPhase | VerifyPhase | DonePhase

  datatype PlanPreview = PlanPreview(
    sourceSizeBytes: U64,
    currentFilesystemBytes: U64,
    targetFilesystemBytes: U64,
    imageBytes: U64,
    outputAvailableBytes: U64,
    rootPartition: string)

  datatype OperationResult = OperationResult(
    output: string, rawBytes: U64, compressedBytes: U64, compressedSha256: string, verification: string,
    metadataPath: string, logPath: string)

  datatype Complaint = InvalidSelection | WrongModel | NoOutput | ArtifactExists(path: string) | Reported(text: string)
  datatype Note = Began(phase: OperationPhase) | FailedWith(complaint: Complaint) | UnknownLayout
  datatype Event = Event(elapsed: int, note: Note)
  datatype Sample = Sample(at: int, bytes: U64)

  datatype Action =
    | MoveDeviceCursor(delta: int)
    | SelectDevice(index: nat)
    | SetConfirmation(confirmation: string)
    | SetOutput(output: string)
    | SetDefaultOutput(output: string)
    | SetCompression(compression: Compression)
    | SetVerification(verification: VerificationLevel)
    | SetPlanPreview(preview: PlanPreview)
    | SetOperationResult(result: OperationResult)
    | Continue
    | Previous
    | MutationStarted
    | PreparationStarted
    | ExtractionStarted
    | VerificationStarted
    | Progress(bytes: U64, total: U64)
    | Finished
    | Failed(complaint: Complaint)
    | SetUnknownLayoutWarning(warn: bool)
    | Tick

  /** The fields the setup screens work on. */
  datatype Setup = Setup(
    screen: Screen,
    devices: seq<DeviceIdentity>,
    selected: Option<nat>,
    cursor: nat,
    confirmation: string,
    output: string,
    automatic: bool,
    compression: Compression,
    verification: VerificationLevel,
    preview: Option<PlanPreview>,
    error: Option<Complaint>,
    unknownLayout: bool)

  /** `AppModel::new`. */
  function Fresh(devices: seq<DeviceIdentity>): Setup {
    Setup(DeviceSelection, devices, None, 0, "", "", false, Zstandard(3), Decode, None, None, false)
  }

  function SelectedDevice(s: Setup): (r: Option<DeviceIdentity>)
    ensures r.Some? ==> r.value in s.devices
  {
    if s.selected.Some? && s.selected.value < |s.devices| then Some(s.devices[s.selected.value]) else None
  }

  // ----- Output names -----

  function LastDot(name: string): (r: Option<nat>)
    ensures r.Some? ==> r.value < |name| && name[r.value] == '.'
  {
    if name == "" then None
    else if name[|name| - 1] == '.' then Some(|name| - 1)
    else LastDot(name[..|name| - 1])
  }

  /** `Path::extension`: behind the last dot of the file name, unless that name starts with it. */
  function Extension(path: string): Option<string> {
    match FileName(path)
    case None => None
    case Some(name) =>
      match LastDot(name)
      case None => None
      case Some(dot) => if dot == 0 then None else Some(name[dot + 1..])
  }

  /** `complete_output_extension`. */
  function Completed(output: string, compression: Compression): string {
    var suffix := if compression.Zstandard? then ".zst" else ".xz";
    match Extension(output)
    case None => output + ".img" + suffix
    case Some(extension) => if extension == "img" then output + suffix else output
  }

  lemma CompletedStaysVisible(output: string, compression: Compression)
    requires Trim(output) != ""
    ensures Trim(Completed(output, compression)) != ""
  {
    hide Extension;
    TrimEmptyExactly(output);
    var i :| 0 <= i < |output| && !IsSpace(output[i]);
    var completed := Completed(output, compression);
    assert completed[i] == output[i];
    TrimEmptyExactly(completed);
  }

  // ----- The reducer on the setup fields -----

  function MovedCursor(cursor: nat, count: nat, delta: int): nat {
    if count == 0 || delta == 0 then cursor
    else if delta > 0 then (cursor + 1) % count
    else if cursor == 0 then count - 1 else cursor - 1
  }

  function Continued(s: Setup): Setup {
    match s.screen
    case ConfirmDevice =>
      var device := SelectedDevice(s);
      if device.Some? && device.value.model == Trim(s.confirmation) then s.(screen := OutputScreen)
      else s.(error := Some(WrongModel))
    case OutputScreen =>
      if Trim(s.output) == "" then s.(error := Some(NoOutput))
      else s.(output := Completed(s.output, s.compression), screen := VerificationScreen)
    case VerificationScreen => s.(screen := Review)
    case _ => s
  }

  function PreviousOf(screen: Screen): Screen {
    match screen
    case ConfirmDevice => DeviceSelection
    case OutputScreen => ConfirmDevice
    case VerificationScreen => OutputScreen
    case Review => VerificationScreen
    case _ => screen
  }

  /** What one action makes of the setup; `retitle` is how an automatic output follows the compression. */
  function Reduced(before: Setup, action: Action, retitle: (string, Compression) -> string): Setup {
    var s := if action.Tick? then before else before.(error := None);
    match action
    case MoveDeviceCursor(delta) => s.(cursor := MovedCursor(s.cursor, |s.devices|, delta))
    case SelectDevice(index) =>
      if index < |s.devices|
      then s.(selected := Some(index), cursor := index, confirmation := "", screen := ConfirmDevice)
      else s.(error := Some(InvalidSelection))
    case SetConfirmation(value) => s.(confirmation := value)
    case SetOutput(value) => s.(output := value, automatic := false)
    case SetDefaultOutput(value) => s.(output := value, automatic := true)
    case SetCompression(value) =>
      s.(output := if s.automatic then retitle(s.output, value) else s.output, compression := value)
    case SetVerification(value) => s.(verification := value)
    case SetPlanPreview(value) => s.(preview := Some(value))
    case Continue => Continued(s)
    case Previous => s.(screen := PreviousOf(s.screen))
    case PreparationStarted => s.(screen := PreparingScreen)
    case MutationStarted => s.(screen := MutatingScreen)
    case ExtractionStarted => s.(screen := ExtractingScreen)
    case VerificationStarted => s.(screen := VerifyingScreen)
    case Finished => s.(screen := CompleteScreen)
    case Failed(complaint) => s.(error := Some(complaint))
    case SetUnknownLayoutWarning(value) => s.(unknownLayout := value)
    case _ => s
  }

  /** Cursor and selection point into the list. */
  predicate InRange(s: Setup) {
    && (s.selected.Some? ==> s.selected.value < |s.devices|)
    && (s.cursor < |s.devices| || s.cursor == 0)
  }

  lemma ReducedStaysInRange(s: Setup, action: Action, retitle: (string, Compression) -> string)
    requires InRange(s)
    ensures InRange(Reduced(s, action, retitle))
  {
    hide Completed, Trim;
    if action.MoveDeviceCursor? && s.devices != [] {
      ModBelow(s.cursor + 1, |s.devices|);
    }
  }

  lemma ReducedKeepsList(s: Setup, action: Action, retitle: (string, Compression) -> string)
    ensures Reduced(s, action, retitle).devices == s.devices
  {
    hide Completed, Trim, MovedCursor;
  }

  lemma ModBelow(a: nat, n: nat)
    requires n > 0
    ensures 0 <= a % n < n
  {
  }

  /** The cursor moves one down or up the list, and around its ends. */
  lemma CursorMoves(cursor: nat, count: nat)
    requires cursor < count
    ensures cursor < count - 1 ==> MovedCursor(cursor, count, 1) == cursor + 1
    ensures MovedCursor(count - 1, count, 1) == 0 && MovedCursor(0, count, -1) == count - 1
    ensures MovedCursor(MovedCursor(cursor, count, 1), count, -1) == cursor
    ensures MovedCursor(MovedCursor(cursor, count, -1), count, 1) == cursor
  {
    ModBySize(cursor, count);
    ModBySize(cursor + 1, count);
    ModBySize(count, count);
  }

  lemma ModBySize(a: nat, n: nat)
    requires 0 < n && a <= n
    ensures a % n == if a == n then 0 else a
  {
  }

  /** Going back from where Continue led comes back, and the first screen is behind the confirmation. */
  lemma PreviousUndoesContinue(s: Setup)
    ensures Continued(s).screen != s.screen ==> PreviousOf(Continued(s).screen) == s.screen
    ensures PreviousOf(ConfirmDevice) == DeviceSelection == PreviousOf(DeviceSelection)
  {
    hide Completed, Trim;
  }

  predicate EndsWith(s: string, suffix: string) {
    |suffix| <= |s| && s[|s| - |suffix|..] == suffix
  }

  /** An output without an extension, or with that of a raw image, becomes an image of the chosen compression. */
  lemma CompletedSuits(output: string, compression: Compression)
    ensures output <= Completed(output, compression)
    ensures Extension(output) in {None, Some("img")} ==>
              EndsWith(Completed(output, compression), if compression.Xz? then ".xz" else ".zst")
    ensures Extension(output) !in {None, Some("img")} ==> Completed(output, compression) == output
    ensures Extension(output).None? ==>
              EndsWith(Completed(output, compression), if compression.Xz? then ".img.xz" else ".img.zst")
  {
    hide Extension;
  }

  /** Selecting a device starts its confirmation over, and moves on only to its own confirmation. */
  lemma SelectingForgets(s: Setup, index: nat, retitle: (string, Compression) -> string)
    ensures var s' := Reduced(s, SelectDevice(index), retitle);
            if index < |s.devices| then s'.confirmation == "" && s'.screen == ConfirmDevice
            else s'.selected == s.selected && s'.screen == s.screen
  {
  }

  // ----- Histories and rates -----

  /** The last eight entries of a history. */
  function Recent<T>(history: seq<T>): (r: seq<T>)
    ensures |r| <= HISTORY
  {
    if |history| <= HISTORY then history else history[|history| - HISTORY..]
  }

  /** Bounding at every push loses nothing that bounding once at the end would keep. */
  lemma RecentOfPush<T>(history: seq<T>, x: T)
    ensures Recent(Recent(history) + [x]) == Recent(history + [x])
    ensures var r := Recent(history + [x]);
            r[|r| - 1] == x && |r| == Min(HISTORY, |history| + 1) && r == (history + [x])[|history| + 1 - |r|..]
  {
    if |history| >= HISTORY {
      var kept := Recent(history);
      assert (kept + [x])[1..] == (history + [x])[|history| + 1 - HISTORY..];
    }
  }

  function Since(start: int, end: int): nat {
    if end >= start then end - start else 0
  }

  function Saturated(value: nat): U64 {
    if value <= MAX_U64 then value else MAX_U64
  }

  /** Bytes per second, rounded down. */
  function RateBetween(start: Option<int>, end: Option<int>, startBytes: U64, endBytes: U64): U64 {
    if start.None? || end.None? || Since(start.value, end.value) == 0 then 0
    else Saturated(SaturatingSub(endBytes, startBytes) * NANOS / Since(start.value, end.value))
  }

  lemma QuotientFloors(x: nat, d: nat)
    requires d > 0
    ensures x / d * d <= x < (x / d + 1) * d
  {
    DivBounds(x, d);
  }

  /** The rate is the greatest whole one that does not claim more bytes than were seen. */
  lemma RateIsFloor(start: int, end: int, startBytes: U64, endBytes: U64, rate: U64)
    requires start < end && startBytes <= endBytes
    ensures rate <= RateBetween(Some(start), Some(end), startBytes, endBytes)
            <==> rate * (end - start) <= (endBytes - startBytes) * NANOS
  {
    var x, d := (endBytes - startBytes) * NANOS, end - start;
    QuotientFloors(x, d);
    if rate <= x / d {
      ProductMonotone(rate, x / d, d);
    } else {
      ProductMonotone(x / d + 1, rate, d);
    }
  }

  lemma ProductMonotone(a: nat, b: nat, n: nat)
    requires a <= b
    ensures a * n <= b * n
  {
  }

  function DivCeil(a: nat, b: nat): nat
    requires b > 0
  {
    a / b + if a % b == 0 then 0 else 1
  }

  function Eta(rate: U64, remaining: U64): Option<nat> {
    if rate > 0 && remaining > 0 then Some(DivCeil(remaining, rate)) else None
  }

  /** Whole seconds suffice at the rate exactly from the estimate on. */
  lemma EtaIsLeast(rate: U64, remaining: U64, seconds: nat)
    requires rate > 0 && remaining > 0
    ensures Eta(rate, remaining).Some?
    ensures seconds >= Eta(rate, remaining).value <==> seconds * rate >= remaining
  {
    QuotientFloors(remaining, rate);
    var q := remaining / rate;
    assert remaining % rate == remaining - q * rate;
    if seconds <= q {
      ProductMonotone(seconds, q, rate);
      if seconds < q {
        ProductMonotone(seconds + 1, q, rate);
        assert (seconds + 1) * rate == seconds * rate + rate;
      }
    } else {
      ProductMonotone(q + 1, seconds, rate);
    }
  }

  datatype ProgressMetrics = ProgressMetrics(
    bytes: U64, total: U64, average: U64, recent: U64, eta: Option<nat>)

  // ----- The model as the program keeps it -----

  predicate Begins(action: Action) {
    || action.PreparationStarted? || action.MutationStarted? || action.ExtractionStarted?
    || action.VerificationStarted? || action.Finished?
  }

  predicate Records(action: Action) {
    action.SetOperationResult? || action.Progress? || action.Failed? || action.SetUnknownLayoutWarning?
  }

  /** The phase an action announces. */
  function Announces(action: Action, phase: Option<OperationPhase>): Option<OperationPhase> {
    if action.PreparationStarted? then Some(InspectPhase)
    else if action.MutationStarted? then Some(ShrinkPhase)
    else if action.ExtractionStarted? then if phase == Some(ExtractPhase) then None else Some(ExtractPhase)
    else if action.VerificationStarted? then Some(VerifyPhase)
    else if action.Finished? then Some(DonePhase)
    else None
  }

  /** The notes an action adds to the history. */
  function Notes(action: Action, phase: Option<OperationPhase>, started: bool): seq<Note> {
    if Announces(action, phase).Some? then [Began(Announces(action, phase).value)]
    else if action.Failed? then [FailedWith(action.complaint)]
    else if action.SetUnknownLayoutWarning? && action.warn && started then [UnknownLayout]
    else []
  }

  /** The fields the operation screens work on. */
  datatype Dashboard = Dashboard(
    bytes: U64,
    total: U64,
    phase: Option<OperationPhase>,
    startedAt: Option<int>,
    extractionAt: Option<int>,
    updatedAt: Option<int>,
    samples: seq<Sample>,
    events: seq<Event>,
    result: Option<OperationResult>)

  /** What one action makes of the dashboard. */
  function Shown(d: Dashboard, action: Action, now: int): Dashboard {
    var next := Announces(action, d.phase);
    var notes := Notes(action, d.phase, d.startedAt.Some?);
    var startedAt := if d.startedAt.None? && next.Some? then Some(now) else d.startedAt;
    var elapsed := if startedAt.Some? then Since(startedAt.value, now) else 0;
    var extracting := next == Some(ExtractPhase);
    Dashboard(
      if action.Progress? then Min(action.bytes, action.total) else d.bytes,
      if action.Progress? then action.total else d.total,
      if next.Some? then next else d.phase,
      startedAt,
      if extracting then Some(now) else d.extractionAt,
      Some(now),
      if action.Progress? then Recent(d.samples + [Sample(now, Min(action.bytes, action.total))])
      else if extracting then [] else d.samples,
      if notes == [] then d.events else Recent(d.events + [Event(elapsed, notes[0])]),
      if action.SetOperationResult? then Some(action.result) else d.result)
  }

  predicate Bounded(d: Dashboard) {
    d.bytes <= d.total && |d.samples| <= HISTORY && |d.events| <= HISTORY
  }

  lemma ShownStaysBounded(d: Dashboard, action: Action, now: int)
    requires Bounded(d)
    ensures Bounded(Shown(d, action, now))
  {
  }

  /** An operation starts once, and reporting its extraction again neither restarts it nor forgets its samples. */
  lemma DashboardKeeps(d: Dashboard, action: Action, now: int, later: int)
    ensures d.startedAt.Some? ==> Shown(d, action, now).startedAt == d.startedAt
    ensures d.startedAt.None? && Announces(action, d.phase).Some? ==> Shown(d, action, now).startedAt == Some(now)
    ensures !action.Progress? ==> Shown(d, action, now).bytes == d.bytes && Shown(d, action, now).total == d.total
    ensures Shown(Shown(d, ExtractionStarted, now), ExtractionStarted, later)
            == Shown(d, ExtractionStarted, now).(updatedAt := Some(later))
    ensures d.phase != Some(ExtractPhase) ==>
              var e := Shown(d, ExtractionStarted, now);
              e.extractionAt == Some(now) && e.samples == [] && e.phase == Some(ExtractPhase)
  {
    hide Recent;
  }

  /** The screen a phase is shown on. */
  function ScreenFor(phase: OperationPhase): Screen {
    match phase
    case InspectPhase => PreparingScreen
    case ShrinkPhase => MutatingScreen
    case ExtractPhase => ExtractingScreen
    case VerifyPhase => VerifyingScreen
    case DonePhase => CompleteScreen
  }

  /** Every report that begins a phase shows that phase's screen. */
  lemma ScreenFollowsPhase(
    s: Setup, d: Dashboard, action: Action, now: int, retitle: (string, Compression) -> string)
    requires Begins(action)
    ensures Shown(d, action, now).phase.Some?
    ensures Reduced(s, action, retitle).screen == ScreenFor(Shown(d, action, now).phase.value)
  {
    hide Recent;
  }

  lemma ResetsFirst(s: Setup, d: Dashboard, action: Action, now: int, retitle: (string, Compression) -> string)
    ensures !action.Tick? ==> Reduced(s.(error := None), action, retitle) == Reduced(s, action, retitle)
    ensures Shown(d.(updatedAt := Some(now)), action, now) == Shown(d, action, now)
    ensures !Begins(action) && !Records(action) ==> Shown(d, action, now) == d.(updatedAt := Some(now))
  {
    hide Completed, Trim, MovedCursor, Continued, PreviousOf, Recent;
  }

  /** The wizard's state, its fields grouped by the screens that work on them. */
  class AppModel {
    var setup: Setup
    var board: Dashboard

    ghost predicate Valid()
      reads this
    {
      InRange(setup) && Bounded(board)
    }

    constructor (devices: seq<DeviceIdentity>)
      ensures Valid() && setup == Fresh(devices) && board == Dashboard(0, 0, None, None, None, None, [], [], None)
    {
      setup := Fresh(devices);
      board := Dashboard(0, 0, None, None, None, None, [], [], None);
    }

    method PushEvent(now: int, note: Note)
      modifies this`board
      ensures var elapsed := if board.startedAt.Some? then Since(board.startedAt.value, now) else 0;
              board == old(board).(events := Recent(old(board).events + [Event(elapsed, note)]))
    {
      var elapsed := if board.startedAt.Some? then Since(board.startedAt.value, now) else 0;
      var events := board.events + [Event(elapsed, note)];
      ghost var pushed := events;
      while |events| > HISTORY
        invariant Recent(events) == Recent(pushed)
      {
        events := events[1..];
      }
      board := board.(events := events);
    }

    method PushProgressSample(now: int, bytes: U64)
      modifies this`board
      ensures board == old(board).(samples := Recent(old(board).samples + [Sample(now, bytes)]))
    {
      var samples := board.samples + [Sample(now, bytes)];
      ghost var pushed := samples;
      while |samples| > HISTORY
        invariant Recent(samples) == Recent(pushed)
      {
        samples := samples[1..];
      }
      board := board.(samples := samples);
    }

    method SetPhase(phase: OperationPhase, now: int)
      modifies this`board
      ensures var started := if old(board).startedAt.Some? then old(board).startedAt else Some(now);
              board == old(board).(
                startedAt := started, phase := Some(phase),
                events := Recent(old(board).events + [Event(Since(started.value, now), Began(phase))]))
    {
      hide Recent;
      if board.startedAt.None? {
        board := board.(startedAt := Some(now));
      }
      board := board.(phase := Some(phase));
      PushEvent(now, Began(phase));
    }

    method MoveCursor(delta: int)
      modifies this`setup
      ensures setup == old(setup).(cursor := MovedCursor(old(setup).cursor, |old(setup).devices|, delta))
    {
      var count := |setup.devices|;
      if count == 0 || delta == 0 {
        return;
      }
      if delta > 0 {
        setup := setup.(cursor := (setup.cursor + 1) % count);
      } else if setup.cursor == 0 {
        setup := setup.(cursor := count - 1);
      } else {
        setup := setup.(cursor := setup.cursor - 1);
      }
    }

    method ContinueCurrent()
      modifies this`setup
      ensures setup == Continued(old(setup))
    {
      match setup.screen
      case ConfirmDevice =>
        var device := SelectedDevice(setup);
        if device.Some? && device.value.model == Trim(setup.confirmation) {
          setup := setup.(screen := OutputScreen);
        } else {
          setup := setup.(error := Some(WrongModel));
        }
      case OutputScreen =>
        if Trim(setup.output) == "" {
          setup := setup.(error := Some(NoOutput));
        } else {
          setup := setup.(output := Completed(setup.output, setup.compression));
          setup := setup.(screen := VerificationScreen);
        }
      case VerificationScreen =>
        setup := setup.(screen := Review);
      case _ =>
    }

    /** The actions of the setup screens. */
    method Edit(action: Action, retitle: (string, Compression) -> string)
      requires !Begins(action) && !Records(action) && (action.Tick? || setup.error.None?)
      modifies this`setup
      ensures setup == Reduced(old(setup), action, retitle)
    {
      hide Completed, Trim, MovedCursor, Continued, PreviousOf;
      match action
      case MoveDeviceCursor(delta) =>
        MoveCursor(delta);
      case SelectDevice(index) =>
        if index < |setup.devices| {
          setup := setup.(selected := Some(index), cursor := index, confirmation := "", screen := ConfirmDevice);
        } else {
          setup := setup.(error := Some(InvalidSelection));
        }
      case SetConfirmation(value) =>
        setup := setup.(confirmation := value);
      case SetOutput(value) =>
        setup := setup.(output := value, automatic := false);
      case SetDefaultOutput(value) =>
        setup := setup.(output := value, automatic := true);
      case SetCompression(value) =>
        if setup.automatic {
          setup := setup.(output := retitle(setup.output, value));
        }
        setup := setup.(compression := value);
      case SetVerification(value) =>
        setup := setup.(verification := value);
      case SetPlanPreview(value) =>
        setup := setup.(preview := Some(value));
      case Continue =>
        ContinueCurrent();
      case Previous =>
        setup := setup.(screen := PreviousOf(setup.screen));
      case _ =>
    }

    /** The actions that report a new phase of the operation. */
    method Announce(action: Action, now: int, retitle: (string, Compression) -> string)
      requires Begins(action) && setup.error.None? && board.updatedAt == Some(now)
      modifies this
      ensures setup == Reduced(old(setup), action, retitle) && board == Shown(old(board), action, now)
    {
      hide Recent, Completed, MovedCursor, Continued, PreviousOf;
      match action
      case PreparationStarted =>
        setup := setup.(screen := PreparingScreen);
        SetPhase(InspectPhase, now);
      case MutationStarted =>
        setup := setup.(screen := MutatingScreen);
        SetPhase(ShrinkPhase, now);
      case ExtractionStarted =>
        setup := setup.(screen := ExtractingScreen);
        if board.phase != Some(ExtractPhase) {
          board := board.(extractionAt := Some(now), samples := []);
          SetPhase(ExtractPhase, now);
        }
      case VerificationStarted =>
        setup := setup.(screen := VerifyingScreen);
        SetPhase(VerifyPhase, now);
      case Finished =>
        setup := setup.(screen := CompleteScreen);
        SetPhase(DonePhase, now);
    }

    /** The actions that record progress, results, failures and warnings. */
    method Record(action: Action, now: int, retitle: (string, Compression) -> string)
      requires Records(action) && setup.error.None? && board.updatedAt == Some(now)
      modifies this
      ensures setup == Reduced(old(setup), action, retitle) && board == Shown(old(board), action, now)
    {
      hide Recent, Completed, MovedCursor, Continued, PreviousOf;
      match action
      case SetOperationResult(value) =>
        board := board.(result := Some(value));
      case Progress(bytes, total) =>
        board := board.(bytes := Min(bytes, total), total := total);
        PushProgressSample(now, board.bytes);
      case Failed(complaint) =>
        PushEvent(now, FailedWith(complaint));
        setup := setup.(error := Some(complaint));
      case SetUnknownLayoutWarning(value) =>
        setup := setup.(unknownLayout := value);
        if value && board.startedAt.Some? {
          PushEvent(now, UnknownLayout);
        }
    }

    /** `reduce_at`. */
    method Reduce(action: Action, now: int, retitle: (string, Compression) -> string)
      requires Valid()
      modifies this
      ensures Valid()
      ensures setup == Reduced(old(setup), action, retitle) && board == Shown(old(board), action, now)
    {
      hide Reduced, Shown, InRange, Bounded;
      ResetsFirst(setup, board, action, now, retitle);
      ReducedStaysInRange(setup, action, retitle);
      ShownStaysBounded(board, action, now);
      if !action.Tick? {
        setup := setup.(error := None);
      }
      board := board.(updatedAt := Some(now));
      if Begins(action) {
        Announce(action, now, retitle);
      } else if Records(action) {
        Record(action, now, retitle);
      } else {
        Edit(action, retitle);
      }
    }

    /** `progress_metrics`. */
    function Metrics(): (m: ProgressMetrics)
      requires Valid()
      reads this
      ensures m.bytes == board.bytes && m.total == board.total && m.bytes <= m.total
      ensures m.average == RateBetween(board.extractionAt, board.updatedAt, 0, board.bytes)
      ensures board.samples != [] ==>
                var first, last := board.samples[0], board.samples[|board.samples| - 1];
                m.recent == RateBetween(Some(first.at), Some(last.at), first.bytes, last.bytes)
      ensures board.samples == [] ==> m.recent == 0
      ensures m.eta.None? <==> m.bytes == m.total || (m.average == 0 && m.recent == 0)
      ensures m.eta.Some? ==> forall seconds: nat ::
                  seconds >= m.eta.value <==> seconds * Max(m.average, m.recent) >= m.total - m.bytes
    {
      var average := RateBetween(board.extractionAt, board.updatedAt, 0, board.bytes);
      var recent :=
        if board.samples == [] then 0
        else
          var first, last := board.samples[0], board.samples[|board.samples| - 1];
          RateBetween(Some(first.at), Some(last.at), first.bytes, last.bytes);
      var remaining := SaturatingSub(board.total, board.bytes);
      var rate := Max(average, recent);
      assert rate > 0 && remaining > 0 ==> forall seconds: nat ::
        seconds >= Eta(rate, remaining).value <==> seconds * rate >= remaining by {
        if rate > 0 && remaining > 0 {
          forall seconds: nat ensures seconds >= Eta(rate, remaining).value <==> seconds * rate >= remaining {
            EtaIsLeast(rate, remaining, seconds);
          }
        }
      }
      ProgressMetrics(board.bytes, board.total, average, recent, Eta(rate, remaining))
    }
  }
}
