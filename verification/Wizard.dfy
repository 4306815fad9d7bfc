/** The key loop that drives the wizard's model up to the one request it returns. */
module Wizard {
  import opened Basics
  import opened Model
  import opened Plan
  import opened Preparation
  import opened Text

  datatype Key = Esc | Left | BackTab | Up | Down | Enter | Backspace | Char(c: char) | F(n: nat) | OtherKey

  /** What the loop asks of its surroundings, with the number of the key that made it ask. */
  datatype Surroundings = Surroundings(
    analyze: (nat, DeviceIdentity) -> Result<LayoutClass, string>,
    preview: (nat, ImageRequest) -> Result<PlanPreview, string>,
    conflict: (nat, string) -> Result<Option<string>, string>,
    defaultOutput: (nat, DeviceIdentity) -> Option<string>,
    retitle: (string, Compression) -> string,
    clock: nat -> nat)

  datatype Ending = Waiting | Cancelled | Broken(error: string) | Returned(request: ImageRequest)

  // ----- What one key does to the setup -----

  /** `request_from_model`. */
  function RequestFrom(s: Setup): Option<ImageRequest> {
    match SelectedDevice(s)
    case None => None
    case Some(device) => Some(ImageRequest(device.path, s.output, s.confirmation, s.compression, s.verification))
  }

  function Act(s: Setup, action: Action, w: Surroundings): Setup {
    Reduced(s, action, w.retitle)
  }

  function Chosen(s: Setup, index: nat, at: nat, w: Surroundings): Setup {
    if index >= |s.devices| then Act(s, Failed(InvalidSelection), w)
    else
      match w.analyze(at, s.devices[index])
      case Err(error) => Act(s, Failed(Reported(error)), w)
      case Ok(layout) =>
        var chosen := Act(s, SelectDevice(index), w);
        var named :=
          if chosen.output == "" && w.defaultOutput(at, s.devices[index]).Some?
          then Act(chosen, SetDefaultOutput(w.defaultOutput(at, s.devices[index]).value), w) else chosen;
        Act(named, SetUnknownLayoutWarning(layout == WarningUnknown), w)
  }

  function DropLast(s: string): string {
    if s == "" then "" else s[..|s| - 1]
  }

  function DeviceKey(s: Setup, key: Key, at: nat, w: Surroundings): Setup {
    match key
    case Up => Act(s, MoveDeviceCursor(-1), w)
    case Down => Act(s, MoveDeviceCursor(1), w)
    case Enter => Chosen(s, s.cursor, at, w)
    case Char(c) =>
      if c == 'k' then Act(s, MoveDeviceCursor(-1), w)
      else if c == 'j' then Act(s, MoveDeviceCursor(1), w)
      else if '1' <= c <= '9' then Chosen(s, c as int - '1' as int, at, w)
      else s
    case _ => s
  }

  function ConfirmKey(s: Setup, key: Key, w: Surroundings): Setup {
    match key
    case Char(c) => s.(confirmation := s.confirmation + [c])
    case Backspace => s.(confirmation := DropLast(s.confirmation))
    case Enter => Act(s, Continue, w)
    case _ => s
  }

  /** `handle_output_key`. */
  function OutputKey(s: Setup, key: Key, at: nat, w: Surroundings): (Setup, Ending) {
    match key
    case F(n) =>
      if n == 2 then (Act(s, SetCompression(Zstandard(3)), w), Waiting)
      else if n == 3 then (Act(s, SetCompression(Xz(3)), w), Waiting)
      else (s, Waiting)
    case Char(c) => (s.(output := s.output + [c]), Waiting)
    case Backspace => (s.(output := DropLast(s.output)), Waiting)
    case Enter =>
      var next := Act(s, Continue, w);
      if next.screen != VerificationScreen then (next, Waiting)
      else (
        match w.conflict(at, next.output)
        case Err(error) => (next, Broken(error))
        case Ok(None) => (next, Waiting)
        case Ok(Some(path)) => (Act(Act(next, Previous, w), Failed(ArtifactExists(path)), w), Waiting))
    case _ => (s, Waiting)
  }

  function LevelOf(c: char): Option<VerificationLevel> {
    match c
    case '1' => Some(NoVerification)
    case '2' => Some(StreamingHash)
    case '3' => Some(Decode)
    case '4' => Some(SourceReread)
    case _ => None
  }

  /** How much a level checks. */
  function Strength(level: VerificationLevel): nat {
    match level
    case NoVerification => 0
    case StreamingHash => 1
    case Decode => 2
    case SourceReread => 3
  }

  /** The keys 1 to 4 give the four levels, weakest first, and no other key gives one. */
  lemma LevelKeys(c: char, level: VerificationLevel)
    ensures LevelOf(c) == Some(level) <==> c as int == '1' as int + Strength(level)
  {
  }

  const NO_DEVICE := "no selected device"

  function Previewed(s: Setup, at: nat, w: Surroundings): Result<PlanPreview, string> {
    match RequestFrom(s)
    case None => Err(NO_DEVICE)
    case Some(request) => w.preview(at, request)
  }

  /** `handle_verification_key`. */
  function VerificationKey(s: Setup, key: Key, at: nat, w: Surroundings): Setup {
    match key
    case Char(c) => if LevelOf(c).Some? then Act(s, SetVerification(LevelOf(c).value), w) else s
    case Enter =>
      var preview := Previewed(s, at, w);
      if preview.Ok? then Act(Act(s, SetPlanPreview(preview.value), w), Continue, w)
      else Act(s, Failed(Reported(preview.error)), w)
    case _ => s
  }

  /** One pressed key. */
  function Pressed(s: Setup, key: Key, at: nat, w: Surroundings): (Setup, Ending) {
    if key.Esc? then (s, Cancelled)
    else if key.Left? || key.BackTab? then (Act(s, Previous, w), Waiting)
    else
      match s.screen
      case DeviceSelection => (DeviceKey(s, key, at, w), Waiting)
      case ConfirmDevice => (ConfirmKey(s, key, w), Waiting)
      case OutputScreen => OutputKey(s, key, at, w)
      case VerificationScreen => (VerificationKey(s, key, at, w), Waiting)
      case Review =>
        if !key.Enter? then (s, Waiting)
        else if RequestFrom(s).Some? then (s, Returned(RequestFrom(s).value)) else (s, Broken(NO_DEVICE))
      case _ => (s, Waiting)
  }

  /** A whole run of keys, up to the one that ends the loop. */
  function AfterKeys(s: Setup, keys: seq<Key>, at: nat, w: Surroundings): (Setup, Ending)
    decreases |keys|
  {
    if keys == [] then (s, Waiting)
    else
      var next := Pressed(s, keys[0], at, w);
      if next.1 == Waiting then AfterKeys(next.0, keys[1..], at + 1, w) else next
  }

  // ----- What keys do, in terms of each other -----

  /** Esc ends the loop on every screen, and Left goes back on every screen. */
  lemma EscCancels(s: Setup, at: nat, w: Surroundings)
    ensures Pressed(s, Esc, at, w) == (s, Cancelled)
    ensures Pressed(s, Left, at, w) == Pressed(s, BackTab, at, w)
    ensures Pressed(s, Left, at, w) == (s.(error := None, screen := PreviousOf(s.screen)), Waiting)
  {
  }

  /** On the list, the arrow keys and their letters move the cursor and nothing else. */
  lemma ArrowsMove(s: Setup, at: nat, w: Surroundings)
    requires s.screen == DeviceSelection
    ensures Pressed(s, Down, at, w)
            == (s.(error := None, cursor := MovedCursor(s.cursor, |s.devices|, 1)), Waiting)
    ensures Pressed(s, Up, at, w)
            == (s.(error := None, cursor := MovedCursor(s.cursor, |s.devices|, -1)), Waiting)
    ensures Pressed(s, Char('j'), at, w) == Pressed(s, Down, at, w)
    ensures Pressed(s, Char('k'), at, w) == Pressed(s, Up, at, w)
  {
    hide MovedCursor;
  }

  /** Backspace takes back what was typed. */
  lemma BackspaceUndoes(s: Setup, c: char, at: nat, w: Surroundings)
    requires s.screen in {ConfirmDevice, OutputScreen}
    ensures Pressed(s, Char(c), at, w).1 == Waiting
    ensures Pressed(Pressed(s, Char(c), at, w).0, Backspace, at + 1, w) == (s, Waiting)
  {
    assert (s.confirmation + [c])[..|s.confirmation|] == s.confirmation;
    assert (s.output + [c])[..|s.output|] == s.output;
  }

  /** On the output screen F2 chooses Zstandard, F3 Xz, and no other key changes the compression. */
  lemma CompressionKeys(s: Setup, key: Key, at: nat, w: Surroundings)
    requires s.screen == OutputScreen
    ensures key == F(2) ==> Pressed(s, key, at, w).0.compression == Zstandard(3)
    ensures key == F(3) ==> Pressed(s, key, at, w).0.compression == Xz(3)
    ensures key !in {F(2), F(3)} ==> Pressed(s, key, at, w).0.compression == s.compression
    ensures key in {F(2), F(3)} && !s.automatic ==> Pressed(s, key, at, w).0.output == s.output
  {
    hide Completed, Trim;
  }

  /** Choosing a device leaves an output alone that has been typed, and names one that has not. */
  lemma ChoosingNames(s: Setup, index: nat, at: nat, w: Surroundings)
    ensures s.output != "" ==> Chosen(s, index, at, w).output == s.output
    ensures && s.output == "" && index < |s.devices| && w.analyze(at, s.devices[index]).Ok?
            && w.defaultOutput(at, s.devices[index]).Some?
            ==> && Chosen(s, index, at, w).output == w.defaultOutput(at, s.devices[index]).value
                && Chosen(s, index, at, w).automatic
  {
  }

  // ----- What lets a screen be left forwards -----

  lemma ChosenOnlyAnalyzed(s: Setup, index: nat, at: nat, w: Surroundings)
    ensures var s' := Chosen(s, index, at, w);
            s'.selected != s.selected || s'.screen != s.screen ==>
              && index < |s'.devices| && s'.devices == s.devices && s'.selected == Some(index)
              && w.analyze(at, s.devices[index]).Ok? && s'.confirmation == ""
  {
  }

  lemma OutputLeadsOn(s: Setup, key: Key, at: nat, w: Surroundings)
    requires s.screen == OutputScreen
    ensures var (next, ending) := OutputKey(s, key, at, w);
            next.screen == VerificationScreen && ending == Waiting ==>
              Trim(next.output) != "" && w.conflict(at, next.output) == Ok(None)
  {
    hide Trim, Completed;
    if key.Enter? && Trim(s.output) != "" {
      CompletedStaysVisible(s.output, s.compression);
    }
  }

  lemma VerificationLeadsOn(s: Setup, key: Key, at: nat, w: Surroundings)
    requires s.screen == VerificationScreen
    ensures var next := VerificationKey(s, key, at, w);
            next.screen == Review ==>
              && RequestFrom(next).Some? && next.preview.Some?
              && w.preview(at, RequestFrom(next).value) == Ok(next.preview.value)
  {
  }

  // ----- The loop on the model -----

  method ChooseDevice(model: AppModel, index: nat, at: nat, w: Surroundings)
    requires model.Valid()
    modifies model
    ensures model.Valid() && model.setup == Chosen(old(model.setup), index, at, w)
    ensures model.setup.selected != old(model.setup).selected || model.setup.screen != old(model.setup).screen ==>
              && index < |model.setup.devices| && model.setup.selected == Some(index)
              && w.analyze(at, model.setup.devices[index]).Ok? && model.setup.confirmation == ""
  {
    ChosenOnlyAnalyzed(model.setup, index, at, w);
    hide Reduced, InRange, Shown, Bounded;
    if index >= |model.setup.devices| {
      model.Reduce(Failed(InvalidSelection), w.clock(at), w.retitle);
      return;
    }
    var device := model.setup.devices[index];
    match w.analyze(at, device)
    case Err(error) =>
      model.Reduce(Failed(Reported(error)), w.clock(at), w.retitle);
    case Ok(layout) =>
      model.Reduce(SelectDevice(index), w.clock(at), w.retitle);
      if model.setup.output == "" {
        var output := w.defaultOutput(at, device);
        if output.Some? {
          model.Reduce(SetDefaultOutput(output.value), w.clock(at), w.retitle);
        }
      }
      model.Reduce(SetUnknownLayoutWarning(layout == WarningUnknown), w.clock(at), w.retitle);
  }

  method HandleDeviceKey(model: AppModel, key: Key, at: nat, w: Surroundings)
    requires model.Valid()
    modifies model
    ensures model.Valid() && model.setup == DeviceKey(old(model.setup), key, at, w)
  {
    hide Reduced, InRange, Shown, Bounded, Chosen;
    match key
    case Up =>
      model.Reduce(MoveDeviceCursor(-1), w.clock(at), w.retitle);
    case Down =>
      model.Reduce(MoveDeviceCursor(1), w.clock(at), w.retitle);
    case Enter =>
      ChooseDevice(model, model.setup.cursor, at, w);
    case Char(c) =>
      if c == 'k' {
        model.Reduce(MoveDeviceCursor(-1), w.clock(at), w.retitle);
      } else if c == 'j' {
        model.Reduce(MoveDeviceCursor(1), w.clock(at), w.retitle);
      } else if '1' <= c <= '9' {
        ChooseDevice(model, c as int - '1' as int, at, w);
      }
    case _ =>
  }

  method HandleConfirmKey(model: AppModel, key: Key, at: nat, w: Surroundings)
    requires model.Valid()
    modifies model
    ensures model.Valid() && model.setup == ConfirmKey(old(model.setup), key, w)
  {
    hide Reduced, Shown, Bounded;
    match key
    case Char(c) =>
      model.setup := model.setup.(confirmation := model.setup.confirmation + [c]);
    case Backspace =>
      model.setup := model.setup.(confirmation := DropLast(model.setup.confirmation));
    case Enter =>
      model.Reduce(Continue, w.clock(at), w.retitle);
    case _ =>
  }

  method HandleOutputKey(model: AppModel, key: Key, at: nat, w: Surroundings) returns (ending: Ending)
    requires model.Valid()
    modifies model
    ensures model.Valid() && (model.setup, ending) == OutputKey(old(model.setup), key, at, w)
    ensures && old(model.setup).screen == OutputScreen
            && model.setup.screen == VerificationScreen && ending == Waiting
            ==> Trim(model.setup.output) != "" && w.conflict(at, model.setup.output) == Ok(None)
  {
    if model.setup.screen == OutputScreen {
      OutputLeadsOn(model.setup, key, at, w);
    }
    hide Reduced, Shown, Bounded;
    ending := Waiting;
    match key
    case F(n) =>
      if n == 2 {
        model.Reduce(SetCompression(Zstandard(3)), w.clock(at), w.retitle);
      } else if n == 3 {
        model.Reduce(SetCompression(Xz(3)), w.clock(at), w.retitle);
      }
    case Char(c) =>
      model.setup := model.setup.(output := model.setup.output + [c]);
    case Backspace =>
      model.setup := model.setup.(output := DropLast(model.setup.output));
    case Enter =>
      model.Reduce(Continue, w.clock(at), w.retitle);
      if model.setup.screen == VerificationScreen {
        var conflict := w.conflict(at, model.setup.output);
        if conflict.Err? {
          return Broken(conflict.error);
        }
        if conflict.value.Some? {
          model.Reduce(Previous, w.clock(at), w.retitle);
          model.Reduce(Failed(ArtifactExists(conflict.value.value)), w.clock(at), w.retitle);
        }
      }
    case _ =>
  }

  method HandleVerificationKey(model: AppModel, key: Key, at: nat, w: Surroundings)
    requires model.Valid()
    modifies model
    ensures model.Valid() && model.setup == VerificationKey(old(model.setup), key, at, w)
    ensures old(model.setup).screen == VerificationScreen && model.setup.screen == Review ==>
              && RequestFrom(model.setup).Some? && model.setup.preview.Some?
              && w.preview(at, RequestFrom(model.setup).value) == Ok(model.setup.preview.value)
  {
    if model.setup.screen == VerificationScreen {
      VerificationLeadsOn(model.setup, key, at, w);
    }
    hide Reduced, InRange, Shown, Bounded, RequestFrom;
    match key
    case Char(c) =>
      if LevelOf(c).Some? {
        model.Reduce(SetVerification(LevelOf(c).value), w.clock(at), w.retitle);
      }
    case Enter =>
      var preview := Previewed(model.setup, at, w);
      if preview.Ok? {
        model.Reduce(SetPlanPreview(preview.value), w.clock(at), w.retitle);
        model.Reduce(Continue, w.clock(at), w.retitle);
      } else {
        model.Reduce(Failed(Reported(preview.error)), w.clock(at), w.retitle);
      }
    case _ =>
  }

  method Press(model: AppModel, key: Key, at: nat, w: Surroundings) returns (ending: Ending)
    requires model.Valid()
    modifies model
    ensures model.Valid() && (model.setup, ending) == Pressed(old(model.setup), key, at, w)
  {
    hide Reduced, InRange, Shown, Bounded, DeviceKey, ConfirmKey, OutputKey, VerificationKey, RequestFrom;
    ending := Waiting;
    if key.Esc? {
      return Cancelled;
    }
    if key.Left? || key.BackTab? {
      model.Reduce(Previous, w.clock(at), w.retitle);
      return;
    }
    match model.setup.screen
    case DeviceSelection =>
      HandleDeviceKey(model, key, at, w);
    case ConfirmDevice =>
      HandleConfirmKey(model, key, at, w);
    case OutputScreen =>
      ending := HandleOutputKey(model, key, at, w);
    case VerificationScreen =>
      HandleVerificationKey(model, key, at, w);
    case Review =>
      if key.Enter? {
        var request := RequestFrom(model.setup);
        ending := if request.Some? then Returned(request.value) else Broken(NO_DEVICE);
      }
    case _ =>
  }

  /** `event_loop` on the keys pressed so far; it waits when they run out. */
  method EventLoop(model: AppModel, keys: seq<Key>, w: Surroundings) returns (ending: Ending)
    requires model.Valid()
    modifies model
    ensures model.Valid() && (model.setup, ending) == AfterKeys(old(model.setup), keys, 0, w)
    ensures old(model.setup) == Fresh(old(model.setup).devices) && ending.Returned? ==>
              && model.setup.preview.Some?
              && Vetted(ending.request, old(model.setup).devices, model.setup.preview.value, |keys|, w)
  {
    hide Pressed, InRange, Vetted;
    ReturnedRequestIsVetted(model.setup.devices, keys, w);
    ending := Waiting;
    var i := 0;
    while i < |keys|
      invariant 0 <= i <= |keys| && model.Valid() && ending == Waiting
      invariant AfterKeys(model.setup, keys[i..], i, w) == AfterKeys(old(model.setup), keys, 0, w)
    {
      assert keys[i..][1..] == keys[i + 1..];
      ending := Press(model, keys[i], i, w);
      if ending != Waiting {
        return;
      }
      i := i + 1;
    }
  }

  // ----- The confirmation gate -----

  predicate PastSelection(screen: Screen) {
    screen in {ConfirmDevice, OutputScreen, VerificationScreen, Review}
  }

  predicate PastConfirmation(screen: Screen) {
    screen in {OutputScreen, VerificationScreen, Review}
  }

  predicate PastOutput(screen: Screen) {
    screen in {VerificationScreen, Review}
  }

  /** An analysis before key `at` accepted the device, and the warning says whether it knew the layout. */
  ghost predicate Analyzed(s: Setup, at: nat, w: Surroundings) {
    SelectedDevice(s).Some? && exists t :: 0 <= t < at && AnalyzedAt(s, t, w)
  }

  predicate AnalyzedAt(s: Setup, t: nat, w: Surroundings)
    requires SelectedDevice(s).Some?
  {
    var layout := w.analyze(t, SelectedDevice(s).value);
    layout.Ok? && s.unknownLayout == (layout.value == WarningUnknown)
  }

  predicate Confirmed(s: Setup) {
    SelectedDevice(s).Some? && SelectedDevice(s).value.model == Trim(s.confirmation)
  }

  /** The output is not blank, and a look before key `at` found no artifact in its way. */
  ghost predicate OutputChecked(s: Setup, at: nat, w: Surroundings) {
    Trim(s.output) != "" && exists t :: 0 <= t < at && w.conflict(t, s.output) == Ok(None)
  }

  /** The preview on show was computed, before key `at`, from the request the model now stands for. */
  ghost predicate ShowsPlan(s: Setup, at: nat, w: Surroundings) {
    && RequestFrom(s).Some? && s.preview.Some?
    && exists t :: 0 <= t < at && w.preview(t, RequestFrom(s).value) == Ok(s.preview.value)
  }

  ghost predicate Gate(s: Setup, at: nat, w: Surroundings) {
    && InRange(s)
    && (s.screen == DeviceSelection || PastSelection(s.screen))
    && (PastSelection(s.screen) ==> Analyzed(s, at, w))
    && (PastConfirmation(s.screen) ==> Confirmed(s))
    && (PastOutput(s.screen) ==> OutputChecked(s, at, w))
    && (s.screen == Review ==> ShowsPlan(s, at, w))
  }

  /** What held before key `at` still holds after it, when the fields it speaks of are the same. */
  lemma GateCarries(s: Setup, s': Setup, at: nat, w: Surroundings)
    requires SelectedDevice(s) == SelectedDevice(s')
    ensures Analyzed(s, at, w) && s'.unknownLayout == s.unknownLayout ==> Analyzed(s', at + 1, w)
    ensures Confirmed(s) && s'.confirmation == s.confirmation ==> Confirmed(s')
    ensures OutputChecked(s, at, w) && s'.output == s.output ==> OutputChecked(s', at + 1, w)
    ensures ShowsPlan(s, at, w) && RequestFrom(s') == RequestFrom(s) && s'.preview == s.preview
            ==> ShowsPlan(s', at + 1, w)
  {
    if Analyzed(s, at, w) && s'.unknownLayout == s.unknownLayout {
      var t :| 0 <= t < at && AnalyzedAt(s, t, w);
      assert AnalyzedAt(s', t, w);
    }
  }

  lemma ChosenIs(s: Setup, index: nat, at: nat, w: Surroundings)
    requires index < |s.devices| && w.analyze(at, s.devices[index]).Ok?
    ensures var s' := Chosen(s, index, at, w);
            && s'.devices == s.devices && s'.screen == ConfirmDevice && s'.selected == Some(index) && s'.cursor == index
            && s'.unknownLayout == (w.analyze(at, s.devices[index]).value == WarningUnknown)
  {
  }

  lemma ChosenKeepsGate(s: Setup, index: nat, at: nat, w: Surroundings)
    requires Gate(s, at, w) && s.screen == DeviceSelection
    ensures Gate(Chosen(s, index, at, w), at + 1, w)
  {
    hide Trim, OutputChecked, ShowsPlan, Confirmed, Analyzed;
    if index < |s.devices| && w.analyze(at, s.devices[index]).Ok? {
      ChosenIs(s, index, at, w);
      hide Chosen;
      ChosenIsAnalyzed(s, index, at, w);
    }
  }

  lemma ChosenIsAnalyzed(s: Setup, index: nat, at: nat, w: Surroundings)
    requires index < |s.devices| && w.analyze(at, s.devices[index]).Ok?
    ensures Analyzed(Chosen(s, index, at, w), at + 1, w)
  {
    ChosenIs(s, index, at, w);
    hide Chosen;
    assert AnalyzedAt(Chosen(s, index, at, w), at, w);
  }

  lemma DeviceKeyKeepsGate(s: Setup, key: Key, at: nat, w: Surroundings)
    requires Gate(s, at, w) && s.screen == DeviceSelection
    ensures Gate(DeviceKey(s, key, at, w), at + 1, w)
  {
    hide Chosen, Analyzed, OutputChecked, ShowsPlan, Confirmed, Reduced;
    ReducedStaysInRange(s, MoveDeviceCursor(-1), w.retitle);
    ReducedStaysInRange(s, MoveDeviceCursor(1), w.retitle);
    CursorStays(s, -1, w);
    CursorStays(s, 1, w);
    if key.Enter? {
      ChosenKeepsGate(s, s.cursor, at, w);
    }
    if key.Char? && '1' <= key.c <= '9' {
      ChosenKeepsGate(s, key.c as int - '1' as int, at, w);
    }
  }

  lemma CursorStays(s: Setup, delta: int, w: Surroundings)
    ensures Reduced(s, MoveDeviceCursor(delta), w.retitle).screen == s.screen
  {
  }

  lemma ConfirmKeyKeepsGate(s: Setup, key: Key, at: nat, w: Surroundings)
    requires Gate(s, at, w) && s.screen == ConfirmDevice
    ensures Gate(ConfirmKey(s, key, w), at + 1, w)
  {
    hide Trim, Analyzed, OutputChecked, ShowsPlan;
    GateCarries(s, ConfirmKey(s, key, w), at, w);
  }

  /** Leaving the output screen forwards means the completed name was looked up and found free. */
  lemma OutputEnterKeepsGate(s: Setup, at: nat, w: Surroundings)
    requires Gate(s, at, w) && s.screen == OutputScreen
    ensures Gate(OutputKey(s, Enter, at, w).0, at + 1, w) || OutputKey(s, Enter, at, w).1.Broken?
  {
    hide Trim, Analyzed, ShowsPlan, Completed, Confirmed;
    var next := Act(s, Continue, w);
    if Trim(s.output) != "" {
      CompletedStaysVisible(s.output, s.compression);
      assert next == s.(error := None, output := Completed(s.output, s.compression), screen := VerificationScreen);
      BackOutputWith(next, w);
    } else {
      assert next == s.(error := Some(NoOutput));
    }
    GateCarries(s, OutputKey(s, Enter, at, w).0, at, w);
    hide Act, InRange;
  }

  lemma BackOutputWith(s: Setup, w: Surroundings)
    requires s.screen == VerificationScreen
    ensures forall complaint ::
              Act(Act(s, Previous, w), Failed(complaint), w) == s.(screen := OutputScreen, error := Some(complaint))
  {
  }

  lemma OutputKeyKeepsGate(s: Setup, key: Key, at: nat, w: Surroundings)
    requires Gate(s, at, w) && s.screen == OutputScreen
    ensures Gate(OutputKey(s, key, at, w).0, at + 1, w) || OutputKey(s, key, at, w).1.Broken?
  {
    hide Trim, Analyzed, ShowsPlan, OutputChecked, Completed, Confirmed;
    if key.Enter? {
      OutputEnterKeepsGate(s, at, w);
    } else {
      GateCarries(s, OutputKey(s, key, at, w).0, at, w);
    }
  }

  /** Reaching the review means the plan on show was computed from the request as it now stands. */
  lemma VerificationEnterKeepsGate(s: Setup, at: nat, w: Surroundings)
    requires Gate(s, at, w) && s.screen == VerificationScreen
    ensures Gate(VerificationKey(s, Enter, at, w), at + 1, w)
  {
    hide Trim, Analyzed, OutputChecked, Confirmed;
    var s' := VerificationKey(s, Enter, at, w);
    var preview := Previewed(s, at, w);
    assert s' == if preview.Ok? then s.(error := None, preview := Some(preview.value), screen := Review)
                 else s.(error := Some(Reported(preview.error)));
    hide Reduced, VerificationKey;
    GateCarries(s, s', at, w);
    if preview.Ok? {
      assert RequestFrom(s') == RequestFrom(s);
      assert w.preview(at, RequestFrom(s').value) == Ok(s'.preview.value);
    }
  }

  lemma VerificationKeyKeepsGate(s: Setup, key: Key, at: nat, w: Surroundings)
    requires Gate(s, at, w) && s.screen == VerificationScreen
    ensures Gate(VerificationKey(s, key, at, w), at + 1, w)
  {
    hide Trim, Analyzed, OutputChecked, Confirmed, ShowsPlan, RequestFrom;
    if key.Enter? {
      VerificationEnterKeepsGate(s, at, w);
    } else {
      GateCarries(s, VerificationKey(s, key, at, w), at, w);
    }
  }

  lemma PreviousKeepsGate(s: Setup, at: nat, w: Surroundings)
    requires Gate(s, at, w)
    ensures Gate(Act(s, Previous, w), at + 1, w)
  {
    hide Trim, Analyzed, OutputChecked, Confirmed, ShowsPlan;
    GateCarries(s, Act(s, Previous, w), at, w);
  }

  /** Every key that does not break the loop keeps the gate. */
  lemma PressedKeepsGate(s: Setup, key: Key, at: nat, w: Surroundings)
    requires Gate(s, at, w)
    ensures Gate(Pressed(s, key, at, w).0, at + 1, w) || Pressed(s, key, at, w).1.Broken?
  {
    hide Act, DeviceKey, ConfirmKey, OutputKey, VerificationKey, Analyzed, OutputChecked, Confirmed, ShowsPlan, InRange;
    GateCarries(s, s, at, w);
    PreviousKeepsGate(s, at, w);
    match s.screen
    case DeviceSelection => DeviceKeyKeepsGate(s, key, at, w);
    case ConfirmDevice => ConfirmKeyKeepsGate(s, key, at, w);
    case OutputScreen => OutputKeyKeepsGate(s, key, at, w);
    case VerificationScreen => VerificationKeyKeepsGate(s, key, at, w);
    case _ =>
  }

  /** A request leaves the loop only from a state that passed every gate, and is that state's request. */
  lemma {:induction false} RequestPassedTheGate(s: Setup, keys: seq<Key>, at: nat, w: Surroundings)
    requires Gate(s, at, w)
    ensures var (end, ending) := AfterKeys(s, keys, at, w);
            ending.Returned? ==> end.screen == Review && Gate(end, at + |keys|, w)
                                 && RequestFrom(end) == Some(ending.request)
    decreases |keys|
  {
    hide Gate;
    if keys != [] {
      var next := Pressed(s, keys[0], at, w);
      if next.1 == Waiting {
        PressedKeepsGate(s, keys[0], at, w);
        RequestPassedTheGate(next.0, keys[1..], at + 1, w);
      } else if next.1.Returned? {
        ReviewOutlasts(s, at, at + |keys|, w);
      }
    }
  }

  lemma ReviewOutlasts(s: Setup, at: nat, later: nat, w: Surroundings)
    requires Gate(s, at, w) && at <= later
    ensures Gate(s, later, w)
  {
  }

  /**
   * Before key `at`, some device of the list was analysed whose name and model the request gives, its output
   * was found free, and the plan on show was computed for just this request.
   */
  ghost predicate Vetted(
    request: ImageRequest, devices: seq<DeviceIdentity>, shown: PlanPreview, at: nat, w: Surroundings)
  {
    && (exists i, t: nat :: 0 <= i < |devices| && t < at && devices[i].path == request.device
                            && devices[i].model == Trim(request.confirmModel) && w.analyze(t, devices[i]).Ok?)
    && Trim(request.output) != ""
    && (exists t: nat :: t < at && w.conflict(t, request.output) == Ok(None))
    && (exists t: nat :: t < at && w.preview(t, request) == Ok(shown))
  }

  lemma ActsKeepList(w: Surroundings)
    ensures forall s: Setup, action: Action :: Act(s, action, w).devices == s.devices
  {
    forall s: Setup, action: Action ensures Act(s, action, w).devices == s.devices {
      ReducedKeepsList(s, action, w.retitle);
    }
  }

  lemma DeviceKeyKeepsList(s: Setup, key: Key, at: nat, w: Surroundings)
    ensures DeviceKey(s, key, at, w).devices == s.devices
  {
    hide Act;
    ActsKeepList(w);
  }

  lemma OutputKeyKeepsList(s: Setup, key: Key, at: nat, w: Surroundings)
    ensures OutputKey(s, key, at, w).0.devices == s.devices
  {
    hide Act;
    ActsKeepList(w);
  }

  lemma VerificationKeyKeepsList(s: Setup, key: Key, at: nat, w: Surroundings)
    ensures VerificationKey(s, key, at, w).devices == s.devices
  {
    hide Act, Previewed;
    ActsKeepList(w);
  }

  lemma PressedKeepsList(s: Setup, key: Key, at: nat, w: Surroundings)
    ensures Pressed(s, key, at, w).0.devices == s.devices
  {
    hide Act, RequestFrom, DeviceKey, OutputKey, VerificationKey;
    ActsKeepList(w);
    DeviceKeyKeepsList(s, key, at, w);
    OutputKeyKeepsList(s, key, at, w);
    VerificationKeyKeepsList(s, key, at, w);
  }

  lemma {:induction false} AfterKeysKeepsList(s: Setup, keys: seq<Key>, at: nat, w: Surroundings)
    ensures AfterKeys(s, keys, at, w).0.devices == s.devices
    decreases |keys|
  {
    hide Pressed;
    if keys != [] {
      PressedKeepsList(s, keys[0], at, w);
      AfterKeysKeepsList(Pressed(s, keys[0], at, w).0, keys[1..], at + 1, w);
    }
  }

  /** Whatever keys are pressed and however the surroundings answer, a returned request was vetted. */
  lemma ReturnedRequestIsVetted(devices: seq<DeviceIdentity>, keys: seq<Key>, w: Surroundings)
    ensures var (end, ending) := AfterKeys(Fresh(devices), keys, 0, w);
            ending.Returned? ==> end.preview.Some? && Vetted(ending.request, devices, end.preview.value, |keys|, w)
  {
    hide AfterKeys, Trim;
    RequestPassedTheGate(Fresh(devices), keys, 0, w);
    AfterKeysKeepsList(Fresh(devices), keys, 0, w);
    var (end, ending) := AfterKeys(Fresh(devices), keys, 0, w);
    if ending.Returned? {
      var device := SelectedDevice(end).value;
      var i := end.selected.value;
      var t :| 0 <= t < |keys| && AnalyzedAt(end, t, w);
      assert devices[i].path == ending.request.device && w.analyze(t, devices[i]).Ok?;
    }
  }

  // ----- The gate opens -----

  /** Surroundings in which nothing is refused. */
  ghost predicate Obliging(w: Surroundings) {
    && (forall t, d :: w.analyze(t, d).Ok?)
    && (forall t, d :: w.defaultOutput(t, d).Some? && Trim(w.defaultOutput(t, d).value) != "")
    && (forall t, o :: w.conflict(t, o) == Ok(None))
    && (forall t, r :: w.preview(t, r).Ok?)
  }

  function Typed(text: string): seq<Key> {
    seq(|text|, i requires 0 <= i < |text| => Char(text[i]))
  }

  lemma {:induction false} AfterMoreKeys(s: Setup, first: seq<Key>, rest: seq<Key>, at: nat, w: Surroundings)
    requires AfterKeys(s, first, at, w).1 == Waiting
    ensures AfterKeys(s, first + rest, at, w) == AfterKeys(AfterKeys(s, first, at, w).0, rest, at + |first|, w)
    decreases |first|
  {
    hide Pressed;
    if first == [] {
      assert first + rest == rest;
    } else {
      assert (first + rest)[1..] == first[1..] + rest;
      AfterMoreKeys(Pressed(s, first[0], at, w).0, first[1..], rest, at + 1, w);
    }
  }

  lemma {:induction false} TypingConfirms(s: Setup, text: string, at: nat, w: Surroundings)
    requires s.screen == ConfirmDevice
    ensures AfterKeys(s, Typed(text), at, w) == (s.(confirmation := s.confirmation + text), Waiting)
    decreases |text|
  {
    if text == "" {
      assert s.confirmation + text == s.confirmation;
    } else {
      var next := s.(confirmation := s.confirmation + [text[0]]);
      assert Typed(text)[0] == Char(text[0]) && Typed(text)[1..] == Typed(text[1..]);
      assert Pressed(s, Typed(text)[0], at, w) == (next, Waiting);
      TypingConfirms(next, text[1..], at + 1, w);
      assert next.confirmation + text[1..] == s.confirmation + text;
    }
  }

  lemma OneKey(s: Setup, keys: seq<Key>, at: nat, w: Surroundings)
    requires keys != [] && Pressed(s, keys[0], at, w).1 == Waiting
    ensures AfterKeys(s, keys, at, w) == AfterKeys(Pressed(s, keys[0], at, w).0, keys[1..], at + 1, w)
  {
  }

  lemma ConfirmEnter(s: Setup, at: nat, w: Surroundings)
    requires s.screen == ConfirmDevice && Confirmed(s)
    ensures Pressed(s, Enter, at, w) == (s.(error := None, screen := OutputScreen), Waiting)
  {
  }

  lemma OutputEnter(s: Setup, at: nat, w: Surroundings)
    requires s.screen == OutputScreen && Trim(s.output) != "" && Obliging(w)
    ensures Pressed(s, Enter, at, w)
            == (s.(error := None, screen := VerificationScreen, output := Completed(s.output, s.compression)), Waiting)
  {
  }

  lemma VerificationEnter(s: Setup, at: nat, w: Surroundings)
    requires s.screen == VerificationScreen && SelectedDevice(s).Some? && Obliging(w)
    ensures Previewed(s, at, w).Ok?
    ensures Pressed(s, Enter, at, w)
            == (s.(error := None, preview := Some(Previewed(s, at, w).value), screen := Review), Waiting)
  {
  }

  /** From a confirmed model, four times Enter returns the request. */
  lemma EntersReturn(s: Setup, at: nat, w: Surroundings)
    requires s.screen == ConfirmDevice && Confirmed(s) && Trim(s.output) != "" && Obliging(w)
    ensures var ending := AfterKeys(s, [Enter, Enter, Enter, Enter], at, w).1;
            ending == Returned(ImageRequest(SelectedDevice(s).value.path, Completed(s.output, s.compression),
                                            s.confirmation, s.compression, s.verification))
  {
    ConfirmEnter(s, at, w);
    var s1 := Pressed(s, Enter, at, w).0;
    OneKey(s, [Enter, Enter, Enter, Enter], at, w);
    OutputEnter(s1, at + 1, w);
    var s2 := Pressed(s1, Enter, at + 1, w).0;
    OneKey(s1, [Enter, Enter, Enter], at + 1, w);
    VerificationEnter(s2, at + 2, w);
    var s3 := Pressed(s2, Enter, at + 2, w).0;
    OneKey(s2, [Enter, Enter], at + 2, w);
    assert RequestFrom(s3) == Some(
      ImageRequest(SelectedDevice(s).value.path, Completed(s.output, s.compression), s.confirmation, s.compression,
                   s.verification));
    assert [Enter, Enter, Enter, Enter][1..] == [Enter, Enter, Enter];
    assert [Enter, Enter, Enter][1..] == [Enter, Enter] && [Enter, Enter][1..] == [Enter];
    assert Pressed(s3, Enter, at + 3, w).1.Returned?;
  }

  lemma FirstChoice(devices: seq<DeviceIdentity>, i: nat, w: Surroundings)
    requires i < |devices| && i < 9 && Obliging(w)
    ensures var s := Chosen(Fresh(devices), i, 0, w);
            && s.screen == ConfirmDevice && SelectedDevice(s) == Some(devices[i]) && s.confirmation == ""
            && s.output == w.defaultOutput(0, devices[i]).value && Trim(s.output) != ""
            && s.compression == Zstandard(3) && s.verification == Decode
    ensures Pressed(Fresh(devices), Char('1' + i as char), 0, w) == (Chosen(Fresh(devices), i, 0, w), Waiting)
  {
    ChosenIs(Fresh(devices), i, 0, w);
  }

  lemma PickAndType(s: Setup, pick: Key, text: string, rest: seq<Key>, at: nat, w: Surroundings)
    requires Pressed(s, pick, at, w).1 == Waiting
    requires var s1 := Pressed(s, pick, at, w).0; s1.screen == ConfirmDevice && s1.confirmation == ""
    ensures AfterKeys(s, [pick] + Typed(text) + rest, at, w)
            == AfterKeys(Pressed(s, pick, at, w).0.(confirmation := text), rest, at + 1 + |text|, w)
  {
    var s1 := Pressed(s, pick, at, w).0;
    hide Pressed;
    var keys := [pick] + Typed(text) + rest;
    OneKey(s, keys, at, w);
    assert keys[1..] == Typed(text) + rest;
    TypingConfirms(s1, text, at + 1, w);
    AfterMoreKeys(s1, Typed(text), rest, at + 1, w);
    assert s1.confirmation + text == text;
    hide AfterKeys;
  }

  /** Pick the i-th disk, type its model, accept every screen. */
  function Choosing(i: nat, model: string): seq<Key>
    requires i < 9
  {
    [Char('1' + i as char)] + Typed(model) + [Enter, Enter, Enter, Enter]
  }

  /** When nothing is refused, picking a disk and typing its model is enough. */
  lemma TypedModelOpensTheGate(devices: seq<DeviceIdentity>, i: nat, w: Surroundings)
    requires i < |devices| && i < 9 && devices[i].model == Trim(devices[i].model) && Obliging(w)
    ensures var ending := AfterKeys(Fresh(devices), Choosing(i, devices[i].model), 0, w).1;
            ending == Returned(
              ImageRequest(devices[i].path, Completed(w.defaultOutput(0, devices[i]).value, Zstandard(3)),
                           devices[i].model, Zstandard(3), Decode))
  {
    hide AfterKeys, Pressed, Chosen, Trim, Obliging, Typed, Fresh, SelectedDevice;
    var start, model := Fresh(devices), devices[i].model;
    FirstChoice(devices, i, w);
    PickAndType(start, Char('1' + i as char), model, [Enter, Enter, Enter, Enter], 0, w);
    var chosen := Chosen(start, i, 0, w);
    var s := chosen.(confirmation := model);
    SelectionIgnoresTyping(chosen, model);
    EntersReturn(s, 1 + |model|, w);
  }

  lemma SelectionIgnoresTyping(s: Setup, text: string)
    ensures SelectedDevice(s.(confirmation := text)) == SelectedDevice(s)
  {
  }
}
