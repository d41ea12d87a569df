/** The menu state machine: `handleEncoder` turns the raw count into clicks and
    moves the selection of the current screen; `handleInput` acts on a debounced
    button press by switching screens. */
module StateMachine {
  import opened Clock

  /** The screens of `enum menuState`. */
  datatype MenuState = Menu | Objective | Subjective

  /** Minimum quiet time between two accepted button presses, in milliseconds. */
  const DEBOUNCE_MS: nat := 300

  /** The globals the two handlers read and write, other than the raw count. */
  datatype UiState = UiState(
    state: MenuState,
    menuSelection: int,
    subMenuSelection: int,
    lastCounter: int,
    lastButtonPress: Millis)

  /** The state at power-up: every global is zero and the screen is the main menu. */
  const Boot: UiState := UiState(Menu, 0, 0, 0, 0)

  /** The selections stay on an item of their menu: two items on the main menu,
      three (caffeine, melatonin, back) on the objective menu. */
  predicate InRange(ui: UiState)
  {
    0 <= ui.menuSelection <= 1 && 0 <= ui.subMenuSelection <= 2
  }

  /** C's `counter / 2` on an `int`: the quotient truncated toward zero, so that two
      raw edges make one click. */
  function Clicks(counter: int): (clicks: int)
    ensures 0 <= counter ==> 0 <= counter - 2 * clicks <= 1
    ensures counter < 0 ==> -1 <= counter - 2 * clicks <= 0
  {
    if counter >= 0 then counter / 2 else -((-counter) / 2)
  }

  function Sign(d: int): int
  {
    if d > 0 then 1 else if d < 0 then -1 else 0
  }

  function Clamp(x: int, lo: int, hi: int): (r: int)
    requires lo <= hi
    ensures lo <= r <= hi
    ensures lo <= x <= hi ==> r == x
  {
    if x < lo then lo else if x > hi then hi else x
  }

  /** The motion since the last handled click count. */
  function Delta(ui: UiState, counter: int): int
  {
    Clicks(counter) - ui.lastCounter
  }

  /** `handleEncoder`: on motion, the main menu snaps its selection to the end
      the motion points at, the objective menu moves one item toward it, the
      subjective screen ignores it; the click count is then remembered. */
  function Navigate(ui: UiState, counter: int): (r: UiState)
    ensures r.state == ui.state && r.lastButtonPress == ui.lastButtonPress
    ensures r.lastCounter == Clicks(counter)
    ensures ui.state != Menu ==> r.menuSelection == ui.menuSelection
    ensures ui.state != Objective ==> r.subMenuSelection == ui.subMenuSelection
    ensures InRange(ui) ==> InRange(r)
  {
    var delta := Delta(ui, counter);
    if delta == 0 then ui
    else
      match ui.state
      case Menu => ui.(menuSelection := if delta > 0 then 1 else 0, lastCounter := Clicks(counter))
      case Objective =>
        ui.(subMenuSelection := Clamp(ui.subMenuSelection + Sign(delta), 0, 2), lastCounter := Clicks(counter))
      case Subjective => ui.(lastCounter := Clicks(counter))
  }

  /** An idle tick, with no click since the last one, changes nothing. */
  lemma IdleTickChangesNothing(ui: UiState, counter: int)
    requires Clicks(counter) == ui.lastCounter
    ensures Navigate(ui, counter) == ui
  {
  }

  /** Handling the same raw count twice is the same as handling it once. */
  lemma NavigateIdempotent(ui: UiState, counter: int)
    ensures Navigate(Navigate(ui, counter), counter) == Navigate(ui, counter)
  {
    IdleTickChangesNothing(Navigate(ui, counter), counter);
  }

  /** On the main menu any forward motion, however large, selects the bottom item
      and any backward motion the top item. */
  lemma MenuSnaps(ui: UiState, counter: int)
    requires ui.state == Menu
    ensures Delta(ui, counter) > 0 ==> Navigate(ui, counter).menuSelection == 1
    ensures Delta(ui, counter) < 0 ==> Navigate(ui, counter).menuSelection == 0
    ensures Delta(ui, counter) == 0 ==> Navigate(ui, counter).menuSelection == ui.menuSelection
  {
  }

  /** On the objective menu the selection moves by at most one item per tick, in
      the direction of the motion, and stops at the first and last items. */
  lemma ObjectiveSteps(ui: UiState, counter: int)
    requires ui.state == Objective && InRange(ui)
    ensures var r := Navigate(ui, counter).subMenuSelection;
            0 <= r <= 2 &&
            -1 <= r - ui.subMenuSelection <= 1 &&
            (Delta(ui, counter) > 0 ==> r == if ui.subMenuSelection == 2 then 2 else ui.subMenuSelection + 1) &&
            (Delta(ui, counter) < 0 ==> r == if ui.subMenuSelection == 0 then 0 else ui.subMenuSelection - 1) &&
            (Delta(ui, counter) == 0 ==> r == ui.subMenuSelection)
  {
  }

  /** The `switch (currentState)` of `handleInput`, for an accepted press. */
  function Select(ui: UiState): (r: UiState)
    ensures r.menuSelection == ui.menuSelection && r.lastCounter == ui.lastCounter
    ensures r.lastButtonPress == ui.lastButtonPress
    ensures InRange(ui) ==> InRange(r)
  {
    match ui.state
    case Menu =>
      if ui.menuSelection == 0 then ui.(state := Objective, subMenuSelection := 0)
      else ui.(state := Subjective)
    case Objective =>
      if ui.subMenuSelection == 2 then ui.(state := Menu) else ui
    case Subjective => ui
  }

  /** Whether `handleInput` acts on the button: the line is held low and more
      than 300 ms have passed since the last accepted press. */
  predicate Accepts(ui: UiState, pressed: bool, now: Millis)
  {
    pressed && Due(now, ui.lastButtonPress, DEBOUNCE_MS)
  }

  /** `handleInput`: an accepted press takes the screen transition and is stamped;
      anything else changes nothing. */
  function Confirm(ui: UiState, pressed: bool, now: Millis): (r: UiState)
    ensures r.menuSelection == ui.menuSelection && r.lastCounter == ui.lastCounter
    ensures !Accepts(ui, pressed, now) ==> r == ui
    ensures r.lastButtonPress == if Accepts(ui, pressed, now) then now else ui.lastButtonPress
    ensures InRange(ui) ==> InRange(r)
  {
    if Accepts(ui, pressed, now) then Select(ui).(lastButtonPress := now) else ui
  }

  /** The accepted transitions: main menu item 0 enters the objective menu at its
      top item, main menu item 1 enters the subjective screen, the objective menu's
      back item returns to the main menu, and nothing else changes the screen. */
  lemma ConfirmTransitions(ui: UiState, now: Millis)
    requires InRange(ui) && Accepts(ui, true, now)
    ensures var r := Confirm(ui, true, now);
            (ui.state == Menu && ui.menuSelection == 0 ==> r.state == Objective && r.subMenuSelection == 0) &&
            (ui.state == Menu && ui.menuSelection == 1 ==> r.state == Subjective && r.subMenuSelection == ui.subMenuSelection) &&
            (ui.state == Objective && ui.subMenuSelection == 2 ==> r.state == Menu && r.subMenuSelection == 2) &&
            (ui.state == Objective && ui.subMenuSelection < 2 ==> r.state == Objective && r.subMenuSelection == ui.subMenuSelection) &&
            (ui.state == Subjective ==> r.state == Subjective && r.subMenuSelection == ui.subMenuSelection)
  {
  }

  /** A second press less than the debounce interval after an accepted one is
      ignored: the two collapse into one. */
  lemma DebounceCollapses(ui: UiState, first: Millis, second: Millis)
    requires Accepts(ui, true, first)
    requires Elapsed(second, first) <= DEBOUNCE_MS
    ensures Confirm(Confirm(ui, true, first), true, second) == Confirm(ui, true, first)
  {
  }

  /** The clock readings of the accepted presses over a sequence of button samples. */
  function AcceptedPresses(ui: UiState, samples: seq<Tick>): seq<Millis>
    decreases |samples|
  {
    if samples == [] then []
    else
      var s := samples[0];
      (if Accepts(ui, s.ready, s.now) then [s.now] else [])
        + AcceptedPresses(Confirm(ui, s.ready, s.now), samples[1..])
  }

  /** The button is a throttled action: accepted presses are exactly the firings of
      the 300 ms throttle stamped at `lastButtonPress`. */
  lemma {:induction false} PressesAreThrottled(ui: UiState, samples: seq<Tick>)
    ensures AcceptedPresses(ui, samples) == Fired(ui.lastButtonPress, DEBOUNCE_MS, samples)
    decreases |samples|
  {
    if samples != [] {
      var s := samples[0];
      PressesAreThrottled(Confirm(ui, s.ready, s.now), samples[1..]);
    }
  }

  /** Debounce law over any sequence of samples: consecutive accepted presses are
      more than 300 ms apart, and the first is more than 300 ms after the stamp. */
  lemma AcceptedPressesSpaced(ui: UiState, samples: seq<Tick>)
    ensures var p := AcceptedPresses(ui, samples);
            (|p| > 0 ==> Elapsed(p[0], ui.lastButtonPress) > DEBOUNCE_MS) &&
            (forall i :: 0 <= i < |p| - 1 ==> Elapsed(p[i + 1], p[i]) > DEBOUNCE_MS)
  {
    PressesAreThrottled(ui, samples);
    FiredSpaced(ui.lastButtonPress, DEBOUNCE_MS, samples);
  }

  /** The inputs the two handlers consume: a raw count seen by `handleEncoder`, or
      a button sample seen by `handleInput`. */
  datatype Event = Turn(counter: int) | Button(pressed: bool, now: Millis)

  function Apply(ui: UiState, e: Event): UiState
  {
    match e
    case Turn(counter) => Navigate(ui, counter)
    case Button(pressed, now) => Confirm(ui, pressed, now)
  }

  /** The UI state after a sequence of events. */
  function ApplyAll(ui: UiState, events: seq<Event>): UiState
    decreases |events|
  {
    if events == [] then ui else ApplyAll(Apply(ui, events[0]), events[1..])
  }

  /** Both selections stay on an item of their menu whatever the events. */
  lemma {:induction false} SelectionsStayInRange(ui: UiState, events: seq<Event>)
    requires InRange(ui)
    ensures InRange(ApplyAll(ui, events))
    decreases |events|
  {
    if events != [] {
      SelectionsStayInRange(Apply(ui, events[0]), events[1..]);
    }
  }

  /** The subjective screen has no way out: once entered, no motion and no press
      leaves it. */
  lemma {:induction false} SubjectiveIsTerminal(ui: UiState, events: seq<Event>)
    requires ui.state == Subjective
    ensures ApplyAll(ui, events).state == Subjective
    decreases |events|
  {
    if events != [] {
      SubjectiveIsTerminal(Apply(ui, events[0]), events[1..]);
    }
  }

  /** From power-up, one click forward snaps to the bottom item, so a press after
      the debounce interval enters the subjective screen, not the objective menu. */
  lemma ClickThenPressEntersSubjective(now: Millis)
    requires now > DEBOUNCE_MS
    ensures ApplyAll(Boot, [Turn(2), Button(true, now)]).state == Subjective
  {
    var events := [Turn(2), Button(true, now)];
    var afterTurn := Navigate(Boot, 2);
    assert afterTurn.menuSelection == 1;
    assert ApplyAll(Boot, events) == ApplyAll(afterTurn, events[1..]);
    assert events[1..] == [Button(true, now)];
    assert ApplyAll(afterTurn, [Button(true, now)]) == ApplyAll(Confirm(afterTurn, true, now), []);
  }
}
