/** The dialog that chooses a new PIN: four digits are typed once, then, 300 ms
    after the fourth, typed again to confirm. 100 ms after the fourth
    confirming digit the two are compared. A match hands the code to the
    caller and resets the dialog; a mismatch shows an error, vibrates for
    500 ms and, 1500 ms later, clears both entries and goes back to the
    first step. As in the unlock prompt, each delayed callback is a pending
    timer that the surrounding event loop fires. */
module SetPin {
  import opened Strings
  import opened Seqs
  import PinCode

  const CONFIRM_DELAY_MS: nat := 300
  const CHECK_DELAY_MS: nat := 100
  const RESET_DELAY_MS: nat := 1500
  const MISMATCH_MESSAGE: string := "Les codes ne correspondent pas"

  datatype Phase = Enter | Confirm

  /** A scheduled callback: the move to the confirm step, the comparison
      (which closes over the confirmation and the first entry as they were
      when the fourth confirming digit was typed), or the reset after a
      mismatch. */
  datatype Timer = ToConfirm | Compare(confirmation: string, first: string) | ResetAfterMismatch

  datatype Effect = NoEffect | Chosen(pin: string) | Vibrated(ms: nat) | Canceled

  /** The dialog's state: both entries, the step, the error message ("" when
      none shows) and the pending timers. */
  datatype Setup = Setup(pin: string, confirmPin: string, step: Phase, error: string, timers: seq<Timer>)

  datatype Event = Digit(d: char) | Delete | Cancel | Fire(index: nat)

  const INITIAL := Setup("", "", Enter, "", [])

  /** Both entries stay within four digits and every pending comparison
      holds a four-digit confirmation. */
  predicate Bounded(s: Setup) {
    && |s.pin| <= PinCode.PIN_LENGTH && |s.confirmPin| <= PinCode.PIN_LENGTH
    && forall i :: 0 <= i < |s.timers| && s.timers[i].Compare? ==> |s.timers[i].confirmation| == PinCode.PIN_LENGTH
  }

  /** Empty entries, the first step, no error; pending timers stay. */
  function Reset(s: Setup): Setup {
    s.(pin := "", confirmPin := "", step := Enter, error := "")
  }

  function PressDigit(s: Setup, d: char): Setup {
    if s.step == Enter then
      if |s.pin| < PinCode.PIN_LENGTH then
        var p := s.pin + [d];
        s.(pin := p, error := "", timers := if |p| == PinCode.PIN_LENGTH then s.timers + [ToConfirm] else s.timers)
      else s
    else if |s.confirmPin| < PinCode.PIN_LENGTH then
      var c := s.confirmPin + [d];
      s.(confirmPin := c, error := "", timers := if |c| == PinCode.PIN_LENGTH then s.timers + [Compare(c, s.pin)] else s.timers)
    else s
  }

  function DeleteDigit(s: Setup): Setup {
    if s.step == Enter then s.(pin := DropLast(s.pin), error := "")
    else s.(confirmPin := DropLast(s.confirmPin), error := "")
  }

  function CancelSetup(s: Setup, hasCancel: bool): (Setup, Effect) {
    if hasCancel then (Reset(s), Canceled) else (s, NoEffect)
  }

  function FireTimer(s: Setup, i: nat): (Setup, Effect)
    requires i < |s.timers|
  {
    var rest := RemoveAt(s.timers, i);
    match s.timers[i]
    case ToConfirm => (s.(step := Confirm, timers := rest), NoEffect)
    case Compare(c, p) =>
      if c == p then (Reset(s).(timers := rest), Chosen(p))
      else (s.(error := MISMATCH_MESSAGE, timers := rest + [ResetAfterMismatch]), Vibrated(PinCode.VIBRATION_MS))
    case ResetAfterMismatch => (Reset(s).(timers := rest), NoEffect)
  }

  function Step(s: Setup, e: Event, hasCancel: bool): (Setup, Effect) {
    match e
    case Digit(d) => (PressDigit(s, d), NoEffect)
    case Delete => (DeleteDigit(s), NoEffect)
    case Cancel => CancelSetup(s, hasCancel)
    case Fire(i) => if i < |s.timers| then FireTimer(s, i) else (s, NoEffect)
  }

  function Run(s: Setup, events: seq<Event>, hasCancel: bool): (Setup, seq<Effect>)
    decreases |events|
  {
    if events == [] then (s, [])
    else
      var (t, x) := Step(s, events[0], hasCancel);
      var (u, xs) := Run(t, events[1..], hasCancel);
      (u, [x] + xs)
  }

  function Keys(ds: string): (r: seq<Event>)
    ensures |r| == |ds|
    ensures forall i :: 0 <= i < |ds| ==> r[i] == Digit(ds[i])
  {
    if ds == [] then [] else [Digit(ds[0])] + Keys(ds[1..])
  }

  // ---------------------------------------------------------------
  // One step at a time

  /** A digit goes to the current step's entry while it has fewer than four
      and hides the error; the other entry is untouched. The fourth digit of
      the first entry schedules the move to the confirm step, the fourth
      confirming digit the comparison with the first entry. */
  lemma DigitPress(s: Setup, d: char)
    ensures var t := PressDigit(s, d);
      t.step == s.step &&
      (s.step == Enter && |s.pin| < PinCode.PIN_LENGTH ==>
        t.pin == s.pin + [d] && t.confirmPin == s.confirmPin && t.error == "" &&
        t.timers == s.timers + (if |s.pin| + 1 == PinCode.PIN_LENGTH then [ToConfirm] else [])) &&
      (s.step == Confirm && |s.confirmPin| < PinCode.PIN_LENGTH ==>
        t.confirmPin == s.confirmPin + [d] && t.pin == s.pin && t.error == "" &&
        t.timers == s.timers + (if |s.confirmPin| + 1 == PinCode.PIN_LENGTH then [Compare(s.confirmPin + [d], s.pin)] else []))
    ensures (s.step == Enter && |s.pin| >= PinCode.PIN_LENGTH) || (s.step == Confirm && |s.confirmPin| >= PinCode.PIN_LENGTH) ==>
      PressDigit(s, d) == s
  {
  }

  /** Delete shortens only the current step's entry and hides the error. */
  lemma DeletePress(s: Setup)
    ensures var t := DeleteDigit(s);
      t.error == "" && t.step == s.step && t.timers == s.timers &&
      (s.step == Enter ==> t.pin == DropLast(s.pin) && t.confirmPin == s.confirmPin) &&
      (s.step == Confirm ==> t.confirmPin == DropLast(s.confirmPin) && t.pin == s.pin)
  {
  }

  lemma CancelPress(s: Setup, hasCancel: bool)
    ensures !hasCancel ==> CancelSetup(s, false) == (s, NoEffect)
    ensures hasCancel ==> CancelSetup(s, true) == (Setup("", "", Enter, "", s.timers), Canceled)
  {
  }

  /** The confirm timer moves the dialog to the confirm step. A comparison
      of equal codes hands the code over and resets the dialog; one of
      different codes shows the error, vibrates and schedules the reset,
      which clears both entries and returns to the first step. */
  lemma TimerFires(s: Setup, i: nat)
    requires i < |s.timers|
    ensures s.timers[i] == ToConfirm ==>
      FireTimer(s, i) == (s.(step := Confirm, timers := RemoveAt(s.timers, i)), NoEffect)
    ensures s.timers[i].Compare? && s.timers[i].confirmation == s.timers[i].first ==>
      FireTimer(s, i) == (Setup("", "", Enter, "", RemoveAt(s.timers, i)), Chosen(s.timers[i].first))
    ensures s.timers[i].Compare? && s.timers[i].confirmation != s.timers[i].first ==>
      var (t, x) := FireTimer(s, i);
      t.error == MISMATCH_MESSAGE && x == Vibrated(PinCode.VIBRATION_MS) &&
      t.pin == s.pin && t.confirmPin == s.confirmPin && t.step == s.step &&
      t.timers == RemoveAt(s.timers, i) + [ResetAfterMismatch]
    ensures s.timers[i] == ResetAfterMismatch ==>
      FireTimer(s, i) == (Setup("", "", Enter, "", RemoveAt(s.timers, i)), NoEffect)
  {
  }

  /** A code is handed over exactly when a comparison of two equal entries
      fires, and it is that entry. */
  lemma ChosenIffMatch(s: Setup, e: Event, hasCancel: bool, p: string)
    ensures Step(s, e, hasCancel).1 == Chosen(p) <==>
      e.Fire? && e.index < |s.timers| && s.timers[e.index] == Compare(p, p)
  {
  }

  lemma StepBounded(s: Setup, e: Event, hasCancel: bool)
    requires Bounded(s)
    ensures Bounded(Step(s, e, hasCancel).0)
  {
    if e.Fire? && e.index < |s.timers| {
      var rest := RemoveAt(s.timers, e.index);
      assert forall k :: 0 <= k < |rest| ==> rest[k] in s.timers;
    }
  }

  // ---------------------------------------------------------------
  // Runs of events

  lemma {:induction false} RunBounded(s: Setup, events: seq<Event>, hasCancel: bool)
    requires Bounded(s)
    ensures Bounded(Run(s, events, hasCancel).0)
    decreases |events|
  {
    if events != [] {
      StepBounded(s, events[0], hasCancel);
      RunBounded(Step(s, events[0], hasCancel).0, events[1..], hasCancel);
    }
  }

  /** Every code handed over has exactly four digits. */
  lemma {:induction false} ChosenHasFourDigits(s: Setup, events: seq<Event>, hasCancel: bool, p: string)
    requires Bounded(s)
    requires Chosen(p) in Run(s, events, hasCancel).1
    ensures |p| == PinCode.PIN_LENGTH
    decreases |events|
  {
    var e := events[0];
    var (t, x) := Step(s, e, hasCancel);
    if x == Chosen(p) {
      ChosenIffMatch(s, e, hasCancel, p);
    } else {
      StepBounded(s, e, hasCancel);
      ChosenHasFourDigits(t, events[1..], hasCancel, p);
    }
  }

  /** Running a non-empty sequence of events is one step followed by the
      rest. */
  lemma RunCons(s: Setup, events: seq<Event>, hasCancel: bool)
    requires events != []
    ensures var (t, x) := Step(s, events[0], hasCancel);
      var (u, xs) := Run(t, events[1..], hasCancel);
      Run(s, events, hasCancel) == (u, [x] + xs)
  {
  }

  lemma {:induction false} RunAppend(s: Setup, a: seq<Event>, b: seq<Event>, hasCancel: bool)
    ensures var (t, xs) := Run(s, a, hasCancel);
      var (u, ys) := Run(t, b, hasCancel);
      Run(s, a + b, hasCancel) == (u, xs + ys)
    decreases |a|
  {
    if a == [] {
      assert a + b == b;
      var (u, ys) := Run(s, b, hasCancel);
      assert [] + ys == ys;
    } else {
      var (t, x) := Step(s, a[0], hasCancel);
      assert (a + b)[0] == a[0] && (a + b)[1..] == a[1..] + b;
      RunCons(s, a, hasCancel);
      RunCons(s, a + b, hasCancel);
      RunAppend(t, a[1..], b, hasCancel);
      var (t', xs') := Run(t, a[1..], hasCancel);
      var (u, ys) := Run(t', b, hasCancel);
      assert [x] + (xs' + ys) == ([x] + xs') + ys;
    }
  }


  lemma RunSingle(s: Setup, e: Event, hasCancel: bool)
    ensures Run(s, [e], hasCancel) == (Step(s, e, hasCancel).0, [Step(s, e, hasCancel).1])
  {
    var (t, x) := Step(s, e, hasCancel);
    assert [e][0] == e && [e][1..] == [];
    assert Run(t, [], hasCancel) == (t, []);
    assert [x] + [] == [x];
  }

  /** Running the keys of a non-empty string is one digit press followed by
      the keys of the rest. */
  lemma RunKeysCons(s: Setup, ds: string, hasCancel: bool)
    requires ds != []
    ensures var (u, xs) := Run(PressDigit(s, ds[0]), Keys(ds[1..]), hasCancel);
      Run(s, Keys(ds), hasCancel) == (u, [NoEffect] + xs)
  {
    assert Keys(ds)[0] == Digit(ds[0]);
    assert Keys(ds)[1..] == Keys(ds[1..]);
  }

  /** The dialog after typing `ds` in the first step without reaching the
      limit. */
  function TypedFirst(s: Setup, ds: string): Setup {
    s.(pin := s.pin + ds, error := if ds == [] then s.error else "",
       timers := s.timers + (if ds != [] && |s.pin| + |ds| == PinCode.PIN_LENGTH then [ToConfirm] else []))
  }

  /** The dialog after typing `ds` in the confirm step without reaching the
      limit. */
  function TypedConfirmation(s: Setup, ds: string): Setup {
    s.(confirmPin := s.confirmPin + ds, error := if ds == [] then s.error else "",
       timers := s.timers + (if ds != [] && |s.confirmPin| + |ds| == PinCode.PIN_LENGTH then [Compare(s.confirmPin + ds, s.pin)] else []))
  }

  /** One digit moves each target along. */
  lemma TypedFirstCons(s: Setup, ds: string)
    requires s.step == Enter && ds != [] && |s.pin| + |ds| <= PinCode.PIN_LENGTH
    ensures PressDigit(s, ds[0]).step == Enter
    ensures TypedFirst(PressDigit(s, ds[0]), ds[1..]) == TypedFirst(s, ds)
  {
    var t := PressDigit(s, ds[0]);
    assert t.pin + ds[1..] == s.pin + ds;
    if |ds| == 1 {
      assert t.timers + [] == s.timers + (if |s.pin| + |ds| == PinCode.PIN_LENGTH then [ToConfirm] else []);
    } else {
      assert t.timers == s.timers;
    }
  }

  lemma TypedConfirmationCons(s: Setup, ds: string)
    requires s.step == Confirm && ds != [] && |s.confirmPin| + |ds| <= PinCode.PIN_LENGTH
    ensures PressDigit(s, ds[0]).step == Confirm
    ensures TypedConfirmation(PressDigit(s, ds[0]), ds[1..]) == TypedConfirmation(s, ds)
  {
    var t := PressDigit(s, ds[0]);
    assert t.confirmPin + ds[1..] == s.confirmPin + ds;
    if |ds| == 1 {
      assert ds == [ds[0]];
      assert t.timers + [] == s.timers + (if |s.confirmPin| + |ds| == PinCode.PIN_LENGTH then [Compare(s.confirmPin + ds, s.pin)] else []);
    } else {
      assert t.timers == s.timers;
    }
  }

  /** In the first step, typing digits fills the first entry only, and its
      fourth digit schedules the move to the confirm step. */
  lemma {:induction false} TypeFirst(s: Setup, ds: string, hasCancel: bool)
    requires s.step == Enter && |s.pin| + |ds| <= PinCode.PIN_LENGTH
    ensures Run(s, Keys(ds), hasCancel) ==
      (s.(pin := s.pin + ds, error := if ds == [] then s.error else "",
          timers := s.timers + (if ds != [] && |s.pin| + |ds| == PinCode.PIN_LENGTH then [ToConfirm] else [])),
       Repeat(NoEffect, |ds|))
    decreases |ds|
  {
    if ds == [] {
      assert s.pin + ds == s.pin && s.timers + [] == s.timers;
    } else {
      TypedFirstCons(s, ds);
      TypeFirst(PressDigit(s, ds[0]), ds[1..], hasCancel);
      RunKeysCons(s, ds, hasCancel);
      assert [NoEffect] + Repeat(NoEffect, |ds| - 1) == Repeat(NoEffect, |ds|);
      assert Run(s, Keys(ds), hasCancel) == (TypedFirst(s, ds), Repeat(NoEffect, |ds|));
    }
  }

  /** In the confirm step, typing digits fills the confirmation only, and its
      fourth digit schedules the comparison with the first entry. */
  lemma {:induction false} TypeConfirmation(s: Setup, ds: string, hasCancel: bool)
    requires s.step == Confirm && |s.confirmPin| + |ds| <= PinCode.PIN_LENGTH
    ensures Run(s, Keys(ds), hasCancel) ==
      (s.(confirmPin := s.confirmPin + ds, error := if ds == [] then s.error else "",
          timers := s.timers + (if ds != [] && |s.confirmPin| + |ds| == PinCode.PIN_LENGTH then [Compare(s.confirmPin + ds, s.pin)] else [])),
       Repeat(NoEffect, |ds|))
    decreases |ds|
  {
    if ds == [] {
      assert s.confirmPin + ds == s.confirmPin && s.timers + [] == s.timers;
    } else {
      TypedConfirmationCons(s, ds);
      TypeConfirmation(PressDigit(s, ds[0]), ds[1..], hasCancel);
      RunKeysCons(s, ds, hasCancel);
      assert [NoEffect] + Repeat(NoEffect, |ds| - 1) == Repeat(NoEffect, |ds|);
      assert Run(s, Keys(ds), hasCancel) == (TypedConfirmation(s, ds), Repeat(NoEffect, |ds|));
    }
  }

  /** From the fresh dialog, typing a code, letting the step change, typing
      the code again and letting the comparison fire hands that code over and
      leaves the dialog fresh. */
  lemma {:induction false} ChooseCode(first: string, confirmation: string, hasCancel: bool)
    requires |first| == PinCode.PIN_LENGTH && |confirmation| == PinCode.PIN_LENGTH
    ensures var (t, xs) := Run(INITIAL, Keys(first) + [Fire(0)] + Keys(confirmation), hasCancel);
      t == Setup(first, confirmation, Confirm, "", [Compare(confirmation, first)]) &&
      xs == Repeat(NoEffect, PinCode.PIN_LENGTH) + [NoEffect] + Repeat(NoEffect, PinCode.PIN_LENGTH)
  {
    TypeFirst(INITIAL, first, hasCancel);
    assert INITIAL.pin + first == first;
    var a := Setup(first, "", Enter, "", [ToConfirm]);
    RunSingle(a, Fire(0), hasCancel);
    var b := Setup(first, "", Confirm, "", []);
    RunAppend(INITIAL, Keys(first), [Fire(0)], hasCancel);
    TypeConfirmation(b, confirmation, hasCancel);
    assert b.confirmPin + confirmation == confirmation;
    RunAppend(INITIAL, Keys(first) + [Fire(0)], Keys(confirmation), hasCancel);
  }

  /** When the two codes agree the comparison hands the code over and the
      dialog is fresh again. */
  lemma MatchingCodesChosen(p: string, hasCancel: bool)
    requires |p| == PinCode.PIN_LENGTH
    ensures Run(INITIAL, Keys(p) + [Fire(0)] + Keys(p) + [Fire(0)], hasCancel) ==
      (INITIAL, Repeat(NoEffect, PinCode.PIN_LENGTH) + [NoEffect] + Repeat(NoEffect, PinCode.PIN_LENGTH) + [Chosen(p)])
  {
    ChooseCode(p, p, hasCancel);
    RunAppend(INITIAL, Keys(p) + [Fire(0)] + Keys(p), [Fire(0)], hasCancel);
    RunSingle(Setup(p, p, Confirm, "", [Compare(p, p)]), Fire(0), hasCancel);
  }

  /** When they differ nothing is handed over: the error shows, and once the
      reset fires the dialog is fresh again. */
  lemma DifferentCodesRestart(first: string, confirmation: string, hasCancel: bool)
    requires |first| == PinCode.PIN_LENGTH && |confirmation| == PinCode.PIN_LENGTH && first != confirmation
    ensures Run(INITIAL, Keys(first) + [Fire(0)] + Keys(confirmation) + [Fire(0), Fire(0)], hasCancel) ==
      (INITIAL, Repeat(NoEffect, PinCode.PIN_LENGTH) + [NoEffect] + Repeat(NoEffect, PinCode.PIN_LENGTH) + [Vibrated(PinCode.VIBRATION_MS), NoEffect])
  {
    ChooseCode(first, confirmation, hasCancel);
    RunAppend(INITIAL, Keys(first) + [Fire(0)] + Keys(confirmation), [Fire(0), Fire(0)], hasCancel);
    var t := Setup(first, confirmation, Confirm, "", [Compare(confirmation, first)]);
    var u := Setup(first, confirmation, Confirm, MISMATCH_MESSAGE, [ResetAfterMismatch]);
    assert Step(t, Fire(0), hasCancel) == (u, Vibrated(PinCode.VIBRATION_MS));
    assert [Fire(0), Fire(0)][0] == Fire(0) && [Fire(0), Fire(0)][1..] == [Fire(0)];
    RunSingle(u, Fire(0), hasCancel);
    assert Step(u, Fire(0), hasCancel) == (INITIAL, NoEffect);
    assert [Vibrated(PinCode.VIBRATION_MS)] + [NoEffect] == [Vibrated(PinCode.VIBRATION_MS), NoEffect];
  }

  // ---------------------------------------------------------------
  // The component

  /** The dialog's component state; `hasCancel` says whether an `onCancel`
      handler was given. */
  class SetPinModal {
    const hasCancel: bool
    var pin: string
    var confirmPin: string
    var step: Phase
    var error: string
    var timers: seq<Timer>

    function State(): Setup
      reads this
    {
      Setup(pin, confirmPin, step, error, timers)
    }

    ghost predicate Valid()
      reads this
    {
      Bounded(State())
    }

    constructor(hasCancel: bool)
      ensures Valid() && State() == INITIAL && this.hasCancel == hasCancel
    {
      this.hasCancel := hasCancel;
      pin := "";
      confirmPin := "";
      step := Enter;
      error := "";
      timers := [];
    }

    method ResetState()
      modifies this
      ensures State() == Reset(old(State()))
    {
      pin := "";
      confirmPin := "";
      step := Enter;
      error := "";
    }

    method HandleNumberPress(num: char)
      requires Valid()
      modifies this
      ensures Valid() && State() == PressDigit(old(State()), num)
    {
      if step == Enter {
        if |pin| < PinCode.PIN_LENGTH {
          var newPin := pin + [num];
          pin := newPin;
          error := "";
          if |newPin| == PinCode.PIN_LENGTH {
            timers := timers + [ToConfirm];
          }
        }
      } else {
        if |confirmPin| < PinCode.PIN_LENGTH {
          var newConfirmPin := confirmPin + [num];
          confirmPin := newConfirmPin;
          error := "";
          if |newConfirmPin| == PinCode.PIN_LENGTH {
            timers := timers + [Compare(newConfirmPin, pin)];
          }
        }
      }
    }

    method HandleDelete()
      requires Valid()
      modifies this
      ensures Valid() && State() == DeleteDigit(old(State()))
    {
      if step == Enter {
        pin := DropLast(pin);
      } else {
        confirmPin := DropLast(confirmPin);
      }
      error := "";
    }

    method HandleCancel() returns (effect: Effect)
      requires Valid()
      modifies this
      ensures Valid() && (State(), effect) == CancelSetup(old(State()), hasCancel)
    {
      effect := NoEffect;
      if hasCancel {
        ResetState();
        effect := Canceled;
      }
    }

    method RunTimer(i: nat) returns (effect: Effect)
      requires Valid() && i < |timers|
      modifies this
      ensures Valid() && (State(), effect) == FireTimer(old(State()), i)
    {
      var t := timers[i];
      ghost var s := State();
      timers := RemoveAt(timers, i);
      match t
      case ToConfirm =>
        step := Confirm;
        effect := NoEffect;
      case Compare(newConfirmPin, first) =>
        if newConfirmPin == first {
          effect := Chosen(first);
          ResetState();
        } else {
          error := MISMATCH_MESSAGE;
          effect := Vibrated(PinCode.VIBRATION_MS);
          timers := timers + [ResetAfterMismatch];
        }
      case ResetAfterMismatch =>
        ResetState();
        effect := NoEffect;
      StepBounded(s, Fire(i), hasCancel);
    }
  }
}
