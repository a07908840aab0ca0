/** The prompt that guards the parent area with the stored PIN. Keypad digits
    fill a four-character entry; 100 ms after the fourth one the entry is
    compared with the stored code. A match reports success and clears the
    entry; a mismatch shows the error, vibrates for 500 ms and, 1000 ms later,
    clears the entry and the error. Each delayed callback is a pending timer
    in `timers`, which the surrounding event loop fires, in any order. */
module PinCode {
  import opened Strings
  import opened Seqs

  const PIN_LENGTH: nat := 4
  const CHECK_DELAY_MS: nat := 100
  const RESET_DELAY_MS: nat := 1000
  const VIBRATION_MS: nat := 500

  /** A scheduled callback: the comparison, which closes over the entry that
      reached four digits, or the reset after a mismatch. */
  datatype Timer = Check(entered: string) | ResetAfterError

  /** What a step does outside the prompt's own state. */
  datatype Effect = NoEffect | Succeeded | Vibrated(ms: nat) | Canceled

  /** The prompt's state: the digits typed, whether the error shows, and the
      timers still pending. */
  datatype Entry = Entry(pin: string, error: bool, timers: seq<Timer>)

  /** A key press, the cancel button (or the close request), or a pending
      timer going off. */
  datatype Event = Digit(d: char) | Delete | Cancel | Fire(index: nat)

  const EMPTY := Entry("", false, [])

  /** The entry never exceeds four digits and every pending comparison holds
      exactly four. */
  predicate Bounded(s: Entry) {
    && |s.pin| <= PIN_LENGTH
    && forall i :: 0 <= i < |s.timers| && s.timers[i].Check? ==> |s.timers[i].entered| == PIN_LENGTH
  }

  function PressDigit(s: Entry, d: char): Entry {
    if |s.pin| < PIN_LENGTH then
      var p := s.pin + [d];
      Entry(p, false, if |p| == PIN_LENGTH then s.timers + [Check(p)] else s.timers)
    else s
  }

  function DeleteDigit(s: Entry): Entry {
    s.(pin := DropLast(s.pin), error := false)
  }

  /** Cancel acts only when the caller supplied a cancel handler. */
  function CancelEntry(s: Entry, hasCancel: bool): (Entry, Effect) {
    if hasCancel then (s.(pin := "", error := false), Canceled) else (s, NoEffect)
  }

  function FireTimer(s: Entry, i: nat, correctPin: string): (Entry, Effect)
    requires i < |s.timers|
  {
    var rest := RemoveAt(s.timers, i);
    match s.timers[i]
    case Check(p) =>
      if p == correctPin then (s.(pin := "", timers := rest), Succeeded)
      else (s.(error := true, timers := rest + [ResetAfterError]), Vibrated(VIBRATION_MS))
    case ResetAfterError => (s.(pin := "", error := false, timers := rest), NoEffect)
  }

  /** One event; firing a timer that is not pending does nothing. */
  function Step(s: Entry, e: Event, correctPin: string, hasCancel: bool): (Entry, Effect) {
    match e
    case Digit(d) => (PressDigit(s, d), NoEffect)
    case Delete => (DeleteDigit(s), NoEffect)
    case Cancel => CancelEntry(s, hasCancel)
    case Fire(i) => if i < |s.timers| then FireTimer(s, i, correctPin) else (s, NoEffect)
  }

  /** The state after a run of events and the effects they had, in order. */
  function Run(s: Entry, events: seq<Event>, correctPin: string, hasCancel: bool): (Entry, seq<Effect>)
    decreases |events|
  {
    if events == [] then (s, [])
    else
      var (t, x) := Step(s, events[0], correctPin, hasCancel);
      var (u, xs) := Run(t, events[1..], correctPin, hasCancel);
      (u, [x] + xs)
  }

  /** The presses of the keys of `ds`, one after the other. */
  function Keys(ds: string): (r: seq<Event>)
    ensures |r| == |ds|
    ensures forall i :: 0 <= i < |ds| ==> r[i] == Digit(ds[i])
  {
    if ds == [] then [] else [Digit(ds[0])] + Keys(ds[1..])
  }

  // ---------------------------------------------------------------
  // One step at a time

  /** A digit is appended while fewer than four are typed, and the press
      hides the error; reaching four schedules the comparison of exactly that
      entry. A fifth digit is ignored. */
  lemma DigitPress(s: Entry, d: char)
    ensures |s.pin| < PIN_LENGTH ==>
      var t := PressDigit(s, d);
      t.pin == s.pin + [d] && !t.error &&
      t.timers == s.timers + (if |s.pin| + 1 == PIN_LENGTH then [Check(s.pin + [d])] else [])
    ensures |s.pin| >= PIN_LENGTH ==> PressDigit(s, d) == s
  {
  }

  /** Delete drops the last digit, if any, and hides the error. */
  lemma DeletePress(s: Entry)
    ensures var t := DeleteDigit(s);
      !t.error && t.timers == s.timers &&
      (if s.pin == [] then t.pin == [] else t.pin + [s.pin[|s.pin| - 1]] == s.pin)
  {
  }

  /** Without a cancel handler, cancel changes nothing; with one, it clears
      the entry and the error and reports the cancellation. */
  lemma CancelPress(s: Entry, hasCancel: bool)
    ensures !hasCancel ==> CancelEntry(s, false) == (s, NoEffect)
    ensures hasCancel ==> CancelEntry(s, true) == (Entry("", false, s.timers), Canceled)
  {
  }

  /** Success is reported exactly when the timer that fires is a comparison
      of an entry equal to the stored code, and the entry is then cleared. */
  lemma SuccessIffMatch(s: Entry, e: Event, correctPin: string, hasCancel: bool)
    ensures Step(s, e, correctPin, hasCancel).1 == Succeeded <==>
      e.Fire? && e.index < |s.timers| && s.timers[e.index] == Check(correctPin)
    ensures Step(s, e, correctPin, hasCancel).1 == Succeeded ==> Step(s, e, correctPin, hasCancel).0.pin == ""
  {
  }

  /** A comparison that fails shows the error, vibrates and schedules the
      reset; the reset clears the entry and the error. */
  lemma MismatchThenReset(s: Entry, i: nat, correctPin: string)
    requires i < |s.timers|
    ensures s.timers[i].Check? && s.timers[i].entered != correctPin ==>
      var (t, x) := FireTimer(s, i, correctPin);
      t.error && t.pin == s.pin && x == Vibrated(VIBRATION_MS) &&
      t.timers == RemoveAt(s.timers, i) + [ResetAfterError]
    ensures s.timers[i] == ResetAfterError ==>
      FireTimer(s, i, correctPin) == (Entry("", false, RemoveAt(s.timers, i)), NoEffect)
  {
  }

  lemma StepBounded(s: Entry, e: Event, correctPin: string, hasCancel: bool)
    requires Bounded(s)
    ensures Bounded(Step(s, e, correctPin, hasCancel).0)
  {
    if e.Fire? && e.index < |s.timers| {
      var rest := RemoveAt(s.timers, e.index);
      assert forall k :: 0 <= k < |rest| ==> rest[k] in s.timers;
    }
  }

  // ---------------------------------------------------------------
  // Runs of events

  /** Whatever the events, the entry never exceeds four digits. */
  lemma {:induction false} RunBounded(s: Entry, events: seq<Event>, correctPin: string, hasCancel: bool)
    requires Bounded(s)
    ensures Bounded(Run(s, events, correctPin, hasCancel).0)
    decreases |events|
  {
    if events != [] {
      StepBounded(s, events[0], correctPin, hasCancel);
      RunBounded(Step(s, events[0], correctPin, hasCancel).0, events[1..], correctPin, hasCancel);
    }
  }

  /** A stored code that is not four characters long is never accepted. */
  lemma {:induction false} SuccessNeedsFourDigits(s: Entry, events: seq<Event>, correctPin: string, hasCancel: bool)
    requires Bounded(s)
    requires Succeeded in Run(s, events, correctPin, hasCancel).1
    ensures |correctPin| == PIN_LENGTH
    decreases |events|
  {
    var e := events[0];
    var (t, x) := Step(s, e, correctPin, hasCancel);
    if x == Succeeded {
      SuccessIffMatch(s, e, correctPin, hasCancel);
    } else {
      StepBounded(s, e, correctPin, hasCancel);
      SuccessNeedsFourDigits(t, events[1..], correctPin, hasCancel);
    }
  }

  /** Running a non-empty sequence of events is one step followed by the
      rest. */
  lemma RunCons(s: Entry, events: seq<Event>, correctPin: string, hasCancel: bool)
    requires events != []
    ensures var (t, x) := Step(s, events[0], correctPin, hasCancel);
      var (u, xs) := Run(t, events[1..], correctPin, hasCancel);
      Run(s, events, correctPin, hasCancel) == (u, [x] + xs)
  {
  }

  lemma {:induction false} RunAppend(s: Entry, a: seq<Event>, b: seq<Event>, correctPin: string, hasCancel: bool)
    ensures var (t, xs) := Run(s, a, correctPin, hasCancel);
      var (u, ys) := Run(t, b, correctPin, hasCancel);
      Run(s, a + b, correctPin, hasCancel) == (u, xs + ys)
    decreases |a|
  {
    if a == [] {
      assert a + b == b;
      var (u, ys) := Run(s, b, correctPin, hasCancel);
      assert [] + ys == ys;
    } else {
      var (t, x) := Step(s, a[0], correctPin, hasCancel);
      assert (a + b)[0] == a[0] && (a + b)[1..] == a[1..] + b;
      RunCons(s, a, correctPin, hasCancel);
      RunCons(s, a + b, correctPin, hasCancel);
      RunAppend(t, a[1..], b, correctPin, hasCancel);
      var (t', xs') := Run(t, a[1..], correctPin, hasCancel);
      var (u, ys) := Run(t', b, correctPin, hasCancel);
      assert [x] + (xs' + ys) == ([x] + xs') + ys;
    }
  }


  lemma RunSingle(s: Entry, e: Event, correctPin: string, hasCancel: bool)
    ensures Run(s, [e], correctPin, hasCancel) == (Step(s, e, correctPin, hasCancel).0, [Step(s, e, correctPin, hasCancel).1])
  {
    var (t, x) := Step(s, e, correctPin, hasCancel);
    assert [e][0] == e && [e][1..] == [];
    assert Run(t, [], correctPin, hasCancel) == (t, []);
    assert [x] + [] == [x];
  }

  /** The entry after typing `ds` into `s` without reaching the limit. */
  function Typed(s: Entry, ds: string): Entry {
    Entry(s.pin + ds, s.error && ds == [],
          s.timers + (if ds != [] && |s.pin| + |ds| == PIN_LENGTH then [Check(s.pin + ds)] else []))
  }

  /** One digit moves the target entry along. */
  lemma TypedCons(s: Entry, ds: string)
    requires ds != [] && |s.pin| + |ds| <= PIN_LENGTH
    ensures Typed(PressDigit(s, ds[0]), ds[1..]) == Typed(s, ds)
  {
    var t := PressDigit(s, ds[0]);
    assert t.pin + ds[1..] == s.pin + ds;
    if |ds| == 1 {
      assert ds == [ds[0]];
      assert t.timers + [] == s.timers + (if |s.pin| + |ds| == PIN_LENGTH then [Check(s.pin + ds)] else []);
    } else {
      assert t.timers == s.timers;
    }
  }

  /** Running the keys of a non-empty string is one digit press followed by
      the keys of the rest. */
  lemma RunKeysCons(s: Entry, ds: string, correctPin: string, hasCancel: bool)
    requires ds != []
    ensures var (u, xs) := Run(PressDigit(s, ds[0]), Keys(ds[1..]), correctPin, hasCancel);
      Run(s, Keys(ds), correctPin, hasCancel) == (u, [NoEffect] + xs)
  {
    assert Keys(ds)[0] == Digit(ds[0]);
    assert Keys(ds)[1..] == Keys(ds[1..]);
  }

  /** Typing up to four digits appends them, hides the error (when at least
      one is typed) and, on reaching four, schedules one comparison. */
  lemma {:induction false} TypeDigits(s: Entry, ds: string, correctPin: string, hasCancel: bool)
    requires |s.pin| + |ds| <= PIN_LENGTH
    ensures Run(s, Keys(ds), correctPin, hasCancel) ==
      (Entry(s.pin + ds, s.error && ds == [],
             s.timers + (if ds != [] && |s.pin| + |ds| == PIN_LENGTH then [Check(s.pin + ds)] else [])),
       Repeat(NoEffect, |ds|))
    decreases |ds|
  {
    if ds == [] {
      assert s.pin + ds == s.pin && s.timers + [] == s.timers;
    } else {
      var t := PressDigit(s, ds[0]);
      TypeDigits(t, ds[1..], correctPin, hasCancel);
      RunKeysCons(s, ds, correctPin, hasCancel);
      TypedCons(s, ds);
      assert [NoEffect] + Repeat(NoEffect, |ds| - 1) == Repeat(NoEffect, |ds|);
      assert Run(s, Keys(ds), correctPin, hasCancel) == (Typed(s, ds), Repeat(NoEffect, |ds|));
    }
  }

  /** From the empty prompt, typing the stored four-digit code and letting
      the comparison fire unlocks and leaves the prompt empty again. */
  lemma CorrectCodeUnlocks(correctPin: string, hasCancel: bool)
    requires |correctPin| == PIN_LENGTH
    ensures Run(EMPTY, Keys(correctPin) + [Fire(0)], correctPin, hasCancel) ==
      (EMPTY, Repeat(NoEffect, PIN_LENGTH) + [Succeeded])
  {
    TypeDigits(EMPTY, correctPin, correctPin, hasCancel);
    RunAppend(EMPTY, Keys(correctPin), [Fire(0)], correctPin, hasCancel);
    assert EMPTY.pin + correctPin == correctPin;
    RunSingle(Entry(correctPin, false, [Check(correctPin)]), Fire(0), correctPin, hasCancel);
  }

  /** Typing four digits other than the code shows the error and vibrates;
      once the reset fires the prompt is empty again and nothing unlocked. */
  lemma WrongCodeResets(wrong: string, correctPin: string, hasCancel: bool)
    requires |wrong| == PIN_LENGTH && wrong != correctPin
    ensures var (t, xs) := Run(EMPTY, Keys(wrong) + [Fire(0)], correctPin, hasCancel);
      t == Entry(wrong, true, [ResetAfterError]) && xs == Repeat(NoEffect, PIN_LENGTH) + [Vibrated(VIBRATION_MS)]
    ensures Run(EMPTY, Keys(wrong) + [Fire(0), Fire(0)], correctPin, hasCancel) ==
      (EMPTY, Repeat(NoEffect, PIN_LENGTH) + [Vibrated(VIBRATION_MS), NoEffect])
  {
    TypeDigits(EMPTY, wrong, correctPin, hasCancel);
    assert EMPTY.pin + wrong == wrong;
    RunAppend(EMPTY, Keys(wrong), [Fire(0)], correctPin, hasCancel);
    RunAppend(EMPTY, Keys(wrong), [Fire(0), Fire(0)], correctPin, hasCancel);
    var t := Entry(wrong, false, [Check(wrong)]);
    assert Run(t, [Fire(0), Fire(0)], correctPin, hasCancel) ==
      (EMPTY, [Vibrated(VIBRATION_MS), NoEffect]) by {
      var u := Entry(wrong, true, [ResetAfterError]);
      assert Step(t, Fire(0), correctPin, hasCancel) == (u, Vibrated(VIBRATION_MS));
      assert [Fire(0), Fire(0)][0] == Fire(0) && [Fire(0), Fire(0)][1..] == [Fire(0)];
      RunSingle(u, Fire(0), correctPin, hasCancel);
      assert Step(u, Fire(0), correctPin, hasCancel) == (EMPTY, NoEffect);
      assert [Vibrated(VIBRATION_MS)] + [NoEffect] == [Vibrated(VIBRATION_MS), NoEffect];
    }
    RunSingle(t, Fire(0), correctPin, hasCancel);
  }

  // ---------------------------------------------------------------
  // The component

  /** The prompt's component state; `correctPin` and `hasCancel` are its
      props (whether an `onCancel` handler was given). */
  class PinCodeModal {
    const correctPin: string
    const hasCancel: bool
    var pin: string
    var error: bool
    var timers: seq<Timer>

    function State(): Entry
      reads this
    {
      Entry(pin, error, timers)
    }

    ghost predicate Valid()
      reads this
    {
      Bounded(State())
    }

    constructor(correctPin: string, hasCancel: bool)
      ensures Valid() && State() == EMPTY
      ensures this.correctPin == correctPin && this.hasCancel == hasCancel
    {
      this.correctPin := correctPin;
      this.hasCancel := hasCancel;
      pin := "";
      error := false;
      timers := [];
    }

    method HandleNumberPress(num: char)
      requires Valid()
      modifies this
      ensures Valid() && State() == PressDigit(old(State()), num)
    {
      if |pin| < PIN_LENGTH {
        var newPin := pin + [num];
        pin := newPin;
        error := false;
        if |newPin| == PIN_LENGTH {
          timers := timers + [Check(newPin)];
        }
      }
    }

    method HandleDelete()
      requires Valid()
      modifies this
      ensures Valid() && State() == DeleteDigit(old(State()))
    {
      if pin != [] {
        pin := pin[..|pin| - 1];
      }
      error := false;
    }

    method HandleCancel() returns (effect: Effect)
      requires Valid()
      modifies this
      ensures Valid() && (State(), effect) == CancelEntry(old(State()), hasCancel)
    {
      effect := NoEffect;
      if hasCancel {
        pin := "";
        error := false;
        effect := Canceled;
      }
    }

    /** The pending timer at `i` goes off. */
    method RunTimer(i: nat) returns (effect: Effect)
      requires Valid() && i < |timers|
      modifies this
      ensures Valid() && (State(), effect) == FireTimer(old(State()), i, correctPin)
    {
      var t := timers[i];
      ghost var s := State();
      timers := RemoveAt(timers, i);
      match t
      case Check(newPin) =>
        if newPin == correctPin {
          effect := Succeeded;
          pin := "";
        } else {
          error := true;
          effect := Vibrated(VIBRATION_MS);
          timers := timers + [ResetAfterError];
        }
      case ResetAfterError =>
        pin := "";
        error := false;
        effect := NoEffect;
      StepBounded(s, Fire(i), correctPin, hasCancel);
    }
  }
}
