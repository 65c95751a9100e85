/**
 * The full-screen practice view: the keyboard controls, the "End Session?"
 * confirmation, and the countdown text under the image.
 */
module Practice {
  import opened Wrappers
  import opened Text
  import opened SwiftNumbers
  import opened Models
  import opened Session

  // ---- formatTime -----------------------------------------------------------------

  /** `max(0, Int(ceil(seconds)))`: the whole seconds still to run, never negative. */
  function CountdownTotal(seconds: real): (total: nat)
    ensures seconds <= total as real
    ensures total > 0 ==> (total - 1) as real < seconds
    ensures seconds <= 0.0 ==> total == 0
  {
    var c := Ceil(seconds);
    if c > 0 then c else 0
  }

  /** "M:SS" once there is a whole minute, else "Ns". */
  function FormatTime(seconds: real): string
  {
    var total := CountdownTotal(seconds);
    var mins, secs := total / 60, total % 60;
    if mins > 0 then Dec(mins) + (":" + Pad2(secs)) else Dec(secs) + "s"
  }

  /** The minutes and seconds `formatTime` shows recombine to the total, with fewer than 60 seconds. */
  lemma TimeParts(seconds: real)
    ensures var total := CountdownTotal(seconds);
      total / 60 * 60 + total % 60 == total && 0 <= total % 60 < 60
  {
  }

  /** Reads "M:SS" or "Ns" back to a number of seconds. */
  function ReadTime(s: string): Option<int>
  {
    var (a, rest) := ReadNat(s);
    if |rest| == 1 && rest[0] == 's' then Some(a)
    else if |rest| >= 1 && rest[0] == ':' then
      var (b, tail) := ReadNat(rest[1..]);
      if tail == [] then Some(a * 60 + b) else None
    else None
  }

  lemma ReadMinutesColonSeconds(d: string, e: string, a: nat, b: nat)
    requires AllDigits(d) && AllDigits(e) && a == Value(d) && b == Value(e)
    ensures ReadTime(d + (":" + e)) == Some(a * 60 + b)
  {
    ReadNatOfDigits(d, ":" + e);
    ReadNatOfDigits(e, []);
    assert (":" + e)[1..] == e;
    assert e + [] == e;
  }

  /** The countdown text reads back as exactly the whole seconds left, rounded up. */
  lemma ReadFormatTime(seconds: real)
    ensures ReadTime(FormatTime(seconds)) == Some(CountdownTotal(seconds))
  {
    var total := CountdownTotal(seconds);
    var mins, secs := total / 60, total % 60;
    if mins > 0 {
      ValueOfDec(mins);
      ValueOfPad2(secs);
      ReadMinutesColonSeconds(Dec(mins), Pad2(secs), mins, secs);
    } else {
      ReadNatOfDec(secs, "s");
    }
  }

  /** A countdown at or below zero shows "0s". */
  lemma FormatTimeNonPositive(seconds: real)
    requires seconds <= 0.0
    ensures FormatTime(seconds) == "0s"
  {
  }

  /** From a minute on the seconds are always two digits. */
  lemma FormatTimePadded(seconds: real)
    requires CountdownTotal(seconds) >= 60
    ensures |FormatTime(seconds)| == |Dec(CountdownTotal(seconds) / 60)| + 3
  {
  }

  // ---- Keys -------------------------------------------------------------------------

  /** A key press reaching the view: the named keys, a character key, or any other key. */
  datatype Key = Space | RightArrow | LeftArrow | Escape | Character(c: char) | OtherKey

  datatype KeyPressResult = Handled | Ignored

  /** The session the view drives and whether the confirmation alert is up. */
  datatype PracticeState = PracticeState(session: SessionState, showingEndConfirmation: bool)

  /**
   * The `onKeyPress` handlers: space toggles pause, right arrow and "d" go to
   * the next image, left arrow and "a" to the previous one; Escape asks for
   * confirmation, pausing first, unless the session is already over.
   */
  function KeyPressed(p: PracticeState, interval: real, key: Key): (KeyPressResult, PracticeState)
  {
    match key
    case Space => (Handled, p.(session := PauseToggled(p.session)))
    case RightArrow => (Handled, p.(session := Advanced(p.session, interval)))
    case LeftArrow => (Handled, p.(session := SteppedBack(p.session, interval)))
    case Character(c) =>
      if c == 'd' then (Handled, p.(session := Advanced(p.session, interval)))
      else if c == 'a' then (Handled, p.(session := SteppedBack(p.session, interval)))
      else (Ignored, p)
    case Escape =>
      if p.session.isFinished then (Ignored, p)
      else
        var paused := if !p.session.isPaused then PauseToggled(p.session) else p.session;
        (Handled, PracticeState(paused, true))
    case OtherKey => (Ignored, p)
  }

  /** The alert's "Continue" button: the alert closes and pause is toggled. */
  function Continued(p: PracticeState): PracticeState
  {
    PracticeState(PauseToggled(p.session), false)
  }

  /** The alert's "End Session" button: the alert closes and the session finishes. */
  function Ended(p: PracticeState): PracticeState
  {
    PracticeState(Finished(p.session), false)
  }

  /** Escape on a finished session is ignored and changes nothing. */
  lemma EscapeOnFinishedIgnored(p: PracticeState, interval: real)
    requires p.session.isFinished
    ensures KeyPressed(p, interval, Escape) == (Ignored, p)
  {
  }

  /** Escape on a running or paused session shows the alert and leaves the session paused with no countdown, in place. */
  lemma EscapeConfirms(p: PracticeState, interval: real)
    requires !p.session.isFinished
    ensures var (result, q) := KeyPressed(p, interval, Escape);
      && result == Handled && q.showingEndConfirmation
      && q.session.isPaused && q.session.timer == (if p.session.isPaused then p.session.timer else None)
      && q.session.images == p.session.images && q.session.currentIndex == p.session.currentIndex
      && q.session.timeRemaining == p.session.timeRemaining && !q.session.isFinished
  {
  }

  /** The letter keys are the arrow keys' twins. */
  lemma LettersMatchArrows(p: PracticeState, interval: real)
    ensures KeyPressed(p, interval, Character('d')) == KeyPressed(p, interval, RightArrow)
    ensures KeyPressed(p, interval, Character('a')) == KeyPressed(p, interval, LeftArrow)
  {
  }

  /** A key the view ignores changes nothing, and no key closes the alert or revives a finished session. */
  lemma KeysKeepState(p: PracticeState, interval: real, key: Key)
    ensures var (result, q) := KeyPressed(p, interval, key);
      && (result == Ignored ==> q == p)
      && (p.showingEndConfirmation ==> q.showingEndConfirmation)
      && (p.session.isFinished ==> q.session.isFinished)
  {
  }

  /**
   * Escape then "Continue" always leaves the session running, with the
   * countdown restarted from what was left, even when it was paused before.
   */
  lemma EscapeThenContinue(p: PracticeState, interval: real)
    requires !p.session.isFinished
    ensures var q := Continued(KeyPressed(p, interval, Escape).1);
      q == PracticeState(p.session.(isPaused := false, timer := Some(p.session.timeRemaining)), false)
  {
  }

  /** Escape then "End Session" finishes the session where it stood. */
  lemma EscapeThenEnd(p: PracticeState, interval: real)
    requires !p.session.isFinished
    ensures var q := Ended(KeyPressed(p, interval, Escape).1);
      && q.session.isFinished && q.session.isPaused && q.session.timer == None && !q.showingEndConfirmation
      && q.session.currentIndex == p.session.currentIndex && q.session.timeRemaining == p.session.timeRemaining
  {
  }

  // ---- Handing the finished session on -----------------------------------------------

  /**
   * The `onChange(of: isFinished)` action runs `onEnd` on a step that turns
   * `isFinished` from false to true, and on no other step.
   */
  predicate HandsOff(before: SessionState, after: SessionState)
  {
    !before.isFinished && after.isFinished
  }

  /** How many steps of a run of view-model calls hand the session on. */
  function HandOffs(s: SessionState, interval: real, cmds: seq<Command>): nat
    decreases |cmds|
  {
    if cmds == [] then 0
    else
      var next := Apply(s, interval, cmds[0]);
      (if HandsOff(s, next) then 1 else 0) + HandOffs(next, interval, cmds[1..])
  }

  /**
   * Whatever the keys, alert buttons and timer do, `onEnd` is called exactly
   * once when the run finishes a session that was not finished, and never
   * otherwise: `isFinished` is never reset, so it can change to true only once.
   */
  lemma {:induction false} HandOffExactlyOnce(s: SessionState, interval: real, cmds: seq<Command>)
    ensures HandOffs(s, interval, cmds) == if !s.isFinished && Run(s, interval, cmds).isFinished then 1 else 0
    decreases |cmds|
  {
    if cmds != [] {
      var next := Apply(s, interval, cmds[0]);
      HandOffExactlyOnce(next, interval, cmds[1..]);
      if next.isFinished {
        RunKeepsFinished(next, interval, cmds[1..]);
      }
    }
  }

  // ---- The view ------------------------------------------------------------------------

  class PracticeView {
    const viewModel: SessionViewModel
    var showingEndConfirmation: bool

    function State(): PracticeState
      reads this, viewModel
    {
      PracticeState(viewModel.State(), showingEndConfirmation)
    }

    /** `init(configuration:onEnd:)`; `shuffled` and `now` are what the session's initialiser draws. */
    constructor (configuration: SessionConfiguration, shuffled: seq<ImageReference>, now: Time)
      requires multiset(shuffled) == multiset(configuration.images)
      ensures fresh(viewModel)
      ensures State() == PracticeState(Initial(configuration, shuffled), false)
      ensures viewModel.timerInterval == configuration.timerInterval
    {
      viewModel := new SessionViewModel(configuration, shuffled, now);
      showingEndConfirmation := false;
    }

    /** `onAppear`: the countdown starts. */
    method OnAppear()
      modifies viewModel
      ensures State() == old(State()).(session := TimerStarted(old(State()).session))
    {
      viewModel.Start();
    }

    method OnKeyPress(key: Key) returns (result: KeyPressResult)
      modifies this, viewModel
      ensures (result, State()) == KeyPressed(old(State()), viewModel.timerInterval, key)
    {
      match key
      case Space =>
        viewModel.TogglePause();
        result := Handled;
      case RightArrow =>
        viewModel.NextImage();
        result := Handled;
      case LeftArrow =>
        viewModel.PreviousImage();
        result := Handled;
      case Character(c) =>
        if c == 'd' {
          viewModel.NextImage();
          result := Handled;
        } else if c == 'a' {
          viewModel.PreviousImage();
          result := Handled;
        } else {
          result := Ignored;
        }
      case Escape =>
        if viewModel.isFinished {
          return Ignored;
        }
        showingEndConfirmation := true;
        if !viewModel.isPaused {
          viewModel.TogglePause();
        }
        result := Handled;
      case OtherKey =>
        result := Ignored;
    }

    method Continue()
      modifies this, viewModel
      ensures State() == Continued(old(State()))
    {
      showingEndConfirmation := false;
      viewModel.TogglePause();
    }

    method EndSession()
      modifies this, viewModel
      ensures State() == Ended(old(State()))
    {
      showingEndConfirmation := false;
      viewModel.Finish();
    }
  }
}
