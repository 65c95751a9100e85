/**
 * A practice session: the images of the chosen board in playing order, the
 * current position, the countdown for the current image, and the pause and
 * finish flags.
 *
 * The countdown task of `startTimer` is represented by `timer`: while a task
 * runs it holds the remaining time the task started from (`startRemaining`),
 * and it is `None` once the task is cancelled or has ended. One wake-up of the
 * task is a `Tick` that is told how long ago the task started.
 */
module Session {
  import opened Wrappers
  import opened Models

  // ---- The session as a value -----------------------------------------------------------

  datatype SessionState = SessionState(
    images: seq<ImageReference>,
    currentIndex: nat,
    timeRemaining: real,
    isPaused: bool,
    isFinished: bool,
    timer: Option<real>)

  /**
   * `init(configuration:)`: at the first image with a full countdown, neither
   * paused nor finished, no timer running yet; `shuffled` is the order `shuffled()` chose,
   * some rearrangement of the configured images.
   */
  function Initial(config: SessionConfiguration, shuffled: seq<ImageReference>): (s: SessionState)
    requires multiset(shuffled) == multiset(config.images)
    ensures s.currentIndex == 0 && s.timeRemaining == config.timerInterval
    ensures !s.isPaused && !s.isFinished && s.timer == None
    ensures config.playbackOrder == Sequential ==> s.images == config.images
    ensures multiset(s.images) == multiset(config.images)
  {
    var images := if config.playbackOrder == Shuffle then shuffled else config.images;
    SessionState(images, 0, config.timerInterval, false, false, None)
  }

  /** `currentImage`: the image at the current index, if the index is in range. */
  function CurrentImage(s: SessionState): (r: Option<ImageReference>)
    ensures r.Some? <==> s.currentIndex < |s.images|
    ensures r.Some? ==> r.value == s.images[s.currentIndex]
  {
    if s.currentIndex < |s.images| then Some(s.images[s.currentIndex]) else None
  }

  /** `progress`: the elapsed fraction of the current image's countdown. */
  function Progress(s: SessionState, interval: real): (p: real)
    ensures interval <= 0.0 ==> p == 0.0
    ensures interval > 0.0 && s.timeRemaining == interval ==> p == 0.0
    ensures interval > 0.0 && s.timeRemaining == 0.0 ==> p == 1.0
    ensures interval > 0.0 && 0.0 <= s.timeRemaining <= interval ==> 0.0 <= p <= 1.0
  {
    if interval <= 0.0 then 0.0 else 1.0 - s.timeRemaining / interval
  }

  /** `completedAllImages`: on the last image (or past it) with the countdown run out. */
  predicate CompletedAllImages(s: SessionState)
  {
    s.currentIndex >= |s.images| - 1 && s.timeRemaining <= 0.0
  }

  /** `startTimer`: any running task is cancelled and a new one counts down from `timeRemaining`. */
  function TimerStarted(s: SessionState): SessionState
  {
    s.(timer := Some(s.timeRemaining))
  }

  /** `togglePause`: pausing cancels the countdown, resuming restarts it from what was left. */
  function PauseToggled(s: SessionState): (r: SessionState)
    ensures r.isPaused == !s.isPaused
    ensures r.isPaused ==> r.timer == None
    ensures !r.isPaused ==> r.timer == Some(s.timeRemaining)
    ensures r.images == s.images && r.currentIndex == s.currentIndex && r.timeRemaining == s.timeRemaining
    ensures r.isFinished == s.isFinished
  {
    var t := s.(isPaused := !s.isPaused);
    if t.isPaused then t.(timer := None) else TimerStarted(t)
  }

  /** `finish`: the countdown is cancelled and the session is over. */
  function Finished(s: SessionState): (r: SessionState)
    ensures r.isFinished && r.timer == None
    ensures r.images == s.images && r.currentIndex == s.currentIndex && r.timeRemaining == s.timeRemaining
    ensures r.isPaused == s.isPaused
  {
    s.(isFinished := true, timer := None)
  }

  /** `nextImage`: finish on the last image (or an empty list), otherwise advance with a full countdown. */
  function Advanced(s: SessionState, interval: real): SessionState
  {
    if !(s.currentIndex < |s.images| - 1) then Finished(s)
    else
      var t := s.(currentIndex := s.currentIndex + 1, timeRemaining := interval);
      if !s.isPaused then TimerStarted(t) else t
  }

  /** `previousImage`: nothing at the first image, otherwise step back with a full countdown. */
  function SteppedBack(s: SessionState, interval: real): SessionState
  {
    if s.currentIndex == 0 then s
    else
      var t := s.(currentIndex := s.currentIndex - 1, timeRemaining := interval);
      if !s.isPaused then TimerStarted(t) else t
  }

  /**
   * One wake-up of the countdown task, `elapsed` seconds after it started. A
   * cancelled task does nothing. When time has run out the remaining time is
   * set to zero, the task ends and `nextImage` runs.
   */
  function Ticked(s: SessionState, interval: real, elapsed: real): SessionState
  {
    if s.timer.None? then s
    else
      var remaining := s.timer.value - elapsed;
      if remaining <= 0.0 then Advanced(s.(timeRemaining := 0.0, timer := None), interval)
      else s.(timeRemaining := remaining)
  }

  // ---- Properties of single steps --------------------------------------------------------

  /** `nextImage` advances exactly when there is a later image; otherwise it finishes in place. */
  lemma NextSteps(s: SessionState, interval: real)
    ensures var r := Advanced(s, interval);
      && (s.currentIndex + 1 < |s.images| ==>
            r.currentIndex == s.currentIndex + 1 && r.timeRemaining == interval && r.isFinished == s.isFinished)
      && (s.currentIndex + 1 >= |s.images| ==>
            r.currentIndex == s.currentIndex && r.isFinished && r.timer == None && r.timeRemaining == s.timeRemaining)
      && r.images == s.images && r.isPaused == s.isPaused
  {
  }

  /** `previousImage` steps back exactly when not at the first image, otherwise nothing changes. */
  lemma PreviousSteps(s: SessionState, interval: real)
    ensures var r := SteppedBack(s, interval);
      && (s.currentIndex > 0 ==>
            r.currentIndex == s.currentIndex - 1 && r.timeRemaining == interval && r.isFinished == s.isFinished)
      && (s.currentIndex == 0 ==> r == s)
      && r.images == s.images && r.isPaused == s.isPaused
  {
  }

  /** A running countdown restarts after either move unless the session is paused. */
  lemma MovesRestartTimer(s: SessionState, interval: real)
    requires !s.isPaused
    ensures s.currentIndex + 1 < |s.images| ==> Advanced(s, interval).timer == Some(interval)
    ensures s.currentIndex > 0 ==> SteppedBack(s, interval).timer == Some(interval)
  {
  }

  /** A tick that has not run out only lowers the remaining time to what is left. */
  lemma TickCountsDown(s: SessionState, interval: real, elapsed: real)
    requires s.timer.Some? && s.timer.value - elapsed > 0.0
    ensures Ticked(s, interval, elapsed) == s.(timeRemaining := s.timer.value - elapsed)
  {
  }

  /** Running out on the last image finishes the session with all images completed. */
  lemma TickExpiresOnLast(s: SessionState, interval: real, elapsed: real)
    requires s.timer.Some? && s.timer.value - elapsed <= 0.0
    requires s.currentIndex + 1 >= |s.images|
    ensures var r := Ticked(s, interval, elapsed);
      r.isFinished && r.timeRemaining == 0.0 && r.timer == None && CompletedAllImages(r)
  {
  }

  /** Running out before the last image moves on with a full countdown, and a new task if not paused. */
  lemma TickExpiresAdvances(s: SessionState, interval: real, elapsed: real)
    requires s.timer.Some? && s.timer.value - elapsed <= 0.0
    requires s.currentIndex + 1 < |s.images|
    ensures var r := Ticked(s, interval, elapsed);
      && r.currentIndex == s.currentIndex + 1 && r.timeRemaining == interval
      && r.timer == (if s.isPaused then None else Some(interval))
  {
  }

  /** Toggling pause twice restores the session and restarts the countdown from where it stood. */
  lemma TogglePauseTwice(s: SessionState)
    ensures PauseToggled(PauseToggled(s)) == s.(timer := if s.isPaused then None else Some(s.timeRemaining))
  {
  }

  // ---- Runs of commands --------------------------------------------------------------------

  /** What can happen to a session: the user's controls and the countdown task waking up. */
  datatype Command = StartCmd | TogglePauseCmd | NextCmd | PreviousCmd | FinishCmd | TickCmd(elapsed: real)

  function Apply(s: SessionState, interval: real, c: Command): SessionState
  {
    match c
    case StartCmd => TimerStarted(s)
    case TogglePauseCmd => PauseToggled(s)
    case NextCmd => Advanced(s, interval)
    case PreviousCmd => SteppedBack(s, interval)
    case FinishCmd => Finished(s)
    case TickCmd(elapsed) => Ticked(s, interval, elapsed)
  }

  function Run(s: SessionState, interval: real, cmds: seq<Command>): SessionState
    decreases |cmds|
  {
    if cmds == [] then s else Run(Apply(s, interval, cmds[0]), interval, cmds[1..])
  }

  /** The index points at an image, or is 0 when there are none. */
  predicate IndexInRange(s: SessionState)
  {
    if |s.images| == 0 then s.currentIndex == 0 else s.currentIndex < |s.images|
  }

  lemma ApplyKeepsIndexInRange(s: SessionState, interval: real, c: Command)
    requires IndexInRange(s)
    ensures IndexInRange(Apply(s, interval, c)) && Apply(s, interval, c).images == s.images
  {
  }

  /** Whatever the user presses and however the timer fires, the index stays in range. */
  lemma {:induction false} RunKeepsIndexInRange(s: SessionState, interval: real, cmds: seq<Command>)
    requires IndexInRange(s)
    ensures IndexInRange(Run(s, interval, cmds)) && Run(s, interval, cmds).images == s.images
    decreases |cmds|
  {
    if cmds != [] {
      ApplyKeepsIndexInRange(s, interval, cmds[0]);
      RunKeepsIndexInRange(Apply(s, interval, cmds[0]), interval, cmds[1..]);
    }
  }

  /** Nothing resets `isFinished`. */
  lemma {:induction false} RunKeepsFinished(s: SessionState, interval: real, cmds: seq<Command>)
    requires s.isFinished
    ensures Run(s, interval, cmds).isFinished
    decreases |cmds|
  {
    if cmds != [] {
      assert Apply(s, interval, cmds[0]).isFinished;
      RunKeepsFinished(Apply(s, interval, cmds[0]), interval, cmds[1..]);
    }
  }

  /**
   * The countdown stays within one interval: with a non-negative interval and
   * ticks that never report negative elapsed time, the remaining time, and the
   * value any running task started from, lie in `[0, interval]`.
   */
  predicate CountdownInRange(s: SessionState, interval: real)
  {
    && 0.0 <= s.timeRemaining <= interval
    && (s.timer.Some? ==> 0.0 <= s.timer.value <= interval)
  }

  predicate ForwardTicks(cmds: seq<Command>)
  {
    forall i :: 0 <= i < |cmds| && cmds[i].TickCmd? ==> cmds[i].elapsed >= 0.0
  }

  lemma ApplyKeepsCountdown(s: SessionState, interval: real, c: Command)
    requires CountdownInRange(s, interval)
    requires c.TickCmd? ==> c.elapsed >= 0.0
    ensures CountdownInRange(Apply(s, interval, c), interval)
  {
  }

  lemma {:induction false} RunKeepsCountdown(s: SessionState, interval: real, cmds: seq<Command>)
    requires CountdownInRange(s, interval) && ForwardTicks(cmds)
    ensures CountdownInRange(Run(s, interval, cmds), interval)
    decreases |cmds|
  {
    if cmds != [] {
      ApplyKeepsCountdown(s, interval, cmds[0]);
      assert ForwardTicks(cmds[1..]) by {
        forall i | 0 <= i < |cmds[1..]| && cmds[1..][i].TickCmd? ensures cmds[1..][i].elapsed >= 0.0 {
          assert cmds[1..][i] == cmds[i + 1];
        }
      }
      RunKeepsCountdown(Apply(s, interval, cmds[0]), interval, cmds[1..]);
    }
  }

  /** Hence the progress shown for any reachable session lies in `[0, 1]`. */
  lemma ReachableProgress(config: SessionConfiguration, shuffled: seq<ImageReference>, cmds: seq<Command>)
    requires multiset(shuffled) == multiset(config.images)
    requires config.timerInterval >= 0.0 && ForwardTicks(cmds)
    ensures 0.0 <= Progress(Run(Initial(config, shuffled), config.timerInterval, cmds), config.timerInterval) <= 1.0
  {
    RunKeepsCountdown(Initial(config, shuffled), config.timerInterval, cmds);
  }

  // ---- The view model -------------------------------------------------------------------------

  class SessionViewModel {
    const boardId: Uuid
    const boardName: string
    const timerInterval: real
    const playbackOrder: PlaybackOrder
    const startedAt: Time
    var images: seq<ImageReference>
    var currentIndex: nat
    var timeRemaining: real
    var isPaused: bool
    var isFinished: bool
    var timer: Option<real>

    function State(): SessionState
      reads this
    {
      SessionState(images, currentIndex, timeRemaining, isPaused, isFinished, timer)
    }

    /**
     * `now` is the `Date()` read for `startedAt`; `shuffled` is the order
     * `shuffled()` chose, some rearrangement of the configured images.
     */
    constructor (configuration: SessionConfiguration, shuffled: seq<ImageReference>, now: Time)
      requires multiset(shuffled) == multiset(configuration.images)
      ensures State() == Initial(configuration, shuffled)
      ensures boardId == configuration.boardId && boardName == configuration.boardName
      ensures timerInterval == configuration.timerInterval && playbackOrder == configuration.playbackOrder
      ensures startedAt == now
    {
      boardId := configuration.boardId;
      boardName := configuration.boardName;
      timerInterval := configuration.timerInterval;
      playbackOrder := configuration.playbackOrder;
      startedAt := now;
      timeRemaining := configuration.timerInterval;
      currentIndex := 0;
      isPaused := false;
      isFinished := false;
      timer := None;
      if configuration.playbackOrder == Shuffle {
        images := shuffled;
      } else {
        images := configuration.images;
      }
    }

    method Start()
      modifies this
      ensures State() == TimerStarted(old(State()))
    {
      timer := Some(timeRemaining);
    }

    method TogglePause()
      modifies this
      ensures State() == PauseToggled(old(State()))
    {
      isPaused := !isPaused;
      if isPaused {
        timer := None;
      } else {
        timer := Some(timeRemaining);
      }
    }

    method NextImage()
      modifies this
      ensures State() == Advanced(old(State()), timerInterval)
    {
      if !(currentIndex < |images| - 1) {
        Finish();
        return;
      }
      currentIndex := currentIndex + 1;
      timeRemaining := timerInterval;
      if !isPaused {
        timer := Some(timeRemaining);
      }
    }

    method PreviousImage()
      modifies this
      ensures State() == SteppedBack(old(State()), timerInterval)
    {
      if currentIndex == 0 {
        return;
      }
      currentIndex := currentIndex - 1;
      timeRemaining := timerInterval;
      if !isPaused {
        timer := Some(timeRemaining);
      }
    }

    method Finish()
      modifies this
      ensures State() == Finished(old(State()))
    {
      timer := None;
      isFinished := true;
    }

    /** One wake-up of the countdown task, `elapsed` seconds after it started. */
    method Tick(elapsed: real)
      modifies this
      ensures State() == Ticked(old(State()), timerInterval, elapsed)
    {
      if timer.None? {
        return;
      }
      var remaining := timer.value - elapsed;
      if remaining <= 0.0 {
        timeRemaining := 0.0;
        timer := None;
        NextImage();
        return;
      }
      timeRemaining := remaining;
    }
  }
}
