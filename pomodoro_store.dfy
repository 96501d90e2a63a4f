/**
 * The global focus-timer store: which card the timer belongs to, the seconds left, whether it
 * runs, and the phase. Every setter overwrites some of the four fields and leaves the others.
 */
module PomodoroStore {
  import opened Wrappers
  import opened Entities

  datatype Mode = Focus | ShortBreak | LongBreak

  /** The length of a focus session, 25 minutes. */
  const FocusSeconds := 25 * 60

  /** `Math.max(0, t - 1)`: one second less, never below zero. */
  function Ticked(t: int): (r: int)
    ensures r >= 0
    ensures t > 0 ==> r == t - 1
    ensures t <= 0 ==> r == 0
  {
    if t - 1 < 0 then 0 else t - 1
  }

  /** The time left after n ticks. */
  function TickedTimes(t: int, n: nat): int
    decreases n
  {
    if n == 0 then t else TickedTimes(Ticked(t), n - 1)
  }

  /** After n ticks the time is t - n, or 0 once the countdown has run out; it stays there. */
  lemma {:induction false} TickedTimesFloor(t: int, n: nat)
    requires n > 0
    ensures TickedTimes(t, n) == if t - n < 0 then 0 else t - n
    decreases n
  {
    if n > 1 {
      TickedTimesFloor(Ticked(t), n - 1);
    }
  }

  class Timer {
    var activeCardId: Option<Id>
    var timeLeft: int
    var isRunning: bool
    var mode: Mode

    /** The initial state: no card, 25 minutes, stopped, focus. */
    constructor ()
      ensures activeCardId == None && timeLeft == FocusSeconds && !isRunning && mode == Focus
    {
      activeCardId := None;
      timeLeft := FocusSeconds;
      isRunning := false;
      mode := Focus;
    }

    method SetActiveCard(cardId: Option<Id>)
      modifies this`activeCardId
      ensures activeCardId == cardId
    {
      activeCardId := cardId;
    }

    method StartTimer()
      modifies this`isRunning
      ensures isRunning
    {
      isRunning := true;
    }

    method PauseTimer()
      modifies this`isRunning
      ensures !isRunning
    {
      isRunning := false;
    }

    /** A read-modify-write of the time left; the other fields stay. */
    method Tick()
      modifies this`timeLeft
      ensures timeLeft == Ticked(old(timeLeft))
    {
      timeLeft := Ticked(timeLeft);
    }

    /** Stops the timer at `seconds`, in the same phase, for the same card. */
    method ResetTimer(seconds: int)
      modifies this`timeLeft, this`isRunning
      ensures timeLeft == seconds && !isRunning
    {
      timeLeft := seconds;
      isRunning := false;
    }

    /** Enters a phase with its length, stopped, for the same card. */
    method SetMode(newMode: Mode, seconds: int)
      modifies this`mode, this`timeLeft, this`isRunning
      ensures mode == newMode && timeLeft == seconds && !isRunning
    {
      mode := newMode;
      timeLeft := seconds;
      isRunning := false;
    }
  }
}
