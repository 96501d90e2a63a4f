/**
 * The focus-timer panel inside a card's detail view. It shows the global timer only when the
 * timer belongs to this card, counts the card's finished sessions, formats the focused time and
 * drives the global timer from its buttons.
 */
module PomodoroTracker {
  import opened Wrappers
  import opened Entities
  import opened Decimal
  import opened PomodoroStore
  import FloatingTimer

  /** `getTotalSeconds`: the length of the current phase. */
  function PhaseLength(mode: Mode): (s: int)
    ensures s == (match mode case Focus => 1500 case LongBreak => 900 case ShortBreak => 300)
  {
    if mode == Focus then 25 * 60 else if mode == LongBreak then 15 * 60 else 5 * 60
  }

  /** The panel's phase lengths are the ones the floating timer's watcher enters each phase with. */
  lemma PhaseLengthsAgree()
    ensures PhaseLength(Focus) == FocusSeconds
    ensures PhaseLength(ShortBreak) == FloatingTimer.ShortBreakSeconds
    ensures PhaseLength(LongBreak) == FloatingTimer.LongBreakSeconds
  {
  }

  /** What the panel of card `cardId` shows of the global timer. */
  datatype Panel = Panel(busy: bool, active: bool, timeLeft: int, isRunning: bool, mode: Mode)

  /**
   * The panel is busy exactly when another card holds the timer and active exactly when this card
   * does, never both; a card that does not hold the timer shows a stopped 25-minute focus phase.
   */
  function PanelOf(cardId: Id, activeCardId: Option<Id>, timeLeft: int, isRunning: bool, mode: Mode): (p: Panel)
    ensures p.busy <==> activeCardId.Some? && activeCardId.value != cardId
    ensures p.active <==> activeCardId == Some(cardId)
    ensures !(p.busy && p.active)
    ensures !p.active ==> p.timeLeft == FocusSeconds && !p.isRunning && p.mode == Focus
    ensures p.active ==> p.timeLeft == timeLeft && p.isRunning == isRunning && p.mode == mode
  {
    var active := activeCardId == Some(cardId);
    Panel(
      activeCardId.Some? && activeCardId.value != cardId,
      active,
      if active then timeLeft else 25 * 60,
      if active then isRunning else false,
      if active then mode else Focus)
  }

  /** The session filter: finished, and (for a daily or weekly card) finished today or this week. */
  predicate Counts(s: Session, recurrence: string, isToday: string -> bool, isThisWeek: string -> bool)
  {
    Truthy(s.completedAt) &&
    (if recurrence == "daily" then isToday(s.completedAt.value)
     else if recurrence == "weekly" then isThisWeek(s.completedAt.value)
     else true)
  }

  /** `pomodorosHechos`: the number of sessions that pass the filter. */
  function DoneCount(sessions: seq<Session>, recurrence: string, isToday: string -> bool, isThisWeek: string -> bool): (n: nat)
    ensures n <= |sessions|
  {
    if |sessions| == 0 then 0
    else DoneCount(sessions[..|sessions| - 1], recurrence, isToday, isThisWeek)
         + if Counts(sessions[|sessions| - 1], recurrence, isToday, isThisWeek) then 1 else 0
  }

  /** The number of sessions that have a completion date. */
  function Finished(sessions: seq<Session>): nat
  {
    if |sessions| == 0 then 0
    else Finished(sessions[..|sessions| - 1]) + if Truthy(sessions[|sessions| - 1].completedAt) then 1 else 0
  }

  /** For a card that does not recur, the count is the number of sessions with a completion date. */
  lemma {:induction false} DoneCountNoRecurrence(sessions: seq<Session>, recurrence: string, isToday: string -> bool, isThisWeek: string -> bool)
    requires recurrence != "daily" && recurrence != "weekly"
    ensures DoneCount(sessions, recurrence, isToday, isThisWeek) == Finished(sessions)
  {
    if |sessions| > 0 {
      DoneCountNoRecurrence(sessions[..|sessions| - 1], recurrence, isToday, isThisWeek);
    }
  }

  /** A session finishing one more appends one more to the count exactly when it passes the filter. */
  lemma {:induction false} DoneCountAppend(sessions: seq<Session>, s: Session, recurrence: string, isToday: string -> bool, isThisWeek: string -> bool)
    ensures DoneCount(sessions + [s], recurrence, isToday, isThisWeek)
            == DoneCount(sessions, recurrence, isToday, isThisWeek) + if Counts(s, recurrence, isToday, isThisWeek) then 1 else 0
  {
    assert (sessions + [s])[..|sessions|] == sessions;
  }

  /** The − button: one less, but not below 1. */
  function DecreasedTarget(target: int): (t: int)
    ensures t >= 1 && t >= target - 1
    ensures target > 1 ==> t == target - 1
    ensures target <= 1 ==> t == 1
  {
    if target - 1 < 1 then 1 else target - 1
  }

  /** The + button: one more, but not above 20. */
  function IncreasedTarget(target: int): (t: int)
    ensures t <= 20 && t <= target + 1
    ensures target < 20 ==> t == target + 1
    ensures target >= 20 ==> t == 20
  {
    if target + 1 > 20 then 20 else target + 1
  }

  /** Starting within 1 .. 20, the buttons keep the target within 1 .. 20. */
  lemma TargetStaysInRange(target: int)
    requires 1 <= target <= 20
    ensures 1 <= DecreasedTarget(target) <= 20 && 1 <= IncreasedTarget(target) <= 20
  {
  }

  /** `formatoHorasMinutos`: "0m", "Nm" under an hour, "Hh MMm" from an hour on. */
  function FormatHoursMinutes(total: int): string
  {
    if total == 0 then "0m"
    else
      var hours := total / 60;
      var rest := JsRem(total, 60);
      if hours == 0 then IntToString(rest) + "m"
      else IntToString(hours) + "h " + PadStart2(IntToString(rest)) + "m"
  }

  /**
   * The formatted time reads back as the number of minutes: under an hour it is the number and
   * "m"; from an hour on, the hours, "h ", two digits of minutes under 60, and "m".
   */
  lemma {:induction false} FormatReadsBack(total: nat)
    ensures total == 0 ==> FormatHoursMinutes(total) == "0m"
    ensures 0 < total < 60 ==> FormatHoursMinutes(total) == NatToString(total) + "m"
    ensures total >= 60 ==>
              var hh := NatToString(total / 60);
              var mm := PadStart2(NatToString(total % 60));
              && FormatHoursMinutes(total) == hh + "h " + mm + "m"
              && |mm| == 2
              && (forall i :: 0 <= i < |mm| ==> IsDigit(mm[i]))
              && ParseNat(mm) < 60
              && 60 * ParseNat(hh) + ParseNat(mm) == total
  {
    var h: nat, m: nat := total / 60, total % 60;
    assert total == 60 * h + m && m < 60;
    assert JsRem(total, 60) == m;
    if total >= 60 {
      PaddedNumber(m);
      ParseNatToString(h);
    }
  }

  /**
   * The start/pause button. It is disabled while another card holds the timer. On a card that
   * does not hold the timer it takes the timer and starts it; on the card that does, it pauses a
   * running timer and starts a stopped one. Time and phase are not touched.
   */
  method PressToggle(timer: Timer, cardId: Id)
    modifies timer`activeCardId, timer`isRunning
    ensures var p := PanelOf(cardId, old(timer.activeCardId), old(timer.timeLeft), old(timer.isRunning), old(timer.mode));
            && (p.busy ==> timer.activeCardId == old(timer.activeCardId) && timer.isRunning == old(timer.isRunning))
            && (!p.busy ==> timer.activeCardId == Some(cardId))
            && (!p.busy && !p.active ==> timer.isRunning)
            && (p.active ==> timer.isRunning == !old(timer.isRunning))
  {
    var p := PanelOf(cardId, timer.activeCardId, timer.timeLeft, timer.isRunning, timer.mode);
    if p.busy {
      return;
    }
    if !p.active {
      timer.SetActiveCard(Some(cardId));
      timer.StartTimer();
    } else {
      if p.isRunning {
        timer.PauseTimer();
      } else {
        timer.StartTimer();
      }
    }
  }

  /**
   * The reset button: nothing on a card that does not hold the timer; otherwise the timer stops
   * at the full length of the current phase, for the same card and phase.
   */
  method PressReset(timer: Timer, cardId: Id)
    modifies timer`timeLeft, timer`isRunning
    ensures old(timer.activeCardId) != Some(cardId) ==>
              timer.timeLeft == old(timer.timeLeft) && timer.isRunning == old(timer.isRunning)
    ensures old(timer.activeCardId) == Some(cardId) ==>
              timer.timeLeft == PhaseLength(timer.mode) && !timer.isRunning
  {
    var p := PanelOf(cardId, timer.activeCardId, timer.timeLeft, timer.isRunning, timer.mode);
    if p.active {
      timer.PauseTimer();
      timer.ResetTimer(PhaseLength(p.mode));
    }
  }
}
