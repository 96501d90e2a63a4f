/**
 * The floating timer widget: the watcher that runs when the countdown of a running timer reaches
 * zero (it records the finished focus session on the card and moves to the next phase), the
 * mm:ss display, and the widget's two buttons.
 */
module FloatingTimer {
  import opened Wrappers
  import opened Entities
  import opened Decimal
  import opened PomodoroStore

  const ShortBreakSeconds := 5 * 60
  const LongBreakSeconds := 15 * 60

  /** The arguments of the `onUpdateCard` call the watcher makes. */
  datatype UpdateCall = UpdateCall(
    cardId: Id,
    title: string,
    description: string,
    deadline: Option<string>,
    labels: seq<Label>,
    checklist: seq<ChecklistItem>,
    pomodoros: seq<Session>,
    pomodoroTarget: int,
    recurrence: string)

  /** The first card with that id (`cards.find`); no card when the timer has none. */
  function FindCard(cards: seq<Card>, id: Option<Id>): (r: Option<Card>)
    ensures r.Some? ==> r.value in cards && id == Some(r.value.id)
    ensures r.None? ==> id.None? || forall c :: c in cards ==> c.id != id.value
  {
    if id.None? || |cards| == 0 then None
    else if cards[0].id == id.value then Some(cards[0])
    else FindCard(cards[1..], id)
  }

  /** Finishing focus session number n + 1 (n finished before) earns the long break every fourth time. */
  predicate LongBreakDue(n: nat)
  {
    (n + 1) % 4 == 0
  }

  /** Of four focus sessions in a row, exactly one leads to the long break. */
  lemma LongBreakEveryFourth(n: nat)
    ensures LongBreakDue(n) <==> n % 4 == 3
    ensures LongBreakDue(n) ==> !LongBreakDue(n + 1) && !LongBreakDue(n + 2) && !LongBreakDue(n + 3)
    ensures LongBreakDue(n + 4) == LongBreakDue(n)
  {
  }

  /** The request the watcher sends for a finished focus session, with the card's fallbacks. */
  function SessionUpdate(card: Card, session: Session): (u: UpdateCall)
    ensures u.cardId == card.id && u.pomodoros == card.pomodoros + [session]
    ensures u.pomodoroTarget == if card.pomodoroTarget == 0 then 1 else card.pomodoroTarget
    ensures u.recurrence == if card.recurrence == "" then "none" else card.recurrence
  {
    UpdateCall(
      card.id, card.title, card.description, card.deadline, card.labels, card.checklist,
      card.pomodoros + [session],
      if card.pomodoroTarget == 0 then 1 else card.pomodoroTarget,
      if card.recurrence == "" then "none" else card.recurrence)
  }

  /**
   * The watcher effect. It acts only when the time is 0 and the timer runs, and then always
   * pauses. With the timer's card found: after focus it sends one new 25-minute session appended
   * to the card's sessions and enters the long break (15 min) every fourth session, the short
   * break (5 min) otherwise; after a break it enters focus (25 min) and sends nothing. Without
   * the card only the pause happens. `sessionId` and `now` are the random id and the clock.
   */
  method WatchCompletion(timer: Timer, cards: seq<Card>, sessionId: string, now: string)
    returns (call: Option<UpdateCall>)
    modifies timer
    ensures timer.activeCardId == old(timer.activeCardId)
    ensures !(old(timer.timeLeft) == 0 && old(timer.isRunning)) ==>
              call == None && timer.timeLeft == old(timer.timeLeft)
              && timer.isRunning == old(timer.isRunning) && timer.mode == old(timer.mode)
    ensures old(timer.timeLeft) == 0 && old(timer.isRunning) ==> !timer.isRunning
    ensures var card := FindCard(cards, old(timer.activeCardId));
            old(timer.timeLeft) == 0 && old(timer.isRunning) ==>
              && (card.None? ==> call == None && timer.timeLeft == 0 && timer.mode == old(timer.mode))
              && (card.Some? && old(timer.mode) == Focus ==>
                    var long := LongBreakDue(|card.value.pomodoros|);
                    && call == Some(SessionUpdate(card.value, Session(sessionId, Some(now), 25)))
                    && timer.mode == (if long then LongBreak else ShortBreak)
                    && timer.timeLeft == (if long then LongBreakSeconds else ShortBreakSeconds))
              && (card.Some? && old(timer.mode) != Focus ==>
                    call == None && timer.mode == Focus && timer.timeLeft == FocusSeconds)
  {
    call := None;
    if !(timer.timeLeft == 0 && timer.isRunning) {
      return;
    }
    timer.PauseTimer();
    var card := FindCard(cards, timer.activeCardId);
    if card.Some? {
      if timer.mode == Focus {
        var pomodoros := card.value.pomodoros;
        var long := LongBreakDue(|pomodoros|);
        var newSession := Session(sessionId, Some(now), 25);
        call := Some(SessionUpdate(card.value, newSession));
        timer.SetMode(if long then LongBreak else ShortBreak, if long then LongBreakSeconds else ShortBreakSeconds);
      } else {
        timer.SetMode(Focus, FocusSeconds);
      }
    }
  }

  /** `floor(t / 60)` minutes and `t % 60` seconds, each padded to two digits. */
  function Clock(t: int): string
  {
    PadStart2(IntToString(t / 60)) + ":" + PadStart2(IntToString(JsRem(t, 60)))
  }

  /**
   * For a time that is not negative the display loses nothing: the seconds are two digits below
   * 60, the minutes read back times 60 plus the seconds give the time, and below 100 minutes the
   * minutes are two digits too.
   */
  lemma {:induction false} ClockReadsBack(t: int)
    requires t >= 0
    ensures var s := Clock(t);
            var mm := PadStart2(NatToString(t / 60));
            var ss := PadStart2(NatToString(t % 60));
            && s == mm + ":" + ss
            && |ss| == 2 && (t < 6000 ==> |mm| == 2)
            && (forall i :: 0 <= i < |mm| ==> IsDigit(mm[i]))
            && (forall i :: 0 <= i < |ss| ==> IsDigit(ss[i]))
            && ParseNat(ss) == t % 60 < 60
            && 60 * ParseNat(mm) + ParseNat(ss) == t
  {
    var m: nat, sec: nat := t / 60, t % 60;
    assert t == 60 * m + sec && sec < 60;
    assert JsRem(t, 60) == sec;
    PaddedNumber(m);
    PaddedNumber(sec);
  }

  /** What the widget shows: nothing without a card (a null or empty id), else the card and the clock. */
  datatype Widget = Widget(title: Option<string>, clock: string, isFocus: bool, isRunning: bool)

  function Render(activeCardId: Option<Id>, timeLeft: int, isRunning: bool, mode: Mode, cards: seq<Card>): (w: Option<Widget>)
    ensures w.None? <==> !Truthy(activeCardId)
    ensures w.Some? ==> w.value.clock == Clock(timeLeft) && w.value.isRunning == isRunning
    ensures w.Some? ==> (w.value.title.Some? <==> exists c :: c in cards && c.id == activeCardId.value)
  {
    if !Truthy(activeCardId) then None
    else
      var card := FindCard(cards, activeCardId);
      Some(Widget(if card.Some? then Some(card.value.title) else None, Clock(timeLeft), mode == Focus, isRunning))
  }

  /** The play/pause button: pauses a running timer, starts a stopped one. */
  method PressPlayPause(timer: Timer)
    modifies timer`isRunning
    ensures timer.isRunning == !old(timer.isRunning)
  {
    if timer.isRunning {
      timer.PauseTimer();
    } else {
      timer.StartTimer();
    }
  }

  /** The close button: stops the timer and detaches it from the card; time and phase stay. */
  method PressClose(timer: Timer)
    modifies timer`isRunning, timer`activeCardId
    ensures !timer.isRunning && timer.activeCardId == None
  {
    timer.PauseTimer();
    timer.SetActiveCard(None);
  }
}
