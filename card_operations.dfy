/**
 * The board page's card handlers: toggling a card's status, saving an edit, renaming the board
 * and deleting a card. Each keeps the card array, the card open in the dialog and the board
 * title in step with the request it sends.
 */
module CardOperations {
  import opened Wrappers
  import opened Entities
  import opened CardPatches
  import opened CardStore
  import opened FloatingTimer

  /** The arguments of `handleUpdateCard` after the card id. */
  datatype CardEdit = CardEdit(
    title: string,
    description: string,
    deadline: Option<string>,
    labels: seq<Label>,
    checklist: seq<ChecklistItem>,
    pomodoros: seq<Session>,
    pomodoroTarget: int,
    recurrence: string)

  /** The body of the toggle request: `{completed}` and nothing else. */
  function ToggleBody(status: bool): (b: CardBody)
    ensures b.completed == Some(status)
    ensures forall f :: Defined(b, f) <==> f == Completed
  {
    EmptyBody.(completed := Some(status))
  }

  /**
   * The body of the edit request as it goes over the wire: every field of the edit, except that
   * a deadline of `undefined` is dropped by the JSON encoding, so the body then carries none.
   */
  function EditBody(e: CardEdit): (b: CardBody)
    ensures b.title == Some(e.title) && b.description == Some(e.description)
    ensures b.deadline == (if e.deadline.Some? then Some(e.deadline) else None)
    ensures b.labels == Some(e.labels) && b.checklist == Some(e.checklist)
    ensures b.pomodoros == Some(e.pomodoros) && b.pomodoroTarget == Some(e.pomodoroTarget)
    ensures b.recurrence == Some(e.recurrence)
    ensures b.completed.None? && b.position.None? && b.listId.None? && b.boardId.None?
  {
    CardBody(Some(e.title), Some(e.description), None, None,
             if e.deadline.Some? then Some(e.deadline) else None,
             Some(e.labels), Some(e.checklist), Some(e.pomodoros), Some(e.pomodoroTarget),
             None, None, Some(e.recurrence))
  }

  /** The patch of the card in the array: seven fields of the edit; recurrence is not among them. */
  function ArrayPatch(e: CardEdit): (f: Card -> Card)
    ensures forall c :: f(c).id == c.id && f(c).listId == c.listId && f(c).boardId == c.boardId
                        && f(c).completed == c.completed && f(c).position == c.position
                        && f(c).recurrence == c.recurrence
  {
    (c: Card) => c.(title := e.title, description := e.description, deadline := e.deadline, labels := e.labels,
                    checklist := e.checklist, pomodoros := e.pomodoros, pomodoroTarget := e.pomodoroTarget)
  }

  /**
   * The patch of the open card. It writes the checklist under the key `checkList`, which is not
   * the card's `checklist` field, so the open card keeps its old checklist.
   */
  function OpenCardPatch(e: CardEdit): (f: Card -> Card)
    ensures forall c :: f(c).id == c.id && f(c).listId == c.listId && f(c).boardId == c.boardId
                        && f(c).completed == c.completed && f(c).position == c.position
                        && f(c).recurrence == c.recurrence && f(c).checklist == c.checklist
  {
    (c: Card) => c.(title := e.title, description := e.description, deadline := e.deadline, labels := e.labels,
                    pomodoros := e.pomodoros, pomodoroTarget := e.pomodoroTarget)
  }

  /**
   * The open card and its copy in the array agree after an edit on everything but the checklist,
   * which the open card does not take up.
   */
  lemma OpenCardChecklistStale(c: Card, e: CardEdit)
    ensures OpenCardPatch(e)(c) == ArrayPatch(e)(c).(checklist := c.checklist)
    ensures OpenCardPatch(e)(c).checklist == c.checklist
    ensures e.checklist != c.checklist ==> OpenCardPatch(e)(c) != ArrayPatch(e)(c)
  {
    assert ArrayPatch(e)(c).checklist == e.checklist;
  }

  /**
   * What the browser shows after an ok response is what the server stored: the server's update
   * with the body sent gives the array's patch, both leaving the recurrence as it was, except
   * that a cleared deadline is not sent, so the server keeps the old one while the browser shows none.
   */
  lemma ServerAgreesWithArray(c: Card, e: CardEdit)
    ensures e.deadline.Some? ==> Updated(c, EditBody(e)) == ArrayPatch(e)(c)
    ensures e.deadline.None? ==> Updated(c, EditBody(e)) == ArrayPatch(e)(c).(deadline := c.deadline)
    ensures Updated(c, EditBody(e)).recurrence == c.recurrence == ArrayPatch(e)(c).recurrence
  {
  }

  /** The toggle request makes the server store the status the browser shows. */
  lemma ServerAgreesOnToggle(c: Card, status: bool)
    ensures Updated(c, ToggleBody(status)) == CompletedAs(status)(c)
  {
  }

  /** The edit the floating timer sends for a finished session. */
  function EditOf(u: UpdateCall): CardEdit
  {
    CardEdit(u.title, u.description, u.deadline, u.labels, u.checklist, u.pomodoros, u.pomodoroTarget, u.recurrence)
  }

  /**
   * Saving the timer's update of a card appends the session to its sessions and changes nothing
   * else but a zero target, which becomes 1.
   */
  lemma SessionRecorded(card: Card, session: Session)
    ensures var r := ArrayPatch(EditOf(SessionUpdate(card, session)))(card);
            r == card.(pomodoros := card.pomodoros + [session], pomodoroTarget := if card.pomodoroTarget == 0 then 1 else card.pomodoroTarget)
  {
  }

  class CardOps {
    var cards: seq<Card>
    var activeCard: Option<Card>
    var board: Option<Board>

    constructor (cards: seq<Card>, board: Option<Board>)
      ensures this.cards == cards && activeCard == None && this.board == board
    {
      this.cards := cards;
      activeCard := None;
      this.board := board;
    }

    /** Opens a card in the dialog. */
    method Open(card: Option<Card>)
      modifies this`activeCard
      ensures activeCard == card
    {
      activeCard := card;
    }

    /**
     * `handleToggleCompleted`: before the request, the cards with that id and the open card, if it
     * is that card, get the opposite of `currentStatus`; the request carries only that status.
     */
    method HandleToggleCompleted(cardId: Id, currentStatus: bool) returns (body: CardBody)
      modifies this`cards, this`activeCard
      ensures cards == Patch(old(cards), cardId, CompletedAs(!currentStatus))
      ensures activeCard == if old(activeCard).Some? && old(activeCard).value.id == cardId
                            then Some(CompletedAs(!currentStatus)(old(activeCard).value))
                            else old(activeCard)
      ensures body == ToggleBody(!currentStatus)
    {
      var newStatus := !currentStatus;
      cards := Patch(cards, cardId, CompletedAs(newStatus));
      if activeCard.Some? && activeCard.value.id == cardId {
        activeCard := Some(CompletedAs(newStatus)(activeCard.value));
      }
      body := ToggleBody(newStatus);
    }

    /**
     * `handleUpdateCard`: the request is sent first; only on an ok response do the cards with that
     * id get `ArrayPatch` and the open card, if it is that card, `OpenCardPatch`.
     */
    method HandleUpdateCard(cardId: Id, e: CardEdit, ok: bool) returns (body: CardBody)
      modifies this`cards, this`activeCard
      ensures body == EditBody(e)
      ensures !ok ==> cards == old(cards) && activeCard == old(activeCard)
      ensures ok ==> cards == Patch(old(cards), cardId, ArrayPatch(e))
      ensures ok ==> activeCard == if old(activeCard).Some? && old(activeCard).value.id == cardId
                                   then Some(OpenCardPatch(e)(old(activeCard).value))
                                   else old(activeCard)
    {
      body := EditBody(e);
      if !ok {
        return;
      }
      cards := Patch(cards, cardId, ArrayPatch(e));
      if activeCard.Some? && activeCard.value.id == cardId {
        activeCard := Some(OpenCardPatch(e)(activeCard.value));
      }
    }

    /** `handleUpdateTitle`: on an ok response a loaded board takes the new title; no board stays none. */
    method HandleUpdateTitle(newTitle: string, ok: bool)
      modifies this`board
      ensures !ok || old(board).None? ==> board == old(board)
      ensures ok && old(board).Some? ==> board == Some(old(board).value.(title := newTitle))
    {
      if ok && board.Some? {
        board := Some(board.value.(title := newTitle));
      }
    }

    /** `handleDeleteCard`: the dialog closes when it shows the deleted card. */
    method HandleDeleteCard(cardId: Id)
      modifies this`activeCard
      ensures old(activeCard).Some? && old(activeCard).value.id == cardId ==> activeCard == None
      ensures !(old(activeCard).Some? && old(activeCard).value.id == cardId) ==> activeCard == old(activeCard)
    {
      if activeCard.Some? && activeCard.value.id == cardId {
        activeCard := None;
      }
    }
  }

  /**
   * Across both handlers only the cards with the edited id change: every other card, and every
   * field but the edited ones, stays as it was.
   */
  lemma EditTouchesOnlyTarget(cards: seq<Card>, cardId: Id, e: CardEdit)
    ensures var r := Patch(cards, cardId, ArrayPatch(e));
            && |r| == |cards|
            && (forall i :: 0 <= i < |cards| && cards[i].id != cardId ==> r[i] == cards[i])
            && (forall i :: 0 <= i < |cards| && cards[i].id == cardId ==>
                  && r[i].id == cards[i].id && r[i].listId == cards[i].listId && r[i].boardId == cards[i].boardId
                  && r[i].completed == cards[i].completed && r[i].position == cards[i].position
                  && r[i].recurrence == cards[i].recurrence
                  && r[i].title == e.title && r[i].checklist == e.checklist && r[i].pomodoros == e.pomodoros)
  {
  }
}
