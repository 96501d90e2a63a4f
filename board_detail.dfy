/**
 * The older board screen, with one drag context per column and no column dragging: its card
 * array, the card open in the detail dialog, and the handlers that update both.
 */
module LegacyBoardDetail {
  import opened Wrappers
  import opened Entities
  import opened Sortable
  import opened CardPatches
  import opened CardStore

  /** `after` is `before` with the given title and some description; nothing else differs. */
  predicate EditsText(before: Card, after: Card, title: string)
  {
    after == before.(title := title, description := after.description)
  }

  /** The card array's edit: a new title, and the new description unless it is empty or absent. */
  function ArrayEdit(title: string, description: Option<string>): (f: Card -> Card)
    ensures forall c :: EditsText(c, f(c), title)
    ensures forall c :: Truthy(description) ==> f(c).description == description.value
  {
    (c: Card) => c.(title := title, description := if Truthy(description) then description.value else c.description)
  }

  /** The open card's edit: a new title, and the new description, "" when it is empty or absent. */
  function OpenCardEdit(title: string, description: Option<string>): (f: Card -> Card)
    ensures forall c :: EditsText(c, f(c), title)
    ensures forall c :: !Truthy(description) ==> f(c).description == ""
  {
    (c: Card) => c.(title := title, description := if Truthy(description) then description.value else "")
  }

  /**
   * The two copies of a card disagree after an edit that clears the description: the array keeps
   * the old description, the open dialog shows none. With a non-empty new description they agree.
   */
  lemma ClearedDescriptionDiverges(c: Card, title: string, description: Option<string>)
    ensures !Truthy(description) ==>
              ArrayEdit(title, description)(c).description == c.description
              && OpenCardEdit(title, description)(c).description == ""
    ensures Truthy(description) ==> ArrayEdit(title, description)(c) == OpenCardEdit(title, description)(c)
  {
  }

  /** The body of the edit request: the title, and the description unless it is `undefined`. */
  function LegacyEditBody(title: string, description: Option<string>): (b: CardBody)
    ensures b.title == Some(title) && b.description == description
    ensures forall f :: Defined(b, f) ==> f == Title || f == Description
  {
    EmptyBody.(title := Some(title), description := description)
  }

  /**
   * Browser and server disagree after an edit whose description is "": the server stores the
   * empty description, the card array keeps the old one. With any other description, present
   * or not, the server's card is the array's.
   */
  lemma LegacyServerDisagrees(c: Card, title: string, description: Option<string>)
    ensures description == Some("") ==>
              Updated(c, LegacyEditBody(title, description)).description == ""
              && ArrayEdit(title, description)(c).description == c.description
    ensures description != Some("") ==>
              Updated(c, LegacyEditBody(title, description)) == ArrayEdit(title, description)(c)
  {
  }

  class LegacyBoard {
    var cards: seq<Card>
    var activeCard: Option<Card>

    constructor (cards: seq<Card>)
      ensures this.cards == cards && activeCard == None
    {
      this.cards := cards;
      activeCard := None;
    }

    /** Marks the cards with that id with the opposite of `currentStatus`, and the open card if it is one. */
    method HandleToggleCompleted(cardId: Id, currentStatus: bool)
      modifies this
      ensures cards == Patch(old(cards), cardId, CompletedAs(!currentStatus))
      ensures activeCard == if old(activeCard).Some? && old(activeCard).value.id == cardId
                            then Some(old(activeCard).value.(completed := !currentStatus))
                            else old(activeCard)
    {
      var newStatus := !currentStatus;
      cards := Patch(cards, cardId, CompletedAs(newStatus));
      if activeCard.Some? && activeCard.value.id == cardId {
        activeCard := Some(activeCard.value.(completed := newStatus));
      }
    }

    /**
     * An edit of title and description, applied only after the server answered ok: the cards with
     * that id get `ArrayEdit`, the open card, if it is that card, `OpenCardEdit`.
     */
    method HandleUpdateCard(cardId: Id, newTitle: string, newDescription: Option<string>, ok: bool)
      returns (body: CardBody)
      modifies this
      ensures body == LegacyEditBody(newTitle, newDescription)
      ensures !ok ==> cards == old(cards) && activeCard == old(activeCard)
      ensures ok ==> cards == Patch(old(cards), cardId, ArrayEdit(newTitle, newDescription))
      ensures ok ==> activeCard == if old(activeCard).Some? && old(activeCard).value.id == cardId
                                   then Some(OpenCardEdit(newTitle, newDescription)(old(activeCard).value))
                                   else old(activeCard)
    {
      body := LegacyEditBody(newTitle, newDescription);
      if !ok {
        return;
      }
      cards := Patch(cards, cardId, ArrayEdit(newTitle, newDescription));
      if activeCard.Some? && activeCard.value.id == cardId {
        activeCard := Some(OpenCardEdit(newTitle, newDescription)(activeCard.value));
      }
    }

    /** `handleDeleteCard`: the dialog closes when it shows the deleted card. */
    method HandleDeleteCard(cardId: Id)
      modifies this`activeCard
      ensures old(activeCard).Some? && old(activeCard).value.id == cardId ==> activeCard == None
      ensures !(old(activeCard).Some? && old(activeCard).value.id == cardId) ==> activeCard == old(activeCard)
    {
      if activeCard.Some? && activeCard.value.id == cardId {
        activeCard := None;
      }
    }

    /**
     * Drop: nothing over nothing or over itself; otherwise one `arrayMove` over the whole board
     * array, from the dragged card's index to the hovered card's index (-1, the last slot, when
     * the hovered id names no card). The dragged card is one the array holds.
     */
    method HandleDragEnd(activeId: Id, overId: Option<Id>)
      requires 0 <= CardIndex(cards, activeId)
      modifies this`cards
      ensures overId.None? || overId.value == activeId ==> cards == old(cards)
      ensures overId.Some? && overId.value != activeId ==>
                cards == ArrayMove(old(cards), CardIndex(old(cards), activeId), CardIndex(old(cards), overId.value))
    {
      if overId.None? {
        return;
      }
      if activeId != overId.value {
        var oldIndex := CardIndex(cards, activeId);
        var newIndex := CardIndex(cards, overId.value);
        cards := ArrayMove(cards, oldIndex, newIndex);
      }
    }
  }

  /**
   * What the drop does to the array: the dragged card lands on the hovered card's index, or at
   * the end when the hovered id names no card; the other cards keep their relative order, and
   * the array is a permutation of the old one.
   */
  lemma {:induction false} LegacyDropLands(cards: seq<Card>, activeId: Id, overId: Id)
    requires 0 <= CardIndex(cards, activeId) && activeId != overId
    ensures var from, to := CardIndex(cards, activeId), CardIndex(cards, overId);
            var r := ArrayMove(cards, from, to);
            var k := if to < 0 then |cards| - 1 else to;
            && r[k] == cards[from]
            && Without(r, k) == Without(cards, from)
            && multiset(r) == multiset(cards)
  {
    var from, to := CardIndex(cards, activeId), CardIndex(cards, overId);
    assert Target(|cards|, to) == if to < 0 then |cards| - 1 else to;
    ArrayMovePermutes(cards, from, to);
  }
}
