/**
 * The board's drag-and-drop hook. It holds the card objects of the whole board in one array
 * (every column's cards interleaved), the board's columns, the card shown in the drag overlay,
 * and the requests it sent to the server. Card objects are shared between successive arrays,
 * as in the browser: a write to `listId` through one array is seen through every other holder of
 * that object, the overlay card included.
 *
 * The value-level functions (`CardView`, `DragOverResult`, `DropCards`, ...) are the
 * specification the hook's methods are proved against.
 */
module BoardDragAndDrop {
  import opened Wrappers
  import opened Entities
  import opened Sortable

  /** A card object of the board array; the engine reads its `_id` and writes its `listId`. */
  class CardObj {
    const id: Id
    var listId: Id

    constructor (id: Id, listId: Id)
      ensures this.id == id && this.listId == listId
    {
      this.id := id;
      this.listId := listId;
    }
  }

  /** What the engine observes of one card object. */
  datatype CardView = CardView(id: Id, listId: Id)

  /** The dragged element: its id, and whether its drag data says it is a column. */
  datatype Active = Active(id: Id, isList: bool)

  /**
   * The element under the pointer. `belowHovered` abstracts the geometry test of the drag-over
   * handler: the dragged rectangle's top is strictly below the hovered element's bottom.
   */
  datatype Over = Over(id: Id, belowHovered: bool)

  /** The requests a drop sends: PUT /cards/{id} with a listId, PUT /cards/reorder, PUT /lists/reorder. */
  datatype Request =
    | SetCardList(cardId: Id, listId: Id)
    | ReorderCards(orderedIds: seq<Id>)
    | ReorderLists(orderedIds: seq<Id>)

  function View(cards: seq<CardObj>): (v: seq<CardView>)
    reads cards
    ensures |v| == |cards|
    ensures forall i :: 0 <= i < |cards| ==> v[i] == CardView(cards[i].id, cards[i].listId)
  {
    seq(|cards|, i reads cards requires 0 <= i < |cards| => CardView(cards[i].id, cards[i].listId))
  }

  /** `cards.findIndex(c => c._id === id)`: the first card with that id, or -1 when there is none. */
  function IndexOf(v: seq<CardView>, id: Id): (i: int)
    ensures -1 <= i < |v|
    ensures 0 <= i ==> v[i].id == id
    ensures forall j :: 0 <= j < |v| && (i < 0 || j < i) ==> v[j].id != id
  {
    if |v| == 0 then -1
    else if v[0].id == id then 0
    else
      var k := IndexOf(v[1..], id);
      if k < 0 then -1 else k + 1
  }

  /** `lists.findIndex(l => l._id === id)`. */
  function ListIndex(lists: seq<List>, id: Id): (i: int)
    ensures -1 <= i < |lists|
    ensures 0 <= i ==> lists[i].id == id
    ensures forall j :: 0 <= j < |lists| && (i < 0 || j < i) ==> lists[j].id != id
  {
    if |lists| == 0 then -1
    else if lists[0].id == id then 0
    else
      var k := ListIndex(lists[1..], id);
      if k < 0 then -1 else k + 1
  }

  /** `lists.map(l => l._id)`. */
  function ListIds(lists: seq<List>): (ids: seq<Id>)
    ensures |ids| == |lists|
    ensures forall i :: 0 <= i < |lists| ==> ids[i] == lists[i].id
  {
    seq(|lists|, i requires 0 <= i < |lists| => lists[i].id)
  }

  /** `cards.filter(c => c.listId === listId).map(c => c._id)`. */
  function IdsInList(v: seq<CardView>, listId: Id): seq<Id>
  {
    if |v| == 0 then []
    else (if v[0].listId == listId then [v[0].id] else []) + IdsInList(v[1..], listId)
  }

  lemma {:induction false} IdsInListMember(v: seq<CardView>, listId: Id, x: Id)
    ensures x in IdsInList(v, listId) <==> exists i :: 0 <= i < |v| && v[i] == CardView(x, listId)
  {
    if |v| > 0 {
      IdsInListMember(v[1..], listId, x);
      if exists i :: 0 <= i < |v| && v[i] == CardView(x, listId) {
        var i :| 0 <= i < |v| && v[i] == CardView(x, listId);
        if i > 0 {
          assert v[1..][i - 1] == CardView(x, listId);
        }
      }
      if exists i :: 0 <= i < |v[1..]| && v[1..][i] == CardView(x, listId) {
        var i :| 0 <= i < |v[1..]| && v[1..][i] == CardView(x, listId);
        assert v[i + 1] == CardView(x, listId);
      }
    }
  }

  /** The ids of the cards, in array order. */
  function Ids(v: seq<CardView>): (ids: seq<Id>)
    ensures |ids| == |v|
    ensures forall i :: 0 <= i < |v| ==> ids[i] == v[i].id
  {
    seq(|v|, i requires 0 <= i < |v| => v[i].id)
  }

  // ---------------------------------------------------------------- drag over

  /** The index handed to `arrayMove` when a card of another column is hovered. */
  function HoverIndex(overIndex: nat, belowHovered: bool): nat
  {
    overIndex + if belowHovered then 1 else 0
  }

  /** Step A of drag-over: the hovered element is a card of a different column. */
  function OverCard(v: seq<CardView>, activeId: Id, overId: Id, belowHovered: bool): (r: seq<CardView>)
    ensures |r| == |v|
  {
    var ai := IndexOf(v, activeId);
    var oi := IndexOf(v, overId);
    if ai < 0 || oi < 0 || v[ai].listId == v[oi].listId then v
    else ArrayMove(v[ai := v[ai].(listId := v[oi].listId)], ai, HoverIndex(oi, belowHovered))
  }

  /** Step B of drag-over: the hovered element is a column. */
  function OverColumn(v: seq<CardView>, lists: seq<List>, activeId: Id, overId: Id): (r: seq<CardView>)
    ensures Ids(r) == Ids(v)
  {
    var li := ListIndex(lists, overId);
    var ai := IndexOf(v, activeId);
    if li < 0 || ai < 0 then v else v[ai := v[ai].(listId := lists[li].id)]
  }

  /** Step A keeps the dragged card on the board. */
  lemma OverCardKeepsCard(v: seq<CardView>, activeId: Id, overId: Id, belowHovered: bool)
    requires 0 <= IndexOf(v, activeId)
    ensures 0 <= IndexOf(OverCard(v, activeId, overId, belowHovered), activeId)
  {
    var ai, oi := IndexOf(v, activeId), IndexOf(v, overId);
    if 0 <= oi && v[ai].listId != v[oi].listId {
      var r := OverCard(v, activeId, overId, belowHovered);
      assert r[Target(|v|, HoverIndex(oi, belowHovered))].id == activeId;
    }
  }

  /** The whole effect of one drag-over event on the board array. */
  function DragOverResult(v: seq<CardView>, lists: seq<List>, active: Active, over: Option<Over>): seq<CardView>
  {
    if over.None? || active.id == over.value.id || IndexOf(v, active.id) < 0 then v
    else OverColumn(OverCard(v, active.id, over.value.id, over.value.belowHovered), lists, active.id, over.value.id)
  }

  /** Without a target, over itself, or when the dragged element is not a card, nothing moves. */
  lemma DragOverIgnores(v: seq<CardView>, lists: seq<List>, active: Active, over: Option<Over>)
    requires over.None? || active.id == over.value.id || IndexOf(v, active.id) < 0
    ensures DragOverResult(v, lists, active, over) == v
  {
  }

  /** Hovering a card of the same column (that is not also a column id) is a no-op. */
  lemma DragOverSameColumn(v: seq<CardView>, lists: seq<List>, active: Active, over: Over)
    requires 0 <= IndexOf(v, active.id) && 0 <= IndexOf(v, over.id)
    requires v[IndexOf(v, active.id)].listId == v[IndexOf(v, over.id)].listId
    requires ListIndex(lists, over.id) < 0
    ensures DragOverResult(v, lists, active, Some(over)) == v
  {
  }

  /**
   * Hovering a card of another column: the dragged card takes that column's id and is moved to
   * the hovered card's index, or one further exactly when it is below the hovered card; every
   * other card keeps its column and its order relative to the others.
   */
  lemma DragOverOtherColumn(v: seq<CardView>, lists: seq<List>, active: Active, over: Over)
    requires active.id != over.id
    requires 0 <= IndexOf(v, active.id) && 0 <= IndexOf(v, over.id)
    requires v[IndexOf(v, active.id)].listId != v[IndexOf(v, over.id)].listId
    requires ListIndex(lists, over.id) < 0
    ensures var ai, oi := IndexOf(v, active.id), IndexOf(v, over.id);
            var r := DragOverResult(v, lists, active, Some(over));
            var k := Target(|v|, HoverIndex(oi, over.belowHovered));
            && |r| == |v|
            && r[k] == CardView(active.id, v[oi].listId)
            && Without(r, k) == Without(v, ai)
            && k == (if over.belowHovered && oi < |v| - 1 then oi + 1 else oi)
  {
    var ai, oi := IndexOf(v, active.id), IndexOf(v, over.id);
    var u := v[ai := v[ai].(listId := v[oi].listId)];
    assert Without(u, ai) == Without(v, ai);
  }

  /**
   * Where the dragged card lands next to the hovered card in the board array. When the dragged
   * card comes later in the array it lands right before the hovered card, or right after it when
   * below. When it comes earlier it lands right after the hovered card, and when below one slot
   * further still, behind the card that followed the hovered one (unless that was the last).
   */
  lemma {:induction false} HoverLanding<T>(s: seq<T>, ai: nat, oi: nat, below: bool)
    requires ai < |s| && oi < |s| && ai != oi
    ensures var r := ArrayMove(s, ai, HoverIndex(oi, below));
            if oi < ai then
              if below then r[oi] == s[oi] && r[oi + 1] == s[ai]
              else r[oi] == s[ai] && r[oi + 1] == s[oi]
            else if !below || oi == |s| - 1 then r[oi - 1] == s[oi] && r[oi] == s[ai]
            else r[oi - 1] == s[oi] && r[oi] == s[oi + 1] && r[oi + 1] == s[ai]
  {
    var to := HoverIndex(oi, below);
    if oi < ai {
      ArrayMoveAt(s, ai, to, oi);
      ArrayMoveAt(s, ai, to, oi + 1);
    } else if !below || oi == |s| - 1 {
      ArrayMoveAt(s, ai, to, oi - 1);
      ArrayMoveAt(s, ai, to, oi);
    } else {
      ArrayMoveAt(s, ai, to, oi - 1);
      ArrayMoveAt(s, ai, to, oi);
      ArrayMoveAt(s, ai, to, oi + 1);
    }
  }

  /** Hovering a column id: the dragged card takes that column, and the array order is kept. */
  lemma DragOverColumn(v: seq<CardView>, lists: seq<List>, active: Active, over: Over)
    requires active.id != over.id
    requires 0 <= IndexOf(v, active.id) && IndexOf(v, over.id) < 0
    requires 0 <= ListIndex(lists, over.id)
    ensures var ai := IndexOf(v, active.id);
            var r := DragOverResult(v, lists, active, Some(over));
            && Ids(r) == Ids(v)
            && r[ai].listId == over.id
            && forall j :: 0 <= j < |v| && j != ai ==> r[j] == v[j]
  {
    var r := DragOverResult(v, lists, active, Some(over));
    assert Ids(r) == Ids(v);
  }

  // ---------------------------------------------------------------- drop

  /** `finalListId`: the hovered column, else the hovered card's column, else the card's own column. */
  function DropListId(v: seq<CardView>, lists: seq<List>, activeId: Id, overId: Id): Id
    requires 0 <= IndexOf(v, activeId)
  {
    var oc := IndexOf(v, overId);
    var ol := ListIndex(lists, overId);
    if 0 <= ol then lists[ol].id
    else if 0 <= oc then v[oc].listId
    else v[IndexOf(v, activeId)].listId
  }

  /** The board array before the column reassignment: moved onto the hovered card when there is one. */
  function DropMoved(v: seq<CardView>, activeId: Id, overId: Id): (m: seq<CardView>)
    requires 0 <= IndexOf(v, activeId)
    ensures |m| == |v|
  {
    var ai := IndexOf(v, activeId);
    var oi := IndexOf(v, overId);
    if 0 <= oi then ArrayMove(v, ai, oi) else v
  }

  /** `finalCards`: the moved array with the dropped card given `finalListId`. */
  function DropCards(v: seq<CardView>, lists: seq<List>, activeId: Id, overId: Id): (r: seq<CardView>)
    requires 0 <= IndexOf(v, activeId)
    ensures |r| == |v|
  {
    var m := DropMoved(v, activeId, overId);
    var k := IndexOf(m, activeId);
    if 0 <= k then m[k := m[k].(listId := DropListId(v, lists, activeId, overId))] else m
  }

  /** The `orderedIds` of the card reorder request. */
  function DropPayload(v: seq<CardView>, lists: seq<List>, activeId: Id, overId: Id): seq<Id>
    requires 0 <= IndexOf(v, activeId)
  {
    IdsInList(DropCards(v, lists, activeId, overId), DropListId(v, lists, activeId, overId))
  }

  /** The columns after dropping a column. */
  function DropLists(lists: seq<List>, activeId: Id, overId: Id): (r: seq<List>)
    requires 0 <= ListIndex(lists, activeId)
    ensures multiset(r) == multiset(lists)
  {
    if activeId == overId then lists
    else
      ArrayMovePermutes(lists, ListIndex(lists, activeId), ListIndex(lists, overId));
      ArrayMove(lists, ListIndex(lists, activeId), ListIndex(lists, overId))
  }

  /**
   * Dropping a column: over itself nothing changes; otherwise the dragged column moves to the
   * hovered column's index (to the end when the target is not a column), and the ids sent are a
   * permutation of the board's column ids.
   */
  lemma DropListsMoves(lists: seq<List>, activeId: Id, overId: Id)
    requires 0 <= ListIndex(lists, activeId)
    ensures activeId == overId ==> DropLists(lists, activeId, overId) == lists
    ensures activeId != overId ==>
              var r := DropLists(lists, activeId, overId);
              var oi := ListIndex(lists, overId);
              && r[if 0 <= oi then oi else |lists| - 1] == lists[ListIndex(lists, activeId)]
              && multiset(ListIds(r)) == multiset(ListIds(lists))
  {
    if activeId != overId {
      var from, to := ListIndex(lists, activeId), ListIndex(lists, overId);
      var r := DropLists(lists, activeId, overId);
      forall t | 0 <= t < |lists| ensures ListIds(r)[t] == ArrayMove(ListIds(lists), from, to)[t] {
        ArrayMoveAt(lists, from, to, t);
        ArrayMoveAt(ListIds(lists), from, to, t);
      }
      assert ListIds(r) == ArrayMove(ListIds(lists), from, to);
      ArrayMovePermutes(ListIds(lists), from, to);
    }
  }

  /** Card ids are unique on the board (they are database ids). */
  predicate UniqueIds(v: seq<CardView>)
  {
    forall i, j :: 0 <= i < j < |v| ==> v[i].id != v[j].id
  }

  /**
   * Dropping a card: the moved array is `arrayMove` onto the hovered card when one is hovered;
   * the dropped card sits at the hovered card's index (or its own when no card is hovered) with
   * `finalListId`, and every other entry is the moved array's.
   */
  lemma DropCardsShape(v: seq<CardView>, lists: seq<List>, activeId: Id, overId: Id)
    requires UniqueIds(v) && 0 <= IndexOf(v, activeId)
    ensures var ai, oi := IndexOf(v, activeId), IndexOf(v, overId);
            var m := DropMoved(v, activeId, overId);
            var r := DropCards(v, lists, activeId, overId);
            var k := if 0 <= oi then oi else ai;
            && |r| == |v|
            && (0 <= oi ==> m == ArrayMove(v, ai, oi))
            && (oi < 0 ==> m == v)
            && m[k] == v[ai]
            && r[k] == CardView(activeId, DropListId(v, lists, activeId, overId))
            && forall j :: 0 <= j < |v| && j != k ==> r[j] == m[j]
  {
    var ai, oi := IndexOf(v, activeId), IndexOf(v, overId);
    var m := DropMoved(v, activeId, overId);
    var k := if 0 <= oi then oi else ai;
    assert m[k] == v[ai];
    forall j | 0 <= j < k ensures m[j].id != activeId {
      if 0 <= oi {
        ArrayMoveAt(v, ai, oi, j);
        ArrayMoveAt(v, ai, oi, k);
        MovedFromInjective(ai, oi, j, k);
      }
    }
    IndexOfFirst(m, activeId, k);
  }

  /** With no card of that id before index k, `IndexOf` finds k. */
  lemma IndexOfFirst(v: seq<CardView>, id: Id, k: nat)
    requires k < |v| && v[k].id == id
    requires forall j :: 0 <= j < k ==> v[j].id != id
    ensures IndexOf(v, id) == k
  {
  }

  /**
   * The card reorder request names exactly the cards of `finalCards` in `finalListId`, in array
   * order, and the dropped card is among them.
   */
  lemma DropPayloadNamesCard(v: seq<CardView>, lists: seq<List>, activeId: Id, overId: Id)
    requires UniqueIds(v) && 0 <= IndexOf(v, activeId)
    ensures var r := DropCards(v, lists, activeId, overId);
            var l := DropListId(v, lists, activeId, overId);
            && DropPayload(v, lists, activeId, overId) == IdsInList(r, l)
            && activeId in DropPayload(v, lists, activeId, overId)
            && forall x :: x in DropPayload(v, lists, activeId, overId) <==>
                 exists i :: 0 <= i < |r| && r[i] == CardView(x, l)
  {
    var r := DropCards(v, lists, activeId, overId);
    var l := DropListId(v, lists, activeId, overId);
    DropCardsShape(v, lists, activeId, overId);
    forall x {
      IdsInListMember(r, l, x);
    }
    var oi := IndexOf(v, overId);
    var k := if 0 <= oi then oi else IndexOf(v, activeId);
    assert r[k] == CardView(activeId, l);
  }

  // ---------------------------------------------------------------- the hook

  /** The hook's state: the board array, the columns, the overlay card and the requests sent. */
  class DragHook {
    var cards: seq<CardObj>
    var lists: seq<List>
    var activeDragCard: CardObj?
    var sent: seq<Request>

    /** No card object appears twice in the board array. */
    ghost predicate Valid()
      reads this
    {
      Distinct(cards)
    }

    constructor (cards: seq<CardObj>, lists: seq<List>)
      requires forall i, j :: 0 <= i < j < |cards| ==> cards[i] != cards[j]
      ensures Valid()
      ensures this.cards == cards && this.lists == lists && activeDragCard == null && sent == []
    {
      this.cards := cards;
      this.lists := lists;
      activeDragCard := null;
      sent := [];
    }

    /** Drag start: the overlay shows the card with the dragged id; a column leaves it as it was. */
    method HandleDragStart(activeId: Id)
      modifies this`activeDragCard
      ensures var i := IndexOf(View(cards), activeId);
              activeDragCard == if 0 <= i then cards[i] else old(activeDragCard)
    {
      var i := IndexOf(View(cards), activeId);
      if 0 <= i {
        activeDragCard := cards[i];
      }
    }

    /**
     * Drag over: the board array becomes `DragOverResult` of the old one. The only objects
     * written carry the dragged id (their `listId`), so every holder of such an object, the
     * overlay included, sees the new column.
     */
    method HandleDragOver(active: Active, over: Option<Over>)
      requires Valid()
      modifies this`cards, cards
      ensures Valid()
      ensures View(cards) == DragOverResult(old(View(cards)), lists, active, over)
      ensures multiset(cards) == multiset(old(cards))
      ensures forall c :: c in old(cards) && c.id != active.id ==> c.listId == old(c.listId)
    {
      if over.None? || active.id == over.value.id {
        return;
      }
      var ai := IndexOf(View(cards), active.id);
      if ai < 0 {
        return;
      }
      OverCardStep(active.id, over.value.id, over.value.belowHovered);
      OverCardKeepsCard(old(View(cards)), active.id, over.value.id, over.value.belowHovered);
      assert cards[IndexOf(View(cards), active.id)] in old(cards);
      OverColumnStep(active.id, over.value.id);
    }

    /** Step A of drag-over, when the hovered element is a card of another column. */
    method OverCardStep(activeId: Id, overId: Id, belowHovered: bool)
      requires Valid() && 0 <= IndexOf(View(cards), activeId)
      modifies this`cards, cards
      ensures Valid()
      ensures View(cards) == OverCard(old(View(cards)), activeId, overId, belowHovered)
      ensures multiset(cards) == multiset(old(cards))
      ensures forall c :: c in cards ==> c in old(cards)
      ensures forall c :: c in old(cards) && c.id != activeId ==> c.listId == old(c.listId)
    {
      var ai := IndexOf(View(cards), activeId);
      var oi := IndexOf(View(cards), overId);
      if 0 <= oi && cards[ai].listId != cards[oi].listId {
        MoveIntoColumnOf(ai, oi, belowHovered);
        assert forall c :: c in cards ==> c in multiset(old(cards));
      }
    }

    /** Step B of drag-over, when the hovered element is a column. */
    method OverColumnStep(activeId: Id, overId: Id)
      requires Valid() && 0 <= IndexOf(View(cards), activeId)
      modifies cards[IndexOf(View(cards), activeId)]
      ensures View(cards) == OverColumn(old(View(cards)), lists, activeId, overId)
      ensures forall c :: c in cards && c.id != activeId ==> c.listId == old(c.listId)
    {
      var li := ListIndex(lists, overId);
      if 0 <= li {
        var activeIndex := IndexOf(View(cards), activeId);
        AssignColumn(activeIndex, lists[li].id);
      }
    }

    /** Step A: the dragged card takes the hovered card's column and is moved next to it. */
    method MoveIntoColumnOf(ai: nat, oi: nat, belowHovered: bool)
      requires Valid() && ai < |cards| && oi < |cards|
      modifies this`cards, cards[ai]
      ensures Valid()
      ensures var v := old(View(cards));
              View(cards) == ArrayMove(v[ai := v[ai].(listId := v[oi].listId)], ai, HoverIndex(oi, belowHovered))
      ensures multiset(cards) == multiset(old(cards))
    {
      ghost var v := View(cards);
      var newIndex := HoverIndex(oi, belowHovered);
      var newCards := cards;
      newCards[ai].listId := cards[oi].listId;
      assert View(newCards) == v[ai := v[ai].(listId := v[oi].listId)];
      MovedView(newCards, ai, newIndex);
      ArrayMovePermutes(newCards, ai, newIndex);
      DistinctMoved(newCards, ai, newIndex);
      cards := ArrayMove(newCards, ai, newIndex);
    }

    /** Step B: the dragged card at index i takes the hovered column's id, in place. */
    method AssignColumn(i: nat, listId: Id)
      requires Valid() && i < |cards|
      modifies cards[i]
      ensures var v := old(View(cards));
              View(cards) == v[i := v[i].(listId := listId)]
    {
      ghost var v := View(cards);
      if cards[i].listId != listId {
        cards[i].listId := listId;
      }
    }

    /**
     * Drop. The overlay is cleared. Dropping a column reorders the columns and sends their ids;
     * dropping a card writes `DropCards` (the dropped card as a fresh copy: no old object is
     * written) and sends the column reassignment and the reorder of `finalListId`'s cards.
     */
    method HandleDragEnd(active: Active, over: Option<Over>)
      requires Valid()
      requires active.isList ==> 0 <= ListIndex(lists, active.id)
      modifies this
      ensures Valid() && activeDragCard == null
      ensures forall c :: c in old(cards) ==> c.listId == old(c.listId)
      ensures forall c :: c in cards ==> c in old(cards) || fresh(c)
      ensures over.None? ==> cards == old(cards) && lists == old(lists) && sent == old(sent)
      ensures over.Some? && active.isList ==>
                && cards == old(cards)
                && lists == DropLists(old(lists), active.id, over.value.id)
                && sent == old(sent) + if active.id == over.value.id then [] else [ReorderLists(ListIds(lists))]
      ensures over.Some? && !active.isList && IndexOf(old(View(cards)), active.id) < 0 ==>
                cards == old(cards) && lists == old(lists) && sent == old(sent)
      ensures over.Some? && !active.isList && 0 <= IndexOf(old(View(cards)), active.id) ==>
                var v, o := old(View(cards)), over.value.id;
                && lists == old(lists)
                && View(cards) == DropCards(v, lists, active.id, o)
                && sent == old(sent) + [SetCardList(active.id, DropListId(v, lists, active.id, o)),
                                        ReorderCards(DropPayload(v, lists, active.id, o))]
    {
      activeDragCard := null;
      if over.None? {
        return;
      }
      if active.isList {
        DropColumn(active.id, over.value.id);
      } else {
        DropCard(active.id, over.value.id);
      }
    }

    /** The column branch of the drop handler. */
    method DropColumn(activeId: Id, overId: Id)
      requires 0 <= ListIndex(lists, activeId)
      modifies this`lists, this`sent
      ensures lists == DropLists(old(lists), activeId, overId)
      ensures sent == old(sent) + if activeId == overId then [] else [ReorderLists(ListIds(lists))]
    {
      if activeId == overId {
        return;
      }
      var oldIndex := ListIndex(lists, activeId);
      var newIndex := ListIndex(lists, overId);
      var newLists := ArrayMove(lists, oldIndex, newIndex);
      lists := newLists;
      sent := sent + [ReorderLists(ListIds(newLists))];
    }

    /** The card branch of the drop handler. */
    method DropCard(activeId: Id, overId: Id)
      requires Valid()
      modifies this`cards, this`sent
      ensures Valid()
      ensures forall c :: c in cards ==> c in old(cards) || fresh(c)
      ensures IndexOf(old(View(cards)), activeId) < 0 ==> cards == old(cards) && sent == old(sent)
      ensures 0 <= IndexOf(old(View(cards)), activeId) ==>
                var v := old(View(cards));
                && View(cards) == DropCards(v, lists, activeId, overId)
                && sent == old(sent) + [SetCardList(activeId, DropListId(v, lists, activeId, overId)),
                                        ReorderCards(DropPayload(v, lists, activeId, overId))]
    {
      var ai := IndexOf(View(cards), activeId);
      if ai < 0 {
        return;
      }
      var finalCards, finalListId := Dropped(cards, lists, activeId, overId);
      cards := finalCards;
      sent := sent + [SetCardList(activeId, finalListId), ReorderCards(IdsInList(View(finalCards), finalListId))];
    }
  }

  /** `finalListId` and `finalCards` of a card drop, the dropped card as a fresh copy. */
  method Dropped(cards: seq<CardObj>, lists: seq<List>, activeId: Id, overId: Id)
    returns (finalCards: seq<CardObj>, finalListId: Id)
    requires Distinct(cards) && 0 <= IndexOf(View(cards), activeId)
    ensures Distinct(finalCards)
    ensures forall c :: c in finalCards ==> c in cards || fresh(c)
    ensures finalListId == DropListId(View(cards), lists, activeId, overId)
    ensures View(finalCards) == DropCards(View(cards), lists, activeId, overId)
  {
    ghost var v := View(cards);
    var ai := IndexOf(View(cards), activeId);
    var oc := IndexOf(View(cards), overId);
    finalListId := FinalListId(cards, lists, activeId, overId);
    finalCards := MovedOnto(cards, ai, oc);
    assert View(finalCards) == DropMoved(v, activeId, overId);
    var k := IndexOf(View(finalCards), activeId);
    if 0 <= k {
      finalCards := WithCopy(finalCards, k, finalListId);
    }
  }

  /** `finalListId`: the card's column, overwritten by the hovered card's, overwritten by the hovered column. */
  method FinalListId(cards: seq<CardObj>, lists: seq<List>, activeId: Id, overId: Id) returns (finalListId: Id)
    requires 0 <= IndexOf(View(cards), activeId)
    ensures finalListId == DropListId(View(cards), lists, activeId, overId)
  {
    var ai := IndexOf(View(cards), activeId);
    finalListId := cards[ai].listId;
    var oc := IndexOf(View(cards), overId);
    var ol := ListIndex(lists, overId);
    if 0 <= oc {
      finalListId := cards[oc].listId;
    }
    if 0 <= ol {
      finalListId := lists[ol].id;
    }
  }

  /** No object appears twice in the array. */
  predicate Distinct(s: seq<CardObj>)
  {
    forall i, j :: 0 <= i < j < |s| ==> s[i] != s[j]
  }

  /** `arrayMove(cards, ai, oc)` when a card is hovered, the array itself otherwise. */
  method MovedOnto(cards: seq<CardObj>, ai: nat, oc: int) returns (r: seq<CardObj>)
    requires Distinct(cards) && ai < |cards| && oc < |cards|
    ensures Distinct(r) && multiset(r) == multiset(cards)
    ensures forall c :: c in r ==> c in cards
    ensures View(r) == if 0 <= oc then ArrayMove(View(cards), ai, oc) else View(cards)
  {
    r := cards;
    if 0 <= oc {
      MovedView(cards, ai, oc);
      ArrayMovePermutes(cards, ai, oc);
      DistinctMoved(cards, ai, oc);
      r := ArrayMove(cards, ai, oc);
      forall c | c in r ensures c in cards {
        assert c in multiset(r);
      }
    }
  }

  /** The array with its entry at k replaced by a fresh copy carrying `listId`. */
  method WithCopy(cards: seq<CardObj>, k: nat, listId: Id) returns (r: seq<CardObj>)
    requires Distinct(cards) && k < |cards|
    ensures Distinct(r) && |r| == |cards| && fresh(r[k])
    ensures forall j :: 0 <= j < |r| && j != k ==> r[j] == cards[j]
    ensures forall c :: c in r ==> c in cards || c == r[k]
    ensures View(r) == View(cards)[k := View(cards)[k].(listId := listId)]
  {
    var copy := new CardObj(cards[k].id, listId);
    r := cards[k := copy];
  }

  /** Viewing commutes with `arrayMove`. */
  lemma MovedView(cards: seq<CardObj>, from: nat, to: int)
    requires from < |cards| && -|cards| <= to
    ensures View(ArrayMove(cards, from, to)) == ArrayMove(View(cards), from, to)
  {
    var a, b := View(ArrayMove(cards, from, to)), ArrayMove(View(cards), from, to);
    forall t | 0 <= t < |cards| ensures a[t] == b[t] {
      ArrayMoveAt(cards, from, to, t);
      ArrayMoveAt(View(cards), from, to, t);
    }
  }

  /** `arrayMove` keeps the objects of an array pairwise distinct. */
  lemma DistinctMoved(cards: seq<CardObj>, from: nat, to: int)
    requires from < |cards| && -|cards| <= to
    requires Distinct(cards)
    ensures Distinct(ArrayMove(cards, from, to))
  {
    var r := ArrayMove(cards, from, to);
    var k := Target(|cards|, to);
    forall i, j | 0 <= i < j < |r| ensures r[i] != r[j] {
      ArrayMoveAt(cards, from, to, i);
      ArrayMoveAt(cards, from, to, j);
      MovedFromInjective(from, k, i, j);
    }
  }

  lemma MovedFromInjective(from: nat, k: nat, i: nat, j: nat)
    requires i != j
    ensures MovedFrom(from, k, i) != MovedFrom(from, k, j)
  {
  }
}
