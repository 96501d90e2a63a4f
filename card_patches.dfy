/**
 * The browser's updates of its card array: "change the cards with this id, leave every other
 * card alone" (`cards.map(c => c._id === id ? {...c, ...} : c)`), the column filter and the
 * index lookup. Both board screens share them.
 */
module CardPatches {
  import opened Wrappers
  import opened Entities

  /** `cards.map(c => c._id === id ? f(c) : c)`. */
  function Patch(cards: seq<Card>, id: Id, f: Card -> Card): (r: seq<Card>)
    ensures |r| == |cards|
    ensures forall i :: 0 <= i < |cards| ==> r[i] == if cards[i].id == id then f(cards[i]) else cards[i]
  {
    if |cards| == 0 then []
    else [if cards[0].id == id then f(cards[0]) else cards[0]] + Patch(cards[1..], id, f)
  }

  /** `{...card, completed: status}`. */
  function CompletedAs(status: bool): Card -> Card
  {
    (c: Card) => c.(completed := status)
  }

  /**
   * Setting the status changes only `completed`, and only on the cards with that id; setting the
   * earlier status again gives back the array (the status was the same on all of them).
   */
  lemma ToggleOnlyTarget(cards: seq<Card>, id: Id, status: bool)
    ensures var r := Patch(cards, id, CompletedAs(status));
            && |r| == |cards|
            && (forall i :: 0 <= i < |cards| && cards[i].id != id ==> r[i] == cards[i])
            && (forall i :: 0 <= i < |cards| && cards[i].id == id ==>
                  r[i].completed == status && r[i].(completed := cards[i].completed) == cards[i])
  {
  }

  lemma {:induction false} ToggleBack(cards: seq<Card>, id: Id, status: bool)
    requires forall i :: 0 <= i < |cards| && cards[i].id == id ==> cards[i].completed == status
    ensures Patch(Patch(cards, id, CompletedAs(!status)), id, CompletedAs(status)) == cards
  {
    var r := Patch(Patch(cards, id, CompletedAs(!status)), id, CompletedAs(status));
    forall i | 0 <= i < |cards| ensures r[i] == cards[i] {
      if cards[i].id == id {
        assert r[i] == cards[i].(completed := !status).(completed := status);
      }
    }
  }

  /** `cards.findIndex(c => c._id === id)`: the first card with that id, or -1. */
  function CardIndex(cards: seq<Card>, id: Id): (i: int)
    ensures -1 <= i < |cards|
    ensures 0 <= i ==> cards[i].id == id
    ensures forall j :: 0 <= j < |cards| && (i < 0 || j < i) ==> cards[j].id != id
  {
    if |cards| == 0 then -1
    else if cards[0].id == id then 0
    else
      var k := CardIndex(cards[1..], id);
      if k < 0 then -1 else k + 1
  }

  /** `cards.filter(c => c.listId === listId)`: what one column shows. */
  function ColumnCards(cards: seq<Card>, listId: Id): (r: seq<Card>)
    ensures |r| <= |cards|
    ensures forall c :: c in r ==> c in cards && c.listId == listId
  {
    if |cards| == 0 then []
    else (if cards[0].listId == listId then [cards[0]] else []) + ColumnCards(cards[1..], listId)
  }

  /** Every card of the column is shown there. */
  lemma {:induction false} ColumnCardsComplete(cards: seq<Card>, listId: Id, c: Card)
    requires c in cards && c.listId == listId
    ensures c in ColumnCards(cards, listId)
  {
    if cards[0] != c {
      assert c in cards[1..];
      ColumnCardsComplete(cards[1..], listId, c);
    }
  }

  /** The filter keeps array order: it distributes over concatenation. */
  lemma {:induction false} ColumnCardsAppend(a: seq<Card>, b: seq<Card>, listId: Id)
    ensures ColumnCards(a + b, listId) == ColumnCards(a, listId) + ColumnCards(b, listId)
  {
    if |a| > 0 {
      assert (a + b)[1..] == a[1..] + b;
      ColumnCardsAppend(a[1..], b, listId);
    } else {
      assert a + b == b;
    }
  }

  /** A card shows in exactly one column: the column of its own `listId`. */
  lemma ColumnOfCard(cards: seq<Card>, c: Card, listId: Id)
    requires c in cards
    ensures c in ColumnCards(cards, listId) <==> c.listId == listId
  {
    if c.listId == listId {
      ColumnCardsComplete(cards, listId, c);
    }
  }
}
