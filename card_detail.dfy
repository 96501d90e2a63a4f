/**
 * The card detail dialog: local copies of the card's title, description, labels and checklist,
 * the label and checklist edits, and the `onUpdate` calls it makes to save them.
 */
module CardDetail {
  import opened Wrappers
  import opened Entities

  // ---------------------------------------------------------------- labels

  /** `labels.some(l => l.color === color)`. */
  predicate HasColor(labels: seq<Label>, color: string)
  {
    exists i :: 0 <= i < |labels| && labels[i].color == color
  }

  /** `labels.filter(l => l.color !== color)`. */
  function WithoutColor(labels: seq<Label>, color: string): (r: seq<Label>)
    ensures |r| <= |labels|
    ensures forall i :: 0 <= i < |r| ==> r[i] in labels && r[i].color != color
  {
    if |labels| == 0 then []
    else (if labels[0].color != color then [labels[0]] else []) + WithoutColor(labels[1..], color)
  }

  /** The filter keeps every label of another colour, and is the identity when no label has the colour. */
  lemma {:induction false} WithoutColorKeeps(labels: seq<Label>, color: string)
    ensures forall l :: l in labels && l.color != color ==> l in WithoutColor(labels, color)
    ensures !HasColor(labels, color) ==> WithoutColor(labels, color) == labels
  {
    if |labels| > 0 {
      WithoutColorKeeps(labels[1..], color);
      if !HasColor(labels, color) {
        assert !HasColor(labels[1..], color) by {
          forall i | 0 <= i < |labels[1..]| ensures labels[1..][i].color != color {
            assert labels[1..][i] == labels[i + 1];
          }
        }
        assert labels == [labels[0]] + labels[1..];
      }
    }
  }

  lemma {:induction false} WithoutColorAppend(a: seq<Label>, b: seq<Label>, color: string)
    ensures WithoutColor(a + b, color) == WithoutColor(a, color) + WithoutColor(b, color)
  {
    if |a| > 0 {
      assert (a + b)[0] == a[0] && (a + b)[1..] == a[1..] + b;
      WithoutColorAppend(a[1..], b, color);
      var h := if a[0].color != color then [a[0]] else [];
      assert WithoutColor(a + b, color) == h + WithoutColor(a[1..] + b, color);
      assert WithoutColor(a, color) == h + WithoutColor(a[1..], color);
    } else {
      assert a + b == b;
    }
  }

  /** `toggleLabel`: drop every label of that colour if there is one, else append a label with no text. */
  function ToggleLabel(labels: seq<Label>, color: string): (r: seq<Label>)
  {
    if HasColor(labels, color) then WithoutColor(labels, color) else labels + [Label(color, "")]
  }

  /**
   * Toggling flips whether the colour is present, and labels of other colours stay: removal keeps
   * all of them, insertion appends one label of that colour with no text after them.
   */
  lemma ToggleLabelFlips(labels: seq<Label>, color: string)
    ensures HasColor(ToggleLabel(labels, color), color) <==> !HasColor(labels, color)
    ensures forall l :: l in labels && l.color != color ==> l in ToggleLabel(labels, color)
    ensures HasColor(labels, color) ==>
              forall l :: l in ToggleLabel(labels, color) ==> l in labels && l.color != color
    ensures !HasColor(labels, color) ==> ToggleLabel(labels, color) == labels + [Label(color, "")]
  {
    WithoutColorKeeps(labels, color);
    var r := ToggleLabel(labels, color);
    if !HasColor(labels, color) {
      assert r[|labels|].color == color;
    } else {
      forall l | l in r ensures l in labels && l.color != color {
        var i :| 0 <= i < |r| && r[i] == l;
      }
    }
  }

  /** Toggling a colour that is absent twice gives back the original labels. */
  lemma ToggleAbsentTwice(labels: seq<Label>, color: string)
    requires !HasColor(labels, color)
    ensures ToggleLabel(ToggleLabel(labels, color), color) == labels
  {
    var once := labels + [Label(color, "")];
    assert once[|labels|].color == color;
    WithoutColorAppend(labels, [Label(color, "")], color);
    WithoutColorKeeps(labels, color);
    assert WithoutColor([Label(color, "")], color) == [];
  }

  // ---------------------------------------------------------------- checklist

  /** The characters `String.prototype.trim` removes: white space and line terminators. */
  predicate IsJsWhitespace(ch: char)
  {
    ch == '\t' || ch == '\n' || ch == '\U{B}' || ch == '\U{C}' || ch == '\r' || ch == ' '
    || ch == '\U{A0}' || ch == '\U{1680}' || ('\U{2000}' <= ch <= '\U{200A}')
    || ch == '\U{2028}' || ch == '\U{2029}' || ch == '\U{202F}' || ch == '\U{205F}'
    || ch == '\U{3000}' || ch == '\U{FEFF}'
  }

  /** `!text.trim()`: the text is empty once white space is trimmed. */
  predicate Blank(text: string)
  {
    forall i :: 0 <= i < |text| ==> IsJsWhitespace(text[i])
  }

  /** The item `handleAddItem` appends: not completed. */
  function NewItem(id: Id, text: string): (item: ChecklistItem)
    ensures !item.completed && item.id == id && item.subTitle == text
  {
    ChecklistItem(id, text, false)
  }

  /** `checklist.map(item => item._id === itemId ? {...item, completed: !item.completed} : item)`. */
  function ToggledItems(checklist: seq<ChecklistItem>, itemId: Id): (r: seq<ChecklistItem>)
    ensures |r| == |checklist|
    ensures forall i :: 0 <= i < |checklist| ==>
              r[i] == if checklist[i].id == itemId then checklist[i].(completed := !checklist[i].completed) else checklist[i]
  {
    if |checklist| == 0 then []
    else
      var head := checklist[0];
      [if head.id == itemId then head.(completed := !head.completed) else head] + ToggledItems(checklist[1..], itemId)
  }

  /** Toggling an item twice gives back the checklist. */
  lemma ToggleItemTwice(checklist: seq<ChecklistItem>, itemId: Id)
    ensures ToggledItems(ToggledItems(checklist, itemId), itemId) == checklist
  {
    var r := ToggledItems(ToggledItems(checklist, itemId), itemId);
    assert forall i :: 0 <= i < |checklist| ==> r[i] == checklist[i];
  }

  /** `checklist.filter(item => item._id !== itemId)`. */
  function WithoutItem(checklist: seq<ChecklistItem>, itemId: Id): (r: seq<ChecklistItem>)
    ensures |r| <= |checklist|
    ensures forall i :: 0 <= i < |r| ==> r[i] in checklist && r[i].id != itemId
  {
    if |checklist| == 0 then []
    else (if checklist[0].id != itemId then [checklist[0]] else []) + WithoutItem(checklist[1..], itemId)
  }

  /**
   * Deleting keeps the other items in their order: on a checklist split in two it is the deletion
   * from each half, and it is the identity on a checklist without the item.
   */
  lemma {:induction false} WithoutItemKeepsOrder(a: seq<ChecklistItem>, b: seq<ChecklistItem>, itemId: Id)
    ensures WithoutItem(a + b, itemId) == WithoutItem(a, itemId) + WithoutItem(b, itemId)
  {
    if |a| > 0 {
      assert (a + b)[0] == a[0] && (a + b)[1..] == a[1..] + b;
      WithoutItemKeepsOrder(a[1..], b, itemId);
      var h := if a[0].id != itemId then [a[0]] else [];
      assert WithoutItem(a + b, itemId) == h + WithoutItem(a[1..] + b, itemId);
      assert WithoutItem(a, itemId) == h + WithoutItem(a[1..], itemId);
    } else {
      assert a + b == b;
    }
  }

  lemma {:induction false} WithoutItemKeepsOthers(checklist: seq<ChecklistItem>, itemId: Id)
    ensures forall t :: t in checklist && t.id != itemId ==> t in WithoutItem(checklist, itemId)
    ensures (forall i :: 0 <= i < |checklist| ==> checklist[i].id != itemId) ==> WithoutItem(checklist, itemId) == checklist
  {
    if |checklist| > 0 {
      WithoutItemKeepsOthers(checklist[1..], itemId);
      if forall i :: 0 <= i < |checklist| ==> checklist[i].id != itemId {
        assert forall i :: 0 <= i < |checklist[1..]| ==> checklist[1..][i] == checklist[i + 1];
        assert checklist == [checklist[0]] + checklist[1..];
      }
    }
  }

  /** `checklist.filter(item => item.completed).length`. */
  function CompletedCount(checklist: seq<ChecklistItem>): (n: nat)
    ensures n <= |checklist|
    ensures n == 0 <==> forall i :: 0 <= i < |checklist| ==> !checklist[i].completed
    ensures n == |checklist| <==> forall i :: 0 <= i < |checklist| ==> checklist[i].completed
  {
    if |checklist| == 0 then 0
    else
      var rest := CompletedCount(checklist[1..]);
      assert forall i :: 1 <= i < |checklist| ==> checklist[i] == checklist[1..][i - 1];
      (if checklist[0].completed then 1 else 0) + rest
  }

  /**
   * The progress bar's percentage, `Math.round(completed / total * 100)` in exact arithmetic
   * (round half up): 0 with no items, and always within 0 .. 100.
   */
  function Progress(checklist: seq<ChecklistItem>): (p: int)
    ensures 0 <= p <= 100
    ensures |checklist| == 0 ==> p == 0
    ensures |checklist| > 0 && CompletedCount(checklist) == |checklist| ==> p == 100
    ensures CompletedCount(checklist) == 0 ==> p == 0
  {
    var total, done := |checklist|, CompletedCount(checklist);
    if total == 0 then 0 else ProgressOf(done, total)
  }

  function ProgressOf(done: nat, total: nat): (p: int)
    requires 0 < total && done <= total
    ensures 0 <= p <= 100
    ensures done == total ==> p == 100
    ensures done == 0 ==> p == 0
  {
    var n, d := 200 * done + total, 2 * total;
    DivBetween(n, d, if done == 0 then 0 else if done == total then 100 else 0, if done == 0 then 1 else 101);
    n / d
  }

  /** Whole division within bounds: from lo * d <= n < hi * d follows lo <= n / d < hi. */
  lemma DivBetween(n: int, d: int, lo: int, hi: int)
    requires d > 0 && lo * d <= n < hi * d
    ensures lo <= n / d < hi
  {
    var q, r := n / d, n % d;
    assert n == q * d + r && 0 <= r < d;
    if q < lo {
      MulMono(q + 1, lo, d);
    }
    if q >= hi {
      MulMono(hi, q, d);
    }
  }

  lemma MulMono(a: int, b: int, d: int)
    requires a <= b && d > 0
    ensures a * d <= b * d
  {
    assert b * d == a * d + (b - a) * d;
  }

  // ---------------------------------------------------------------- the dialog

  /** The arguments of one `onUpdate` call: card id, title, description, deadline, labels, checklist, sessions, target. */
  datatype EditCall = EditCall(
    cardId: Id,
    title: string,
    description: string,
    deadline: Option<string>,
    labels: seq<Label>,
    checklist: seq<ChecklistItem>,
    pomodoros: seq<Session>,
    pomodoroTarget: int)

  /** `card.pomodoroTarget || 1`. */
  function TargetOrOne(target: int): (t: int)
    ensures t != 0 && (target != 0 ==> t == target)
  {
    if target == 0 then 1 else target
  }

  class CardEditor {
    /** The card the dialog shows, as its parent passes it. */
    var card: Card
    var title: string
    var description: string
    var labels: seq<Label>
    var checklist: seq<ChecklistItem>
    var newItemText: string
    /** The `onUpdate` calls made so far, oldest first. */
    var sent: seq<EditCall>

    /** The local copies start as the card's own fields. */
    constructor (card: Card)
      ensures this.card == card && title == card.title && description == card.description
      ensures labels == card.labels && checklist == card.checklist && newItemText == "" && sent == []
    {
      this.card := card;
      title := card.title;
      description := card.description;
      labels := card.labels;
      checklist := card.checklist;
      newItemText := "";
      sent := [];
    }

    /**
     * A new card (another id): title, description and labels are copied again; the checklist and
     * the text being typed are not.
     */
    method CardChanged(newCard: Card)
      modifies this`card, this`title, this`description, this`labels
      ensures card == newCard && title == newCard.title && description == newCard.description
      ensures labels == newCard.labels
    {
      card := newCard;
      title := newCard.title;
      description := newCard.description;
      labels := newCard.labels;
    }

    method SetTitle(text: string)
      modifies this`title
      ensures title == text
    {
      title := text;
    }

    method SetDescription(text: string)
      modifies this`description
      ensures description == text
    {
      description := text;
    }

    method SetNewItemText(text: string)
      modifies this`newItemText
      ensures newItemText == text
    {
      newItemText := text;
    }

    /** A click on a colour: only the local labels change, nothing is sent. */
    method ToggleLabelColor(color: string)
      modifies this`labels
      ensures labels == ToggleLabel(old(labels), color)
    {
      labels := ToggleLabel(labels, color);
    }

    /** The call the checklist handlers make: the card's own labels, not the local ones. */
    function ChecklistCall(items: seq<ChecklistItem>): (r: EditCall)
      reads this
      ensures r.cardId == card.id && r.checklist == items && r.labels == card.labels
      ensures r.pomodoroTarget != 0
    {
      EditCall(card.id, title, description, card.deadline, card.labels, items, card.pomodoros, TargetOrOne(card.pomodoroTarget))
    }

    /**
     * `handleAddItem`: nothing for blank text; otherwise one new item, not completed, after the
     * others, the text cleared, and the new checklist sent.
     */
    method AddItem(newId: Id)
      modifies this`checklist, this`newItemText, this`sent
      ensures Blank(old(newItemText)) ==>
                checklist == old(checklist) && newItemText == old(newItemText) && sent == old(sent)
      ensures !Blank(old(newItemText)) ==>
                && checklist == old(checklist) + [NewItem(newId, old(newItemText))]
                && newItemText == ""
                && sent == old(sent) + [ChecklistCall(checklist)]
    {
      if Blank(newItemText) {
        return;
      }
      var updated := checklist + [NewItem(newId, newItemText)];
      checklist := updated;
      newItemText := "";
      sent := sent + [ChecklistCall(updated)];
    }

    /** `handleToggleItem`: the items with that id flip, and the new checklist is sent. */
    method ToggleItem(itemId: Id)
      modifies this`checklist, this`sent
      ensures checklist == ToggledItems(old(checklist), itemId)
      ensures sent == old(sent) + [ChecklistCall(checklist)]
    {
      var updated := ToggledItems(checklist, itemId);
      checklist := updated;
      sent := sent + [ChecklistCall(updated)];
    }

    /** `handleDeleteItem`: the items with that id go, and the new checklist is sent. */
    method DeleteItem(itemId: Id)
      modifies this`checklist, this`sent
      ensures checklist == WithoutItem(old(checklist), itemId)
      ensures sent == old(sent) + [ChecklistCall(checklist)]
    {
      var updated := WithoutItem(checklist, itemId);
      checklist := updated;
      sent := sent + [ChecklistCall(updated)];
    }

    /**
     * The debounced title settles: nothing when it is the card's title; otherwise one call with
     * that title and the local description, labels and checklist.
     */
    method TitleSettled(debouncedTitle: string)
      modifies this`sent
      ensures debouncedTitle == card.title ==> sent == old(sent)
      ensures debouncedTitle != card.title ==>
                sent == old(sent) + [EditCall(card.id, debouncedTitle, description, card.deadline, labels, checklist,
                                              card.pomodoros, TargetOrOne(card.pomodoroTarget))]
    {
      if debouncedTitle == card.title {
        return;
      }
      sent := sent + [EditCall(card.id, debouncedTitle, description, card.deadline, labels, checklist,
                               card.pomodoros, TargetOrOne(card.pomodoroTarget))];
    }

    /** `handleSave`: one call with every local field; `deadline` is the composed date and time. */
    method Save(deadline: Option<string>)
      modifies this`sent
      ensures sent == old(sent) + [EditCall(card.id, title, description, deadline, labels, checklist,
                                            card.pomodoros, TargetOrOne(card.pomodoroTarget))]
    {
      sent := sent + [EditCall(card.id, title, description, deadline, labels, checklist,
                               card.pomodoros, TargetOrOne(card.pomodoroTarget))];
    }
  }
}
