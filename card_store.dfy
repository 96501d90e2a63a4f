/**
 * The card endpoints of the server. The card collection is a map from document id to card; each
 * handler is a method that answers with an HTTP status code (and the document, where the
 * endpoint sends one back).
 */
module CardStore {
  import opened Wrappers
  import opened Entities
  import opened Positions

  /** The container of a card, for position assignment: the cards with that `listId`. */
  function InList(listId: Id): Card -> bool
  {
    (c: Card) => c.listId == listId
  }

  /** The cards of a board, for the board read. */
  function OnBoard(boardId: Id): Card -> bool
  {
    (c: Card) => c.boardId == boardId
  }

  function CardPosition(c: Card): int
  {
    c.position
  }

  /** A card as created: the three given fields, the computed position and the schema defaults. */
  function NewCard(id: Id, title: string, listId: Id, boardId: Id, position: int): Card
  {
    Card(id, title, "", false, listId, boardId, position, None, [], [], 1, [], "none")
  }

  /** The JSON body of an update request; `None` is a field the body does not carry. */
  datatype CardBody = CardBody(
    title: Option<string>,
    description: Option<string>,
    completed: Option<bool>,
    position: Option<int>,
    deadline: Option<Option<string>>,
    labels: Option<seq<Label>>,
    checklist: Option<seq<ChecklistItem>>,
    pomodoros: Option<seq<Session>>,
    pomodoroTarget: Option<int>,
    listId: Option<Id>,
    boardId: Option<Id>,
    recurrence: Option<string>)

  /** The fields a body can carry. */
  datatype Field =
    | Title | Description | Completed | Position | Deadline | Labels | Checklist | Pomodoros
    | PomodoroTarget | ListId | BoardId | Recurrence

  /** The fields the update handler copies, in the handler's order. */
  const AllowedFields: seq<Field> :=
    [Title, Description, Completed, Position, Deadline, Labels, Checklist, Pomodoros, PomodoroTarget]

  /** `body[field] !== undefined`. */
  predicate Defined(b: CardBody, f: Field)
  {
    match f
    case Title => b.title.Some?
    case Description => b.description.Some?
    case Completed => b.completed.Some?
    case Position => b.position.Some?
    case Deadline => b.deadline.Some?
    case Labels => b.labels.Some?
    case Checklist => b.checklist.Some?
    case Pomodoros => b.pomodoros.Some?
    case PomodoroTarget => b.pomodoroTarget.Some?
    case ListId => b.listId.Some?
    case BoardId => b.boardId.Some?
    case Recurrence => b.recurrence.Some?
  }

  /** `updateData[field] = body[field]`. */
  function Copy(data: CardBody, b: CardBody, f: Field): CardBody
  {
    match f
    case Title => data.(title := b.title)
    case Description => data.(description := b.description)
    case Completed => data.(completed := b.completed)
    case Position => data.(position := b.position)
    case Deadline => data.(deadline := b.deadline)
    case Labels => data.(labels := b.labels)
    case Checklist => data.(checklist := b.checklist)
    case Pomodoros => data.(pomodoros := b.pomodoros)
    case PomodoroTarget => data.(pomodoroTarget := b.pomodoroTarget)
    case ListId => data.(listId := b.listId)
    case BoardId => data.(boardId := b.boardId)
    case Recurrence => data.(recurrence := b.recurrence)
  }

  /** A body that carries no field. */
  const EmptyBody := CardBody(None, None, None, None, None, None, None, None, None, None, None, None)

  /** The body with only the fields named in `fs` kept. */
  function Restrict(b: CardBody, fs: seq<Field>): CardBody
  {
    CardBody(
      if Title in fs then b.title else None,
      if Description in fs then b.description else None,
      if Completed in fs then b.completed else None,
      if Position in fs then b.position else None,
      if Deadline in fs then b.deadline else None,
      if Labels in fs then b.labels else None,
      if Checklist in fs then b.checklist else None,
      if Pomodoros in fs then b.pomodoros else None,
      if PomodoroTarget in fs then b.pomodoroTarget else None,
      if ListId in fs then b.listId else None,
      if BoardId in fs then b.boardId else None,
      if Recurrence in fs then b.recurrence else None)
  }

  /**
   * The allow-list loop: `updateData` is the body with everything but the nine allowed fields
   * dropped, so it never carries a `listId`, a `boardId` or a `recurrence`.
   */
  method FilterAllowed(body: CardBody) returns (data: CardBody)
    ensures data == body.(listId := None, boardId := None, recurrence := None)
  {
    data := EmptyBody;
    for i := 0 to |AllowedFields|
      invariant data == Restrict(body, AllowedFields[..i])
    {
      var field := AllowedFields[i];
      if Defined(body, field) {
        data := Copy(data, body, field);
      }
      RestrictOneMore(body, AllowedFields[..i], field);
      assert AllowedFields[..i + 1] == AllowedFields[..i] + [field];
    }
    assert AllowedFields[..|AllowedFields|] == AllowedFields;
    RestrictAllowed(body);
  }

  /** Keeping the allowed fields is dropping the three others. */
  lemma RestrictAllowed(b: CardBody)
    ensures Restrict(b, AllowedFields) == b.(listId := None, boardId := None, recurrence := None)
  {
    assert ListId !in AllowedFields && BoardId !in AllowedFields && Recurrence !in AllowedFields;
  }

  /** After the filter a field is present iff it is allowed and the body carried it. */
  lemma FilterKeepsAllowed(b: CardBody, f: Field)
    ensures Defined(b.(listId := None, boardId := None, recurrence := None), f) <==> f in AllowedFields && Defined(b, f)
  {
    assert f in AllowedFields <==> !(f.ListId? || f.BoardId? || f.Recurrence?) by {
      if !(f.ListId? || f.BoardId? || f.Recurrence?) {
        match f
        case Title => assert AllowedFields[0] == f;
        case Description => assert AllowedFields[1] == f;
        case Completed => assert AllowedFields[2] == f;
        case Position => assert AllowedFields[3] == f;
        case Deadline => assert AllowedFields[4] == f;
        case Labels => assert AllowedFields[5] == f;
        case Checklist => assert AllowedFields[6] == f;
        case Pomodoros => assert AllowedFields[7] == f;
        case PomodoroTarget => assert AllowedFields[8] == f;
      }
    }
  }

  /** One more field name in the list: the field is copied, if the body carries it. */
  lemma RestrictOneMore(b: CardBody, fs: seq<Field>, f: Field)
    ensures Restrict(b, fs + [f]) == if Defined(b, f) then Copy(Restrict(b, fs), b, f) else Restrict(b, fs)
  {
  }

  /** `$set`: every field the data carries overwrites the card's. */
  function Apply(c: Card, d: CardBody): Card
  {
    c.(
      title := if d.title.Some? then d.title.value else c.title,
      description := if d.description.Some? then d.description.value else c.description,
      completed := if d.completed.Some? then d.completed.value else c.completed,
      position := if d.position.Some? then d.position.value else c.position,
      deadline := if d.deadline.Some? then d.deadline.value else c.deadline,
      labels := if d.labels.Some? then d.labels.value else c.labels,
      checklist := if d.checklist.Some? then d.checklist.value else c.checklist,
      pomodoros := if d.pomodoros.Some? then d.pomodoros.value else c.pomodoros,
      pomodoroTarget := if d.pomodoroTarget.Some? then d.pomodoroTarget.value else c.pomodoroTarget,
      listId := if d.listId.Some? then d.listId.value else c.listId,
      boardId := if d.boardId.Some? then d.boardId.value else c.boardId,
      recurrence := if d.recurrence.Some? then d.recurrence.value else c.recurrence)
  }

  /** What an update request does to a card. */
  function Updated(c: Card, body: CardBody): Card
  {
    Apply(c, body.(listId := None, boardId := None, recurrence := None))
  }

  /**
   * An update never moves a card to another column or board and never changes its recurrence:
   * the browser's "reassign column" request, a body carrying only `listId`, leaves the card as
   * it was. Each of the nine allowed fields is written when the body carries it and kept when not.
   */
  lemma {:induction false} UpdateKeepsPlacement(c: Card, body: CardBody)
    ensures var r := Updated(c, body);
            && r.id == c.id && r.listId == c.listId && r.boardId == c.boardId
            && r.recurrence == c.recurrence
            && r.title == (if body.title.Some? then body.title.value else c.title)
            && r.description == (if body.description.Some? then body.description.value else c.description)
            && r.completed == (if body.completed.Some? then body.completed.value else c.completed)
            && r.position == (if body.position.Some? then body.position.value else c.position)
            && r.deadline == (if body.deadline.Some? then body.deadline.value else c.deadline)
            && r.labels == (if body.labels.Some? then body.labels.value else c.labels)
            && r.checklist == (if body.checklist.Some? then body.checklist.value else c.checklist)
            && r.pomodoros == (if body.pomodoros.Some? then body.pomodoros.value else c.pomodoros)
            && r.pomodoroTarget == (if body.pomodoroTarget.Some? then body.pomodoroTarget.value else c.pomodoroTarget)
  {
  }

  lemma ReassignIgnored(c: Card, listId: Id)
    ensures Updated(c, EmptyBody.(listId := Some(listId))) == c
  {
  }

  /** One more position write of the reorder loop, for the request prefix `done` + [x]. */
  lemma {:induction false} ReorderStep(before: map<Id, Card>, docs: map<Id, Card>, done: seq<Id>, x: Id)
    requires docs.Keys == before.Keys
    requires forall id :: id in docs ==>
               docs[id] == before[id].(position := Reordered(done, id, before[id].position))
    ensures var next := if x in docs then docs[x := docs[x].(position := |done|)] else docs;
            && next.Keys == before.Keys
            && forall id :: id in next ==>
                 next[id] == before[id].(position := Reordered(done + [x], id, before[id].position))
  {
    forall id | id in before {
      LastIndexSnoc(done, x, id);
    }
  }

  class CardCollection {
    var docs: map<Id, Card>

    /** Every document is stored under its own id. */
    ghost predicate Valid()
      reads this
    {
      forall id :: id in docs ==> docs[id].id == id
    }

    constructor ()
      ensures Valid() && docs == map[]
    {
      docs := map[];
    }

    /**
     * POST: a card needs a truthy title, column and board (else 400, nothing stored); it is put
     * after the last card of its column, whatever board that card is on. `newId` is the id the
     * database assigns.
     */
    method CreateCard(title: Option<string>, listId: Option<Id>, boardId: Option<Id>, newId: Id)
      returns (status: int, saved: Option<Card>)
      requires Valid() && newId !in docs
      modifies this
      ensures Valid()
      ensures !(Truthy(title) && Truthy(listId) && Truthy(boardId)) ==>
                status == 400 && saved == None && docs == old(docs)
      ensures Truthy(title) && Truthy(listId) && Truthy(boardId) ==>
                && status == 200 && saved.Some?
                && saved.value == NewCard(newId, title.value, listId.value, boardId.value, saved.value.position)
                && IsNextPosition(old(docs), InList(listId.value), CardPosition, saved.value.position)
                && docs == old(docs)[newId := saved.value]
    {
      if !Truthy(title) || !Truthy(listId) || !Truthy(boardId) {
        return 400, None;
      }
      var position := NextPosition(docs, InList(listId.value), CardPosition);
      var card := NewCard(newId, title.value, listId.value, boardId.value, position);
      docs := docs[newId := card];
      return 200, Some(card);
    }

    /** GET by board: exactly the stored cards of that board, each once, by ascending position. */
    method GetCardsByBoard(boardId: Id) returns (r: seq<Card>)
      requires Valid()
      ensures forall c: Card :: c in r <==> c.id in docs && docs[c.id] == c && c.boardId == boardId
      ensures forall i, j :: 0 <= i < j < |r| ==> r[i].id != r[j].id && r[i].position <= r[j].position
    {
      var d := docs;
      var ids := SortedSelection(d, OnBoard(boardId), CardPosition);
      r := seq(|ids|, i requires 0 <= i < |ids| => d[ids[i]]);
      forall c: Card | c.id in docs && docs[c.id] == c && c.boardId == boardId ensures c in r {
        var i :| 0 <= i < |ids| && ids[i] == c.id;
        assert r[i] == c;
      }
    }

    /**
     * PUT order: the card `orderedIds[i]` gets position i (the last such i for a repeated id);
     * ids that name no card are skipped, and every other card is left as it was.
     */
    method ReorderCards(orderedIds: seq<Id>) returns (status: int)
      requires Valid()
      modifies this
      ensures Valid() && status == 200
      ensures docs.Keys == old(docs).Keys
      ensures forall id :: id in docs ==>
                docs[id] == old(docs)[id].(position := Reordered(orderedIds, id, old(docs)[id].position))
    {
      for i := 0 to |orderedIds|
        invariant Valid() && docs.Keys == old(docs).Keys
        invariant forall id :: id in docs ==>
                    docs[id] == old(docs)[id].(position := Reordered(orderedIds[..i], id, old(docs)[id].position))
      {
        var id := orderedIds[i];
        ReorderStep(old(docs), docs, orderedIds[..i], id);
        if id in docs {
          docs := docs[id := docs[id].(position := i)];
        }
        assert orderedIds[..i + 1] == orderedIds[..i] + [id];
      }
      assert orderedIds[..|orderedIds|] == orderedIds;
      return 200;
    }

    /** PUT: 404 for an unknown id; otherwise only the allowed fields of the body are written. */
    method UpdateCard(id: Id, body: CardBody) returns (status: int, updated: Option<Card>)
      requires Valid()
      modifies this
      ensures Valid()
      ensures id !in old(docs) ==> status == 404 && updated == None && docs == old(docs)
      ensures id in old(docs) ==>
                && status == 200
                && updated == Some(Updated(old(docs)[id], body))
                && docs == old(docs)[id := Updated(old(docs)[id], body)]
    {
      var updateData := FilterAllowed(body);
      if id !in docs {
        return 404, None;
      }
      var card := Apply(docs[id], updateData);
      docs := docs[id := card];
      return 200, Some(card);
    }

    /** DELETE: 404 for an unknown id; otherwise exactly that card goes, nothing is renumbered. */
    method DeleteCard(id: Id) returns (status: int)
      requires Valid()
      modifies this
      ensures Valid()
      ensures id !in old(docs) ==> status == 404 && docs == old(docs)
      ensures id in old(docs) ==> status == 200 && docs == old(docs) - {id}
    {
      if id !in docs {
        return 404;
      }
      docs := docs - {id};
      return 200;
    }
  }
}
