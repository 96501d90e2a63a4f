/**
 * The column ("list") endpoints of the server. The column collection is a map from document id to
 * column; the board collection is only looked up, so it is passed in as the set of board ids
 * that exist. Each handler returns an HTTP status code (and the document, where one is sent).
 */
module ListStore {
  import opened Wrappers
  import opened Entities
  import opened Positions

  /** The container of a column: the columns of that board. */
  function OfBoard(boardId: Id): List -> bool
  {
    (l: List) => l.boardId == boardId
  }

  function ListPosition(l: List): int
  {
    l.position
  }

  /** One more position write of the reorder loop, for the request prefix `done` + [x]. */
  lemma {:induction false} ReorderStep(before: map<Id, List>, docs: map<Id, List>, done: seq<Id>, x: Id)
    requires docs.Keys == before.Keys
    requires forall id :: id in docs ==>
               docs[id] == before[id].(position := Reordered(done, id, before[id].position))
    ensures var next := if x in docs then docs[x := docs[x].(position := |done|)] else docs;
            && next.Keys == before.Keys
            && forall id :: id in next ==>
                 next[id] == before[id].(position := Reordered(done + [x], id, before[id].position))
  {
    forall id | id in before {
      LastIndexSnoc(done, x, id);
    }
  }

  class ListCollection {
    var docs: map<Id, List>

    /** Every document is stored under its own id. */
    ghost predicate Valid()
      reads this
    {
      forall id :: id in docs ==> docs[id].id == id
    }

    constructor ()
      ensures Valid() && docs == map[]
    {
      docs := map[];
    }

    /**
     * POST: 404 when the board does not exist (nothing stored); otherwise the column is put after
     * the board's last column, or at 0 on an empty board. `newId` is the id the database assigns.
     */
    method CreateList(title: string, boardId: Id, boards: set<Id>, newId: Id)
      returns (status: int, saved: Option<List>)
      requires Valid() && newId !in docs
      modifies this
      ensures Valid()
      ensures boardId !in boards ==> status == 404 && saved == None && docs == old(docs)
      ensures boardId in boards ==>
                && status == 200 && saved.Some?
                && saved.value == List(newId, title, boardId, saved.value.position)
                && IsNextPosition(old(docs), OfBoard(boardId), ListPosition, saved.value.position)
                && docs == old(docs)[newId := saved.value]
    {
      if boardId !in boards {
        return 404, None;
      }
      var position := NextPosition(docs, OfBoard(boardId), ListPosition);
      var list := List(newId, title, boardId, position);
      docs := docs[newId := list];
      return 200, Some(list);
    }

    /**
     * PUT order: the column `orderedIds[i]` gets position i (the last such i for a repeated id);
     * unknown ids are skipped and every other column is left as it was.
     */
    method ReorderLists(orderedIds: seq<Id>) returns (status: int)
      requires Valid()
      modifies this
      ensures Valid() && status == 200
      ensures docs.Keys == old(docs).Keys
      ensures forall id :: id in docs ==>
                docs[id] == old(docs)[id].(position := Reordered(orderedIds, id, old(docs)[id].position))
    {
      for i := 0 to |orderedIds|
        invariant Valid() && docs.Keys == old(docs).Keys
        invariant forall id :: id in docs ==>
                    docs[id] == old(docs)[id].(position := Reordered(orderedIds[..i], id, old(docs)[id].position))
      {
        var id := orderedIds[i];
        ReorderStep(old(docs), docs, orderedIds[..i], id);
        if id in docs {
          docs := docs[id := docs[id].(position := i)];
        }
        assert orderedIds[..i + 1] == orderedIds[..i] + [id];
      }
      assert orderedIds[..|orderedIds|] == orderedIds;
      return 200;
    }

    /** PUT title: 404 for an unknown id; otherwise only that column's title changes. */
    method UpdateTitleList(id: Id, title: string) returns (status: int, updated: Option<List>)
      requires Valid()
      modifies this
      ensures Valid()
      ensures id !in old(docs) ==> status == 404 && updated == None && docs == old(docs)
      ensures id in old(docs) ==>
                && status == 200
                && updated == Some(old(docs)[id].(title := title))
                && docs == old(docs)[id := old(docs)[id].(title := title)]
    {
      if id !in docs {
        return 404, None;
      }
      var list := docs[id].(title := title);
      docs := docs[id := list];
      return 200, Some(list);
    }

    /** GET by board: exactly the stored columns of that board, each once, by ascending position. */
    method GetLists(boardId: Id) returns (r: seq<List>)
      requires Valid()
      ensures forall l: List :: l in r <==> l.id in docs && docs[l.id] == l && l.boardId == boardId
      ensures forall i, j :: 0 <= i < j < |r| ==> r[i].id != r[j].id && r[i].position <= r[j].position
    {
      var d := docs;
      var ids := SortedSelection(d, OfBoard(boardId), ListPosition);
      r := seq(|ids|, i requires 0 <= i < |ids| => d[ids[i]]);
      forall l: List | l.id in docs && docs[l.id] == l && l.boardId == boardId ensures l in r {
        var i :| 0 <= i < |ids| && ids[i] == l.id;
        assert r[i] == l;
      }
    }

    /** DELETE: 404 for an unknown id; otherwise exactly that column goes, nothing is renumbered. */
    method DeleteLists(id: Id) returns (status: int)
      requires Valid()
      modifies this
      ensures Valid()
      ensures id !in old(docs) ==> status == 404 && docs == old(docs)
      ensures id in old(docs) ==> status == 200 && docs == old(docs) - {id}
    {
      if id !in docs {
        return 404;
      }
      docs := docs - {id};
      return 200;
    }
  }
}
