/**
 * The records the board works with. The server stores them as documents and hands them to the
 * browser as JSON, so one datatype serves both sides. Every optional field of the schema is
 * present here with the schema's default value.
 */
module Entities {
  import opened Wrappers

  type Id = string

  /** A coloured tag on a card; the editor always creates it with an empty text. */
  datatype Label = Label(color: string, text: string)

  /** One sub-task of a card's checklist. */
  datatype ChecklistItem = ChecklistItem(id: Id, subTitle: string, completed: bool)

  /** One finished focus session; `completedAt` is the ISO date string, absent if never set. */
  datatype Session = Session(id: string, completedAt: Option<string>, duration: int)

  datatype Card = Card(
    id: Id,
    title: string,
    description: string,
    completed: bool,
    listId: Id,
    boardId: Id,
    position: int,
    deadline: Option<string>,
    labels: seq<Label>,
    checklist: seq<ChecklistItem>,
    pomodoroTarget: int,
    pomodoros: seq<Session>,
    recurrence: string)

  /** A column of the board ("list" in the program). */
  datatype List = List(id: Id, title: string, boardId: Id, position: int)

  datatype Board = Board(id: Id, title: string, color: string)

  /** JavaScript truthiness of an optional string: absent and "" are both false. */
  predicate Truthy(s: Option<string>)
  {
    s.Some? && s.value != ""
  }
}
