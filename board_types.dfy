/**
 * The board document and its parts, as stored in a board's JSON file and
 * held in the client's state.
 */
module BoardTypes {
  import opened Wrappers

  type CardId = string
  type ListId = string
  type UserId = string

  /**
   * A card's `completedAt`: the empty string, or a time stamp whose parsed
   * value in milliseconds is `ms`.
   */
  datatype Stamp = NoStamp | At(ms: int)

  datatype Card = Card(
    id: CardId,
    title: string,
    description: string,
    labels: seq<string>,
    startDate: Option<string>,  // None: the property is absent from the object
    dueDate: string,
    completed: bool,
    completedAt: Stamp,
    createdAt: string)

  datatype List = List(id: ListId, title: string, cardIds: seq<CardId>)

  /**
   * A board's `ownerId`: absent from a legacy document (`undefined`), `null`
   * for a public board, or the owning user's id.
   */
  datatype Owner = Missing | Public | OwnedBy(user: UserId)

  datatype BoardData = BoardData(
    id: string,
    name: string,
    lists: seq<List>,
    cards: map<CardId, Card>,
    labelNames: map<string, string>,
    version: int,
    ownerId: Owner,
    editors: Option<seq<UserId>>)  // None: the property is absent
}
