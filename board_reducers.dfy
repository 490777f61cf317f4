/**
 * The board editor's state transitions: the pure `BoardData -> BoardData`
 * functions that the editor hands to `setBoard`, and the drag-and-drop state
 * that decides when a card is moved.
 */
module BoardReducers {
  import opened Wrappers
  import opened Text
  import opened BoardTypes
  import BoardUtils

  // ----- Helpers over the list sequence -----

  /** `lists.find(l => l.id === id)` */
  function FindListById(lists: seq<List>, id: ListId): (r: Option<List>)
    ensures r.None? <==> forall i | 0 <= i < |lists| :: lists[i].id != id
    ensures r.Some? ==> r.value.id == id && r.value in lists
    ensures r.Some? ==> exists i | 0 <= i < |lists| ::
      lists[i] == r.value && forall j | 0 <= j < i :: lists[j].id != id
  {
    if lists == [] then None
    else if lists[0].id == id then Some(lists[0])
    else
      var r := FindListById(lists[1..], id);
      assert forall i | 1 <= i < |lists| :: lists[i] == lists[1..][i - 1];
      r
  }

  /** `cardIds.filter(id => id !== x)` */
  function Without(ids: seq<CardId>, x: CardId): (r: seq<CardId>)
    ensures x !in r
    ensures multiset(r) == multiset(ids)[x := 0]
    ensures forall y | y != x :: y in r <==> y in ids
    ensures x !in ids ==> r == ids
  {
    if ids == [] then []
    else
      assert ids == [ids[0]] + ids[1..];
      if ids[0] == x then Without(ids[1..], x) else [ids[0]] + Without(ids[1..], x)
  }

  ghost predicate NoDuplicates(ids: seq<CardId>) {
    forall x :: multiset(ids)[x] <= 1
  }

  /**
   * List ids are distinct, and a card id appears at most once across all
   * lists.
   */
  ghost predicate ListsWellFormed(lists: seq<List>) {
    && (forall i, j | 0 <= i < j < |lists| :: lists[i].id != lists[j].id)
    && (forall i | 0 <= i < |lists| :: NoDuplicates(lists[i].cardIds))
    && (forall i, j, x | 0 <= i < |lists| && 0 <= j < |lists| && i != j && x in lists[i].cardIds ::
          x !in lists[j].cardIds)
  }

  /**
   * The invariant the editor's transitions keep: the lists are well formed,
   * every card a list refers to exists, and every card is stored under its
   * own id.
   */
  ghost predicate WellFormed(b: BoardData) {
    && ListsWellFormed(b.lists)
    && (forall i, x | 0 <= i < |b.lists| && x in b.lists[i].cardIds :: x in b.cards)
    && (forall k | k in b.cards :: b.cards[k].id == k)
  }

  function RenameIn(lists: seq<List>, listId: ListId, title: string): (r: seq<List>)
    ensures |r| == |lists|
    ensures forall i | 0 <= i < |r| ::
      r[i] == if lists[i].id == listId then lists[i].(title := title) else lists[i]
  {
    if lists == [] then []
    else
      var l := if lists[0].id == listId then lists[0].(title := title) else lists[0];
      [l] + RenameIn(lists[1..], listId, title)
  }

  /** `lists.filter(l => l.id !== listId)` */
  function DropList(lists: seq<List>, listId: ListId): (r: seq<List>)
    ensures forall l :: l in r <==> l in lists && l.id != listId
    ensures (forall i | 0 <= i < |lists| :: lists[i].id != listId) ==> r == lists
  {
    if lists == [] then []
    else if lists[0].id == listId then DropList(lists[1..], listId)
    else
      assert forall l :: l in lists <==> l == lists[0] || l in lists[1..];
      [lists[0]] + DropList(lists[1..], listId)
  }

  function AppendTo(lists: seq<List>, listId: ListId, cardId: CardId): (r: seq<List>)
    ensures |r| == |lists|
    ensures forall i | 0 <= i < |r| ::
      r[i] == if lists[i].id == listId then lists[i].(cardIds := lists[i].cardIds + [cardId]) else lists[i]
  {
    if lists == [] then []
    else
      var l := if lists[0].id == listId then lists[0].(cardIds := lists[0].cardIds + [cardId]) else lists[0];
      [l] + AppendTo(lists[1..], listId, cardId)
  }

  function RemoveEverywhere(lists: seq<List>, cardId: CardId): (r: seq<List>)
    ensures |r| == |lists|
    ensures forall i | 0 <= i < |r| :: r[i] == lists[i].(cardIds := Without(lists[i].cardIds, cardId))
  {
    if lists == [] then []
    else [lists[0].(cardIds := Without(lists[0].cardIds, cardId))] + RemoveEverywhere(lists[1..], cardId)
  }

  /** The list update of a drop: take the card out of the source, append it to the target. */
  function MoveIn(lists: seq<List>, cardId: CardId, sourceId: ListId, targetId: ListId): (r: seq<List>)
    ensures |r| == |lists|
    ensures forall i | 0 <= i < |r| ::
      r[i] == if lists[i].id == sourceId then lists[i].(cardIds := Without(lists[i].cardIds, cardId))
              else if lists[i].id == targetId then lists[i].(cardIds := lists[i].cardIds + [cardId])
              else lists[i]
  {
    if lists == [] then []
    else
      var l := lists[0];
      var l' := if l.id == sourceId then l.(cardIds := Without(l.cardIds, cardId))
                else if l.id == targetId then l.(cardIds := l.cardIds + [cardId])
                else l;
      [l'] + MoveIn(lists[1..], cardId, sourceId, targetId)
  }

  /** Filtering distributes over concatenation, so the kept ids stay in their order. */
  lemma {:induction false} WithoutAppend(a: seq<CardId>, b: seq<CardId>, x: CardId)
    ensures Without(a + b, x) == Without(a, x) + Without(b, x)
  {
    if a == [] {
      assert a + b == b;
    } else {
      assert (a + b)[0] == a[0] && (a + b)[1..] == a[1..] + b;
      WithoutAppend(a[1..], b, x);
    }
  }

  /** Dropping a list distributes over concatenation, so the kept lists stay in their order. */
  lemma {:induction false} DropListAppend(a: seq<List>, b: seq<List>, listId: ListId)
    ensures DropList(a + b, listId) == DropList(a, listId) + DropList(b, listId)
  {
    if a == [] {
      assert a + b == b;
    } else {
      assert (a + b)[0] == a[0] && (a + b)[1..] == a[1..] + b;
      DropListAppend(a[1..], b, listId);
    }
  }

  // ----- The reducers -----

  /**
   * `addList`: a title that is blank after trimming leaves the board as it
   * is; otherwise one list with the trimmed title and no cards is appended.
   */
  function AddList(b: BoardData, id: ListId, title: string): (r: BoardData)
    ensures IsBlank(title) ==> r == b
    ensures !IsBlank(title) ==>
      && r.lists == b.lists + [List(id, Trim(title), [])]
      && r == b.(lists := r.lists)
  {
    if IsBlank(title) then b else b.(lists := b.lists + [List(id, Trim(title), [])])
  }

  /** `renameList`: only the title of the list(s) with id `listId` changes. */
  function RenameList(b: BoardData, listId: ListId, title: string): (r: BoardData)
    ensures r == b.(lists := r.lists)
    ensures |r.lists| == |b.lists|
    ensures forall i | 0 <= i < |b.lists| ::
      && r.lists[i].id == b.lists[i].id
      && r.lists[i].cardIds == b.lists[i].cardIds
      && r.lists[i].title == if b.lists[i].id == listId then title else b.lists[i].title
  {
    b.(lists := RenameIn(b.lists, listId, title))
  }

  /**
   * `deleteList`: every list with id `listId` disappears, and the cards of
   * the first such list are removed from the card map; nothing else changes.
   */
  function DeleteList(b: BoardData, listId: ListId): (r: BoardData)
    ensures r == b.(lists := r.lists, cards := r.cards)
    ensures r.lists == DropList(b.lists, listId)
    ensures forall l :: l in r.lists <==> l in b.lists && l.id != listId
    ensures FindListById(b.lists, listId).None? ==> r.cards == b.cards
    ensures FindListById(b.lists, listId).Some? ==>
      r.cards == b.cards - set x | x in FindListById(b.lists, listId).value.cardIds
  {
    var doomed := FindListById(b.lists, listId);
    var cards := if doomed.Some? then b.cards - set x | x in doomed.value.cardIds else b.cards;
    b.(lists := DropList(b.lists, listId), cards := cards)
  }

  /** The card `addCard` creates. */
  function NewCard(id: CardId, title: string, createdAt: string): (c: Card)
    ensures c.id == id && c.createdAt == createdAt && c.title == Trim(title)
    ensures !IsBlank(title) ==> c.title != [] && !IsWhitespace(c.title[0]) && !IsWhitespace(c.title[|c.title| - 1])
    ensures !c.completed && c.completedAt == NoStamp && !BoardUtils.IsCompleted(map[id := c], id)
    ensures c.description == "" && c.labels == [] && c.dueDate == "" && c.startDate.None?
  {
    TrimEnds(title);
    Card(id, Trim(title), "", [], None, "", false, NoStamp, createdAt)
  }

  /**
   * `addCard`: with a non-blank title, stores a fresh incomplete card under
   * `cardId` and appends its id to the end of the list(s) with id `listId`;
   * when no list matches, the card is stored but referenced by no list.
   */
  function AddCard(b: BoardData, listId: ListId, cardId: CardId, title: string, createdAt: string): (r: BoardData)
    ensures IsBlank(title) ==> r == b
    ensures !IsBlank(title) ==>
      && r == b.(lists := r.lists, cards := r.cards)
      && r.cards == b.cards[cardId := NewCard(cardId, title, createdAt)]
      && |r.lists| == |b.lists|
      && forall i | 0 <= i < |b.lists| ::
           && r.lists[i].id == b.lists[i].id && r.lists[i].title == b.lists[i].title
           && r.lists[i].cardIds == if b.lists[i].id == listId then b.lists[i].cardIds + [cardId]
                                    else b.lists[i].cardIds
  {
    if IsBlank(title) then b
    else b.(cards := b.cards[cardId := NewCard(cardId, title, createdAt)],
            lists := AppendTo(b.lists, listId, cardId))
  }

  /** `updateCard`: stores the edited card under its own id. */
  function UpdateCard(b: BoardData, card: Card): (r: BoardData)
    ensures r == b.(cards := r.cards)
    ensures card.id in r.cards && r.cards[card.id] == card
    ensures forall k | k != card.id :: (k in r.cards <==> k in b.cards) && (k in b.cards ==> r.cards[k] == b.cards[k])
  {
    b.(cards := b.cards[card.id := card])
  }

  /**
   * `toggleCard`: a missing card leaves the board as it is; otherwise only
   * that card changes, its `completed` flag flips, and `completedAt` becomes
   * `now` when it is completed and empty when it is reopened.
   */
  function ToggleCard(b: BoardData, cardId: CardId, now: int): (r: BoardData)
    ensures cardId !in b.cards ==> r == b
    ensures cardId in b.cards ==>
      var c := b.cards[cardId];
      && r == b.(cards := r.cards)
      && r.cards.Keys == b.cards.Keys
      && (forall k | k in b.cards && k != cardId :: r.cards[k] == b.cards[k])
      && r.cards[cardId].completed == !c.completed
      && r.cards[cardId].completedAt == (if c.completed then NoStamp else At(now))
      && r.cards[cardId] == c.(completed := r.cards[cardId].completed, completedAt := r.cards[cardId].completedAt)
  {
    if cardId !in b.cards then b
    else
      var c := b.cards[cardId];
      var nowCompleted := !c.completed;
      var updated := c.(completed := nowCompleted, completedAt := if nowCompleted then At(now) else NoStamp);
      b.(cards := b.cards[cardId := updated])
  }

  /** `deleteCard`: the card leaves the map and every occurrence of its id leaves every list. */
  function DeleteCard(b: BoardData, cardId: CardId): (r: BoardData)
    ensures r == b.(lists := r.lists, cards := r.cards)
    ensures r.cards == b.cards - {cardId}
    ensures |r.lists| == |b.lists|
    ensures forall i | 0 <= i < |b.lists| ::
      && r.lists[i].id == b.lists[i].id && r.lists[i].title == b.lists[i].title
      && r.lists[i].cardIds == Without(b.lists[i].cardIds, cardId)
      && cardId !in r.lists[i].cardIds
      && multiset(r.lists[i].cardIds) == multiset(b.lists[i].cardIds)[cardId := 0]
  {
    b.(cards := b.cards - {cardId}, lists := RemoveEverywhere(b.lists, cardId))
  }

  /**
   * The update `handleDrop` applies: the card's id leaves the source list
   * and is appended once to the end of the target list; other lists and the
   * card map are unchanged.
   */
  function MoveCard(b: BoardData, cardId: CardId, sourceId: ListId, targetId: ListId): (r: BoardData)
    requires sourceId != targetId
    ensures r == b.(lists := r.lists)
    ensures |r.lists| == |b.lists|
    ensures forall i | 0 <= i < |b.lists| ::
      && r.lists[i].id == b.lists[i].id && r.lists[i].title == b.lists[i].title
      && (b.lists[i].id == sourceId ==> r.lists[i].cardIds == Without(b.lists[i].cardIds, cardId))
      && (b.lists[i].id == targetId ==> r.lists[i].cardIds == b.lists[i].cardIds + [cardId])
      && (b.lists[i].id != sourceId && b.lists[i].id != targetId ==> r.lists[i] == b.lists[i])
  {
    b.(lists := MoveIn(b.lists, cardId, sourceId, targetId))
  }

  /** `renameLabel`: sets the name of one colour and leaves the others. */
  function RenameLabel(b: BoardData, color: string, name: string): (r: BoardData)
    ensures r == b.(labelNames := r.labelNames)
    ensures color in r.labelNames && r.labelNames[color] == name
    ensures forall k | k != color ::
      (k in r.labelNames <==> k in b.labelNames) && (k in b.labelNames ==> r.labelNames[k] == b.labelNames[k])
  {
    b.(labelNames := b.labelNames[color := name])
  }

  // ----- How the reducers meet the queries -----

  /** After `renameLabel`, `getLabelName` returns the new name (or "" for an empty one). */
  lemma RenameLabelThenLookup(b: BoardData, color: string, name: string)
    ensures BoardUtils.GetLabelName(RenameLabel(b, color, name), color) == name
  {
  }

  /** After `deleteCard`, no list holds the card. */
  lemma DeleteCardThenFind(b: BoardData, cardId: CardId)
    ensures BoardUtils.GetListForCard(DeleteCard(b, cardId), cardId).None?
  {
  }

  /**
   * Reopening a card that was completed by a toggle restores the board when
   * the card was incomplete with an empty `completedAt`.
   */
  lemma ToggleTwice(b: BoardData, cardId: CardId, t1: int, t2: int)
    requires cardId in b.cards && !b.cards[cardId].completed && b.cards[cardId].completedAt == NoStamp
    ensures ToggleCard(ToggleCard(b, cardId, t1), cardId, t2) == b
  {
    var c := b.cards[cardId];
    assert ToggleCard(b, cardId, t1).cards[cardId] == c.(completed := true, completedAt := At(t1));
    assert b.cards[cardId := c] == b.cards;
  }

  /**
   * A card added to an existing list that held no card with that id is found
   * in that list.
   */
  lemma AddCardThenFind(b: BoardData, listId: ListId, cardId: CardId, title: string, createdAt: string)
    requires !IsBlank(title)
    requires forall i, j | 0 <= i < j < |b.lists| :: b.lists[i].id != b.lists[j].id
    requires forall i | 0 <= i < |b.lists| :: cardId !in b.lists[i].cardIds
    requires FindListById(b.lists, listId).Some?
    ensures var r := AddCard(b, listId, cardId, title, createdAt);
      var found := BoardUtils.GetListForCard(r, cardId);
      found.Some? && found.value.id == listId && found.value.cardIds[|found.value.cardIds| - 1] == cardId
  {
    AppendToThenFind(b.lists, listId, cardId);
  }

  /** The list-level half of `AddCardThenFind`. */
  lemma AppendToThenFind(lists: seq<List>, listId: ListId, cardId: CardId)
    requires forall i, j | 0 <= i < j < |lists| :: lists[i].id != lists[j].id
    requires forall i | 0 <= i < |lists| :: cardId !in lists[i].cardIds
    requires FindListById(lists, listId).Some?
    ensures var found := BoardUtils.FindList(AppendTo(lists, listId, cardId), cardId);
      found.Some? && found.value.id == listId && found.value.cardIds[|found.value.cardIds| - 1] == cardId
  {
    var r := AppendTo(lists, listId, cardId);
    var k := ListIndex(lists, listId);
    assert cardId in r[k].cardIds;
    var found := BoardUtils.FindList(r, cardId);
    var i :| 0 <= i < |r| && r[i] == found.value && cardId in found.value.cardIds;
    if lists[i].id != listId {
      assert false;
    }
    assert found.value.cardIds == lists[i].cardIds + [cardId];
  }

  /** The position of a list that `FindListById` finds. */
  lemma ListIndex(lists: seq<List>, id: ListId) returns (k: nat)
    requires FindListById(lists, id).Some?
    ensures k < |lists| && lists[k].id == id
  {
    k :| 0 <= k < |lists| && lists[k] == FindListById(lists, id).value;
  }

  // ----- The invariant is kept -----

  lemma AddListKeepsWellFormed(b: BoardData, id: ListId, title: string)
    requires WellFormed(b)
    requires forall i | 0 <= i < |b.lists| :: b.lists[i].id != id
    ensures WellFormed(AddList(b, id, title))
  {
    var r := AddList(b, id, title);
    if !IsBlank(title) {
      assert forall x :: multiset(r.lists[|b.lists|].cardIds)[x] == 0;
      assert forall i | 0 <= i < |b.lists| :: r.lists[i] == b.lists[i];
    }
  }

  lemma RenameListKeepsWellFormed(b: BoardData, listId: ListId, title: string)
    requires WellFormed(b)
    ensures WellFormed(RenameList(b, listId, title))
  {
  }

  /** Removing lists keeps list ids distinct and card ids unshared. */
  lemma {:induction false} DropListKeepsWellFormed(lists: seq<List>, listId: ListId)
    requires ListsWellFormed(lists)
    ensures ListsWellFormed(DropList(lists, listId))
  {
    if lists != [] {
      var rest := lists[1..];
      assert ListsWellFormed(rest) by {
        assert forall i | 0 <= i < |rest| :: rest[i] == lists[i + 1];
      }
      DropListKeepsWellFormed(rest, listId);
      if lists[0].id != listId {
        var d := DropList(rest, listId);
        forall e | e in d
          ensures e.id != lists[0].id && forall x | x in lists[0].cardIds :: x !in e.cardIds
        {
          var m :| 0 <= m < |rest| && rest[m] == e;
          assert lists[m + 1] == e;
        }
        ConsKeepsWellFormed(lists[0], d);
      }
    }
  }

  /** A list whose id and cards no other list has can go in front. */
  lemma ConsKeepsWellFormed(l: List, lists: seq<List>)
    requires ListsWellFormed(lists) && NoDuplicates(l.cardIds)
    requires forall e | e in lists :: e.id != l.id && forall x | x in l.cardIds :: x !in e.cardIds
    ensures ListsWellFormed([l] + lists)
  {
    var r := [l] + lists;
    assert forall k | 1 <= k < |r| :: r[k] == lists[k - 1];
  }

  lemma DeleteListKeepsWellFormed(b: BoardData, listId: ListId)
    requires WellFormed(b)
    ensures WellFormed(DeleteList(b, listId))
  {
    var r := DeleteList(b, listId);
    DropListKeepsWellFormed(b.lists, listId);
    var doomed := FindListById(b.lists, listId);
    forall i, x | 0 <= i < |r.lists| && x in r.lists[i].cardIds
      ensures x in r.cards
    {
      var l := r.lists[i];
      assert l in b.lists && l.id != listId;
      var p :| 0 <= p < |b.lists| && b.lists[p] == l;
      if doomed.Some? {
        var q :| 0 <= q < |b.lists| && b.lists[q] == doomed.value;
        assert x !in doomed.value.cardIds;
      }
    }
  }

  lemma AddCardKeepsWellFormed(b: BoardData, listId: ListId, cardId: CardId, title: string, createdAt: string)
    requires WellFormed(b)
    requires cardId !in b.cards
    ensures WellFormed(AddCard(b, listId, cardId, title, createdAt))
  {
    if !IsBlank(title) {
      AppendToKeepsWellFormed(b.lists, listId, cardId);
    }
  }

  /** Appending a card no list holds keeps the lists well formed. */
  lemma AppendToKeepsWellFormed(lists: seq<List>, listId: ListId, cardId: CardId)
    requires ListsWellFormed(lists)
    requires forall i | 0 <= i < |lists| :: cardId !in lists[i].cardIds
    ensures ListsWellFormed(AppendTo(lists, listId, cardId))
  {
    var r := AppendTo(lists, listId, cardId);
    forall i | 0 <= i < |lists| ensures NoDuplicates(r[i].cardIds) {
      assert multiset(lists[i].cardIds)[cardId] == 0;
    }
  }

  lemma ToggleCardKeepsWellFormed(b: BoardData, cardId: CardId, now: int)
    requires WellFormed(b)
    ensures WellFormed(ToggleCard(b, cardId, now))
  {
  }

  lemma UpdateCardKeepsWellFormed(b: BoardData, card: Card)
    requires WellFormed(b)
    ensures WellFormed(UpdateCard(b, card))
  {
  }

  lemma DeleteCardKeepsWellFormed(b: BoardData, cardId: CardId)
    requires WellFormed(b)
    ensures WellFormed(DeleteCard(b, cardId))
  {
    var r := DeleteCard(b, cardId);
    RemoveEverywhereKeepsWellFormed(b.lists, cardId);
    forall i, x | 0 <= i < |r.lists| && x in r.lists[i].cardIds
      ensures x in r.cards
    {
      assert x in multiset(r.lists[i].cardIds);
    }
  }

  /** Taking a card out of every list keeps the lists well formed. */
  lemma RemoveEverywhereKeepsWellFormed(lists: seq<List>, cardId: CardId)
    requires ListsWellFormed(lists)
    ensures ListsWellFormed(RemoveEverywhere(lists, cardId))
  {
    var r := RemoveEverywhere(lists, cardId);
    forall i, x | 0 <= i < |r| && x in r[i].cardIds
      ensures x in lists[i].cardIds
    {
      assert x in multiset(r[i].cardIds);
    }
    forall i | 0 <= i < |r| ensures NoDuplicates(r[i].cardIds) {
      assert multiset(r[i].cardIds) == multiset(lists[i].cardIds)[cardId := 0];
    }
  }

  /**
   * Moving a card from the list it is in keeps the board well formed: the
   * card ends up in the target list only (or, with no target list, in none).
   */
  lemma MoveCardKeepsWellFormed(b: BoardData, cardId: CardId, sourceId: ListId, targetId: ListId)
    requires WellFormed(b) && sourceId != targetId
    requires exists i | 0 <= i < |b.lists| :: b.lists[i].id == sourceId && cardId in b.lists[i].cardIds
    ensures WellFormed(MoveCard(b, cardId, sourceId, targetId))
  {
    var r := MoveCard(b, cardId, sourceId, targetId);
    var s :| 0 <= s < |b.lists| && b.lists[s].id == sourceId && cardId in b.lists[s].cardIds;
    MovedMembership(b, cardId, sourceId, targetId);
    MovedListsWellFormed(b.lists, cardId, s, targetId);
    forall i, x | 0 <= i < |r.lists| && x in r.lists[i].cardIds ensures x in r.cards {
      assert x in b.lists[i].cardIds || x in b.lists[s].cardIds;
    }
  }

  /** The list update of a move keeps the lists well formed. */
  lemma MovedListsWellFormed(lists: seq<List>, cardId: CardId, s: nat, targetId: ListId)
    requires ListsWellFormed(lists) && s < |lists| && lists[s].id != targetId && cardId in lists[s].cardIds
    ensures ListsWellFormed(MoveIn(lists, cardId, lists[s].id, targetId))
  {
    var r := MoveIn(lists, cardId, lists[s].id, targetId);
    assert forall i | 0 <= i < |lists| && i != s :: cardId !in lists[i].cardIds;
    MovedLists(lists, cardId, s, targetId);
    forall i, j, x | 0 <= i < |r| && 0 <= j < |r| && i != j && x in r[i].cardIds
      ensures x !in r[j].cardIds
    {
      if x == cardId {
        assert lists[i].id == targetId;
      }
    }
  }

  /** What each list holds after the list update of a move. */
  lemma MovedLists(lists: seq<List>, cardId: CardId, s: nat, targetId: ListId)
    requires s < |lists| && lists[s].id != targetId
    requires forall i | 0 <= i < |lists| :: NoDuplicates(lists[i].cardIds)
    requires forall i | 0 <= i < |lists| && i != s :: cardId !in lists[i].cardIds
    ensures var r := MoveIn(lists, cardId, lists[s].id, targetId);
      && (forall i | 0 <= i < |r| :: r[i].id == lists[i].id && NoDuplicates(r[i].cardIds))
      && (forall i, x | 0 <= i < |r| ::
            x in r[i].cardIds <==> if x == cardId then lists[i].id == targetId else x in lists[i].cardIds)
  {
    var r := MoveIn(lists, cardId, lists[s].id, targetId);
    forall i | 0 <= i < |r| ensures r[i].id == lists[i].id && NoDuplicates(r[i].cardIds) {
      if lists[i].id == targetId {
        assert multiset(lists[i].cardIds)[cardId] == 0;
      }
    }
  }

  /** Which card ids each list holds after a move. */
  lemma MovedMembership(b: BoardData, cardId: CardId, sourceId: ListId, targetId: ListId)
    requires sourceId != targetId
    ensures var r := MoveCard(b, cardId, sourceId, targetId);
      forall i, x | 0 <= i < |b.lists| :: x in r.lists[i].cardIds <==>
        if x == cardId then b.lists[i].id == targetId || (b.lists[i].id != sourceId && x in b.lists[i].cardIds)
        else x in b.lists[i].cardIds
  {
  }

  /** The card being dragged and the list it was picked up from (`dragCard.current`). */
  datatype Drag = Drag(cardId: CardId, sourceListId: ListId)

  /** The editor's board state and its drag reference. */
  class BoardEditor {
    var board: BoardData
    var drag: Option<Drag>

    constructor (initial: BoardData)
      ensures board == initial && drag == None
    {
      board := initial;
      drag := None;
    }

    /** `handleDragStart` */
    method DragStart(cardId: CardId, sourceListId: ListId)
      modifies this
      ensures board == old(board) && drag == Some(Drag(cardId, sourceListId))
    {
      drag := Some(Drag(cardId, sourceListId));
    }

    /**
     * `handleDrop`: with no drag in progress, or a drop on the source list,
     * nothing changes (the drag stays recorded); otherwise the card moves and
     * the drag ends.
     */
    method Drop(targetListId: ListId)
      modifies this
      ensures old(drag).None? ==> board == old(board) && drag == old(drag)
      ensures old(drag).Some? && old(drag).value.sourceListId == targetListId ==>
        board == old(board) && drag == old(drag)
      ensures old(drag).Some? && old(drag).value.sourceListId != targetListId ==>
        board == MoveCard(old(board), old(drag).value.cardId, old(drag).value.sourceListId, targetListId)
        && drag == None
    {
      if drag.None? {
        return;
      }
      var Drag(cardId, sourceListId) := drag.value;
      if sourceListId == targetListId {
        return;
      }
      board := MoveCard(board, cardId, sourceListId, targetListId);
      drag := None;
    }

    /** `handleDragEnd` */
    method DragEnd()
      modifies this
      ensures board == old(board) && drag == None
    {
      drag := None;
    }
  }
}
