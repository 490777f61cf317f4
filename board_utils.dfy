/**
 * Board queries: the empty board, the display order of a list's cards,
 * the visibility filter, and list and label look-ups.
 */
module BoardUtils {
  import opened Wrappers
  import opened Text
  import opened BoardTypes

  /** A fresh board created at time `now` (milliseconds). */
  function CreateEmptyBoard(now: nat): (b: BoardData)
    ensures StartsWith(b.id, "board-")
    ensures |b.id| > 6 && forall i | 6 <= i < |b.id| :: IsDigit(b.id[i])
    ensures b.name == "New Project" && b.lists == [] && b.cards == map[] && b.labelNames == map[]
    ensures b.version == 1
    ensures b.ownerId == Missing && b.editors == None
    ensures DecimalValue(b.id[6..]) == now
  {
    DecimalRoundTrip(now);
    assert ("board-" + Decimal(now))[6..] == Decimal(now);
    BoardData("board-" + Decimal(now), "New Project", [], map[], map[], 1, Missing, None)
  }

  /** Boards created at different times get different ids. */
  lemma EmptyBoardIdsDistinct(t1: nat, t2: nat)
    requires t1 != t2
    ensures CreateEmptyBoard(t1).id != CreateEmptyBoard(t2).id
  {
  }

  /** `cards[id]?.completed`: an id with no card counts as incomplete. */
  predicate IsCompleted(cards: map<CardId, Card>, id: CardId) {
    id in cards && cards[id].completed
  }

  /** The sort key of a card: its completion time, 0 when `completedAt` is empty. */
  function CompletedTime(cards: map<CardId, Card>, id: CardId): int {
    if id in cards && cards[id].completedAt.At? then cards[id].completedAt.ms else 0
  }

  /** `ids.filter(id => !cards[id]?.completed)` */
  function Incomplete(ids: seq<CardId>, cards: map<CardId, Card>): (r: seq<CardId>)
    ensures forall i | 0 <= i < |r| :: !IsCompleted(cards, r[i])
  {
    if ids == [] then []
    else if IsCompleted(cards, ids[0]) then Incomplete(ids[1..], cards)
    else [ids[0]] + Incomplete(ids[1..], cards)
  }

  /** `ids.filter(id => cards[id]?.completed)` */
  function Completed(ids: seq<CardId>, cards: map<CardId, Card>): (r: seq<CardId>)
    ensures forall i | 0 <= i < |r| :: IsCompleted(cards, r[i])
  {
    if ids == [] then []
    else if IsCompleted(cards, ids[0]) then [ids[0]] + Completed(ids[1..], cards)
    else Completed(ids[1..], cards)
  }

  /** The ids of `ids` whose completion time is `t`, in their order in `ids`. */
  function WithTime(ids: seq<CardId>, cards: map<CardId, Card>, t: int): seq<CardId> {
    if ids == [] then []
    else if CompletedTime(cards, ids[0]) == t then [ids[0]] + WithTime(ids[1..], cards, t)
    else WithTime(ids[1..], cards, t)
  }

  predicate SortedNewestFirst(ids: seq<CardId>, cards: map<CardId, Card>) {
    forall i, j | 0 <= i < j < |ids| :: CompletedTime(cards, ids[i]) >= CompletedTime(cards, ids[j])
  }

  /**
   * Inserts `x` into a newest-first sequence, in front of every element that
   * is not newer than it.
   */
  function Insert(x: CardId, ids: seq<CardId>, cards: map<CardId, Card>): (r: seq<CardId>)
    ensures multiset(r) == multiset(ids) + multiset{x}
  {
    if ids == [] || CompletedTime(cards, ids[0]) <= CompletedTime(cards, x) then [x] + ids
    else
      assert ids == [ids[0]] + ids[1..];
      [ids[0]] + Insert(x, ids[1..], cards)
  }

  /** Inserting keeps a newest-first sequence newest first. */
  lemma {:induction false} InsertSorted(x: CardId, ids: seq<CardId>, cards: map<CardId, Card>)
    requires SortedNewestFirst(ids, cards)
    ensures SortedNewestFirst(Insert(x, ids, cards), cards)
  {
    if !(ids == [] || CompletedTime(cards, ids[0]) <= CompletedTime(cards, x)) {
      InsertSorted(x, ids[1..], cards);
      var rest := Insert(x, ids[1..], cards);
      forall k | 0 <= k < |rest|
        ensures CompletedTime(cards, ids[0]) >= CompletedTime(cards, rest[k])
      {
        assert rest[k] in multiset(rest);
        assert rest[k] in multiset(ids[1..]) || rest[k] == x;
        if rest[k] != x {
          var m :| 0 <= m < |ids[1..]| && ids[1..][m] == rest[k];
          assert ids[m + 1] == rest[k];
        }
      }
    }
  }

  /**
   * `Array.prototype.sort` with the comparator `bTime - aTime`: a stable
   * sort, newest completion first.
   */
  function SortNewestFirst(ids: seq<CardId>, cards: map<CardId, Card>): (r: seq<CardId>)
    ensures multiset(r) == multiset(ids)
  {
    if ids == [] then []
    else
      assert ids == [ids[0]] + ids[1..];
      Insert(ids[0], SortNewestFirst(ids[1..], cards), cards)
  }

  lemma {:induction false} SortSorted(ids: seq<CardId>, cards: map<CardId, Card>)
    ensures SortedNewestFirst(SortNewestFirst(ids, cards), cards)
  {
    if ids != [] {
      SortSorted(ids[1..], cards);
      InsertSorted(ids[0], SortNewestFirst(ids[1..], cards), cards);
    }
  }

  /** `getSortedCardIds`: incomplete cards in their order, then completed cards newest first. */
  function GetSortedCardIds(ids: seq<CardId>, cards: map<CardId, Card>): (r: seq<CardId>)
    ensures multiset(r) == multiset(ids)
    ensures forall i, j | 0 <= i < j < |r| :: IsCompleted(cards, r[i]) ==> IsCompleted(cards, r[j])
  {
    var done := SortNewestFirst(Completed(ids, cards), cards);
    PartitionMultiset(ids, cards);
    MultisetElements(done, Completed(ids, cards));
    Incomplete(ids, cards) + done
  }

  /** `getVisibleCardIds`: the sorted ids, without the completed ones when `hideCompleted`. */
  function GetVisibleCardIds(ids: seq<CardId>, cards: map<CardId, Card>, hideCompleted: bool): (r: seq<CardId>)
    ensures hideCompleted ==> r == Incomplete(ids, cards)
    ensures !hideCompleted ==> r == GetSortedCardIds(ids, cards) && multiset(r) == multiset(ids)
  {
    var sorted := GetSortedCardIds(ids, cards);
    if hideCompleted then
      var inc := Incomplete(ids, cards);
      var done := SortNewestFirst(Completed(ids, cards), cards);
      MultisetElements(done, Completed(ids, cards));
      IncompleteAppend(inc, done, cards);
      IncompleteOfIncomplete(inc, cards);
      CompletedOfCompleted(done, cards);
      Incomplete(sorted, cards)
    else sorted
  }

  /** `getListForCard`: the first list, in list order, whose `cardIds` contain `cardId`. */
  function GetListForCard(board: BoardData, cardId: CardId): (r: Option<List>)
    ensures r.None? <==> forall i | 0 <= i < |board.lists| :: cardId !in board.lists[i].cardIds
    ensures r.Some? ==> exists i | 0 <= i < |board.lists| ::
      board.lists[i] == r.value && cardId in r.value.cardIds
      && forall j | 0 <= j < i :: cardId !in board.lists[j].cardIds
  {
    FindList(board.lists, cardId)
  }

  function FindList(lists: seq<List>, cardId: CardId): (r: Option<List>)
    ensures r.None? <==> forall i | 0 <= i < |lists| :: cardId !in lists[i].cardIds
    ensures r.Some? ==> exists i | 0 <= i < |lists| ::
      lists[i] == r.value && cardId in r.value.cardIds
      && forall j | 0 <= j < i :: cardId !in lists[j].cardIds
  {
    if lists == [] then None
    else if cardId in lists[0].cardIds then Some(lists[0])
    else
      var r := FindList(lists[1..], cardId);
      assert forall i | 1 <= i < |lists| :: lists[i] == lists[1..][i - 1];
      if r.Some? then
        var i :| 0 <= i < |lists[1..]| && lists[1..][i] == r.value && cardId in r.value.cardIds
          && forall j | 0 <= j < i :: cardId !in lists[1..][j].cardIds;
        assert lists[i + 1] == r.value;
        r
      else r
  }

  /** `getLabelName`: the stored name for a colour; "" when there is none (or it is empty). */
  function GetLabelName(board: BoardData, color: string): (r: string)
    ensures color in board.labelNames ==> r == board.labelNames[color]
    ensures color !in board.labelNames ==> r == ""
  {
    if color in board.labelNames && board.labelNames[color] != "" then board.labelNames[color] else ""
  }

  // ----- Properties of the card order -----

  lemma {:induction false} IncompleteAppend(a: seq<CardId>, b: seq<CardId>, cards: map<CardId, Card>)
    ensures Incomplete(a + b, cards) == Incomplete(a, cards) + Incomplete(b, cards)
  {
    if a == [] {
      assert a + b == b;
    } else {
      assert (a + b)[0] == a[0] && (a + b)[1..] == a[1..] + b;
      IncompleteAppend(a[1..], b, cards);
    }
  }

  lemma {:induction false} CompletedAppend(a: seq<CardId>, b: seq<CardId>, cards: map<CardId, Card>)
    ensures Completed(a + b, cards) == Completed(a, cards) + Completed(b, cards)
  {
    if a == [] {
      assert a + b == b;
    } else {
      assert (a + b)[0] == a[0] && (a + b)[1..] == a[1..] + b;
      CompletedAppend(a[1..], b, cards);
    }
  }

  /** Filtering out completed ids keeps every id of a sequence with no completed id. */
  lemma {:induction false} IncompleteOfIncomplete(ids: seq<CardId>, cards: map<CardId, Card>)
    requires forall i | 0 <= i < |ids| :: !IsCompleted(cards, ids[i])
    ensures Incomplete(ids, cards) == ids
    ensures Completed(ids, cards) == []
  {
    if ids != [] {
      IncompleteOfIncomplete(ids[1..], cards);
    }
  }

  lemma {:induction false} CompletedOfCompleted(ids: seq<CardId>, cards: map<CardId, Card>)
    requires forall i | 0 <= i < |ids| :: IsCompleted(cards, ids[i])
    ensures Completed(ids, cards) == ids
    ensures Incomplete(ids, cards) == []
  {
    if ids != [] {
      CompletedOfCompleted(ids[1..], cards);
    }
  }

  lemma {:induction false} WithTimeInsert(x: CardId, ids: seq<CardId>, cards: map<CardId, Card>, t: int)
    requires SortedNewestFirst(ids, cards)
    ensures WithTime(Insert(x, ids, cards), cards, t)
         == (if CompletedTime(cards, x) == t then [x] else []) + WithTime(ids, cards, t)
  {
    if ids == [] || CompletedTime(cards, ids[0]) <= CompletedTime(cards, x) {
      assert ([x] + ids)[1..] == ids;
    } else {
      InsertSorted(x, ids[1..], cards);
      WithTimeInsert(x, ids[1..], cards, t);
      assert ([ids[0]] + Insert(x, ids[1..], cards))[1..] == Insert(x, ids[1..], cards);
    }
  }

  /** The sort is stable: the ids that share a completion time keep their relative order. */
  lemma {:induction false} SortIsStable(ids: seq<CardId>, cards: map<CardId, Card>, t: int)
    ensures WithTime(SortNewestFirst(ids, cards), cards, t) == WithTime(ids, cards, t)
  {
    if ids != [] {
      SortIsStable(ids[1..], cards, t);
      SortSorted(ids[1..], cards);
      WithTimeInsert(ids[0], SortNewestFirst(ids[1..], cards), cards, t);
    }
  }

  lemma MultisetElements(a: seq<CardId>, b: seq<CardId>)
    requires multiset(a) == multiset(b)
    ensures forall i | 0 <= i < |a| :: a[i] in b
  {
    forall i | 0 <= i < |a| ensures a[i] in b {
      assert a[i] in multiset(a);
    }
  }

  /** The incomplete ids come out in their input order. */
  lemma SortedKeepsIncompleteOrder(ids: seq<CardId>, cards: map<CardId, Card>)
    ensures Incomplete(GetSortedCardIds(ids, cards), cards) == Incomplete(ids, cards)
  {
    var inc := Incomplete(ids, cards);
    var sorted := SortNewestFirst(Completed(ids, cards), cards);
    MultisetElements(sorted, Completed(ids, cards));
    IncompleteAppend(inc, sorted, cards);
    IncompleteOfIncomplete(inc, cards);
    CompletedOfCompleted(sorted, cards);
  }

  /**
   * The completed ids come out newest first, and completed ids with the same
   * completion time keep their input order.
   */
  lemma SortedCompletedNewestFirst(ids: seq<CardId>, cards: map<CardId, Card>)
    ensures var done := Completed(GetSortedCardIds(ids, cards), cards);
      && SortedNewestFirst(done, cards)
      && multiset(done) == multiset(Completed(ids, cards))
      && forall t :: WithTime(done, cards, t) == WithTime(Completed(ids, cards), cards, t)
  {
    var inc := Incomplete(ids, cards);
    var com := Completed(ids, cards);
    var sorted := SortNewestFirst(com, cards);
    MultisetElements(sorted, com);
    CompletedAppend(inc, sorted, cards);
    IncompleteOfIncomplete(inc, cards);
    CompletedOfCompleted(sorted, cards);
    assert Completed(GetSortedCardIds(ids, cards), cards) == sorted;
    SortSorted(com, cards);
    forall t ensures WithTime(sorted, cards, t) == WithTime(com, cards, t) {
      SortIsStable(com, cards, t);
    }
  }

  /** Splitting into incomplete and completed ids loses no id. */
  lemma {:induction false} PartitionMultiset(ids: seq<CardId>, cards: map<CardId, Card>)
    ensures multiset(Incomplete(ids, cards)) + multiset(Completed(ids, cards)) == multiset(ids)
  {
    if ids != [] {
      PartitionMultiset(ids[1..], cards);
      assert ids == [ids[0]] + ids[1..];
    }
  }
}
