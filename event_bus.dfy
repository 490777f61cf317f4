/**
 * The in-process registry behind live board updates: for each board, the
 * open event streams keyed by client id, in subscription order. A save on
 * one client is broadcast to every other client of the same board as a
 * server-sent event (section 9.2 "Server-sent events" of the HTML Living
 * Standard); streams that refuse the event are dropped.
 *
 * The outer map is the `Bus`; each inner map is a `Subscribers` object,
 * because the unsubscribe closure captures the inner map by reference.
 * A stream controller is a `Sink`; which sinks accept an enqueue at the
 * time of a broadcast is a parameter. The JSON payload is an opaque string.
 */
module EventBus {
  import opened Wrappers
  import opened Text

  type BoardId = string
  type ClientId = string

  /** A stream controller, known only by its identity. */
  class Sink {
    constructor () {}
  }

  /** The record stored per client: a fresh object on every subscription. */
  class Subscriber {
    const clientId: ClientId
    const controller: Sink

    constructor (clientId: ClientId, controller: Sink)
      ensures this.clientId == clientId && this.controller == controller
    {
      this.clientId := clientId;
      this.controller := controller;
    }
  }

  ghost predicate NoDup(ids: seq<ClientId>) {
    forall c :: multiset(ids)[c] <= 1
  }

  /** The effect of `Map.delete(c)` on the insertion order. */
  function Remove(ids: seq<ClientId>, c: ClientId): (r: seq<ClientId>)
    ensures c !in r
    ensures forall x | x != c :: x in r <==> x in ids
    ensures |r| <= |ids|
  {
    if ids == [] then []
    else (if ids[0] == c then [] else [ids[0]]) + Remove(ids[1..], c)
  }

  /** Deleting a key drops exactly its occurrences and keeps every other key as often as before. */
  lemma {:induction false} RemoveSpec(ids: seq<ClientId>, c: ClientId)
    ensures multiset(Remove(ids, c)) == multiset(ids)[c := 0]
    ensures c !in ids ==> Remove(ids, c) == ids
  {
    if ids != [] {
      RemoveSpec(ids[1..], c);
      var head := if ids[0] == c then [] else [ids[0]];
      assert Remove(ids, c) == head + Remove(ids[1..], c);
      assert ids == [ids[0]] + ids[1..];
    }
  }

  lemma {:induction false} RemoveMiddle(a: seq<ClientId>, c: ClientId, b: seq<ClientId>)
    requires c !in a && c !in b
    ensures Remove(a + [c] + b, c) == a + b
  {
    if a == [] {
      RemoveSpec(b, c);
      assert a + [c] + b == [c] + b;
      assert ([c] + b)[1..] == b;
    } else {
      RemoveMiddle(a[1..], c, b);
      assert (a + [c] + b)[1..] == a[1..] + [c] + b;
      assert a + b == [a[0]] + (a[1..] + b);
    }
  }

  lemma {:induction false} DistinctCardinality(ids: seq<ClientId>)
    requires NoDup(ids)
    ensures |set c | c in ids| == |ids|
  {
    if ids != [] {
      var t := ids[1..];
      assert ids == [ids[0]] + t;
      assert NoDup(t) by {
        forall c ensures multiset(t)[c] <= 1 {
          assert multiset(ids)[c] <= 1;
        }
      }
      assert ids[0] !in t by {
        assert multiset(ids)[ids[0]] <= 1;
      }
      DistinctCardinality(t);
      assert (set c | c in ids) == {ids[0]} + (set c | c in t);
    }
  }

  /** The size of a well-formed map is the number of keys it binds. */
  lemma SizeCountsKeys(s: Subscribers)
    requires s.Valid()
    ensures s.Size() == |s.entries|
  {
    assert s.entries.Keys == set c | c in s.order;
    DistinctCardinality(s.order);
  }

  /** One board's subscribers: a JavaScript `Map` from client id to subscriber. */
  class Subscribers {
    /** The board this map was created for; the closures capture both. */
    ghost const board: BoardId
    /** The keys in insertion order, which is the order `for ... of` visits. */
    var order: seq<ClientId>
    var entries: map<ClientId, Subscriber>

    ghost predicate Valid()
      reads this
    {
      && NoDup(order)
      && (forall c :: c in entries <==> c in order)
      && (forall c | c in entries :: entries[c].clientId == c)
    }

    /** `subs.size`: the number of keys the map holds. */
    function Size(): nat
      reads this
    {
      |order|
    }

    constructor (board: BoardId)
      ensures Valid() && this.board == board
      ensures order == [] && entries == map[]
    {
      this.board := board;
      order := [];
      entries := map[];
    }

    /** `subs.set(c, e)`: a new key goes last, an existing key keeps its place. */
    method Put(c: ClientId, e: Subscriber)
      requires Valid() && e.clientId == c
      modifies this
      ensures Valid()
      ensures entries == old(entries)[c := e]
      ensures order == if c in old(entries) then old(order) else old(order) + [c]
    {
      if c !in entries {
        order := order + [c];
      }
      entries := entries[c := e];
      forall x
        ensures x in entries <==> x in order
      {
        assert x in old(entries) <==> x in old(order);
      }
    }

    /** `subs.delete(c)` */
    method Delete(c: ClientId)
      requires Valid()
      modifies this
      ensures Valid()
      ensures entries == old(entries) - {c}
      ensures order == Remove(old(order), c)
    {
      entries := entries - {c};
      RemoveSpec(order, c);
      order := Remove(order, c);
      forall x
        ensures x in entries <==> x in order
      {
        assert x in old(entries) <==> x in old(order);
        assert x in order <==> multiset(order)[x] > 0;
        assert x in old(order) <==> multiset(old(order))[x] > 0;
      }
    }

    /**
     * One pass of the loop body: the sender is skipped, an accepting sink
     * is written to, and a refusing one is deleted.
     */
    method Visit(id: ClientId, sender: ClientId, accepting: set<Sink>) returns (written: bool)
      requires Valid() && id in entries
      modifies this
      ensures Valid()
      ensures written <==> Receives(id, old(entries), sender, accepting)
      ensures Kept(id, old(entries), sender, accepting) ==> entries == old(entries) && order == old(order)
      ensures !Kept(id, old(entries), sender, accepting) ==>
        entries == old(entries) - {id} && order == Remove(old(order), id)
    {
      written := false;
      if id != sender {
        if entries[id].controller in accepting {
          written := true;
        } else {
          Delete(id);
        }
      }
    }

    /**
     * The invariant of the loop in `Deliver` after visiting the first `i`
     * clients of `snapshot`: the live order is the survivors so far followed
     * by the clients not yet visited, every live entry is an original one,
     * and `sent` logs the clients written to so far.
     */
    ghost predicate Visited(snapshot: seq<ClientId>, i: nat, entries0: map<ClientId, Subscriber>, sender: ClientId, accepting: set<Sink>,
                            sent: seq<ClientId>)
      reads this
    {
      && i <= |snapshot|
      && Valid()
      && order == Survivors(snapshot, i, entries0, sender, accepting) + snapshot[i..]
      && SubMap(entries, entries0)
      && sent == Delivered(snapshot, i, entries0, sender, accepting)
    }

    /** One iteration of the loop in `Deliver`. */
    method Step(snapshot: seq<ClientId>, i: nat, ghost entries0: map<ClientId, Subscriber>, sender: ClientId, accepting: set<Sink>,
                sent: seq<ClientId>) returns (sent': seq<ClientId>)
      requires i < |snapshot| && Visited(snapshot, i, entries0, sender, accepting, sent)
      modifies this
      ensures Visited(snapshot, i + 1, entries0, sender, accepting, sent')
    {
      var id := snapshot[i];
      assert id in order by { assert snapshot[i..][0] == id; }
      ghost var order1, entries1 := order, entries;
      var written := Visit(id, sender, accepting);
      LoopStep(snapshot, i, entries0, sender, accepting, order1, entries1, order, entries, written);
      sent' := sent + if written then [id] else [];
    }

    /**
     * The loop of `broadcast` over this map: visit the clients in order,
     * skip the sender, enqueue to each whose sink accepts and delete each
     * whose sink refuses. Deleting the entry just visited does not disturb
     * the iteration, so visiting a snapshot of the order is the same.
     */
    method Deliver(sender: ClientId, accepting: set<Sink>) returns (sent: seq<ClientId>)
      requires Valid()
      modifies this
      ensures Valid()
      ensures sent == Delivered(old(order), |old(order)|, old(entries), sender, accepting)
      ensures order == Survivors(old(order), |old(order)|, old(entries), sender, accepting)
      ensures forall c | c in entries :: c in old(entries) && entries[c] == old(entries[c])
    {
      ghost var entries0 := entries;
      var snapshot := order;
      assert snapshot[0..] == snapshot;
      sent := Walk(snapshot, entries0, sender, accepting);
      assert snapshot[|snapshot|..] == [];
    }

    /** The loop of `Deliver` over a snapshot of the order. */
    method Walk(snapshot: seq<ClientId>, ghost entries0: map<ClientId, Subscriber>, sender: ClientId, accepting: set<Sink>)
      returns (sent: seq<ClientId>)
      requires Visited(snapshot, 0, entries0, sender, accepting, [])
      modifies this
      ensures Visited(snapshot, |snapshot|, entries0, sender, accepting, sent)
    {
      sent := [];
      for i := 0 to |snapshot|
        invariant Visited(snapshot, i, entries0, sender, accepting, sent)
      {
        sent := Step(snapshot, i, entries0, sender, accepting, sent);
      }
    }
  }

  /**
   * The loop of `Subscribers.Deliver` keeps its invariant: after visiting
   * `ids[i]` as `Visit` does, the live order is the survivors of the first
   * `i + 1` clients followed by the unvisited ones, the entries are still
   * a part of the original ones, and the log grows by the visited client
   * exactly when it receives the frame.
   */
  lemma LoopStep(ids: seq<ClientId>, i: nat, entries0: map<ClientId, Subscriber>, sender: ClientId, accepting: set<Sink>,
                 order: seq<ClientId>, entries: map<ClientId, Subscriber>, order': seq<ClientId>, entries': map<ClientId, Subscriber>,
                 written: bool)
    requires i < |ids| && ids[i] in entries && NoDup(order)
    requires order == Survivors(ids, i, entries0, sender, accepting) + ids[i..]
    requires SubMap(entries, entries0)
    requires Kept(ids[i], entries, sender, accepting) ==> entries' == entries && order' == order
    requires !Kept(ids[i], entries, sender, accepting) ==> entries' == entries - {ids[i]} && order' == Remove(order, ids[i])
    ensures order' == Survivors(ids, i + 1, entries0, sender, accepting) + ids[i + 1..]
    requires written <==> Receives(ids[i], entries, sender, accepting)
    ensures SubMap(entries', entries0)
    ensures Delivered(ids, i + 1, entries0, sender, accepting)
      == Delivered(ids, i, entries0, sender, accepting) + (if written then [ids[i]] else [])
  {
    assert entries[ids[i]] == entries0[ids[i]];
    VisitStep(ids, i, entries0, sender, accepting);
    if !Kept(ids[i], entries, sender, accepting) {
      SubMapDelete(entries, entries0, ids[i]);
    }
  }

  /** Every binding of `sub` is also a binding of `whole`. */
  ghost predicate SubMap(sub: map<ClientId, Subscriber>, whole: map<ClientId, Subscriber>) {
    forall c | c in sub :: c in whole && sub[c] == whole[c]
  }

  lemma SubMapDelete(sub: map<ClientId, Subscriber>, whole: map<ClientId, Subscriber>, k: ClientId)
    requires SubMap(sub, whole)
    ensures SubMap(sub - {k}, whole)
  {
  }

  /** The closure `subscribe` returns, as the values it captured. */
  datatype Unsubscribe = Unsubscribe(boardId: BoardId, clientId: ClientId, subs: Subscribers, entry: Subscriber)

  /** Whether a broadcast keeps `c`: the sender is skipped, other subscribers stay if their sink accepts. */
  predicate Kept(c: ClientId, entries: map<ClientId, Subscriber>, sender: ClientId, accepting: set<Sink>) {
    c == sender || (c in entries && entries[c].controller in accepting)
  }

  /** Whether a broadcast enqueues to `c`. */
  predicate Receives(c: ClientId, entries: map<ClientId, Subscriber>, sender: ClientId, accepting: set<Sink>) {
    c != sender && c in entries && entries[c].controller in accepting
  }

  /** The subscribers left, in order, after a broadcast visits the first `n` of `ids`. */
  function Survivors(ids: seq<ClientId>, n: nat, entries: map<ClientId, Subscriber>, sender: ClientId, accepting: set<Sink>): (r: seq<ClientId>)
    requires n <= |ids|
  {
    if n == 0 then []
    else Survivors(ids, n - 1, entries, sender, accepting) + (if Kept(ids[n - 1], entries, sender, accepting) then [ids[n - 1]] else [])
  }

  /** The clients a broadcast enqueues to, in order, while it visits the first `n` of `ids`. */
  function Delivered(ids: seq<ClientId>, n: nat, entries: map<ClientId, Subscriber>, sender: ClientId, accepting: set<Sink>): (r: seq<ClientId>)
    requires n <= |ids|
  {
    if n == 0 then []
    else Delivered(ids, n - 1, entries, sender, accepting) + (if Receives(ids[n - 1], entries, sender, accepting) then [ids[n - 1]] else [])
  }

  /** A broadcast keeps exactly the sender and the subscribers whose sink accepts, each as often as before. */
  lemma {:induction false} SurvivorsSpec(ids: seq<ClientId>, n: nat, entries: map<ClientId, Subscriber>, sender: ClientId, accepting: set<Sink>)
    requires n <= |ids|
    ensures var r := Survivors(ids, n, entries, sender, accepting);
      && (forall c :: c in r <==> c in ids[..n] && Kept(c, entries, sender, accepting))
      && multiset(r) <= multiset(ids[..n])
  {
    if n > 0 {
      SurvivorsSpec(ids, n - 1, entries, sender, accepting);
      assert ids[..n] == ids[..n - 1] + [ids[n - 1]];
    }
  }

  /** A broadcast enqueues to exactly the subscribers other than the sender whose sink accepts. */
  lemma {:induction false} DeliveredSpec(ids: seq<ClientId>, n: nat, entries: map<ClientId, Subscriber>, sender: ClientId, accepting: set<Sink>)
    requires n <= |ids|
    ensures var r := Delivered(ids, n, entries, sender, accepting);
      && (forall c :: c in r <==> c in ids[..n] && Receives(c, entries, sender, accepting))
      && multiset(r) <= multiset(ids[..n])
      && sender !in r
  {
    if n > 0 {
      DeliveredSpec(ids, n - 1, entries, sender, accepting);
      assert ids[..n] == ids[..n - 1] + [ids[n - 1]];
    }
  }

  /**
   * Visiting the i-th client: a kept client stays where it is, a refusing
   * one is deleted from the live order, and a receiving one is logged.
   */
  lemma VisitStep(ids: seq<ClientId>, i: nat, entries: map<ClientId, Subscriber>, sender: ClientId, accepting: set<Sink>)
    requires i < |ids| && NoDup(Survivors(ids, i, entries, sender, accepting) + ids[i..])
    ensures var kept := Survivors(ids, i, entries, sender, accepting);
      && (Kept(ids[i], entries, sender, accepting) ==>
           Survivors(ids, i + 1, entries, sender, accepting) + ids[i + 1..] == kept + ids[i..])
      && (!Kept(ids[i], entries, sender, accepting) ==>
           Survivors(ids, i + 1, entries, sender, accepting) + ids[i + 1..] == Remove(kept + ids[i..], ids[i]))
    ensures Delivered(ids, i + 1, entries, sender, accepting)
      == Delivered(ids, i, entries, sender, accepting) + (if Receives(ids[i], entries, sender, accepting) then [ids[i]] else [])
  {
    var kept := Survivors(ids, i, entries, sender, accepting);
    assert ids[i..] == [ids[i]] + ids[i + 1..];
    if !Kept(ids[i], entries, sender, accepting) {
      DropStep(ids, i, kept);
    }
  }

  /** Deleting the i-th client from the survivors so far followed by the unvisited clients. */
  lemma DropStep(ids: seq<ClientId>, i: nat, kept: seq<ClientId>)
    requires i < |ids| && NoDup(kept + ids[i..])
    ensures Remove(kept + ids[i..], ids[i]) == kept + ids[i + 1..]
  {
    var id := ids[i];
    var rest := ids[i + 1..];
    assert kept + ids[i..] == kept + [id] + rest;
    assert id !in kept && id !in rest by {
      assert multiset(kept + [id] + rest) == multiset(kept) + multiset{id} + multiset(rest);
      assert multiset(kept + [id] + rest)[id] <= 1;
    }
    RemoveMiddle(kept, id, rest);
  }

  /** Over distinct subscribers, every receiving client gets the event exactly once. */
  lemma DeliveredExactlyOnce(ids: seq<ClientId>, entries: map<ClientId, Subscriber>, sender: ClientId, accepting: set<Sink>, c: ClientId)
    requires NoDup(ids)
    ensures multiset(Delivered(ids, |ids|, entries, sender, accepting))[c] == if c in ids && Receives(c, entries, sender, accepting) then 1 else 0
  {
    var r := Delivered(ids, |ids|, entries, sender, accepting);
    DeliveredSpec(ids, |ids|, entries, sender, accepting);
    assert ids[..|ids|] == ids;
    assert multiset(r)[c] <= multiset(ids)[c] <= 1;
    assert c in r <==> multiset(r)[c] > 0;
  }

  /** The text/event-stream frame: an `event` line, a `data` line, and a blank line. */
  function Frame(event: string, data: string): (f: string)
    ensures StartsWith(f, "event: ")
    ensures |f| == |event| + |data| + 16
  {
    "event: " + event + "\ndata: " + data + "\n\n"
  }

  /**
   * The inverse of `Frame` that `FrameRoundTrip` is stated with: the event
   * name and the data of a single frame. It is not a general
   * text/event-stream parser.
   */
  function ParseFrame(f: string): (r: Option<(string, string)>)
    ensures r.Some? ==> !ContainsChar(r.value.0, '\n')
  {
    if !StartsWith(f, "event: ") then None
    else
      var rest := f[7..];
      var k := IndexOf(rest, "\n");
      if k == -1 then None
      else
        assert forall j | 0 <= j < k :: rest[..k][j] != '\n' by {
          forall j | 0 <= j < k
            ensures rest[..k][j] != '\n'
          {
            assert !OccursAt(rest, "\n", j);
            assert rest[j..j + 1][0] == rest[j];
          }
        }
        var tail := rest[k + 1..];
        if |tail| < 8 || tail[..6] != "data: " || tail[|tail| - 2..] != "\n\n" then None
        else Some((rest[..k], tail[6..|tail| - 2]))
  }

  /** A frame is read back as the event and data it was built from, when the event name is one line. */
  lemma FrameRoundTrip(event: string, data: string)
    requires !ContainsChar(event, '\n')
    ensures ParseFrame(Frame(event, data)) == Some((event, data))
  {
    var f := Frame(event, data);
    var rest := f[7..];
    assert rest == event + "\ndata: " + data + "\n\n";
    var nl: string := "\n";
    var k := IndexOf(rest, nl);
    assert OccursAt(rest, nl, |event|) by { assert rest[|event|..|event| + 1] == nl; }
    forall j | 0 <= j < |event|
      ensures !OccursAt(rest, nl, j)
    {
      assert rest[j..j + 1][0] == event[j];
    }
    assert k == |event|;
    var tail := rest[k + 1..];
    assert tail == "data: " + data + "\n\n";
    assert rest[..k] == event;
    assert tail[6..|tail| - 2] == data;
  }

  class Bus {
    /** The module-level `boards` map. */
    var boards: map<BoardId, Subscribers>
    /** Every subscriber map ever created, current or captured by a closure. */
    ghost var Repr: set<Subscribers>

    /** Each board's map was made for it and is non-empty; all maps are well formed. */
    ghost predicate Valid()
      reads this, Repr
    {
      && boards.Values <= Repr
      && (forall s | s in Repr :: s.Valid())
      && (forall b | b in boards :: boards[b].board == b && boards[b].order != [])
    }

    constructor ()
      ensures Valid() && boards == map[] && Repr == {}
    {
      boards := map[];
      Repr := {};
    }

    /** `getSubscriberCount`: the size of the board's map, 0 for a board with none. */
    function SubscriberCount(boardId: BoardId): (n: nat)
      reads this, boards.Values
      ensures boardId !in boards ==> n == 0
      ensures boardId in boards ==> n == |boards[boardId].order|
    {
      if boardId in boards then boards[boardId].Size() else 0
    }

    /**
     * The first half of `subscribe`: the board's map, created empty and
     * registered when the board has none.
     */
    method MapFor(boardId: BoardId) returns (subs: Subscribers)
      requires Valid()
      modifies this
      ensures boards == old(boards)[boardId := subs] && Repr == old(Repr) + {subs}
      ensures boardId in old(boards) ==> subs == old(boards[boardId])
      ensures boardId !in old(boards) ==> fresh(subs) && subs.order == [] && subs.entries == map[]
      ensures subs.board == boardId && boards.Values <= Repr
      ensures forall s | s in Repr :: s.Valid()
      ensures forall b | b in boards :: boards[b].board == b && (b != boardId ==> boards[b].order != [])
    {
      if boardId in boards {
        subs := boards[boardId];
        assert boards == boards[boardId := subs];
      } else {
        subs := new Subscribers(boardId);
        boards := boards[boardId := subs];
        Repr := Repr + {subs};
      }
    }

    /**
     * `subscribe`: create the board's map if absent and bind `clientId` to a
     * fresh subscriber. A new client goes last and raises the count by one;
     * a present client keeps its place and the count, its old sink replaced.
     */
    method Subscribe(boardId: BoardId, clientId: ClientId, controller: Sink) returns (u: Unsubscribe)
      requires Valid()
      modifies this, boards.Values
      ensures Valid()
      ensures u.boardId == boardId && u.clientId == clientId
      ensures fresh(u.entry) && u.entry.clientId == clientId && u.entry.controller == controller
      ensures boards == old(boards)[boardId := u.subs] && u.subs.board == boardId
      ensures boardId in old(boards) ==> u.subs == old(boards[boardId])
      ensures boardId !in old(boards) ==> fresh(u.subs)
      ensures Repr == old(Repr) + {u.subs}
      ensures var before := if boardId in old(boards) then old(boards[boardId].entries) else map[];
        u.subs.entries == before[clientId := u.entry]
      ensures var before := if boardId in old(boards) then old(boards[boardId].order) else [];
        u.subs.order == if clientId in before then before else before + [clientId]
      ensures SubscriberCount(boardId) == old(SubscriberCount(boardId))
        + (if boardId in old(boards) && clientId in old(boards[boardId].entries) then 0 else 1)
      ensures forall b | b != boardId :: SubscriberCount(b) == old(SubscriberCount(b))
      ensures forall b | b in old(boards) && b != boardId ::
        boards[b] == old(boards[b]) && boards[b].entries == old(boards[b].entries) && boards[b].order == old(boards[b].order)
    {
      ghost var beforeOrder := if boardId in boards then boards[boardId].order else [];
      ghost var beforeEntries := if boardId in boards then boards[boardId].entries else map[];
      var subs := MapFor(boardId);
      assert subs.order == beforeOrder && subs.entries == beforeEntries;
      var entry := Bind(subs, clientId, controller);
      u := Unsubscribe(boardId, clientId, subs, entry);
    }

    /**
     * The second half of `subscribe`: bind `clientId` to a fresh subscriber
     * in the board's map `subs`, which `MapFor` has just registered.
     */
    method Bind(subs: Subscribers, clientId: ClientId, controller: Sink) returns (entry: Subscriber)
      requires subs in Repr && boards.Values <= Repr && (forall s | s in Repr :: s.Valid())
      requires subs.board in boards && boards[subs.board] == subs
      requires forall b | b in boards :: boards[b].board == b && (b != subs.board ==> boards[b].order != [])
      modifies subs
      ensures Valid()
      ensures fresh(entry) && entry.clientId == clientId && entry.controller == controller
      ensures subs.entries == old(subs.entries)[clientId := entry]
      ensures subs.order == if clientId in old(subs.entries) then old(subs.order) else old(subs.order) + [clientId]
      ensures forall b | b in boards && b != subs.board ::
        boards[b].order == old(boards[b].order) && boards[b].entries == old(boards[b].entries)
    {
      entry := new Subscriber(clientId, controller);
      subs.Put(clientId, entry);
    }

    /**
     * The closure `subscribe` returns, as written: delete the client from
     * the captured map, and delete the board's entry once that map is
     * empty, whatever map the entry holds by then.
     */
    method RunUnsubscribe(u: Unsubscribe)
      requires Valid() && u.subs in Repr && u.subs.board == u.boardId
      modifies this, u.subs
      ensures Valid() && Repr == old(Repr)
      ensures u.subs.entries == old(u.subs.entries) - {u.clientId}
      ensures u.subs.order == Remove(old(u.subs.order), u.clientId)
      ensures boards == if u.subs.order == [] then old(boards) - {u.boardId} else old(boards)
    {
      u.subs.Delete(u.clientId);
      if u.subs.Size() == 0 {
        boards := boards - {u.boardId};
      }
    }

    /**
     * The closure with the two identity checks it evidently intends: it
     * deletes the client only while the map still holds this very
     * subscription, and deletes the board's entry only while that entry is
     * the captured map.
     */
    method RunUnsubscribeGuarded(u: Unsubscribe)
      requires Valid() && u.subs in Repr && u.subs.board == u.boardId
      modifies this, u.subs
      ensures Valid() && Repr == old(Repr)
      ensures var owned := u.clientId in old(u.subs.entries) && old(u.subs.entries[u.clientId]) == u.entry;
        && (!owned ==> u.subs.entries == old(u.subs.entries) && u.subs.order == old(u.subs.order) && boards == old(boards))
        && (owned ==> u.subs.entries == old(u.subs.entries) - {u.clientId} && u.subs.order == Remove(old(u.subs.order), u.clientId))
      ensures u.clientId in old(u.subs.entries) ==> u.clientId in u.subs.entries || u.subs.entries[u.clientId := u.entry] == old(u.subs.entries)
      ensures forall b | b in old(boards) && old(boards[b]) != u.subs :: b in boards && boards[b] == old(boards[b])
      ensures boards.Keys <= old(boards.Keys)
      ensures forall b | b in boards :: boards[b] == old(boards[b])
    {
      if u.clientId in u.subs.entries && u.subs.entries[u.clientId] == u.entry {
        u.subs.Delete(u.clientId);
        Release(u.boardId, u.subs);
      }
    }

    /** The guarded second step of the closure: drop the board's entry while it is the emptied map `subs`. */
    method Release(boardId: BoardId, subs: Subscribers)
      requires subs in Repr && subs.board == boardId && boards.Values <= Repr && (forall s | s in Repr :: s.Valid())
      requires forall b | b in boards :: boards[b].board == b && (boards[b] != subs ==> boards[b].order != [])
      modifies this
      ensures Valid() && Repr == old(Repr)
      ensures boards == if boardId in old(boards) && old(boards[boardId]) == subs && subs.order == [] then old(boards) - {boardId}
        else old(boards)
    {
      if boardId in boards && boards[boardId] == subs && subs.Size() == 0 {
        boards := boards - {boardId};
      }
    }

    /**
     * `broadcast`: visit the board's subscribers in order, skip the sender,
     * enqueue `frame` to each whose sink accepts and delete each whose sink
     * refuses; then drop the board's entry if no subscriber is left. A board
     * with no entry is left alone. `sent` lists the clients enqueued to.
     */
    method Broadcast(boardId: BoardId, sender: ClientId, event: string, data: string, accepting: set<Sink>)
      returns (sent: seq<ClientId>, frame: string)
      requires Valid()
      modifies this, boards.Values
      ensures Valid() && Repr == old(Repr)
      ensures frame == Frame(event, data)
      ensures boardId !in old(boards) ==> sent == [] && boards == old(boards)
      ensures boardId in old(boards) ==>
        var subs := old(boards[boardId]);
        && sent == Delivered(old(subs.order), |old(subs.order)|, old(subs.entries), sender, accepting)
        && subs.order == Survivors(old(subs.order), |old(subs.order)|, old(subs.entries), sender, accepting)
        && (forall c :: c in subs.entries <==> c in subs.order)
        && (forall c | c in subs.entries :: c in old(subs.entries) && subs.entries[c] == old(subs.entries[c]))
        && boards == if subs.order == [] then old(boards) - {boardId} else old(boards)
      ensures forall s | s in Repr && (boardId !in old(boards) || s != old(boards[boardId])) ::
        s.order == old(s.order) && s.entries == old(s.entries)
    {
      frame := Frame(event, data);
      sent := [];
      if boardId !in boards {
        return;
      }
      var subs := boards[boardId];
      sent := subs.Deliver(sender, accepting);
      if subs.Size() == 0 {
        boards := boards - {boardId};
      }
    }
  }

  /**
   * A client id subscribes twice to one board (a reconnect that reuses the
   * id), then the first subscription's closure runs: as written, it removes
   * the second, live subscription and the board's entry with it.
   */
  method ReusedClientIdAsWritten() returns (count: nat)
    ensures count == 0
  {
    var bus := new Bus();
    var first := new Sink();
    var second := new Sink();
    var u1 := bus.Subscribe("board", "client", first);
    var u2 := bus.Subscribe("board", "client", second);
    bus.RunUnsubscribe(u1);
    count := bus.SubscriberCount("board");
  }

  /** The same sequence with the guarded closure: the live subscription stays. */
  method ReusedClientIdGuarded() returns (count: nat)
    ensures count == 1
  {
    var bus := new Bus();
    var first := new Sink();
    var second := new Sink();
    var u1 := bus.Subscribe("board", "client", first);
    var u2 := bus.Subscribe("board", "client", second);
    bus.RunUnsubscribeGuarded(u1);
    count := bus.SubscriberCount("board");
  }

  /**
   * A closure runs twice: the first run empties and drops the board's map,
   * another client then subscribes to a fresh map, and the repeated run, as
   * written, finds its own captured map empty and drops the fresh one.
   */
  method StaleClosureAsWritten() returns (count: nat)
    ensures count == 0
  {
    var bus := new Bus();
    var a := new Sink();
    var b := new Sink();
    var u1 := bus.Subscribe("board", "client-a", a);
    bus.RunUnsubscribe(u1);
    var u2 := bus.Subscribe("board", "client-b", b);
    bus.RunUnsubscribe(u1);
    count := bus.SubscriberCount("board");
  }

  /** The same sequence with the guarded closure: the repeated run changes nothing. */
  method StaleClosureGuarded() returns (count: nat)
    ensures count == 1
  {
    var bus := new Bus();
    var a := new Sink();
    var b := new Sink();
    var u1 := bus.Subscribe("board", "client-a", a);
    bus.RunUnsubscribeGuarded(u1);
    var u2 := bus.Subscribe("board", "client-b", b);
    bus.RunUnsubscribeGuarded(u1);
    count := bus.SubscriberCount("board");
  }
}
