/**
 * The client side of live updates for one open board: a single
 * server-sent-events connection, re-opened after an error with exponential
 * backoff (1 s doubling to a 30 s cap, reset once the server confirms the
 * connection).
 *
 * The browser's EventSource is a `Connection` object whose only state is
 * whether it was closed; the timer is a pending flag plus the delay it was
 * scheduled with. Callbacks to the board page are recorded as the sequence
 * of boards handed to it and a count of deletion notices.
 */
module BoardSync {
  import opened Wrappers
  import opened BoardTypes
  import opened Text

  const InitialDelay: nat := 1000
  const MaxDelay: nat := 30000

  /** `Math.min(delay * 2, 30_000)` */
  function NextDelay(d: nat): (r: nat)
    ensures r <= MaxDelay
    ensures d <= MaxDelay / 2 ==> r == 2 * d
    ensures d > MaxDelay / 2 ==> r == MaxDelay
    ensures InitialDelay <= d ==> d <= r || r == MaxDelay
  {
    if d * 2 < MaxDelay then d * 2 else MaxDelay
  }

  /** The waits before each reconnect in a run of `n` errors with no `connected` event, starting at delay `d`. */
  function Waits(d: nat, n: nat): (r: seq<nat>)
    ensures |r| == n
    ensures n > 0 ==> r[0] == d
    decreases n
  {
    if n == 0 then [] else [d] + Waits(NextDelay(d), n - 1)
  }

  function Pow2(k: nat): (r: nat)
    ensures r >= 1
  {
    if k == 0 then 1 else 2 * Pow2(k - 1)
  }

  function Min(a: nat, b: nat): nat { if a <= b then a else b }

  /** The k-th wait of a run is the starting delay doubled k times, capped at 30 s. */
  lemma {:induction false} WaitsAreCappedDoubling(d: nat, n: nat, k: nat)
    requires d <= MaxDelay && k < n
    ensures Waits(d, n)[k] == Min(d * Pow2(k), MaxDelay)
    decreases k
  {
    if k > 0 {
      var p := Pow2(k - 1);
      WaitsAreCappedDoubling(NextDelay(d), n - 1, k - 1);
      assert Waits(d, n)[k] == Waits(NextDelay(d), n - 1)[k - 1];
      assert Pow2(k) == 2 * p;
      if d * 2 < MaxDelay {
        assert d * Pow2(k) == (2 * d) * p by { MulAssoc(d, 2, p); }
      } else {
        MulAtLeast(MaxDelay, p);
        MulAtLeast(d * 2, p);
        assert d * Pow2(k) == (d * 2) * p by { MulAssoc(d, 2, p); }
      }
    }
  }

  lemma MulAssoc(a: nat, b: nat, c: nat)
    ensures a * (b * c) == (a * b) * c
  {
  }

  lemma MulAtLeast(a: nat, p: nat)
    requires p >= 1
    ensures a * p >= a
  {
  }

  /** From a fresh session, successive waits are 1000, 2000, 4000, 8000, 16000, then 30000 forever. */
  lemma BackoffSchedule(n: nat)
    requires n >= 7
    ensures Waits(InitialDelay, 7) == [1000, 2000, 4000, 8000, 16000, 30000, 30000]
    ensures forall k | 5 <= k < n :: Waits(InitialDelay, n)[k] == MaxDelay
  {
    forall k | 5 <= k < n ensures Waits(InitialDelay, n)[k] == MaxDelay {
      WaitsAreCappedDoubling(InitialDelay, n, k);
      PowGrows(5, k);
    }
  }

  lemma {:induction false} PowGrows(j: nat, k: nat)
    requires j <= k
    ensures Pow2(j) <= Pow2(k)
  {
    if j < k {
      PowGrows(j, k - 1);
    }
  }

  /** A server-sent-events connection; once closed it delivers no further events. */
  class Connection {
    const url: string
    var closed: bool

    constructor (url: string)
      ensures this.url == url && !closed
    {
      this.url := url;
      closed := false;
    }
  }

  class SyncSession {
    const boardId: string
    const clientId: string
    /** `eventSourceRef.current` */
    var connection: Connection?
    /** `retryDelay.current` */
    var retryDelay: nat
    /** `retryTimer.current`: the delay of the last timer scheduled, kept after it fires. */
    var retryTimer: Option<nat>
    /** Whether that timer is still waiting to fire. */
    var timerPending: bool
    /** Boards handed to `onRemoteUpdate`, oldest first. */
    var delivered: seq<BoardData>
    /** How many times `onDeleted` ran. */
    var deletions: nat
    /** Every connection this session opened. */
    ghost var history: set<Connection>

    /**
     * The delay stays within [1 s, 30 s], the held connection is open, and
     * every other connection this session opened is closed.
     */
    ghost predicate Valid()
      reads this, history
    {
      && InitialDelay <= retryDelay <= MaxDelay
      && (connection != null ==> connection in history && !connection.closed)
      && (forall c | c in history && c != connection :: c.closed)
      && (timerPending ==> retryTimer.Some?)
    }

    /** The stream address: the board's events route, with the client id as the query. */
    function Url(): (u: string)
      reads this
      ensures |u| == |boardId| + |clientId| + 28
      ensures StartsWith(u, "/api/board/") && u[11..11 + |boardId|] == boardId
      ensures EndsWith(u, "/events?clientId=" + clientId)
    {
      var u := "/api/board/" + boardId + "/events?clientId=" + clientId;
      assert u == "/api/board/" + boardId + ("/events?clientId=" + clientId);
      u
    }

    /** Mounting the hook: nothing happens for an empty board id, otherwise one connection is opened. */
    constructor (boardId: string, clientId: string)
      ensures Valid()
      ensures this.boardId == boardId && this.clientId == clientId
      ensures retryDelay == InitialDelay && retryTimer == None && !timerPending
      ensures delivered == [] && deletions == 0
      ensures boardId == "" ==> connection == null && history == {}
      ensures boardId != "" ==> connection != null && fresh(connection) && history == {connection}
    {
      this.boardId := boardId;
      this.clientId := clientId;
      retryDelay := InitialDelay;
      retryTimer := None;
      timerPending := false;
      delivered := [];
      deletions := 0;
      history := {};
      connection := null;
      new;
      if boardId != "" {
        Connect();
      }
    }

    /** `connect`: close the held connection, if any, then open and hold a new one. */
    method Connect()
      requires Valid()
      modifies this, connection
      ensures Valid()
      ensures connection != null && fresh(connection) && connection.url == Url()
      ensures history == old(history) + {connection}
      ensures old(connection) != null ==> old(connection).closed
      ensures retryDelay == old(retryDelay) && retryTimer == old(retryTimer) && timerPending == old(timerPending)
      ensures delivered == old(delivered) && deletions == old(deletions)
    {
      if connection != null {
        connection.closed := true;
        connection := null;
      }
      var es := new Connection(Url());
      connection := es;
      history := history + {es};
    }

    /** The `connected` event: the backoff starts again from 1 s. */
    method OnConnected(es: Connection)
      requires Valid()
      modifies this
      ensures Valid()
      ensures retryDelay == if es == connection then InitialDelay else old(retryDelay)
      ensures connection == old(connection) && history == old(history)
      ensures retryTimer == old(retryTimer) && timerPending == old(timerPending)
      ensures delivered == old(delivered) && deletions == old(deletions)
    {
      if es == connection {
        retryDelay := InitialDelay;
      }
    }

    /** The `board-updated` event; `parsed` is None when the data is not valid JSON, and is then ignored. */
    method OnBoardUpdated(es: Connection, parsed: Option<BoardData>)
      requires Valid()
      modifies this
      ensures Valid()
      ensures delivered == if es == connection && parsed.Some? then old(delivered) + [parsed.value] else old(delivered)
      ensures connection == old(connection) && history == old(history) && retryDelay == old(retryDelay)
      ensures retryTimer == old(retryTimer) && timerPending == old(timerPending) && deletions == old(deletions)
    {
      if es == connection {
        match parsed
        case Some(board) => delivered := delivered + [board];
        case None =>
      }
    }

    /** The `board-deleted` event. */
    method OnBoardDeleted(es: Connection)
      requires Valid()
      modifies this
      ensures Valid()
      ensures deletions == if es == connection then old(deletions) + 1 else old(deletions)
      ensures connection == old(connection) && history == old(history) && retryDelay == old(retryDelay)
      ensures retryTimer == old(retryTimer) && timerPending == old(timerPending) && delivered == old(delivered)
    {
      if es == connection {
        deletions := deletions + 1;
      }
    }

    /**
     * `onerror`: close and drop the connection, schedule a reconnect after
     * the current delay, and double the delay up to the cap. `wait` is the
     * delay scheduled, None when `es` is no longer the held connection.
     */
    method OnError(es: Connection) returns (wait: Option<nat>)
      requires Valid()
      modifies this, es
      ensures Valid()
      ensures es == old(connection) ==>
        && wait == Some(old(retryDelay))
        && retryDelay == NextDelay(old(retryDelay))
        && connection == null && es.closed
        && retryTimer == wait && timerPending
      ensures es != old(connection) ==>
        && wait == None && retryDelay == old(retryDelay) && connection == old(connection)
        && retryTimer == old(retryTimer) && timerPending == old(timerPending)
        && es.closed == old(es.closed)
      ensures history == old(history) && delivered == old(delivered) && deletions == old(deletions)
    {
      if es != connection {
        return None;
      }
      es.closed := true;
      connection := null;
      var delay := retryDelay;
      retryDelay := NextDelay(delay);
      retryTimer := Some(delay);
      timerPending := true;
      wait := Some(delay);
    }

    /** The retry timer fires: reconnect. */
    method TimerFires()
      requires Valid()
      modifies this, connection
      ensures Valid()
      ensures old(timerPending) ==>
        && !timerPending && connection != null && fresh(connection)
        && history == old(history) + {connection}
      ensures !old(timerPending) ==> connection == old(connection) && history == old(history) && !timerPending
      ensures retryDelay == old(retryDelay) && retryTimer == old(retryTimer)
      ensures delivered == old(delivered) && deletions == old(deletions)
    {
      if timerPending {
        timerPending := false;
        Connect();
      }
    }

    /** Unmounting: close the held connection and cancel the retry timer. */
    method Cleanup()
      requires Valid()
      modifies this, connection
      ensures Valid()
      ensures connection == null && !timerPending && retryTimer == None
      ensures forall c | c in history :: c.closed
      ensures history == old(history) && retryDelay == old(retryDelay)
      ensures delivered == old(delivered) && deletions == old(deletions)
    {
      if connection != null {
        connection.closed := true;
        connection := null;
      }
      if retryTimer.Some? {
        timerPending := false;
        retryTimer := None;
      }
    }
  }

  /** At most one connection a session opened is still open, and it is the one held. */
  lemma AtMostOneOpen(s: SyncSession, a: Connection, b: Connection)
    requires s.Valid()
    requires a in s.history && b in s.history && !a.closed && !b.closed
    ensures a == b && a == s.connection
  {
  }
}
