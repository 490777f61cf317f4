/**
 * The fixed-window rate limiter for the authentication endpoints: at most
 * ten requests per key in a window of fifteen minutes, with a periodic sweep
 * of expired entries.
 */
module RateLimit {
  import opened Wrappers

  const WindowMs: int := 15 * 60 * 1000
  const MaxRequests: int := 10

  datatype Entry = Entry(count: int, resetAt: int)
  datatype Decision = Decision(allowed: bool, remaining: int)

  /** An entry the sweep would delete, which a request also treats as absent. */
  predicate Expired(e: Entry, now: int) {
    now > e.resetAt
  }

  /**
   * One request at time `now` against the key's entry: the new entry and the
   * answer. A missing or expired entry opens a new window.
   */
  function Step(entry: Option<Entry>, now: int): (r: (Entry, Decision))
    ensures entry.None? || Expired(entry.value, now) ==>
      r == (Entry(1, now + WindowMs), Decision(true, MaxRequests - 1))
    ensures entry.Some? && !Expired(entry.value, now) ==>
      && r.0 == Entry(entry.value.count + 1, entry.value.resetAt)
      && r.1.allowed == (entry.value.count + 1 <= MaxRequests)
      && r.1.remaining == (if r.1.allowed then MaxRequests - r.0.count else 0)
  {
    if entry.None? || now > entry.value.resetAt then
      (Entry(1, now + WindowMs), Decision(true, MaxRequests - 1))
    else
      var e := entry.value.(count := entry.value.count + 1);
      if e.count > MaxRequests then (e, Decision(false, 0))
      else (e, Decision(true, MaxRequests - e.count))
  }

  /** The store after the sweep at time `now`: exactly the entries that have not expired. */
  function Unexpired(store: map<string, Entry>, now: int): (r: map<string, Entry>)
    ensures forall k :: k in r <==> k in store && !Expired(store[k], now)
    ensures forall k | k in r :: r[k] == store[k]
  {
    map k | k in store && !Expired(store[k], now) :: store[k]
  }

  class RateLimiter {
    var store: map<string, Entry>

    /** Every stored entry has counted at least one request. */
    ghost predicate Valid()
      reads this
    {
      forall k | k in store :: store[k].count >= 1
    }

    constructor ()
      ensures Valid() && store == map[]
    {
      store := map[];
    }

    /** `checkRateLimit(ip)` at time `now`: only the entry for `ip` is created or changed. */
    method CheckRateLimit(ip: string, now: int) returns (allowed: bool, remaining: int)
      requires Valid()
      modifies this
      ensures Valid()
      ensures var (e, d) := Step(if ip in old(store) then Some(old(store)[ip]) else None, now);
        store == old(store)[ip := e] && allowed == d.allowed && remaining == d.remaining
      ensures 0 <= remaining <= MaxRequests - 1
    {
      var entry := if ip in store then Some(store[ip]) else None;
      if entry.None? || now > entry.value.resetAt {
        store := store[ip := Entry(1, now + WindowMs)];
        return true, MaxRequests - 1;
      }
      var e := entry.value.(count := entry.value.count + 1);
      store := store[ip := e];
      if e.count > MaxRequests {
        return false, 0;
      }
      return true, MaxRequests - e.count;
    }

    /** The periodic clean-up: deletes every entry whose window is over. */
    method Sweep(now: int)
      modifies this
      ensures store == Unexpired(old(store), now)
      ensures old(Valid()) ==> Valid()
    {
      var keys := store.Keys;
      ghost var start := store;
      while keys != {}
        invariant keys <= start.Keys
        invariant store == map k | k in start && (k in keys || !Expired(start[k], now)) :: start[k]
        decreases keys
      {
        var k :| k in keys;
        if now > store[k].resetAt {
          store := store - {k};
        }
        keys := keys - {k};
      }
    }
  }

  /** The instant `resetAt` itself still belongs to the old window. */
  lemma ResetAtBelongsToWindow(e: Entry)
    requires 1 <= e.count < MaxRequests
    ensures Step(Some(e), e.resetAt) == (Entry(e.count + 1, e.resetAt), Decision(true, MaxRequests - e.count - 1))
  {
  }

  /** Whatever the entry, `remaining` lies between 0 and 9 once it counts a request. */
  lemma RemainingBounded(entry: Option<Entry>, now: int)
    requires entry.Some? ==> entry.value.count >= 1
    ensures 0 <= Step(entry, now).1.remaining <= MaxRequests - 1
    ensures Step(entry, now).0.count >= 1
    ensures Step(entry, now).1.allowed <==> Step(entry, now).0.count <= MaxRequests
  {
  }

  /** Replays requests at the given times against one key, collecting the answers. */
  function Replay(entry: Option<Entry>, times: seq<int>): (r: (Option<Entry>, seq<Decision>))
    ensures |r.1| == |times|
    decreases |times|
  {
    if times == [] then (entry, [])
    else
      var (e, d) := Step(entry, times[0]);
      var (last, ds) := Replay(Some(e), times[1..]);
      (last, [d] + ds)
  }

  /**
   * Within one window opened at `start`, requests 1 to 10 are allowed with
   * `10 - n` remaining, and every later one is denied with none remaining,
   * while the count keeps growing and `resetAt` stays put.
   */
  lemma {:induction false} WindowSequence(start: int, times: seq<int>, n: nat)
    requires n >= 1
    requires forall i | 0 <= i < |times| :: times[i] <= start + WindowMs
    ensures var (last, ds) := Replay(Some(Entry(n, start + WindowMs)), times);
      && last == Some(Entry(n + |times|, start + WindowMs))
      && forall i | 0 <= i < |ds| ::
           ds[i] == if n + i + 1 <= MaxRequests then Decision(true, MaxRequests - (n + i + 1))
                    else Decision(false, 0)
  {
    if times != [] {
      WindowSequence(start, times[1..], n + 1);
    }
  }

  /** From a fresh key, the first request at `start` opens the window and the rest follow it. */
  lemma FreshKeySequence(start: int, times: seq<int>)
    requires forall i | 0 <= i < |times| :: start <= times[i] <= start + WindowMs
    requires |times| > 0 && times[0] == start
    ensures var (_, ds) := Replay(None, times);
      forall i | 0 <= i < |ds| ::
        ds[i] == if i + 1 <= MaxRequests then Decision(true, MaxRequests - (i + 1)) else Decision(false, 0)
  {
    WindowSequence(start, times[1..], 1);
  }

  /** The sweep never changes what a later request (at `later >= now`) sees. */
  lemma SweepIsInvisible(store: map<string, Entry>, now: int, later: int, key: string)
    requires later >= now
    ensures var swept := Unexpired(store, now);
      Step(if key in swept then Some(swept[key]) else None, later)
      == Step(if key in store then Some(store[key]) else None, later)
  {
  }
}
