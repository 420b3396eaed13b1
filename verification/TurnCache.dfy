/** The cached Cloudflare TURN credential. */
module TurnCache {
  import opened Prelude

  // Times and durations are in milliseconds on a monotone clock.
  const REFRESH_MARGIN := 300 * 1000

  datatype Credential = Credential(urls: seq<Str>, username: Str, credential: Str, expires: nat)

  /** One call of `get`: when it reads the clock, what the provider would answer, and when it
      reads the clock again after a fetch. The lock makes calls follow one another. */
  datatype Call = Call(asked: nat, provider: Option<Credential>, done: nat)

  type Cell = Option<(Credential, nat)>

  predicate Fresh(cell: Cell, asked: nat, ttl: nat) {
    cell.Some? && asked - cell.value.1 + REFRESH_MARGIN < ttl
  }

  /** Whether a call fetches successfully. */
  predicate Fetches(cell: Cell, call: Call, ttl: nat) {
    !Fresh(cell, call.asked, ttl) && call.provider.Some?
  }

  function CellAfter(cell: Cell, call: Call, ttl: nat): Cell {
    if Fetches(cell, call, ttl) then Some((call.provider.value, call.done)) else cell
  }

  class CfTurnCache {
    const ttl: nat
    var cell: Cell

    constructor (ttl: nat)
      ensures this.ttl == ttl && cell == None
    {
      this.ttl := ttl;
      cell := None;
    }

    /** A hit is younger than the lifetime less the margin; a failed fetch keeps the old cell. */
    method Get(call: Call) returns (r: Option<Credential>)
      requires cell.Some? ==> cell.value.1 <= call.asked
      modifies this
      ensures cell == CellAfter(old(cell), call, ttl)
      ensures r == if old(cell).Some? && call.asked - old(cell).value.1 < ttl - 300000
                   then Some(old(cell).value.0) else call.provider
      ensures cell == if (old(cell).Some? && call.asked - old(cell).value.1 < ttl - 300000) || call.provider.None?
                      then old(cell) else Some((call.provider.value, call.done))
    {
      if cell.Some? {
        var (credential, fetchedAt) := cell.value;
        var elapsed := call.asked - fetchedAt;
        if elapsed + REFRESH_MARGIN < ttl {
          return Some(credential);
        }
      }
      if call.provider.None? {
        return None;
      }
      cell := Some((call.provider.value, call.done));
      return call.provider;
    }
  }

  /** Calls under the lock: each ends before the next begins. */
  ghost predicate Serial(calls: seq<Call>, start: nat) {
    calls != [] ==> start <= calls[0].asked <= calls[0].done && Serial(calls[1..], calls[0].done)
  }

  /** The completion times of the successful fetches of a run. */
  function FetchTimes(cell: Cell, calls: seq<Call>, ttl: nat): seq<nat>
    decreases |calls|
  {
    if calls == [] then []
    else (if Fetches(cell, calls[0], ttl) then [calls[0].done] else [])
         + FetchTimes(CellAfter(cell, calls[0], ttl), calls[1..], ttl)
  }

  ghost predicate Spaced(times: seq<nat>, gap: int) {
    forall i :: 0 <= i < |times| - 1 ==> times[i + 1] - times[i] >= gap
  }

  /** Successful fetches are at least the lifetime less the margin apart, from the one in the
      cell on. */
  lemma {:induction false} FetchesAreSpaced(cell: Cell, calls: seq<Call>, ttl: nat, start: nat)
    requires Serial(calls, start)
    requires cell.Some? ==> cell.value.1 <= start
    ensures var times := FetchTimes(cell, calls, ttl);
      && Spaced(times, ttl - REFRESH_MARGIN)
      && (times != [] ==> times[0] >= start)
      && (times != [] && cell.Some? ==> times[0] - cell.value.1 >= ttl - REFRESH_MARGIN)
      && (forall t <- times :: exists k :: 0 <= k < |calls| && calls[k].done == t)
    decreases |calls|
  {
    if calls != [] {
      var after := CellAfter(cell, calls[0], ttl);
      FetchesAreSpaced(after, calls[1..], ttl, calls[0].done);
      var rest := FetchTimes(after, calls[1..], ttl);
      forall t <- rest ensures exists k :: 0 <= k < |calls| && calls[k].done == t {
        var k :| 0 <= k < |calls| - 1 && calls[1..][k].done == t;
        assert calls[k + 1].done == t;
      }
    }
  }

  lemma {:induction false} SpacedSpan(times: seq<nat>, gap: nat)
    requires Spaced(times, gap) && times != []
    ensures times[0] + (|times| - 1) * gap <= times[|times| - 1]
  {
    if |times| > 1 {
      var front := times[..|times| - 1];
      forall i | 0 <= i < |front| - 1 ensures front[i + 1] - front[i] >= gap {
        assert times[i + 1] - times[i] >= gap;
      }
      SpacedSpan(front, gap);
      assert times[|front| - 1 + 1] - times[|front| - 1] >= gap;
    }
  }

  lemma {:induction false} SerialWithin(calls: seq<Call>, start: nat, end: nat)
    requires Serial(calls, start) && (calls != [] ==> calls[|calls| - 1].done <= end)
    ensures forall k :: 0 <= k < |calls| ==> start <= calls[k].asked <= calls[k].done <= end
  {
    if calls != [] {
      if |calls| > 1 {
        assert calls[1..][|calls| - 2] == calls[|calls| - 1];
      }
      SerialWithin(calls[1..], calls[0].done, end);
      forall k | 0 <= k < |calls| ensures start <= calls[k].asked <= calls[k].done <= end {
        if k > 0 {
          assert calls[k] == calls[1..][k - 1];
        } else if |calls| > 1 {
          assert calls[1..][0] == calls[1];
        }
      }
    }
  }

  /** Spaced times fit into their span. */
  lemma SpacedCount(times: seq<nat>, gap: nat, start: nat, end: nat)
    requires Spaced(times, gap) && gap > 0 && start <= end
    requires forall t <- times :: start <= t <= end
    ensures |times| <= (end - start) / gap + 1
  {
    if times != [] {
      SpacedSpan(times, gap);
      assert times[|times| - 1] in times && times[0] in times;
      DivideBound(|times| - 1, gap, end - start);
    }
  }

  /** A run of length T fetches successfully at most T / (TTL - 300 s) + 1 times. */
  lemma FetchesAreFew(cell: Cell, calls: seq<Call>, ttl: nat, start: nat, end: nat)
    requires ttl > REFRESH_MARGIN && start <= end
    requires Serial(calls, start) && (calls != [] ==> calls[|calls| - 1].done <= end)
    requires cell.Some? ==> cell.value.1 <= start
    ensures |FetchTimes(cell, calls, ttl)| <= (end - start) / (ttl - REFRESH_MARGIN) + 1
  {
    var times, gap := FetchTimes(cell, calls, ttl), ttl - REFRESH_MARGIN;
    FetchesAreSpaced(cell, calls, ttl, start);
    SerialWithin(calls, start, end);
    hide FetchTimes, Serial, Spaced;
    SpacedCount(times, gap, start, end);
  }

  lemma MultiplyKeepsOrder(a: nat, b: nat, factor: nat)
    requires a <= b
    ensures a * factor <= b * factor
  {
  }

  lemma DivideBound(n: nat, gap: nat, span: nat)
    requires gap > 0 && n * gap <= span
    ensures n <= span / gap
  {
    var q := span / gap;
    assert span < q * gap + gap == (q + 1) * gap;
    if n > q {
      MultiplyKeepsOrder(q + 1, n, gap);
    }
  }
}
