/** The sliding-window limiter of app/tasks/definitions/rate_limiter. */
module RateLimiter {
  import opened Core

  /**
    One key: the stored events and last call, and beside them every call ever accepted, which the
    limiter forgets. No decision reads `accepted`.
  */
  datatype KeyState = KeyState(accepted: seq<Time>, events: seq<Time>, last: Option<Time>)

  const Untouched := KeyState([], [], None)

  function Pruned(events: seq<Time>, boundary: Time): seq<Time> {
    if events != [] && events[0] <= boundary then Pruned(events[1..], boundary) else events
  }

  /** The answer is None for a timestamp before the key's last call, which changes nothing. */
  function AllowAt(limit: nat, window: real, k: KeyState, now: Time): (KeyState, Option<bool>) {
    if k.last.Some? && now < k.last.value then (k, None)
    else
      var events := Pruned(k.events, now - window);
      if |events| >= limit then (KeyState(k.accepted, events, Some(now)), Some(false))
      else (KeyState(k.accepted + [now], events + [now], Some(now)), Some(true))
  }

  function RunCalls(limit: nat, window: real, calls: seq<Time>): KeyState {
    if calls == [] then Untouched
    else AllowAt(limit, window, RunCalls(limit, window, calls[..|calls| - 1]), calls[|calls| - 1]).0
  }

  // ----- Reference: counting in the full history -----

  /** How many of the times lie in the window (from, to]. */
  function CountIn(times: seq<Time>, from: Time, to: Time): nat {
    if times == [] then 0
    else CountIn(times[..|times| - 1], from, to)
         + if from < times[|times| - 1] <= to then 1 else 0
  }

  predicate Sorted(times: seq<Time>) {
    forall i, j :: 0 <= i < j < |times| ==> times[i] <= times[j]
  }

  /** Each call was accepted when fewer than `limit` earlier ones lay in its window. */
  predicate Admitted(limit: nat, window: real, times: seq<Time>) {
    forall j :: 0 <= j < |times| ==>
      CountIn(times[..j], times[j] - window, times[j]) < limit
  }

  lemma {:induction false} CountSplit(a: seq<Time>, b: seq<Time>, from: Time, to: Time)
    ensures CountIn(a + b, from, to) == CountIn(a, from, to) + CountIn(b, from, to)
    decreases |b|
  {
    if b == [] {
      assert a + b == a;
    } else {
      CountSplit(a, b[..|b| - 1], from, to);
      assert (a + b)[..|a + b| - 1] == a + b[..|b| - 1];
    }
  }

  lemma {:induction false} CountBefore(times: seq<Time>, from: Time, to: Time)
    requires forall i :: 0 <= i < |times| ==> times[i] <= from
    ensures CountIn(times, from, to) == 0
  {
    if times != [] {
      CountBefore(times[..|times| - 1], from, to);
    }
  }

  lemma {:induction false} CountAll(times: seq<Time>, from: Time, to: Time)
    requires forall i :: 0 <= i < |times| ==> from < times[i] <= to
    ensures CountIn(times, from, to) == |times|
  {
    if times != [] {
      CountAll(times[..|times| - 1], from, to);
    }
  }

  lemma {:induction false} CountNarrower(times: seq<Time>, from: Time, to: Time, from': Time, to': Time)
    requires from' <= from
    requires forall i :: 0 <= i < |times| ==> times[i] <= to'
    ensures CountIn(times, from, to) <= CountIn(times, from', to')
  {
    if times != [] {
      CountNarrower(times[..|times| - 1], from, to, from', to');
    }
  }

  /** No window of the limiter's length, wherever it is placed, holds more than `limit` accepted calls. */
  lemma {:induction false} NoWindowOverflows(limit: nat, window: real, times: seq<Time>, to: Time)
    requires Sorted(times) && Admitted(limit, window, times)
    ensures CountIn(times, to - window, to) <= limit
  {
    if times != [] {
      var last := |times| - 1;
      if times[last] <= to {
        CountNarrower(times[..last], to - window, to, times[last] - window, times[last]);
      } else {
        AdmittedPrefix(limit, window, times, last);
        NoWindowOverflows(limit, window, times[..last], to);
      }
    }
  }

  lemma AdmittedPrefix(limit: nat, window: real, times: seq<Time>, n: nat)
    requires Admitted(limit, window, times) && n <= |times|
    ensures Admitted(limit, window, times[..n])
  {
    hide CountIn;
    forall j | 0 <= j < n
      ensures CountIn(times[..n][..j], times[..n][j] - window, times[..n][j]) < limit
    {
      assert times[..n][..j] == times[..j];
    }
  }

  // ----- The stored events answer for the full history -----

  /** The stored events are the accepted calls that the last call's window had not left behind. */
  predicate KeyOk(limit: nat, window: real, k: KeyState) {
    && Sorted(k.accepted)
    && Admitted(limit, window, k.accepted)
    && |k.events| <= |k.accepted|
    && var dropped := |k.accepted| - |k.events|;
    && k.events == k.accepted[dropped..]
    && (k.last.None? ==> k.accepted == [])
    && (k.last.Some? ==>
          && (forall i :: 0 <= i < dropped ==> k.accepted[i] <= k.last.value - window)
          && (forall i :: 0 <= i < |k.accepted| ==> k.accepted[i] <= k.last.value))
  }

  lemma {:induction false} PrunedIsSuffix(events: seq<Time>, boundary: Time)
    requires Sorted(events)
    ensures var kept := Pruned(events, boundary);
      && |kept| <= |events|
      && kept == events[|events| - |kept|..]
      && (forall i :: 0 <= i < |events| - |kept| ==> events[i] <= boundary)
      && (forall i :: 0 <= i < |kept| ==> kept[i] > boundary)
  {
    if events != [] && events[0] <= boundary {
      PrunedIsSuffix(events[1..], boundary);
      var kept := Pruned(events, boundary);
      var n := |events| - |kept|;
      assert events[1..][n - 1..] == events[n..];
      forall i | 0 <= i < n ensures events[i] <= boundary {
        assert i > 0 ==> events[1..][i - 1] <= boundary;
      }
    }
  }

  /** The pruned events number exactly the accepted calls inside the window ending at `now`. */
  lemma PrunedCountsWindow(limit: nat, window: real, k: KeyState, now: Time)
    requires window > 0.0 && KeyOk(limit, window, k) && (k.last.Some? ==> k.last.value <= now)
    ensures var kept := Pruned(k.events, now - window);
      && |kept| <= |k.accepted|
      && kept == k.accepted[|k.accepted| - |kept|..]
      && (forall i :: 0 <= i < |k.accepted| - |kept| ==> k.accepted[i] <= now - window)
      && CountIn(k.accepted, now - window, now) == |kept|
  {
    hide Admitted, CountIn, Sorted, Pruned;
    var from := now - window;
    var dropped := |k.accepted| - |k.events|;
    SuffixSorted(k.accepted, dropped);
    PrunedIsSuffix(k.events, from);
    var kept := Pruned(k.events, from);
    var n := |k.accepted| - |kept|;
    forall i | 0 <= i < n ensures k.accepted[i] <= from {
      if i >= dropped {
        assert k.accepted[i] == k.events[i - dropped];
      }
    }
    assert k.accepted == k.accepted[..n] + k.accepted[n..];
    CountSplit(k.accepted[..n], k.accepted[n..], from, now);
    CountBefore(k.accepted[..n], from, now);
    CountAll(kept, from, now);
  }

  /** A call is allowed exactly when fewer than `limit` accepted calls lie in its window. */
  lemma AllowCountsHistory(limit: nat, window: real, k: KeyState, now: Time)
    requires 0 < limit && window > 0.0 && KeyOk(limit, window, k)
    ensures var (k', answer) := AllowAt(limit, window, k, now);
      && KeyOk(limit, window, k')
      && (answer.None? <==> k.last.Some? && now < k.last.value)
      && (answer.None? ==> k' == k)
      && (answer.Some? ==>
            && answer.value == (CountIn(k.accepted, now - window, now) < limit)
            && k'.accepted == (if answer.value then k.accepted + [now] else k.accepted))
  {
    hide Admitted, CountIn, Sorted, Pruned;
    if k.last.None? || k.last.value <= now {
      PrunedCountsWindow(limit, window, k, now);
      if CountIn(k.accepted, now - window, now) < limit {
        AppendAdmitted(limit, window, k.accepted, now);
      }
    }
  }

  lemma SuffixSorted(times: seq<Time>, n: nat)
    requires Sorted(times) && n <= |times|
    ensures Sorted(times[n..])
  {
  }

  lemma AppendAdmitted(limit: nat, window: real, times: seq<Time>, now: Time)
    requires Sorted(times) && Admitted(limit, window, times)
    requires forall i :: 0 <= i < |times| ==> times[i] <= now
    requires CountIn(times, now - window, now) < limit
    ensures Sorted(times + [now]) && Admitted(limit, window, times + [now])
  {
    hide CountIn;
    var longer := times + [now];
    forall j | 0 <= j < |longer| ensures CountIn(longer[..j], longer[j] - window, longer[j]) < limit {
      assert longer[..j] == times[..j];
      assert times[..|times|] == times;
    }
  }

  /** Over any sequence of calls for a key, no window ever holds more than `limit` accepted ones. */
  lemma {:induction false} CallsKeepLimit(limit: nat, window: real, calls: seq<Time>, to: Time)
    requires 0 < limit && window > 0.0
    ensures var k := RunCalls(limit, window, calls);
      && KeyOk(limit, window, k)
      && CountIn(k.accepted, to - window, to) <= limit
  {
    if calls != [] {
      CallsKeepLimit(limit, window, calls[..|calls| - 1], to);
      AllowCountsHistory(limit, window, RunCalls(limit, window, calls[..|calls| - 1]), calls[|calls| - 1]);
    }
    NoWindowOverflows(limit, window, RunCalls(limit, window, calls).accepted, to);
  }

  // ----- The limiter object -----

  class SlidingWindowRateLimiter {
    const limit: nat
    const window: real
    var events: map<string, seq<Time>>
    var lastCall: map<string, Time>
    ghost var accepted: map<string, seq<Time>>

    ghost function KeyView(key: string): KeyState
      reads this
    {
      KeyState(if key in accepted then accepted[key] else [],
               if key in events then events[key] else [],
               if key in lastCall then Some(lastCall[key]) else None)
    }

    ghost predicate Valid()
      reads this
    {
      0 < limit && window > 0.0 && forall key :: KeyOk(limit, window, KeyView(key))
    }

    constructor (limit: nat, window: real)
      requires 0 < limit && window > 0.0
      ensures Valid() && this.limit == limit && this.window == window
      ensures forall key :: KeyView(key) == Untouched
    {
      this.limit, this.window := limit, window;
      events, lastCall, accepted := map[], map[], map[];
    }

    method Allow(key: string, now: Time) returns (answer: Option<bool>)
      requires Valid()
      modifies this
      ensures Valid()
      ensures (KeyView(key), answer) == AllowAt(limit, window, old(KeyView(key)), now)
      ensures forall other :: other != key ==> KeyView(other) == old(KeyView(other))
      ensures answer.Some? ==>
        answer.value == (CountIn(old(KeyView(key)).accepted, now - window, now) < limit)
    {
      hide KeyOk, CountIn;
      ghost var before := KeyView(key);
      AllowCountsHistory(limit, window, before, now);
      if key in lastCall && now < lastCall[key] {
        return None;
      }
      lastCall := lastCall[key := now];
      var queue := if key in events then events[key] else [];
      var boundary := now - window;
      while queue != [] && queue[0] <= boundary
        invariant Pruned(queue, boundary) == Pruned(before.events, boundary)
        decreases |queue|
      {
        queue := queue[1..];
      }
      if |queue| >= limit {
        events := events[key := queue];
        assert KeyView(key) == AllowAt(limit, window, before, now).0;
        forall other ensures KeyOk(limit, window, KeyView(other)) {
          assert other != key ==> KeyView(other) == old(KeyView(other));
        }
        return Some(false);
      }
      events := events[key := queue + [now]];
      accepted := accepted[key := before.accepted + [now]];
      assert KeyView(key) == AllowAt(limit, window, before, now).0;
      forall other ensures KeyOk(limit, window, KeyView(other)) {
        assert other != key ==> KeyView(other) == old(KeyView(other));
      }
      answer := Some(true);
    }
  }
}
