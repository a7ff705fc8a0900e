/** The sign-in limiter. */
module RateLimit {
  import opened Texts

  // The fixed-window limiter in front of sign-in, and how much it lets through over any run
  // of calls.

  const WINDOW_MS: int := 15 * 60 * 1000
  const MAX_KEYS: nat := 10000

  datatype Entry = Entry(count: nat, resetAt: int)

  type Hits = map<Text, Entry>

  datatype Call = Call(key: Text, now: int)

  // --------------------------------------------------------------- one call

  /** No window is open for the key, or the one that is has run out. */
  predicate Opens(hits: Hits, c: Call) {
    c.key !in hits || c.now > hits[c.key].resetAt
  }

  /** Opening a window in a full map empties it first. */
  predicate Clears(hits: Hits, c: Call) {
    Opens(hits, c) && |hits| > MAX_KEYS
  }

  function After(hits: Hits, c: Call): Hits {
    if Opens(hits, c) then (if Clears(hits, c) then map[] else hits)[c.key := Entry(1, c.now + WINDOW_MS)]
    else hits[c.key := hits[c.key].(count := hits[c.key].count + 1)]
  }

  predicate Allowed(limit: nat, hits: Hits, c: Call) {
    Opens(hits, c) || hits[c.key].count + 1 <= limit
  }

  class Limiter {
    const limit: nat
    var hits: Hits

    constructor (limit: nat)
      ensures this.limit == limit && hits == map[]
    {
      this.limit, this.hits := limit, map[];
    }

    method Allow(key: Text, now: int) returns (ok: bool)
      modifies this
      ensures hits == After(old(hits), Call(key, now))
      ensures ok == Allowed(limit, old(hits), Call(key, now))
    {
      if key !in hits || now > hits[key].resetAt {
        if |hits| > MAX_KEYS {
          hits := map[];
        }
        hits := hits[key := Entry(1, now + WINDOW_MS)];
        return true;
      }
      var entry := hits[key].(count := hits[key].count + 1);
      hits := hits[key := entry];
      return entry.count <= limit;
    }
  }

  // ------------------------------------------------------------- every run

  function HitsAfter(calls: seq<Call>): Hits {
    if calls == [] then map[] else After(HitsAfter(calls[..|calls| - 1]), calls[|calls| - 1])
  }

  ghost predicate ClockForward(calls: seq<Call>) {
    forall i, j | 0 <= i < j < |calls| :: calls[i].now <= calls[j].now
  }

  predicate Within(c: Call, from: int) {
    from <= c.now <= from + 900_000
  }

  /** How often a key was let through in the interval that starts at `from`. */
  function Grants(limit: nat, calls: seq<Call>, key: Text, from: int): nat {
    if calls == [] then 0
    else
      var before, c := calls[..|calls| - 1], calls[|calls| - 1];
      Grants(limit, before, key, from)
      + (if c.key == key && Within(c, from) && Allowed(limit, HitsAfter(before), c) then 1 else 0)
  }

  /** How many windows the key opens in the interval. */
  function Openings(calls: seq<Call>, key: Text, from: int): nat {
    if calls == [] then 0
    else
      var before, c := calls[..|calls| - 1], calls[|calls| - 1];
      Openings(before, key, from) + (if c.key == key && Within(c, from) && Opens(HitsAfter(before), c) then 1 else 0)
  }

  /** How often the map was emptied in the interval, by any key. */
  function Clearings(calls: seq<Call>, from: int): nat {
    if calls == [] then 0
    else
      var before, c := calls[..|calls| - 1], calls[|calls| - 1];
      Clearings(before, from) + (if Within(c, from) && Clears(HitsAfter(before), c) then 1 else 0)
  }

  /** The first call of a window is let through whatever the limit. */
  function Cap(limit: nat): nat {
    if limit == 0 then 1 else limit
  }

  predicate NotPast(calls: seq<Call>, from: int) {
    calls == [] || calls[|calls| - 1].now <= from + 900_000
  }

  predicate NotYet(calls: seq<Call>, from: int) {
    calls == [] || calls[|calls| - 1].now < from
  }

  /** The next call is not before the last one. */
  predicate Follows(before: seq<Call>, c: Call) {
    before == [] || before[|before| - 1].now <= c.now
  }

  lemma {:induction false} PrefixForward(calls: seq<Call>)
    requires ClockForward(calls) && calls != []
    ensures ClockForward(calls[..|calls| - 1]) && Follows(calls[..|calls| - 1], calls[|calls| - 1])
  {
  }

  /** Windows in the interval: no more than one, and one more for each clearing. */
  ghost predicate FewWindows(calls: seq<Call>, key: Text, from: int) {
    var windows, cleared := Openings(calls, key, from), Clearings(calls, from);
    && windows <= cleared + 1
    && (NotYet(calls, from) ==> windows == 0)
    && (NotPast(calls, from) && key !in HitsAfter(calls) ==> windows <= cleared)
    && (NotPast(calls, from) && key in HitsAfter(calls) && windows > 0 ==>
          HitsAfter(calls)[key].resetAt >= from + WINDOW_MS)
  }

  lemma {:induction false} WindowsAreFew(calls: seq<Call>, key: Text, from: int)
    requires ClockForward(calls)
    ensures FewWindows(calls, key, from)
  {
    if calls != [] {
      var before, c := calls[..|calls| - 1], calls[|calls| - 1];
      PrefixForward(calls);
      WindowsAreFew(before, key, from);
      WindowStep(before, c, key, from);
      assert calls == before + [c];
    }
  }

  lemma {:induction false} WindowStep(before: seq<Call>, c: Call, key: Text, from: int)
    requires FewWindows(before, key, from)
    requires Follows(before, c)
    ensures FewWindows(before + [c], key, from)
  {
    assert (before + [c])[..|before|] == before;
  }

  /** Grants in the interval, window by window. */
  ghost predicate FewGrants(limit: nat, calls: seq<Call>, key: Text, from: int) {
    var granted, windows := Grants(limit, calls, key, from), Openings(calls, key, from);
    && granted <= Cap(limit) * (windows + 1)
    && (NotYet(calls, from) ==> granted == 0)
    && (NotPast(calls, from) && key in HitsAfter(calls) ==>
          granted <= Cap(limit) * windows + HitsAfter(calls)[key].count)
  }

  lemma {:induction false} GrantsAreFew(limit: nat, calls: seq<Call>, key: Text, from: int)
    requires ClockForward(calls)
    ensures FewGrants(limit, calls, key, from)
  {
    if calls != [] {
      var before, c := calls[..|calls| - 1], calls[|calls| - 1];
      PrefixForward(calls);
      GrantsAreFew(limit, before, key, from);
      GrantStep(limit, before, c, key, from);
      assert calls == before + [c];
    }
  }

  lemma {:induction false} OneMoreCall(calls: seq<Call>, c: Call)
    ensures HitsAfter(calls + [c]) == After(HitsAfter(calls), c)
  {
    assert (calls + [c])[..|calls|] == calls;
  }

  lemma {:induction false} GrantStep(limit: nat, before: seq<Call>, c: Call, key: Text, from: int)
    requires FewGrants(limit, before, key, from)
    requires Follows(before, c)
    ensures FewGrants(limit, before + [c], key, from)
  {
    OneMoreCall(before, c);
    CountOneMore(limit, before, c, key, from);
    Distribute(Cap(limit), Openings(before, key, from));
  }

  lemma {:induction false} CountOneMore(limit: nat, before: seq<Call>, c: Call, key: Text, from: int)
    ensures Grants(limit, before + [c], key, from)
         == Grants(limit, before, key, from)
            + (if c.key == key && Within(c, from) && Allowed(limit, HitsAfter(before), c) then 1 else 0)
    ensures Openings(before + [c], key, from)
         == Openings(before, key, from) + (if c.key == key && Within(c, from) && Opens(HitsAfter(before), c) then 1 else 0)
  {
    assert (before + [c])[..|before|] == before;
  }

  lemma {:induction false} Distribute(k: nat, n: nat)
    ensures k * (n + 1) == k * n + k && k * (n + 2) == k * n + 2 * k
  {
  }

  /** Over any run with a clock that never goes back, and any interval as long as a
      window, a key is let through at most twice the limit, and once more the limit for
      each time the map is emptied in it. */
  lemma {:induction false} GrantsInAnyInterval(limit: nat, calls: seq<Call>, key: Text, from: int)
    requires ClockForward(calls)
    ensures Grants(limit, calls, key, from) <= (2 + Clearings(calls, from)) * Cap(limit)
    ensures Clearings(calls, from) == 0 ==> Grants(limit, calls, key, from) <= 2 * Cap(limit)
  {
    GrantsAreFew(limit, calls, key, from);
    WindowsAreFew(calls, key, from);
    Scale(Cap(limit), Openings(calls, key, from) + 1, 2 + Clearings(calls, from));
  }

  lemma {:induction false} Scale(k: nat, a: nat, b: nat)
    requires a <= b
    ensures k * a <= b * k
  {
  }

  // ------------------------------------------------------------ one window

  /** Grants to the key since its window was opened. */
  function GrantsInWindow(limit: nat, calls: seq<Call>, key: Text): nat {
    if calls == [] then 0
    else
      var before, c := calls[..|calls| - 1], calls[|calls| - 1];
      if c.key != key then GrantsInWindow(limit, before, key)
      else if Opens(HitsAfter(before), c) then 1
      else GrantsInWindow(limit, before, key) + (if Allowed(limit, HitsAfter(before), c) then 1 else 0)
  }

  /** One window lets through exactly the calls made in it, up to the limit. */
  lemma {:induction false} WindowGrants(limit: nat, calls: seq<Call>, key: Text)
    ensures GrantsInWindow(limit, calls, key) <= Cap(limit)
    ensures key in HitsAfter(calls) ==>
              var made := HitsAfter(calls)[key].count;
              made > 0 && GrantsInWindow(limit, calls, key) == if made <= Cap(limit) then made else Cap(limit)
  {
    if calls != [] {
      WindowGrants(limit, calls[..|calls| - 1], key);
    }
  }

  // ------------------------------------------- how long a refusal stands

  lemma {:induction false} OneMoreAfter(calls: seq<Call>, more: seq<Call>)
    requires more != []
    ensures HitsAfter(calls + more) == After(HitsAfter(calls + more[..|more| - 1]), more[|more| - 1])
  {
    OneMoreCall(calls + more[..|more| - 1], more[|more| - 1]);
    assert calls + more == calls + more[..|more| - 1] + [more[|more| - 1]];
  }

  predicate ClearsAt(calls: seq<Call>, more: seq<Call>, i: nat)
    requires i < |more|
  {
    Clears(HitsAfter(calls + more[..i]), more[i])
  }

  /** One of the further calls empties the map. */
  ghost predicate ClearedIn(calls: seq<Call>, more: seq<Call>) {
    exists i :: 0 <= i < |more| && ClearsAt(calls, more, i)
  }

  lemma {:induction false} ClearsAtPrefix(calls: seq<Call>, more: seq<Call>, n: nat, i: nat)
    requires i < n <= |more|
    ensures ClearsAt(calls, more[..n], i) == ClearsAt(calls, more, i)
  {
    assert more[..n][..i] == more[..i];
  }

  lemma {:induction false} ClearedLater(calls: seq<Call>, more: seq<Call>)
    requires more != []
    ensures var n := |more| - 1; ClearedIn(calls, more) <==> ClearedIn(calls, more[..n]) || ClearsAt(calls, more, n)
  {
    var n := |more| - 1;
    forall i | 0 <= i < n ensures ClearsAt(calls, more[..n], i) == ClearsAt(calls, more, i) {
      ClearsAtPrefix(calls, more, n, i);
    }
    if ClearedIn(calls, more[..n]) {
      var i :| 0 <= i < n && ClearsAt(calls, more[..n], i);
      assert ClearsAt(calls, more, i);
    }
  }

  /** Its entry stands exactly as long as the map is not emptied. */
  lemma {:induction false} EntryStands(calls: seq<Call>, key: Text, more: seq<Call>)
    requires key in HitsAfter(calls) && forall i | 0 <= i < |more| :: more[i].key != key
    ensures key in HitsAfter(calls + more) <==> !ClearedIn(calls, more)
    ensures !ClearedIn(calls, more) ==> HitsAfter(calls + more)[key] == HitsAfter(calls)[key]
  {
    if more == [] {
      assert calls + more == calls;
    } else {
      EntryStands(calls, key, more[..|more| - 1]);
      ClearedLater(calls, more);
      OneMoreAfter(calls, more);
    }
  }

  /** After any run, a key that is refused stays refused to the end of its window, whatever
      is called under other keys, if and only if none of those calls empties the map. */
  lemma {:induction false} RefusedUntilCleared(
      limit: nat, calls: seq<Call>, key: Text, more: seq<Call>, now: int, later: int)
    requires !Allowed(limit, HitsAfter(calls), Call(key, now)) && later <= HitsAfter(calls)[key].resetAt
    requires forall i | 0 <= i < |more| :: more[i].key != key
    ensures Allowed(limit, HitsAfter(calls + more), Call(key, later)) <==> ClearedIn(calls, more)
  {
    EntryStands(calls, key, more);
  }

  /** Its own further calls do not help it: while the map is not emptied they are refused. */
  lemma {:induction false} OwnCallsStayRefused(
      limit: nat, calls: seq<Call>, key: Text, more: seq<Call>, now: int, later: int)
    requires !Allowed(limit, HitsAfter(calls), Call(key, now)) && later <= HitsAfter(calls)[key].resetAt
    requires !ClearedIn(calls, more)
    requires forall i | 0 <= i < |more| && more[i].key == key :: more[i].now <= HitsAfter(calls)[key].resetAt
    ensures key in HitsAfter(calls + more) && HitsAfter(calls + more)[key].resetAt == HitsAfter(calls)[key].resetAt
    ensures HitsAfter(calls + more)[key].count >= HitsAfter(calls)[key].count
    ensures !Allowed(limit, HitsAfter(calls + more), Call(key, later))
  {
    if more == [] {
      assert calls + more == calls;
    } else {
      ClearedLater(calls, more);
      OwnCallsStayRefused(limit, calls, key, more[..|more| - 1], now, later);
      OneMoreAfter(calls, more);
    }
  }

  // -------------------------------------------------------- a flooded map

  function Flood(others: seq<Text>, now: int): (calls: seq<Call>)
    ensures |calls| == |others|
  {
    seq(|others|, i requires 0 <= i < |others| => Call(others[i], now))
  }

  ghost predicate NewKeys(hits: Hits, others: seq<Text>) {
    && (forall i | 0 <= i < |others| :: others[i] !in hits)
    && (forall i, j | 0 <= i < j < |others| :: others[i] != others[j])
  }

  /** One entry more for every new key, until the map is emptied. */
  ghost predicate FilledBy(hits: Hits, after: Hits, key: Text, others: seq<Text>) {
    && (key in after ==> |after| == |hits| + |others|)
    && (forall k | k in after :: k in hits || k in others)
  }

  lemma {:induction false} FloodOneMore(calls: seq<Call>, others: seq<Text>, now: int)
    requires others != []
    ensures calls + Flood(others, now)
         == calls + Flood(others[..|others| - 1], now) + [Call(others[|others| - 1], now)]
  {
  }

  lemma {:induction false} FloodFills(calls: seq<Call>, key: Text, others: seq<Text>, now: int)
    requires NewKeys(HitsAfter(calls), others) && key !in others
    ensures FilledBy(HitsAfter(calls), HitsAfter(calls + Flood(others, now)), key, others)
  {
    if others == [] {
      assert calls + Flood(others, now) == calls;
    } else {
      var n := |others| - 1;
      var before, c := calls + Flood(others[..n], now), Call(others[n], now);
      FloodFills(calls, key, others[..n], now);
      FloodOneMore(calls, others, now);
      OneMoreCall(before, c);
      FillOne(HitsAfter(calls), HitsAfter(before), key, others, c);
    }
  }

  lemma {:induction false} FillOne(hits: Hits, before: Hits, key: Text, others: seq<Text>, c: Call)
    requires others != [] && NewKeys(hits, others) && key !in others && c.key == others[|others| - 1]
    requires FilledBy(hits, before, key, others[..|others| - 1])
    ensures FilledBy(hits, After(before, c), key, others)
  {
    assert c.key !in before;
    assert After(before, c).Keys == (if Clears(before, c) then {} else before.Keys) + {c.key};
    assert c.key in others;
  }

  /** The map never holds more than one key over its limit. */
  lemma {:induction false} NeverOverFull(calls: seq<Call>)
    ensures |HitsAfter(calls)| <= MAX_KEYS + 1
  {
    if calls != [] {
      var before, c := HitsAfter(calls[..|calls| - 1]), calls[|calls| - 1];
      NeverOverFull(calls[..|calls| - 1]);
      assert HitsAfter(calls).Keys == (if Clears(before, c) then {} else before.Keys) + {c.key};
    }
  }

  lemma {:induction false} GrowsByOne(calls: seq<Call>, more: seq<Call>)
    ensures |HitsAfter(calls + more)| <= |HitsAfter(calls)| + |more|
  {
    if more == [] {
      assert calls + more == calls;
    } else {
      var before, c := HitsAfter(calls + more[..|more| - 1]), more[|more| - 1];
      GrowsByOne(calls, more[..|more| - 1]);
      OneMoreAfter(calls, more);
      assert After(before, c).Keys == (if Clears(before, c) then {} else before.Keys) + {c.key};
    }
  }

  /** Calls under new keys, made at one instant, empty the map exactly when it cannot hold
      them: a key that was being refused is then let through again in its window, and not
      otherwise. */
  lemma {:induction false} FloodForgetsExactlyWhen(limit: nat, calls: seq<Call>, key: Text, others: seq<Text>, now: int)
    requires !Allowed(limit, HitsAfter(calls), Call(key, now)) && NewKeys(HitsAfter(calls), others)
    ensures Allowed(limit, HitsAfter(calls + Flood(others, now)), Call(key, now))
       <==> |HitsAfter(calls)| + |others| > 10_001
  {
    var more := Flood(others, now);
    FloodFills(calls, key, others, now);
    NeverOverFull(calls + more);
    EntryStands(calls, key, more);
    forall i | 0 <= i < |more| && ClearsAt(calls, more, i) ensures |HitsAfter(calls)| + |more| > 10_001 {
      GrowsByOne(calls, more[..i]);
    }
  }

  /** So 10001 of them empty any map. */
  lemma {:induction false} FloodForgetsAnyKey(limit: nat, calls: seq<Call>, key: Text, others: seq<Text>, now: int)
    requires !Allowed(limit, HitsAfter(calls), Call(key, now))
    requires |others| == 10_001 && NewKeys(HitsAfter(calls), others)
    ensures Allowed(limit, HitsAfter(calls + Flood(others, now)), Call(key, now))
  {
    FloodForgetsExactlyWhen(limit, calls, key, others, now);
    assert key in HitsAfter(calls);
  }
}
