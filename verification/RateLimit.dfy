/** The fixed-window limiter that guards the public endpoints. */
module RateLimit {

  type Key = string
  type Instant = nat   // ticks of a monotonic clock

  datatype Bucket = Bucket(start: Instant, count: nat)
  type Buckets = map<Key, Bucket>

  datatype Config = Config(limit: nat, window: nat)

  /** `duration_since` saturates at zero. */
  function DurationSince(now: Instant, earlier: Instant): nat {
    if now >= earlier then now - earlier else 0
  }

  predicate Live(c: Config, b: Bucket, now: Instant) {
    DurationSince(now, b.start) < c.window
  }

  function Prune(c: Config, buckets: Buckets, now: Instant): Buckets {
    map k | k in buckets && Live(c, buckets[k], now) :: buckets[k]
  }

  // ---- one request ---------------------------------------------------------------------

  /** What one request does: the new buckets and whether it is admitted. */
  function Allow(c: Config, buckets: Buckets, key: Key, now: Instant): (Buckets, bool) {
    if c.limit == 0 || c.window == 0 then (buckets, true)
    else if key !in buckets || !Live(c, buckets[key], now)
    then (Prune(c, buckets[key := Bucket(now, 1)], now), true)
    else if buckets[key].count >= c.limit then (buckets, false)
    else (buckets[key := Bucket(buckets[key].start, buckets[key].count + 1)], true)
  }

  class Limiter {
    const config: Config
    var buckets: Buckets

    constructor (limit: nat, window: nat)
      ensures config == Config(limit, window) && buckets == map[]
    {
      config := Config(limit, window);
      buckets := map[];
    }

    method Admit(key: Key, now: Instant) returns (allowed: bool)
      modifies this`buckets
      ensures (buckets, allowed) == Allow(config, old(buckets), key, now)
    {
      if config.limit == 0 || config.window == 0 {
        return true;
      }
      if key !in buckets || !Live(config, buckets[key], now) {
        buckets := buckets[key := Bucket(now, 1)];
        buckets := Prune(config, buckets, now);
        return true;
      }
      var bucket := buckets[key];
      if bucket.count >= config.limit {
        return false;
      }
      bucket := bucket.(count := bucket.count + 1);
      buckets := buckets[key := bucket];
      return true;
    }
  }

  // ---- runs -----------------------------------------------------------------------------

  datatype Request = Request(key: Key, at: Instant)

  ghost predicate Nondecreasing(rs: seq<Request>) {
    forall i, j :: 0 <= i < j < |rs| ==> rs[i].at <= rs[j].at
  }

  /** The verdicts of a run. */
  function Run(c: Config, buckets: Buckets, rs: seq<Request>): seq<bool>
    decreases |rs|
  {
    if rs == [] then []
    else
      var (after, allowed) := Allow(c, buckets, rs[0].key, rs[0].at);
      [allowed] + Run(c, after, rs[1..])
  }

  /** The requests of one key, and their verdicts. */
  function OfKey(rs: seq<Request>, key: Key): seq<Request> {
    if rs == [] then [] else if rs[0].key == key then [rs[0]] + OfKey(rs[1..], key) else OfKey(rs[1..], key)
  }

  function VerdictsOf(rs: seq<Request>, verdicts: seq<bool>, key: Key): seq<bool>
    requires |verdicts| == |rs|
  {
    if rs == [] then []
    else if rs[0].key == key then [verdicts[0]] + VerdictsOf(rs[1..], verdicts[1..], key)
    else VerdictsOf(rs[1..], verdicts[1..], key)
  }

  lemma {:induction false} RunLength(c: Config, buckets: Buckets, rs: seq<Request>)
    ensures |Run(c, buckets, rs)| == |rs|
    decreases |rs|
  {
    if rs != [] {
      RunLength(c, Allow(c, buckets, rs[0].key, rs[0].at).0, rs[1..]);
    }
  }

  /** A limiter for a single key that never prunes: the reference. */
  datatype Slot = Unused | Used(bucket: Bucket)

  function Step(c: Config, slot: Slot, now: Instant): (Slot, bool) {
    if slot.Unused? || !Live(c, slot.bucket, now) then (Used(Bucket(now, 1)), true)
    else if slot.bucket.count >= c.limit then (slot, false)
    else (Used(Bucket(slot.bucket.start, slot.bucket.count + 1)), true)
  }

  function Reference(c: Config, slot: Slot, rs: seq<Request>): seq<bool>
    decreases |rs|
  {
    if rs == [] then []
    else
      var (after, allowed) := Step(c, slot, rs[0].at);
      [allowed] + Reference(c, after, rs[1..])
  }

  /** A pruned bucket differs from the reference only when it is dead for good. */
  ghost predicate Agrees(c: Config, buckets: Buckets, key: Key, slot: Slot, now: Instant) {
    if key in buckets then slot == Used(buckets[key])
    else slot.Unused? || !Live(c, slot.bucket, now)
  }

  /** Keys never affect each other and pruning is never noticed: the verdicts for a key
      are those of a limiter that sees only this key and keeps everything. */
  lemma {:induction false} KeysAreIndependent(c: Config, buckets: Buckets, key: Key, slot: Slot, rs: seq<Request>,
                                              now: Instant)
    requires c.limit > 0 && c.window > 0
    requires Nondecreasing(rs) && forall i :: 0 <= i < |rs| ==> now <= rs[i].at
    requires Agrees(c, buckets, key, slot, now)
    ensures |Run(c, buckets, rs)| == |rs|
    ensures VerdictsOf(rs, Run(c, buckets, rs), key) == Reference(c, slot, OfKey(rs, key))
    decreases |rs|
  {
    RunLength(c, buckets, rs);
    if rs != [] {
      var r := rs[0];
      var (after, allowed) := Allow(c, buckets, r.key, r.at);
      assert Run(c, buckets, rs)[1..] == Run(c, after, rs[1..]);
      assert now <= r.at;
      if r.key == key {
        assert OfKey(rs, key)[1..] == OfKey(rs[1..], key);
        KeysAreIndependent(c, after, key, Step(c, slot, r.at).0, rs[1..], r.at);
      } else {
        assert Agrees(c, after, key, slot, r.at);
        KeysAreIndependent(c, after, key, slot, rs[1..], r.at);
      }
    }
  }

  lemma FreshLimiterMatchesReference(c: Config, key: Key, rs: seq<Request>)
    requires c.limit > 0 && c.window > 0 && Nondecreasing(rs)
    ensures |Run(c, map[], rs)| == |rs|
    ensures VerdictsOf(rs, Run(c, map[], rs), key) == Reference(c, Unused, OfKey(rs, key))
  {
    KeysAreIndependent(c, map[], key, Unused, rs, 0);
  }

  /** A limiter without a limit or a window admits everything. */
  lemma {:induction false} DisabledAdmitsEverything(c: Config, buckets: Buckets, rs: seq<Request>)
    requires c.limit == 0 || c.window == 0
    ensures |Run(c, buckets, rs)| == |rs| && forall i :: 0 <= i < |rs| ==> Run(c, buckets, rs)[i]
    decreases |rs|
  {
    if rs != [] {
      DisabledAdmitsEverything(c, Allow(c, buckets, rs[0].key, rs[0].at).0, rs[1..]);
    }
  }

  /** Whether some bucket is left whose window is over. */
  predicate Stale(c: Config, buckets: Buckets, now: Instant) {
    exists k :: k in buckets && !Live(c, buckets[k], now)
  }

  /** A request never touches another key's open window, and leaves no bucket whose window is
      over when it opens one, so that such buckets are kept no longer than until then. */
  lemma OpeningAWindowPrunes(c: Config, buckets: Buckets, key: Key, now: Instant)
    requires c.limit > 0 && c.window > 0
    ensures
      var (after, allowed) := Allow(c, buckets, key, now);
      && (forall k :: k != key && k in buckets && Live(c, buckets[k], now) ==> k in after && after[k] == buckets[k])
      && (forall k :: k != key && k in after ==> k in buckets && after[k] == buckets[k])
      && key in after && now < after[key].start + c.window
      && (Stale(c, after, now) ==> key in buckets && after[key].start == buckets[key].start)
  {
  }

  // ---- how many requests are admitted ----------------------------------------------------

  /** Admissions of one key strictly before an instant. */
  function AdmittedBefore(rs: seq<Request>, verdicts: seq<bool>, end: Instant): nat
    requires |verdicts| == |rs|
  {
    if rs == [] then 0
    else (if verdicts[0] && rs[0].at < end then 1 else 0) + AdmittedBefore(rs[1..], verdicts[1..], end)
  }

  /** Admissions in the half-open interval. */
  function AdmittedIn(rs: seq<Request>, verdicts: seq<bool>, from: Instant, end: Instant): nat
    requires |verdicts| == |rs|
  {
    if rs == [] then 0
    else (if verdicts[0] && from <= rs[0].at < end then 1 else 0) + AdmittedIn(rs[1..], verdicts[1..], from, end)
  }

  lemma {:induction false} ReferenceLength(c: Config, slot: Slot, rs: seq<Request>)
    ensures |Reference(c, slot, rs)| == |rs|
    decreases |rs|
  {
    if rs != [] {
      ReferenceLength(c, Step(c, slot, rs[0].at).0, rs[1..]);
    }
  }

  /** From a bucket with m further windows before the end: what is left of it, and a
      limit's worth for each of them. */
  lemma {:induction false} LeftInWindows(c: Config, b: Bucket, rs: seq<Request>, end: Instant, m: nat)
    requires c.limit > 0 && c.window > 0 && b.count <= c.limit && Nondecreasing(rs)
    requires forall i :: 0 <= i < |rs| ==> b.start <= rs[i].at
    requires end <= b.start + (m + 1) * c.window
    ensures |Reference(c, Used(b), rs)| == |rs|
    ensures AdmittedBefore(rs, Reference(c, Used(b), rs), end) <= c.limit - b.count + m * c.limit
    decreases |rs|
  {
    ReferenceLength(c, Used(b), rs);
    if rs != [] {
      var now := rs[0].at;
      var (after, allowed) := Step(c, Used(b), now);
      ReferenceLength(c, after, rs[1..]);
      assert Reference(c, Used(b), rs)[1..] == Reference(c, after, rs[1..]);
      if Live(c, b, now) {
        LeftInWindows(c, after.bucket, rs[1..], end, m);
      } else if now < end {
        assert m == 0 ==> (m + 1) * c.window == c.window;
        assert m > 0;
        assert (m + 1) * c.window == m * c.window + c.window;
        assert m * c.limit == (m - 1) * c.limit + c.limit;
        LeftInWindows(c, after.bucket, rs[1..], end, m - 1);
      } else {
        NoneBefore(rs, Reference(c, Used(b), rs), end);
        assert m * c.limit >= 0;
      }
    }
  }

  lemma {:induction false} NoneBefore(rs: seq<Request>, verdicts: seq<bool>, end: Instant)
    requires |verdicts| == |rs| && forall i :: 0 <= i < |rs| ==> end <= rs[i].at
    ensures AdmittedBefore(rs, verdicts, end) == 0
  {
    if rs != [] {
      NoneBefore(rs[1..], verdicts[1..], end);
    }
  }

  lemma {:induction false} AllAfterStart(rs: seq<Request>, verdicts: seq<bool>, from: Instant, end: Instant)
    requires |verdicts| == |rs| && forall i :: 0 <= i < |rs| ==> from <= rs[i].at
    ensures AdmittedIn(rs, verdicts, from, end) == AdmittedBefore(rs, verdicts, end)
  {
    if rs != [] {
      AllAfterStart(rs[1..], verdicts[1..], from, end);
    }
  }

  ghost predicate ReachableSlot(c: Config, slot: Slot) {
    slot.Used? ==> 1 <= slot.bucket.count <= c.limit
  }

  /** From the first request on: what is left in the open window, and k windows more. */
  lemma BoundFromFirst(c: Config, slot: Slot, rs: seq<Request>, from: Instant, k: nat)
    requires c.limit > 0 && c.window > 0 && ReachableSlot(c, slot) && Nondecreasing(rs)
    requires slot.Used? ==> forall i :: 0 <= i < |rs| ==> slot.bucket.start <= rs[i].at
    requires |Reference(c, slot, rs)| == |rs| > 0 && from <= rs[0].at
    ensures AdmittedIn(rs, Reference(c, slot, rs), from, from + k * c.window) <= (k + 1) * c.limit
  {
    var now := rs[0].at;
    var end := from + k * c.window;
    var (after, allowed) := Step(c, slot, now);
    ReferenceLength(c, after, rs[1..]);
    assert Reference(c, slot, rs)[1..] == Reference(c, after, rs[1..]);
    AllAfterStart(rs, Reference(c, slot, rs), from, end);
    if slot.Used? && Live(c, slot.bucket, now) {
      assert end <= slot.bucket.start + (k + 1) * c.window by {
        assert from <= now < slot.bucket.start + c.window;
        assert (k + 1) * c.window == k * c.window + c.window;
      }
      LeftInWindows(c, slot.bucket, rs, end, k);
      assert (k + 1) * c.limit == k * c.limit + c.limit;
    } else if k == 0 {
      assert end == from by { assert k * c.window == 0; }
      NoneBefore(rs, Reference(c, slot, rs), end);
    } else {
      assert after == Used(Bucket(now, 1));
      assert end <= now + (k - 1 + 1) * c.window;
      LeftInWindows(c, after.bucket, rs[1..], end, k - 1);
      assert (k + 1) * c.limit == (k - 1) * c.limit + c.limit + c.limit;
    }
  }

  /** Any interval of k windows admits at most k + 1 limits' worth. */
  lemma {:induction false} IntervalBound(c: Config, slot: Slot, rs: seq<Request>, from: Instant, k: nat)
    requires c.limit > 0 && c.window > 0 && ReachableSlot(c, slot) && Nondecreasing(rs)
    requires slot.Used? ==> forall i :: 0 <= i < |rs| ==> slot.bucket.start <= rs[i].at
    ensures |Reference(c, slot, rs)| == |rs|
    ensures AdmittedIn(rs, Reference(c, slot, rs), from, from + k * c.window) <= (k + 1) * c.limit
    decreases |rs|
  {
    ReferenceLength(c, slot, rs);
    if rs != [] {
      if from <= rs[0].at {
        BoundFromFirst(c, slot, rs, from, k);
      } else {
        var (after, _) := Step(c, slot, rs[0].at);
        ReferenceLength(c, after, rs[1..]);
        assert Reference(c, slot, rs)[1..] == Reference(c, after, rs[1..]);
        IntervalBound(c, after, rs[1..], from, k);
      }
    }
  }

  function AdmittedOf(rs: seq<Request>, verdicts: seq<bool>, key: Key, from: Instant, end: Instant): nat
    requires |verdicts| == |rs|
  {
    if rs == [] then 0
    else (if verdicts[0] && rs[0].key == key && from <= rs[0].at < end then 1 else 0)
         + AdmittedOf(rs[1..], verdicts[1..], key, from, end)
  }

  lemma {:induction false} AdmittedOfKey(rs: seq<Request>, verdicts: seq<bool>, key: Key, from: Instant, end: Instant)
    requires |verdicts| == |rs|
    ensures |VerdictsOf(rs, verdicts, key)| == |OfKey(rs, key)|
    ensures AdmittedOf(rs, verdicts, key, from, end)
         == AdmittedIn(OfKey(rs, key), VerdictsOf(rs, verdicts, key), from, end)
  {
    if rs != [] {
      AdmittedOfKey(rs[1..], verdicts[1..], key, from, end);
      if rs[0].key == key {
        assert OfKey(rs, key)[1..] == OfKey(rs[1..], key);
        assert VerdictsOf(rs, verdicts, key)[1..] == VerdictsOf(rs[1..], verdicts[1..], key);
      }
    }
  }

  lemma {:induction false} OfKeyElements(rs: seq<Request>, key: Key)
    requires Nondecreasing(rs)
    ensures Nondecreasing(OfKey(rs, key))
    ensures forall r :: r in OfKey(rs, key) ==> r in rs
  {
    if rs != [] {
      OfKeyElements(rs[1..], key);
      assert forall r :: r in rs[1..] ==> r in rs && rs[0].at <= r.at;
      var rest := OfKey(rs[1..], key);
      forall i | 0 <= i < |rest| ensures rs[0].at <= rest[i].at {
        assert rest[i] in OfKey(rs[1..], key);
      }
    }
  }

  /** The rate-limit promise, for the limiter as it runs: all keys, with pruning. */
  lemma AnyIntervalIsBounded(c: Config, rs: seq<Request>, key: Key, from: Instant, k: nat)
    requires c.limit > 0 && c.window > 0 && Nondecreasing(rs)
    ensures |Run(c, map[], rs)| == |rs|
    ensures AdmittedOf(rs, Run(c, map[], rs), key, from, from + k * c.window) <= (k + 1) * c.limit
  {
    FreshLimiterMatchesReference(c, key, rs);
    AdmittedOfKey(rs, Run(c, map[], rs), key, from, from + k * c.window);
    OfKeyElements(rs, key);
    IntervalBound(c, Unused, OfKey(rs, key), from, k);
  }

  /** Admissions already counted in the key's bucket, when the window in question is it. */
  function Counted(buckets: Buckets, key: Key, start: Instant): nat {
    if key in buckets && buckets[key].start == start then buckets[key].count else 0
  }

  /** A bucket counts nothing but admissions in its window. */
  lemma AllowCounts(c: Config, buckets: Buckets, r: Request, key: Key, start: Instant)
    requires c.limit > 0 && c.window > 0 && forall k :: k in buckets ==> buckets[k].start <= r.at
    ensures
      var (after, allowed) := Allow(c, buckets, r.key, r.at);
      && (forall k :: k in after ==> after[k].start <= r.at)
      && Counted(after, key, start)
           <= Counted(buckets, key, start)
              + if allowed && r.key == key && start <= r.at < start + c.window then 1 else 0
  {
  }

  /** A request is refused only in a window, less than its length old, in which `limit`
      requests of the same key were admitted. */
  lemma {:induction false} RefusedOnlyAtTheLimit(c: Config, buckets: Buckets, rs: seq<Request>, i: nat)
      returns (start: Instant)
    requires c.limit > 0 && c.window > 0 && Nondecreasing(rs) && i < |rs| == |Run(c, buckets, rs)|
    requires forall k :: k in buckets ==> forall j :: 0 <= j < |rs| ==> buckets[k].start <= rs[j].at
    requires !Run(c, buckets, rs)[i]
    ensures start <= rs[i].at < start + c.window
    ensures AdmittedOf(rs[..i], Run(c, buckets, rs)[..i], rs[i].key, start, start + c.window)
            + Counted(buckets, rs[i].key, start) >= c.limit
    decreases i
  {
    var verdicts := Run(c, buckets, rs);
    var (after, allowed) := Allow(c, buckets, rs[0].key, rs[0].at);
    RunLength(c, after, rs[1..]);
    assert verdicts[1..] == Run(c, after, rs[1..]);
    if i == 0 {
      start := buckets[rs[0].key].start;
    } else {
      AllowCounts(c, buckets, rs[0], rs[i].key, 0);
      hide Allow, Counted, Live, Prune;
      start := RefusedOnlyAtTheLimit(c, after, rs[1..], i - 1);
      FirstAndRest(rs, verdicts, i, rs[i].key, start, start + c.window);
      hide AdmittedOf;
      AllowCounts(c, buckets, rs[0], rs[i].key, start);
    }
  }

  lemma FirstAndRest(rs: seq<Request>, verdicts: seq<bool>, i: nat, key: Key, from: Instant, end: Instant)
    requires 0 < i < |rs| == |verdicts|
    ensures AdmittedOf(rs[..i], verdicts[..i], key, from, end)
         == (if verdicts[0] && rs[0].key == key && from <= rs[0].at < end then 1 else 0)
            + AdmittedOf(rs[1..][..i - 1], verdicts[1..][..i - 1], key, from, end)
  {
    assert rs[..i][1..] == rs[1..][..i - 1];
    assert verdicts[..i][1..] == verdicts[1..][..i - 1];
  }

  /** `limit` requests of the i-th request's key were admitted before it, in a window
      from `start` that is still open. */
  ghost predicate WindowIsFull(c: Config, rs: seq<Request>, verdicts: seq<bool>, i: nat, start: Instant)
    requires i < |rs| == |verdicts|
  {
    && start <= rs[i].at < start + c.window
    && AdmittedOf(rs[..i], verdicts[..i], rs[i].key, start, start + c.window) >= c.limit
  }

  lemma RefusalIsDeserved(c: Config, rs: seq<Request>, i: nat)
    requires c.limit > 0 && c.window > 0 && Nondecreasing(rs) && i < |rs| == |Run(c, map[], rs)|
    requires !Run(c, map[], rs)[i]
    ensures exists start :: WindowIsFull(c, rs, Run(c, map[], rs), i, start)
  {
    var start := RefusedOnlyAtTheLimit(c, map[], rs, i);
    assert WindowIsFull(c, rs, Run(c, map[], rs), i, start);
  }
}
