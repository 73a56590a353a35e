/** The TTL idempotency cache (internal/adapters/events/dedup.go) and its refreshing twin
    for alerts (internal/adapters/notify/dedup.go). */
module Dedup {

  type Time = int

  /** A history is the calls of one cache in the order they held its mutex. DedupCache.Seen
      reads the clock before it takes the mutex, so timestamps in a history need not ascend. */
  datatype Call = Call(key: string, window: Time, now: Time, hit: bool)

  // ---- full-history specification ----------------------------------------

  /** No call after h[i], up to and including h[n], found h[i]'s timestamp expired. */
  ghost predicate Survives(h: seq<Call>, i: nat, n: nat)
    requires i < |h| && n < |h|
  {
    forall j | i < j <= n :: h[j].now - h[i].now <= h[j].window
  }

  /** h[i] was accepted under h[n]'s key and has survived to h[n]. */
  ghost predicate Remembers(h: seq<Call>, i: nat, n: nat)
    requires i < n < |h|
  {
    h[i].key == h[n].key && !h[i].hit && Survives(h, i, n)
  }

  /** Every answer in h is the one the full history calls for. */
  ghost predicate Faithful(h: seq<Call>) {
    forall n | 0 <= n < |h| :: h[n].hit <==> exists i :: 0 <= i < n && Remembers(h, i, n)
  }

  /** An accept of h whose timestamp no later call of h found expired. */
  ghost predicate Stored(h: seq<Call>, i: nat)
    requires i < |h|
  {
    !h[i].hit && Survives(h, i, |h| - 1)
  }

  /** entries holds exactly the stored accepts of h, and every answer in h was right. */
  ghost predicate Represents(entries: map<string, Time>, h: seq<Call>) {
    Faithful(h) && Backed(entries, h) && Complete(entries, h)
  }

  ghost predicate Backed(entries: map<string, Time>, h: seq<Call>) {
    forall k | k in entries :: exists i :: 0 <= i < |h| && StoredAs(h, i, k, entries[k])
  }

  ghost predicate Complete(entries: map<string, Time>, h: seq<Call>) {
    forall i | 0 <= i < |h| && Stored(h, i) :: h[i].key in entries && entries[h[i].key] == h[i].now
  }

  ghost predicate StoredAs(h: seq<Call>, i: nat, key: string, at: Time)
    requires i < |h|
  {
    h[i].key == key && h[i].now == at && Stored(h, i)
  }

  /** The map after a sweep at now. */
  function Swept(entries: map<string, Time>, window: Time, now: Time): map<string, Time> {
    map k | k in entries && now - entries[k] <= window :: entries[k]
  }

  class DedupCache {
    var entries: map<string, Time>
    ghost var history: seq<Call>

    ghost predicate Valid()
      reads this
    {
      Represents(entries, history)
    }

    constructor ()
      ensures Valid() && history == [] && entries == map[]
    {
      entries, history := map[], [];
    }

    /** Ranges over the map in any order, deleting what has expired at now. */
    method Sweep(window: Time, now: Time)
      modifies this`entries
      ensures entries == Swept(old(entries), window, now)
      ensures forall k :: k in entries <==> k in old(entries) && now - old(entries)[k] <= window
      ensures forall k | k in entries :: entries[k] == old(entries)[k]
    {
      var todo := entries.Keys;
      ghost var before := entries;
      while todo != {}
        invariant todo <= entries.Keys <= before.Keys
        invariant forall k | k in before.Keys - todo :: k in entries <==> now - before[k] <= window
        invariant forall k | k in entries :: entries[k] == before[k]
        decreases |todo|
      {
        var k :| k in todo;
        if now - entries[k] > window { entries := entries - {k}; }
        todo := todo - {k};
      }
    }

    method Seen(key: string, window: Time, now: Time) returns (hit: bool)
      requires Valid()
      modifies this
      ensures Valid()
      ensures history == old(history) + [Call(key, window, now, hit)]
      ensures entries == After(old(entries), Call(key, window, now, hit))
      ensures hit <==> key in old(entries) && now - old(entries)[key] <= window
      ensures key in entries && entries[key] == if hit then old(entries)[key] else now
      ensures forall k | k != key :: k in entries <==> k in old(entries) && now - old(entries)[k] <= window
      ensures forall k | k != key && k in entries :: entries[k] == old(entries)[k]
    {
      ghost var h0, e0 := history, entries;
      if |entries| > 0 { Sweep(window, now); }
      if key in entries && now - entries[key] <= window {
        hit := true;
      } else {
        entries := entries[key := now];
        hit := false;
      }
      history := history + [Call(key, window, now, hit)];
      SeenStep(e0, h0, Call(key, window, now, hit));
    }
  }

  lemma SurvivesPrefix(h: seq<Call>, c: Call, i: nat, n: nat)
    requires i < |h| && n < |h|
    ensures Survives(h + [c], i, n) <==> Survives(h, i, n)
  {
    assert forall j | 0 <= j < |h| :: (h + [c])[j] == h[j];
  }

  lemma StoredStep(h: seq<Call>, c: Call, i: nat)
    requires i < |h|
    ensures Stored(h + [c], i) <==> Stored(h, i) && c.now - h[i].now <= c.window
    ensures Remembers(h + [c], i, |h|) <==> h[i].key == c.key && Stored(h + [c], i)
  {
    var h' := h + [c];
    assert forall j | 0 <= j < |h| :: h'[j] == h[j];
    if Stored(h', i) {
      assert h'[|h|].now - h'[i].now <= h'[|h|].window;
      assert forall j | i < j <= |h| - 1 :: h'[j].now - h'[i].now <= h'[j].window;
    }
  }

  lemma FaithfulPrefix(h: seq<Call>, c: Call, n: nat)
    requires Faithful(h) && n < |h|
    ensures (h + [c])[n].hit <==> exists i :: 0 <= i < n && Remembers(h + [c], i, n)
  {
    forall i | 0 <= i < n
      ensures Remembers(h + [c], i, n) <==> Remembers(h, i, n)
    {
      SurvivesPrefix(h, c, i, n);
    }
  }

  lemma FaithfulStep(h: seq<Call>, c: Call)
    requires Faithful(h)
    requires c.hit <==> exists i :: 0 <= i < |h| && Remembers(h + [c], i, |h|)
    ensures Faithful(h + [c])
  {
    forall n | 0 <= n < |h| { FaithfulPrefix(h, c, n); }
  }

  function After(e: map<string, Time>, c: Call): map<string, Time> {
    var swept := Swept(e, c.window, c.now);
    if c.hit then swept else swept[c.key := c.now]
  }

  lemma AnswerStep(e: map<string, Time>, h: seq<Call>, c: Call)
    requires Backed(e, h) && Complete(e, h)
    ensures c.key in Swept(e, c.window, c.now) <==> exists i :: 0 <= i < |h| && Remembers(h + [c], i, |h|)
  {
    if c.key in Swept(e, c.window, c.now) {
      var i :| 0 <= i < |h| && StoredAs(h, i, c.key, e[c.key]);
      StoredStep(h, c, i);
      assert Remembers(h + [c], i, |h|);
    }
    forall i | 0 <= i < |h| && Remembers(h + [c], i, |h|)
      ensures c.key in Swept(e, c.window, c.now)
    {
      StoredStep(h, c, i);
    }
  }

  lemma BackedStep(e: map<string, Time>, h: seq<Call>, c: Call)
    requires Backed(e, h)
    ensures Backed(After(e, c), h + [c])
  {
    var e', h' := After(e, c), h + [c];
    forall k | k in e'
      ensures exists i :: 0 <= i < |h'| && StoredAs(h', i, k, e'[k])
    {
      if k == c.key && !c.hit {
        assert StoredAs(h', |h|, k, e'[k]);
      } else {
        var i :| 0 <= i < |h| && StoredAs(h, i, k, e[k]);
        StoredStep(h, c, i);
        assert StoredAs(h', i, k, e'[k]);
      }
    }
  }

  lemma CompleteStep(e: map<string, Time>, h: seq<Call>, c: Call)
    requires Complete(e, h)
    requires c.key in Swept(e, c.window, c.now) ==> c.hit
    ensures Complete(After(e, c), h + [c])
  {
    forall i | 0 <= i < |h| { StoredStep(h, c, i); }
  }

  /** One call keeps map and history in step, whatever the clock read. */
  lemma SeenStep(e: map<string, Time>, h: seq<Call>, c: Call)
    requires Represents(e, h)
    requires c.hit <==> c.key in Swept(e, c.window, c.now)
    ensures Represents(After(e, c), h + [c])
  {
    AnswerStep(e, h, c);
    FaithfulStep(h, c);
    BackedStep(e, h, c);
    CompleteStep(e, h, c);
  }

  // ---- what a faithful history promises -----------------------------------

  ghost predicate FixedWindow(h: seq<Call>, w: Time) {
    forall i | 0 <= i < |h| :: h[i].window == w
  }

  /** Timestamps, in lock order, go back by at most skew. */
  ghost predicate SkewAtMost(h: seq<Call>, skew: Time) {
    forall i, j | 0 <= i < j < |h| :: h[i].now - skew <= h[j].now
  }

  ghost predicate Accepted(h: seq<Call>, i: nat, key: string)
    requires i < |h|
  {
    h[i].key == key && !h[i].hit
  }

  /** The documented rule: h[n]'s key was recorded within the window before h[n]. */
  ghost predicate RecentAccept(h: seq<Call>, i: nat, n: nat)
    requires i < n < |h|
  {
    Accepted(h, i, h[n].key) && h[n].now - h[i].now <= h[n].window
  }

  ghost predicate SeenRecently(h: seq<Call>, n: nat)
    requires n < |h|
  {
    exists i :: 0 <= i < n && RecentAccept(h, i, n)
  }

  ghost predicate SameInputs(a: seq<Call>, b: seq<Call>) {
    |a| == |b| && forall i | 0 <= i < |a| :: a[i].(hit := false) == b[i].(hit := false)
  }

  lemma RemembersAlike(a: seq<Call>, b: seq<Call>, i: nat, m: nat)
    requires SameInputs(a, b) && i < m < |a| && a[i] == b[i]
    ensures Remembers(a, i, m) <==> Remembers(b, i, m)
  {
    assert forall j | 0 <= j < |a| :: a[j].now == b[j].now && a[j].window == b[j].window && a[j].key == b[j].key by {
      assert forall j | 0 <= j < |a| :: a[j].(hit := false) == b[j].(hit := false);
    }
  }

  /** The inputs alone fix every answer. */
  lemma {:induction false} AnswersDetermined(a: seq<Call>, b: seq<Call>, n: nat)
    requires Faithful(a) && Faithful(b) && SameInputs(a, b) && n <= |a|
    ensures a[..n] == b[..n]
  {
    if n > 0 {
      var m := n - 1;
      AnswersDetermined(a, b, m);
      forall i | 0 <= i < m
        ensures Remembers(a, i, m) <==> Remembers(b, i, m)
      {
        assert a[i] == a[..m][i] == b[..m][i] == b[i];
        RemembersAlike(a, b, i, m);
      }
      assert a[m].(hit := false) == b[m].(hit := false);
      assert a[..n] == a[..m] + [a[m]] && b[..n] == b[..m] + [b[m]];
    }
  }

  /** A hit is never wrong; a call whose clock is no older than its predecessors' gets
      exactly the documented answer. */
  lemma RefinesDocumentedRule(h: seq<Call>, n: nat, w: Time)
    requires Faithful(h) && n < |h| && FixedWindow(h, w)
    ensures h[n].hit ==> SeenRecently(h, n)
    ensures (forall j | 0 <= j < n :: h[j].now <= h[n].now) ==> (h[n].hit <==> SeenRecently(h, n))
    ensures SeenRecently(h, n) <==>
      exists i :: 0 <= i < n && h[i].key == h[n].key && !h[i].hit && h[n].now - h[i].now <= w
  {
    forall i | 0 <= i < n
      ensures RecentAccept(h, i, n) <==> h[i].key == h[n].key && !h[i].hit && h[n].now - h[i].now <= w
    {
    }
    if h[n].hit {
      var i :| 0 <= i < n && Remembers(h, i, n);
      assert RecentAccept(h, i, n);
    }
    if SeenRecently(h, n) && forall j | 0 <= j < n :: h[j].now <= h[n].now {
      var i :| 0 <= i < n && RecentAccept(h, i, n);
      assert Remembers(h, i, n);
    }
  }

  /** No call between h[i] and h[n] whose clock ran ahead of h[n]'s swept h[i]. */
  ghost predicate Unswept(h: seq<Call>, i: nat, n: nat, w: Time)
    requires i < n < |h|
  {
    forall j | i < j < n && h[n].now < h[j].now :: h[j].now - h[i].now <= w
  }

  /** With clocks out of order the rule fails exactly when every recent accept of the key was
      swept by a call whose clock ran ahead of this one. */
  lemma DepartsFromDocumentedRule(h: seq<Call>, n: nat, w: Time)
    requires Faithful(h) && n < |h| && FixedWindow(h, w)
    ensures (h[n].hit <==> SeenRecently(h, n)) <==>
      (SeenRecently(h, n) ==> exists i :: 0 <= i < n && RecentAccept(h, i, n) && Unswept(h, i, n, w))
  {
    RefinesDocumentedRule(h, n, w);
    forall i | 0 <= i < n
      ensures Remembers(h, i, n) <==> RecentAccept(h, i, n) && Unswept(h, i, n, w)
    {
    }
  }

  /** The departure is real: the other key's clock ran ahead, and a redelivery inside the
      window is let through. */
  lemma ClockOrderMatters()
    ensures var h := [Call("k", 10, 0, false), Call("other", 10, 11, false), Call("k", 10, 5, false)];
      Faithful(h) && FixedWindow(h, 10) && SeenRecently(h, 2) && !h[2].hit
  {
    var h := [Call("k", 10, 0, false), Call("other", 10, 11, false), Call("k", 10, 5, false)];
    assert RecentAccept(h, 0, 2);
    assert !Survives(h, 0, 2) by { assert h[1].now - h[0].now > h[1].window; }
  }

  /** Two accepts of one key are more than the window apart, less the clock skew. */
  lemma AcceptGap(h: seq<Call>, i: nat, n: nat, w: Time, skew: nat)
    requires Faithful(h) && FixedWindow(h, w) && SkewAtMost(h, skew)
    requires i < n < |h| && Accepted(h, i, h[n].key) && Accepted(h, n, h[n].key)
    ensures h[n].now - h[i].now > w - skew
  {
    assert !Remembers(h, i, n);
    var j :| i < j <= n && h[j].now - h[i].now > h[j].window;
  }

  ghost predicate AcceptsIn(h: seq<Call>, key: string, idx: seq<nat>, from: Time, span: Time) {
    && (forall k | 0 <= k < |idx| :: idx[k] < |h| && Accepted(h, idx[k], key) && from <= h[idx[k]].now <= from + span)
    && (forall k | 0 < k < |idx| :: idx[k-1] < idx[k])
  }

  lemma {:induction false} AcceptsSpread(h: seq<Call>, key: string, idx: seq<nat>, from: Time, span: Time,
          w: Time, skew: nat)
    requires Faithful(h) && FixedWindow(h, w) && SkewAtMost(h, skew) && w >= skew
    requires AcceptsIn(h, key, idx, from, span) && idx != []
    ensures (|idx| - 1) * (w - skew + 1) <= h[idx[|idx|-1]].now - from
  {
    var m := |idx| - 1;
    if m > 0 {
      AcceptsSpread(h, key, idx[..m], from, span, w, skew);
      AcceptGap(h, idx[m-1], idx[m], w, skew);
      OneMoreGap(m, w - skew + 1);
    }
  }

  lemma OneMoreGap(m: int, gap: int)
    ensures (m - 1) * gap + gap == m * gap
  {
  }

  /** In any span of length L one key is accepted at most L / (window - skew + 1) + 1 times,
      though a hit does not refresh its entry. */
  lemma AcceptRate(h: seq<Call>, key: string, idx: seq<nat>, from: Time, span: nat, w: Time, skew: nat)
    requires Faithful(h) && FixedWindow(h, w) && SkewAtMost(h, skew) && w >= skew
    requires AcceptsIn(h, key, idx, from, span)
    ensures (|idx| - 1) * (w - skew + 1) <= span
  {
    if idx != [] { AcceptsSpread(h, key, idx, from, span, w, skew); }
  }

  /** Accepts the last call of h still counts as recent. */
  ghost function RecentAccepts(h: seq<Call>): set<nat>
    requires h != []
  {
    var last := h[|h|-1];
    set i: nat | i < |h| && !h[i].hit && last.now - h[i].now <= last.window
  }

  /** Lazy sweeping bounds the map: after a call it holds no more entries than there were
      accepts inside that call's window. */
  lemma MapBounded(entries: map<string, Time>, h: seq<Call>)
    requires Represents(entries, h) && h != []
    requires h[|h|-1].window >= 0
    ensures forall k | k in entries :: h[|h|-1].now - entries[k] <= h[|h|-1].window
    ensures |entries| <= |RecentAccepts(h)|
  {
    forall k | k in entries
      ensures exists i: nat :: i in RecentAccepts(h) && h[i].key == k && h[i].now == entries[k]
    {
      var i :| 0 <= i < |h| && StoredAs(h, i, k, entries[k]);
      assert i in RecentAccepts(h);
    }
    KeysCovered(entries.Keys, RecentAccepts(h), h);
  }

  lemma {:induction false} KeysCovered(keys: set<string>, idx: set<nat>, h: seq<Call>)
    requires forall i | i in idx :: i < |h|
    requires forall k | k in keys :: exists i: nat :: i in idx && h[i].key == k
    ensures |keys| <= |idx|
  {
    if keys != {} {
      var k :| k in keys;
      var i: nat :| i in idx && h[i].key == k;
      KeysCovered(keys - {k}, idx - {i}, h);
    }
  }

  // ---- the refreshing cache for alerts ------------------------------------

  /** h[i] is the latest call of h[n]'s key and has survived to h[n]. */
  ghost predicate LastOccurrence(h: seq<Call>, i: nat, n: nat)
    requires i < n < |h|
  {
    h[i].key == h[n].key && Survives(h, i, n) && forall j | i < j < n :: h[j].key != h[n].key
  }

  ghost predicate AlertFaithful(h: seq<Call>) {
    forall n | 0 <= n < |h| :: h[n].hit <==> exists i :: 0 <= i < n && LastOccurrence(h, i, n)
  }

  ghost predicate Latest(h: seq<Call>, i: nat, key: string, at: Time)
    requires i < |h|
  {
    && h[i].key == key && h[i].now == at && Survives(h, i, |h| - 1)
    && forall j | i < j < |h| :: h[j].key != key
  }

  ghost predicate AlertRepresents(entries: map<string, Time>, h: seq<Call>) {
    AlertFaithful(h) && AlertBacked(entries, h) && AlertComplete(entries, h)
  }

  ghost predicate AlertBacked(entries: map<string, Time>, h: seq<Call>) {
    forall k | k in entries :: exists i :: 0 <= i < |h| && Latest(h, i, k, entries[k])
  }

  ghost predicate AlertComplete(entries: map<string, Time>, h: seq<Call>) {
    forall i | 0 <= i < |h| && Latest(h, i, h[i].key, h[i].now) ::
      h[i].key in entries && entries[h[i].key] == h[i].now
  }

  class AlertDedup {
    var entries: map<string, Time>
    ghost var history: seq<Call>

    ghost predicate Valid()
      reads this
    {
      AlertRepresents(entries, history)
    }

    constructor ()
      ensures Valid() && history == [] && entries == map[]
    {
      entries, history := map[], [];
    }

    method Seen(key: string, window: Time, now: Time) returns (hit: bool)
      requires Valid()
      modifies this
      ensures Valid()
      ensures history == old(history) + [Call(key, window, now, hit)]
      ensures entries == Swept(old(entries), window, now)[key := now]
      ensures hit <==> key in old(entries) && now - old(entries)[key] <= window
      ensures key in entries && entries[key] == now
      ensures forall k | k != key :: k in entries <==> k in old(entries) && now - old(entries)[k] <= window
      ensures forall k | k != key && k in entries :: entries[k] == old(entries)[k]
    {
      ghost var h0, e0 := history, entries;
      var todo := entries.Keys;
      while todo != {}
        invariant todo <= entries.Keys <= e0.Keys
        invariant forall k | k in e0.Keys - todo :: k in entries <==> now - e0[k] <= window
        invariant forall k | k in entries :: entries[k] == e0[k]
        invariant history == h0
        decreases |todo|
      {
        var k :| k in todo;
        if now - entries[k] > window { entries := entries - {k}; }
        todo := todo - {k};
      }
      assert entries == Swept(e0, window, now);
      hit := key in entries && now - entries[key] <= window;
      entries := entries[key := now];
      history := history + [Call(key, window, now, hit)];
      AlertStep(e0, h0, Call(key, window, now, hit));
    }
  }

  lemma LatestStep(h: seq<Call>, c: Call, i: nat, key: string, at: Time)
    requires i < |h|
    ensures Latest(h + [c], i, key, at) <==> Latest(h, i, key, at) && key != c.key && c.now - at <= c.window
    ensures LastOccurrence(h + [c], i, |h|) <==> Latest(h, i, c.key, h[i].now) && c.now - h[i].now <= c.window
  {
    var h' := h + [c];
    assert forall j | 0 <= j < |h| :: h'[j] == h[j];
    assert h'[|h|] == c;
    if Survives(h', i, |h|) {
      assert h'[|h|].now - h'[i].now <= h'[|h|].window;
      assert forall j | i < j <= |h| - 1 :: h'[j].now - h'[i].now <= h'[j].window;
    }
  }

  lemma AlertPrefix(h: seq<Call>, c: Call, n: nat)
    requires AlertFaithful(h) && n < |h|
    ensures (h + [c])[n].hit <==> exists i :: 0 <= i < n && LastOccurrence(h + [c], i, n)
  {
    assert forall j | 0 <= j < |h| :: (h + [c])[j] == h[j];
    forall i | 0 <= i < n
      ensures LastOccurrence(h + [c], i, n) <==> LastOccurrence(h, i, n)
    {
      SurvivesPrefix(h, c, i, n);
    }
  }

  lemma AlertFaithfulStep(h: seq<Call>, c: Call)
    requires AlertFaithful(h)
    requires c.hit <==> exists i :: 0 <= i < |h| && LastOccurrence(h + [c], i, |h|)
    ensures AlertFaithful(h + [c])
  {
    forall n | 0 <= n < |h| { AlertPrefix(h, c, n); }
  }

  lemma AlertAnswerStep(e: map<string, Time>, h: seq<Call>, c: Call)
    requires AlertBacked(e, h) && AlertComplete(e, h)
    ensures c.key in Swept(e, c.window, c.now) <==> exists i :: 0 <= i < |h| && LastOccurrence(h + [c], i, |h|)
  {
    if c.key in Swept(e, c.window, c.now) {
      var i :| 0 <= i < |h| && Latest(h, i, c.key, e[c.key]);
      LatestStep(h, c, i, c.key, h[i].now);
      assert LastOccurrence(h + [c], i, |h|);
    }
    forall i | 0 <= i < |h| && LastOccurrence(h + [c], i, |h|)
      ensures c.key in Swept(e, c.window, c.now)
    {
      LatestStep(h, c, i, c.key, h[i].now);
    }
  }

  lemma AlertMapStep(e: map<string, Time>, h: seq<Call>, c: Call)
    requires AlertBacked(e, h) && AlertComplete(e, h)
    ensures AlertBacked(Swept(e, c.window, c.now)[c.key := c.now], h + [c])
    ensures AlertComplete(Swept(e, c.window, c.now)[c.key := c.now], h + [c])
  {
    var e', h' := Swept(e, c.window, c.now)[c.key := c.now], h + [c];
    forall k | k in e'
      ensures exists i :: 0 <= i < |h'| && Latest(h', i, k, e'[k])
    {
      if k == c.key {
        assert Latest(h', |h|, k, e'[k]);
      } else {
        var i :| 0 <= i < |h| && Latest(h, i, k, e[k]);
        LatestStep(h, c, i, k, e[k]);
        assert Latest(h', i, k, e'[k]);
      }
    }
    forall i | 0 <= i < |h| { LatestStep(h, c, i, h[i].key, h[i].now); }
  }

  lemma AlertStep(e: map<string, Time>, h: seq<Call>, c: Call)
    requires AlertRepresents(e, h)
    requires c.hit <==> c.key in Swept(e, c.window, c.now)
    ensures AlertRepresents(Swept(e, c.window, c.now)[c.key := c.now], h + [c])
  {
    AlertAnswerStep(e, h, c);
    AlertFaithfulStep(h, c);
    AlertMapStep(e, h, c);
  }

  lemma LastOf(h: seq<Call>, i: nat, n: nat) returns (l: nat)
    requires i < n < |h| && h[i].key == h[n].key
    ensures i <= l < n && h[l].key == h[n].key
    ensures forall j | l < j < n :: h[j].key != h[n].key
    decreases n - i
  {
    if j: nat :| i < j < n && h[j].key == h[n].key {
      l := LastOf(h, j, n);
    } else {
      l := i;
    }
  }

  /** Refreshing only ever suppresses more: fed the same calls under one ascending clock,
      whatever the alert cache lets through the event cache accepts too. */
  lemma RefreshingSuppressesMore(alerts: seq<Call>, events: seq<Call>, n: nat, w: Time)
    requires AlertFaithful(alerts) && Faithful(events) && SameInputs(alerts, events)
    requires FixedWindow(events, w) && SkewAtMost(events, 0) && n < |events|
    ensures events[n].hit ==> alerts[n].hit
  {
    if events[n].hit {
      forall j | 0 <= j < |events|
        ensures alerts[j].key == events[j].key && alerts[j].now == events[j].now && alerts[j].window == w
      {
        assert alerts[j].(hit := false) == events[j].(hit := false);
      }
      var i :| 0 <= i < n && Remembers(events, i, n);
      var l := LastOf(events, i, n);
      assert LastOccurrence(alerts, l, n) by {
        forall j | l < j <= n ensures alerts[j].now - alerts[l].now <= alerts[j].window {
          assert events[i].now <= events[l].now || i == l;
        }
      }
    }
  }
}
