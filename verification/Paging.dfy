/** Keyset pagination (internal/adapters/memstore/clone.go), the loop that walks it
    (listAllOpen in internal/app/seed.go) and the ranking of what it gathers (topTen). */
module Paging {
  import opened Order
  import opened Wrappers

  /** Where an item stands in every list: newest first, then by id. */
  datatype Key = Key(created: int, id: string)

  predicate Before(a: Key, b: Key) {
    a.created > b.created || (a.created == b.created && LexLess(a.id, b.id))
  }

  lemma BeforeTotal(a: Key, b: Key)
    ensures !Before(a, a)
    ensures a == b || Before(a, b) || Before(b, a)
  {
    LexIrreflexive(a.id);
    LexTotal(a.id, b.id);
  }

  lemma BeforeTransitive(a: Key, b: Key, c: Key)
    requires Before(a, b) && Before(b, c)
    ensures Before(a, c)
  {
    if a.created == b.created == c.created { LexTransitive(a.id, b.id, c.id); }
  }

  datatype Item<T> = Item(key: Key, body: T)

  /** What a repository hands to Paginate: items in list order, no key twice. */
  ghost predicate Ordered<T>(s: seq<Item<T>>) {
    forall i, j {:trigger Before(s[i].key, s[j].key)} | 0 <= i < j < |s| :: Before(s[i].key, s[j].key)
  }

  lemma OrderedIff<T>(s: seq<Item<T>>)
    ensures Ordered(s) <==> forall i, j | 0 <= i < j < |s| ::
      s[i].key.created > s[j].key.created ||
      (s[i].key.created == s[j].key.created && LexLess(s[i].key.id, s[j].key.id))
  {
    if Ordered(s) {
      assert forall i, j | 0 <= i < j < |s| :: Before(s[i].key, s[j].key);
    }
  }

  // ---- one page ---------------------------------------------------------------

  datatype Page<T> = Page(items: seq<Item<T>>, next: Option<Key>, total: nat)

  function Normalize(limit: int): (r: nat)
    ensures 1 <= r <= 500
  {
    if limit <= 0 then 50 else if limit > 500 then 500 else limit
  }

  ghost predicate HasKey<T>(s: seq<Item<T>>, k: Key) {
    exists i :: 0 <= i < |s| && s[i].key == k
  }

  ghost predicate FirstAt<T>(s: seq<Item<T>>, k: Key, i: nat) {
    i < |s| && s[i].key == k && forall j | 0 <= j < i :: s[j].key != k
  }

  lemma {:induction false} FirstExists<T>(s: seq<Item<T>>, k: Key, i: nat)
    requires i < |s| && s[i].key == k
    ensures exists f: nat :: FirstAt(s, k, f)
  {
    if j: nat :| j < i && s[j].key == k {
      FirstExists(s, k, j);
    } else {
      assert FirstAt(s, k, i);
    }
  }

  /** The index after the first item with key k, or the end if there is none. */
  ghost function After<T>(s: seq<Item<T>>, k: Key): (r: nat)
    ensures r <= |s|
    ensures HasKey(s, k) ==> 0 < r && FirstAt(s, k, r - 1)
    ensures !HasKey(s, k) ==> r == |s|
  {
    if i: nat :| i < |s| && s[i].key == k then
      FirstExists(s, k, i);
      var f: nat :| FirstAt(s, k, f);
      f + 1
    else |s|
  }

  ghost function PageOf<T>(s: seq<Item<T>>, limit: nat, cursor: Option<Key>): Page<T>
    requires limit > 0
  {
    var from := if cursor.None? then 0 else After(s, cursor.value);
    var to := if from + limit > |s| then |s| else from + limit;
    Page(s[from..to], if from < to < |s| then Some(s[to-1].key) else None, |s|)
  }

  /** A page is at most 50 items long if no limit is asked for, and never longer than 500; it starts
      after the cursor's item, and has a next cursor, its last item's, just when items remain. */
  lemma PageIs<T>(s: seq<Item<T>>, limit: int, cursor: Option<Key>, page: Page<T>)
    requires page == PageOf(s, Normalize(limit), cursor)
    ensures var n, from := if limit <= 0 then 50 else if limit > 500 then 500 else limit,
                           if cursor.None? then 0 else After(s, cursor.value);
      && page.items == s[from..if from + n < |s| then from + n else |s|]
      && page.next == (if from + n < |s| then Some(s[from+n-1].key) else None)
      && page.total == |s|
  {
  }

  /** cursor is what the request's cursor decodes to: None for an empty or unreadable one. */
  method Paginate<T>(items: seq<Item<T>>, limit: int, cursor: Option<Key>) returns (page: Page<T>)
    ensures page == PageOf(items, Normalize(limit), cursor)
  {
    var n := Normalize(limit);
    var start := 0;
    if cursor.Some? {
      var found, i := false, 0;
      while i < |items| && !found
        invariant 0 <= i <= |items|
        invariant found ==> After(items, cursor.value) == start
        invariant !found ==> start == 0 && forall j | 0 <= j < i :: items[j].key != cursor.value
      {
        if items[i].key == cursor.value {
          start, found := i + 1, true;
        }
        i := i + 1;
      }
      if !found { start := |items|; }
    }
    var end := if start + n > |items| then |items| else start + n;
    var slice := if start < end then items[start..end] else [];
    var next := None;
    if end < |items| && |slice| > 0 { next := Some(slice[|slice|-1].key); }
    page := Page(slice, next, |items|);
  }

  // ---- all pages --------------------------------------------------------------

  /** What the store answers to one List request: its items at that moment, or an error. */
  datatype Reply<T> = Snapshot(items: seq<Item<T>>) | Unavailable

  datatype Ending = Finished | Errored | Unanswered
  datatype Walk<T> = Walk(out: seq<Item<T>>, ending: Ending)

  /** The pages a walk gathers when the store may change between requests. */
  ghost function Crawl<T>(replies: seq<Reply<T>>, limit: nat, cursor: Option<Key>): Walk<T>
    requires limit > 0
  {
    if replies == [] then Walk([], Unanswered)
    else if replies[0].Unavailable? then Walk([], Errored)
    else
      var page := PageOf(replies[0].items, limit, cursor);
      if page.next.None? || page.items == [] then Walk(page.items, Finished)
      else
        Then(page.items, Crawl(replies[1..], limit, page.next))
  }

  /** out gathered before a walk that goes on as w; an error discards it. */
  function Then<T>(out: seq<Item<T>>, w: Walk<T>): Walk<T> {
    if w.ending.Errored? then w else Walk(out + w.out, w.ending)
  }

  lemma CrawlStep<T>(replies: seq<Reply<T>>, limit: nat, cursor: Option<Key>, k: nat, out: seq<Item<T>>)
    requires limit > 0 && k < |replies|
    ensures replies[k].Unavailable? ==> Then(out, Crawl(replies[k..], limit, cursor)) == Walk([], Errored)
    ensures replies[k].Snapshot? ==>
      var page := PageOf(replies[k].items, limit, cursor);
      Then(out, Crawl(replies[k..], limit, cursor)) ==
        if page.next.None? || page.items == [] then Walk(out + page.items, Finished)
        else Then(out + page.items, Crawl(replies[k+1..], limit, page.next))
  {
    assert replies[k..][1..] == replies[k+1..];
    if replies[k].Snapshot? {
      var page := PageOf(replies[k].items, limit, cursor);
      var rest := Crawl(replies[k+1..], limit, page.next);
      assert out + (page.items + rest.out) == (out + page.items) + rest.out;
    }
  }

  method ListAllOpen<T>(replies: seq<Reply<T>>) returns (out: seq<Item<T>>, ending: Ending)
    ensures Walk(out, ending) == Crawl(replies, 500, None)
    ensures ending.Errored? ==> out == []
  {
    out := [];
    var cursor: Option<Key> := None;
    var k := 0;
    while k < |replies|
      invariant 0 <= k <= |replies|
      invariant Crawl(replies, 500, None) == Then(out, Crawl(replies[k..], 500, cursor))
    {
      CrawlStep(replies, 500, cursor, k, out);
      if replies[k].Unavailable? {
        return [], Errored;
      }
      var page := Paginate(replies[k].items, 500, cursor);
      out := out + page.items;
      if page.next.None? || |page.items| == 0 {
        return out, Finished;
      }
      cursor := page.next;
      k := k + 1;
    }
    return out, Unanswered;
  }

  lemma AfterIs<T>(s: seq<Item<T>>, i: nat)
    requires Ordered(s) && i < |s|
    ensures After(s, s[i].key) == i + 1
  {
    BeforeTotal(s[i].key, s[i].key);
  }

  lemma PageAt<T>(s: seq<Item<T>>, limit: nat, from: nat, cursor: Option<Key>)
    requires Ordered(s) && limit > 0 && StandsAt(s, from, cursor)
    ensures PageOf(s, limit, cursor) ==
      if from + limit < |s| then Page(s[from..from+limit], Some(s[from+limit-1].key), |s|)
      else Page(s[from..], None, |s|)
  {
    if from > 0 { AfterIs(s, from - 1); }
  }

  /** How many requests n items take. */
  function Requests(n: nat, limit: nat): nat
    requires limit > 0
  {
    if n <= limit then 1 else 1 + Requests(n - limit, limit)
  }

  /** cursor is where a walk stands that has read s[..from]. */
  ghost predicate StandsAt<T>(s: seq<Item<T>>, from: nat, cursor: Option<Key>) {
    from <= |s| && cursor == if from == 0 then None else Some(s[from-1].key)
  }

  /** A store that answers every request with the same items. */
  ghost predicate Still<T>(replies: seq<Reply<T>>, s: seq<Item<T>>) {
    forall k | 0 <= k < |replies| :: replies[k] == Snapshot(s)
  }

  lemma CrawlPage<T>(s: seq<Item<T>>, limit: nat, cursor: Option<Key>, replies: seq<Reply<T>>)
    requires limit > 0 && replies != [] && replies[0] == Snapshot(s)
    requires PageOf(s, limit, cursor).next.Some? && |PageOf(s, limit, cursor).items| > 0
    ensures var page := PageOf(s, limit, cursor);
      Crawl(replies, limit, cursor) == Then(page.items, Crawl(replies[1..], limit, page.next))
  {
  }

  lemma ThenRest<T>(s: seq<Item<T>>, i: nat, j: nat, w: Walk<T>)
    requires i <= j <= |s| && w == Walk(s[j..], Finished)
    ensures Then(s[i..j], w) == Walk(s[i..], Finished)
  {
    assert s[i..j] + s[j..] == s[i..];
  }

  lemma LastPage<T>(s: seq<Item<T>>, limit: nat, from: nat, cursor: Option<Key>, replies: seq<Reply<T>>)
    requires Ordered(s) && limit > 0 && StandsAt(s, from, cursor) && replies != [] && replies[0] == Snapshot(s)
    requires from + limit >= |s|
    ensures Crawl(replies, limit, cursor) == Walk(s[from..], Finished)
  {
    PageAt(s, limit, from, cursor);
  }

  lemma FullPage<T>(s: seq<Item<T>>, limit: nat, from: nat, cursor: Option<Key>,
          replies: seq<Reply<T>>)
    requires Ordered(s) && limit > 0 && StandsAt(s, from, cursor) && replies != [] && replies[0] == Snapshot(s)
    requires from + limit < |s|
    requires Crawl(replies[1..], limit, Some(s[from+limit-1].key)) == Walk(s[from+limit..], Finished)
    ensures Crawl(replies, limit, cursor) == Walk(s[from..], Finished)
  {
    PageAt(s, limit, from, cursor);
    assert |s[from..from+limit]| == limit;
    CrawlPage(s, limit, cursor, replies);
    ThenRest(s, from, from + limit, Crawl(replies[1..], limit, Some(s[from+limit-1].key)));
  }

  /** A store that holds still is read out exactly: every item once, in order, a page at a
      time, however many pages that takes. */
  lemma {:induction false} StillStore<T>(s: seq<Item<T>>, limit: nat, from: nat, cursor: Option<Key>,
          replies: seq<Reply<T>>)
    requires Ordered(s) && limit > 0 && StandsAt(s, from, cursor)
    requires Still(replies, s) && |replies| >= Requests(|s| - from, limit)
    ensures Crawl(replies, limit, cursor) == Walk(s[from..], Finished)
    decreases |replies|
  {
    if from + limit >= |s| {
      LastPage(s, limit, from, cursor, replies);
    } else {
      StillStore(s, limit, from + limit, Some(s[from+limit-1].key), replies[1..]);
      FullPage(s, limit, from, cursor, replies);
    }
  }

  // ---- a store that moves -------------------------------------------------------

  ghost predicate Snapshots<T>(replies: seq<Reply<T>>) {
    forall k | 0 <= k < |replies| :: replies[k].Snapshot? ==> Ordered(replies[k].items)
  }

  /** The cursor whose item was gone when the walk came back to it, if that is how it ended. */
  ghost function LostAnchor<T>(replies: seq<Reply<T>>, limit: nat, cursor: Option<Key>): Option<Key>
    requires limit > 0
  {
    if replies == [] || replies[0].Unavailable? then None
    else if cursor.Some? && !HasKey(replies[0].items, cursor.value) then cursor
    else
      var page := PageOf(replies[0].items, limit, cursor);
      if page.next.None? || page.items == [] then None
      else LostAnchor(replies[1..], limit, page.next)
  }

  /** Ahead of the walk: not yet read when it stands at cursor. */
  predicate Ahead(cursor: Option<Key>, k: Key) {
    cursor.None? || Before(cursor.value, k)
  }

  lemma PageBounds<T>(s: seq<Item<T>>, limit: nat, cursor: Option<Key>)
    requires Ordered(s) && limit > 0
    ensures var p := PageOf(s, limit, cursor);
      && Ordered(p.items)
      && (forall x | x in p.items :: x in s && Ahead(cursor, x.key))
      && (p.next.Some? && p.items != [] ==> p.next.value == p.items[|p.items|-1].key)
  {
    var from := if cursor.None? then 0 else After(s, cursor.value);
    var to := if from + limit > |s| then |s| else from + limit;
    SliceBounds(s, from, to);
    assert from < to ==> s[from..to][|s[from..to]|-1] == s[to-1];
  }

  lemma SliceBounds<T>(s: seq<Item<T>>, from: nat, to: nat)
    requires Ordered(s) && from <= to <= |s|
    ensures Ordered(s[from..to])
    ensures forall x | x in s[from..to] :: x in s && (from > 0 ==> Before(s[from-1].key, x.key))
    ensures from < to ==> s[from..to][to-from-1] == s[to-1]
  {
    var t := s[from..to];
    assert forall i | 0 <= i < |t| :: t[i] == s[from+i];
    forall i, j | 0 <= i < j < |t| ensures Before(t[i].key, t[j].key) {
      assert Before(s[from+i].key, s[from+j].key);
    }
  }

  lemma LastIsLatest<T>(s: seq<Item<T>>, x: Item<T>)
    requires Ordered(s) && x in s
    ensures x == s[|s|-1] || Before(x.key, s[|s|-1].key)
  {
    var i :| 0 <= i < |s| && s[i] == x;
  }

  lemma OrderedConcat<T>(a: seq<Item<T>>, b: seq<Item<T>>)
    requires Ordered(a) && Ordered(b)
    requires forall x, y | x in a && y in b :: Before(x.key, y.key)
    ensures Ordered(a + b)
  {
    var c := a + b;
    forall i, j | 0 <= i < j < |c|
      ensures Before(c[i].key, c[j].key)
    {
      if i < |a| <= j { assert c[i] in a && c[j] in b; }
    }
  }

  lemma PageThenRest<T>(page: seq<Item<T>>, rest: seq<Item<T>>)
    requires Ordered(page) && Ordered(rest) && page != []
    requires forall y | y in rest :: Before(page[|page|-1].key, y.key)
    ensures Ordered(page + rest)
  {
    forall x, y | x in page && y in rest
      ensures Before(x.key, y.key)
    {
      LastIsLatest(page, x);
      if x != page[|page|-1] { BeforeTransitive(x.key, page[|page|-1].key, y.key); }
    }
    OrderedConcat(page, rest);
  }

  lemma RestAhead<T>(cursor: Option<Key>, last: Key, rest: seq<Item<T>>)
    requires Ahead(cursor, last) && forall y | y in rest :: Before(last, y.key)
    ensures forall y | y in rest :: Ahead(cursor, y.key)
  {
    forall y | y in rest
      ensures Ahead(cursor, y.key)
    {
      if cursor.Some? { BeforeTransitive(cursor.value, last, y.key); }
    }
  }

  /** In list order, and all of it after the cursor. */
  ghost predicate Onward<T>(out: seq<Item<T>>, cursor: Option<Key>) {
    Ordered(out) && forall x | x in out :: Ahead(cursor, x.key)
  }

  lemma OnwardJoins<T>(page: seq<Item<T>>, rest: seq<Item<T>>, cursor: Option<Key>, next: Option<Key>)
    requires Onward(page, cursor) && page != [] && next == Some(page[|page|-1].key) && Onward(rest, next)
    ensures Onward(page + rest, cursor) && Onward(rest, cursor)
  {
    PageThenRest(page, rest);
    assert page[|page|-1] in page;
    RestAhead(cursor, page[|page|-1].key, rest);
  }

  lemma PageOnward<T>(s: seq<Item<T>>, limit: nat, cursor: Option<Key>)
    requires Ordered(s) && limit > 0
    ensures Onward(PageOf(s, limit, cursor).items, cursor)
  {
    PageBounds(s, limit, cursor);
  }

  lemma CrawlOut<T>(replies: seq<Reply<T>>, limit: nat, cursor: Option<Key>, page: Page<T>)
    requires limit > 0 && replies != [] && replies[0].Snapshot? && page == PageOf(replies[0].items, limit, cursor)
    ensures page.next.None? || page.items == [] ==> Crawl(replies, limit, cursor).out == page.items
    ensures page.next.Some? && page.items != [] ==>
      Crawl(replies, limit, cursor) == Then(page.items, Crawl(replies[1..], limit, page.next))
  {
  }

  /** Whatever is inserted or deleted between requests, a walk repeats nothing: what it returns
      is strictly in list order. */
  lemma {:induction false} NothingTwice<T>(replies: seq<Reply<T>>, limit: nat, cursor: Option<Key>)
    requires Snapshots(replies) && limit > 0
    ensures Onward(Crawl(replies, limit, cursor).out, cursor)
  {
    if replies != [] && replies[0].Snapshot? {
      var p := PageOf(replies[0].items, limit, cursor);
      PageBounds(replies[0].items, limit, cursor);
      PageOnward(replies[0].items, limit, cursor);
      CrawlOut(replies, limit, cursor, p);
      if p.next.Some? && p.items != [] {
        NothingTwice(replies[1..], limit, p.next);
        OnwardJoins(p.items, Crawl(replies[1..], limit, p.next).out, cursor, p.next);
      }
    }
  }

  lemma PageReads<T>(s: seq<Item<T>>, limit: nat, cursor: Option<Key>, x: Item<T>)
    requires Ordered(s) && limit > 0 && x in s && Ahead(cursor, x.key)
    requires cursor.Some? ==> HasKey(s, cursor.value)
    ensures var p := PageOf(s, limit, cursor);
      x !in p.items ==> p.next.Some? && p.items != [] && Before(p.next.value, x.key)
  {
    var i :| 0 <= i < |s| && s[i] == x;
    var from := if cursor.None? then 0 else After(s, cursor.value);
    BeforeTotal(x.key, x.key);
    assert i >= from by {
      if cursor.Some? && i < from {
        if i < from - 1 {
          BeforeTransitive(x.key, s[from-1].key, x.key);
        }
      }
    }
    var p := PageOf(s, limit, cursor);
    if i < from + limit { assert p.items[i - from] == x; }
  }

  /** What a finished walk misses. An item in the store at every request is returned exactly
      unless a deletion took the item the cursor stood on and the item lies beyond it. */
  lemma {:induction false} MissedIff<T>(replies: seq<Reply<T>>, limit: nat, cursor: Option<Key>, x: Item<T>)
    requires Snapshots(replies) && limit > 0
    requires Crawl(replies, limit, cursor).ending == Finished && Ahead(cursor, x.key)
    requires forall k | 0 <= k < |replies| && replies[k].Snapshot? :: x in replies[k].items
    ensures var lost := LostAnchor(replies, limit, cursor);
      x in Crawl(replies, limit, cursor).out <==> !(lost.Some? && Before(lost.value, x.key))
  {
    var s := replies[0].items;
    var p := PageOf(s, limit, cursor);
    if cursor.Some? && !HasKey(s, cursor.value) {
      assert p.items == [];
    } else {
      PageReads(s, limit, cursor, x);
      PageBounds(s, limit, cursor);
      if p.next.Some? && p.items != [] {
        if x in p.items {
          LastIsLatest(p.items, x);
          ReadNotLost(replies[1..], limit, p.next, x.key);
        } else {
          MissedIff(replies[1..], limit, p.next, x);
        }
      }
    }
  }

  /** A walk only moves on: the anchor it may lose is never behind what it has read. */
  lemma {:induction false} ReadNotLost<T>(replies: seq<Reply<T>>, limit: nat, cursor: Option<Key>, k: Key)
    requires Snapshots(replies) && limit > 0
    requires cursor.Some? && (k == cursor.value || Before(k, cursor.value))
    ensures var lost := LostAnchor(replies, limit, cursor); lost.Some? ==> !Before(lost.value, k)
  {
    BeforeTotal(k, k);
    if Before(k, cursor.value) && Before(cursor.value, k) { BeforeTransitive(k, cursor.value, k); }
    if replies != [] && replies[0].Snapshot? && HasKey(replies[0].items, cursor.value) {
      var p := PageOf(replies[0].items, limit, cursor);
      PageBounds(replies[0].items, limit, cursor);
      if p.next.Some? && p.items != [] {
        var last := p.items[|p.items|-1];
        assert last in p.items;
        if k != cursor.value { BeforeTransitive(k, cursor.value, last.key); }
        ReadNotLost(replies[1..], limit, p.next, k);
      }
    }
  }

  // ---- ranking ------------------------------------------------------------------

  datatype Recommendation = Recommendation(id: string, priority: real, savingMicros: int)

  predicate Outranks(a: Recommendation, b: Recommendation) {
    if a.priority != b.priority then a.priority > b.priority
    else a.savingMicros > b.savingMicros
  }

  lemma OutranksOrders()
    ensures StrictWeak(Outranks)
  {
  }

  /** sort.SliceStable. */
  method SliceStable(a: array<Recommendation>)
    modifies a
    ensures multiset(a[..]) == multiset(old(a[..]))
    ensures Sorted(a[..], Outranks) && Stable(a[..], old(a[..]), Outranks)
  {
    OutranksOrders();
    StableSortSorts(a[..], Outranks);
    ghost var was := a[..];
    var sorted := StableSort(a[..], Outranks);
    assert |sorted| == |multiset(sorted)| == |multiset(was)| == a.Length;
    for i := 0 to a.Length
      invariant a[..i] == sorted[..i]
    {
      a[i] := sorted[i];
    }
    assert a[..] == sorted;
  }

  /** Together top and dropped are recs, ranked, ties in the order recs has them; top is the first
      ten. */
  ghost predicate SplitsAtTen(top: seq<Recommendation>, dropped: seq<Recommendation>, recs: seq<Recommendation>) {
    && |top| == (if |recs| > 10 then 10 else |recs|)
    && multiset(top + dropped) == multiset(recs)
    && Sorted(top + dropped, Outranks) && Stable(top + dropped, recs, Outranks)
  }

  /** Sorts a copy, so the caller's slice keeps its order. */
  method TopTen(recs: array<Recommendation>) returns (top: seq<Recommendation>, ghost dropped: seq<Recommendation>)
    ensures recs[..] == old(recs[..])
    ensures |top| == (if recs.Length > 10 then 10 else recs.Length) && multiset(top + dropped) == multiset(recs[..])
    ensures SplitsAtTen(top, dropped, recs[..])
  {
    var ranked := new Recommendation[recs.Length](i requires 0 <= i < recs.Length reads recs => recs[i]);
    assert ranked[..] == recs[..];
    SliceStable(ranked);
    ghost var was := recs[..];
    assert |ranked[..]| == |was|;
    var n := if ranked.Length > 10 then 10 else ranked.Length;
    top, dropped := ranked[..n], ranked[n..];
    assert top + dropped == ranked[..];
  }

  /** What such a top is: ranked, outranked by nothing left out, and the only one there is. */
  lemma TopTenBest(top: seq<Recommendation>, dropped: seq<Recommendation>, recs: seq<Recommendation>)
    requires SplitsAtTen(top, dropped, recs)
    ensures forall i, j | 0 <= i < j < |top| ::
      top[i].priority > top[j].priority ||
      (top[i].priority == top[j].priority && top[i].savingMicros >= top[j].savingMicros)
    ensures forall k, d | k in top && d in dropped ::
      k.priority > d.priority || (k.priority == d.priority && k.savingMicros >= d.savingMicros)
    ensures forall t, u | SplitsAtTen(t, u, recs) :: t == top && u == dropped
  {
    var ranked := top + dropped;
    assert top == ranked[..|top|];
    forall k, d | k in top && d in dropped
      ensures !Outranks(d, k)
    {
      var i :| 0 <= i < |top| && top[i] == k;
      var j :| 0 <= j < |dropped| && dropped[j] == d;
      assert ranked[i] == k && ranked[|top| + j] == d;
    }
    forall t, u | SplitsAtTen(t, u, recs)
      ensures t == top && u == dropped
    {
      OneSplit(top, dropped, t, u, recs);
    }
  }

  lemma OneSplit(a: seq<Recommendation>, b: seq<Recommendation>, c: seq<Recommendation>, d: seq<Recommendation>,
          recs: seq<Recommendation>)
    requires SplitsAtTen(a, b, recs) && SplitsAtTen(c, d, recs)
    ensures a == c && b == d
  {
    OutranksOrders();
    StableSortUnique(a + b, c + d, Outranks);
    assert a == (a + b)[..|a|] && c == (c + d)[..|c|];
    assert b == (a + b)[|a|..] && d == (c + d)[|c|..];
  }
}
