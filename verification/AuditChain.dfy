/** The hash-chained audit log (internal/domain/audit/audit.go, internal/adapters/memstore/audit.go). */
module AuditChain {
  import opened Order

  /** content is what the hash covers besides sequence and prev; notes are the fields it does not. */
  datatype Record<C, N> = Record(sequence: int, content: C, notes: N, prev: string, hash: string)

  /** SHA-256 in hex over the serialised payload. */
  type Hash<!C> = (int, C, string) -> string

  /** What a digest is trusted to be: never empty, and the same just for payloads of one text. text is
      what serialising makes of a content; different contents may serialise alike. */
  ghost predicate Digest<C(!new), T(!new)>(h: Hash<C>, text: C -> T) {
    && (forall s, c, p :: h(s, c, p) != "")
    && (forall s, c, p, t, d, q :: h(s, c, p) == h(t, d, q) <==> s == t && text(c) == text(d) && p == q)
  }

  predicate Sealed<C, N>(h: Hash<C>, r: Record<C, N>) {
    r.hash == h(r.sequence, r.content, r.prev)
  }

  function LastHash<C, N>(rs: seq<Record<C, N>>): string {
    if rs == [] then "" else rs[|rs|-1].hash
  }

  /** Every record is sealed, and onto the one before it. */
  predicate Linked<C, N>(h: Hash<C>, rs: seq<Record<C, N>>) {
    rs == [] ||
    (Linked(h, rs[..|rs|-1]) && rs[|rs|-1].prev == LastHash(rs[..|rs|-1]) && Sealed(h, rs[|rs|-1]))
  }

  // ---- the store -------------------------------------------------------------------------

  datatype Head = Head(hash: string, sequence: int)

  datatype Appended<C, N> = Denied | Stored(record: Record<C, N>)

  class AuditLog<C(!new), N(!new)> {
    const hash: Hash<C>
    /** What a copy through JSON makes of a record's content; the store keeps the copy, sealed as the
        original. */
    const copied: C -> C
    var records: map<string, seq<Record<C, N>>>
    var heads: map<string, Head>
    ghost var sealed: map<string, seq<C>>

    constructor (hash: Hash<C>, copied: C -> C)
      ensures this.hash == hash && this.copied == copied && Valid() && records == map[] && sealed == map[]
    {
      this.hash, this.copied, records, heads, sealed := hash, copied, map[], map[], map[];
    }

    ghost predicate Valid()
      reads this
    {
      records.Keys == heads.Keys == sealed.Keys &&
      forall t | t in records :: Kept(hash, copied, records[t], heads[t], sealed[t])
    }

    /** Seals onto the tenant's head, keeps a copy and advances the head, in one step. */
    method Append(tenant: string, authorized: bool, content: C, notes: N) returns (r: Appended<C, N>)
      requires Valid()
      modifies this
      ensures Valid()
      ensures !authorized ==> r == Denied && records == old(records) && sealed == old(sealed)
      ensures authorized ==>
        var log := if tenant in old(records) then old(records)[tenant] else [];
        var was := if tenant in old(sealed) then old(sealed)[tenant] else [];
        && r.Stored? && r.record.content == copied(content) && r.record.notes == notes
        && r.record.sequence == |log| + 1 && r.record.prev == (if log == [] then "" else log[|log|-1].hash)
        && r.record.hash == hash(|log| + 1, content, r.record.prev)
        && records == old(records)[tenant := log + [r.record]] && sealed == old(sealed)[tenant := was + [content]]
    {
      if !authorized {
        return Denied;
      }
      var head := if tenant in heads then heads[tenant] else Head("", 0);
      var log := if tenant in records then records[tenant] else [];
      ghost var was := if tenant in sealed then sealed[tenant] else [];
      var sequence := head.sequence + 1;
      var record := Record(sequence, copied(content), notes, head.hash, hash(sequence, content, head.hash));
      KeptOneMore(hash, copied, log, head, was, record, content);
      records := records[tenant := log + [record]];
      heads := heads[tenant := Head(record.hash, record.sequence)];
      sealed := sealed[tenant := was + [content]];
      return Stored(record);
    }
  }

  function HeadOf<C, N>(rs: seq<Record<C, N>>): Head {
    if rs == [] then Head("", 0) else Head(rs[|rs|-1].hash, rs[|rs|-1].sequence)
  }

  /** Sequence numbers 1, 2, 3 and so on. */
  predicate Numbered<C, N>(rs: seq<Record<C, N>>) {
    forall i | 0 <= i < |rs| :: rs[i].sequence == i + 1
  }

  lemma LinkOneMore<C(!new), N(!new)>(h: Hash<C>, rs: seq<Record<C, N>>, r: Record<C, N>)
    ensures Linked(h, rs + [r]) <==> Linked(h, rs) && r.prev == LastHash(rs) && Sealed(h, r)
  {
    assert (rs + [r])[..|rs|] == rs;
  }

  /** Record i continues from the hash of the one before, the first from nothing, and has the hash of its
      own sequence number, content and predecessor. */
  predicate Continues<C, N>(h: Hash<C>, rs: seq<Record<C, N>>, i: nat)
    requires i < |rs|
  {
    && rs[i].prev == (if i == 0 then "" else rs[i-1].hash)
    && rs[i].hash == h(rs[i].sequence, rs[i].content, rs[i].prev)
  }

  lemma {:induction false} LinkedIff<C(!new), N(!new)>(h: Hash<C>, rs: seq<Record<C, N>>)
    ensures Linked(h, rs) <==> forall i | 0 <= i < |rs| :: Continues(h, rs, i)
  {
    if rs != [] {
      var n := |rs| - 1;
      LinkedIff(h, rs[..n]);
      assert forall i | 0 <= i < n :: Continues(h, rs[..n], i) <==> Continues(h, rs, i);
      assert Continues(h, rs, n) <==> rs[n].prev == LastHash(rs[..n]) && Sealed(h, rs[n]);
    }
  }

  /** Record i holds the copy of what it sealed, c, and is sealed onto the record before it. */
  ghost predicate SealedAs<C, N>(h: Hash<C>, copied: C -> C, rs: seq<Record<C, N>>, i: nat, c: C)
    requires i < |rs|
  {
    && rs[i].content == copied(c) && rs[i].hash == h(rs[i].sequence, c, rs[i].prev)
    && rs[i].prev == LastHash(rs[..i])
  }

  /** What the store keeps of each tenant: a numbered log of what was sealed, and its head. */
  ghost predicate Kept<C, N>(h: Hash<C>, copied: C -> C, rs: seq<Record<C, N>>, head: Head, sealed: seq<C>) {
    && Numbered(rs) && head == HeadOf(rs) && |sealed| == |rs|
    && forall i | 0 <= i < |rs| :: SealedAs(h, copied, rs, i, sealed[i])
  }

  lemma KeptOneMore<C(!new), N(!new)>(h: Hash<C>, copied: C -> C, rs: seq<Record<C, N>>, head: Head, sealed: seq<C>,
          r: Record<C, N>, c: C)
    requires Kept(h, copied, rs, head, sealed) && r.sequence == head.sequence + 1 && r.prev == head.hash
    requires r.content == copied(c) && r.hash == h(r.sequence, c, r.prev)
    ensures Kept(h, copied, rs + [r], Head(r.hash, r.sequence), sealed + [c])
  {
    var more := rs + [r];
    forall i | 0 <= i < |more|
      ensures SealedAs(h, copied, more, i, (sealed + [c])[i])
    {
      assert more[..i] == rs[..i];
      if i < |rs| { assert SealedAs(h, copied, rs, i, sealed[i]); } else { assert rs[..i] == rs; }
    }
  }

  // ---- verification -------------------------------------------------------------------------

  datatype Report =
    | Intact(checked: nat)
    | BrokenLink(sequence: int, checked: nat)
    | BrokenContent(sequence: int, checked: nat)

  function InWindow<C, N>(rs: seq<Record<C, N>>, window: Record<C, N> -> bool): nat {
    if rs == [] then 0
    else if window(rs[|rs|-1]) then InWindow(rs[..|rs|-1], window) + 1
    else InWindow(rs[..|rs|-1], window)
  }

  function Places<C, N>(rs: seq<Record<C, N>>, window: Record<C, N> -> bool): set<nat> {
    set i: nat | i < |rs| && window(rs[i])
  }

  lemma PlacesOneMore<C(!new), N(!new)>(rs: seq<Record<C, N>>, r: Record<C, N>, window: Record<C, N> -> bool)
    ensures |Places(rs + [r], window)| == |Places(rs, window)| + if window(r) then 1 else 0
  {
    var few, all := Places(rs, window), Places(rs + [r], window);
    assert all == if window(r) then few + {|rs|} else few;
  }

  /** The records counted are those in the window. */
  lemma {:induction false} InWindowIs<C(!new), N(!new)>(rs: seq<Record<C, N>>, window: Record<C, N> -> bool)
    ensures InWindow(rs, window) == |Places(rs, window)|
  {
    if rs != [] {
      var rest, last := rs[..|rs|-1], rs[|rs|-1];
      InWindowIs(rest, window);
      PlacesOneMore(rest, last, window);
      assert rs == rest + [last];
    }
  }

  /** The report for a log: valid just when it is linked; otherwise about record i, the first that
      does not continue the records before it. */
  ghost predicate Reports<C, N>(h: Hash<C>, rs: seq<Record<C, N>>, window: Record<C, N> -> bool, v: Report) {
    match v
    case Intact(n) => Linked(h, rs) && n == InWindow(rs, window)
    case BrokenLink(s, n) =>
      exists i :: 0 <= i < |rs| && Linked(h, rs[..i]) && rs[i].prev != LastHash(rs[..i]) &&
        s == rs[i].sequence && n == InWindow(rs[..i+1], window)
    case BrokenContent(s, n) =>
      exists i :: 0 <= i < |rs| && Linked(h, rs[..i]) && rs[i].prev == LastHash(rs[..i]) && !Sealed(h, rs[i]) &&
        s == rs[i].sequence && n == InWindow(rs[..i+1], window)
  }

  method Walk<C(!new), N(!new)>(h: Hash<C>, rs: seq<Record<C, N>>, window: Record<C, N> -> bool) returns (v: Report)
    ensures Reports(h, rs, window, v)
  {
    var prev, checked := "", 0;
    for i := 0 to |rs|
      invariant Linked(h, rs[..i]) && prev == LastHash(rs[..i]) && checked == InWindow(rs[..i], window)
    {
      var r := rs[i];
      assert rs[..i+1] == rs[..i] + [r];
      LinkOneMore(h, rs[..i], r);
      CountOneMore(rs[..i], r, window);
      if window(r) {
        checked := checked + 1;
      }
      if r.prev != prev {
        return BrokenLink(r.sequence, checked);
      }
      if h(r.sequence, r.content, r.prev) != r.hash {
        return BrokenContent(r.sequence, checked);
      }
      prev := r.hash;
    }
    assert rs[..|rs|] == rs;
    return Intact(checked);
  }

  lemma CountOneMore<C, N>(rs: seq<Record<C, N>>, r: Record<C, N>, window: Record<C, N> -> bool)
    ensures InWindow(rs + [r], window) == if window(r) then InWindow(rs, window) + 1 else InWindow(rs, window)
  {
    assert (rs + [r])[..|rs|] == rs;
  }

  predicate Earlier<C, N>(a: Record<C, N>, b: Record<C, N>) { a.sequence < b.sequence }

  /** VerifyChain sorts what it is given by sequence number first. */
  method VerifyChain<C(!new), N(!new)>(h: Hash<C>, rs: seq<Record<C, N>>) returns (v: Report, sorted: seq<Record<C, N>>)
    ensures multiset(sorted) == multiset(rs) && Sorted(sorted, Earlier)
    ensures Reports(h, sorted, _ => true, v)
  {
    sorted := SortSlice(rs, Earlier);
    v := Walk(h, sorted, _ => true);
  }

  /** Over a log that Append made, and whatever order its records come back in, both walks see the
      same records. */
  lemma SortRestores<C(!new), N(!new)>(rs: seq<Record<C, N>>, sorted: seq<Record<C, N>>)
    requires Numbered(rs) && multiset(sorted) == multiset(rs) && Sorted(sorted, Earlier)
    ensures sorted == rs
  {
    forall a, b | a in rs && b in rs && Same(a, b, Earlier)
      ensures a == b
    {
      var i :| 0 <= i < |rs| && rs[i] == a;
      var j :| 0 <= j < |rs| && rs[j] == b;
    }
    SortUnique(rs, sorted, Earlier);
  }

  /** One report per log. */
  lemma {:induction false} LinkedPrefix<C(!new), N(!new)>(h: Hash<C>, rs: seq<Record<C, N>>, i: nat)
    requires Linked(h, rs) && i <= |rs|
    ensures Linked(h, rs[..i])
    ensures i < |rs| ==> rs[i].prev == LastHash(rs[..i]) && Sealed(h, rs[i])
  {
    if i < |rs| {
      var rest := rs[..|rs|-1];
      if i < |rest| {
        LinkedPrefix(h, rest, i);
        assert rest[..i] == rs[..i];
      }
    } else {
      assert rs[..i] == rs;
    }
  }

  lemma ReportIntactIff<C(!new), N(!new)>(h: Hash<C>, rs: seq<Record<C, N>>,
          window: Record<C, N> -> bool, v: Report)
    requires Reports(h, rs, window, v)
    ensures v.Intact? <==> Linked(h, rs)
  {
    if !v.Intact? && Linked(h, rs) {
      forall i | 0 <= i < |rs|
        ensures rs[i].prev == LastHash(rs[..i]) && Sealed(h, rs[i])
      {
        LinkedPrefix(h, rs, i);
      }
    }
  }

  /** Told by the records alone: the report is about the first that does not continue from the one before,
      its link before its content, and counts the records of the window up to and including that one. */
  lemma ReportIs<C(!new), N(!new)>(h: Hash<C>, rs: seq<Record<C, N>>, window: Record<C, N> -> bool, v: Report)
    returns (i: nat)
    requires Reports(h, rs, window, v)
    ensures i <= |rs| && forall j | 0 <= j < i :: Continues(h, rs, j)
    ensures i == |rs| ==> v == Intact(|Places(rs, window)|)
    ensures i < |rs| ==>
      var checked := |Places(rs[..i+1], window)|;
      && !Continues(h, rs, i)
      && v == if rs[i].prev != (if i == 0 then "" else rs[i-1].hash)
              then BrokenLink(rs[i].sequence, checked) else BrokenContent(rs[i].sequence, checked)
  {
    match v
    case Intact(_) =>
      i := |rs|;
      LinkedIff(h, rs);
      InWindowIs(rs, window);
    case BrokenLink(s, n) =>
      i :| 0 <= i < |rs| && Linked(h, rs[..i]) && rs[i].prev != LastHash(rs[..i]) && s == rs[i].sequence &&
        n == InWindow(rs[..i+1], window);
      BreaksAt(h, rs, window, i);
    case BrokenContent(s, n) =>
      i :| 0 <= i < |rs| && Linked(h, rs[..i]) && rs[i].prev == LastHash(rs[..i]) && !Sealed(h, rs[i]) &&
        s == rs[i].sequence && n == InWindow(rs[..i+1], window);
      BreaksAt(h, rs, window, i);
  }

  lemma BreaksAt<C(!new), N(!new)>(h: Hash<C>, rs: seq<Record<C, N>>, window: Record<C, N> -> bool, i: nat)
    requires i < |rs| && Linked(h, rs[..i])
    ensures forall j | 0 <= j < i :: Continues(h, rs, j)
    ensures Continues(h, rs, i) <==> rs[i].prev == LastHash(rs[..i]) && Sealed(h, rs[i])
    ensures LastHash(rs[..i]) == if i == 0 then "" else rs[i-1].hash
    ensures InWindow(rs[..i+1], window) == |Places(rs[..i+1], window)|
  {
    LinkedIff(h, rs[..i]);
    InWindowIs(rs[..i+1], window);
    assert forall j | 0 <= j < i :: Continues(h, rs[..i], j) <==> Continues(h, rs, j);
  }

  // ---- what the copy does to the chain -----------------------------------------------------

  lemma {:induction false} KeptLinkedIff<C(!new), N(!new), T(!new)>(h: Hash<C>, text: C -> T, copied: C -> C,
          rs: seq<Record<C, N>>, head: Head, sealed: seq<C>, n: nat)
    requires Digest(h, text) && Kept(h, copied, rs, head, sealed) && n <= |rs|
    ensures Linked(h, rs[..n]) <==> forall i | 0 <= i < n :: text(copied(sealed[i])) == text(sealed[i])
  {
    if n > 0 {
      KeptLinkedIff(h, text, copied, rs, head, sealed, n - 1);
      assert rs[..n] == rs[..n-1] + [rs[n-1]];
      LinkOneMore(h, rs[..n-1], rs[n-1]);
      assert SealedAs(h, copied, rs, n - 1, sealed[n-1]);
    }
  }

  /** A log that only Append has touched verifies if and only if the copy of every content sealed into
      it serialises as the original. */
  lemma StoredLogIntactIff<C(!new), N(!new), T(!new)>(h: Hash<C>, text: C -> T, copied: C -> C,
          rs: seq<Record<C, N>>, head: Head, sealed: seq<C>)
    requires Digest(h, text) && Kept(h, copied, rs, head, sealed)
    ensures Linked(h, rs) <==> forall c | c in sealed :: text(copied(c)) == text(c)
  {
    KeptLinkedIff(h, text, copied, rs, head, sealed, |rs|);
    assert rs[..|rs|] == rs;
  }

  /** When it does not, the report is of altered content, at the first record whose copy serialises
      differently: the links between records hold whatever is copied. */
  lemma StoredLogReport<C(!new), N(!new), T(!new)>(h: Hash<C>, text: C -> T, copied: C -> C,
          rs: seq<Record<C, N>>, head: Head, sealed: seq<C>, window: Record<C, N> -> bool, v: Report)
    requires Digest(h, text) && Kept(h, copied, rs, head, sealed) && Reports(h, rs, window, v)
    ensures !v.BrokenLink?
    ensures v.BrokenContent? ==>
      && 1 <= v.sequence <= |sealed| && text(copied(sealed[v.sequence-1])) != text(sealed[v.sequence-1])
      && forall i | 0 <= i < v.sequence - 1 :: text(copied(sealed[i])) == text(sealed[i])
  {
    forall i | 0 <= i < |rs|
      ensures rs[i].prev == LastHash(rs[..i])
    {
      assert SealedAs(h, copied, rs, i, sealed[i]);
    }
    if v.BrokenContent? {
      var i :| 0 <= i < |rs| && Linked(h, rs[..i]) && rs[i].prev == LastHash(rs[..i]) && !Sealed(h, rs[i]) &&
        v.sequence == rs[i].sequence && v.checked == InWindow(rs[..i+1], window);
      KeptLinkedIff(h, text, copied, rs, head, sealed, i);
      assert SealedAs(h, copied, rs, i, sealed[i]);
    }
  }

  // ---- what a valid chain pins down ----------------------------------------------------------

  /** Equal in all that is hashed, as it serialises. */
  predicate SameHashed<C, N, T(==)>(text: C -> T, a: Record<C, N>, b: Record<C, N>) {
    a.sequence == b.sequence && text(a.content) == text(b.content) && a.prev == b.prev && a.hash == b.hash
  }

  ghost predicate SameLog<C, N, T>(text: C -> T, a: seq<Record<C, N>>, b: seq<Record<C, N>>) {
    |a| == |b| && forall i | 0 <= i < |a| :: SameHashed(text, a[i], b[i])
  }

  /** The last hash of a valid chain determines the whole chain, its length and every hashed field:
      comparing it with the head kept beside the log settles every record. */
  lemma {:induction false} LastHashBinds<C(!new), N(!new), T(!new)>(h: Hash<C>, text: C -> T,
          a: seq<Record<C, N>>, b: seq<Record<C, N>>)
    requires Digest(h, text) && Linked(h, a) && Linked(h, b) && LastHash(a) == LastHash(b)
    ensures SameLog(text, a, b)
  {
    if a != [] && b != [] {
      var x, y := a[|a|-1], b[|b|-1];
      assert h(x.sequence, x.content, x.prev) == h(y.sequence, y.content, y.prev);
      LastHashBinds(h, text, a[..|a|-1], b[..|b|-1]);
      forall i | 0 <= i < |a|
        ensures SameHashed(text, a[i], b[i])
      {
        if i < |a| - 1 { assert SameHashed(text, a[..|a|-1][i], b[..|b|-1][i]); }
      }
    }
  }

  lemma LinkedAppend<C(!new), N(!new)>(h: Hash<C>, a: seq<Record<C, N>>, b: seq<Record<C, N>>)
    ensures Linked(h, a + b) ==> Linked(h, a)
    ensures b != [] && Linked(h, a + b) ==> b[0].prev == LastHash(a)
  {
    if b == [] {
      assert a + b == a;
    } else if Linked(h, a + b) {
      LinkedPrefix(h, a + b, |a|);
      assert (a + b)[..|a|] == a;
    }
  }

  /** Taking records b out of a valid chain leaves a valid chain exactly when nothing follows them:
      a gap is reported, and a log cut short needs its head to tell. */
  lemma RemovalReportedIff<C(!new), N(!new), T(!new)>(h: Hash<C>, text: C -> T,
          a: seq<Record<C, N>>, b: seq<Record<C, N>>, c: seq<Record<C, N>>)
    requires Digest(h, text) && Linked(h, a + b + c) && b != []
    ensures Linked(h, a + c) <==> c == []
    ensures LastHash(a + c) == LastHash(a + b + c) ==> !Linked(h, a + c)
  {
    LinkedAppend(h, a + b, c);
    LinkedAppend(h, a, b);
    LinkedAppend(h, a, c);
    if LastHash(a) == LastHash(a + b) {
      LastHashBinds(h, text, a, a + b);
    }
    if c == [] {
      assert a + c == a && a + b + c == a + b;
    }
  }

  /** Changing one record leaves a valid chain exactly when nothing hashed reads differently, or when the
      record is the last and the new one is sealed in its place. */
  lemma EditReportedIff<C(!new), N(!new), T(!new)>(h: Hash<C>, text: C -> T,
          a: seq<Record<C, N>>, r: Record<C, N>, c: seq<Record<C, N>>, s: Record<C, N>)
    requires Digest(h, text) && Linked(h, a + [r] + c)
    ensures Linked(h, a + [s] + c) <==>
      if c == [] then s.prev == LastHash(a) && Sealed(h, s) else SameHashed(text, r, s)
  {
    LinkedAppend(h, a + [r], c);
    LinkedAppend(h, a + [s], c);
    LinkOneMore(h, a, r);
    LinkOneMore(h, a, s);
    if c == [] {
      assert a + [s] + c == a + [s];
    } else if SameHashed(text, r, s) {
      SameHashLinks(h, text, a, r, c, s);
    } else if Linked(h, a + [s] + c) {
      LastHashBinds(h, text, a + [r], a + [s]);
    }
  }

  lemma {:induction false} SameHashLinks<C(!new), N(!new), T(!new)>(h: Hash<C>, text: C -> T,
          a: seq<Record<C, N>>, r: Record<C, N>, c: seq<Record<C, N>>, s: Record<C, N>)
    requires Digest(h, text) && Linked(h, a + [r] + c) && SameHashed(text, r, s)
    ensures Linked(h, a + [s] + c)
  {
    if c == [] {
      assert a + [r] + c == a + [r] && a + [s] + c == a + [s];
      LinkOneMore(h, a, r);
      LinkOneMore(h, a, s);
    } else {
      var rest, last := c[..|c|-1], c[|c|-1];
      assert c == rest + [last];
      LinkAfter(h, a + [r], rest, last);
      LinkAfter(h, a + [s], rest, last);
      SameHashLinks(h, text, a, r, rest, s);
      assert LastHash(a + [r] + rest) == LastHash(a + [s] + rest);
    }
  }

  lemma LinkAfter<C(!new), N(!new)>(h: Hash<C>, a: seq<Record<C, N>>, rest: seq<Record<C, N>>, last: Record<C, N>)
    ensures Linked(h, a + (rest + [last])) <==>
      Linked(h, a + rest) && last.prev == LastHash(a + rest) && Sealed(h, last)
  {
    assert a + (rest + [last]) == a + rest + [last];
    LinkOneMore(h, a + rest, last);
  }
}
