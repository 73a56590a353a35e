/** What an audit record hashes and what its copy through JSON keeps (internal/domain/audit/audit.go,
    internal/adapters/memstore/clone.go). */
module AuditPayload {
  import opened AuditChain

  /** A Go map: nil, or made and perhaps empty. The two of a record are hashed as they are, and stored
      only if they are not empty. */
  datatype Attributes<V> = Nil | Made(entries: map<string, V>)

  /** The Before and After maps of a record, and its other hashed fields, whose JSON reads back as it
      was written. */
  datatype Payload<V> = Payload(fields: string, before: Attributes<V>, after: Attributes<V>)

  /** A JSON value up to the order of its keys, which encoding/json sorts. */
  datatype Json = Null | Object(words: map<string, string>)

  datatype Text = Text(fields: string, before: Json, after: Json)

  /** What the hash sees of a map; word is how a value is spelled. */
  function Spelled<V>(a: Attributes<V>, word: V -> string): Json {
    match a
    case Nil => Null
    case Made(entries) => Object(map k | k in entries :: word(entries[k]))
  }

  function TextOf<V>(word: V -> string): Payload<V> -> Text {
    (p: Payload<V>) => Text(p.fields, Spelled(p.before, word), Spelled(p.after, word))
  }

  /** A map written with omitempty and read back: an empty one is left out, so it comes back nil; the
      values of another come back as reread makes them, an integer as a float, a struct as a map. */
  function Reread<V>(a: Attributes<V>, reread: V -> V): Attributes<V> {
    match a
    case Nil => Nil
    case Made(entries) => if entries == map[] then Nil else Made(map k | k in entries :: reread(entries[k]))
  }

  function CopyOf<V>(reread: V -> V): Payload<V> -> Payload<V> {
    (p: Payload<V>) => Payload(p.fields, Reread(p.before, reread), Reread(p.after, reread))
  }

  predicate Empty<V>(a: Attributes<V>) { a.Made? && a.entries.Keys == {} }

  /** Each value is spelled as it was once it has been read back. */
  ghost predicate WordsKept<V>(a: Attributes<V>, word: V -> string, reread: V -> V) {
    a.Made? ==> forall k | k in a.entries :: word(reread(a.entries[k])) == word(a.entries[k])
  }

  lemma SpelledAlikeIff<V>(a: Attributes<V>, word: V -> string, reread: V -> V)
    ensures Spelled(Reread(a, reread), word) == Spelled(a, word) <==> !Empty(a) && WordsKept(a, word, reread)
  {
    if a.Made? && a.entries != map[] {
      var words, again := Spelled(a, word).words, Spelled(Reread(a, reread), word).words;
      assert forall k | k in a.entries :: words[k] == word(a.entries[k]) && again[k] == word(reread(a.entries[k]));
      assert words.Keys == again.Keys == a.entries.Keys;
    }
  }

  /** A log that only Append has touched verifies if and only if no map sealed into it was made and left
      empty, and every value in one is spelled the same after it has been read back. */
  lemma LogIntactIff<V(!new), N(!new)>(h: Hash<Payload<V>>, word: V -> string, reread: V -> V,
          rs: seq<Record<Payload<V>, N>>, head: Head, sealed: seq<Payload<V>>)
    requires Digest(h, TextOf(word)) && Kept(h, CopyOf(reread), rs, head, sealed)
    ensures Linked(h, rs) <==> forall p | p in sealed ::
      && !Empty(p.before) && WordsKept(p.before, word, reread)
      && !Empty(p.after) && WordsKept(p.after, word, reread)
  {
    StoredLogIntactIff(h, TextOf(word), CopyOf(reread), rs, head, sealed);
    forall p | p in sealed
      ensures TextOf(word)(CopyOf(reread)(p)) == TextOf(word)(p) <==>
        && !Empty(p.before) && WordsKept(p.before, word, reread)
        && !Empty(p.after) && WordsKept(p.after, word, reread)
    {
      SpelledAlikeIff(p.before, word, reread);
      SpelledAlikeIff(p.after, word, reread);
    }
  }

  /** So with values that keep their spelling, numbers and strings for one, it is the empty maps alone
      that tell. */
  lemma EmptyMapsTell<V(!new), N(!new)>(h: Hash<Payload<V>>, word: V -> string, reread: V -> V,
          rs: seq<Record<Payload<V>, N>>, head: Head, sealed: seq<Payload<V>>)
    requires Digest(h, TextOf(word)) && Kept(h, CopyOf(reread), rs, head, sealed)
    requires forall v :: word(reread(v)) == word(v)
    ensures Linked(h, rs) <==> forall p | p in sealed :: !Empty(p.before) && !Empty(p.after)
  {
    LogIntactIff(h, word, reread, rs, head, sealed);
  }

  /** An empty map sealed into record i is reported, as altered content, there or before. */
  lemma EmptyMapReported<V(!new), N(!new)>(h: Hash<Payload<V>>, word: V -> string, reread: V -> V,
          rs: seq<Record<Payload<V>, N>>, head: Head, sealed: seq<Payload<V>>,
          window: Record<Payload<V>, N> -> bool, v: Report, i: nat)
    requires Digest(h, TextOf(word)) && Kept(h, CopyOf(reread), rs, head, sealed) && Reports(h, rs, window, v)
    requires i < |sealed| && (Empty(sealed[i].before) || Empty(sealed[i].after))
    ensures v.BrokenContent? && 1 <= v.sequence <= i + 1
  {
    StoredLogReport(h, TextOf(word), CopyOf(reread), rs, head, sealed, window, v);
    LogIntactIff(h, word, reread, rs, head, sealed);
    ReportIntactIff(h, rs, window, v);
    SpelledAlikeIff(sealed[i].before, word, reread);
    SpelledAlikeIff(sealed[i].after, word, reread);
    assert sealed[i] in sealed;
  }

  /** A step that answers with an empty map, recorded as the After of a tenant's first record: the log
      is reported as altered at that record, though nobody has touched it. */
  method EmptyAfter<V(!new), N(!new)>(h: Hash<Payload<V>>, word: V -> string, reread: V -> V, fields: string, notes: N)
    returns (v: Report)
    requires Digest(h, TextOf(word))
    ensures v.BrokenContent? && v.sequence == 1
  {
    var log := new AuditLog<Payload<V>, N>(h, CopyOf(reread));
    var r := log.Append("t", true, Payload(fields, Nil, Made(map[])), notes);
    var rs := log.records["t"];
    v := Walk(h, rs, _ => true);
    EmptyMapReported(h, word, reread, rs, log.heads["t"], log.sealed["t"], _ => true, v, 0);
  }
}
