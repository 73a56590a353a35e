/** Resolving a worker list (SelectWorkers in internal/app/workers.go). The list is names between commas,
    trimmed, blank ones dropped; a blank list, or the name "all" alone, stands for every worker. The answer
    is the workers in the order they are asked for, or the first name that is none, or that no name is
    left. */
module Selection {

  const ALL_WORKERS := ["discovery", "cost", "optimization", "automation", "validation", "notification", "learning"]

  datatype Selected<W> = Workers(workers: seq<W>) | Unknown(name: string) | NoneSelected

  /** unicode.IsSpace. */
  predicate IsSpace(c: char) {
    || '\t' <= c <= '\r' || c == ' ' || c == '\U{85}' || c == '\U{A0}' || c == '\U{1680}'
    || '\U{2000}' <= c <= '\U{200A}' || c == '\U{2028}' || c == '\U{2029}' || c == '\U{202F}'
    || c == '\U{205F}' || c == '\U{3000}'
  }

  /** By code point: the five controls from tab to carriage return, the space, and Unicode's others. */
  lemma SpaceIs(c: char)
    ensures IsSpace(c) <==>
      || 9 <= c as int <= 13 || 0x2000 <= c as int <= 0x200A
      || c as int in {32, 0x85, 0xA0, 0x1680, 0x2028, 0x2029, 0x202F, 0x205F, 0x3000}
  {
  }

  function TrimLeft(s: string): string {
    if s != "" && IsSpace(s[0]) then TrimLeft(s[1..]) else s
  }

  function TrimRight(s: string): string {
    if s != "" && IsSpace(s[|s|-1]) then TrimRight(s[..|s|-1]) else s
  }

  function TrimSpace(s: string): string { TrimRight(TrimLeft(s)) }

  /** strings.Split on a comma: one piece more than there are commas. */
  function Split(s: string): (pieces: seq<string>)
    ensures pieces != []
  {
    if s == "" then [""]
    else if s[0] == ',' then [""] + Split(s[1..])
    else
      var rest := Split(s[1..]);
      [[s[0]] + rest[0]] + rest[1..]
  }

  /** The pieces that are not blank, trimmed. */
  function Names(pieces: seq<string>): seq<string> {
    if pieces == [] then []
    else if TrimSpace(pieces[0]) == "" then Names(pieces[1..])
    else [TrimSpace(pieces[0])] + Names(pieces[1..])
  }

  function Requested(names: string): seq<string> {
    var trimmed := TrimSpace(names);
    if trimmed != "" && trimmed != "all" then Names(Split(trimmed)) else ALL_WORKERS
  }

  lemma NamesStep(pieces: seq<string>, j: nat)
    requires j < |pieces|
    ensures Names(pieces[j..]) ==
      if TrimSpace(pieces[j]) == "" then Names(pieces[j+1..]) else [TrimSpace(pieces[j])] + Names(pieces[j+1..])
  {
    assert pieces[j..][1..] == pieces[j+1..];
  }

  method RequestedNames(names: string) returns (requested: seq<string>)
    ensures requested == Requested(names)
  {
    requested := ALL_WORKERS;
    var trimmed := TrimSpace(names);
    if trimmed != "" && trimmed != "all" {
      requested := [];
      var pieces := Split(trimmed);
      for j := 0 to |pieces|
        invariant Names(pieces) == requested + Names(pieces[j..])
      {
        NamesStep(pieces, j);
        var n := TrimSpace(pieces[j]);
        if n == "" {
          continue;
        }
        requested := requested + [n];
      }
    }
  }

  ghost predicate FirstUnknown<W>(requested: seq<string>, known: map<string, W>, name: string, i: int) {
    0 <= i < |requested| && name == requested[i] && name !in known && forall j | 0 <= j < i :: requested[j] in known
  }

  /** The workers of the requested names in order; or the first name that is none. */
  ghost predicate Resolves<W>(requested: seq<string>, known: map<string, W>, r: Selected<W>) {
    match r
    case Workers(ws) =>
      |ws| == |requested| > 0 && forall i | 0 <= i < |ws| :: requested[i] in known && ws[i] == known[requested[i]]
    case Unknown(name) => exists i :: FirstUnknown(requested, known, name, i)
    case NoneSelected => requested == []
  }

  method SelectWorkers<W>(names: string, known: map<string, W>) returns (r: Selected<W>)
    ensures Resolves(Requested(names), known, r)
    ensures r.Workers? ==> |r.workers| == |Requested(names)| && forall i | 0 <= i < |r.workers| ::
      Requested(names)[i] in known && r.workers[i] == known[Requested(names)[i]]
  {
    var requested := RequestedNames(names);
    var out := [];
    for i := 0 to |requested|
      invariant |out| == i && forall j | 0 <= j < i :: requested[j] in known && out[j] == known[requested[j]]
    {
      if requested[i] !in known {
        assert FirstUnknown(requested, known, requested[i], i);
        return Unknown(requested[i]);
      }
      out := out + [known[requested[i]]];
    }
    if |out| == 0 {
      return NoneSelected;
    }
    return Workers(out);
  }

  /** Selection fails exactly when a name is unknown or none remains, and it has one result. */
  lemma SelectsIff<W>(requested: seq<string>, known: map<string, W>, r: Selected<W>, q: Selected<W>)
    requires Resolves(requested, known, r) && Resolves(requested, known, q)
    ensures r.Workers? <==> requested != [] && forall n | n in requested :: n in known
    ensures r == q
  {
    if r.Unknown? && q.Unknown? {
      var i :| FirstUnknown(requested, known, r.name, i);
      var k :| FirstUnknown(requested, known, q.name, k);
      assert i == k;
    }
  }

  // ---- joining and selecting --------------------------------------------------------------

  function Join(names: seq<string>): string {
    if names == [] then ""
    else if |names| == 1 then names[0]
    else names[0] + "," + Join(names[1..])
  }

  /** A name a list can carry: not blank, no comma, no space at either end. */
  predicate Listable(n: string) {
    n != "" && ',' !in n && !IsSpace(n[0]) && !IsSpace(n[|n|-1])
  }

  lemma SplitPlain(n: string, rest: string)
    requires ',' !in n
    ensures Split(n) == [n]
    ensures Split(n + "," + rest) == [n] + Split(rest)
  {
    if n == "" {
      assert n + "," + rest == "," + rest && ("," + rest)[1..] == rest;
    } else {
      SplitPlain(n[1..], rest);
      var s := n + "," + rest;
      assert s[0] == n[0] && s[1..] == n[1..] + "," + rest;
      assert [n[0]] + n[1..] == n;
    }
  }

  lemma {:induction false} SplitJoin(names: seq<string>)
    requires names != [] && forall n | n in names :: Listable(n)
    ensures Split(Join(names)) == names
    ensures Join(names) != "" && !IsSpace(Join(names)[0]) && !IsSpace(Join(names)[|Join(names)|-1])
  {
    assert Listable(names[0]) by { assert names[0] in names; }
    SplitPlain(names[0], Join(names[1..]));
    if |names| > 1 {
      SplitJoin(names[1..]);
      var s := Join(names);
      assert s[|s|-1] == Join(names[1..])[|Join(names[1..])|-1];
      assert s[0] == names[0][0];
    }
  }

  lemma {:induction false} NamesOfListable(names: seq<string>)
    requires forall n | n in names :: Listable(n)
    ensures Names(names) == names
  {
    if names != [] {
      assert Listable(names[0]) by { assert names[0] in names; }
      assert TrimSpace(names[0]) == names[0];
      NamesOfListable(names[1..]);
    }
  }

  /** Joining worker names with commas requests exactly those, in order and with any repeats, except
      that the one name "all" requests every worker. */
  lemma JoinRequests(names: seq<string>)
    requires names != [] && forall n | n in names :: Listable(n)
    ensures Requested(Join(names)) ==
      if names == ["all"]
      then ["discovery", "cost", "optimization", "automation", "validation", "notification", "learning"]
      else names
  {
    SplitJoin(names);
    NamesOfListable(names);
    if Join(names) == "all" {
      SplitPlain("all", "");
      assert names == ["all"];
    }
  }

  predicate Blank(s: string) {
    forall c | c in s :: IsSpace(c)
  }

  lemma TrimBothEnds(s: string)
    ensures TrimSpace(s) == "" <==> Blank(s)
    ensures TrimSpace(s) != "" ==> !IsSpace(TrimSpace(s)[0]) && !IsSpace(TrimSpace(s)[|TrimSpace(s)|-1])
  {
    TrimLeftRest(s);
    TrimRightRest(TrimLeft(s));
  }

  lemma {:induction false} TrimLeftRest(s: string)
    ensures TrimLeft(s) != "" ==> !IsSpace(TrimLeft(s)[0])
    ensures Blank(TrimLeft(s)) <==> Blank(s)
    ensures forall c | c in s && !IsSpace(c) :: c in TrimLeft(s)
  {
    if s != "" && IsSpace(s[0]) {
      TrimLeftRest(s[1..]);
      assert s == [s[0]] + s[1..];
    }
  }

  lemma {:induction false} TrimRightRest(s: string)
    ensures TrimRight(s) != "" ==> TrimRight(s)[0] == s[0] && !IsSpace(TrimRight(s)[|TrimRight(s)|-1])
    ensures TrimRight(s) == "" <==> Blank(s)
    ensures forall c | c in s && !IsSpace(c) :: c in TrimRight(s)
    ensures forall c | c in TrimRight(s) :: c in s
  {
    if s != "" && IsSpace(s[|s|-1]) {
      TrimRightRest(s[..|s|-1]);
      assert s == s[..|s|-1] + [s[|s|-1]];
    }
  }

  /** Nothing but commas and space. */
  predicate OnlyCommas(s: string) {
    forall c | c in s :: c == ',' || IsSpace(c)
  }

  predicate AllBlank(pieces: seq<string>) {
    pieces == [] || (Blank(pieces[0]) && AllBlank(pieces[1..]))
  }

  lemma {:induction false} NamesEmptyIff(pieces: seq<string>)
    ensures Names(pieces) == [] <==> AllBlank(pieces)
  {
    if pieces != [] {
      TrimBothEnds(pieces[0]);
      NamesEmptyIff(pieces[1..]);
    }
  }

  lemma {:induction false} SplitBlankIff(s: string)
    ensures AllBlank(Split(s)) <==> OnlyCommas(s)
  {
    if s != "" {
      SplitBlankIff(s[1..]);
      assert s == [s[0]] + s[1..];
      var rest := Split(s[1..]);
      if s[0] == ',' {
        assert Split(s)[1..] == rest;
      } else {
        assert Split(s)[1..] == rest[1..];
        assert Blank([s[0]] + rest[0]) <==> IsSpace(s[0]) && Blank(rest[0]);
      }
    }
  }

  lemma OnlyCommasTrim(s: string)
    ensures OnlyCommas(TrimSpace(s)) <==> OnlyCommas(s)
  {
    TrimLeftRest(s);
    TrimLeftSubset(s);
    TrimRightRest(TrimLeft(s));
    if OnlyCommas(TrimSpace(s)) {
      forall c | c in s && !IsSpace(c) ensures c == ',' {
        assert c in TrimSpace(s);
      }
    }
  }

  lemma {:induction false} TrimLeftSubset(s: string)
    ensures forall c | c in TrimLeft(s) :: c in s
  {
    if s != "" && IsSpace(s[0]) { TrimLeftSubset(s[1..]); }
  }

  /** "No workers selected" is the answer for a list of commas and space with a comma in it, and for
      nothing else: a blank list selects every worker. */
  lemma NoneSelectedIff(names: string)
    ensures Requested(names) == [] <==> OnlyCommas(names) && !Blank(names)
  {
    var trimmed := TrimSpace(names);
    TrimBothEnds(names);
    if trimmed == "all" {
      assert trimmed[0] == 'a' && !OnlyCommas(trimmed);
    }
    OnlyCommasTrim(names);
    NamesEmptyIff(Split(trimmed));
    SplitBlankIff(trimmed);
  }

  /** A blank list selects every worker. */
  lemma BlankRequestsAll(names: string)
    requires Blank(names)
    ensures Requested(names) ==
      ["discovery", "cost", "optimization", "automation", "validation", "notification", "learning"]
  {
    TrimBothEnds(names);
  }

  lemma {:induction false} SplitNoCommas(s: string)
    ensures forall piece | piece in Split(s) :: ',' !in piece
  {
    if s != "" {
      SplitNoCommas(s[1..]);
      var rest := Split(s[1..]);
      if s[0] != ',' {
        forall piece | piece in Split(s)
          ensures ',' !in piece
        {
          if piece !in rest { assert piece == [s[0]] + rest[0] && rest[0] in rest; }
        }
      }
    }
  }

  lemma {:induction false} NamesListable(pieces: seq<string>)
    requires forall piece | piece in pieces :: ',' !in piece
    ensures forall n | n in Names(pieces) :: Listable(n)
  {
    if pieces != [] {
      NamesListable(pieces[1..]);
      TrimBothEnds(pieces[0]);
      TrimLeftSubset(pieces[0]);
      TrimRightRest(TrimLeft(pieces[0]));
      assert pieces[0] in pieces;
    }
  }

  /** What a list requests are names proper, however it was spaced. */
  lemma RequestsListable(names: string)
    ensures forall n | n in Requested(names) :: Listable(n)
  {
    SplitNoCommas(TrimSpace(names));
    NamesListable(Split(TrimSpace(names)));
  }

  /** Joined again they request themselves, unless the one name is "all". */
  lemma RequestsSettle(names: string, requested: seq<string>)
    requires requested == Requested(names) && requested != [] && requested != ["all"]
    ensures Requested(Join(requested)) == requested
  {
    RequestsListable(names);
    JoinRequests(requested);
  }
}
