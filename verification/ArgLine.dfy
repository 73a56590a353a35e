/** The shape of SplitArgs (internal/app/flags.go), apart from how a flag is spelled: kind says
    what each argument is to the flag set, spell how an own flag is written out. Arguments are of any type,
    so what is proved here rests on the order in which they are dealt and on nothing a string holds; what
    the spelling adds to it is in Splitter. */
module ArgLine {

  datatype Kind = Foreign   // not a flag of ours
                | Whole     // a flag of ours, complete in one argument
                | Pair      // a flag of ours that takes the next argument, if there is one

  datatype Split<T> = Split(own: seq<T>, rest: seq<T>)

  function Join<T>(a: Split<T>, b: Split<T>): Split<T> {
    Split(a.own + b.own, a.rest + b.rest)
  }

  /** The partition read one argument at a time: nothing foreign is ever looked behind. */
  function Partition<T>(kind: T -> Kind, spell: T -> T, args: seq<T>): Split<T> {
    if args == [] then Split([], [])
    else if kind(args[0]) == Foreign then
      Join(Split([], [args[0]]), Partition(kind, spell, args[1..]))
    else if kind(args[0]) == Pair && |args| > 1 then
      Join(Split([spell(args[0]), args[1]], []), Partition(kind, spell, args[2..]))
    else
      Join(Split([spell(args[0])], []), Partition(kind, spell, args[1..]))
  }

  // ---- reading with an index ------------------------------------------------

  /** own and rest are what the first i arguments come to. */
  ghost predicate Read<T>(kind: T -> Kind, spell: T -> T, args: seq<T>, i: nat, own: seq<T>, rest: seq<T>)
    requires i <= |args|
  {
    Partition(kind, spell, args) == Join(Split(own, rest), Partition(kind, spell, args[i..]))
  }

  lemma JoinAssoc<T>(a: Split<T>, b: Split<T>, c: Split<T>)
    ensures Join(Join(a, b), c) == Join(a, Join(b, c))
  {
    assert (a.own + b.own) + c.own == a.own + (b.own + c.own);
    assert (a.rest + b.rest) + c.rest == a.rest + (b.rest + c.rest);
  }

  lemma Advance<T>(kind: T -> Kind, spell: T -> T, args: seq<T>, i: nat, n: nat, done: Split<T>, d: Split<T>)
    requires i <= n <= |args| && Read(kind, spell, args, i, done.own, done.rest)
    requires Partition(kind, spell, args[i..]) == Join(d, Partition(kind, spell, args[n..]))
    ensures Read(kind, spell, args, n, done.own + d.own, done.rest + d.rest)
  {
    JoinAssoc(done, d, Partition(kind, spell, args[n..]));
  }

  lemma ReadForeign<T>(kind: T -> Kind, spell: T -> T, args: seq<T>, i: nat, own: seq<T>, rest: seq<T>)
    requires i < |args| && Read(kind, spell, args, i, own, rest) && kind(args[i]) == Foreign
    ensures Read(kind, spell, args, i + 1, own, rest + [args[i]])
  {
    assert args[i..][1..] == args[i+1..];
    Advance(kind, spell, args, i, i + 1, Split(own, rest), Split([], [args[i]]));
    assert own + [] == own;
  }

  lemma ReadPair<T>(kind: T -> Kind, spell: T -> T, args: seq<T>, i: nat, own: seq<T>, rest: seq<T>)
    requires i + 1 < |args| && Read(kind, spell, args, i, own, rest) && kind(args[i]) == Pair
    ensures Read(kind, spell, args, i + 2, own + [spell(args[i]), args[i+1]], rest)
  {
    assert args[i..][1] == args[i+1] && args[i..][2..] == args[i+2..];
    Advance(kind, spell, args, i, i + 2, Split(own, rest), Split([spell(args[i]), args[i+1]], []));
    assert rest + [] == rest;
  }

  lemma ReadOwn<T>(kind: T -> Kind, spell: T -> T, args: seq<T>, i: nat, own: seq<T>, rest: seq<T>)
    requires i < |args| && Read(kind, spell, args, i, own, rest)
    requires kind(args[i]) != Foreign && !(kind(args[i]) == Pair && i + 1 < |args|)
    ensures Read(kind, spell, args, i + 1, own + [spell(args[i])], rest)
  {
    assert args[i..][1..] == args[i+1..];
    Advance(kind, spell, args, i, i + 1, Split(own, rest), Split([spell(args[i])], []));
    assert rest + [] == rest;
  }

  // ---- fixpoints ------------------------------------------------------------

  /** The last own flag still waits for a value when the line ends. */
  predicate Dangling<T>(kind: T -> Kind, args: seq<T>) {
    if args == [] then false
    else if kind(args[0]) == Pair then |args| == 1 || Dangling(kind, args[2..])
    else Dangling(kind, args[1..])
  }

  /** Spelling an own flag out changes neither what it is nor, again, its spelling. */
  ghost predicate Settles<T(!new)>(kind: T -> Kind, spell: T -> T) {
    forall a | kind(a) != Foreign :: kind(spell(a)) == kind(a) && spell(spell(a)) == spell(a)
  }

  lemma First<T>(kind: T -> Kind, spell: T -> T, a: T, tail: seq<T>)
    requires kind(a) != Foreign && !(kind(a) == Pair && tail != [])
    ensures Partition(kind, spell, [a] + tail) == Join(Split([spell(a)], []), Partition(kind, spell, tail))
  {
    assert ([a] + tail)[1..] == tail;
  }

  lemma FirstPair<T>(kind: T -> Kind, spell: T -> T, a: T, v: T, tail: seq<T>)
    requires kind(a) == Pair
    ensures Partition(kind, spell, [a, v] + tail) == Join(Split([spell(a), v], []), Partition(kind, spell, tail))
  {
    assert ([a, v] + tail)[2..] == tail;
  }

  /** Own arguments put before any tail read as themselves, unless the last of them takes the
      tail's first argument. */
  ghost predicate Appends<T>(kind: T -> Kind, spell: T -> T, args: seq<T>, tail: seq<T>) {
    var own := Partition(kind, spell, args).own;
    Partition(kind, spell, own + tail) ==
      if Dangling(kind, args) && tail != [] then
        Join(Split(own + [tail[0]], []), Partition(kind, spell, tail[1..]))
      else Join(Split(own, []), Partition(kind, spell, tail))
  }

  lemma AppendsPair<T(!new)>(kind: T -> Kind, spell: T -> T, args: seq<T>, tail: seq<T>)
    requires Settles(kind, spell) && |args| > 1 && kind(args[0]) == Pair
    requires Appends(kind, spell, args[2..], tail)
    ensures Appends(kind, spell, args, tail)
  {
    var d := Split([spell(args[0]), args[1]], []);
    var own' := Partition(kind, spell, args[2..]).own;
    assert Partition(kind, spell, args).own + tail == d.own + (own' + tail) by {
      assert Partition(kind, spell, args).own == d.own + own';
    }
    FirstPair(kind, spell, spell(args[0]), args[1], own' + tail);
    if Dangling(kind, args) && tail != [] {
      JoinAssoc(d, Split(own' + [tail[0]], []), Partition(kind, spell, tail[1..]));
      assert d.own + (own' + [tail[0]]) == (d.own + own') + [tail[0]];
    } else {
      JoinAssoc(d, Split(own', []), Partition(kind, spell, tail));
    }
  }

  lemma AppendsOne<T(!new)>(kind: T -> Kind, spell: T -> T, args: seq<T>, tail: seq<T>)
    requires Settles(kind, spell) && args != [] && kind(args[0]) != Foreign
    requires !(kind(args[0]) == Pair && |args| > 1)
    requires Appends(kind, spell, args[1..], tail)
    ensures Appends(kind, spell, args, tail)
  {
    var c := spell(args[0]);
    var d := Split([c], []);
    var own' := Partition(kind, spell, args[1..]).own;
    assert Partition(kind, spell, args).own == d.own + own';
    assert Partition(kind, spell, args).own + tail == d.own + (own' + tail);
    if kind(c) == Pair && tail != [] {
      assert d.own + (own' + tail) == [c, tail[0]] + tail[1..];
      FirstPair(kind, spell, c, tail[0], tail[1..]);
    } else {
      First(kind, spell, c, own' + tail);
      if Dangling(kind, args) && tail != [] {
        JoinAssoc(d, Split(own' + [tail[0]], []), Partition(kind, spell, tail[1..]));
        assert d.own + (own' + [tail[0]]) == (d.own + own') + [tail[0]];
      } else {
        JoinAssoc(d, Split(own', []), Partition(kind, spell, tail));
      }
    }
  }

  lemma {:induction false} OwnAppend<T(!new)>(kind: T -> Kind, spell: T -> T, args: seq<T>, tail: seq<T>)
    requires Settles(kind, spell)
    ensures Appends(kind, spell, args, tail)
  {
    if args == [] {
      assert [] + tail == tail;
    } else if kind(args[0]) == Foreign {
      OwnAppend(kind, spell, args[1..], tail);
      assert Partition(kind, spell, args).own == Partition(kind, spell, args[1..]).own;
    } else if kind(args[0]) == Pair && |args| > 1 {
      OwnAppend(kind, spell, args[2..], tail);
      AppendsPair(kind, spell, args, tail);
    } else {
      OwnAppend(kind, spell, args[1..], tail);
      AppendsOne(kind, spell, args, tail);
    }
  }

  lemma {:induction false} AllForeign<T>(kind: T -> Kind, spell: T -> T, args: seq<T>)
    requires forall a | a in args :: kind(a) == Foreign
    ensures Partition(kind, spell, args) == Split([], args)
  {
    if args != [] { AllForeign(kind, spell, args[1..]); }
  }

  lemma {:induction false} RestForeign<T>(kind: T -> Kind, spell: T -> T, args: seq<T>)
    ensures forall a | a in Partition(kind, spell, args).rest :: kind(a) == Foreign
  {
    if args != [] {
      RestForeign(kind, spell, args[1..]);
      if |args| > 1 { RestForeign(kind, spell, args[2..]); }
    }
  }

  /** Splitting either half again changes nothing. */
  lemma SplitFixpoints<T(!new)>(kind: T -> Kind, spell: T -> T, args: seq<T>)
    requires Settles(kind, spell)
    ensures var s := Partition(kind, spell, args);
      Partition(kind, spell, s.own) == Split(s.own, []) && Partition(kind, spell, s.rest) == Split([], s.rest)
  {
    var s := Partition(kind, spell, args);
    OwnAppend(kind, spell, args, []);
    assert s.own + [] == s.own;
    RestForeign(kind, spell, args);
    AllForeign(kind, spell, s.rest);
  }

  /** own followed by rest splits back into the two, except when own ends in a flag without
      its value: then it would swallow the first of rest. */
  lemma RejoinIff<T(!new)>(kind: T -> Kind, spell: T -> T, args: seq<T>)
    requires Settles(kind, spell)
    ensures var s := Partition(kind, spell, args);
      Partition(kind, spell, s.own + s.rest) == s <==> !(Dangling(kind, args) && s.rest != [])
  {
    var s := Partition(kind, spell, args);
    OwnAppend(kind, spell, args, s.rest);
    RestForeign(kind, spell, args);
    AllForeign(kind, spell, s.rest);
    if Dangling(kind, args) && s.rest != [] {
      assert |Partition(kind, spell, s.own + s.rest).own| > |s.own|;
    }
  }

  // ---- conservation -----------------------------------------------------------

  datatype Role = ToRest | OwnFlag | OwnValue

  function Roles<T>(kind: T -> Kind, args: seq<T>): (r: seq<Role>)
    ensures |r| == |args|
  {
    if args == [] then []
    else if kind(args[0]) == Foreign then [ToRest] + Roles(kind, args[1..])
    else if kind(args[0]) == Pair && |args| > 1 then [OwnFlag, OwnValue] + Roles(kind, args[2..])
    else [OwnFlag] + Roles(kind, args[1..])
  }

  /** args dealt out, in order, each to its role's half. */
  function Deal<T>(spell: T -> T, args: seq<T>, roles: seq<Role>): Split<T>
    requires |args| == |roles|
  {
    if args == [] then Split([], [])
    else
      var here := match roles[0]
        case ToRest => Split([], [args[0]])
        case OwnFlag => Split([spell(args[0])], [])
        case OwnValue => Split([args[0]], []);
      Join(here, Deal(spell, args[1..], roles[1..]))
  }

  /** Every argument lands in exactly one half, in order, verbatim but for the spelling of an
      own flag. */
  lemma {:induction false} Conservation<T>(kind: T -> Kind, spell: T -> T, args: seq<T>)
    ensures Partition(kind, spell, args) == Deal(spell, args, Roles(kind, args))
    ensures var s := Partition(kind, spell, args); |s.own| + |s.rest| == |args|
  {
    if args != [] {
      var r := Roles(kind, args);
      if kind(args[0]) == Pair && |args| > 1 {
        Conservation(kind, spell, args[2..]);
        assert r[1..][1..] == Roles(kind, args[2..]) && args[1..][1..] == args[2..];
        JoinAssoc(Split([spell(args[0])], []), Split([args[1]], []), Partition(kind, spell, args[2..]));
      } else {
        Conservation(kind, spell, args[1..]);
        assert r[1..] == Roles(kind, args[1..]);
      }
    }
  }
}
