/** SplitArgs (internal/app/flags.go): one command line shared by two flag parsers. */
module Splitter {
  import opened ArgLine

  /** The flags a FlagSet defines, each with whether it is boolean. */
  type FlagSet = map<string, bool>

  /** What the standard flag package accepts as a name. */
  predicate ValidNames(fs: FlagSet) {
    forall n | n in fs :: '=' !in n && !(|n| > 0 && n[0] == '-')
  }

  datatype FlagArg = FlagArg(name: string, value: string, hasValue: bool)

  predicate LooksLikeFlag(s: string) {
    |s| > 1 && s[0] == '-'
  }

  function TrimDash(s: string): string {
    if |s| > 0 && s[0] == '-' then s[1..] else s
  }

  /** s cut around its first '='. */
  function Cut(s: string): (r: FlagArg)
    ensures '=' !in r.name
    ensures s == if r.hasValue then r.name + "=" + r.value else r.name
    ensures !r.hasValue ==> r.value == ""
  {
    if s == "" then FlagArg("", "", false)
    else if s[0] == '=' then FlagArg("", s[1..], true)
    else
      var r := Cut(s[1..]);
      FlagArg([s[0]] + r.name, r.value, r.hasValue)
  }

  function SplitFlagArg(arg: string): FlagArg {
    if !LooksLikeFlag(arg) then FlagArg("", "", false)
    else Cut(TrimDash(TrimDash(arg)))
  }

  function KindOf(fs: FlagSet, a: string): Kind {
    var f := SplitFlagArg(a);
    if f.name == "" || f.name !in fs then Foreign
    else if f.hasValue || fs[f.name] then Whole
    else Pair
  }

  function Kinds(fs: FlagSet): string -> Kind {
    a => KindOf(fs, a)
  }

  /** The spelling SplitArgs gives a flag of its own. */
  function Respell(a: string): string {
    var f := SplitFlagArg(a);
    if f.hasValue then "-" + f.name + "=" + f.value else "-" + f.name
  }

  function Divide(fs: FlagSet, args: seq<string>): Split<string> {
    Partition(Kinds(fs), Respell, args)
  }

  /** The loop as written, jumping over the value of an unknown flag too. */
  method SplitArgs(fs: FlagSet, args: seq<string>) returns (own: seq<string>, rest: seq<string>)
    ensures Split(own, rest) == Divide(fs, args)
  {
    var known, boolean := fs.Keys, set n | n in fs && fs[n];
    var kind := Kinds(fs);
    own, rest := [], [];
    var i := 0;
    assert args[0..] == args;
    while i < |args|
      invariant 0 <= i <= |args|
      invariant Read(kind, Respell, args, i, own, rest)
    {
      var a := args[i];
      var f := SplitFlagArg(a);
      if f.name == "" || f.name !in known {
        ReadForeign(kind, Respell, args, i, own, rest);
        rest, i := rest + [a], i + 1;
        if f.name != "" && !f.hasValue && f.name !in boolean && i < |args| && !LooksLikeFlag(args[i]) {
          ReadForeign(kind, Respell, args, i, own, rest);
          rest, i := rest + [args[i]], i + 1;
        }
      } else if f.hasValue || f.name in boolean || i + 1 == |args| {
        ReadOwn(kind, Respell, args, i, own, rest);
        own, i := own + [Respell(a)], i + 1;
      } else {
        ReadPair(kind, Respell, args, i, own, rest);
        own, i := own + [Respell(a), args[i+1]], i + 2;
      }
    }
  }

  // ---- spelling -------------------------------------------------------------

  lemma RespellIs(a: string)
    requires LooksLikeFlag(a)
    ensures Respell(a) == ['-'] + TrimDash(TrimDash(a))
  {
    var f := SplitFlagArg(a);
    Glue(f.name, f.value);
  }

  lemma Glue(name: string, value: string)
    ensures "-" + name + "=" + value == ['-'] + (name + "=" + value)
    ensures "-" + name == ['-'] + name
  {
  }

  /** Spelling a flag out drops one of two dashes, and nothing else. */
  lemma RespellTrims(a: string)
    requires LooksLikeFlag(a)
    ensures Respell(a) == if a[1] == '-' then a[1..] else a
  {
    RespellIs(a);
    assert a == ['-'] + a[1..];
    if a[1] == '-' { assert a[1..] == ['-'] + a[1..][1..]; }
  }

  lemma DashReads(body: string)
    requires body != "" && body[0] != '-'
    ensures SplitFlagArg(['-'] + body) == Cut(body)
  {
    assert (['-'] + body)[1..] == body;
  }

  /** ... and keeps what it says. */
  lemma RespellReads(fs: FlagSet, a: string)
    requires ValidNames(fs) && KindOf(fs, a) != Foreign
    ensures SplitFlagArg(Respell(a)) == SplitFlagArg(a)
  {
    var body, f := TrimDash(TrimDash(a)), SplitFlagArg(a);
    RespellIs(a);
    assert body[0] == f.name[0];
    DashReads(body);
  }

  lemma SpellingSettles(fs: FlagSet)
    requires ValidNames(fs)
    ensures Settles(Kinds(fs), Respell)
  {
    var kind := Kinds(fs);
    forall a | kind(a) != Foreign
      ensures kind(Respell(a)) == kind(a) && Respell(Respell(a)) == Respell(a)
    {
      RespellReads(fs, a);
    }
  }

  /** Both halves are fixpoints of the split. */
  lemma Fixpoints(fs: FlagSet, args: seq<string>)
    requires ValidNames(fs)
    ensures var s := Divide(fs, args);
      Divide(fs, s.own) == Split(s.own, []) && Divide(fs, s.rest) == Split([], s.rest)
  {
    SpellingSettles(fs);
    SplitFixpoints(Kinds(fs), Respell, args);
  }

  /** Rejoined, own first, they split back, exactly unless own's last flag lacks its value and
      rest would supply it. */
  lemma Rejoin(fs: FlagSet, args: seq<string>)
    requires ValidNames(fs)
    ensures var s := Divide(fs, args);
      Divide(fs, s.own + s.rest) == s <==> !(Dangling(Kinds(fs), args) && s.rest != [])
  {
    SpellingSettles(fs);
    RejoinIff(Kinds(fs), Respell, args);
  }

  // ---- the standard flag grammar ----------------------------------------------

  datatype Assignment = Assignment(name: string, value: string)
  datatype ParseError = BadSyntax(arg: string) | Undefined(flag: string) | NeedsArgument(flag: string)
  datatype Parsed = Parsed(sets: seq<Assignment>, positional: seq<string>)
                  | Failed(sets: seq<Assignment>, error: ParseError)

  function Prepend(a: Assignment, p: Parsed): Parsed {
    p.(sets := [a] + p.sets)
  }

  /** FlagSet.Parse of Go's flag package, values left as text. */
  function Parse(fs: FlagSet, args: seq<string>): Parsed {
    if args == [] then Parsed([], [])
    else
      var s := args[0];
      if |s| < 2 || s[0] != '-' then Parsed([], args)
      else if s == "--" then Parsed([], args[1..])
      else
        var body := if s[1] == '-' then s[2..] else s[1..];
        if body[0] == '-' || body[0] == '=' then Failed([], BadSyntax(s))
        else
          var f := Cut(body);
          if f.name !in fs then Failed([], Undefined(f.name))
          else if fs[f.name] then
            Prepend(Assignment(f.name, if f.hasValue then f.value else "true"), Parse(fs, args[1..]))
          else if f.hasValue then
            Prepend(Assignment(f.name, f.value), Parse(fs, args[1..]))
          else if |args| > 1 then
            Prepend(Assignment(f.name, args[1]), Parse(fs, args[2..]))
          else Failed([], NeedsArgument(f.name))
  }

  /** The assignment a known flag makes, given the argument after it if it takes one. */
  function Says(a: string, next: string, kind: Kind): Assignment {
    var f := SplitFlagArg(a);
    Assignment(f.name, if f.hasValue then f.value else if kind == Pair then next else "true")
  }

  function Name(a: string): string { SplitFlagArg(a).name }

  /** What the standard parser sees of an argument that is a flag of fs. */
  lemma KnownBody(fs: FlagSet, s: string)
    requires ValidNames(fs) && KindOf(fs, s) != Foreign
    ensures |s| >= 2 && s[0] == '-' && s != "--"
    ensures var body := if s[1] == '-' then s[2..] else s[1..];
      body != "" && body[0] != '-' && body[0] != '=' && Cut(body) == SplitFlagArg(s)
  {
    var body := if s[1] == '-' then s[2..] else s[1..];
    assert body == TrimDash(TrimDash(s));
    var name := Cut(body).name;
    assert body[0] == name[0] && name[0] in name;
  }

  lemma ParseWhole(fs: FlagSet, args: seq<string>)
    requires ValidNames(fs) && args != [] && KindOf(fs, args[0]) == Whole
    ensures Parse(fs, args) == Prepend(Says(args[0], "", Whole), Parse(fs, args[1..]))
  {
    KnownBody(fs, args[0]);
  }

  lemma ParseKnown(fs: FlagSet, args: seq<string>)
    requires ValidNames(fs) && args != [] && KindOf(fs, args[0]) != Foreign
    ensures KindOf(fs, args[0]) == Whole ==>
      Parse(fs, args) == Prepend(Says(args[0], "", Whole), Parse(fs, args[1..]))
    ensures KindOf(fs, args[0]) == Pair && |args| > 1 ==>
      Parse(fs, args) == Prepend(Says(args[0], args[1], Pair), Parse(fs, args[2..]))
    ensures KindOf(fs, args[0]) == Pair && |args| == 1 ==>
      Parse(fs, args) == Failed([], NeedsArgument(Name(args[0])))
  {
    if KindOf(fs, args[0]) == Whole {
      ParseWhole(fs, args);
    } else {
      KnownBody(fs, args[0]);
    }
  }

  lemma {:induction false} CutReads(n: string, v: string)
    requires '=' !in n
    ensures Cut(n) == FlagArg(n, "", false) && Cut(n + "=" + v) == FlagArg(n, v, true)
  {
    if n == "" {
      assert n + "=" + v == "=" + v && ("=" + v)[1..] == v;
    } else {
      CutReads(n[1..], v);
      assert n == [n[0]] + n[1..] && (n + "=" + v)[1..] == n[1..] + "=" + v;
    }
  }

  lemma FlagReads(n: string, v: string)
    requires n != "" && n[0] != '-' && '=' !in n
    ensures SplitFlagArg("-" + n) == FlagArg(n, "", false)
    ensures SplitFlagArg("-" + n + "=" + v) == FlagArg(n, v, true)
  {
    CutReads(n, v);
    Glue(n, v);
    DashReads(n);
    DashReads(n + "=" + v);
  }

  /** How a flag n of fs reads, standing alone, before its value, and with its value. */
  lemma ParseReads(fs: FlagSet, n: string, v: string, tail: seq<string>)
    requires ValidNames(fs) && n in fs && n != ""
    ensures fs[n] ==> Parse(fs, ["-" + n] + tail) == Prepend(Assignment(n, "true"), Parse(fs, tail))
    ensures !fs[n] ==> Parse(fs, ["-" + n, v] + tail) == Prepend(Assignment(n, v), Parse(fs, tail))
    ensures !fs[n] ==> Parse(fs, ["-" + n]) == Failed([], NeedsArgument(n))
    ensures Parse(fs, ["-" + n + "=" + v] + tail) == Prepend(Assignment(n, v), Parse(fs, tail))
  {
    FlagReads(n, v);
    var alone, given := "-" + n, "-" + n + "=" + v;
    ParseKnown(fs, [alone] + tail);
    ParseKnown(fs, [alone, v] + tail);
    ParseKnown(fs, [alone]);
    ParseKnown(fs, [given] + tail);
    assert ([alone] + tail)[1..] == tail && ([given] + tail)[1..] == tail && ([alone, v] + tail)[2..] == tail;
  }

  /** The reading stops at a lone "--", which is dropped, and at what is no flag, which is kept. */
  lemma ParseStops(fs: FlagSet, a: string, tail: seq<string>)
    ensures Parse(fs, ["--"] + tail) == Parsed([], tail)
    ensures a in ["", "-"] || a[0] != '-' ==> Parse(fs, [a] + tail) == Parsed([], [a] + tail)
  {
    assert (["--"] + tail)[1..] == tail;
  }

  /** It fails at a third dash, at an '=' for a name, and at a name that is not defined. */
  lemma ParseFails(fs: FlagSet, body: string, tail: seq<string>)
    requires body != "" && body[0] != '-'
    ensures Parse(fs, ["---" + body] + tail) == Failed([], BadSyntax("---" + body))
    ensures Parse(fs, ["-" + body] + tail) == Failed([], BadSyntax("-" + body)) <==> body[0] == '='
    ensures '=' !in body && body !in fs ==> Parse(fs, ["-" + body] + tail) == Failed([], Undefined(body))
  {
    assert ("---" + body)[2..] == "-" + body && ("-" + body)[1..] == body;
    if '=' !in body { CutReads(body, ""); }
  }

  /** The flags of fs a line holds, wherever they stand, with the values they are given. */
  function Occurrences(fs: FlagSet, args: seq<string>): Parsed {
    if args == [] then Parsed([], [])
    else match KindOf(fs, args[0])
      case Foreign => Occurrences(fs, args[1..])
      case Whole => Prepend(Says(args[0], "", Whole), Occurrences(fs, args[1..]))
      case Pair =>
        if |args| > 1 then Prepend(Says(args[0], args[1], Pair), Occurrences(fs, args[2..]))
        else Failed([], NeedsArgument(Name(args[0])))
  }

  lemma OwnReads(fs: FlagSet, args: seq<string>, n: nat)
    requires ValidNames(fs) && Takes(fs, args, n)
    ensures var a := Says(args[0], if n == 2 then args[1] else "", KindOf(fs, args[0]));
      Parse(fs, Divide(fs, args).own) == Prepend(a, Parse(fs, Divide(fs, args[n..]).own))
  {
    DivideOurs(fs, args, n);
    ParseKnown(fs, Divide(fs, args).own);
  }

  lemma DanglingReads(fs: FlagSet, a: string)
    requires ValidNames(fs) && KindOf(fs, a) == Pair
    ensures Parse(fs, Divide(fs, [a]).own) == Failed([], NeedsArgument(Name(a)))
  {
    First(Kinds(fs), Respell, a, []);
    assert [a] + [] == [a];
    assert Divide(fs, [a]).own == [Respell(a)];
    RespellReads(fs, a);
    ParseKnown(fs, [Respell(a)]);
  }

  /** Read back by the standard parser, own is consumed whole and says exactly what the line
      said; it fails only for a last flag without its value. */
  lemma {:induction false} RoundTrip(fs: FlagSet, args: seq<string>)
    requires ValidNames(fs)
    ensures Parse(fs, Divide(fs, args).own) == Occurrences(fs, args)
    ensures Occurrences(fs, args).Failed? ==> Occurrences(fs, args).error.NeedsArgument?
    ensures Occurrences(fs, args).Parsed? ==> Occurrences(fs, args).positional == []
  {
    if args != [] {
      if KindOf(fs, args[0]) == Foreign {
        RoundTrip(fs, args[1..]);
        assert Divide(fs, args).own == Divide(fs, args[1..]).own;
      } else if KindOf(fs, args[0]) == Pair && |args| == 1 {
        assert args == [args[0]];
        DanglingReads(fs, args[0]);
      } else {
        var n := if KindOf(fs, args[0]) == Pair then 2 else 1;
        RoundTrip(fs, args[n..]);
        OwnReads(fs, args, n);
      }
    }
  }

  /** The one failure is the dangling flag. */
  lemma {:induction false} FailsIffDangling(fs: FlagSet, args: seq<string>)
    ensures Occurrences(fs, args).Failed? <==> Dangling(Kinds(fs), args)
  {
    if args != [] {
      FailsIffDangling(fs, args[1..]);
      if |args| > 1 { FailsIffDangling(fs, args[2..]); }
      assert Kinds(fs)(args[0]) == KindOf(fs, args[0]);
    }
  }

  lemma ParsedHead(fs: FlagSet, args: seq<string>)
    requires args != [] && Parse(fs, args).Parsed?
    requires LooksLikeFlag(args[0]) && args[0] != "--"
    ensures KindOf(fs, args[0]) != Foreign
    ensures KindOf(fs, args[0]) == Pair ==> |args| > 1
  {
    var s := args[0];
    var body := if s[1] == '-' then s[2..] else s[1..];
    assert body == TrimDash(TrimDash(s));
    assert body[0] != '=';
  }

  /** How the standard parser takes the head of a line it accepts. */
  lemma ParsedStep(fs: FlagSet, args: seq<string>) returns (n: nat, a: Assignment)
    requires ValidNames(fs) && args != [] && Parse(fs, args).Parsed?
    requires LooksLikeFlag(args[0]) && args[0] != "--"
    ensures 1 <= n <= |args| && n <= 2 && (n == 2 <==> KindOf(fs, args[0]) == Pair)
    ensures KindOf(fs, args[0]) != Foreign
    ensures a == Says(args[0], if n == 2 then args[1] else "", KindOf(fs, args[0]))
    ensures Parse(fs, args) == Prepend(a, Parse(fs, args[n..]))
    ensures Occurrences(fs, args) == Prepend(a, Occurrences(fs, args[n..]))
  {
    ParsedHead(fs, args);
    ParseKnown(fs, args);
    n := if KindOf(fs, args[0]) == Pair then 2 else 1;
    a := Says(args[0], if n == 2 then args[1] else "", KindOf(fs, args[0]));
  }

  lemma PrependExtends(a: Assignment, sets: seq<Assignment>, t: Parsed)
    ensures Prepend(a, t.(sets := sets + t.sets)) == t.(sets := ([a] + sets) + t.sets)
  {
    assert [a] + (sets + t.sets) == ([a] + sets) + t.sets;
  }

  /** SplitArgs reads on where the standard parser stops: a line that parser accepts is given
      the same assignments, then those of its positional tail. */
  lemma {:induction false} ExtendsStandardParse(fs: FlagSet, args: seq<string>)
    requires ValidNames(fs) && Parse(fs, args).Parsed?
    ensures var p := Parse(fs, args);
      var t := Occurrences(fs, p.positional);
      Occurrences(fs, args) == t.(sets := p.sets + t.sets)
  {
    var p := Parse(fs, args);
    var t := Occurrences(fs, p.positional);
    if args != [] {
      if !LooksLikeFlag(args[0]) || args[0] == "--" {
        assert p.sets + t.sets == t.sets;
      } else {
        var n, a := ParsedStep(fs, args);
        ExtendsStandardParse(fs, args[n..]);
        PrependExtends(a, Parse(fs, args[n..]).sets, t);
      }
    }
  }

  // ---- two parsers, one line ----------------------------------------------------

  function Only(sets: seq<Assignment>, fs: FlagSet): seq<Assignment> {
    if sets == [] then []
    else if sets[0].name in fs then [sets[0]] + Only(sets[1..], fs)
    else Only(sets[1..], fs)
  }

  /** Some flag of theirs is given, as a separate argument, a value spelled like a flag of ours. */
  predicate Captures(ours: FlagSet, theirs: FlagSet, args: seq<string>) {
    if |args| < 2 then false
    else if KindOf(ours, args[0]) == Pair then Captures(ours, theirs, args[2..])
    else if KindOf(theirs, args[0]) == Pair then
      KindOf(ours, args[1]) != Foreign || Captures(ours, theirs, args[2..])
    else Captures(ours, theirs, args[1..])
  }

  ghost predicate Shareable(ours: FlagSet, theirs: FlagSet, args: seq<string>) {
    && ValidNames(ours) && ValidNames(theirs) && ours.Keys !! theirs.Keys
    && Parse(ours + theirs, args).Parsed? && Parse(ours + theirs, args).positional == []
  }

  /** Each parser, knowing its own flags, reads its share of sets from its half of args. */
  ghost predicate SharedOut(ours: FlagSet, theirs: FlagSet, args: seq<string>, sets: seq<Assignment>) {
    && Parse(ours, Divide(ours, args).own) == Parsed(Only(sets, ours), [])
    && Parse(theirs, Divide(ours, args).rest) == Parsed(Only(sets, theirs), [])
  }

  lemma OnlyFirst(a: Assignment, sets: seq<Assignment>, fs: FlagSet)
    ensures Only([a] + sets, fs) == if a.name in fs then [a] + Only(sets, fs) else Only(sets, fs)
  {
    assert ([a] + sets)[1..] == sets;
  }

  /** How many arguments the flag at the head takes, of those there are. */
  ghost predicate Takes(fs: FlagSet, args: seq<string>, n: nat) {
    && 1 <= n <= |args| && KindOf(fs, args[0]) != Foreign
    && n == if KindOf(fs, args[0]) == Pair then 2 else 1
  }

  lemma DivideOurs(ours: FlagSet, args: seq<string>, n: nat)
    requires ValidNames(ours) && Takes(ours, args, n)
    ensures var own, own' := Divide(ours, args).own, Divide(ours, args[n..]).own;
      Takes(ours, own, n) && own[n..] == own' && Name(own[0]) == Name(args[0])
      && Says(own[0], if n == 2 then own[1] else "", KindOf(ours, own[0]))
         == Says(args[0], if n == 2 then args[1] else "", KindOf(ours, args[0]))
    ensures Divide(ours, args).rest == Divide(ours, args[n..]).rest
  {
    RespellReads(ours, args[0]);
    if n == 2 {
      assert Divide(ours, args) == Join(Split([Respell(args[0]), args[1]], []), Divide(ours, args[2..]));
    } else {
      assert Divide(ours, args) == Join(Split([Respell(args[0])], []), Divide(ours, args[1..]));
    }
  }

  lemma OursFirst(ours: FlagSet, args: seq<string>, n: nat, a: Assignment)
    requires ValidNames(ours) && Takes(ours, args, n)
    requires a == Says(args[0], if n == 2 then args[1] else "", KindOf(ours, args[0]))
    ensures Parse(ours, Divide(ours, args).own) == Prepend(a, Parse(ours, Divide(ours, args[n..]).own))
    ensures Divide(ours, args).rest == Divide(ours, args[n..]).rest
  {
    DivideOurs(ours, args, n);
    OwnReads(ours, args, n);
  }

  lemma DivideTheirs(ours: FlagSet, theirs: FlagSet, args: seq<string>, n: nat)
    requires ours.Keys !! theirs.Keys && Takes(theirs, args, n)
    requires n == 2 ==> KindOf(ours, args[1]) == Foreign
    ensures Divide(ours, args) == Join(Split([], args[..n]), Divide(ours, args[n..]))
  {
    assert KindOf(ours, args[0]) == Foreign;
    assert Divide(ours, args) == Join(Split([], [args[0]]), Divide(ours, args[1..]));
    if n == 2 {
      assert args[1..][1..] == args[2..];
      assert Divide(ours, args[1..]) == Join(Split([], [args[1]]), Divide(ours, args[2..]));
      JoinAssoc(Split([], [args[0]]), Split([], [args[1]]), Divide(ours, args[2..]));
      assert args[..2] == [args[0]] + [args[1]];
    } else {
      assert args[..1] == [args[0]];
    }
  }

  lemma TheirsFirst(ours: FlagSet, theirs: FlagSet, args: seq<string>, n: nat, a: Assignment)
    requires ValidNames(theirs) && ours.Keys !! theirs.Keys && Takes(theirs, args, n)
    requires a == Says(args[0], if n == 2 then args[1] else "", KindOf(theirs, args[0]))
    requires n == 2 ==> KindOf(ours, args[1]) == Foreign
    ensures Parse(theirs, Divide(ours, args).rest) == Prepend(a, Parse(theirs, Divide(ours, args[n..]).rest))
    ensures Divide(ours, args).own == Divide(ours, args[n..]).own
  {
    DivideTheirs(ours, theirs, args, n);
    var rest, rest' := Divide(ours, args).rest, Divide(ours, args[n..]).rest;
    assert rest == args[..n] + rest';
    assert rest[n..] == rest' && rest[0] == args[0] && (n == 2 ==> rest[1] == args[1]);
    ParseKnown(theirs, rest);
  }

  /** A value of theirs taken for a flag of ours is lost to their parser. */
  lemma Captured(ours: FlagSet, theirs: FlagSet, args: seq<string>, a: Assignment, sets: seq<Assignment>)
    requires ValidNames(theirs) && ours.Keys !! theirs.Keys && |args| > 1
    requires KindOf(theirs, args[0]) == Pair && KindOf(ours, args[1]) != Foreign
    requires a == Says(args[0], args[1], Pair)
    ensures Parse(theirs, Divide(ours, args).rest) != Parsed(Only([a] + sets, theirs), [])
  {
    var rest, tail := Divide(ours, args).rest, Divide(ours, args[1..]).rest;
    assert KindOf(ours, args[0]) == Foreign;
    assert rest == [args[0]] + tail;
    RestForeign(Kinds(ours), Respell, args[1..]);
    ParseKnown(theirs, rest);
    if tail != [] {
      assert tail[0] in tail && rest[1] == tail[0];
      assert Kinds(ours)(tail[0]) == Foreign;
      assert Only([a] + sets, theirs)[0] == a;
    }
  }

  /** What SharedLine says of a line whose assignments are sets. */
  ghost predicate Shared(ours: FlagSet, theirs: FlagSet, args: seq<string>, sets: seq<Assignment>) {
    if Captures(ours, theirs, args) then
      Parse(theirs, Divide(ours, args).rest) != Parsed(Only(sets, theirs), [])
    else SharedOut(ours, theirs, args, sets)
  }

  lemma PrependCancels(a: Assignment, p: Parsed, sets: seq<Assignment>)
    ensures Prepend(a, p) == Parsed([a] + sets, []) <==> p == Parsed(sets, [])
  {
    assert p.sets == ([a] + p.sets)[1..] && sets == ([a] + sets)[1..];
  }

  lemma CapturesOurs(ours: FlagSet, theirs: FlagSet, args: seq<string>, n: nat)
    requires ours.Keys !! theirs.Keys && Takes(ours, args, n)
    ensures Captures(ours, theirs, args) == Captures(ours, theirs, args[n..])
  {
    assert KindOf(theirs, args[0]) == Foreign;
  }

  lemma CapturesTheirs(ours: FlagSet, theirs: FlagSet, args: seq<string>, n: nat)
    requires ours.Keys !! theirs.Keys && Takes(theirs, args, n)
    requires n == 2 ==> KindOf(ours, args[1]) == Foreign
    ensures Captures(ours, theirs, args) == Captures(ours, theirs, args[n..])
  {
    assert KindOf(ours, args[0]) == Foreign;
  }

  lemma SharedOurs(ours: FlagSet, theirs: FlagSet, args: seq<string>, n: nat, a: Assignment, sets: seq<Assignment>)
    requires ValidNames(ours) && ours.Keys !! theirs.Keys && Takes(ours, args, n)
    requires a == Says(args[0], if n == 2 then args[1] else "", KindOf(ours, args[0]))
    requires Shared(ours, theirs, args[n..], sets)
    ensures Shared(ours, theirs, args, [a] + sets)
  {
    OnlyFirst(a, sets, ours);
    OnlyFirst(a, sets, theirs);
    OursFirst(ours, args, n, a);
    PrependCancels(a, Parse(ours, Divide(ours, args[n..]).own), Only(sets, ours));
    CapturesOurs(ours, theirs, args, n);
  }

  lemma SharedTheirs(ours: FlagSet, theirs: FlagSet, args: seq<string>, n: nat, a: Assignment, sets: seq<Assignment>)
    requires ValidNames(theirs) && ours.Keys !! theirs.Keys && Takes(theirs, args, n)
    requires a == Says(args[0], if n == 2 then args[1] else "", KindOf(theirs, args[0]))
    requires n == 2 ==> KindOf(ours, args[1]) == Foreign
    requires Shared(ours, theirs, args[n..], sets)
    ensures Shared(ours, theirs, args, [a] + sets)
  {
    OnlyFirst(a, sets, ours);
    OnlyFirst(a, sets, theirs);
    TheirsFirst(ours, theirs, args, n, a);
    PrependCancels(a, Parse(theirs, Divide(ours, args[n..]).rest), Only(sets, theirs));
    CapturesTheirs(ours, theirs, args, n);
  }

  /** The purpose of SplitArgs: a line one parser would accept whole, knowing both sets of
      flags, is divided so that each parser, knowing its own, reads exactly its share. It
      fails exactly when a foreign value is spelled like one of our flags. */
  lemma {:induction false} SharedLine(ours: FlagSet, theirs: FlagSet, args: seq<string>)
    requires Shareable(ours, theirs, args)
    ensures Shared(ours, theirs, args, Parse(ours + theirs, args).sets)
  {
    if args != [] {
      if args[0] == "--" {
        assert args == ["--"] && args[1..] == [];
        assert KindOf(ours, args[0]) == Foreign;
        assert Divide(ours, args) == Join(Split([], ["--"]), Divide(ours, []));
      } else {
        var n, a := ParsedStep(ours + theirs, args);
        SharedLine(ours, theirs, args[n..]);
        var sets := Parse(ours + theirs, args[n..]).sets;
        if KindOf(ours, args[0]) != Foreign {
          SharedOurs(ours, theirs, args, n, a, sets);
        } else if n == 2 && KindOf(ours, args[1]) != Foreign {
          Captured(ours, theirs, args, a, sets);
        } else {
          SharedTheirs(ours, theirs, args, n, a, sets);
        }
      }
    }
  }
}
