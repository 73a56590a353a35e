/** Choosing the subcommand to run (cmd/coptx/main.go). The commands are sorted stably, longest path
    first, and the first whose path begins the arguments runs with the rest of them. Usage is shown and
    nothing runs for no arguments or a request for help, and, as a failure, for no match. */
module Dispatch {
  import opened Order

  datatype Command = Command(path: seq<string>, summary: string)

  datatype Choice = NoCommand | Chosen(command: Command)

  /** What Run returns: an exit code, and whether it also returned an error. */
  datatype Ran = Ran(code: int, failed: bool)

  datatype Report = Report(exit: int, usageShown: bool, ran: Choice, rest: seq<string>)

  predicate Longer(a: Command, b: Command) { |a.path| > |b.path| }

  /** path is a prefix of args. */
  predicate Matches(args: seq<string>, path: seq<string>) { path <= args }

  method MatchesPath(args: seq<string>, path: seq<string>) returns (matches: bool)
    ensures matches == Matches(args, path)
  {
    if |args| < |path| {
      return false;
    }
    for i := 0 to |path|
      invariant path[..i] == args[..i]
    {
      if args[i] != path[i] {
        assert args[..|path|][i] != path[i];
        return false;
      }
    }
    assert path == args[..|path|];
    return true;
  }

  function FirstMatch(cmds: seq<Command>, args: seq<string>): Choice {
    if cmds == [] then NoCommand
    else if Matches(args, cmds[0].path) then Chosen(cmds[0])
    else FirstMatch(cmds[1..], args)
  }

  /** c matches, no matching command has a longer path, and c comes first in cmds among the matching
      ones of its own length. */
  ghost predicate IsLongest(c: Command, cmds: seq<Command>, args: seq<string>) {
    && c in cmds && Matches(args, c.path)
    && (forall d | d in cmds && Matches(args, d.path) :: |d.path| <= |c.path|)
    && FirstMatch(Class(cmds, c, Longer), args) == Chosen(c)
  }

  ghost predicate Decides(choice: Choice, cmds: seq<Command>, args: seq<string>) {
    match choice
    case NoCommand => forall d | d in cmds :: !Matches(args, d.path)
    case Chosen(c) => IsLongest(c, cmds, args)
  }

  lemma LongerOrders()
    ensures StrictWeak(Longer)
  {
  }

  lemma {:induction false} FirstMatchFound(cmds: seq<Command>, args: seq<string>)
    ensures match FirstMatch(cmds, args)
      case NoCommand => forall d | d in cmds :: !Matches(args, d.path)
      case Chosen(c) => c in cmds && Matches(args, c.path)
  {
    if cmds != [] && !Matches(args, cmds[0].path) { FirstMatchFound(cmds[1..], args); }
  }

  lemma {:induction false} FirstInClass(cmds: seq<Command>, args: seq<string>, c: Command)
    requires FirstMatch(cmds, args) == Chosen(c)
    ensures FirstMatch(Class(cmds, c, Longer), args) == Chosen(c)
  {
    if !Matches(args, cmds[0].path) {
      FirstInClass(cmds[1..], args, c);
      if Same(cmds[0], c, Longer) {
        assert Class(cmds, c, Longer)[1..] == Class(cmds[1..], c, Longer);
      }
    }
  }

  lemma {:induction false} FirstIsLongest(cmds: seq<Command>, args: seq<string>, c: Command)
    requires FirstMatch(cmds, args) == Chosen(c) && Sorted(cmds, Longer)
    ensures forall d | d in cmds && Matches(args, d.path) :: |d.path| <= |c.path|
  {
    if Matches(args, cmds[0].path) {
      forall d | d in cmds
        ensures |d.path| <= |c.path|
      {
        var i :| 0 <= i < |cmds| && cmds[i] == d;
        if i > 0 { assert !Longer(cmds[i], cmds[0]); }
      }
    } else {
      FirstIsLongest(cmds[1..], args, c);
    }
  }

  /** Scanning the commands longest path first, ties in their own order, finds the longest match. */
  lemma ScanDecides(sorted: seq<Command>, cmds: seq<Command>, args: seq<string>)
    requires multiset(sorted) == multiset(cmds) && Sorted(sorted, Longer) && Stable(sorted, cmds, Longer)
    ensures Decides(FirstMatch(sorted, args), cmds, args)
  {
    FirstMatchFound(sorted, args);
    forall d ensures d in sorted <==> d in cmds {
      assert d in multiset(sorted) <==> d in multiset(cmds);
    }
    match FirstMatch(sorted, args)
    case NoCommand =>
    case Chosen(c) =>
      FirstIsLongest(sorted, args, c);
      FirstInClass(sorted, args, c);
      assert Class(sorted, c, Longer) == Class(cmds, c, Longer);
  }

  method SortLongestFirst(cmds: seq<Command>) returns (sorted: seq<Command>)
    ensures multiset(sorted) == multiset(cmds) && Sorted(sorted, Longer) && Stable(sorted, cmds, Longer)
  {
    LongerOrders();
    StableSortSorts(cmds, Longer);
    sorted := StableSort(cmds, Longer);
  }

  method DispatchArgs(args: seq<string>, cmds: seq<Command>, run: (Command, seq<string>) -> Ran) returns (r: Report)
    ensures args == [] || args[0] in ["help", "-h", "--help"] ==> r == Report(0, true, NoCommand, [])
    ensures args != [] && args[0] !in ["help", "-h", "--help"] ==>
      && Decides(r.ran, cmds, args)
      && (r.ran.NoCommand? ==> r == Report(2, true, NoCommand, []))
      && (r.ran.Chosen? ==>
            var ran := run(r.ran.command, r.rest);
            && args == r.ran.command.path + r.rest && !r.usageShown
            && r.exit == if ran.failed && ran.code == 0 then 1 else ran.code)
  {
    if |args| == 0 || args[0] == "help" || args[0] == "-h" || args[0] == "--help" {
      return Report(0, true, NoCommand, []);
    }
    var sorted := SortLongestFirst(cmds);
    ScanDecides(sorted, cmds, args);
    var i := 0;
    while i < |sorted|
      invariant 0 <= i <= |sorted|
      invariant FirstMatch(sorted, args) == FirstMatch(sorted[i..], args)
    {
      var c := sorted[i];
      var matches := MatchesPath(args, c.path);
      if matches {
        var rest := args[|c.path|..];
        var ran := run(c, rest);
        var code := ran.code;
        if ran.failed && code == 0 {
          code := 1;
        }
        return Report(code, false, Chosen(c), rest);
      }
      assert sorted[i..][1..] == sorted[i+1..];
      i := i + 1;
    }
    return Report(2, true, NoCommand, []);
  }

  // ---- what the rule means -----------------------------------------------------------------

  /** c is declared at i, and nothing before it has its path. */
  predicate FirstWith(cmds: seq<Command>, c: Command, i: nat) {
    i < |cmds| && cmds[i] == c && forall j | 0 <= j < i :: cmds[j].path != c.path
  }

  lemma FirstWithStep(d: Command, cmds: seq<Command>, c: Command)
    requires d.path != c.path
    ensures (exists i :: FirstWith([d] + cmds, c, i)) <==> exists i :: FirstWith(cmds, c, i)
  {
    var more := [d] + cmds;
    if i: nat :| FirstWith(more, c, i) {
      assert i > 0;
      forall j | 0 <= j < i - 1 ensures cmds[j].path != c.path { assert more[j+1] == cmds[j]; }
      assert FirstWith(cmds, c, i - 1);
    }
    if i: nat :| FirstWith(cmds, c, i) { assert FirstWith(more, c, i + 1); }
  }

  lemma {:induction false} FirstOfClass(cmds: seq<Command>, c: Command, args: seq<string>)
    requires c.path <= args
    ensures FirstMatch(Class(cmds, c, Longer), args) == Chosen(c) <==> exists i :: FirstWith(cmds, c, i)
  {
    if cmds != [] {
      var d, rest := cmds[0], cmds[1..];
      assert cmds == [d] + rest;
      FirstOfClass(rest, c, args);
      if d.path == c.path {
        assert d == c ==> FirstWith(cmds, c, 0);
      } else {
        FirstWithStep(d, rest, c);
        assert |d.path| == |c.path| ==> !(d.path <= args);
        if |d.path| == |c.path| { assert Class(cmds, c, Longer)[1..] == Class(rest, c, Longer); }
      }
    }
  }

  /** Told by the commands alone: nothing is run just when no path begins the line, and otherwise a
      command of the longest path that does, declared before any other of that path. */
  lemma DecidesIff(choice: Choice, cmds: seq<Command>, args: seq<string>)
    ensures Decides(choice, cmds, args) <==>
      match choice
      case NoCommand => forall d | d in cmds :: !(d.path <= args)
      case Chosen(c) =>
        && c.path <= args && (exists i :: FirstWith(cmds, c, i))
        && forall d | d in cmds && d.path <= args :: |d.path| <= |c.path|
  {
    if choice.Chosen? && choice.command.path <= args {
      FirstOfClass(cmds, choice.command, args);
    }
  }

  /** Equally long matches spell the same path, so the choice is one command. */
  lemma DecidesUnique(a: Choice, b: Choice, cmds: seq<Command>, args: seq<string>)
    requires Decides(a, cmds, args) && Decides(b, cmds, args)
    ensures a == b
  {
    if a.Chosen? && b.Chosen? {
      assert |a.command.path| == |b.command.path|;
      SameClass(cmds, a.command, b.command);
    }
  }

  lemma {:induction false} SameClass(cmds: seq<Command>, c: Command, d: Command)
    requires |c.path| == |d.path|
    ensures Class(cmds, c, Longer) == Class(cmds, d, Longer)
  {
    if cmds != [] { SameClass(cmds[1..], c, d); }
  }

  lemma {:induction false} ClassAppend(a: seq<Command>, b: seq<Command>, c: Command)
    ensures Class(a + b, c, Longer) == Class(a, c, Longer) + Class(b, c, Longer)
  {
    if a == [] {
      assert a + b == b;
    } else {
      assert (a + b)[1..] == a[1..] + b;
      ClassAppend(a[1..], b, c);
    }
  }

  /** A new command, declared anywhere, with a path shorter than that of the command a line already
      runs, does not change what the line runs. */
  lemma ParentDoesNotShadow(a: seq<Command>, b: seq<Command>, parent: Command,
          args: seq<string>, c: Command)
    requires Decides(Chosen(c), a + b, args) && |parent.path| < |c.path|
    ensures Decides(Chosen(c), a + [parent] + b, args)
    ensures forall x | Decides(x, a + [parent] + b, args) :: x == Chosen(c)
  {
    ClassAppend(a, b, c);
    ClassAppend(a + [parent], b, c);
    ClassAppend(a, [parent], c);
    assert Class([parent], c, Longer) == [];
    assert Class(a, c, Longer) + [] == Class(a, c, Longer);
    forall x | Decides(x, a + [parent] + b, args)
      ensures x == Chosen(c)
    {
      DecidesUnique(x, Chosen(c), a + [parent] + b, args);
    }
  }

  /** Scanning shortest first, as the comment warns, would give the line to the parent. */
  lemma ShortestFirstShadows(parent: Command, child: Command, args: seq<string>)
    requires parent.path < child.path && Matches(args, child.path)
    ensures FirstMatch([parent, child], args) == Chosen(parent)
    ensures Decides(Chosen(child), [parent, child], args)
  {
    assert [parent, child][1..] == [child];
    assert Class([child], child, Longer) == [child];
    assert parent.path == args[..|parent.path|];
  }
}
