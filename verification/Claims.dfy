/** Claiming executed plans for validation (internal/adapters/memstore/execution.go) and the
    validation worker's sweep over them (validateDuePlans in internal/app/workers.go). */
module Claims {
  import opened Order

  datatype PlanState =
    | Draft | AwaitingApproval | Approved | Scheduled | Preflight | Executing | Executed
    | Validating | Validated | Failed | RollingBack | RolledBack | RollbackFailed | Cancelled

  datatype Moment = Unset | At(at: int)

  /** start and finish are the StartedAt and FinishedAt pointers. A sound plan is one that Executable
      objects to for its state or its schedule alone. */
  datatype Plan = Plan(state: PlanState, start: Moment, finish: Moment, window: int, sound: bool)

  datatype PlanKey = PlanKey(tenant: string, id: string)

  type Plans = map<PlanKey, Plan>

  /** The observation window has closed on an executed plan. */
  predicate Due(p: Plan, now: int) {
    p.state == Executed && p.finish.At? && now >= p.finish.at + p.window
  }

  datatype Candidate = Candidate(key: PlanKey, ready: int)

  predicate Sooner(a: Candidate, b: Candidate) {
    a.ready < b.ready || (a.ready == b.ready && LexLess(a.key.id, b.key.id))
  }

  lemma SoonerOrders()
    ensures StrictWeak(Sooner)
  {
    LexStrictWeak();
    forall x, y, z | Sooner(x, y) && Sooner(y, z)
      ensures Sooner(x, z)
    {
      if x.ready == y.ready == z.ready { assert LexLess(x.key.id, z.key.id); }
    }
    forall x, y, z | Sooner(x, z)
      ensures Sooner(x, y) || Sooner(y, z)
    {
      if x.ready == y.ready == z.ready { assert LexLess(x.key.id, y.key.id) || LexLess(y.key.id, z.key.id); }
    }
  }

  function CandidateOf(plans: Plans, k: PlanKey): Candidate
    requires k in plans && plans[k].finish.At?
  {
    Candidate(k, plans[k].finish.at + plans[k].window)
  }

  /** The due plans among keys. */
  ghost function DueAmong(plans: Plans, keys: set<PlanKey>, now: int): set<Candidate> {
    set k | k in keys && k in plans && Due(plans[k], now) :: CandidateOf(plans, k)
  }

  ghost function DueSet(plans: Plans, now: int): set<Candidate> {
    DueAmong(plans, plans.Keys, now)
  }

  function Marked(plans: Plans, keys: set<PlanKey>): Plans {
    map k | k in plans :: if k in keys then plans[k].(state := Validating) else plans[k]
  }

  ghost function Keys(claimed: seq<Candidate>): set<PlanKey> {
    set c | c in claimed :: c.key
  }

  /** Every due plan once, soonest first. */
  ghost predicate Queue(all: seq<Candidate>, plans: Plans, now: int) {
    multiset(all) == multiset(DueSet(plans, now)) && Sorted(all, Sooner)
  }

  /** One atomic claim: the head of the queue, up to limit, moved out of the state that made it
      due; nothing else is touched. */
  ghost predicate Claim(before: Plans, after: Plans, now: int, limit: nat, claimed: seq<Candidate>) {
    && (exists all :: Queue(all, before, now) && claimed == all[..if |all| > limit then limit else |all|])
    && after == Marked(before, Keys(claimed))
  }

  class PlanStore {
    var plans: Plans

    constructor (plans: Plans)
      ensures this.plans == plans
    {
      this.plans := plans;
    }

    /** Walks the map in any order. */
    method Candidates(now: int) returns (found: seq<Candidate>)
      ensures multiset(found) == multiset(DueSet(plans, now))
    {
      found := [];
      var rows, todo := plans, plans.Keys;
      while todo != {}
        invariant todo <= rows.Keys
        invariant multiset(found) == multiset(DueAmong(rows, rows.Keys - todo, now))
        decreases |todo|
      {
        var k :| k in todo;
        DueOneMore(found, rows, todo, k, now);
        if Due(rows[k], now) {
          found := found + [CandidateOf(rows, k)];
        }
        todo := todo - {k};
      }
      assert rows.Keys - todo == rows.Keys;
    }

    method ClaimAwaitingValidation(now: int, limit: int) returns (claimed: seq<Candidate>)
      modifies this
      ensures Claim(old(plans), plans, now, if limit <= 0 then 50 else limit, claimed)
    {
      var n := if limit <= 0 then 50 else limit;
      var found := Candidates(now);
      SoonerOrders();
      var sorted := SortSlice(found, Sooner);
      assert Queue(sorted, plans, now);
      claimed := if |sorted| > n then sorted[..n] else sorted;
      assert claimed == sorted[..if |sorted| > n then n else |sorted|];
      forall c | c in claimed ensures c.key in plans {
        assert c in multiset(sorted);
      }
      var i := 0;
      while i < |claimed|
        invariant 0 <= i <= |claimed|
        invariant plans == Marked(old(plans), Keys(claimed[..i]))
      {
        var k := claimed[i].key;
        assert claimed[i] in claimed;
        MarkOne(old(plans), claimed, i);
        plans := plans[k := plans[k].(state := Validating)];
        i := i + 1;
      }
      assert claimed[..i] == claimed;
    }
  }

  lemma DueOneMore(found: seq<Candidate>, plans: Plans, todo: set<PlanKey>, k: PlanKey, now: int)
    requires k in todo && todo <= plans.Keys && multiset(found) == multiset(DueAmong(plans, plans.Keys - todo, now))
    ensures multiset(DueAmong(plans, plans.Keys - (todo - {k}), now)) ==
      if Due(plans[k], now) then multiset(found + [CandidateOf(plans, k)]) else multiset(found)
  {
    var fewer, more := DueAmong(plans, plans.Keys - todo, now), DueAmong(plans, plans.Keys - (todo - {k}), now);
    DueOneKey(plans, plans.Keys - todo, k, now);
    assert plans.Keys - (todo - {k}) == plans.Keys - todo + {k};
    if Due(plans[k], now) {
      assert CandidateOf(plans, k) !in fewer;
    }
  }

  lemma DueOneKey(plans: Plans, keys: set<PlanKey>, k: PlanKey, now: int)
    requires k in plans
    ensures DueAmong(plans, keys + {k}, now) ==
      if Due(plans[k], now) then DueAmong(plans, keys, now) + {CandidateOf(plans, k)} else DueAmong(plans, keys, now)
  {
  }

  lemma MarkOne(plans: Plans, claimed: seq<Candidate>, i: nat)
    requires i < |claimed| && claimed[i].key in plans
    ensures var m, k := Marked(plans, Keys(claimed[..i])), claimed[i].key;
      Marked(plans, Keys(claimed[..i+1])) == m[k := m[k].(state := Validating)]
  {
    var s, c := claimed[..i], claimed[i];
    assert claimed[..i+1] == s + [c];
    assert Keys(s + [c]) == Keys(s) + {c.key} by {
      assert c in s + [c];
      assert forall x | x in s :: x in s + [c];
    }
  }

  // ---- what one claim promises ------------------------------------------------

  lemma DueIn(plans: Plans, now: int, c: Candidate)
    ensures c in DueSet(plans, now) <==> c.key in plans && Due(plans[c.key], now) && c == CandidateOf(plans, c.key)
  {
  }

  lemma MultisetOfSet<T>(s: seq<T>, d: set<T>)
    requires multiset(s) == multiset(d)
    ensures |s| == |d| && forall i, j | 0 <= i < j < |s| :: s[i] != s[j]
    ensures forall x :: x in s <==> x in d
  {
    assert |multiset(s)| == |s| && |multiset(d)| == |d|;
    assert forall x :: x in s <==> x in multiset(s);
    forall i, j | 0 <= i < j < |s|
      ensures s[i] != s[j]
    {
      assert s == s[..i] + [s[i]] + s[i+1..j] + [s[j]] + s[j+1..];
      assert multiset(d)[s[i]] <= 1;
    }
  }

  /** The candidates, told by the stored plans alone: each executed plan whose window has closed, once. */
  lemma CandidatesAre(found: seq<Candidate>, plans: Plans, now: int)
    requires multiset(found) == multiset(DueSet(plans, now))
    ensures forall c :: c in found <==>
      && c.key in plans && plans[c.key].state == Executed && plans[c.key].finish.At?
      && c.ready == plans[c.key].finish.at + plans[c.key].window <= now
    ensures forall i, j | 0 <= i < j < |found| :: found[i].key != found[j].key
  {
    MultisetOfSet(found, DueSet(plans, now));
    forall i, j | 0 <= i < j < |found|
      ensures found[i].key != found[j].key
    {
      DueIn(plans, now, found[i]);
      DueIn(plans, now, found[j]);
    }
  }

  /** A claim takes due plans only, each once; all of them if they fit in the limit, else as many
      as the limit and none that became ready after one left behind. */
  lemma ClaimTakesSoonest(before: Plans, after: Plans, now: int, limit: nat, claimed: seq<Candidate>)
    requires Claim(before, after, now, limit, claimed)
    ensures forall c | c in claimed :: c in DueSet(before, now)
    ensures forall i, j | 0 <= i < j < |claimed| :: claimed[i].key != claimed[j].key
    ensures |claimed| == if |DueSet(before, now)| > limit then limit else |DueSet(before, now)|
    ensures Sorted(claimed, Sooner)
    ensures forall c, d | c in claimed && d in DueSet(before, now) && d !in claimed :: !Sooner(d, c)
  {
    var all :| Queue(all, before, now) && claimed == all[..if |all| > limit then limit else |all|];
    MultisetOfSet(all, DueSet(before, now));
    forall c | c in claimed ensures c in DueSet(before, now) {
      assert c in all;
    }
    forall i, j | 0 <= i < j < |claimed|
      ensures claimed[i].key != claimed[j].key
    {
      assert all[i] != all[j] && all[i] in all && all[j] in all;
      DueIn(before, now, all[i]);
      DueIn(before, now, all[j]);
    }
    forall c, d | c in claimed && d in DueSet(before, now) && d !in claimed
      ensures !Sooner(d, c)
    {
      assert forall x | 0 <= x < |claimed| :: claimed[x] != d;
      var i :| 0 <= i < |claimed| && claimed[i] == c;
      var j :| 0 <= j < |all| && all[j] == d;
      assert all[i] == c;
    }
  }

  /** Told by the stored plans alone: a claim takes only executed plans whose observation window has
      closed, one candidate each; every such plan if there is room under the limit; and never one whose
      window closed later than that of one it leaves, ids deciding between equals. It moves those to
      validation and changes nothing else. */
  lemma ClaimExact(before: Plans, after: Plans, now: int, limit: nat, claimed: seq<Candidate>)
    requires Claim(before, after, now, limit, claimed)
    ensures forall c | c in claimed ::
      && c.key in before && before[c.key].state == Executed && before[c.key].finish.At?
      && before[c.key].finish.at + before[c.key].window <= now
      && c.key in after && after[c.key] == before[c.key].(state := Validating)
    ensures forall k | k in before && (forall c | c in claimed :: c.key != k) :: k in after && after[k] == before[k]
    ensures after.Keys == before.Keys && |claimed| <= limit
    ensures forall i, j | 0 <= i < j < |claimed| :: claimed[i].key != claimed[j].key
    ensures forall k | k in before && before[k].state == Executed && before[k].finish.At? &&
                       before[k].finish.at + before[k].window <= now && (forall c | c in claimed :: c.key != k) ::
      && |claimed| == limit
      && forall c | c in claimed ::
           var mine, other := before[c.key].finish.at + before[c.key].window, before[k].finish.at + before[k].window;
           mine < other || (mine == other && !LexLess(k.id, c.key.id))
  {
    ClaimTakesSoonest(before, after, now, limit, claimed);
    ClaimMoves(before, after, now, limit, claimed);
    forall c | c in claimed
      ensures c.key in before && Due(before[c.key], now) && c == CandidateOf(before, c.key) && c.key in Keys(claimed)
    {
      DueIn(before, now, c);
    }
    forall k | k in before && Due(before[k], now) && (forall c | c in claimed :: c.key != k)
      ensures |claimed| == limit && forall c | c in claimed :: !Sooner(CandidateOf(before, k), c)
    {
      LeftBehind(before, now, limit, claimed, k);
      DueIn(before, now, CandidateOf(before, k));
    }
  }

  /** A due plan is left behind only for want of room. */
  lemma LeftBehind(before: Plans, now: int, limit: nat, claimed: seq<Candidate>, k: PlanKey)
    requires k in before && Due(before[k], now) && CandidateOf(before, k) !in claimed
    requires forall c | c in claimed :: c in DueSet(before, now)
    requires forall i, j | 0 <= i < j < |claimed| :: claimed[i] != claimed[j]
    requires |claimed| == if |DueSet(before, now)| > limit then limit else |DueSet(before, now)|
    ensures |claimed| == limit
  {
    DueIn(before, now, CandidateOf(before, k));
    SetSize(claimed);
    var taken := set c | c in claimed;
    assert taken <= DueSet(before, now) - {CandidateOf(before, k)};
    Smaller(taken, DueSet(before, now) - {CandidateOf(before, k)});
  }

  lemma {:induction false} Smaller<T>(a: set<T>, b: set<T>)
    requires a <= b
    ensures |a| <= |b|
  {
    if x :| x in a {
      Smaller(a - {x}, b - {x});
    }
  }

  lemma ClaimMoves(before: Plans, after: Plans, now: int, limit: nat, claimed: seq<Candidate>)
    requires Claim(before, after, now, limit, claimed)
    ensures after.Keys == before.Keys
    ensures forall k | k in before ::
      after[k] == if k in Keys(claimed) then before[k].(state := Validating) else before[k]
    ensures forall k | k in Keys(claimed) :: k in before && Due(before[k], now) && after[k].state == Validating
  {
    ClaimTakesSoonest(before, after, now, limit, claimed);
    forall k | k in Keys(claimed)
      ensures k in before && Due(before[k], now)
    {
      var c :| c in claimed && c.key == k;
      DueIn(before, now, c);
    }
  }

  // ---- draining -----------------------------------------------------------------

  lemma DueShrinks(before: Plans, after: Plans, now: int, limit: nat, claimed: seq<Candidate>)
    requires Claim(before, after, now, limit, claimed)
    ensures DueSet(after, now) == DueSet(before, now) - (set c | c in claimed)
    ensures |DueSet(after, now)| == |DueSet(before, now)| - |claimed|
  {
    ClaimTakesSoonest(before, after, now, limit, claimed);
    ClaimMoves(before, after, now, limit, claimed);
    var taken := set c | c in claimed;
    forall c
      ensures c in DueSet(after, now) <==> c in DueSet(before, now) && c !in claimed
    {
      DueIn(before, now, c);
      DueIn(after, now, c);
      if c in DueSet(before, now) && c.key in Keys(claimed) {
        var d :| d in claimed && d.key == c.key;
        DueIn(before, now, d);
      }
    }
    assert taken <= DueSet(before, now);
    SetSize(claimed);
  }

  lemma {:induction false} SetSize<T>(s: seq<T>)
    requires forall i, j | 0 <= i < j < |s| :: s[i] != s[j]
    ensures |set x | x in s| == |s|
  {
    if s != [] {
      var t, x := s[..|s|-1], s[|s|-1];
      SetSize(t);
      assert (set y | y in s) == (set y | y in t) + {x} by { assert s == t + [x]; }
    }
  }

  /** Nothing starves: claims alone, at one time and with one limit, take limit due plans each
      until none is left. */
  lemma {:induction false} ClaimsDrain(run: seq<Plans>, claims: seq<seq<Candidate>>, now: int, limit: nat, i: nat)
    requires |run| == |claims| + 1 && i < |run|
    requires forall j | 0 <= j < |claims| :: Claim(run[j], run[j+1], now, limit, claims[j])
    ensures |DueSet(run[i], now)| == if |DueSet(run[0], now)| > i * limit then |DueSet(run[0], now)| - i * limit else 0
  {
    if i > 0 {
      ClaimsDrain(run, claims, now, limit, i - 1);
      ClaimTakesSoonest(run[i-1], run[i], now, limit, claims[i-1]);
      DueShrinks(run[i-1], run[i], now, limit, claims[i-1]);
      assert i * limit == (i - 1) * limit + limit;
    }
  }

  // ---- the validation worker's sweep -----------------------------------------------

  /** One call of Automation.Validate: the tenant its principal is scoped to, and the plan. */
  datatype Call = Call(principal: string, plan: PlanKey)

  datatype SweepError = ClaimFailed(message: string) | PlanFailed(plan: PlanKey, message: string)

  /** How a call of Validate comes back: with a result, with an error, or not at all. */
  datatype Verdict = Judged | Refused(message: string) | Panicked(value: string)

  /** How the sweep itself does: nothing in it recovers a panic. */
  datatype Flow = Returned(errs: seq<SweepError>) | Unwinding(value: string)

  function CallsFor(claimed: seq<Candidate>): seq<Call> {
    seq(|claimed|, i requires 0 <= i < |claimed| => Call(claimed[i].key.tenant, claimed[i].key))
  }

  /** The claimed plans the sweep gets to call Validate for. */
  function Called(claimed: seq<Candidate>, verdicts: PlanKey -> Verdict): seq<Candidate> {
    if claimed == [] then []
    else if verdicts(claimed[0].key).Panicked? then [claimed[0]]
    else [claimed[0]] + Called(claimed[1..], verdicts)
  }

  /** errs gathered before a sweep that goes on as f. */
  function Joined(errs: seq<SweepError>, f: Flow): Flow {
    match f
    case Returned(more) => Returned(errs + more)
    case Unwinding(_) => f
  }

  function FlowOf(claimed: seq<Candidate>, verdicts: PlanKey -> Verdict): Flow {
    if claimed == [] then Returned([])
    else
      match verdicts(claimed[0].key)
      case Panicked(v) => Unwinding(v)
      case Refused(m) => Joined([PlanFailed(claimed[0].key, m)], FlowOf(claimed[1..], verdicts))
      case Judged => FlowOf(claimed[1..], verdicts)
  }

  lemma FlowStep(errs: seq<SweepError>, claimed: seq<Candidate>, i: nat, verdicts: PlanKey -> Verdict)
    requires i < |claimed|
    ensures Joined(errs, FlowOf(claimed[i..], verdicts)) ==
      match verdicts(claimed[i].key)
      case Panicked(v) => Unwinding(v)
      case Refused(m) => Joined(errs + [PlanFailed(claimed[i].key, m)], FlowOf(claimed[i+1..], verdicts))
      case Judged => Joined(errs, FlowOf(claimed[i+1..], verdicts))
  {
    assert claimed[i..][1..] == claimed[i+1..];
    var f := FlowOf(claimed[i+1..], verdicts);
    if verdicts(claimed[i].key).Refused? && f.Returned? {
      var e := PlanFailed(claimed[i].key, verdicts(claimed[i].key).message);
      assert errs + ([e] + f.errs) == (errs + [e]) + f.errs;
    }
  }

  lemma CalledStep(claimed: seq<Candidate>, i: nat, verdicts: PlanKey -> Verdict)
    requires i < |claimed|
    ensures claimed[..i] + Called(claimed[i..], verdicts) ==
      if verdicts(claimed[i].key).Panicked? then claimed[..i+1]
      else claimed[..i+1] + Called(claimed[i+1..], verdicts)
  {
    assert claimed[i..][1..] == claimed[i+1..];
    assert claimed[..i+1] == claimed[..i] + [claimed[i]];
  }

  /** Whether the repository can serve the claim at all. */
  datatype Repository = Up | Down(message: string)

  method ValidateDuePlans(store: PlanStore, now: int, limit: int, repository: Repository, verdicts: PlanKey -> Verdict)
    returns (claimed: seq<Candidate>, calls: seq<Call>, flow: Flow)
    modifies store
    ensures repository.Down? ==>
      && store.plans == old(store.plans) && claimed == [] && calls == []
      && flow == Returned([ClaimFailed(repository.message)])
    ensures repository.Up? ==>
      && Claim(old(store.plans), store.plans, now, if limit <= 0 then 4 else limit, claimed)
      && calls == CallsFor(Called(claimed, verdicts)) && flow == FlowOf(claimed, verdicts)
  {
    var n := if limit <= 0 then 4 else limit;
    if repository.Down? {
      return [], [], Returned([ClaimFailed(repository.message)]);
    }
    claimed := store.ClaimAwaitingValidation(now, n);
    calls, flow := ValidateEach(claimed, verdicts);
  }

  /** The loop over the claimed plans: an error moves on, a panic leaves through it. */
  method ValidateEach(claimed: seq<Candidate>, verdicts: PlanKey -> Verdict)
    returns (calls: seq<Call>, flow: Flow)
    ensures calls == CallsFor(Called(claimed, verdicts)) && flow == FlowOf(claimed, verdicts)
  {
    calls := [];
    var errs := [];
    var i := 0;
    while i < |claimed|
      invariant 0 <= i <= |claimed|
      invariant calls == CallsFor(claimed[..i])
      invariant Called(claimed, verdicts) == claimed[..i] + Called(claimed[i..], verdicts)
      invariant FlowOf(claimed, verdicts) == Joined(errs, FlowOf(claimed[i..], verdicts))
    {
      FlowStep(errs, claimed, i, verdicts);
      CalledStep(claimed, i, verdicts);
      var k := claimed[i].key;
      calls := calls + [Call(k.tenant, k)];
      match verdicts(k) {
        case Panicked(v) => return calls, Unwinding(v);
        case Refused(m) => errs := errs + [PlanFailed(k, m)];
        case Judged =>
      }
      i := i + 1;
    }
    assert claimed[..i] + [] == claimed;
    return calls, Returned(errs);
  }

  /** The plans called are a prefix of those claimed, up to the first whose call panics. */
  lemma {:induction false} CalledPrefix(claimed: seq<Candidate>, verdicts: PlanKey -> Verdict)
    ensures Called(claimed, verdicts) <= claimed
    ensures claimed != [] ==> Called(claimed, verdicts) != []
    ensures forall i | 0 <= i < |Called(claimed, verdicts)| - 1 :: !verdicts(claimed[i].key).Panicked?
    ensures Called(claimed, verdicts) != claimed ==>
      Called(claimed, verdicts) != [] && verdicts(claimed[|Called(claimed, verdicts)|-1].key).Panicked?
  {
    if claimed != [] && !verdicts(claimed[0].key).Panicked? {
      var rest := claimed[1..];
      CalledPrefix(rest, verdicts);
      assert claimed == [claimed[0]] + rest;
      forall i | 0 <= i < |Called(claimed, verdicts)| - 1
        ensures !verdicts(claimed[i].key).Panicked?
      {
        if i > 0 { assert claimed[i] == rest[i-1]; }
      }
    }
  }

  /** One plan's failure does not stop the batch, if it is an error: every claimed plan has its call
      exactly when no call before the last one panics. */
  lemma {:induction false} EveryPlanCalledIff(claimed: seq<Candidate>, verdicts: PlanKey -> Verdict)
    ensures Called(claimed, verdicts) == claimed <==>
      forall i | 0 <= i < |claimed| - 1 :: !verdicts(claimed[i].key).Panicked?
  {
    CalledPrefix(claimed, verdicts);
  }

  /** The errors come in the order of the plans. */
  lemma {:induction false} ErrorsInOrder(a: seq<Candidate>, b: seq<Candidate>, verdicts: PlanKey -> Verdict)
    requires FlowOf(a, verdicts).Returned? && FlowOf(b, verdicts).Returned?
    ensures FlowOf(a + b, verdicts) == Returned(FlowOf(a, verdicts).errs + FlowOf(b, verdicts).errs)
  {
    if a == [] {
      assert a + b == b;
    } else {
      ErrorsInOrder(a[1..], b, verdicts);
      assert (a + b)[1..] == a[1..] + b;
    }
  }

  /** The sweep returns exactly when no call panics, and then its errors are those of exactly the
      refused plans; a panic takes the errors gathered before it along. */
  lemma {:induction false} ErrorsAreRefusals(claimed: seq<Candidate>, verdicts: PlanKey -> Verdict)
    ensures FlowOf(claimed, verdicts).Returned? <==> forall c | c in claimed :: !verdicts(c.key).Panicked?
    ensures FlowOf(claimed, verdicts).Returned? ==>
      forall e :: e in FlowOf(claimed, verdicts).errs <==>
        exists c :: c in claimed && verdicts(c.key).Refused? && e == PlanFailed(c.key, verdicts(c.key).message)
    ensures FlowOf(claimed, verdicts).Unwinding? ==>
      && Called(claimed, verdicts) != []
      && verdicts(Called(claimed, verdicts)[|Called(claimed, verdicts)|-1].key) ==
         Panicked(FlowOf(claimed, verdicts).value)
  {
    if claimed != [] {
      ErrorsAreRefusals(claimed[1..], verdicts);
      assert claimed == [claimed[0]] + claimed[1..];
    }
  }

  /** Validate reads through the start of a plan it has checked only the finish of. */
  predicate ReadsStart(plans: Plans, verdicts: PlanKey -> Verdict) {
    forall k | k in plans :: plans[k].start.Unset? ==> verdicts(k).Panicked?
  }

  /** An input that strands a plan: two due plans, the sooner one with a finish and no start. */
  lemma PanicStrands(verdicts: PlanKey -> Verdict)
    returns (before: Plans, after: Plans, claimed: seq<Candidate>)
    ensures Claim(before, after, 10, 4, claimed) && |claimed| == 2
    ensures claimed[0].key in before && before[claimed[0].key].start.Unset?
    ensures claimed[1].key in before && before[claimed[1].key].start.At?
    ensures ReadsStart(before, verdicts) ==>
      Called(claimed, verdicts) == [claimed[0]] && FlowOf(claimed, verdicts).Unwinding?
    ensures ReadsStart(before, verdicts) ==> claimed[1] !in Called(claimed, verdicts)
  {
    var a, b := PlanKey("t", "a"), PlanKey("t", "b");
    before := map[a := Plan(Executed, Unset, At(1), 1, true), b := Plan(Executed, At(2), At(3), 1, true)];
    claimed := [Candidate(a, 2), Candidate(b, 4)];
    after := Marked(before, Keys(claimed));
    forall c
      ensures c in DueSet(before, 10) <==> c in claimed
    {
      DueIn(before, 10, c);
    }
    assert DueSet(before, 10) == {claimed[0], claimed[1]};
    assert multiset(claimed) == multiset{claimed[0], claimed[1]};
    assert Queue(claimed, before, 10) && claimed == claimed[..2];
  }
}
