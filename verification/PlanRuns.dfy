/** Runs of the platform over one plan store: replicas that claim, and calls of the automation service
    (internal/application/automation) that hold a plan and write all of it back. */
module PlanRuns {
  import opened Claims
  import opened Order

  type Agent = nat

  /** Where one call of the service stands, and the plan it holds. */
  datatype Task =
    | Idle
    /** Execute, before it asks for the plan's lock. */
    | Checking(key: PlanKey, plan: Plan)
    /** Execute, asking for the lock. What it has read so far no longer matters. */
    | Asking(key: PlanKey)
    /** Execute under the lock, with the plan it read again there. */
    | Running(key: PlanKey, plan: Plan)
    | Cancelling(key: PlanKey, plan: Plan)
    | Judging(key: PlanKey, plan: Plan)
    | Reversing(key: PlanKey, plan: Plan)

  datatype State = State(plans: Plans, tasks: map<Agent, Task>)

  function TaskOf(s: State, a: Agent): Task {
    if a in s.tasks then s.tasks[a] else Idle
  }

  datatype Service = Execute | Cancel | Validate | Rollback

  /** The plans a call goes on with. */
  predicate Accepts(service: Service, p: Plan) {
    match service
    case Execute => true
    case Cancel => p.state in {Draft, AwaitingApproval, Approved, Scheduled}
    case Validate => p.state in {Executed, Validating} && p.finish.At?
    case Rollback => p.state in {Executed, Validating, Validated, Failed}
  }

  function Holding(service: Service, key: PlanKey, p: Plan): Task {
    match service
    case Execute => Checking(key, p)
    case Cancel => Cancelling(key, p)
    case Validate => Judging(key, p)
    case Rollback => Reversing(key, p)
  }

  predicate Executable(p: Plan) { p.state in {Approved, Scheduled} && p.sound }

  /** The states a call may write next, by the plan it holds. A failed authorization re-check fails
      the plan whatever it is; a failed step hands it to its own rollback. */
  predicate MayWrite(t: Task, to: PlanState) {
    match t
    case Checking(_, p) => to == Failed || (to == Approved && p.state == AwaitingApproval)
    case Running(_, p) => to in (if p.state == Executing then {Executing, Executed, Failed} else {Executing, Failed})
    case Cancelling(_, p) => to == Cancelled
    case Judging(_, p) => to in (if p.state == Executed then {Validating} else {Validated, Failed})
    case Reversing(_, p) => to in (if p.state == RollingBack then {RolledBack, RollbackFailed} else {RollingBack})
    case _ => false
  }

  /** What is written: the plan as it was held, in its new state and with the time that goes with it. */
  function Written(p: Plan, to: PlanState, now: int): Plan {
    if to == Executing && p.state != Executing then p.(state := to, start := At(now))
    else if to in {Executed, RolledBack, RollbackFailed} then p.(state := to, finish := At(now))
    else p.(state := to)
  }

  /** Where a call stands once it has written p. */
  function Resume(t: Task, p: Plan): Task {
    match t
    case Checking(k, _) => if Executable(p) then Asking(k) else Idle
    case Running(k, was) =>
      if p.state == Executing then Running(k, p)
      else if p.state == Failed && was.state == Executing then Reversing(k, p)
      else Idle
    case Judging(k, _) => if p.state == Validating then Judging(k, p) else Idle
    case Reversing(k, _) => if p.state == RollingBack then Reversing(k, p) else Idle
    case _ => Idle
  }

  /** TakeDue is ClaimDuePlans, one plan at a time. lapsed says that whoever holds the plan's lock has
      outlived it. A call that returns early, or whose process dies, drops what it holds. */
  datatype Op =
    | ClaimOp(now: int, limit: nat, claimed: seq<Candidate>)
    | Create(key: PlanKey, plan: Plan)
    | TakeDue(key: PlanKey, now: int)
    | Load(who: Agent, service: Service, key: PlanKey)
    | Write(who: Agent, to: PlanState, now: int)
    | Ask(who: Agent)
    | Enter(who: Agent, lapsed: bool)
    | Drop(who: Agent)

  ghost predicate NobodyRuns(s: State, k: PlanKey) {
    forall a :: TaskOf(s, a).Running? ==> TaskOf(s, a).key != k
  }

  ghost predicate Enabled(s: State, op: Op) {
    match op
    case ClaimOp(now, limit, claimed) => Claim(s.plans, Marked(s.plans, Keys(claimed)), now, limit, claimed)
    case Create(k, p) => k !in s.plans && p.state in {AwaitingApproval, Approved} && p.start.Unset? && p.finish.Unset?
    case TakeDue(k, _) => k in s.plans && s.plans[k].state in {Approved, Scheduled}
    case Load(a, service, k) => TaskOf(s, a).Idle? && k in s.plans && Accepts(service, s.plans[k])
    case Write(a, to, _) => MayWrite(TaskOf(s, a), to) && TaskOf(s, a).key in s.plans
    case Ask(a) => TaskOf(s, a).Checking? && Executable(TaskOf(s, a).plan)
    case Enter(a, lapsed) =>
      var t := TaskOf(s, a);
      t.Asking? && t.key in s.plans && Executable(s.plans[t.key]) && (lapsed || NobodyRuns(s, t.key))
    case Drop(a) => true
  }

  ghost function Next(s: State, op: Op): State
    requires Enabled(s, op)
  {
    match op
    case ClaimOp(_, _, claimed) => s.(plans := Marked(s.plans, Keys(claimed)))
    case Create(k, p) => s.(plans := s.plans[k := p])
    case TakeDue(k, now) => s.(plans := s.plans[k := s.plans[k].(state := Preflight, start := At(now))])
    case Load(a, service, k) => s.(tasks := s.tasks[a := Holding(service, k, s.plans[k])])
    case Write(a, to, now) =>
      var t := TaskOf(s, a);
      var p := Written(t.plan, to, now);
      State(s.plans[t.key := p], s.tasks[a := Resume(t, p)])
    case Ask(a) => s.(tasks := s.tasks[a := Asking(TaskOf(s, a).key)])
    case Enter(a, _) => s.(tasks := s.tasks[a := Running(TaskOf(s, a).key, s.plans[TaskOf(s, a).key])])
    case Drop(a) => s.(tasks := s.tasks[a := Idle])
  }

  ghost predicate Plays(s: State, ops: seq<Op>)
    decreases ops
  {
    ops == [] || (Enabled(s, ops[0]) && Plays(Next(s, ops[0]), ops[1..]))
  }

  /** The state that ops lead to. */
  ghost function After(s: State, ops: seq<Op>): State
    requires Plays(s, ops)
    decreases ops
  {
    if ops == [] then s else After(Next(s, ops[0]), ops[1..])
  }

  lemma {:induction false} PlaysOn(s: State, a: seq<Op>, b: seq<Op>)
    requires Plays(s, a)
    ensures Plays(s, a + b) <==> Plays(After(s, a), b)
    ensures Plays(s, a + b) ==> After(s, a + b) == After(After(s, a), b)
    decreases a
  {
    if a == [] {
      assert a + b == b;
    } else {
      assert (a + b)[1..] == a[1..] + b;
      PlaysOn(Next(s, a[0]), a[1..], b);
    }
  }

  /** A claim of k, by some replica. */
  ghost predicate ClaimsPlan(op: Op, k: PlanKey) { op.ClaimOp? && k in Keys(op.claimed) }

  ghost predicate EndsInClaim(ops: seq<Op>, k: PlanKey) { ops != [] && ClaimsPlan(ops[|ops|-1], k) }

  // ---- what can still come to be claimed ------------------------------------------------

  /** Stored so that, with nothing in flight, it can still be executed and claimed. */
  predicate Live(p: Plan) {
    || (p.state in {AwaitingApproval, Approved, Scheduled} && p.sound)
    || (p.state == Executed && p.finish.At?)
  }

  /** A call that can bring k back to execution, whatever is stored: one that read it as awaiting
      approval and has yet to promote it, or one that is executing it. */
  predicate Able(t: Task, k: PlanKey) {
    || (t.Checking? && t.key == k && t.plan.state == AwaitingApproval && t.plan.sound)
    || (t.Running? && t.key == k)
  }

  ghost predicate SomeoneAble(s: State, k: PlanKey) { exists a :: Able(TaskOf(s, a), k) }

  ghost predicate Open(s: State, k: PlanKey) {
    k in s.plans && (Live(s.plans[k]) || SomeoneAble(s, k))
  }

  lemma ClosedStep(s: State, op: Op, k: PlanKey)
    requires Enabled(s, op) && k in s.plans && !Open(s, k)
    ensures k in Next(s, op).plans && !Open(Next(s, op), k) && !ClaimsPlan(op, k)
  {
    var t := Next(s, op);
    if op.ClaimOp? { ClaimMoves(s.plans, t.plans, op.now, op.limit, op.claimed); }
    forall a
      ensures !Able(TaskOf(t, a), k)
    {
      assert !Able(TaskOf(s, a), k);
    }
  }

  /** What is neither live nor in able hands stays so, and is in no claim. */
  lemma {:induction false} ClosedForever(s: State, ops: seq<Op>, k: PlanKey)
    requires Plays(s, ops) && k in s.plans && !Open(s, k)
    ensures k in After(s, ops).plans && !Open(After(s, ops), k)
    ensures forall i | 0 <= i < |ops| :: !ClaimsPlan(ops[i], k)
    decreases ops
  {
    if ops != [] {
      ClosedStep(s, ops[0], k);
      ClosedForever(Next(s, ops[0]), ops[1..], k);
      forall i | 0 <= i < |ops|
        ensures !ClaimsPlan(ops[i], k)
      {
        if i > 0 { assert ops[i] == ops[1..][i-1]; }
      }
    }
  }

  // ---- bringing a plan to a claim ---------------------------------------------------------

  /** A call holds a plan in a state it went on with or has written. */
  predicate HeldWell(t: Task) {
    match t
    case Running(_, p) => p.state in {Approved, Scheduled, Executing}
    case Cancelling(_, p) => p.state in {Draft, AwaitingApproval, Approved, Scheduled}
    case Judging(_, p) => p.state in {Executed, Validating}
    case Reversing(_, p) => p.state in {Executed, Validating, Validated, Failed, RollingBack}
    case _ => true
  }

  ghost predicate Sane(s: State) {
    forall a :: (!TaskOf(s, a).Idle? ==> TaskOf(s, a).key in s.plans) && HeldWell(TaskOf(s, a))
  }

  lemma SaneStep(s: State, op: Op)
    requires Sane(s) && Enabled(s, op)
    ensures Sane(Next(s, op))
  {
    var t := Next(s, op);
    assert s.plans.Keys <= t.plans.Keys;
    forall a
      ensures (!TaskOf(t, a).Idle? ==> TaskOf(t, a).key in t.plans) && HeldWell(TaskOf(t, a))
    {
      assert (!TaskOf(s, a).Idle? ==> TaskOf(s, a).key in s.plans) && HeldWell(TaskOf(s, a));
    }
  }

  lemma {:induction false} SaneRun(s: State, ops: seq<Op>)
    requires Sane(s) && Plays(s, ops)
    ensures Sane(After(s, ops))
    decreases ops
  {
    if ops != [] {
      SaneStep(s, ops[0]);
      SaneRun(Next(s, ops[0]), ops[1..]);
    }
  }

  /** No lock lapses while its holder runs. */
  predicate Locked(ops: seq<Op>) {
    forall op | op in ops :: op.Enter? ==> !op.lapsed
  }

  /** A way on from s that ends in a claim of k, and does so without a lapse if asked to. */
  ghost predicate Reclaims(s: State, k: PlanKey, locked: bool, moves: seq<Op>) {
    Plays(s, moves) && EndsInClaim(moves, k) && (locked ==> Locked(moves))
  }

  lemma First(s: State, k: PlanKey, locked: bool, op: Op, rest: seq<Op>)
    requires Enabled(s, op) && Reclaims(Next(s, op), k, locked, rest) && (locked && op.Enter? ==> !op.lapsed)
    ensures Reclaims(s, k, locked, [op] + rest)
  {
    assert ([op] + rest)[1..] == rest;
  }

  /** Everything due can be claimed at once. */
  lemma AllDue(plans: Plans, now: int) returns (all: seq<Candidate>)
    ensures Queue(all, plans, now)
  {
    SoonerOrders();
    var found := AsSequence(DueSet(plans, now));
    StableSortSorts(found, Sooner);
    all := StableSort(found, Sooner);
  }

  lemma {:induction false} AsSequence<T>(d: set<T>) returns (s: seq<T>)
    ensures multiset(s) == multiset(d)
    decreases |d|
  {
    if d == {} {
      s := [];
    } else {
      var x :| x in d;
      var rest := AsSequence(d - {x});
      s := rest + [x];
      assert d == (d - {x}) + {x};
    }
  }

  lemma OneClaim(s: State, k: PlanKey) returns (op: Op)
    requires k in s.plans && s.plans[k].state == Executed && s.plans[k].finish.At?
    ensures Enabled(s, op) && ClaimsPlan(op, k) && k in Next(s, op).plans && Next(s, op).tasks == s.tasks
  {
    var now := s.plans[k].finish.at + s.plans[k].window;
    var all := AllDue(s.plans, now);
    MultisetOfSet(all, DueSet(s.plans, now));
    DueIn(s.plans, now, CandidateOf(s.plans, k));
    op := ClaimOp(now, |all|, all);
    assert all == all[..|all|];
    assert CandidateOf(s.plans, k) in all;
  }

  lemma FromExecuted(s: State, k: PlanKey, locked: bool) returns (moves: seq<Op>)
    requires k in s.plans && s.plans[k].state == Executed && s.plans[k].finish.At?
    ensures Reclaims(s, k, locked, moves)
  {
    var op := OneClaim(s, k);
    moves := [op];
    assert Plays(Next(s, op), []);
  }

  lemma FromExecuting(s: State, a: Agent, k: PlanKey, locked: bool) returns (moves: seq<Op>)
    requires k in s.plans && TaskOf(s, a).Running? && TaskOf(s, a).key == k && TaskOf(s, a).plan.state == Executing
    ensures Reclaims(s, k, locked, moves)
  {
    var op := Write(a, Executed, 0);
    var rest := FromExecuted(Next(s, op), k, locked);
    First(s, k, locked, op, rest);
    moves := [op] + rest;
  }

  lemma FromRunning(s: State, a: Agent, k: PlanKey, locked: bool) returns (moves: seq<Op>)
    requires k in s.plans && TaskOf(s, a).Running? && TaskOf(s, a).key == k
    ensures Reclaims(s, k, locked, moves)
  {
    var op := Write(a, Executing, 0);
    var rest := FromExecuting(Next(s, op), a, k, locked);
    First(s, k, locked, op, rest);
    moves := [op] + rest;
  }

  lemma FromAsking(s: State, a: Agent, k: PlanKey, locked: bool) returns (moves: seq<Op>)
    requires k in s.plans && Executable(s.plans[k]) && TaskOf(s, a) == Asking(k) && (locked ==> NobodyRuns(s, k))
    ensures Reclaims(s, k, locked, moves)
  {
    var op := Enter(a, !locked);
    var rest := FromRunning(Next(s, op), a, k, locked);
    First(s, k, locked, op, rest);
    moves := [op] + rest;
  }

  lemma FromChecking(s: State, a: Agent, k: PlanKey, locked: bool) returns (moves: seq<Op>)
    requires k in s.plans && TaskOf(s, a).Checking? && Able(TaskOf(s, a), k) && (locked ==> NobodyRuns(s, k))
    ensures Reclaims(s, k, locked, moves)
  {
    var op := Write(a, Approved, 0);
    StillNobody(s, op, k);
    var rest := FromAsking(Next(s, op), a, k, locked);
    First(s, k, locked, op, rest);
    moves := [op] + rest;
  }

  lemma StillNobody(s: State, op: Op, k: PlanKey)
    requires Enabled(s, op) && !op.Enter?
    ensures NobodyRuns(s, k) ==> NobodyRuns(Next(s, op), k)
  {
    if NobodyRuns(s, k) {
      var t := Next(s, op);
      forall a
        ensures TaskOf(t, a).Running? ==> TaskOf(t, a).key != k
      {
        assert TaskOf(s, a).Running? ==> TaskOf(s, a).key != k;
      }
    }
  }

  /** Any call can be dropped, and its agent then execute the stored plan. */
  lemma FromStored(s: State, k: PlanKey) returns (moves: seq<Op>)
    requires k in s.plans && s.plans[k].state in {AwaitingApproval, Approved, Scheduled} && s.plans[k].sound
    ensures Reclaims(s, k, false, moves)
  {
    var s1 := Next(s, Drop(0));
    var s2 := Next(s1, Load(0, Execute, k));
    var rest: seq<Op>;
    if s.plans[k].state == AwaitingApproval {
      rest := FromChecking(s2, 0, k, false);
    } else {
      rest := FromAsking(Next(s2, Ask(0)), 0, k, false);
      First(s2, k, false, Ask(0), rest);
      rest := [Ask(0)] + rest;
    }
    First(s1, k, false, Load(0, Execute, k), rest);
    First(s, k, false, Drop(0), [Load(0, Execute, k)] + rest);
    moves := [Drop(0)] + ([Load(0, Execute, k)] + rest);
  }

  lemma CanClaim(s: State, k: PlanKey) returns (moves: seq<Op>)
    requires Sane(s) && Open(s, k)
    ensures Reclaims(s, k, false, moves)
  {
    if SomeoneAble(s, k) {
      var a :| Able(TaskOf(s, a), k);
      if TaskOf(s, a).Checking? {
        moves := FromChecking(s, a, k, false);
      } else {
        moves := FromRunning(s, a, k, false);
      }
    } else if s.plans[k].state == Executed {
      moves := FromExecuted(s, k, false);
    } else {
      moves := FromStored(s, k);
    }
  }

  // ---- exactly when a plan can be claimed, and claimed again -----------------------------------

  /** A store with no call of the service in flight. */
  predicate AtRest(s: State) { s.tasks == map[] }

  /** Whatever has happened, a stored plan can still come to be claimed if and only if it is live or
      in able hands. */
  lemma ClaimableIff(s: State, ops: seq<Op>, k: PlanKey)
    requires AtRest(s) && Plays(s, ops) && k in After(s, ops).plans
    ensures Open(After(s, ops), k) <==> exists moves :: Reclaims(After(s, ops), k, false, moves)
  {
    var t := After(s, ops);
    SaneRun(s, ops);
    if Open(t, k) {
      var moves := CanClaim(t, k);
    } else {
      forall moves
        ensures !Reclaims(t, k, false, moves)
      {
        if Plays(t, moves) { ClosedForever(t, moves, k); }
      }
    }
  }

  lemma ClaimLeaves(s: State, op: Op, k: PlanKey)
    requires Enabled(s, op) && ClaimsPlan(op, k)
    ensures k in s.plans && s.plans[k].state == Executed
    ensures k in Next(s, op).plans && Next(s, op).plans[k].state == Validating
    ensures Next(s, op).tasks == s.tasks
  {
    ClaimMoves(s.plans, Next(s, op).plans, op.now, op.limit, op.claimed);
  }

  /** The state before the last op, and the op. */
  lemma LastOp(s: State, ops: seq<Op>)
    requires Plays(s, ops) && ops != []
    ensures Plays(s, ops[..|ops|-1]) && Enabled(After(s, ops[..|ops|-1]), ops[|ops|-1])
    ensures After(s, ops) == Next(After(s, ops[..|ops|-1]), ops[|ops|-1])
  {
    var first, last := ops[..|ops|-1], ops[|ops|-1];
    assert ops == first + [last];
    PlaysPrefix(s, first, [last]);
    PlaysOn(s, first, [last]);
  }

  lemma {:induction false} PlaysPrefix(s: State, a: seq<Op>, b: seq<Op>)
    requires Plays(s, a + b)
    ensures Plays(s, a)
    decreases a
  {
    if a != [] {
      assert (a + b)[1..] == a[1..] + b;
      PlaysPrefix(Next(s, a[0]), a[1..], b);
    }
  }

  /** A plan that has just been claimed can be claimed a second time if and only if some call of
      Execute has it in able hands: read as awaiting approval before that, or still executing it. */
  lemma SecondClaimIff(s: State, ops: seq<Op>, k: PlanKey)
    requires AtRest(s) && Plays(s, ops) && EndsInClaim(ops, k)
    ensures SomeoneAble(After(s, ops), k) <==> exists moves :: Reclaims(After(s, ops), k, false, moves)
  {
    LastOp(s, ops);
    ClaimLeaves(After(s, ops[..|ops|-1]), ops[|ops|-1], k);
    ClaimableIff(s, ops, k);
  }

  /** While no lock lapses, no two calls run one plan, and what is running is not stored as executed. */
  ghost predicate RunsAlone(s: State) {
    && (forall a | TaskOf(s, a).Running? ::
          TaskOf(s, a).key in s.plans && s.plans[TaskOf(s, a).key].state != Executed)
    && forall a, b | TaskOf(s, a).Running? && TaskOf(s, b).Running? && a != b :: TaskOf(s, a).key != TaskOf(s, b).key
  }

  lemma RunsAloneStep(s: State, op: Op)
    requires RunsAlone(s) && Enabled(s, op) && (op.Enter? ==> !op.lapsed)
    ensures RunsAlone(Next(s, op))
  {
    var t := Next(s, op);
    if op.ClaimOp? { ClaimMoves(s.plans, t.plans, op.now, op.limit, op.claimed); }
    forall a | TaskOf(t, a).Running?
      ensures TaskOf(t, a).key in t.plans && t.plans[TaskOf(t, a).key].state != Executed
    {
      RunningBefore(s, op, a);
      if op.Write? && op.who != a && TaskOf(s, op.who).Running? {
        assert TaskOf(s, op.who).key != TaskOf(s, a).key;
      }
    }
    forall a, b | TaskOf(t, a).Running? && TaskOf(t, b).Running? && a != b
      ensures TaskOf(t, a).key != TaskOf(t, b).key
    {
      RunningBefore(s, op, a);
      RunningBefore(s, op, b);
    }
  }

  lemma RunningBefore(s: State, op: Op, a: Agent)
    requires Enabled(s, op) && TaskOf(Next(s, op), a).Running?
    ensures TaskOf(Next(s, op), a).key == TaskOf(s, a).key
    ensures TaskOf(s, a).Running? || (op.Enter? && op.who == a)
  {
  }

  lemma {:induction false} RunsAloneRun(s: State, ops: seq<Op>)
    requires RunsAlone(s) && Plays(s, ops) && Locked(ops)
    ensures RunsAlone(After(s, ops))
    decreases ops
  {
    if ops != [] {
      assert ops[0] in ops;
      RunsAloneStep(s, ops[0]);
      RunsAloneRun(Next(s, ops[0]), ops[1..]);
    }
  }

  /** With plan locks that outlast what runs under them, one thing is left that can bring a second
      claim: a call of Execute that read the plan as awaiting approval and has yet to promote it. */
  lemma LockedSecondClaimIff(s: State, ops: seq<Op>, k: PlanKey)
    requires AtRest(s) && Plays(s, ops) && Locked(ops) && EndsInClaim(ops, k)
    ensures (exists moves :: Reclaims(After(s, ops), k, true, moves)) <==>
      exists a :: TaskOf(After(s, ops), a).Checking? && Able(TaskOf(After(s, ops), a), k)
  {
    var first, t := ops[..|ops|-1], After(s, ops);
    LastOp(s, ops);
    ClaimLeaves(After(s, first), ops[|ops|-1], k);
    RunsAloneRun(s, first);
    assert NobodyRuns(t, k) by {
      forall a
        ensures TaskOf(t, a).Running? ==> TaskOf(t, a).key != k
      {
        assert TaskOf(t, a) == TaskOf(After(s, first), a);
      }
    }
    if a :| TaskOf(t, a).Checking? && Able(TaskOf(t, a), k) {
      var moves := FromChecking(t, a, k, true);
    } else {
      assert !SomeoneAble(t, k);
      forall moves
        ensures !Reclaims(t, k, true, moves)
      {
        if Plays(t, moves) { ClosedForever(t, moves, k); }
      }
    }
  }

  // ---- runs with more than one claim -----------------------------------------------------------

  /** The state before op number i. */
  ghost function StateAt(s: State, ops: seq<Op>, i: nat): State
    requires Plays(s, ops) && i <= |ops|
  {
    PrefixPlays(s, ops, i);
    After(s, ops[..i])
  }

  lemma PrefixPlays(s: State, ops: seq<Op>, i: nat)
    requires Plays(s, ops) && i <= |ops|
    ensures Plays(s, ops[..i]) && Plays(After(s, ops[..i]), ops[i..])
  {
    assert ops == ops[..i] + ops[i..];
    PlaysPrefix(s, ops[..i], ops[i..]);
    PlaysOn(s, ops[..i], ops[i..]);
  }

  lemma NextAt(s: State, ops: seq<Op>, i: nat)
    requires Plays(s, ops) && i < |ops|
    ensures Enabled(StateAt(s, ops, i), ops[i]) && StateAt(s, ops, i + 1) == Next(StateAt(s, ops, i), ops[i])
  {
    var t := StateAt(s, ops, i + 1);
    assert ops == ops[..i+1] + ops[i+1..];
    PlaysPrefix(s, ops[..i+1], ops[i+1..]);
    LastOp(s, ops[..i+1]);
    assert ops[..i+1][..i] == ops[..i];
  }

  /** A plan that stays in validation, as an inconclusive verdict leaves it, is in no later claim while
      nobody has it in able hands. */
  lemma InconclusiveNeverReclaimed(s: State, ops: seq<Op>, i: nat, j: nat, k: PlanKey)
    requires Plays(s, ops) && i <= j < |ops|
    requires k in StateAt(s, ops, i).plans && StateAt(s, ops, i).plans[k].state == Validating
    requires !SomeoneAble(StateAt(s, ops, i), k)
    ensures !ClaimsPlan(ops[j], k)
  {
    PrefixPlays(s, ops, i);
    ClosedForever(StateAt(s, ops, i), ops[i..], k);
    assert ops[j] == ops[i..][j-i];
  }

  /** Two claims of one run share a plan only if, right after the first, some call had it in able
      hands. */
  lemma ClaimsShareOnlyIf(s: State, ops: seq<Op>, i: nat, j: nat, k: PlanKey)
    requires Plays(s, ops) && i < j < |ops| && ClaimsPlan(ops[i], k) && ClaimsPlan(ops[j], k)
    ensures SomeoneAble(StateAt(s, ops, i + 1), k)
  {
    NextAt(s, ops, i);
    ClaimLeaves(StateAt(s, ops, i), ops[i], k);
    if !SomeoneAble(StateAt(s, ops, i + 1), k) { InconclusiveNeverReclaimed(s, ops, i + 1, j, k); }
  }

  /** So claims are disjoint when nobody has what the first took in able hands. */
  lemma ClaimsDisjoint(s: State, ops: seq<Op>, i: nat, j: nat)
    requires Plays(s, ops) && i < j < |ops| && ops[i].ClaimOp? && ops[j].ClaimOp?
    requires forall k | k in Keys(ops[i].claimed) :: !SomeoneAble(StateAt(s, ops, i + 1), k)
    ensures Keys(ops[i].claimed) !! Keys(ops[j].claimed)
  {
    forall k | k in Keys(ops[i].claimed)
      ensures k !in Keys(ops[j].claimed)
    {
      if k in Keys(ops[j].claimed) { ClaimsShareOnlyIf(s, ops, i, j, k); }
    }
  }

  /** In a run, the workers call Validate for one plan a second time only if some call had it in able
      hands right after the first claim; and each call's principal is of the plan's own tenant. */
  lemma ValidatedTwiceOnlyIf(s: State, ops: seq<Op>, i: nat, j: nat, v: PlanKey -> Verdict,
          w: PlanKey -> Verdict, m: nat, n: nat)
    requires Plays(s, ops) && i <= j < |ops| && ops[i].ClaimOp? && ops[j].ClaimOp?
    requires m < |Called(ops[i].claimed, v)| && n < |Called(ops[j].claimed, w)| && (i < j || m < n)
    ensures var first, second := CallsFor(Called(ops[i].claimed, v))[m], CallsFor(Called(ops[j].claimed, w))[n];
      && first.principal == first.plan.tenant
      && (first.plan == second.plan ==> i < j && SomeoneAble(StateAt(s, ops, i + 1), first.plan))
  {
    CalledPrefix(ops[i].claimed, v);
    CalledPrefix(ops[j].claimed, w);
    var a, b := ops[i].claimed[m], ops[j].claimed[n];
    assert a.key in Keys(ops[i].claimed) && b.key in Keys(ops[j].claimed);
    if i < j {
      if a.key == b.key { ClaimsShareOnlyIf(s, ops, i, j, a.key); }
    } else {
      NextAt(s, ops, i);
      var t := StateAt(s, ops, i);
      ClaimTakesSoonest(t.plans, Next(t, ops[i]).plans, ops[i].now, ops[i].limit, ops[i].claimed);
    }
  }

  /** A plan claimed behind one whose call panics is stranded: it got no call, it is in validation,
      and a later claim takes it only if some call had it in able hands. */
  lemma StrandedForGood(s: State, ops: seq<Op>, i: nat, v: PlanKey -> Verdict, c: Candidate)
    requires Plays(s, ops) && i < |ops| && ops[i].ClaimOp?
    requires c in ops[i].claimed && c !in Called(ops[i].claimed, v)
    ensures forall p | p in CallsFor(Called(ops[i].claimed, v)) :: p.plan != c.key
    ensures var t := StateAt(s, ops, i + 1);
      && c.key in t.plans && t.plans[c.key].state == Validating
      && (SomeoneAble(t, c.key) || forall j | i < j < |ops| :: !ClaimsPlan(ops[j], c.key))
  {
    var t, claimed, called := StateAt(s, ops, i), ops[i].claimed, Called(ops[i].claimed, v);
    NextAt(s, ops, i);
    ClaimTakesSoonest(t.plans, Next(t, ops[i]).plans, ops[i].now, ops[i].limit, claimed);
    assert ClaimsPlan(ops[i], c.key);
    ClaimLeaves(t, ops[i], c.key);
    CalledPrefix(claimed, v);
    var n :| 0 <= n < |claimed| && claimed[n] == c;
    forall m | 0 <= m < |called|
      ensures called[m].key != c.key
    {
      assert called[m] == claimed[m];
    }
    forall j | i < j < |ops| && ClaimsPlan(ops[j], c.key)
      ensures SomeoneAble(StateAt(s, ops, i + 1), c.key)
    {
      ClaimsShareOnlyIf(s, ops, i, j, c.key);
    }
  }

  // ---- two such runs -----------------------------------------------------------------------------

  lemma Then(s: State, ops: seq<Op>, op: Op)
    requires Plays(s, ops) && Enabled(After(s, ops), op)
    ensures Plays(s, ops + [op]) && After(s, ops + [op]) == Next(After(s, ops), op)
  {
    PlaysOn(s, ops, [op]);
    assert Plays(Next(After(s, ops), op), []);
  }

  lemma ThenAll(s: State, ops: seq<Op>, k: PlanKey, moves: seq<Op>)
    requires Plays(s, ops) && Reclaims(After(s, ops), k, true, moves) && Locked(ops)
    ensures Plays(s, ops + moves) && Locked(ops + moves) && EndsInClaim(ops + moves, k)
    ensures After(s, ops + moves) == After(After(s, ops), moves)
  {
    PlaysOn(s, ops, moves);
  }

  /** One call of Execute, from the plan it read to the step that marks it executing. */
  lemma Begins(s: State, a: Agent, k: PlanKey) returns (ops: seq<Op>)
    requires k in s.plans && TaskOf(s, a).Checking? && Able(TaskOf(s, a), k) && NobodyRuns(s, k)
    ensures Plays(s, ops) && Locked(ops)
    ensures var t := After(s, ops);
      && k in t.plans && TaskOf(t, a).Running? && TaskOf(t, a).key == k && TaskOf(t, a).plan.state == Executing
      && forall b | b != a :: TaskOf(t, b) == TaskOf(s, b)
  {
    var promote, enter, mark := Write(a, Approved, 0), Enter(a, false), Write(a, Executing, 1);
    StillNobody(s, promote, k);
    Then(s, [], promote);
    Then(s, [promote], enter);
    Then(s, [promote] + [enter], mark);
    ops := [promote] + [enter] + [mark];
  }

  /** On until it is executed, and a claim after that. */
  lemma RunsToClaim(s: State, a: Agent, k: PlanKey) returns (ops: seq<Op>)
    requires k in s.plans && TaskOf(s, a).Checking? && Able(TaskOf(s, a), k) && NobodyRuns(s, k)
    ensures Plays(s, ops) && Locked(ops) && EndsInClaim(ops, k)
    ensures var t := After(s, ops);
      k in t.plans && NobodyRuns(t, k) && forall b | b != a :: TaskOf(t, b) == TaskOf(s, b)
  {
    var begun := Begins(s, a, k);
    var finish := Write(a, Executed, 2);
    Then(s, begun, finish);
    var claim := OneClaim(After(s, begun + [finish]), k);
    Then(s, begun + [finish], claim);
    ops := begun + [finish] + [claim];
    var t := After(s, ops);
    assert TaskOf(t, a) == Idle;
    assert forall b | b != a :: TaskOf(t, b) == TaskOf(s, b);
    forall b
      ensures TaskOf(t, b).Running? ==> TaskOf(t, b).key != k
    {
      assert TaskOf(s, b).Running? ==> TaskOf(s, b).key != k;
    }
  }

  /** Two calls of Execute that read one plan before anything else happened to it. */
  lemma TwoRead(k: PlanKey, p: Plan) returns (s: State, ops: seq<Op>)
    ensures AtRest(s) && Plays(s, ops) && Locked(ops)
    ensures After(s, ops) == State(map[k := p], map[1 := Checking(k, p), 2 := Checking(k, p)])
  {
    s := State(map[k := p], map[]);
    Then(s, [], Load(1, Execute, k));
    Then(s, [Load(1, Execute, k)], Load(2, Execute, k));
    ops := [Load(1, Execute, k)] + [Load(2, Execute, k)];
  }

  /** A plan whose execution is under way is failed by a second call of Execute, whose authorization
      re-check comes before the lock. The first call then writes it executed, and it is claimed. */
  lemma FailedRunsOn(k: PlanKey) returns (s: State, ops: seq<Op>, moves: seq<Op>)
    ensures AtRest(s) && Plays(s, ops + moves) && Locked(ops + moves) && Plays(s, ops)
    ensures k in After(s, ops).plans && After(s, ops).plans[k].state == Failed
    ensures EndsInClaim(ops + moves, k)
  {
    s, ops := TwoRead(k, Plan(AwaitingApproval, Unset, Unset, 0, true));
    var on := Begins(After(s, ops), 1, k);
    PlaysOn(s, ops, on);
    Then(s, ops + on, Write(2, Failed, 2));
    ops := ops + on + [Write(2, Failed, 2)];
    moves := FromExecuting(After(s, ops), 1, k, true);
    ThenAll(s, ops, k, moves);
  }

  /** Two calls of Execute read a plan that awaits approval. One promotes it and executes it, and it is
      claimed; the other then writes it approved again, executes it again, and it is claimed again. */
  lemma ClaimedTwice(k: PlanKey) returns (s: State, ops: seq<Op>, moves: seq<Op>)
    ensures AtRest(s) && Plays(s, ops + moves) && Locked(ops + moves)
    ensures EndsInClaim(ops, k) && moves != [] && EndsInClaim(ops + moves, k)
  {
    s, ops := TwoRead(k, Plan(AwaitingApproval, Unset, Unset, 0, true));
    var t := After(s, ops);
    assert NobodyRuns(t, k);
    var on := RunsToClaim(t, 1, k);
    PlaysOn(s, ops, on);
    assert TaskOf(After(t, on), 2) == TaskOf(t, 2);
    ops := ops + on;
    moves := FromChecking(After(s, ops), 2, k, true);
    ThenAll(s, ops, k, moves);
  }

  // ---- the lifecycle, as it is when nothing is stale --------------------------------------------

  /** Where a plan can go from where it is stored. */
  predicate Moves(from: PlanState, to: PlanState) {
    || to == from || to == Failed
    || (to == Approved && from == AwaitingApproval)
    || (to == Preflight && from in {Approved, Scheduled})
    || (to == Executing && from in {Approved, Scheduled})
    || (to == Executed && from == Executing)
    || (to == Validating && from == Executed)
    || (to == Validated && from == Validating)
    || (to == RollingBack && from in {Executed, Validating, Validated, Failed})
    || (to in {RolledBack, RollbackFailed} && from == RollingBack)
    || (to == Cancelled && from in {Draft, AwaitingApproval, Approved, Scheduled})
  }

  /** Whoever writes k holds it as it is stored. */
  ghost predicate Fresh(s: State, op: Op, k: PlanKey) {
    op.Write? && MayWrite(TaskOf(s, op.who), op.to) && TaskOf(s, op.who).key == k ==>
      k in s.plans && TaskOf(s, op.who).plan == s.plans[k]
  }

  /** A fresh step moves a plan along its lifecycle, and sets its start when it begins to execute and
      its finish when it is executed or rolled back, and at no other time. */
  lemma FreshMoves(s: State, op: Op, k: PlanKey)
    requires Sane(s) && Enabled(s, op) && k in s.plans && Fresh(s, op, k)
    ensures k in Next(s, op).plans
    ensures var p, q := s.plans[k], Next(s, op).plans[k];
      && Moves(p.state, q.state)
      && q.window == p.window && q.sound == p.sound
      && (if q.state in {Executing, Preflight} && q.state != p.state then q.start == At(op.now) else q.start == p.start)
      && (if q.state in {Executed, RolledBack, RollbackFailed} && q.state != p.state
          then q.finish == At(op.now) else q.finish == p.finish)
  {
    if op.ClaimOp? { ClaimMoves(s.plans, Next(s, op).plans, op.now, op.limit, op.claimed); }
    if op.Write? { assert HeldWell(TaskOf(s, op.who)); }
  }

  /** Which call writes which state: execution is Execute's alone, and only calls of Execute and of
      Validate fail a plan. */
  lemma WhoWrites(t: Task, to: PlanState)
    ensures MayWrite(t, Failed) <==> t.Checking? || t.Running? || (t.Judging? && t.plan.state != Executed)
    ensures MayWrite(t, to) && to != Failed ==>
      match to
      case Approved => t.Checking? && t.plan.state == AwaitingApproval
      case Executing => t.Running?
      case Executed => t.Running? && t.plan.state == Executing
      case Validating => t.Judging?
      case Validated => t.Judging?
      case Cancelled => t.Cancelling?
      case _ => t.Reversing? && to in {RollingBack, RolledBack, RollbackFailed}
  {
  }

  /** And each such move is one some fresh step makes. */
  lemma EveryMove(k: PlanKey, from: PlanState, to: PlanState) returns (s: State, op: Op)
    requires Moves(from, to) && from != to
    ensures Sane(s) && k in s.plans && s.plans[k].state == from && Fresh(s, op, k)
    ensures Enabled(s, op) && k in Next(s, op).plans && Next(s, op).plans[k].state == to
  {
    var p := Plan(from, At(1), At(2), 0, true);
    var task :=
      if to in {Failed, Approved} then Checking(k, p)
      else if to in {Executing, Executed} then Running(k, p)
      else if to in {Validating, Validated} then Judging(k, p)
      else if to == Cancelled then Cancelling(k, p)
      else if to in {RollingBack, RolledBack, RollbackFailed} then Reversing(k, p)
      else Idle;
    s := State(map[k := p], map[1 := task]);
    op := if to == Preflight then TakeDue(k, 3) else Write(1, to, 3);
    assert TaskOf(s, 1) == task && forall a | a != 1 :: TaskOf(s, a) == Idle;
  }

  // ---- the start of an executed plan ---------------------------------------------------------------

  predicate Started(p: Plan) { p.state in {Executing, Executed, Validating} ==> p.start.At? }

  /** Plans that are executing or further on have a start, wherever they are. */
  ghost predicate AllStarted(s: State) {
    && (forall k | k in s.plans :: Started(s.plans[k]))
    && forall a | TaskOf(s, a).Running? || TaskOf(s, a).Judging? :: Started(TaskOf(s, a).plan)
  }

  lemma WrittenStarted(t: Task, to: PlanState, now: int)
    requires MayWrite(t, to) && (t.Running? || t.Judging? ==> Started(t.plan))
    ensures Started(Written(t.plan, to, now))
  {
  }

  lemma AllStartedStep(s: State, op: Op)
    requires AllStarted(s) && Enabled(s, op)
    ensures AllStarted(Next(s, op))
  {
    var t := Next(s, op);
    if op.ClaimOp? { ClaimMoves(s.plans, t.plans, op.now, op.limit, op.claimed); }
    if op.Write? { WrittenStarted(TaskOf(s, op.who), op.to, op.now); }
    forall a | TaskOf(t, a).Running? || TaskOf(t, a).Judging?
      ensures Started(TaskOf(t, a).plan)
    {
      assert TaskOf(s, a).Running? || TaskOf(s, a).Judging? ==> Started(TaskOf(s, a).plan);
    }
  }

  /** In a store whose executed plans have a start, the service never brings one to validation without:
      the plan that makes Validate panic has to be put there by something else. */
  lemma {:induction false} ServicesSetStart(s: State, ops: seq<Op>)
    requires AllStarted(s) && Plays(s, ops)
    ensures AllStarted(After(s, ops))
    decreases ops
  {
    if ops != [] {
      AllStartedStep(s, ops[0]);
      ServicesSetStart(Next(s, ops[0]), ops[1..]);
    }
  }
}
