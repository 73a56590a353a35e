/** What one call of the automation service (internal/application/automation) makes of a plan when
    nothing else touches it, told by the stored plan alone. */
module PlanCalls {
  import opened Claims
  import opened PlanRuns

  /** One thing a does between loading a plan and letting go of it; its lock does not lapse. */
  predicate Goes(op: Op, a: Agent) {
    match op
    case Write(who, _, _) => who == a
    case Ask(who) => who == a
    case Enter(who, lapsed) => who == a && !lapsed
    case Drop(who) => who == a
    case _ => false
  }

  /** ops is all or the beginning of a's call of service for k, undisturbed, and leaves k in state to.
      A call that does not go on with the plan is no ops at all. */
  ghost predicate Leaves(s: State, a: Agent, service: Service, k: PlanKey, to: PlanState, ops: seq<Op>) {
    && Plays(s, ops) && (ops == [] || (ops[0] == Load(a, service, k) && forall op | op in ops[1..] :: Goes(op, a)))
    && k in After(s, ops).plans && After(s, ops).plans[k].state == to
  }

  // ---- from the middle of a call ------------------------------------------------------------------

  /** The call is about k, and holds it as it is stored. */
  predicate Fits(t: Task, k: PlanKey, p: Plan) {
    match t
    case Idle => true
    case Asking(key) => key == k
    case Checking(key, q) => key == k && q == p
    case Running(key, q) => key == k && q == p
    case Cancelling(key, q) => key == k && q == p
    case Judging(key, q) => key == k && q == p
    case Reversing(key, q) => key == k && q == p
  }

  /** Where a call that stands at t can leave p. */
  predicate Ends(t: Task, p: Plan, to: PlanState) {
    to == p.state ||
    match t
    case Idle => false
    case Checking(_, _) =>
      || to == Failed || (to == Approved && p.state == AwaitingApproval)
      || (p.sound && p.state in {AwaitingApproval, Approved, Scheduled} && Executes(to))
    case Asking(_) => Executable(p) && Executes(to)
    case Running(_, _) => Executes(to)
    case Cancelling(_, _) => to == Cancelled
    case Judging(_, _) => to in {Validated, Failed} || (to == Validating && p.state == Executed)
    case Reversing(_, _) => to in {RollingBack, RolledBack, RollbackFailed}
  }

  predicate Executes(to: PlanState) {
    to in {Executing, Executed, Failed, RollingBack, RolledBack, RollbackFailed}
  }

  ghost predicate Midway(s: State, a: Agent, k: PlanKey) {
    k in s.plans && Fits(TaskOf(s, a), k, s.plans[k])
  }

  lemma WriteEnds(t: Task, k: PlanKey, p: Plan, written: PlanState, now: int, to: PlanState)
    requires Fits(t, k, p) && MayWrite(t, written)
    ensures var q := Written(t.plan, written, now);
      Fits(Resume(t, q), k, q) && (Ends(Resume(t, q), q, to) ==> Ends(t, p, to))
  {
  }

  lemma EndsStep(s: State, op: Op, a: Agent, k: PlanKey, to: PlanState)
    requires Midway(s, a, k) && Enabled(s, op) && Goes(op, a)
    ensures Midway(Next(s, op), a, k)
    ensures Ends(TaskOf(Next(s, op), a), Next(s, op).plans[k], to) ==> Ends(TaskOf(s, a), s.plans[k], to)
  {
    if op.Write? { WriteEnds(TaskOf(s, a), k, s.plans[k], op.to, op.now, to); }
  }

  lemma {:induction false} EndsOnly(s: State, ops: seq<Op>, a: Agent, k: PlanKey)
    requires Midway(s, a, k) && Plays(s, ops) && forall op | op in ops :: Goes(op, a)
    ensures k in After(s, ops).plans && Ends(TaskOf(s, a), s.plans[k], After(s, ops).plans[k].state)
    decreases ops
  {
    if ops != [] {
      var t := Next(s, ops[0]);
      assert Goes(ops[0], a);
      EndsStep(s, ops[0], a, k, s.plans[k].state);
      EndsOnly(t, ops[1..], a, k);
      EndsStep(s, ops[0], a, k, After(t, ops[1..]).plans[k].state);
    }
  }

  // ---- getting there ---------------------------------------------------------------------------------

  /** What the call does next if it is to leave p in state to. */
  function Toward(t: Task, p: Plan, to: PlanState, a: Agent): Op {
    match t
    case Checking(_, _) =>
      if to == Failed then Write(a, Failed, 0)
      else if p.state == AwaitingApproval then Write(a, Approved, 0)
      else Ask(a)
    case Asking(_) => Enter(a, false)
    case Running(_, _) =>
      if p.state != Executing then Write(a, if to == Failed then Failed else Executing, 0)
      else Write(a, if to == Executed then Executed else Failed, 0)
    case Judging(_, _) => Write(a, if p.state == Executed then Validating else to, 0)
    case Reversing(_, _) => Write(a, if p.state == RollingBack then to else RollingBack, 0)
    case _ => Write(a, to, 0)
  }

  /** How far it is at most from done. */
  function Left(t: Task, p: Plan): nat {
    match t
    case Checking(_, _) => if p.state == AwaitingApproval then 7 else 6
    case Asking(_) => 5
    case Running(_, _) => if p.state == Executing then 3 else 4
    case Reversing(_, _) => if p.state == RollingBack then 1 else 2
    case Judging(_, _) => if p.state == Executed then 2 else 1
    case Cancelling(_, _) => 1
    case Idle => 0
  }

  lemma WriteToward(t: Task, k: PlanKey, p: Plan, to: PlanState, a: Agent)
    requires Fits(t, k, p) && Ends(t, p, to) && to != p.state && Toward(t, p, to, a).Write?
    ensures var op := Toward(t, p, to, a);
      && MayWrite(t, op.to)
      && var q := Written(t.plan, op.to, op.now);
         Ends(Resume(t, q), q, to) && Left(Resume(t, q), q) < Left(t, p)
  {
  }

  lemma TowardStep(s: State, a: Agent, k: PlanKey, to: PlanState)
    requires Midway(s, a, k) && Ends(TaskOf(s, a), s.plans[k], to) && to != s.plans[k].state
    requires Unlocked(s, a, k)
    ensures var op := Toward(TaskOf(s, a), s.plans[k], to, a);
      && Enabled(s, op) && Goes(op, a) && Midway(Next(s, op), a, k)
      && Ends(TaskOf(Next(s, op), a), Next(s, op).plans[k], to)
      && Left(TaskOf(Next(s, op), a), Next(s, op).plans[k]) < Left(TaskOf(s, a), s.plans[k])
  {
    var t, p := TaskOf(s, a), s.plans[k];
    var op := Toward(t, p, to, a);
    if op.Write? {
      WriteToward(t, k, p, to, a);
      WriteEnds(t, k, p, op.to, op.now, to);
    }
  }

  /** a has no lock to ask for, or can have it. */
  ghost predicate Unlocked(s: State, a: Agent, k: PlanKey) {
    TaskOf(s, a).Checking? || TaskOf(s, a).Asking? ==> NobodyRuns(s, k)
  }

  lemma StillUnlocked(s: State, op: Op, a: Agent, k: PlanKey)
    requires Enabled(s, op) && Goes(op, a) && Unlocked(s, a, k)
    ensures Unlocked(Next(s, op), a, k)
  {
    if !op.Enter? { StillNobody(s, op, k); }
  }

  lemma {:induction false} GetsThere(s: State, a: Agent, k: PlanKey, to: PlanState) returns (ops: seq<Op>)
    requires Midway(s, a, k) && Ends(TaskOf(s, a), s.plans[k], to)
    requires Unlocked(s, a, k)
    ensures Plays(s, ops) && forall op | op in ops :: Goes(op, a)
    ensures k in After(s, ops).plans && After(s, ops).plans[k].state == to
    decreases Left(TaskOf(s, a), s.plans[k])
  {
    if to == s.plans[k].state {
      ops := [];
    } else {
      TowardStep(s, a, k, to);
      var op := Toward(TaskOf(s, a), s.plans[k], to, a);
      StillUnlocked(s, op, a, k);
      var rest := GetsThere(Next(s, op), a, k, to);
      ops := [op] + rest;
      assert ops[1..] == rest;
    }
  }

  // ---- the whole call -----------------------------------------------------------------------------------

  lemma LoadFits(s: State, a: Agent, service: Service, k: PlanKey)
    requires k in s.plans && TaskOf(s, a).Idle? && Accepts(service, s.plans[k])
    ensures var t := Next(s, Load(a, service, k));
      t.plans == s.plans && TaskOf(t, a) == Holding(service, k, s.plans[k]) && Midway(t, a, k)
  {
  }

  lemma LeavesOnly(s: State, a: Agent, service: Service, k: PlanKey, to: PlanState, ops: seq<Op>)
    requires k in s.plans && TaskOf(s, a).Idle? && Leaves(s, a, service, k, to, ops) && ops != []
    ensures Accepts(service, s.plans[k]) && Ends(Holding(service, k, s.plans[k]), s.plans[k], to)
  {
    LoadFits(s, a, service, k);
    EndsOnly(Next(s, Load(a, service, k)), ops[1..], a, k);
  }

  lemma LeavesAll(s: State, a: Agent, service: Service, k: PlanKey, to: PlanState) returns (ops: seq<Op>)
    requires k in s.plans && TaskOf(s, a).Idle? && NobodyRuns(s, k)
    requires Accepts(service, s.plans[k]) && Ends(Holding(service, k, s.plans[k]), s.plans[k], to)
    ensures Leaves(s, a, service, k, to, ops)
  {
    var load := Load(a, service, k);
    LoadFits(s, a, service, k);
    StillNobody(s, load, k);
    var rest := GetsThere(Next(s, load), a, k, to);
    ops := [load] + rest;
    assert ops[1..] == rest;
  }

  /** Exactly where one undisturbed call can leave a stored plan. */
  lemma CallReaches(s: State, a: Agent, service: Service, k: PlanKey, to: PlanState)
    requires k in s.plans && TaskOf(s, a).Idle? && NobodyRuns(s, k)
    ensures (exists ops :: Leaves(s, a, service, k, to, ops)) <==>
      var p := s.plans[k];
      to == p.state ||
      match service
      case Execute =>
        || to == Failed || (to == Approved && p.state == AwaitingApproval)
        || (p.sound && p.state in {AwaitingApproval, Approved, Scheduled} &&
            to in {Executing, Executed, RollingBack, RolledBack, RollbackFailed})
      case Cancel => to == Cancelled && p.state in {Draft, AwaitingApproval, Approved, Scheduled}
      case Validate =>
        p.finish.At? && ((to in {Validated, Failed} && p.state in {Executed, Validating}) ||
                         (to == Validating && p.state == Executed))
      case Rollback =>
        to in {RollingBack, RolledBack, RollbackFailed} && p.state in {Executed, Validating, Validated, Failed}
  {
    var p := s.plans[k];
    if ops :| Leaves(s, a, service, k, to, ops) && ops != [] {
      LeavesOnly(s, a, service, k, to, ops);
    }
    if to == p.state {
      assert Leaves(s, a, service, k, to, []);
    } else if Accepts(service, p) && Ends(Holding(service, k, p), p, to) {
      var ops := LeavesAll(s, a, service, k, to);
    }
  }

  /** A plan comes into the store awaiting approval or approved, with neither start nor finish. */
  lemma PlansBegin(s: State, k: PlanKey, p: Plan)
    requires Sane(s) && k !in s.plans
    ensures (exists op :: Enabled(s, op) && k in Next(s, op).plans && Next(s, op).plans[k] == p) <==>
      p.state in {AwaitingApproval, Approved} && p.start.Unset? && p.finish.Unset?
  {
    if p.state in {AwaitingApproval, Approved} && p.start.Unset? && p.finish.Unset? {
      assert Enabled(s, Create(k, p)) && Next(s, Create(k, p)).plans[k] == p;
    }
  }
}
