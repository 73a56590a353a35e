/** The lease protocol of the background workers: the lock table behind ports.Locker
    (internal/adapters/memstore/locker.go) and every run of the replicas that share it. */
module Lease {

  type Key = string
  type Token = nat
  type Agent = nat   // one worker goroutine of one replica

  datatype LockState = LockState(token: Token, expiresAt: int)

  type Locks = map<Key, LockState>

  predicate Expired(l: LockState, now: int) { now >= l.expiresAt }

  const DEFAULT_TTL := 30_000_000_000

  function EffectiveTTL(ttl: int): (r: int)
    ensures r > 0
  {
    if ttl <= 0 then DEFAULT_TTL else ttl
  }

  /** A lock that has not expired at now stands at key: Acquire answers ErrConflict. */
  predicate Blocked(locks: Locks, key: Key, now: int) {
    key in locks && !Expired(locks[key], now)
  }

  function Taken(locks: Locks, key: Key, token: Token, now: int, ttl: int): Locks {
    locks[key := LockState(token, now + EffectiveTTL(ttl))]
  }

  predicate Holds(locks: Locks, key: Key, token: Token) {
    key in locks && locks[key].token == token
  }

  function Released(locks: Locks, key: Key, token: Token): Locks {
    if Holds(locks, key, token) then locks - {key} else locks
  }

  class LockTable {
    var locks: Locks

    constructor ()
      ensures locks == map[]
    {
      locks := map[];
    }

    /** now was read before the table was locked, so it may be older than the last call's. */
    method Acquire(key: Key, token: Token, ttl: int, now: int) returns (ok: bool)
      modifies this
      ensures ok <==> !(key in old(locks) && now < old(locks)[key].expiresAt)
      ensures ok && ttl > 0 ==> locks == old(locks)[key := LockState(token, now + ttl)]
      ensures ok && ttl <= 0 ==> locks == old(locks)[key := LockState(token, now + 30_000_000_000)]
      ensures !ok ==> locks == old(locks)
      ensures ok ==> locks == Taken(old(locks), key, token, now, ttl)
    {
      var d := if ttl <= 0 then DEFAULT_TTL else ttl;
      if key in locks && !Expired(locks[key], now) {
        return false;
      }
      locks := locks[key := LockState(token, now + d)];
      return true;
    }

    /** The release closure: a no-op unless the caller's token is still the lock's. */
    method Release(key: Key, token: Token)
      modifies this
      ensures locks == Released(old(locks), key, token)
      ensures locks == if key in old(locks) && old(locks)[key].token == token then old(locks) - {key} else old(locks)
    {
      if key in locks && locks[key].token == token {
        locks := locks - {key};
      }
    }
  }

  // ---- the protocol -----------------------------------------------------------

  /** Where a worker goroutine stands. Inside: its body runs under the lease it was given. */
  datatype Phase = Idle | Inside(key: Key, token: Token, deadline: int) | Crashed

  datatype State = State(clock: int, locks: Locks, nextToken: Token, agents: map<Agent, Phase>)

  datatype Step =
    | Tick(ns: nat)
    | Acquire(who: Agent, key: Key, ttl: int, readAt: int)
    | Release(who: Agent)
    | Crash(who: Agent)
    | Restart(who: Agent)

  function PhaseOf(s: State, a: Agent): Phase {
    if a in s.agents then s.agents[a] else Idle
  }

  predicate Enabled(s: State, step: Step) {
    match step
    case Tick(_) => true
    case Acquire(a, _, _, readAt) => PhaseOf(s, a) == Idle && readAt <= s.clock
    case Release(a) => PhaseOf(s, a).Inside?
    case Crash(a) => true
    case Restart(a) => PhaseOf(s, a) == Crashed
  }

  function Next(s: State, step: Step): State
    requires Enabled(s, step)
  {
    match step
    case Tick(ns) => s.(clock := s.clock + ns)
    case Acquire(a, key, ttl, readAt) =>
      if Blocked(s.locks, key, readAt) then s
      else s.(locks := Taken(s.locks, key, s.nextToken, readAt, ttl),
              nextToken := s.nextToken + 1,
              agents := s.agents[a := Inside(key, s.nextToken, readAt + EffectiveTTL(ttl))])
    case Release(a) =>
      var p := PhaseOf(s, a);
      s.(locks := Released(s.locks, p.key, p.token), agents := s.agents[a := Idle])
    case Crash(a) => s.(agents := s.agents[a := Crashed])
    case Restart(a) => s.(agents := s.agents[a := Idle])
  }

  ghost predicate Initial(s: State) {
    s.locks == map[] && s.agents == map[]
  }

  /** run[0] is initial and every state follows from the one before by some step. */
  ghost predicate Run(run: seq<State>, steps: seq<Step>) {
    && |run| == |steps| + 1 && Initial(run[0])
    && forall i | 0 <= i < |steps| :: Enabled(run[i], steps[i]) && run[i+1] == Next(run[i], steps[i])
  }

  ghost predicate In(s: State, a: Agent, key: Key) {
    PhaseOf(s, a).Inside? && PhaseOf(s, a).key == key
  }

  /** The body still runs within the lease it was given. */
  ghost predicate InTime(s: State, a: Agent)
    requires PhaseOf(s, a).Inside?
  {
    s.clock < PhaseOf(s, a).deadline
  }

  /** Tokens in the table are past ones, each at one key. */
  ghost predicate LocksOK(s: State) {
    && (forall k | k in s.locks :: s.locks[k].token < s.nextToken)
    && (forall k, l | k in s.locks && l in s.locks && k != l :: s.locks[k].token != s.locks[l].token)
  }

  /** A running body holds a past token of its own, and its lock as long as it is in time. */
  ghost predicate AgentOK(s: State, a: Agent) {
    var p := PhaseOf(s, a);
    p.Inside? ==> p.token < s.nextToken && (InTime(s, a) ==> Holds(s.locks, p.key, p.token))
  }

  ghost predicate TokensApart(s: State, a: Agent, b: Agent) {
    PhaseOf(s, a).Inside? && PhaseOf(s, b).Inside? && a != b ==> PhaseOf(s, a).token != PhaseOf(s, b).token
  }

  /** A lock with a running body's token is that body's lock. */
  ghost predicate OwnLock(s: State, a: Agent, k: Key) {
    var p := PhaseOf(s, a);
    p.Inside? && Holds(s.locks, k, p.token) ==> k == p.key && s.locks[k].expiresAt == p.deadline
  }

  /** What every run keeps, however long bodies take and wherever replicas crash. */
  ghost predicate Inv(s: State) {
    && LocksOK(s)
    && (forall a :: AgentOK(s, a))
    && (forall a, b :: TokensApart(s, a, b))
    && (forall a, k :: OwnLock(s, a, k))
  }

  ghost predicate Granted(s: State, step: Step) {
    step.Acquire? && Enabled(s, step) && !Blocked(s.locks, step.key, step.readAt)
  }

  lemma PhaseStep(s: State, step: Step, a: Agent)
    requires Enabled(s, step)
    ensures var p, q := PhaseOf(s, a), PhaseOf(Next(s, step), a);
      q.Inside? && q != p ==>
        Granted(s, step) && a == step.who && q == Inside(step.key, s.nextToken, step.readAt + EffectiveTTL(step.ttl))
  {
  }

  lemma LocksStep(s: State, step: Step)
    requires LocksOK(s) && Enabled(s, step)
    ensures LocksOK(Next(s, step))
  {
  }

  lemma AgentStep(s: State, step: Step, a: Agent)
    requires Inv(s) && Enabled(s, step)
    ensures AgentOK(Next(s, step), a)
  {
    PhaseStep(s, step, a);
    assert AgentOK(s, a);
    if step.Release? {
      assert AgentOK(s, step.who) && TokensApart(s, a, step.who);
    } else if PhaseOf(s, a).Inside? {
      assert OwnLock(s, a, PhaseOf(s, a).key);
    }
  }

  lemma StepKeeps(s: State, step: Step)
    requires Inv(s) && Enabled(s, step)
    ensures Inv(Next(s, step))
  {
    var s' := Next(s, step);
    LocksStep(s, step);
    forall a ensures AgentOK(s', a) { AgentStep(s, step, a); }
    forall a, b ensures TokensApart(s', a, b) {
      PhaseStep(s, step, a);
      PhaseStep(s, step, b);
      assert AgentOK(s, a) && AgentOK(s, b) && TokensApart(s, a, b);
    }
    forall a, k ensures OwnLock(s', a, k) {
      PhaseStep(s, step, a);
      assert AgentOK(s, a) && OwnLock(s, a, k);
    }
  }

  lemma {:induction false} RunKeeps(run: seq<State>, steps: seq<Step>, i: nat)
    requires Run(run, steps) && i < |run|
    ensures Inv(run[i])
  {
    if i > 0 {
      RunKeeps(run, steps, i - 1);
      StepKeeps(run[i-1], steps[i-1]);
    }
  }

  /** With no assumption on how long bodies take: at most one unexpired holder a key. */
  lemma OneUnexpiredHolder(run: seq<State>, steps: seq<Step>, i: nat, a: Agent, b: Agent, key: Key)
    requires Run(run, steps) && i < |run|
    requires In(run[i], a, key) && InTime(run[i], a) && In(run[i], b, key) && InTime(run[i], b)
    ensures a == b
  {
    RunKeeps(run, steps, i);
    assert AgentOK(run[i], a) && AgentOK(run[i], b) && TokensApart(run[i], a, b);
  }

  /** No tenant is worked twice at once, in any run in which every body ends before its lease
      does: an expired lease belongs to nobody still inside. */
  lemma MutualExclusion(run: seq<State>, steps: seq<Step>)
    requires Run(run, steps)
    requires forall i, a | 0 <= i < |run| && PhaseOf(run[i], a).Inside? :: InTime(run[i], a)
    ensures forall i, a, b, key | 0 <= i < |run| && In(run[i], a, key) && In(run[i], b, key) :: a == b
  {
    forall i, a, b, key | 0 <= i < |run| && In(run[i], a, key) && In(run[i], b, key)
      ensures a == b
    {
      OneUnexpiredHolder(run, steps, i, a, b, key);
    }
  }

  /** Whoever gets in beside a running body finds that body's lease run out. */
  lemma OverlapNeedsOverrun(run: seq<State>, steps: seq<Step>, i: nat, a: Agent)
    requires Run(run, steps) && i < |steps| && steps[i].Acquire? && a != steps[i].who
    requires In(run[i], a, steps[i].key) && In(run[i+1], steps[i].who, steps[i].key)
    ensures !InTime(run[i], a)
  {
    RunKeeps(run, steps, i);
    assert AgentOK(run[i], a) && OwnLock(run[i], a, steps[i].key);
  }

  /** Exactly when exclusion fails. In any state of any run, with a inside key, an idle b that asks
      now gets in beside a if and only if a's lease has run out and no later grant of the key stands
      unexpired. */
  lemma JoinsIff(run: seq<State>, steps: seq<Step>, i: nat, a: Agent, b: Agent, key: Key, ttl: int)
    requires Run(run, steps) && i < |run| && In(run[i], a, key) && PhaseOf(run[i], b) == Idle
    ensures var s := run[i];
      In(Next(s, Acquire(b, key, ttl, s.clock)), b, key) <==>
        !InTime(s, a) &&
        !(key in s.locks && s.locks[key].token != PhaseOf(s, a).token && !Expired(s.locks[key], s.clock))
  {
    RunKeeps(run, steps, i);
    assert AgentOK(run[i], a) && OwnLock(run[i], a, key);
  }

  /** How long until whatever lock stands at key has run out. */
  function Wait(s: State, key: Key): nat {
    if key in s.locks && s.locks[key].expiresAt > s.clock then s.locks[key].expiresAt - s.clock else 0
  }

  lemma RunExtends(run: seq<State>, steps: seq<Step>, step: Step)
    requires Run(run, steps) && Enabled(run[|run|-1], step)
    ensures Run(run + [Next(run[|run|-1], step)], steps + [step])
  {
  }

  /** So the time bound cannot be dropped: any run that ends with a body past its deadline goes on
      to one in which any idle agent is inside beside it. */
  lemma OverrunExtends(run: seq<State>, steps: seq<Step>, a: Agent, b: Agent, key: Key, ttl: int)
    returns (on: seq<State>, moves: seq<Step>)
    requires Run(run, steps)
    requires In(run[|run|-1], a, key) && !InTime(run[|run|-1], a) && PhaseOf(run[|run|-1], b) == Idle
    ensures Run(run + on, steps + moves) && |on| == 2
    ensures In(on[1], a, key) && In(on[1], b, key) && a != b
  {
    var s := run[|run|-1];
    var tick := Tick(Wait(s, key));
    var later := Next(s, tick);
    var ask := Acquire(b, key, ttl, later.clock);
    RunExtends(run, steps, tick);
    RunExtends(run + [later], steps + [tick], ask);
    on, moves := [later, Next(later, ask)], [tick, ask];
    assert run + on == run + [later] + [Next(later, ask)] && steps + moves == steps + [tick] + [ask];
  }

  /** A shortest such run, for any key and any lease: no longer than the lease itself. */
  lemma OverrunOverlaps(key: Key, ttl: int, a: Agent, b: Agent) returns (run: seq<State>, steps: seq<Step>)
    requires a != b
    ensures Run(run, steps) && |steps| == 3
    ensures steps[0] == Acquire(a, key, ttl, run[0].clock)
    ensures steps[1] == Tick(if ttl > 0 then ttl else 30_000_000_000)
    ensures In(run[3], a, key) && In(run[3], b, key)
  {
    var d := EffectiveTTL(ttl);
    var s0 := State(0, map[], 0, map[]);
    steps := [Acquire(a, key, ttl, 0), Tick(d), Acquire(b, key, ttl, d)];
    var s1 := Next(s0, steps[0]);
    var s2 := Next(s1, steps[1]);
    var s3 := Next(s2, steps[2]);
    run := [s0, s1, s2, s3];
  }

  /** A holder that overran and lost its key cannot release its successor's lock: only the
      agent a lock was granted to ever takes it out of the table. */
  lemma OnlyHolderReleases(run: seq<State>, steps: seq<Step>, i: nat, key: Key, b: Agent)
    requires Run(run, steps) && i < |steps| && steps[i].Release?
    requires In(run[i], b, key) && Holds(run[i].locks, key, PhaseOf(run[i], b).token)
    requires steps[i].who != b
    ensures key in run[i+1].locks && run[i+1].locks[key] == run[i].locks[key]
  {
    RunKeeps(run, steps, i);
    assert TokensApart(run[i], steps[i].who, b);
  }

  // ---- crashes ------------------------------------------------------------------

  ghost predicate LeasesAtMost(steps: seq<Step>, most: int) {
    forall i | 0 <= i < |steps| && steps[i].Acquire? ::
      steps[i].ttl <= most && (steps[i].ttl <= 0 ==> 30_000_000_000 <= most)
  }

  lemma {:induction false} ExpiryBounded(run: seq<State>, steps: seq<Step>, i: nat, most: int)
    requires Run(run, steps) && i < |run| && LeasesAtMost(steps, most)
    ensures forall k | k in run[i].locks :: run[i].locks[k].expiresAt <= run[i].clock + most
  {
    if i > 0 {
      ExpiryBounded(run, steps, i - 1, most);
      var s, step := run[i-1], steps[i-1];
      assert Enabled(s, step) && run[i] == Next(s, step);
      assert step.Acquire? ==> step.ttl <= most && (step.ttl <= 0 ==> 30_000_000_000 <= most);
    }
  }

  /** A lock never changes while it stands; another under its key has another token. */
  lemma {:induction false} LockStands(run: seq<State>, steps: seq<Step>, i: nat, j: nat, key: Key)
    requires Run(run, steps) && i <= j < |run| && key in run[i].locks
    ensures run[i].nextToken <= run[j].nextToken
    ensures key in run[j].locks ==>
      run[j].locks[key] == run[i].locks[key] || run[j].locks[key].token >= run[i].nextToken
  {
    if i < j {
      LockStands(run, steps, i, j - 1, key);
      RunKeeps(run, steps, j - 1);
      assert run[j] == Next(run[j-1], steps[j-1]) && Enabled(run[j-1], steps[j-1]);
    }
  }

  /** A crashed replica's lease wedges nothing: whatever stands at a key when its holder
      crashes, once the longest lease has passed the key is free or another has since had it. */
  lemma CrashBlocksAtMostTTL(run: seq<State>, steps: seq<Step>, i: nat, j: nat, key: Key, most: int)
    requires Run(run, steps) && LeasesAtMost(steps, most)
    requires i <= j < |run| && run[j].clock >= run[i].clock + most && key in run[i].locks
    ensures !Blocked(run[j].locks, key, run[j].clock)
         || run[j].locks[key].token >= run[i].nextToken > run[i].locks[key].token
  {
    RunKeeps(run, steps, i);
    ExpiryBounded(run, steps, i, most);
    LockStands(run, steps, i, j, key);
  }

  // ---- keys -----------------------------------------------------------------------

  /** The lock of step j's grant is the one at key in state m. */
  ghost predicate GrantStands(run: seq<State>, steps: seq<Step>, j: nat, m: nat, key: Key)
    requires j < |steps| && m < |run| && j < |run|
  {
    && Granted(run[j], steps[j]) && steps[j].key == key && key in run[m].locks
    && run[m].locks[key] == LockState(run[j].nextToken, steps[j].readAt + EffectiveTTL(steps[j].ttl))
  }

  /** Behind every lock is the one grant that put it there, and it has stood ever since. */
  lemma {:induction false} GrantBehind(run: seq<State>, steps: seq<Step>, i: nat, key: Key) returns (j: nat)
    requires Run(run, steps) && i < |run| && key in run[i].locks
    ensures j < i && forall m | j < m <= i :: GrantStands(run, steps, j, m, key)
  {
    var s, step := run[i-1], steps[i-1];
    assert run[i] == Next(s, step) && Enabled(s, step);
    if Granted(s, step) && step.key == key {
      j := i - 1;
      assert GrantStands(run, steps, j, i, key);
    } else {
      assert key in s.locks && run[i].locks[key] == s.locks[key];
      j := GrantBehind(run, steps, i - 1, key);
      assert GrantStands(run, steps, j, i - 1, key);
      assert GrantStands(run, steps, j, i, key);
    }
  }

  /** A skipped turn is rightly skipped: when Acquire answers conflict, some earlier grant of that
      very key has stood at it ever since, its holder has not released it, and it has not run out at
      the time the caller read. */
  lemma ConflictStands(run: seq<State>, steps: seq<Step>, i: nat) returns (j: nat)
    requires Run(run, steps) && i < |steps| && steps[i].Acquire? && Blocked(run[i].locks, steps[i].key, steps[i].readAt)
    ensures j < i && forall m | j < m <= i :: GrantStands(run, steps, j, m, steps[i].key)
    ensures steps[j].Acquire? &&
      steps[i].readAt < steps[j].readAt + (if steps[j].ttl > 0 then steps[j].ttl else 30_000_000_000)
    ensures forall m | j < m < i && steps[m].Release? ::
      PhaseOf(run[m], steps[m].who) !=
        Inside(steps[i].key, run[j].nextToken, steps[j].readAt + EffectiveTTL(steps[j].ttl))
  {
    var key := steps[i].key;
    j := GrantBehind(run, steps, i, key);
    assert GrantStands(run, steps, j, i, key);
    forall m | j < m < i && steps[m].Release?
      ensures PhaseOf(run[m], steps[m].who) !=
        Inside(key, run[j].nextToken, steps[j].readAt + EffectiveTTL(steps[j].ttl))
    {
      assert GrantStands(run, steps, j, m, key) && GrantStands(run, steps, j, m + 1, key);
      assert run[m+1] == Next(run[m], steps[m]);
    }
  }

  /** A key is only ever blocked by a grant of that very key: work on one tenant never holds
      up another. */
  lemma BlockedByOwnKeyOnly(run: seq<State>, steps: seq<Step>, i: nat, key: Key)
    requires Run(run, steps) && i < |run| && key in run[i].locks
    ensures exists j :: 0 <= j < i && Granted(run[j], steps[j]) && steps[j].key == key
  {
    var j := GrantBehind(run, steps, i, key);
    assert GrantStands(run, steps, j, i, key);
  }

  /** Step j gave its agent the lease it asked for. */
  ghost predicate GotIn(run: seq<State>, steps: seq<Step>, j: nat)
    requires Run(run, steps) && j < |steps|
  {
    steps[j].Acquire? && PhaseOf(run[j+1], steps[j].who).Inside?
  }

  /** Nobody has got key between steps j and i, and what step j gave has not been released. */
  ghost predicate Untouched(run: seq<State>, steps: seq<Step>, j: nat, i: nat, key: Key)
    requires Run(run, steps) && j < i <= |steps| && steps[j].Acquire?
  {
    forall m | j < m < i ::
      && !(GotIn(run, steps, m) && steps[m].key == key)
      && !(steps[m].Release? && PhaseOf(run[m], steps[m].who) == PhaseOf(run[j+1], steps[j].who))
  }

  lemma GotInIs(run: seq<State>, steps: seq<Step>, j: nat)
    requires Run(run, steps) && j < |steps|
    ensures GotIn(run, steps, j) <==> Granted(run[j], steps[j])
  {
    assert Enabled(run[j], steps[j]) && run[j+1] == Next(run[j], steps[j]);
  }

  /** A lock stays as it was granted while nobody else gets its key and its holder keeps it. */
  lemma {:induction false} StaysPut(run: seq<State>, steps: seq<Step>, j: nat, i: nat)
    requires Run(run, steps) && j < i <= |steps| && GotIn(run, steps, j)
    requires Untouched(run, steps, j, i, steps[j].key)
    ensures GrantStands(run, steps, j, i, steps[j].key)
  {
    GotInIs(run, steps, j);
    assert Enabled(run[j], steps[j]) && run[j+1] == Next(run[j], steps[j]);
    if j + 1 < i {
      StaysPut(run, steps, j, i - 1);
      GotInIs(run, steps, i - 1);
      RunKeeps(run, steps, i - 1);
      assert Enabled(run[i-1], steps[i-1]) && run[i] == Next(run[i-1], steps[i-1]);
      if steps[i-1].Release? { assert OwnLock(run[i-1], steps[i-1].who, steps[j].key); }
    }
  }

  /** Which asks are answered conflict, told by the history of the run alone: those for a key that
      somebody has got and not released, and nobody has got since, at a reading of the clock that is
      less than the lease's own length past the reading it was given at. A length that is not positive
      counts as thirty seconds. */
  lemma {:induction false} RefusedIff(run: seq<State>, steps: seq<Step>, i: nat)
    requires Run(run, steps) && i < |steps| && steps[i].Acquire?
    ensures !GotIn(run, steps, i) <==> exists j: nat ::
      && j < i && GotIn(run, steps, j) && steps[j].key == steps[i].key && Untouched(run, steps, j, i, steps[i].key)
      && steps[i].readAt < steps[j].readAt + (if steps[j].ttl > 0 then steps[j].ttl else 30_000_000_000)
  {
    var key := steps[i].key;
    GotInIs(run, steps, i);
    assert Enabled(run[i], steps[i]);
    if !GotIn(run, steps, i) {
      var j := GrantBehind(run, steps, i, key);
      assert GrantStands(run, steps, j, i, key);
      GotInIs(run, steps, j);
      NoneSince(run, steps, j, i, key);
    }
    forall j: nat | j < i && GotIn(run, steps, j) && steps[j].key == key && Untouched(run, steps, j, i, key)
      ensures GrantStands(run, steps, j, i, key)
    {
      StaysPut(run, steps, j, i);
    }
  }

  lemma NoneSince(run: seq<State>, steps: seq<Step>, j: nat, i: nat, key: Key)
    requires Run(run, steps) && j < i < |steps| && steps[j].Acquire?
    requires forall m | j < m <= i :: GrantStands(run, steps, j, m, key)
    ensures Untouched(run, steps, j, i, key)
  {
    assert Enabled(run[j], steps[j]) && run[j+1] == Next(run[j], steps[j]);
    forall m | j < m < i
      ensures !(GotIn(run, steps, m) && steps[m].key == key)
      ensures !(steps[m].Release? && PhaseOf(run[m], steps[m].who) == PhaseOf(run[j+1], steps[j].who))
    {
      assert GrantStands(run, steps, j, m, key) && GrantStands(run, steps, j, m + 1, key);
      GotInIs(run, steps, m);
      TokensGrow(run, steps, j + 1, m);
      assert Enabled(run[m], steps[m]) && run[m+1] == Next(run[m], steps[m]);
    }
  }

  lemma {:induction false} TokensGrow(run: seq<State>, steps: seq<Step>, i: nat, j: nat)
    requires Run(run, steps) && i <= j < |run|
    ensures run[i].nextToken <= run[j].nextToken
  {
    if i < j {
      TokensGrow(run, steps, i, j - 1);
      assert Enabled(run[j-1], steps[j-1]) && run[j] == Next(run[j-1], steps[j-1]);
    }
  }

  /** Who gets in is told when to be out: the reading it was given at and its lease's own length. */
  lemma DeadlineIs(run: seq<State>, steps: seq<Step>, j: nat)
    requires Run(run, steps) && j < |steps| && GotIn(run, steps, j)
    ensures PhaseOf(run[j+1], steps[j].who).key == steps[j].key
    ensures PhaseOf(run[j+1], steps[j].who).deadline ==
      steps[j].readAt + (if steps[j].ttl > 0 then steps[j].ttl else 30_000_000_000)
  {
    assert Enabled(run[j], steps[j]) && run[j+1] == Next(run[j], steps[j]);
  }

  datatype Scope = Global | Tenant(id: string)

  /** The lock key of one worker's cycle, or of one tenant's turn in it. */
  function LeaseKey(worker: string, scope: Scope): Key {
    "worker:" + worker + ":" + (if scope == Global then "global" else scope.id)
  }

  lemma {:induction false} CutAtColon(a: string, x: string, b: string, y: string)
    requires ':' !in a && ':' !in b
    ensures a + ":" + x == b + ":" + y <==> a == b && x == y
  {
    var s, t := a + ":" + x, b + ":" + y;
    if a != "" && b != "" {
      assert s == [a[0]] + (a[1..] + ":" + x) && t == [b[0]] + (b[1..] + ":" + y);
      CutAtColon(a[1..], x, b[1..], y);
      if s == t {
        assert s[0] == t[0] && s[1..] == t[1..];
        assert a == [a[0]] + a[1..] && b == [b[0]] + b[1..];
      }
    } else if s == t {
      assert s[0] == t[0];
      assert a == "" ==> s == ":" + x && s[1..] == x;
      assert b == "" ==> t == ":" + y && t[1..] == y;
    }
  }

  /** Distinct work has distinct keys, for worker names without a colon; the one collision is
      a global worker with a tenant named "global" under the same worker name. */
  lemma LeaseKeysInjective(w: string, s: Scope, v: string, t: Scope)
    requires ':' !in w && ':' !in v
    ensures LeaseKey(w, s) == LeaseKey(v, t) <==>
      w == v && (s == t || {s, t} == {Global, Tenant("global")})
  {
    var x := if s == Global then "global" else s.id;
    var y := if t == Global then "global" else t.id;
    CutAtColon(w, x, v, y);
    assert LeaseKey(w, s) == "worker:" + (w + ":" + x);
    assert LeaseKey(v, t) == "worker:" + (v + ":" + y);
    assert LeaseKey(w, s)[7..] == w + ":" + x && LeaseKey(v, t)[7..] == v + ":" + y;
    if x == y && s != t {
      assert {s, t} == {Global, Tenant("global")};
    }
    if {s, t} == {Global, Tenant("global")} {
      assert s in {s, t} && t in {s, t};
    }
  }

  /** Work on one tenant never holds up another: what blocks a turn is an earlier grant of a key that,
      among workers whose names have no colon, only that worker asks for and, but for a tenant named
      "global", only for that tenant. */
  lemma TenantsApart(run: seq<State>, steps: seq<Step>, i: nat, w: string, t: string) returns (j: nat)
    requires Run(run, steps) && i < |steps| && steps[i].Acquire? && steps[i].key == LeaseKey(w, Tenant(t))
    requires Blocked(run[i].locks, steps[i].key, steps[i].readAt) && ':' !in w
    ensures j < i && Granted(run[j], steps[j])
    ensures forall v, scope | ':' !in v && steps[j].key == LeaseKey(v, scope) ::
      v == w && (scope == Tenant(t) || (t == "global" && scope == Global))
  {
    BlockedByOwnKeyOnly(run, steps, i, steps[i].key);
    j :| 0 <= j < i && Granted(run[j], steps[j]) && steps[j].key == steps[i].key;
    forall v, scope | ':' !in v && steps[j].key == LeaseKey(v, scope)
      ensures v == w && (scope == Tenant(t) || (t == "global" && scope == Global))
    {
      LeaseKeysInjective(w, Tenant(t), v, scope);
      if scope != Tenant(t) { assert Tenant(t) in {Global, Tenant("global")} && scope in {Global, Tenant("global")}; }
    }
  }
}
