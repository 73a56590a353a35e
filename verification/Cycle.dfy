/** One worker's cycle (internal/app/workers.go): lease, work and release tenant by tenant,
    with errors and panics kept to the tenant that raised them. */
module Cycle {
  import opened Lease
  import opened Order
  import opened Paging
  import opened Wrappers

  // ---- what the outside world answers ---------------------------------------

  /** How a tenant's (or the global) body ends when it runs. */
  datatype Outcome = Done | Erred(message: string) | Panicked(value: string)

  /** What Acquire answers: the lease, ErrConflict, some other error, or nothing because it panics. */
  datatype Answer = Granted | Conflict | Failing(message: string) | Crashing(value: string)

  datatype Attempt = Attempt(answer: Answer, outcome: Outcome)

  datatype Error =
    | WorkError(message: string)
    | LeaseError(key: string, message: string)
    | PanicError(worker: string, tenant: string, value: string)

  /** How a Go call comes back: with an error or without, or unwinding. */
  datatype Flow = Returned(err: Option<Error>) | Unwinding(value: string)

  datatype Event = Took(key: string) | Ran(key: string) | GaveBack(key: string)

  /** Joined errors of a cycle, each under its tenant; or the one error that ended it early. */
  datatype CycleError = Joined(errs: seq<(string, Error)>) | Listing(message: string) | GlobalError(err: Error)

  datatype Tenants = Listed(ids: seq<string>) | ListFailed(message: string) | ListPanicked(value: string)

  /** One cycle's world. cancelled(i) says whether the context is done once the i-th tenant is. */
  datatype World =
    | Global(attempt: Attempt)
    | PerTenant(tenants: Tenants, attempts: string -> Attempt, cancelled: nat -> bool)

  // ---- specification ----------------------------------------------------------

  function LeasedTrace(key: string, a: Attempt): seq<Event> {
    if a.answer == Granted then [Took(key), Ran(key), GaveBack(key)] else []
  }

  function TenantError(worker: string, tenant: string, a: Attempt): Option<Error> {
    match a.answer
    case Conflict => None
    case Failing(m) => Some(LeaseError(LeaseKey(worker, Tenant(tenant)), m))
    case Crashing(v) => Some(PanicError(worker, tenant, v))
    case Granted =>
      match a.outcome
      case Done => None
      case Erred(m) => Some(WorkError(m))
      case Panicked(v) => Some(PanicError(worker, tenant, v))
  }

  /** The tenants a cycle gets to, from the i-th on. */
  function Visited(tenants: seq<string>, cancelled: nat -> bool, i: nat): seq<string>
    requires i <= |tenants|
    decreases |tenants| - i
  {
    if i == |tenants| then []
    else if cancelled(i) then [tenants[i]]
    else [tenants[i]] + Visited(tenants, cancelled, i + 1)
  }

  function ErrorsOf(worker: string, visited: seq<string>, attempts: string -> Attempt): seq<(string, Error)> {
    if visited == [] then []
    else
      var e := TenantError(worker, visited[0], attempts(visited[0]));
      (if e.Some? then [(visited[0], e.value)] else []) + ErrorsOf(worker, visited[1..], attempts)
  }

  function TraceOf(worker: string, visited: seq<string>, attempts: string -> Attempt): seq<Event> {
    if visited == [] then []
    else LeasedTrace(LeaseKey(worker, Tenant(visited[0])), attempts(visited[0]))
         + TraceOf(worker, visited[1..], attempts)
  }

  function CycleTrace(worker: string, w: World): seq<Event> {
    match w
    case Global(a) => LeasedTrace(LeaseKey(worker, Lease.Global), a)
    case PerTenant(Listed(ids), attempts, cancelled) => TraceOf(worker, Visited(ids, cancelled, 0), attempts)
    case PerTenant(_, _, _) => []
  }

  function CycleResult(worker: string, w: World): Option<CycleError> {
    match w
    case Global(a) =>
      (match a.answer
       case Conflict => None
       case Failing(m) => Some(GlobalError(LeaseError(LeaseKey(worker, Lease.Global), m)))
       case Crashing(_) => None
       case Granted => if a.outcome.Erred? then Some(GlobalError(WorkError(a.outcome.message))) else None)
    case PerTenant(ListFailed(m), _, _) => Some(Listing(m))
    case PerTenant(ListPanicked(_), _, _) => None
    case PerTenant(Listed(ids), attempts, cancelled) =>
      var errs := ErrorsOf(worker, Visited(ids, cancelled, 0), attempts);
      if errs == [] then None else Some(Joined(errs))
  }

  function Failures(worker: string, worlds: seq<World>): nat {
    if worlds == [] then 0
    else (if CycleResult(worker, worlds[0]).Some? then 1 else 0) + Failures(worker, worlds[1..])
  }

  /** A cycle between two turns: what has happened and gone wrong since before, and what is left of
      the visited tenants, come to the whole. */
  ghost predicate Midway(worker: string, visited: seq<string>, attempts: string -> Attempt, before: seq<Event>,
          events: seq<Event>, errs: seq<(string, Error)>, left: seq<string>) {
    && before + TraceOf(worker, visited, attempts) == events + TraceOf(worker, left, attempts)
    && ErrorsOf(worker, visited, attempts) == errs + ErrorsOf(worker, left, attempts)
  }

  /** One tenant's turn, taken off the front of what is still to be visited. */
  lemma {:induction false} TurnStep(worker: string, visited: seq<string>, attempts: string -> Attempt,
          before: seq<Event>, events: seq<Event>, errs: seq<(string, Error)>, t: string, rest: seq<string>)
    requires Midway(worker, visited, attempts, before, events, errs, [t] + rest)
    ensures var e := TenantError(worker, t, attempts(t));
      Midway(worker, visited, attempts, before, events + LeasedTrace(LeaseKey(worker, Tenant(t)), attempts(t)),
        if e.Some? then errs + [(t, e.value)] else errs, rest)
  {
    var e := TenantError(worker, t, attempts(t));
    assert ([t] + rest)[1..] == rest;
    ConcatAssoc(events, LeasedTrace(LeaseKey(worker, Tenant(t)), attempts(t)), TraceOf(worker, rest, attempts));
    ConcatAssoc(errs, if e.Some? then [(t, e.value)] else [], ErrorsOf(worker, rest, attempts));
  }

  lemma GlobalKey(worker: string)
    ensures LeaseKey(worker, Lease.Global) == "worker:" + worker + ":global"
  {
    ConcatAssoc("worker:" + worker, ":", "global");
  }

  // ---- the worker ---------------------------------------------------------------

  class Worker {
    const name: string
    var runs: nat
    var failures: nat
    var events: seq<Event>

    constructor (name: string)
      ensures this.name == name && runs == 0 && failures == 0 && events == []
    {
      this.name := name;
      runs, failures, events := 0, 0, [];
    }

    /** A held lease is success with nothing to do; the release is deferred, so it runs
        whichever way the body leaves. */
    method Leased(key: string, a: Attempt) returns (flow: Flow)
      modifies this`events
      ensures a.answer == Granted ==> events == old(events) + [Took(key), Ran(key), GaveBack(key)]
      ensures a.answer != Granted ==> events == old(events)
      ensures events == old(events) + LeasedTrace(key, a)
      ensures flow == match a.answer
        case Conflict => Returned(None)
        case Failing(m) => Returned(Some(LeaseError(key, m)))
        case Crashing(v) => Unwinding(v)
        case Granted => (match a.outcome
          case Done => Returned(None)
          case Erred(m) => Returned(Some(WorkError(m)))
          case Panicked(v) => Unwinding(v))
    {
      if a.answer == Conflict { return Returned(None); }
      if a.answer.Failing? { return Returned(Some(LeaseError(key, a.answer.message))); }
      if a.answer.Crashing? { return Unwinding(a.answer.value); }
      events := events + [Took(key)];
      events := events + [Ran(key)];
      flow := match a.outcome
        case Done => Returned(None)
        case Erred(m) => Returned(Some(WorkError(m)))
        case Panicked(v) => Unwinding(v);
      events := events + [GaveBack(key)];
    }

    /** Recovers a panic into an error of this tenant's. */
    method RunTenant(tenant: string, a: Attempt) returns (err: Option<Error>)
      modifies this`events
      ensures events == old(events) + LeasedTrace(LeaseKey(name, Tenant(tenant)), a)
      ensures err == TenantError(name, tenant, a)
    {
      var flow := Leased(LeaseKey(name, Tenant(tenant)), a);
      err := match flow
        case Returned(e) => e
        case Unwinding(v) => Some(PanicError(name, tenant, v));
    }

    /** One cycle. What unwinds out of it is recovered with no result set, so it returns nil. */
    method RunOnce(w: World) returns (err: Option<CycleError>)
      modifies this`events
      ensures events == old(events) + CycleTrace(name, w)
      ensures err == CycleResult(name, w)
      ensures w.Global? ==>
        var k, a := "worker:" + name + ":global", w.attempt;
        && events == old(events) + (if a.answer == Granted then [Took(k), Ran(k), GaveBack(k)] else [])
        && err == (match a.answer
             case Failing(m) => Some(GlobalError(LeaseError(k, m)))
             case Granted => if a.outcome.Erred? then Some(GlobalError(WorkError(a.outcome.message))) else None
             case _ => None)
      ensures w.PerTenant? && !w.tenants.Listed? ==>
        events == old(events) && err == if w.tenants.ListFailed? then Some(Listing(w.tenants.message)) else None
    {
      if w.Global? {
        GlobalKey(name);
        var flow := Leased(LeaseKey(name, Lease.Global), w.attempt);
        match flow
        case Unwinding(_) => return None;
        case Returned(None) => return None;
        case Returned(Some(e)) => return Some(GlobalError(e));
      }
      match w.tenants
      case ListPanicked(_) => return None;
      case ListFailed(m) => return Some(Listing(m));
      case Listed(ids) =>
        var errs := RunTenants(ids, w.attempts, w.cancelled);
        return if errs == [] then None else Some(Joined(errs));
    }

    /** One tenant's failure must not stop the rest; only a done context does. */
    method RunTenants(ids: seq<string>, attempts: string -> Attempt, cancelled: nat -> bool)
      returns (errs: seq<(string, Error)>)
      modifies this`events
      ensures events == old(events) + TraceOf(name, Visited(ids, cancelled, 0), attempts)
      ensures errs == ErrorsOf(name, Visited(ids, cancelled, 0), attempts)
    {
      errs := [];
      var i := 0;
      var stop := false;
      ghost var left := Visited(ids, cancelled, 0);
      while i < |ids| && !stop
        invariant 0 <= i <= |ids|
        invariant left == if stop then [] else Visited(ids, cancelled, i)
        invariant Midway(name, Visited(ids, cancelled, 0), attempts, old(events), events, errs, left)
      {
        var t := ids[i];
        ghost var rest := if cancelled(i) then [] else Visited(ids, cancelled, i + 1);
        assert left == [t] + rest;
        TurnStep(name, Visited(ids, cancelled, 0), attempts, old(events), events, errs, t, rest);
        var e := RunTenant(t, attempts(t));
        if e.Some? { errs := errs + [(t, e.value)]; }
        if cancelled(i) { stop := true; }
        i := i + 1;
        left := rest;
      }
    }

    /** The ticker loop's bookkeeping, over the cycles that got to run. */
    method Run(worlds: seq<World>)
      modifies this
      ensures runs == old(runs) + |worlds|
      ensures failures == old(failures) + Failures(name, worlds)
    {
      var i := 0;
      while i < |worlds|
        invariant 0 <= i <= |worlds|
        invariant runs == old(runs) + i
        invariant failures + Failures(name, worlds[i..]) == old(failures) + Failures(name, worlds)
      {
        assert worlds[i..][1..] == worlds[i+1..];
        var err := RunOnce(worlds[i]);
        runs := runs + 1;
        if err.Some? { failures := failures + 1; }
        i := i + 1;
      }
    }
  }

  // ---- who is visited -------------------------------------------------------------

  /** A cycle visits its tenants in order, each once, up to the first after which the context
      is done: all of them if it never is, at least one if there are any. */
  lemma {:induction false} VisitsPrefix(tenants: seq<string>, cancelled: nat -> bool, i: nat)
    requires i <= |tenants|
    ensures var v := Visited(tenants, cancelled, i);
      && i + |v| <= |tenants| && v == tenants[i..i+|v|]
      && (i < |tenants| ==> v != [])
      && (forall j | i <= j < i + |v| - 1 :: !cancelled(j))
      && (i + |v| < |tenants| ==> v != [] && cancelled(i + |v| - 1))
    decreases |tenants| - i
  {
    if i < |tenants| && !cancelled(i) {
      VisitsPrefix(tenants, cancelled, i + 1);
      var v := Visited(tenants, cancelled, i + 1);
      assert tenants[i..i+1+|v|] == [tenants[i]] + tenants[i+1..i+1+|v|];
    }
  }

  /** The tenants a joined error names, in its order. */
  function Named(errs: seq<(string, Error)>): seq<string> {
    if errs == [] then [] else [errs[0].0] + Named(errs[1..])
  }

  predicate Faulty(a: Attempt) {
    a.answer.Failing? || a.answer.Crashing? || (a.answer == Granted && a.outcome != Done)
  }

  function Faulted(visited: seq<string>, attempts: string -> Attempt): seq<string> {
    if visited == [] then []
    else if Faulty(attempts(visited[0])) then [visited[0]] + Faulted(visited[1..], attempts)
    else Faulted(visited[1..], attempts)
  }

  /** The joined error names exactly the visited tenants whose lease or work failed, in order;
      a lease held elsewhere is none of them. */
  lemma {:induction false} ErrorsNameFaulty(worker: string, visited: seq<string>, attempts: string -> Attempt)
    ensures Named(ErrorsOf(worker, visited, attempts)) == Faulted(visited, attempts)
    ensures forall e | e in ErrorsOf(worker, visited, attempts) ::
      e.0 in visited && TenantError(worker, e.0, attempts(e.0)) == Some(e.1)
  {
    if visited != [] {
      ErrorsNameFaulty(worker, visited[1..], attempts);
      var rest := ErrorsOf(worker, visited[1..], attempts);
      var e := TenantError(worker, visited[0], attempts(visited[0]));
      if e.Some? {
        assert ErrorsOf(worker, visited, attempts)[1..] == rest;
      } else {
        assert ErrorsOf(worker, visited, attempts) == rest;
      }
    }
  }

  /** What each of them is named with: nothing for a lease held elsewhere or work that is done; the
      error of the lease or of the work; a panic with worker and tenant. */
  lemma {:induction false} ErrorsExact(worker: string, visited: seq<string>, attempts: string -> Attempt, t: string,
          e: Error)
    ensures (t, e) in ErrorsOf(worker, visited, attempts) <==>
      && t in visited
      && match attempts(t)
         case Attempt(Conflict, _) => false
         case Attempt(Failing(m), _) => e == LeaseError("worker:" + worker + ":" + t, m)
         case Attempt(Crashing(v), _) => e == PanicError(worker, t, v)
         case Attempt(Granted, Done) => false
         case Attempt(Granted, Erred(m)) => e == WorkError(m)
         case Attempt(Granted, Panicked(v)) => e == PanicError(worker, t, v)
  {
    if visited != [] {
      ErrorsExact(worker, visited[1..], attempts, t, e);
      assert visited == [visited[0]] + visited[1..];
    }
  }

  /** No tenant twice. */
  predicate NoRepeat(s: seq<string>) {
    s == [] || (s[0] !in s[1..] && NoRepeat(s[1..]))
  }

  // ---- isolation --------------------------------------------------------------------

  /** What happened under key. */
  function Under(log: seq<Event>, key: string): seq<Event> {
    if log == [] then []
    else if log[0].key == key then [log[0]] + Under(log[1..], key)
    else Under(log[1..], key)
  }

  lemma {:induction false} UnderConcat(a: seq<Event>, b: seq<Event>, key: string)
    ensures Under(a + b, key) == Under(a, key) + Under(b, key)
  {
    if a == [] {
      assert a + b == b;
    } else {
      assert (a + b)[1..] == a[1..] + b;
      UnderConcat(a[1..], b, key);
    }
  }

  lemma LeasedUnder(key: string, a: Attempt, other: string)
    ensures Under(LeasedTrace(key, a), other) == if key == other then LeasedTrace(key, a) else []
  {
    var t := LeasedTrace(key, a);
    if a.answer == Granted {
      var t2, t3 := [Ran(key), GaveBack(key)], [GaveBack(key)];
      assert t[1..] == t2 && t2[1..] == t3 && t3[1..] == [];
      assert Under(t3, other) == if key == other then t3 else [];
      assert Under(t2, other) == if key == other then [Ran(key)] + t3 else [];
    }
  }

  lemma TenantKeys(worker: string, t: string, u: string)
    ensures LeaseKey(worker, Tenant(t)) == LeaseKey(worker, Tenant(u)) <==> t == u
  {
    var p := "worker:" + worker + ":";
    assert LeaseKey(worker, Tenant(t)) == p + t && LeaseKey(worker, Tenant(u)) == p + u;
    assert (p + t)[|p|..] == t && (p + u)[|p|..] == u;
  }

  /** Whatever the other tenants' leases and bodies do, errors and panics included, a visited
      tenant's lease is taken, its body run and the lease given back, once and in that order,
      exactly if Acquire grants it; a tenant not visited is not touched. */
  lemma {:induction false} TenantAlone(worker: string, visited: seq<string>, attempts: string -> Attempt, t: string)
    requires NoRepeat(visited)
    ensures var key := LeaseKey(worker, Tenant(t));
      Under(TraceOf(worker, visited, attempts), key) ==
        if t in visited && attempts(t).answer == Granted then [Took(key), Ran(key), GaveBack(key)] else []
  {
    var key := LeaseKey(worker, Tenant(t));
    if visited != [] {
      var u := visited[0];
      TenantAlone(worker, visited[1..], attempts, t);
      UnderConcat(LeasedTrace(LeaseKey(worker, Tenant(u)), attempts(u)), TraceOf(worker, visited[1..], attempts), key);
      LeasedUnder(LeaseKey(worker, Tenant(u)), attempts(u), key);
      TenantKeys(worker, u, t);
      assert visited == [u] + visited[1..];
    }
  }

  lemma {:induction false} TraceIff(worker: string, visited: seq<string>, attempts: string -> Attempt, e: Event)
    ensures e in TraceOf(worker, visited, attempts) <==>
      exists t :: t in visited && e.key == LeaseKey(worker, Tenant(t)) && attempts(t).answer == Granted
  {
    if visited != [] {
      TraceIff(worker, visited[1..], attempts, e);
      assert visited == [visited[0]] + visited[1..];
      LeasedIff(LeaseKey(worker, Tenant(visited[0])), attempts(visited[0]), e);
    }
  }

  lemma LeasedIff(key: string, a: Attempt, e: Event)
    ensures e in LeasedTrace(key, a) <==> e.key == key && a.answer == Granted
  {
    if a.answer == Granted {
      assert LeasedTrace(key, a) == [Took(key), Ran(key), GaveBack(key)];
    }
  }

  /** In any cycle a lease is taken, a body run and the lease given back at exactly the keys whose
      Acquire answered with the lease: nothing happens under a key that was held elsewhere, could not
      be had, or was never asked for. */
  lemma EventsIff(worker: string, w: World, e: Event)
    ensures e in CycleTrace(worker, w) <==>
      match w
      case Global(a) => e.key == "worker:" + worker + ":global" && a.answer == Granted
      case PerTenant(Listed(ids), attempts, cancelled) =>
        exists t :: t in Visited(ids, cancelled, 0) && e.key == LeaseKey(worker, Tenant(t)) &&
          attempts(t).answer == Granted
      case PerTenant(_, _, _) => false
  {
    match w
    case Global(a) =>
      GlobalKey(worker);
      LeasedIff(LeaseKey(worker, Lease.Global), a, e);
    case PerTenant(Listed(ids), attempts, cancelled) => TraceIff(worker, Visited(ids, cancelled, 0), attempts, e);
    case PerTenant(_, _, _) =>
  }

  /** Every lease taken is given back, the body between, before another is taken. */
  predicate Bracketed(log: seq<Event>) {
    || log == []
    || (|log| >= 3 && log[0].Took? && log[1] == Ran(log[0].key) && log[2] == GaveBack(log[0].key)
        && Bracketed(log[3..]))
  }

  lemma {:induction false} CycleBracketed(worker: string, visited: seq<string>, attempts: string -> Attempt)
    ensures Bracketed(TraceOf(worker, visited, attempts))
  {
    if visited != [] {
      CycleBracketed(worker, visited[1..], attempts);
      var rest := TraceOf(worker, visited[1..], attempts);
      var t := TraceOf(worker, visited, attempts);
      if attempts(visited[0]).answer == Granted {
        assert t[3..] == rest;
      } else {
        assert t == rest;
      }
    }
  }

  // ---- what the counters miss ---------------------------------------------------------

  /** Something in the cycle went wrong: an error, or a panic wherever it was raised. */
  predicate Troubled(w: World) {
    match w
    case Global(a) => Faulty(a)
    case PerTenant(Listed(ids), attempts, cancelled) =>
      exists t :: t in Visited(ids, cancelled, 0) && Faulty(attempts(t))
    case PerTenant(_, _, _) => true
  }

  /** A panic outside any tenant's turn: in a global lease or body, or in listing the tenants. */
  predicate PanicsOutside(w: World) {
    match w
    case Global(a) => a.answer.Crashing? || (a.answer == Granted && a.outcome.Panicked?)
    case PerTenant(tenants, _, _) => tenants.ListPanicked?
  }

  function Count(worlds: seq<World>, p: World -> bool): nat {
    if worlds == [] then 0 else (if p(worlds[0]) then 1 else 0) + Count(worlds[1..], p)
  }

  lemma {:induction false} FaultedIff(visited: seq<string>, attempts: string -> Attempt)
    ensures Faulted(visited, attempts) != [] <==> exists t :: t in visited && Faulty(attempts(t))
  {
    if visited != [] {
      FaultedIff(visited[1..], attempts);
      assert visited == [visited[0]] + visited[1..];
    }
  }

  /** RunOnce reports trouble except a panic outside any tenant's turn: that it recovers and
      returns nil. */
  lemma ReportsIff(worker: string, w: World)
    ensures CycleResult(worker, w).Some? <==> Troubled(w) && !PanicsOutside(w)
  {
    if w.PerTenant? && w.tenants.Listed? {
      var v := Visited(w.tenants.ids, w.cancelled, 0);
      ErrorsNameFaulty(worker, v, w.attempts);
      FaultedIff(v, w.attempts);
      assert Named(ErrorsOf(worker, v, w.attempts)) == [] <==> ErrorsOf(worker, v, w.attempts) == [];
    }
  }

  /** So the failure counter undercounts troubled cycles by exactly those panics, and is right
      over a run if and only if there are none. */
  lemma {:induction false} FailuresMissPanics(worker: string, worlds: seq<World>)
    ensures Failures(worker, worlds) + Count(worlds, PanicsOutside) == Count(worlds, Troubled)
  {
    if worlds != [] {
      FailuresMissPanics(worker, worlds[1..]);
      ReportsIff(worker, worlds[0]);
    }
  }

  // ---- which tenants there are ----------------------------------------------------------

  datatype TenantRecord = TenantRecord(id: string, active: bool)

  function ActiveIds(items: seq<Item<TenantRecord>>): seq<string> {
    if items == [] then []
    else if items[0].body.active then [items[0].body.id] + ActiveIds(items[1..])
    else ActiveIds(items[1..])
  }

  /** Enumerates one page, whatever the store holds beyond it. */
  method ActiveTenants(store: seq<Item<TenantRecord>>) returns (ids: seq<string>)
    ensures multiset(ids) == multiset(ActiveIds(store[..if |store| < 500 then |store| else 500]))
    ensures Sorted(ids, LexLess)
  {
    var page := Paginate(store, 500, None);
    assert page.items == store[..if |store| < 500 then |store| else 500];
    var out := [];
    var i := 0;
    while i < |page.items|
      invariant 0 <= i <= |page.items|
      invariant out + ActiveIds(page.items[i..]) == ActiveIds(page.items)
    {
      assert page.items[i..][1..] == page.items[i+1..];
      if page.items[i].body.active { out := out + [page.items[i].body.id]; }
      i := i + 1;
    }
    LexStrictWeak();
    ids := SortSlice(out, LexLess);
  }

  lemma {:induction false} ActiveIdsIn(items: seq<Item<TenantRecord>>)
    ensures forall t ::
      t in ActiveIds(items) <==> exists i :: 0 <= i < |items| && items[i].body == TenantRecord(t, true)
  {
    if items != [] {
      ActiveIdsIn(items[1..]);
      forall t
        ensures t in ActiveIds(items) <==> exists i :: 0 <= i < |items| && items[i].body == TenantRecord(t, true)
      {
        if items[0].body == TenantRecord(t, true) {
          assert t in ActiveIds(items);
        } else if i :| 0 <= i < |items| && items[i].body == TenantRecord(t, true) {
          assert items[1..][i-1].body == TenantRecord(t, true);
        }
        if t in ActiveIds(items[1..]) {
          var i :| 0 <= i < |items[1..]| && items[1..][i].body == TenantRecord(t, true);
          assert items[i+1].body == TenantRecord(t, true);
        }
      }
    }
  }

  /** Every active tenant is enumerated if and only if none stands past the first 500 records. */
  lemma EnumeratesAllIff(store: seq<Item<TenantRecord>>, ids: seq<string>)
    requires forall i, j | 0 <= i < j < |store| :: store[i].body.id != store[j].body.id
    requires multiset(ids) == multiset(ActiveIds(store[..if |store| < 500 then |store| else 500]))
    ensures (forall t :: t in ActiveIds(store) ==> t in ids) <==> forall i | 500 <= i < |store| :: !store[i].body.active
  {
    var page := store[..if |store| < 500 then |store| else 500];
    ActiveIdsIn(store);
    ActiveIdsIn(page);
    forall t ensures t in ids <==> t in ActiveIds(page) {
      assert t in ids <==> t in multiset(ids);
      assert t in ActiveIds(page) <==> t in multiset(ActiveIds(page));
    }
    forall i | 500 <= i < |store| && store[i].body.active
      ensures store[i].body.id in ActiveIds(store) && store[i].body.id !in ids
    {
      assert store[i].body == TenantRecord(store[i].body.id, true);
    }
    if forall i | 500 <= i < |store| :: !store[i].body.active {
      forall t | t in ActiveIds(store)
        ensures t in ids
      {
        var i :| 0 <= i < |store| && store[i].body == TenantRecord(t, true);
        assert page[i].body == TenantRecord(t, true);
      }
    }
  }

  lemma {:induction false} NoRepeatCounts(s: seq<string>)
    ensures NoRepeat(s) <==> forall x :: multiset(s)[x] <= 1
  {
    if s != [] {
      NoRepeatCounts(s[1..]);
      assert s == [s[0]] + s[1..];
      if s[0] in s[1..] {
        assert s[0] in multiset(s[1..]) && multiset(s)[s[0]] >= 2;
      }
      if NoRepeat(s) {
        assert s[0] !in multiset(s[1..]);
      }
      assert forall x :: multiset(s)[x] == multiset(s[1..])[x] + if x == s[0] then 1 else 0;
    }
  }

  /** No two records share a tenant id. */
  predicate DistinctIds(items: seq<Item<TenantRecord>>) {
    items == [] || ((forall r | r in items[1..] :: r.body.id != items[0].body.id) && DistinctIds(items[1..]))
  }

  lemma {:induction false} ActiveDistinct(items: seq<Item<TenantRecord>>)
    requires DistinctIds(items)
    ensures NoRepeat(ActiveIds(items))
  {
    if items != [] {
      ActiveDistinct(items[1..]);
      if items[0].body.active {
        var rest := items[1..];
        ActiveIdsIn(rest);
        forall i | 0 <= i < |rest|
          ensures rest[i].body != TenantRecord(items[0].body.id, true)
        {
          assert rest[i] in rest;
        }
        assert ActiveIds(items)[1..] == ActiveIds(rest);
      }
    }
  }

  /** A store of at most 500 tenants, a cycle that is not cut short: every active tenant is
      served once, by its own lease and body alone, whatever befalls the others. */
  lemma EveryTenantServed(worker: string, store: seq<Item<TenantRecord>>, ids: seq<string>,
          attempts: string -> Attempt, t: string)
    requires |store| <= 500 && DistinctIds(store) && t in ActiveIds(store)
    requires multiset(ids) == multiset(ActiveIds(store))
    ensures var key := "worker:" + worker + ":" + t;
      Under(TraceOf(worker, Visited(ids, _ => false, 0), attempts), key) ==
        if attempts(t).answer == Granted then [Took(key), Ran(key), GaveBack(key)] else []
  {
    var never := _ => false;
    var v := Visited(ids, never, 0);
    VisitsPrefix(ids, never, 0);
    assert v == ids;
    ActiveDistinct(store);
    NoRepeatCounts(ActiveIds(store));
    NoRepeatCounts(ids);
    assert t in multiset(ActiveIds(store)) && t in multiset(ids);
    TenantAlone(worker, v, attempts, t);
  }
}
