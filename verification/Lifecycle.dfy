/** Acquiring and releasing what a process holds (internal/app/app.go, storage.go, events.go). */
module Lifecycle {
  import opened Wrappers

  datatype Handle = MemoryStore | Database | MemoryCache | RedisClient | InProcessBus | EventBridge

  datatype StorageKind = StorageMemory | StoragePostgres | StorageOther(name: string)
  datatype CacheKind = CacheMemory | CacheRedis | CacheOther(name: string)
  datatype EventsKind = EventsInProcess | EventsAWS | EventsOther(name: string)

  datatype Config = Config(storage: StorageKind, cache: CacheKind, events: EventsKind)

  /** The points at which the outside world can fail Build. */
  datatype Stage =
    | OpenDatabase | Migrate | OpenRedis | PingRedis | ResolveCredentials
    | BuildAWS | BuildLLM | BuildKnowledge | BuildServices | BuildRouter

  datatype BuildError =
    | NilConfig
    | UnknownStorage(name: string) | UnknownCache(name: string) | UnknownEvents(name: string)
    | StageFailed(stage: Stage, message: string)

  type World = Stage -> Option<string>

  datatype Event = Opened(handle: Handle) | Closed(handle: Handle)

  /** What has happened to handles, in order. */
  class Journal {
    var events: seq<Event>

    constructor ()
      ensures events == []
    {
      events := [];
    }
  }

  // ---- the plan a configuration stands for ------------------------------------------------

  datatype Step = Attempt(stage: Stage) | Acquire(handle: Handle) | Reject(error: BuildError)

  function StorageSteps(k: StorageKind): seq<Step> {
    match k
    case StorageMemory => [Acquire(MemoryStore)]
    case StoragePostgres => [Attempt(OpenDatabase), Acquire(Database), Attempt(Migrate)]
    case StorageOther(name) => [Reject(UnknownStorage(name))]
  }

  function CacheSteps(k: CacheKind): seq<Step> {
    match k
    case CacheMemory => [Acquire(MemoryCache)]
    case CacheRedis => [Attempt(OpenRedis), Acquire(RedisClient), Attempt(PingRedis)]
    case CacheOther(name) => [Reject(UnknownCache(name))]
  }

  function EventsSteps(k: EventsKind): seq<Step> {
    match k
    case EventsInProcess => [Acquire(InProcessBus)]
    case EventsAWS => [Attempt(ResolveCredentials), Acquire(EventBridge)]
    case EventsOther(name) => [Reject(UnknownEvents(name))]
  }

  function Steps(c: Option<Config>): seq<Step> {
    match c
    case None => [Reject(NilConfig)]
    case Some(cfg) => StorageSteps(cfg.storage) + (CacheSteps(cfg.cache) + (EventsSteps(cfg.events) + LateSteps()))
  }

  function LateSteps(): seq<Step> {
    [Attempt(BuildAWS)] + ([Attempt(BuildLLM)] + ([Attempt(BuildKnowledge)] +
      ([Attempt(BuildServices)] + [Attempt(BuildRouter)])))
  }

  function StepError(s: Step, world: World): Option<BuildError> {
    match s
    case Attempt(stage) =>
      (match world(stage) case None => None case Some(message) => Some(StageFailed(stage, message)))
    case Acquire(_) => None
    case Reject(error) => Some(error)
  }

  /** The error of the first step that fails. */
  function Failure(steps: seq<Step>, world: World): Option<BuildError> {
    if steps == [] then None
    else if StepError(steps[0], world).Some? then StepError(steps[0], world)
    else Failure(steps[1..], world)
  }

  /** What is acquired before it. */
  function Acquired(steps: seq<Step>, world: World): seq<Handle> {
    if steps == [] || StepError(steps[0], world).Some? then []
    else if steps[0].Acquire? then [steps[0].handle] + Acquired(steps[1..], world)
    else Acquired(steps[1..], world)
  }

  function Opens(handles: seq<Handle>): (events: seq<Event>)
    ensures |events| == |handles|
  {
    seq(|handles|, i requires 0 <= i < |handles| => Opened(handles[i]))
  }

  function Closes(handles: seq<Handle>): (events: seq<Event>)
    ensures |events| == |handles|
  {
    seq(|handles|, i requires 0 <= i < |handles| => Closed(handles[|handles| - 1 - i]))
  }

  lemma {:induction false} StepsAppend(a: seq<Step>, b: seq<Step>, world: World)
    ensures Failure(a + b, world) == if Failure(a, world).Some? then Failure(a, world) else Failure(b, world)
    ensures Acquired(a + b, world) ==
      if Failure(a, world).Some? then Acquired(a, world) else Acquired(a, world) + Acquired(b, world)
  {
    if a == [] {
      assert a + b == b;
    } else {
      StepsAppend(a[1..], b, world);
      assert (a + b)[1..] == a[1..] + b;
    }
  }

  /** A handle that is tried, opened, and then checked. */
  lemma CheckedOpen(first: Stage, h: Handle, last: Stage, world: World)
    ensures var steps := [Attempt(first), Acquire(h), Attempt(last)];
      && (world(first).Some? ==>
            Acquired(steps, world) == [] && Failure(steps, world) == Some(StageFailed(first, world(first).value)))
      && (world(first).None? ==> Acquired(steps, world) == [h])
      && (world(first).None? && world(last).Some? ==>
          Failure(steps, world) == Some(StageFailed(last, world(last).value)))
      && (world(first).None? && world(last).None? ==> Failure(steps, world).None?)
  {
    var one, two, three := [Attempt(last)], [Acquire(h), Attempt(last)], [Attempt(first), Acquire(h), Attempt(last)];
    assert three[1..] == two && two[1..] == one && |one[1..]| == 0;
    assert Acquired(one, world) == [] && Acquired(two, world) == [h];
    assert Failure([], world).None?;
    assert Failure(one, world) == Failure(two, world) == StepError(Attempt(last), world);
  }

  lemma SimpleOpen(first: Stage, h: Handle, error: BuildError, world: World)
    ensures Acquired([Acquire(h)], world) == [h] && Failure([Acquire(h)], world).None?
    ensures Acquired([Reject(error)], world) == [] && Failure([Reject(error)], world) == Some(error)
    ensures var steps := [Attempt(first), Acquire(h)];
      match world(first)
      case Some(message) => Acquired(steps, world) == [] && Failure(steps, world) == Some(StageFailed(first, message))
      case None => Acquired(steps, world) == [h] && Failure(steps, world).None?
  {
    assert [Attempt(first), Acquire(h)][1..] == [Acquire(h)];
  }

  // ---- the composition root --------------------------------------------------------------

  datatype Built<T> = Failed(error: BuildError) | Ready(value: T)

  /** A closer is nil, or closes its handle and may report an error for having done so. */
  type Closer = Option<Handle>

  function Held(closers: seq<Closer>): seq<Handle> {
    if closers == [] then []
    else if closers[|closers|-1].Some? then Held(closers[..|closers|-1]) + [closers[|closers|-1].value]
    else Held(closers[..|closers|-1])
  }

  /** What closers hold is what each holds, in order; a nil one holds nothing. */
  lemma {:induction false} HeldAppend(a: seq<Closer>, b: seq<Closer>)
    ensures Held(a + b) == Held(a) + Held(b)
    ensures Held([None]) == [] && forall h :: Held([Some(h)]) == [h]
  {
    if b == [] {
      assert a + b == a;
    } else {
      HeldAppend(a, b[..|b|-1]);
      assert (a + b)[..|a + b|-1] == a + b[..|b|-1];
    }
  }

  /** The errors of closing handles last to first. */
  function CloseErrors(handles: seq<Handle>, complaint: Handle -> Option<string>): seq<string> {
    if handles == [] then []
    else
      match complaint(handles[|handles|-1])
      case Some(message) => [message] + CloseErrors(handles[..|handles|-1], complaint)
      case None => CloseErrors(handles[..|handles|-1], complaint)
  }

  class App {
    var closers: seq<Closer>
    const journal: Journal
    const complaint: Handle -> Option<string>

    constructor (journal: Journal, complaint: Handle -> Option<string>)
      ensures this.journal == journal && this.complaint == complaint && closers == []
    {
      this.journal, this.complaint, closers := journal, complaint, [];
    }

    /** Safe to call more than once: the second call finds no closers. */
    method Close() returns (errs: seq<string>)
      modifies this`closers, journal
      ensures closers == []
      ensures journal.events == old(journal.events) + Closes(Held(old(closers)))
      ensures errs == CloseErrors(Held(old(closers)), complaint)
    {
      errs := CloseAll();
    }

    method CloseAll() returns (errs: seq<string>)
      modifies this`closers, journal
      ensures closers == []
      ensures journal.events == old(journal.events) + Closes(Held(old(closers)))
      ensures errs == CloseErrors(Held(old(closers)), complaint)
    {
      errs := [];
      var i := |closers|;
      assert closers[..i] == closers;
      while i > 0
        invariant 0 <= i <= |closers| && closers == old(closers)
        invariant old(journal.events) + Closes(Held(closers)) == journal.events + Closes(Held(closers[..i]))
        invariant CloseErrors(Held(closers), complaint) == errs + CloseErrors(Held(closers[..i]), complaint)
      {
        i := i - 1;
        CloseStep(journal.events, errs, closers, i, complaint);
        match closers[i] {
          case None =>
          case Some(h) =>
            journal.events := journal.events + [Closed(h)];
            match complaint(h) {
              case None =>
              case Some(message) => errs := errs + [message];
            }
        }
      }
      closers := [];
    }
  }

  lemma CloseStep(events: seq<Event>, errs: seq<string>, closers: seq<Closer>, i: nat,
          complaint: Handle -> Option<string>)
    requires i < |closers|
    ensures closers[i] == None ==> Held(closers[..i+1]) == Held(closers[..i])
    ensures closers[i].Some? ==>
      && events + Closes(Held(closers[..i+1])) == events + [Closed(closers[i].value)] + Closes(Held(closers[..i]))
      && errs + CloseErrors(Held(closers[..i+1]), complaint) ==
         match complaint(closers[i].value)
         case Some(message) => errs + [message] + CloseErrors(Held(closers[..i]), complaint)
         case None => errs + CloseErrors(Held(closers[..i]), complaint)
  {
    assert closers[..i+1][..i] == closers[..i];
    if closers[i].Some? {
      var rest, h := Held(closers[..i]), closers[i].value;
      assert Held(closers[..i+1]) == rest + [h] && (rest + [h])[..|rest|] == rest;
      assert Closes(rest + [h]) == [Closed(h)] + Closes(rest);
    }
  }

  /** What a part that opens one handle leaves: that handle open, or an error and nothing open. */
  ghost predicate Delivers(r: Built<Handle>, steps: seq<Step>, world: World, before: seq<Event>, after: seq<Event>) {
    match r
    case Ready(h) => Failure(steps, world).None? && Acquired(steps, world) == [h] && after == before + [Opened(h)]
    case Failed(error) =>
      && Failure(steps, world) == Some(error)
      && after == before + Opens(Acquired(steps, world)) + Closes(Acquired(steps, world))
  }

  /** A handle that is opened if its stage passes, and closed again if the stage after that does not. */
  ghost predicate Checked(r: Built<Handle>, opening: Stage, h: Handle, checking: Stage, world: World,
          before: seq<Event>, after: seq<Event>) {
    match (world(opening), world(checking))
    case (Some(message), _) => r == Failed(StageFailed(opening, message)) && after == before
    case (None, Some(message)) =>
      r == Failed(StageFailed(checking, message)) && after == before + [Opened(h)] + [Closed(h)]
    case (None, None) => r == Ready(h) && after == before + [Opened(h)]
  }

  /** Closes the database again when its migrations cannot be applied. */
  method BuildStorage(kind: StorageKind, world: World, journal: Journal) returns (r: Built<Handle>)
    modifies journal
    ensures Delivers(r, StorageSteps(kind), world, old(journal.events), journal.events)
    ensures match kind
      case StorageMemory => r == Ready(MemoryStore) && journal.events == old(journal.events) + [Opened(MemoryStore)]
      case StorageOther(name) => r == Failed(UnknownStorage(name)) && journal.events == old(journal.events)
      case StoragePostgres => Checked(r, OpenDatabase, Database, Migrate, world, old(journal.events), journal.events)
  {
    CheckedOpen(OpenDatabase, Database, Migrate, world);
    match kind {
      case StorageMemory =>
        SimpleOpen(Migrate, MemoryStore, NilConfig, world);
        journal.events := journal.events + [Opened(MemoryStore)];
        return Ready(MemoryStore);
      case StoragePostgres =>
        var opening := world(OpenDatabase);
        if opening.Some? {
          return Failed(StageFailed(OpenDatabase, opening.value));
        }
        journal.events := journal.events + [Opened(Database)];
        var migrating := world(Migrate);
        if migrating.Some? {
          journal.events := journal.events + [Closed(Database)];
          return Failed(StageFailed(Migrate, migrating.value));
        }
        return Ready(Database);
      case StorageOther(name) =>
        return Failed(UnknownStorage(name));
    }
  }

  /** Closes the client again when the server does not answer, dropping the close's own error. */
  method BuildCache(kind: CacheKind, world: World, journal: Journal) returns (r: Built<Handle>)
    modifies journal
    ensures Delivers(r, CacheSteps(kind), world, old(journal.events), journal.events)
    ensures match kind
      case CacheMemory => r == Ready(MemoryCache) && journal.events == old(journal.events) + [Opened(MemoryCache)]
      case CacheOther(name) => r == Failed(UnknownCache(name)) && journal.events == old(journal.events)
      case CacheRedis => Checked(r, OpenRedis, RedisClient, PingRedis, world, old(journal.events), journal.events)
  {
    CheckedOpen(OpenRedis, RedisClient, PingRedis, world);
    match kind {
      case CacheMemory =>
        SimpleOpen(OpenRedis, MemoryCache, NilConfig, world);
        journal.events := journal.events + [Opened(MemoryCache)];
        return Ready(MemoryCache);
      case CacheRedis =>
        var opening := world(OpenRedis);
        if opening.Some? {
          return Failed(StageFailed(OpenRedis, opening.value));
        }
        journal.events := journal.events + [Opened(RedisClient)];
        var ping := world(PingRedis);
        if ping.Some? {
          journal.events := journal.events + [Closed(RedisClient)];
          return Failed(StageFailed(PingRedis, ping.value));
        }
        return Ready(RedisClient);
      case CacheOther(name) =>
        return Failed(UnknownCache(name));
    }
  }

  method BuildEvents(kind: EventsKind, world: World, journal: Journal) returns (r: Built<Handle>)
    modifies journal
    ensures Delivers(r, EventsSteps(kind), world, old(journal.events), journal.events)
    ensures match kind
      case EventsInProcess => r == Ready(InProcessBus) && journal.events == old(journal.events) + [Opened(InProcessBus)]
      case EventsOther(name) => r == Failed(UnknownEvents(name)) && journal.events == old(journal.events)
      case EventsAWS =>
        if world(ResolveCredentials).Some?
        then r == Failed(StageFailed(ResolveCredentials, world(ResolveCredentials).value)) &&
             journal.events == old(journal.events)
        else r == Ready(EventBridge) && journal.events == old(journal.events) + [Opened(EventBridge)]
  {
    match kind {
      case EventsInProcess =>
        SimpleOpen(ResolveCredentials, InProcessBus, NilConfig, world);
        journal.events := journal.events + [Opened(InProcessBus)];
        return Ready(InProcessBus);
      case EventsAWS =>
        SimpleOpen(ResolveCredentials, EventBridge, NilConfig, world);
        var resolving := world(ResolveCredentials);
        if resolving.Some? {
          return Failed(StageFailed(ResolveCredentials, resolving.value));
        }
        journal.events := journal.events + [Opened(EventBridge)];
        return Ready(EventBridge);
      case EventsOther(name) =>
        return Failed(UnknownEvents(name));
    }
  }

  // ---- what decides, told by configuration and world ----------------------------------------

  function StorageComplaint(k: StorageKind, world: World): Option<BuildError> {
    match k
    case StorageMemory => None
    case StoragePostgres => Earlier(Passes(OpenDatabase, world), Passes(Migrate, world))
    case StorageOther(name) => Some(UnknownStorage(name))
  }

  function CacheComplaint(k: CacheKind, world: World): Option<BuildError> {
    match k
    case CacheMemory => None
    case CacheRedis => Earlier(Passes(OpenRedis, world), Passes(PingRedis, world))
    case CacheOther(name) => Some(UnknownCache(name))
  }

  function EventsComplaint(k: EventsKind, world: World): Option<BuildError> {
    match k
    case EventsInProcess => None
    case EventsAWS => Passes(ResolveCredentials, world)
    case EventsOther(name) => Some(UnknownEvents(name))
  }

  /** None if the stage passes, else its error. */
  function Passes(stage: Stage, world: World): Option<BuildError> {
    match world(stage)
    case None => None
    case Some(message) => Some(StageFailed(stage, message))
  }

  function Earlier<T>(a: Option<T>, b: Option<T>): Option<T> { if a.Some? then a else b }

  /** The first thing wrong, in the order Build looks: no configuration, the storage, the cache, the
      events, and then the five late stages. */
  function Complaint(config: Option<Config>, world: World): Option<BuildError> {
    match config
    case None => Some(NilConfig)
    case Some(c) =>
      Earlier(StorageComplaint(c.storage, world), Earlier(CacheComplaint(c.cache, world),
        Earlier(EventsComplaint(c.events, world), Earlier(Passes(BuildAWS, world), Earlier(Passes(BuildLLM, world),
          Earlier(Passes(BuildKnowledge, world), Earlier(Passes(BuildServices, world),
            Passes(BuildRouter, world))))))))
  }

  /** What a built application holds: one handle for each of storage, cache and events. */
  function HandlesOf(c: Config): seq<Handle> {
    [if c.storage.StoragePostgres? then Database else MemoryStore] +
    [if c.cache.CacheRedis? then RedisClient else MemoryCache] +
    [if c.events.EventsAWS? then EventBridge else InProcessBus]
  }

  /** Build is ready if and only if every stage its configuration calls for passes and every kind it
      names is known. */
  lemma ReadyIff(c: Config, world: World)
    ensures Complaint(Some(c), world).None? <==>
      && (c.storage.StorageMemory? || (c.storage.StoragePostgres? && world(OpenDatabase).None? && world(Migrate).None?))
      && (c.cache.CacheMemory? || (c.cache.CacheRedis? && world(OpenRedis).None? && world(PingRedis).None?))
      && (c.events.EventsInProcess? || (c.events.EventsAWS? && world(ResolveCredentials).None?))
      && world(BuildAWS).None? && world(BuildLLM).None? && world(BuildKnowledge).None?
      && world(BuildServices).None? && world(BuildRouter).None?
  {
  }

  predicate Needed(c: Config, stage: Stage) {
    match stage
    case OpenDatabase => c.storage.StoragePostgres?
    case Migrate => c.storage.StoragePostgres?
    case OpenRedis => c.cache.CacheRedis?
    case PingRedis => c.cache.CacheRedis?
    case ResolveCredentials => c.events.EventsAWS?
    case _ => true
  }

  /** The order in which Build comes to its stages. */
  function Turn(stage: Stage): nat {
    match stage
    case OpenDatabase => 0
    case Migrate => 1
    case OpenRedis => 2
    case PingRedis => 3
    case ResolveCredentials => 4
    case BuildAWS => 5
    case BuildLLM => 6
    case BuildKnowledge => 7
    case BuildServices => 8
    case BuildRouter => 9
  }

  /** With known kinds, the first needed stage that fails gives the error, whatever those after it do. */
  lemma StageDecides(c: Config, world: World, stage: Stage)
    requires !c.storage.StorageOther? && !c.cache.CacheOther? && !c.events.EventsOther?
    requires Needed(c, stage) && world(stage).Some?
    requires forall t | Needed(c, t) && Turn(t) < Turn(stage) :: world(t).None?
    ensures Complaint(Some(c), world) == Some(StageFailed(stage, world(stage).value))
  {
    assert forall t | Needed(c, t) && Turn(t) < Turn(stage) :: Passes(t, world).None?;
  }

  lemma LateFailure(world: World)
    ensures Failure(LateSteps(), world) ==
      Earlier(Passes(BuildAWS, world), Earlier(Passes(BuildLLM, world), Earlier(Passes(BuildKnowledge, world),
        Earlier(Passes(BuildServices, world), Passes(BuildRouter, world)))))
    ensures Acquired(LateSteps(), world) == []
  {
    NothingLate(world);
    var a, b, c := [Attempt(BuildAWS)], [Attempt(BuildLLM)], [Attempt(BuildKnowledge)];
    var d, e := [Attempt(BuildServices)], [Attempt(BuildRouter)];
    StepsAppend(a, b + (c + (d + e)), world);
    StepsAppend(b, c + (d + e), world);
    StepsAppend(c, d + e, world);
    StepsAppend(d, e, world);
  }

  lemma PartFailures(c: Config, world: World)
    ensures Failure(StorageSteps(c.storage), world) == StorageComplaint(c.storage, world)
    ensures Failure(CacheSteps(c.cache), world) == CacheComplaint(c.cache, world)
    ensures Failure(EventsSteps(c.events), world) == EventsComplaint(c.events, world)
    ensures StorageComplaint(c.storage, world).None? ==> Acquired(StorageSteps(c.storage), world) == HandlesOf(c)[..1]
    ensures CacheComplaint(c.cache, world).None? ==> Acquired(CacheSteps(c.cache), world) == HandlesOf(c)[1..2]
    ensures EventsComplaint(c.events, world).None? ==> Acquired(EventsSteps(c.events), world) == HandlesOf(c)[2..]
  {
    CheckedOpen(OpenDatabase, Database, Migrate, world);
    CheckedOpen(OpenRedis, RedisClient, PingRedis, world);
    SimpleOpen(ResolveCredentials, EventBridge, NilConfig, world);
  }

  /** The step list Build is proved against fails with the complaint, and if there is none acquires one
      handle a part. */
  lemma ErrorIsComplaint(config: Option<Config>, world: World)
    ensures Failure(Steps(config), world) == Complaint(config, world)
    ensures Complaint(config, world).None? ==> Acquired(Steps(config), world) == HandlesOf(config.value)
  {
    if config.Some? {
      var c := config.value;
      PartFailures(c, world);
      LateFailure(world);
      StepsAppend(StorageSteps(c.storage), CacheSteps(c.cache) + (EventsSteps(c.events) + LateSteps()), world);
      StepsAppend(CacheSteps(c.cache), EventsSteps(c.events) + LateSteps(), world);
      StepsAppend(EventsSteps(c.events), LateSteps(), world);
    }
  }

  // ---- building --------------------------------------------------------------------------

  /** What Build may leave behind. On failure everything opened has been closed, last first, and
      the error is the first failing step's; on success nothing has, and the closers hold exactly
      what was opened. */
  ghost predicate Outcome(steps: seq<Step>, world: World, error: Option<BuildError>, before: seq<Event>,
          after: seq<Event>, held: seq<Handle>) {
    && Failure(steps, world) == error
    && match error
       case Some(_) => after == before + Opens(Acquired(steps, world)) + Closes(Acquired(steps, world)) && held == []
       case None => after == before + Opens(Acquired(steps, world)) && held == Acquired(steps, world)
  }

  /** Build between two parts: the steps done have all succeeded, and the closers hold what they
      opened. */
  ghost predicate Halfway(done: seq<Step>, world: World, before: seq<Event>, now: seq<Event>, closers: seq<Closer>) {
    && Failure(done, world).None?
    && now == before + Opens(Acquired(done, world))
    && Held(closers) == Acquired(done, world)
  }

  lemma Nested(a: seq<Handle>, b: seq<Handle>)
    ensures Opens(a + b) == Opens(a) + Opens(b)
    ensures Closes(a + b) == Closes(b) + Closes(a)
  {
  }

  lemma Advance(done: seq<Step>, part: seq<Step>, world: World, before: seq<Event>,
          now: seq<Event>, next: seq<Event>,
                closers: seq<Closer>, h: Handle)
    requires Halfway(done, world, before, now, closers) && Delivers(Ready(h), part, world, now, next)
    ensures Halfway(done + part, world, before, next, closers + [Some(h)])
  {
    StepsAppend(done, part, world);
    Nested(Acquired(done, world), [h]);
    assert (closers + [Some(h)])[..|closers|] == closers;
    assert Opens([h]) == [Opened(h)];
  }

  lemma GiveUp(done: seq<Step>, part: seq<Step>, rest: seq<Step>, world: World,
          before: seq<Event>, now: seq<Event>,
               next: seq<Event>, closers: seq<Closer>, error: BuildError)
    requires Halfway(done, world, before, now, closers) && Delivers(Failed(error), part, world, now, next)
    ensures Outcome(done + (part + rest), world, Some(error), before, next + Closes(Held(closers)), [])
  {
    StepsAppend(part, rest, world);
    StepsAppend(done, part + rest, world);
    var a, b := Acquired(done, world), Acquired(part, world);
    Nested(a, b);
    Sandwich(before, Opens(a), Opens(b), Closes(b), Closes(a));
    Nested(a, []);
  }

  lemma Sandwich<T>(s: seq<T>, oa: seq<T>, ob: seq<T>, cb: seq<T>, ca: seq<T>)
    ensures s + oa + ob + cb + ca == s + (oa + ob) + (cb + ca)
  {
  }

  lemma Passed(done: seq<Step>, stage: Stage, world: World, before: seq<Event>, now: seq<Event>, closers: seq<Closer>)
    requires Halfway(done, world, before, now, closers) && world(stage).None?
    ensures Halfway(done + [Attempt(stage)], world, before, now, closers)
  {
    StepsAppend(done, [Attempt(stage)], world);
    assert Acquired(done, world) + [] == Acquired(done, world);
  }

  lemma Refused(stage: Stage, world: World, now: seq<Event>)
    requires world(stage).Some?
    ensures Delivers(Failed(StageFailed(stage, world(stage).value)), [Attempt(stage)], world, now, now)
  {
    assert now + Opens([]) + Closes([]) == now;
  }

  function ErrorOf(r: Built<App>): Option<BuildError> {
    match r
    case Failed(error) => Some(error)
    case Ready(_) => None
  }

  /** A stage that holds nothing itself: its failure closes everything acquired before it. */
  method Try(app: App, stage: Stage, world: World, ghost done: seq<Step>, ghost rest: seq<Step>,
          ghost before: seq<Event>)
    returns (error: Option<BuildError>)
    requires Halfway(done, world, before, app.journal.events, app.closers)
    modifies app`closers, app.journal
    ensures error.Some? ==>
      Outcome(done + ([Attempt(stage)] + rest), world, error, before, app.journal.events, Held(app.closers))
    ensures error.None? ==>
      Halfway(done + [Attempt(stage)], world, before, app.journal.events, app.closers)
  {
    var outcome := world(stage);
    if outcome.Some? {
      Refused(stage, world, app.journal.events);
      GiveUp(done, [Attempt(stage)], rest, world, before, app.journal.events, app.journal.events, app.closers,
        StageFailed(stage, outcome.value));
      var _ := app.CloseAll();
      return Some(StageFailed(stage, outcome.value));
    }
    Passed(done, stage, world, before, app.journal.events, app.closers);
    return None;
  }

  /** The stages after the resources: adapters, model, knowledge, services and router. */
  method BuildRest(app: App, world: World, ghost done: seq<Step>, ghost before: seq<Event>)
    returns (error: Option<BuildError>)
    requires Halfway(done, world, before, app.journal.events, app.closers)
    modifies app`closers, app.journal
    ensures Outcome(done + LateSteps(), world, error, before, app.journal.events, Held(app.closers))
  {
    ghost var a, b, c := [Attempt(BuildAWS)], [Attempt(BuildLLM)], [Attempt(BuildKnowledge)];
    ghost var d, e := [Attempt(BuildServices)], [Attempt(BuildRouter)];
    Reassociate(done, a, b + (c + (d + e)));
    Reassociate(done + a, b, c + (d + e));
    Reassociate(done + a + b, c, d + e);
    Reassociate(done + a + b + c, d, e);
    error := Try(app, BuildAWS, world, done, b + (c + (d + e)), before);
    if error.Some? { return; }
    error := Try(app, BuildLLM, world, done + a, c + (d + e), before);
    if error.Some? { return; }
    error := Try(app, BuildKnowledge, world, done + a + b, d + e, before);
    if error.Some? { return; }
    error := Try(app, BuildServices, world, done + a + b + c, e, before);
    if error.Some? { return; }
    assert e + [] == e;
    error := Try(app, BuildRouter, world, done + a + b + c + d, [], before);
  }

  method Build(config: Option<Config>, world: World, complaint: Handle -> Option<string>, journal: Journal)
    returns (r: Built<App>)
    modifies journal
    ensures r.Ready? ==> fresh(r.value) && r.value.journal == journal && r.value.complaint == complaint
    ensures Outcome(Steps(config), world, ErrorOf(r), old(journal.events), journal.events,
      if r.Ready? then Held(r.value.closers) else [])
    ensures ErrorOf(r) == Complaint(config, world)
    ensures r.Ready? ==>
      && journal.events == old(journal.events) + Opens(HandlesOf(config.value))
      && Held(r.value.closers) == HandlesOf(config.value)
  {
    ErrorIsComplaint(config, world);
    if config.None? {
      return Failed(NilConfig);
    }
    var cfg := config.value;
    ghost var before := journal.events;
    var app := new App(journal, complaint);

    var storage := BuildStorage(cfg.storage, world, journal);
    ghost var late := CacheSteps(cfg.cache) + (EventsSteps(cfg.events) + LateSteps());
    assert before + Opens([]) == before && journal.events + Closes([]) == journal.events;
    assert [] + Steps(config) == Steps(config) && [] + StorageSteps(cfg.storage) == StorageSteps(cfg.storage);
    if storage.Failed? {
      GiveUp([], StorageSteps(cfg.storage), late, world, before, before, journal.events, [], storage.error);
      return Failed(storage.error);
    }
    Advance([], StorageSteps(cfg.storage), world, before, before, journal.events, [], storage.value);
    app.closers := app.closers + [Some(storage.value)];

    ghost var done := StorageSteps(cfg.storage);
    ghost var now := journal.events;
    var cache := BuildCache(cfg.cache, world, journal);
    if cache.Failed? {
      GiveUp(done, CacheSteps(cfg.cache), EventsSteps(cfg.events) + LateSteps(), world,
        before, now, journal.events, app.closers, cache.error);
      var _ := app.CloseAll();
      return Failed(cache.error);
    }
    Advance(done, CacheSteps(cfg.cache), world, before, now, journal.events, app.closers, cache.value);
    app.closers := app.closers + [Some(cache.value)];

    done, now := done + CacheSteps(cfg.cache), journal.events;
    var events := BuildEvents(cfg.events, world, journal);
    if events.Failed? {
      GiveUp(done, EventsSteps(cfg.events), LateSteps(), world, before, now, journal.events, app.closers, events.error);
      Reassociate(StorageSteps(cfg.storage), CacheSteps(cfg.cache), EventsSteps(cfg.events) + LateSteps());
      var _ := app.CloseAll();
      return Failed(events.error);
    }
    Advance(done, EventsSteps(cfg.events), world, before, now, journal.events, app.closers, events.value);
    app.closers := app.closers + [Some(events.value)];
    done := done + EventsSteps(cfg.events);
    Reassociate(StorageSteps(cfg.storage), CacheSteps(cfg.cache), EventsSteps(cfg.events) + LateSteps());
    Reassociate(StorageSteps(cfg.storage) + CacheSteps(cfg.cache), EventsSteps(cfg.events), LateSteps());
    var error := BuildRest(app, world, done, before);
    if error.Some? {
      return Failed(error.value);
    }
    return Ready(app);
  }

  lemma Reassociate(a: seq<Step>, b: seq<Step>, c: seq<Step>)
    ensures [] + a == a
    ensures a + b + c == a + (b + c)
  {
  }

  // ---- the discipline, told independently -----------------------------------------------------

  /** The handles a journal leaves open, most recent last; None if it closes anything but the most
      recently opened handle that is still open. */
  function Replay(events: seq<Event>, open: seq<Handle>): Option<seq<Handle>> {
    if events == [] then Some(open)
    else match events[0]
      case Opened(h) => Replay(events[1..], open + [h])
      case Closed(h) =>
        if open != [] && open[|open|-1] == h then Replay(events[1..], open[..|open|-1]) else None
  }

  lemma {:induction false} ReplayAppend(a: seq<Event>, b: seq<Event>, open: seq<Handle>)
    ensures Replay(a + b, open) ==
      match Replay(a, open)
      case Some(mid) => Replay(b, mid)
      case None => None
  {
    if a == [] {
      assert a + b == b;
    } else {
      assert (a + b)[1..] == a[1..] + b;
      match a[0]
      case Opened(h) => ReplayAppend(a[1..], b, open + [h]);
      case Closed(h) =>
        if open != [] && open[|open|-1] == h { ReplayAppend(a[1..], b, open[..|open|-1]); }
    }
  }

  lemma {:induction false} ReplayOpens(handles: seq<Handle>, open: seq<Handle>)
    ensures Replay(Opens(handles), open) == Some(open + handles)
  {
    if handles == [] {
      assert open + handles == open;
    } else {
      ReplayOpens(handles[1..], open + [handles[0]]);
      assert Opens(handles)[1..] == Opens(handles[1..]);
      assert open + [handles[0]] + handles[1..] == open + handles;
    }
  }

  lemma {:induction false} ReplayCloses(handles: seq<Handle>, open: seq<Handle>)
    ensures Replay(Closes(handles), open + handles) == Some(open)
  {
    if handles == [] {
      assert open + handles == open;
    } else {
      var rest := handles[..|handles|-1];
      ReplayCloses(rest, open);
      assert Closes(handles)[1..] == Closes(rest);
      assert (open + handles)[..|open + handles|-1] == open + rest;
    }
  }

  /** Build never leaks: whatever configuration and whichever stage fails, the journal stays well
      bracketed, with nothing of Build's left open on failure and exactly what its closers hold on
      success. */
  lemma BuildNeverLeaks(steps: seq<Step>, world: World, error: Option<BuildError>,
          before: seq<Event>, after: seq<Event>,
                        held: seq<Handle>, open: seq<Handle>)
    requires Outcome(steps, world, error, before, after, held) && Replay(before, []) == Some(open)
    ensures Replay(after, []) == Some(open + held)
  {
    var a := Acquired(steps, world);
    ReplayOpens(a, open);
    ReplayAppend(before, Opens(a), []);
    if error.Some? {
      ReplayCloses(a, open);
      ReplayAppend(before + Opens(a), Closes(a), []);
      assert open + [] == open;
    }
  }

  /** Closing what an App holds empties it, and closing again finds nothing: after Build and any
      number of closes, one or more, the journal is as balanced as before Build. */
  lemma ClosedForGood(events: seq<Event>, held: seq<Handle>, open: seq<Handle>, closes: nat)
    requires Replay(events, []) == Some(open + held) && closes > 0
    ensures Replay(CloseTimes(events, held, closes), []) == Some(open)
    ensures CloseTimes(events, held, closes) == events + Closes(held)
  {
    NothingMore(events + Closes(held), closes - 1);
    CloseEmpties(events, held, open);
  }

  lemma CloseEmpties(events: seq<Event>, held: seq<Handle>, open: seq<Handle>)
    requires Replay(events, []) == Some(open + held)
    ensures Replay(events + Closes(held), []) == Some(open)
  {
    ReplayCloses(held, open);
    ReplayAppend(events, Closes(held), []);
  }

  /** The journal after some calls of Close, by its contract. */
  function CloseTimes(events: seq<Event>, held: seq<Handle>, closes: nat): seq<Event>
    decreases closes
  {
    if closes == 0 then events else CloseTimes(events + Closes(held), [], closes - 1)
  }

  lemma {:induction false} NothingMore(events: seq<Event>, closes: nat)
    ensures CloseTimes(events, [], closes) == events
  {
    if closes > 0 {
      assert events + Closes([]) == events;
      NothingMore(events, closes - 1);
    }
  }

  /** No two things Build opens are the same handle, so each is opened once and closed once. */
  lemma AcquiredOnce(config: Option<Config>, world: World)
    ensures var a := Acquired(Steps(config), world); forall i, j | 0 <= i < j < |a| :: a[i] != a[j]
  {
    if config.Some? {
      PartHandles(config.value, world);
      var b, c := AcquiredShape(config.value, world);
    }
  }

  /** One part's handles after another's, as far as Build got. */
  lemma AcquiredShape(cfg: Config, world: World) returns (b: seq<Handle>, c: seq<Handle>)
    ensures Acquired(Steps(Some(cfg)), world) == Acquired(StorageSteps(cfg.storage), world) + b + c
    ensures b in {[], Acquired(CacheSteps(cfg.cache), world)}
    ensures c in {[], Acquired(EventsSteps(cfg.events), world)}
  {
    EventsLast(cfg, world);
    var rest := CacheSteps(cfg.cache) + (EventsSteps(cfg.events) + LateSteps());
    StepsAppend(StorageSteps(cfg.storage), rest, world);
    StepsAppend(CacheSteps(cfg.cache), EventsSteps(cfg.events) + LateSteps(), world);
    b, c := [], [];
    if Failure(StorageSteps(cfg.storage), world).None? {
      b := Acquired(CacheSteps(cfg.cache), world);
      if Failure(CacheSteps(cfg.cache), world).None? { c := Acquired(EventsSteps(cfg.events), world); }
    }
    Join3(Acquired(StorageSteps(cfg.storage), world), b, c);
  }

  lemma Join3<T>(a: seq<T>, b: seq<T>, c: seq<T>)
    ensures a + b + c == a + (b + c) && a + [] == a && b + [] == b
  {
  }

  lemma EventsLast(cfg: Config, world: World)
    ensures Acquired(EventsSteps(cfg.events) + LateSteps(), world) == Acquired(EventsSteps(cfg.events), world)
  {
    NothingLate(world);
    StepsAppend(EventsSteps(cfg.events), LateSteps(), world);
  }

  lemma PartHandles(cfg: Config, world: World)
    ensures |Acquired(StorageSteps(cfg.storage), world)| <= 1 && |Acquired(CacheSteps(cfg.cache), world)| <= 1
    ensures |Acquired(EventsSteps(cfg.events), world)| <= 1
    ensures forall h | h in Acquired(StorageSteps(cfg.storage), world) :: h in {MemoryStore, Database}
    ensures forall h | h in Acquired(CacheSteps(cfg.cache), world) :: h in {MemoryCache, RedisClient}
    ensures forall h | h in Acquired(EventsSteps(cfg.events), world) :: h in {InProcessBus, EventBridge}
  {
    CheckedOpen(OpenDatabase, Database, Migrate, world);
    CheckedOpen(OpenRedis, RedisClient, PingRedis, world);
    SimpleOpen(ResolveCredentials, EventBridge, NilConfig, world);
  }

  lemma NothingLate(world: World)
    ensures Acquired(LateSteps(), world) == []
  {
    NoAcquire(LateSteps(), world);
  }

  lemma {:induction false} NoAcquire(steps: seq<Step>, world: World)
    requires forall s | s in steps :: !s.Acquire?
    ensures Acquired(steps, world) == []
  {
    if steps != [] { NoAcquire(steps[1..], world); }
  }

  /** The error is that of the step at which every earlier one succeeded, and only what was acquired
      before it is ever opened. */
  lemma {:induction false} FailsAt(steps: seq<Step>, world: World, i: nat)
    requires i < |steps| && StepError(steps[i], world).Some?
    requires forall j | 0 <= j < i :: StepError(steps[j], world).None?
    ensures Failure(steps, world) == StepError(steps[i], world)
    ensures Acquired(steps, world) == Acquired(steps[..i], world)
  {
    if i > 0 {
      FailsAt(steps[1..], world, i - 1);
      assert steps[1..][..i-1] == steps[..i][1..];
    }
  }

  /** The errors come in the order in which the handles are closed. */
  lemma {:induction false} ErrorsInTurn(a: seq<Handle>, b: seq<Handle>, complaint: Handle -> Option<string>)
    ensures CloseErrors(a + b, complaint) == CloseErrors(b, complaint) + CloseErrors(a, complaint)
  {
    if b == [] {
      assert a + b == a;
    } else {
      var rest := b[..|b|-1];
      ErrorsInTurn(a, rest, complaint);
      assert (a + b)[..|a + b|-1] == a + rest;
    }
  }

  lemma OneError(h: Handle, complaint: Handle -> Option<string>)
    ensures CloseErrors([h], complaint) == if complaint(h).Some? then [complaint(h).value] else []
  {
    assert [h][..0] == [];
  }

  /** A closer's error is kept and stops nothing: the errors are those of exactly the handles that
      complain, all of which have been closed. */
  lemma {:induction false} EveryComplaintKept(handles: seq<Handle>, complaint: Handle -> Option<string>)
    ensures forall m :: m in CloseErrors(handles, complaint) <==> exists h :: h in handles && complaint(h) == Some(m)
    ensures forall h :: h in handles <==> Closed(h) in Closes(handles)
  {
    if handles != [] {
      var rest, last := handles[..|handles|-1], handles[|handles|-1];
      EveryComplaintKept(rest, complaint);
      assert handles == rest + [last] && Closes(handles) == [Closed(last)] + Closes(rest);
    }
  }
}
