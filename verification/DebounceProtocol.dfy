/**
 * The debounce protocol: any number of workers turn signals into work items.
 *
 * Redis holds one session hash and one lock per component, Postgres holds the
 * work items behind a partial unique index ("at most one row per component that
 * is not CLOSED"). Every await of the source is a separate step here, so any
 * interleaving of workers, clock ticks, expiries, lock losses and closes is a
 * sequence of actions.
 */
module DebounceProtocol {
  import opened Options

  type Component = string
  type ItemId = nat
  type WorkerId = nat

  datatype Config = Config(windowMs: nat, threshold: nat, lockWaitTimeoutMs: nat)

  /** A work item row; its id is its position. `creator` remembers whose insert committed it. */
  datatype Item = Item(component: Component, closed: bool, creator: WorkerId)

  /**
   * The Redis hash. HSET writes all three fields; HINCRBY on an absent key leaves
   * a hash that has only a count. `gen` numbers the HSETs of the run.
   */
  datatype Session =
    | Seeded(item: ItemId, count: nat, startedAt: int, gen: nat)
    | CountOnly(count: nat)

  datatype Link = Link(item: ItemId, created: bool)

  datatype Phase =
    | Idle
    | ReadSession
    | JudgeSession(raw: Option<Session>)
    | Bump(item: ItemId, gen: nat)
    | TryLock
    | PollCheck(deadline: int)
    | PollRead(deadline: int)
    | PollJudge(deadline: int, raw: Option<Session>)
    | Find(holds: bool)
    | Insert(holds: bool, attempt: nat)
    | FindWinner(holds: bool)
    | StampSeed(holds: bool, link: Link)
    | WriteSeed(holds: bool, link: Link, startedAt: int)
    | ExpireSeed(holds: bool, link: Link)
    | Unlock(outcome: Option<Link>)
    | Return(link: Link)

  datatype Worker = Worker(component: Component, phase: Phase)

  /** One HSET of the run and the fast-path links served from it so far. */
  datatype Seeding = Seeding(component: Component, served: nat)

  datatype Result = Result(worker: WorkerId, component: Component, link: Link)

  /**
   * `results`, `seedings` and `storeVisits` record the history of the run: what was
   * returned, how many fast-path links each seeding has served, and how often
   * the store was consulted.
   */
  datatype State = State(
    items: seq<Item>,
    sessions: map<Component, Session>,
    locks: set<Component>,
    clock: int,
    workers: seq<Worker>,
    results: seq<Result>,
    seedings: seq<Seeding>,
    storeVisits: nat)

  datatype Action =
    | Start(w: WorkerId, component: Component)
    | Advance(w: WorkerId)
    | LoseAck(w: WorkerId)       // the insert commits, the reply is a transient error
    | Abort(w: WorkerId)         // the insert does not commit, the reply is a transient error
    | Throw(w: WorkerId)         // the pending await rejects without effect
    | LoseReply(w: WorkerId)     // the pending Redis write takes effect, the await rejects
    | Tick(ms: int)              // also back: the next to act may read another process's clock
    | ExpireSession(component: Component)
    | DropLock(component: Component)
    | ForeignLock(component: Component)
    | CloseItem(id: ItemId)

  const INSERT_ATTEMPTS := 3

  function Init(k: nat): State {
    State([], map[], {}, 0, seq(k, _ => Worker("", Idle)), [], [], 0)
  }

  // ---------------------------------------------------------------- reading the stores

  predicate IsActive(items: seq<Item>, c: Component, id: ItemId) {
    id < |items| && items[id].component == c && !items[id].closed
  }

  /** The first active row of a component at or after position `from`. */
  function FirstActive(items: seq<Item>, c: Component, from: nat := 0): (r: Option<ItemId>)
    ensures r.Some? ==> from <= r.value && IsActive(items, c, r.value)
    ensures r.None? ==> forall id :: from <= id ==> !IsActive(items, c, id)
    decreases |items| - from
  {
    if from >= |items| then None
    else if IsActive(items, c, from) then Some(from)
    else FirstActive(items, c, from + 1)
  }

  function Fetch(s: State, c: Component): Option<Session> {
    if c in s.sessions then Some(s.sessions[c]) else None
  }

  /** `readValidSession` after its HGETALL: seeded, below the threshold, inside the window. */
  predicate Trusted(cfg: Config, raw: Option<Session>, now: int) {
    && raw.Some?
    && raw.value.Seeded?
    && raw.value.count < cfg.threshold
    && now - raw.value.startedAt < cfg.windowMs
  }

  function Increment(old_: Option<Session>): Session {
    match old_
    case None => CountOnly(1)
    case Some(CountOnly(n)) => CountOnly(n + 1)
    case Some(Seeded(item, n, at, gen)) => Seeded(item, n + 1, at, gen)
  }

  function Serve(seedings: seq<Seeding>, gen: nat): seq<Seeding> {
    if gen < |seedings| then seedings[gen := seedings[gen].(served := seedings[gen].served + 1)] else seedings
  }

  // ---------------------------------------------------------------- one step

  function Goto(s: State, w: WorkerId, p: Phase): State
    requires w < |s.workers|
  {
    s.(workers := s.workers[w := s.workers[w].(phase := p)])
  }

  predicate HoldsLock(p: Phase) {
    match p
    case Find(h) => h
    case Insert(h, _) => h
    case FindWinner(h) => h
    case StampSeed(h, _) => h
    case WriteSeed(h, _, _) => h
    case ExpireSeed(h, _) => h
    case _ => false
  }

  /** Leaving with an exception: the `finally` block still deletes the lock. */
  function Raise(s: State, w: WorkerId): State
    requires w < |s.workers|
  {
    Goto(s, w, if HoldsLock(s.workers[w].phase) then Unlock(None) else Idle)
  }

  /** Leaving `resolveFromStore` normally. */
  function Finish(holds: bool, link: Link): Phase {
    if holds then Unlock(Some(link)) else Return(link)
  }

  function InsertRow(s: State, w: WorkerId): State
    requires w < |s.workers|
  {
    s.(items := s.items + [Item(s.workers[w].component, false, w)])
  }

  function RetryInsert(s: State, w: WorkerId, holds: bool, attempt: nat): State
    requires w < |s.workers|
  {
    if attempt < INSERT_ATTEMPTS then Goto(s, w, Insert(holds, attempt + 1)) else Raise(s, w)
  }

  /** The next await of worker `w` resolves normally. */
  function Proceed(cfg: Config, s: State, w: WorkerId): State
    requires w < |s.workers|
  {
    var c := s.workers[w].component;
    match s.workers[w].phase
    case Idle => s
    case ReadSession => Goto(s, w, JudgeSession(Fetch(s, c)))
    case JudgeSession(raw) =>
      if Trusted(cfg, raw, s.clock) then Goto(s, w, Bump(raw.value.item, raw.value.gen))
      else Goto(s, w, TryLock)
    case Bump(item, gen) =>
      Goto(s.(sessions := s.sessions[c := Increment(Fetch(s, c))],
              seedings := Serve(s.seedings, gen)),
           w, Return(Link(item, false)))
    case TryLock =>
      if c in s.locks then Goto(s, w, PollCheck(s.clock + cfg.lockWaitTimeoutMs))
      else Goto(s.(locks := s.locks + {c}), w, Find(true))
    case PollCheck(deadline) =>
      if s.clock < deadline then Goto(s, w, PollRead(deadline)) else Goto(s, w, Find(false))
    case PollRead(deadline) => Goto(s, w, PollJudge(deadline, Fetch(s, c)))
    case PollJudge(deadline, raw) =>
      if Trusted(cfg, raw, s.clock) then Goto(s, w, Bump(raw.value.item, raw.value.gen))
      else Goto(s, w, PollCheck(deadline))
    case Find(holds) =>
      var found := FirstActive(s.items, c);
      Goto(s.(storeVisits := s.storeVisits + 1), w,
           if found.Some? then StampSeed(holds, Link(found.value, false)) else Insert(holds, 1))
    case Insert(holds, attempt) =>
      if FirstActive(s.items, c).Some? then Goto(s, w, FindWinner(holds))
      else Goto(InsertRow(s, w), w, StampSeed(holds, Link(|s.items|, true)))
    case FindWinner(holds) =>
      var found := FirstActive(s.items, c);
      if found.Some? then Goto(s, w, StampSeed(holds, Link(found.value, false))) else Raise(s, w)
    case StampSeed(holds, link) => Goto(s, w, WriteSeed(holds, link, s.clock))
    case WriteSeed(holds, link, startedAt) =>
      Goto(s.(sessions := s.sessions[c := Seeded(link.item, 0, startedAt, |s.seedings|)],
              seedings := s.seedings + [Seeding(c, 0)]),
           w, ExpireSeed(holds, link))
    case ExpireSeed(holds, link) => Goto(s, w, Finish(holds, link))
    case Unlock(outcome) =>
      Goto(s.(locks := s.locks - {c}), w, if outcome.Some? then Return(outcome.value) else Idle)
    case Return(link) => Goto(s.(results := s.results + [Result(w, c, link)]), w, Idle)
  }

  /** What the pending Redis command of worker `w` writes; nothing at the other awaits. */
  function RedisWrite(s: State, w: WorkerId): State
    requires w < |s.workers|
  {
    var c := s.workers[w].component;
    match s.workers[w].phase
    case Bump(_, _) => s.(sessions := s.sessions[c := Increment(Fetch(s, c))])
    case TryLock => s.(locks := s.locks + {c})
    case WriteSeed(_, link, startedAt) =>
      s.(sessions := s.sessions[c := Seeded(link.item, 0, startedAt, |s.seedings|)],
         seedings := s.seedings + [Seeding(c, 0)])
    case Unlock(_) => s.(locks := s.locks - {c})
    case _ => s
  }

  function Step(cfg: Config, s: State, a: Action): State {
    match a
    case Start(w, c) =>
      if w < |s.workers| && s.workers[w].phase.Idle?
      then s.(workers := s.workers[w := Worker(c, ReadSession)]) else s
    case Advance(w) => if w < |s.workers| then Proceed(cfg, s, w) else s
    case LoseAck(w) =>
      if w < |s.workers| && s.workers[w].phase.Insert? then
        var p := s.workers[w].phase;
        var s' := if FirstActive(s.items, s.workers[w].component).Some? then s else InsertRow(s, w);
        RetryInsert(s', w, p.holds, p.attempt)
      else s
    case Abort(w) =>
      if w < |s.workers| && s.workers[w].phase.Insert? then
        RetryInsert(s, w, s.workers[w].phase.holds, s.workers[w].phase.attempt)
      else s
    case Throw(w) => if w < |s.workers| then Raise(s, w) else s
    case LoseReply(w) => if w < |s.workers| then Raise(RedisWrite(s, w), w) else s
    case Tick(ms) => s.(clock := s.clock + ms)
    case ExpireSession(c) => s.(sessions := s.sessions - {c})
    case DropLock(c) => s.(locks := s.locks - {c})
    case ForeignLock(c) => s.(locks := s.locks + {c})
    case CloseItem(id) =>
      if id < |s.items| then s.(items := s.items[id := s.items[id].(closed := true)]) else s
  }

  function Run(cfg: Config, s: State, actions: seq<Action>): State
    decreases |actions|
  {
    if actions == [] then s else Run(cfg, Step(cfg, s, actions[0]), actions[1..])
  }

  // ---------------------------------------------------------------- safety

  ghost predicate OneActivePerComponent(s: State) {
    forall i, j :: 0 <= i < j < |s.items| && !s.items[i].closed && !s.items[j].closed
      ==> s.items[i].component != s.items[j].component
  }

  predicate Names(items: seq<Item>, id: ItemId, c: Component) {
    id < |items| && items[id].component == c
  }

  ghost predicate RawNames(items: seq<Item>, raw: Option<Session>, c: Component) {
    raw.Some? && raw.value.Seeded? ==> Names(items, raw.value.item, c)
  }

  /** A link in the hands of worker `w`: of its component, and created only if `w` inserted it. */
  ghost predicate LinkOk(items: seq<Item>, w: WorkerId, c: Component, link: Link) {
    Names(items, link.item, c) && (link.created ==> items[link.item].creator == w)
  }

  function Carried(p: Phase): Option<Link> {
    match p
    case Bump(item, _) => Some(Link(item, false))
    case StampSeed(_, link) => Some(link)
    case WriteSeed(_, link, _) => Some(link)
    case ExpireSeed(_, link) => Some(link)
    case Unlock(outcome) => outcome
    case Return(link) => Some(link)
    case _ => None
  }

  function RawOf(p: Phase): Option<Session> {
    match p
    case JudgeSession(raw) => raw
    case PollJudge(_, raw) => raw
    case _ => None
  }

  ghost predicate PhaseOk(s: State, w: WorkerId, c: Component, p: Phase) {
    && RawNames(s.items, RawOf(p), c)
    && (Carried(p).Some? ==> LinkOk(s.items, w, c, Carried(p).value))
    && (Carried(p).Some? && Carried(p).value.created ==>
          forall r :: r in s.results && r.link.created ==> r.link.item != Carried(p).value.item)
  }

  ghost predicate SessionsNameOwn(s: State) {
    forall c :: c in s.sessions ==> RawNames(s.items, Some(s.sessions[c]), c)
  }

  ghost predicate WorkersOk(s: State) {
    forall w :: 0 <= w < |s.workers| ==> PhaseOk(s, w, s.workers[w].component, s.workers[w].phase)
  }

  ghost predicate ResultsNameOwn(s: State) {
    forall r :: r in s.results ==> LinkOk(s.items, r.worker, r.component, r.link)
  }

  ghost predicate CreatedOnce(s: State) {
    forall i, j :: 0 <= i < j < |s.results| && s.results[i].link.created && s.results[j].link.created
      ==> s.results[i].link.item != s.results[j].link.item
  }

  ghost predicate Safe(s: State) {
    OneActivePerComponent(s) && SessionsNameOwn(s) && WorkersOk(s) && ResultsNameOwn(s) && CreatedOnce(s)
  }

  /** Moving one worker keeps safety when its new phase is sound. */
  lemma GotoSafe(s: State, w: WorkerId, p: Phase)
    requires Safe(s) && w < |s.workers| && PhaseOk(s, w, s.workers[w].component, p)
    ensures Safe(Goto(s, w, p))
  {
    var t := Goto(s, w, p);
    forall v | 0 <= v < |t.workers| ensures PhaseOk(t, v, t.workers[v].component, t.workers[v].phase) {
      assert PhaseOk(s, v, s.workers[v].component, s.workers[v].phase);
    }
  }

  lemma RaiseSafe(s: State, w: WorkerId)
    requires Safe(s) && w < |s.workers|
    ensures Safe(Raise(s, w))
  {
    GotoSafe(s, w, if HoldsLock(s.workers[w].phase) then Unlock(None) else Idle);
  }

  /** The unique index: a row goes in only when its component has no active row. */
  lemma InsertSafe(s: State, w: WorkerId)
    requires Safe(s) && w < |s.workers|
    requires FirstActive(s.items, s.workers[w].component).None?
    ensures Safe(InsertRow(s, w))
    ensures forall r :: r in s.results && r.link.created ==> r.link.item != |s.items|
  {
    var t := InsertRow(s, w);
    forall i, j | 0 <= i < j < |t.items| && !t.items[i].closed && !t.items[j].closed
      ensures t.items[i].component != t.items[j].component
    {
      assert !IsActive(s.items, s.workers[w].component, i);
    }
    forall v | 0 <= v < |t.workers| ensures PhaseOk(t, v, t.workers[v].component, t.workers[v].phase) {
      assert PhaseOk(s, v, s.workers[v].component, s.workers[v].phase);
    }
  }

  /** A step that leaves rows and results alone and moves one worker to a sound phase. */
  lemma MoveSafe(s: State, s1: State, w: WorkerId, p: Phase)
    requires Safe(s) && w < |s.workers| && PhaseOk(s, w, s.workers[w].component, p)
    requires s1.items == s.items && s1.results == s.results && s1.workers == s.workers
    requires SessionsNameOwn(s1)
    ensures Safe(Goto(s1, w, p))
  {
    KeepWorkers(s, s1);
    GotoSafe(s1, w, p);
  }

  lemma BumpSafe(cfg: Config, s: State, w: WorkerId)
    requires Safe(s) && w < |s.workers| && s.workers[w].phase.Bump?
    ensures Safe(Proceed(cfg, s, w))
  {
    var c, p := s.workers[w].component, s.workers[w].phase;
    var s1 := s.(sessions := s.sessions[c := Increment(Fetch(s, c))],
                 seedings := Serve(s.seedings, p.gen));
    assert PhaseOk(s, w, c, p);
    MoveSafe(s, s1, w, Return(Link(p.item, false)));
  }

  lemma SeedSafe(cfg: Config, s: State, w: WorkerId)
    requires Safe(s) && w < |s.workers| && s.workers[w].phase.WriteSeed?
    ensures Safe(Proceed(cfg, s, w))
  {
    var c, p := s.workers[w].component, s.workers[w].phase;
    var s1 := s.(sessions := s.sessions[c := Seeded(p.link.item, 0, p.startedAt, |s.seedings|)], seedings := s.seedings + [Seeding(c, 0)]);
    assert PhaseOk(s, w, c, p);
    MoveSafe(s, s1, w, ExpireSeed(p.holds, p.link));
  }

  lemma InsertStepSafe(cfg: Config, s: State, w: WorkerId)
    requires Safe(s) && w < |s.workers| && s.workers[w].phase.Insert?
    ensures Safe(Proceed(cfg, s, w))
  {
    if FirstActive(s.items, s.workers[w].component).Some? {
      GotoSafe(s, w, FindWinner(s.workers[w].phase.holds));
    } else {
      InsertSafe(s, w);
      GotoSafe(InsertRow(s, w), w, StampSeed(s.workers[w].phase.holds, Link(|s.items|, true)));
    }
  }

  /** The steps that only read, or only touch the lock, the clock or the visit counter. */
  lemma QuietStepSafe(cfg: Config, s: State, w: WorkerId)
    requires Safe(s) && w < |s.workers|
    requires !s.workers[w].phase.Bump? && !s.workers[w].phase.WriteSeed?
    requires !s.workers[w].phase.Insert? && !s.workers[w].phase.Return? && !s.workers[w].phase.Idle?
    ensures Safe(Proceed(cfg, s, w))
  {
    var c := s.workers[w].component;
    var t := Proceed(cfg, s, w);
    var p := t.workers[w].phase;
    assert PhaseOk(s, w, c, s.workers[w].phase);
    assert PhaseOk(s, w, c, p);
    var s1 := s.(locks := t.locks, storeVisits := t.storeVisits);
    assert t == Goto(s1, w, p);
    MoveSafe(s, s1, w, p);
  }

  lemma ProceedSafe(cfg: Config, s: State, w: WorkerId)
    requires Safe(s) && w < |s.workers|
    ensures Safe(Proceed(cfg, s, w))
  {
    match s.workers[w].phase
    case Idle =>
    case Bump(_, _) => BumpSafe(cfg, s, w);
    case WriteSeed(_, _, _) => SeedSafe(cfg, s, w);
    case Insert(_, _) => InsertStepSafe(cfg, s, w);
    case Return(link) => ReturnSafe(s, w, link);
    case _ => QuietStepSafe(cfg, s, w);
  }

  /** Workers stay sound under any change that leaves rows, results and workers alone. */
  lemma KeepWorkers(s: State, t: State)
    requires WorkersOk(s) && t.items == s.items && t.results == s.results && t.workers == s.workers
    ensures WorkersOk(t)
  {
    forall v | 0 <= v < |t.workers| ensures PhaseOk(t, v, t.workers[v].component, t.workers[v].phase) {
      assert PhaseOk(s, v, s.workers[v].component, s.workers[v].phase);
    }
  }

  lemma ReturnSafe(s: State, w: WorkerId, link: Link)
    requires Safe(s) && w < |s.workers| && s.workers[w].phase == Return(link)
    ensures Safe(Goto(s.(results := s.results + [Result(w, s.workers[w].component, link)]), w, Idle))
  {
    var r := Result(w, s.workers[w].component, link);
    var t := Goto(s.(results := s.results + [r]), w, Idle);
    assert PhaseOk(s, w, s.workers[w].component, s.workers[w].phase);
    forall v | 0 <= v < |t.workers| ensures PhaseOk(t, v, t.workers[v].component, t.workers[v].phase) {
      assert PhaseOk(s, v, s.workers[v].component, s.workers[v].phase);
    }
  }

  lemma CloseSafe(s: State, id: ItemId)
    requires Safe(s) && id < |s.items|
    ensures Safe(s.(items := s.items[id := s.items[id].(closed := true)]))
  {
    var t := s.(items := s.items[id := s.items[id].(closed := true)]);
    forall v | 0 <= v < |t.workers| ensures PhaseOk(t, v, t.workers[v].component, t.workers[v].phase) {
      assert PhaseOk(s, v, s.workers[v].component, s.workers[v].phase);
    }
  }

  /** A Redis write whose reply is lost: the session may have changed, nobody got a link. */
  lemma LoseReplySafe(s: State, w: WorkerId)
    requires Safe(s) && w < |s.workers|
    ensures Safe(Raise(RedisWrite(s, w), w))
  {
    var t := RedisWrite(s, w);
    assert PhaseOk(s, w, s.workers[w].component, s.workers[w].phase);
    assert SessionsNameOwn(t);
    KeepWorkers(s, t);
    RaiseSafe(t, w);
  }

  lemma StepSafe(cfg: Config, s: State, a: Action)
    requires Safe(s)
    ensures Safe(Step(cfg, s, a))
  {
    var t := Step(cfg, s, a);
    match a
    case Advance(w) => if w < |s.workers| { ProceedSafe(cfg, s, w); }
    case LoseAck(w) =>
      if w < |s.workers| && s.workers[w].phase.Insert? {
        var p := s.workers[w].phase;
        var s' := if FirstActive(s.items, s.workers[w].component).Some? then s else InsertRow(s, w);
        if s' != s { InsertSafe(s, w); }
        RetrySafe(s', w, p.holds, p.attempt);
      }
    case Abort(w) =>
      if w < |s.workers| && s.workers[w].phase.Insert? {
        RetrySafe(s, w, s.workers[w].phase.holds, s.workers[w].phase.attempt);
      }
    case Throw(w) => if w < |s.workers| { RaiseSafe(s, w); }
    case LoseReply(w) => if w < |s.workers| { LoseReplySafe(s, w); }
    case CloseItem(id) => if id < |s.items| { CloseSafe(s, id); }
    case Start(w, c) =>
      forall v | 0 <= v < |t.workers| ensures PhaseOk(t, v, t.workers[v].component, t.workers[v].phase) {
        assert PhaseOk(s, v, s.workers[v].component, s.workers[v].phase);
      }
    case _ => KeepWorkers(s, t);
  }

  lemma RetrySafe(s: State, w: WorkerId, holds: bool, attempt: nat)
    requires Safe(s) && w < |s.workers|
    ensures Safe(RetryInsert(s, w, holds, attempt))
  {
    if attempt < INSERT_ATTEMPTS { GotoSafe(s, w, Insert(holds, attempt + 1)); } else { RaiseSafe(s, w); }
  }

  /**
   * Whatever the interleaving and however badly the lock behaves: one active item
   * per component, every stored session and every result names an item of its own
   * component, and an item is reported as created at most once, by the worker
   * whose insert committed it.
   */
  lemma {:induction false} RunIsSafe(cfg: Config, s: State, actions: seq<Action>)
    requires Safe(s)
    ensures Safe(Run(cfg, s, actions))
    decreases |actions|
  {
    if actions != [] {
      StepSafe(cfg, s, actions[0]);
      RunIsSafe(cfg, Step(cfg, s, actions[0]), actions[1..]);
    }
  }

  lemma InitIsSafe(k: nat)
    ensures Safe(Init(k))
  {
  }

  /** The same for every run from the empty system with `k` workers, with the promises spelled out. */
  lemma DebounceIsSafe(cfg: Config, k: nat, actions: seq<Action>)
    ensures var s := Run(cfg, Init(k), actions);
      && (forall i, j :: 0 <= i < j < |s.items| && s.items[i].component == s.items[j].component
            ==> s.items[i].closed || s.items[j].closed)
      && (forall c :: c in s.sessions && s.sessions[c].Seeded? ==> Names(s.items, s.sessions[c].item, c))
      && (forall r :: r in s.results ==> Names(s.items, r.link.item, r.component))
      && (forall r :: r in s.results && r.link.created ==> s.items[r.link.item].creator == r.worker)
      && (forall i, j :: 0 <= i < j < |s.results| && s.results[i].link.created && s.results[j].link.created
            ==> s.results[i].link.item != s.results[j].link.item)
  {
    InitIsSafe(k);
    RunIsSafe(cfg, Init(k), actions);
    var s := Run(cfg, Init(k), actions);
    forall r | r in s.results ensures LinkOk(s.items, r.worker, r.component, r.link) {}
    forall c | c in s.sessions && s.sessions[c].Seeded? ensures Names(s.items, s.sessions[c].item, c) {
      assert RawNames(s.items, Some(s.sessions[c]), c);
    }
  }
}
