/** What holds in every run of the interaction runtime. */
module InteractionTheorems {
  import opened Prelude
  import opened Bindings
  import opened InteractionModel
  import opened InteractionBounds
  import opened InteractionDurable
  import opened InteractionRuns
  import Model = InteractionModel

  // ----- the invariant of runs

  /** Revisions recorded so far are those of the known sessions. */
  ghost predicate RevsOk(m: Sessions, revs: map<string, nat>) {
    forall id :: id in m ==> id in revs && revs[id] == m[id].session.revision
  }

  /** A snapshot is never ahead of its session, whose scope and input key still stand. */
  ghost predicate SeenOk(m: Sessions, revs: map<string, nat>, seen: set<Session>) {
    forall snap :: snap in seen ==>
      && snap.id in revs && snap.revision <= revs[snap.id]
      && (snap.id in m ==> m[snap.id].session.scope == snap.scope && KeyStands(m, snap))
  }

  function Pending(m: Sessions, id: string): int {
    if id in m && m[id].input.Some? then 1 else 0
  }

  /** Deliveries made and still possible never outnumber the armed inputs. */
  ghost predicate DeliveriesOk(m: Sessions, arms: map<string, int>, takes: map<string, int>) {
    forall id :: Get(takes, id) + Pending(m, id) <= Get(arms, id)
  }

  /** The store mirrors every known session; sessions are left behind only where rows are preserved. */
  ghost predicate StoreSide(env: Env, w: World) {
    && Synced(env.versions, Known(w), w.core.store, w.clock)
    && w.left.Keys !! w.core.sessions.Keys && OwnKeys(w.left)
    && (Live(w.core) ==> w.left == map[])
  }

  ghost predicate WorldOk(env: Env, w: World) {
    && w.core.durable && CoreOk(env.cfg, w.core)
    && StoreSide(env, w)
    && RevsOk(Known(w), w.revs)
    && SeenOk(Known(w), w.revs, w.seen)
    && DeliveriesOk(Known(w), w.arms, w.takes)
  }

  lemma StartOk(env: Env)
    ensures WorldOk(env, Start(map[]))
  {
    hide VersionOf;
    var m: Sessions := map[];
    BytesNone(m);
    assert forall scope :: InScope(m, scope) == {};
    assert forall actorId :: OfActor(m, actorId) == {};
  }

  // ----- bookkeeping along a step of one process

  lemma RevsStep(m: Sessions, n: Sessions, rep: Report, revs: map<string, nat>)
    requires RevsOk(m, revs) && Evolves(m, n, rep)
    ensures RevsOk(n, NextRevs(revs, rep))
  {
    hide KeyOf;
  }

  lemma SeenStep(m: Sessions, n: Sessions, rep: Report, revs: map<string, nat>, seen: set<Session>)
    requires RevsOk(m, revs) && SeenOk(m, revs, seen) && Evolves(m, n, rep)
    requires rep.Created? ==> rep.id !in revs
    ensures SeenOk(n, NextRevs(revs, rep), if rep.Found? then seen + {rep.snap} else seen)
  {
    hide KeyOf;
  }

  lemma DeliveriesStep(m: Sessions, n: Sessions, rep: Report, arms: map<string, int>, takes: map<string, int>)
    requires DeliveriesOk(m, arms, takes) && Evolves(m, n, rep)
    ensures DeliveriesOk(n, if rep.Armed? then arms[rep.id := Get(arms, rep.id) + 1] else arms,
                         if rep.Taken? then takes[rep.id := Get(takes, rep.id) + 1] else takes)
  {
    hide KeyOf;
    forall id
      ensures Get(if rep.Taken? then takes[rep.id := Get(takes, rep.id) + 1] else takes, id) + Pending(n, id)
           <= Get(if rep.Armed? then arms[rep.id := Get(arms, rep.id) + 1] else arms, id)
    {
      assert Get(takes, id) + Pending(m, id) <= Get(arms, id);
    }
  }

  // ----- the core along a step

  lemma StepCoreOk(env: Env, c: Core, s: Step)
    requires CoreOk(env.cfg, c) && !s.Restart?
    requires s.ArmInput? ==> KeyStands(c.sessions, s.snap)
    ensures CoreOk(env.cfg, Effect(env, c, s))
  {
    hide CoreOk, Model.Create, Model.Lookup, Model.UpdateState, Model.BindTarget, Model.Touch, Model.ArmInput,
         Model.TakeInput, Model.ReleaseInput, RemoveMany, PruneInputs, Model.Close, KeyStands;
    match s
    case Create(scopes, req, gen, now, failing) => CreateOk(env.cfg, c, env.versions, scopes, req, gen, now, failing);
    case Lookup(id, now, failing) => LookupOk(env.cfg, c, id, now, failing);
    case UpdateState(snap, req, now, failing) => UpdateStateOk(env.cfg, c, env.versions, snap, req, now, failing);
    case BindTarget(snap, revision, target, now, failing) =>
      BindTargetOk(env.cfg, c, env.versions, snap, revision, target, now, failing);
    case Touch(snap, ttl, now, failing) => TouchOk(env.cfg, c, env.versions, snap, ttl, now, failing);
    case ArmInput(snap, req, now, failing) => ArmInputOk(env.cfg, c, env.versions, snap, req, now, failing);
    case TakeInput(key, now, failing) => TakeInputOk(env.cfg, c, env.versions, key, now, failing);
    case ReleaseInput(id, failing) => ReleaseInputOk(env.cfg, c, env.versions, id, failing);
    case Prune(now, failing) =>
      PruneInputsOk(env.cfg, c, now);
      RemoveManyOk(env.cfg, PruneInputs(c, now), ExpiredIds(PruneInputs(c, now).sessions, now), failing);
    case Cancel(id, failing) => RemoveManyOk(env.cfg, c, {id}, failing);
    case CancelIfScope(id, scope, failing) => RemoveManyOk(env.cfg, c, {id}, failing);
    case CancelScope(scope, failing) => RemoveManyOk(env.cfg, c, InScope(c.sessions, scope), failing);
    case Preserve => PreserveOk(env.cfg, c);
    case Close => CloseOk(env.cfg, c);
  }

  lemma PreserveOk(cfg: Config, c: Core)
    requires CoreOk(cfg, c)
    ensures CoreOk(cfg, c.(preserve := true))
  {
    hide EntriesOk;
  }

  lemma CloseOk(cfg: Config, c: Core)
    requires CoreOk(cfg, c)
    ensures CoreOk(cfg, Model.Close(c))
  {
    hide EntriesOk;
    EntriesWithin(cfg, map[], c.sessions);
  }

  /** While the runtime is open, every step keeps the known sessions in step with the store. */
  lemma StepSynced(env: Env, c: Core, left: Sessions, s: Step, clock: Time)
    requires CoreSynced(env.versions, c, left, clock) && !s.Restart? && !s.Preserve? && !s.Close?
    requires s.Create? ==> forall i :: 0 <= i < |s.gen| && s.gen[i].Some? ==> s.gen[i].value !in c.sessions && s.gen[i].value !in left
    ensures var d := Effect(env, c, s); CoreSynced(env.versions, d, NextLeft(c, left, s, d), StepTime(s, clock))
  {
    hide CoreSynced, Model.Create, Model.Lookup, Model.UpdateState, Model.BindTarget, Model.Touch, Model.ArmInput,
         Model.TakeInput, Model.ReleaseInput, RemoveMany, PruneInputs, Model.Close, LeftAfter;
    var v, t := env.versions, StepTime(s, clock);
    CoreClockGrows(v, c, left, clock, t);
    NobodyLeft(c, left, c);
    match s
    case Create(scopes, req, gen, now, failing) => CreateSynced(env.cfg, v, c, left, scopes, req, gen, now, failing, t);
    case Lookup(id, now, failing) => LookupSynced(v, c, left, id, now, failing, t);
    case UpdateState(snap, req, now, failing) => UpdateStateSynced(env.cfg, v, c, left, snap, req, now, failing, t);
    case BindTarget(snap, revision, target, now, failing) => BindTargetSynced(v, c, left, snap, revision, target, now, failing, t);
    case Touch(snap, ttl, now, failing) => TouchSynced(env.cfg, v, c, left, snap, ttl, now, failing, t);
    case ArmInput(snap, req, now, failing) => ArmInputSynced(env.cfg, v, c, left, snap, req, now, failing, t);
    case TakeInput(key, now, failing) => TakeInputSynced(v, c, left, key, now, failing, t);
    case ReleaseInput(id, failing) => ReleaseInputSynced(v, c, left, id, failing, t);
    case Prune(now, failing) =>
      PruneInputsSynced(v, c, left, now, t);
      RemoveManySynced(v, PruneInputs(c, now), left, ExpiredIds(PruneInputs(c, now).sessions, now), failing, t);
    case Cancel(id, failing) => RemoveManySynced(v, c, left, {id}, failing, t);
    case CancelIfScope(id, scope, failing) => RemoveManySynced(v, c, left, {id}, failing, t);
    case CancelScope(scope, failing) => RemoveManySynced(v, c, left, InScope(c.sessions, scope), failing, t);
  }

  lemma CoreClockGrows(versions: Versions, c: Core, left: Sessions, clock: Time, later: Time)
    requires CoreSynced(versions, c, left, clock) && clock <= later
    ensures CoreSynced(versions, c, left, later)
  {
    ClockGrows(versions, Image(c.sessions, left), c.store, clock, later);
  }

  lemma ClosedEffect(env: Env, c: Core, s: Step)
    requires c.closed && c.sessions == map[] && !s.Restart?
    ensures var d := Effect(env, c, s); d == c.(preserve := d.preserve)
  {
    hide NormalizeTtl, Normalized, Valid, KeyOf, HasRoom, PickId, Saved, Install, FitsBytes, Busy, Vacated, WithTarget;
    var d := Effect(env, c, s);
    assert d.sessions == map[] && d.store == c.store;
  }

  lemma ClosedReport(env: Env, c: Core, s: Step)
    requires c.closed && c.sessions == map[] && !s.Restart?
    ensures ReportOf(env, c, s) == Nothing
  {
    hide NormalizeTtl, Normalized, Valid, KeyOf, HasRoom, PickId, Saved, Install, FitsBytes, Busy, Vacated, WithTarget, RemoveMany;
  }

  /** Once closed, nothing happens any more. */
  lemma ClosedStep(env: Env, c: Core, left: Sessions, s: Step)
    requires c.closed && c.sessions == map[] && !s.Restart?
    ensures var d := Effect(env, c, s);
            && d == c.(preserve := d.preserve) && ReportOf(env, c, s) == Nothing && NextLeft(c, left, s, d) == left
  {
    hide Effect, ReportOf;
    ClosedEffect(env, c, s);
    ClosedReport(env, c, s);
    assert Gathered(c, s).sessions == map[];
    NobodyLeft(Gathered(c, s), left, Effect(env, c, s));
  }

  // ----- how a step moves the known sessions

  /** What was gathered differs from memory only by lapsed claims. */
  lemma GatheredLapsed(c: Core, s: Step, clock: Time)
    ensures Lapsed(c.sessions, Gathered(c, s).sessions, StepTime(s, clock)) && Gathered(c, s).preserve == c.preserve
  {
  }

  /** Where a step changes no revision, an entry that stays or loses its claim evolves. */
  lemma EntryStays(e: Entry, f: Entry, id: string, rep: Report)
    requires f == e || f == e.(input := None)
    requires Bumped(rep) != Some(id)
    ensures EntryEvolves(e, f, id, rep)
  {
    hide KeyOf, HasTarget;
  }

  lemma KnownEvolves(c: Core, g: Core, d: Core, left: Sessions, left': Sessions, rep: Report, clock: Time)
    requires Evolves(c.sessions, d.sessions, rep) && Lapsed(c.sessions, g.sessions, clock) && left' == LeftAfter(g, left, d)
    requires left.Keys !! c.sessions.Keys && left'.Keys !! d.sessions.Keys
    requires rep.Created? ==> rep.id !in left
    ensures Evolves(Image(c.sessions, left), Image(d.sessions, left'), rep)
  {
    hide EntryEvolves;
    var (m, n) := (Image(c.sessions, left), Image(d.sessions, left'));
    forall id | id in left'
      ensures id in m && EntryEvolves(m[id], n[id], id, rep)
    {
      EntryStays(m[id], n[id], id, rep);
    }
  }

  lemma LeftOwnKeys(c: Core, g: Core, d: Core, left: Sessions, clock: Time)
    requires OwnKeys(c.sessions) && OwnKeys(left) && Lapsed(c.sessions, g.sessions, clock)
    ensures OwnKeys(LeftAfter(g, left, d))
  {
    hide KeyOf;
  }

  lemma SynchronyGives(versions: Versions, c: Core, left: Sessions, clock: Time)
    requires CoreSynced(versions, c, left, clock)
    ensures c.durable && !c.closed && (!c.preserve ==> left == map[]) && left.Keys !! c.sessions.Keys
    ensures Synced(versions, Image(c.sessions, left), c.store, clock)
  {
    hide Synced;
  }

  /** A step of an open runtime, seen on all the known sessions. */
  lemma OpenStepEvolves(env: Env, w: World, s: Step)
    requires WorldOk(env, w) && Enabled(w, s) && !w.core.closed
    requires !s.Restart? && !s.Preserve? && !s.Close?
    ensures var (n, rep) := (Next(env, w, s), ReportOf(env, w.core, s));
            && CoreSynced(env.versions, n.core, n.left, n.clock) && OwnKeys(n.left)
            && Evolves(Known(w), Known(n), rep) && (rep.Created? ==> rep.id !in w.revs)
  {
    hide Effect, ReportOf, CoreOk, Evolves, CoreSynced, Synced, RevsOk, DeliveriesOk, SeenOk, LeftAfter, OwnKeys, Image, Lapsed;
    var c, d, rep := w.core, Effect(env, w.core, s), ReportOf(env, w.core, s);
    OpenSynced(env, w);
    NewIds(env, w, s);
    StepSynced(env, c, w.left, s, w.clock);
    var left := NextLeft(c, w.left, s, d);
    SynchronyGives(env.versions, d, left, StepTime(s, w.clock));
    StepEvolves(env, c, s);
    GatheredLapsed(c, s, w.clock);
    KnownEvolves(c, Gathered(c, s), d, w.left, left, rep, StepTime(s, w.clock));
    CoreOwnKeys(env.cfg, c);
    LeftOwnKeys(c, Gathered(c, s), d, w.left, StepTime(s, w.clock));
  }

  lemma OpenStepOk(env: Env, w: World, s: Step)
    requires WorldOk(env, w) && Enabled(w, s) && !w.core.closed
    requires !s.Restart? && !s.Preserve? && !s.Close?
    ensures WorldOk(env, Next(env, w, s))
  {
    hide Effect, ReportOf, CoreOk, Evolves, CoreSynced, Synced, RevsOk, DeliveriesOk, SeenOk, NextRevs, KeyStands, NextLeft, OwnKeys, Image, Enabled;
    var n, rep := Next(env, w, s), ReportOf(env, w.core, s);
    CommitStands(env, w, s);
    NewIds(env, w, s);
    StepCoreOk(env, w.core, s);
    OpenStepEvolves(env, w, s);
    SynchronyGives(env.versions, n.core, n.left, n.clock);
    RevsStep(Known(w), Known(n), rep, w.revs);
    SeenStep(Known(w), Known(n), rep, w.revs, w.seen);
    DeliveriesStep(Known(w), Known(n), rep, w.arms, w.takes);
  }

  lemma CoreOwnKeys(cfg: Config, c: Core)
    requires CoreOk(cfg, c)
    ensures OwnKeys(c.sessions)
  {
    hide FitOk, SessionsOk;
  }

  lemma OpenSynced(env: Env, w: World)
    requires WorldOk(env, w) && !w.core.closed
    ensures CoreSynced(env.versions, w.core, w.left, w.clock)
  {
    hide CoreOk, Synced, RevsOk, SeenOk, DeliveriesOk, OwnKeys;
  }

  /** A snapshot's input key still stands when it is committed with. */
  lemma CommitStands(env: Env, w: World, s: Step)
    requires WorldOk(env, w) && Enabled(w, s)
    ensures s.ArmInput? ==> KeyStands(w.core.sessions, s.snap)
  {
    hide CoreOk, Synced, RevsOk, DeliveriesOk, OwnKeys, KeyOf, Lists;
    if s.ArmInput? && s.snap.id in w.core.sessions {
      assert Known(w)[s.snap.id] == w.core.sessions[s.snap.id];
      assert KeyStands(Known(w), s.snap);
    }
  }

  lemma NewIds(env: Env, w: World, s: Step)
    requires RevsOk(Known(w), w.revs) && Enabled(w, s)
    ensures s.Create? ==> AllNew(w.core.sessions, s.gen)
    ensures s.Create? ==> forall i :: 0 <= i < |s.gen| && s.gen[i].Some? ==> s.gen[i].value !in w.core.sessions && s.gen[i].value !in w.left
    ensures var rep := ReportOf(env, w.core, s); rep.Created? ==> rep.id !in w.revs && rep.id !in w.left
  {
    hide Model.UpdateState, Model.ArmInput, Model.TakeInput, Model.Lookup, Model.Create, Lists;
    if s.Create? {
      assert forall id :: id in w.core.sessions || id in w.left ==> id in Known(w);
      CreateForm(env, w.core, s.scopes, s.create, s.gen, s.now, s.failing);
    }
  }

  /** Preserving, closing, and whatever comes after closing leave the known sessions and the store as they are. */
  lemma StillStepOk(env: Env, w: World, s: Step)
    requires WorldOk(env, w) && !s.Restart? && (w.core.closed || s.Preserve? || s.Close?)
    ensures WorldOk(env, Next(env, w, s))
    ensures Known(Next(env, w, s)) == Known(w) && Next(env, w, s).core.store == w.core.store
    ensures !Live(Next(env, w, s).core)
  {
    hide EntriesOk, Synced, RevsOk, SeenOk, DeliveriesOk, OwnKeys;
    StillForm(env, w, s);
    ClockGrows(env.versions, Known(w), w.core.store, w.clock, StepTime(s, w.clock));
  }

  lemma StillForm(env: Env, w: World, s: Step)
    requires WorldOk(env, w) && !s.Restart? && (w.core.closed || s.Preserve? || s.Close?)
    ensures var d := Effect(env, w.core, s);
            var left := NextLeft(w.core, w.left, s, d);
            && CoreOk(env.cfg, d) && d.durable && d.store == w.core.store && (d.closed || d.preserve)
            && left.Keys !! d.sessions.Keys && OwnKeys(left) && Image(d.sessions, left) == Known(w)
            && ReportOf(env, w.core, s) == Nothing
  {
    hide EntriesOk, Synced, RevsOk, SeenOk, DeliveriesOk;
    if w.core.closed {
      ClosedStep(env, w.core, w.left, s);
    } else if s.Preserve? {
      NobodyLeft(w.core, w.left, w.core.(preserve := true));
    } else {
      CloseOk(env.cfg, w.core);
      CoreOwnKeys(env.cfg, w.core);
    }
  }

  // ----- restarts

  lemma RestartStepOk(env: Env, w: World, s: Step)
    requires WorldOk(env, w) && Enabled(w, s) && s.Restart?
    ensures WorldOk(env, Next(env, w, s))
  {
    hide CoreOk, Synced, RestoreRows, Lists, RestoreDurable, SeenOk, Revived, Seen, OwnKeys, CoreSynced;
    var m, r := Known(w), RestoreDurable(Fresh(w.core.store), env.cfg, env.versions, s.scopes, Some(s.rows), s.now, s.failing);
    ClockGrows(env.versions, m, w.core.store, w.clock, s.now);
    KnownOwnKeys(env, w);
    RestartRevived(env, m, w.core.store, s.scopes, s.rows, s.now, s.failing);
    RestartKeepsStore(env.cfg, env.versions, m, w.core.store, s.scopes, s.rows, s.now, s.failing);
    NoneSeenYet(Known(Next(env, w, s)), w.revs);
    if r.result.Ok? {
      RestartSynced(env.cfg, env.versions, m, w.core.store, s.scopes, s.rows, s.now, s.failing);
      SynchronyGives(env.versions, r.core, map[], s.now);
      ImageNone(r.core.sessions);
      NoKeys();
      RevivedBooks(w, s.scopes, s.now, r.core.sessions);
    } else {
      CloseOk(env.cfg, r.core);
      RestrictedBooks(w, r.core.store);
      NothingInMemory(map id | id in m && id in r.core.store :: m[id]);
    }
  }

  lemma NothingInMemory(left: Sessions)
    ensures Image(map[], left) == left
  {
  }

  lemma NoKeys()
    ensures OwnKeys(map[])
  {
  }

  lemma KnownOwnKeys(env: Env, w: World)
    requires WorldOk(env, w)
    ensures OwnKeys(Known(w))
  {
    hide FitOk, SessionsOk, Synced, RevsOk, SeenOk, DeliveriesOk, KeyOf;
  }

  lemma NoneSeenYet(m: Sessions, revs: map<string, nat>)
    ensures SeenOk(m, revs, {})
  {
  }

  lemma RestartRevived(env: Env, m: Sessions, store: Store, scopes: Scopes, rows: seq<Row>, now: Time, failing: set<string>)
    requires OwnKeys(m) && Synced(env.versions, m, store, now) && Lists(rows, store)
    ensures var r := RestoreDurable(Fresh(store), env.cfg, env.versions, scopes, Some(rows), now, failing);
            && CoreOk(env.cfg, r.core) && Live(r.core)
            && (forall id :: id in r.core.sessions ==>
                  id in m && m[id].session.featureId in scopes && r.core.sessions[id] == Revived(m[id], scopes, now))
  {
    hide EntriesOk, Synced, RestoreRows, Lists, Revived, Seen, OwnKeys;
    NoEntries(env.cfg);
    RestoreOk(env.cfg, Fresh(store), env.versions, scopes, rows, |rows|, now, failing);
    RestoreRevives(env.cfg, env.versions, m, store, scopes, rows, |rows|, now, failing);
  }

  lemma NoEntries(cfg: Config)
    ensures EntriesOk(cfg, map[])
  {
    var m: Sessions := map[];
    BytesNone(m);
    assert forall scope :: InScope(m, scope) == {};
    assert forall actorId :: OfActor(m, actorId) == {};
  }

  lemma RevivedBooks(w: World, scopes: Scopes, now: Time, n: Sessions)
    requires RevsOk(Known(w), w.revs) && DeliveriesOk(Known(w), w.arms, w.takes)
    requires forall id :: id in n ==>
      id in Known(w) && Known(w)[id].session.featureId in scopes && n[id] == Revived(Known(w)[id], scopes, now)
    ensures RevsOk(n, w.revs) && DeliveriesOk(n, w.arms, w.takes)
  {
    hide Image;
    forall id
      ensures Get(w.takes, id) + Pending(n, id) <= Get(w.arms, id)
    {
      assert Get(w.takes, id) + Pending(Known(w), id) <= Get(w.arms, id);
    }
  }

  lemma RestrictedBooks(w: World, store: Store)
    requires RevsOk(Known(w), w.revs) && DeliveriesOk(Known(w), w.arms, w.takes) && OwnKeys(Known(w))
    ensures var n := map id | id in Known(w) && id in store :: Known(w)[id];
            OwnKeys(n) && RevsOk(n, w.revs) && DeliveriesOk(n, w.arms, w.takes)
  {
    hide KeyOf, Image;
    var n := map id | id in Known(w) && id in store :: Known(w)[id];
    forall id
      ensures Get(w.takes, id) + Pending(n, id) <= Get(w.arms, id)
    {
      assert Get(w.takes, id) + Pending(Known(w), id) <= Get(w.arms, id);
    }
  }

  lemma NextOk(env: Env, w: World, s: Step)
    requires WorldOk(env, w) && Enabled(w, s)
    ensures WorldOk(env, Next(env, w, s))
  {
    hide WorldOk, Next, Enabled;
    if s.Restart? {
      RestartStepOk(env, w, s);
    } else if w.core.closed || s.Preserve? || s.Close? {
      StillStepOk(env, w, s);
    } else {
      OpenStepOk(env, w, s);
    }
  }

  /** All limits, claims, write-through and bookkeeping hold after every run, across crashes and restarts. */
  lemma {:induction false} RunOk(env: Env, ws: seq<World>, steps: seq<Step>, n: nat)
    requires Run(env, ws, steps) && WorldOk(env, ws[0]) && n < |ws|
    ensures WorldOk(env, ws[n])
  {
    hide WorldOk, Next, Enabled;
    if n > 0 {
      RunOk(env, ws, steps, n - 1);
      NextOk(env, ws[n - 1], steps[n - 1]);
    }
  }

  // ----- what never changes about a session

  /** The same feature, and a target once attached is never taken away. */
  predicate SameIdentity(s: Session, t: Session) {
    t.featureId == s.featureId && (HasTarget(s.binding) ==> HasTarget(t.binding))
  }

  /** A session known after a step and not new was known before it. */
  lemma IdentityStep(env: Env, w: World, s: Step, id: string)
    requires WorldOk(env, w) && Enabled(w, s) && id in w.revs && id in Known(Next(env, w, s))
    ensures id in Known(w) && SameIdentity(Known(w)[id].session, Known(Next(env, w, s))[id].session)
  {
    hide WorldOk, Next, Enabled, ReportOf, HasTarget, KeyOf, Image;
    if s.Restart? {
      RestartIdentity(env, w, s, id);
    } else if w.core.closed || s.Preserve? || s.Close? {
      StillStepOk(env, w, s);
    } else {
      OpenStepEvolves(env, w, s);
    }
  }

  lemma RestartIdentity(env: Env, w: World, s: Step, id: string)
    requires WorldOk(env, w) && Enabled(w, s) && s.Restart? && id in Known(Next(env, w, s))
    ensures id in Known(w) && SameIdentity(Known(w)[id].session, Known(Next(env, w, s))[id].session)
  {
    hide CoreOk, Synced, RestoreRows, Lists, RestoreDurable, SeenOk, RevsOk, DeliveriesOk, Seen, OwnKeys, HasTarget;
    ClockGrows(env.versions, Known(w), w.core.store, w.clock, s.now);
    KnownOwnKeys(env, w);
    RestartRevived(env, Known(w), w.core.store, s.scopes, s.rows, s.now, s.failing);
  }

  // ----- crash and restore

  /** A restart whose known sessions fit together restores them exactly. */
  lemma RestartRestores(env: Env, w: World, s: Step)
    requires WorldOk(env, w) && Enabled(w, s) && s.Restart? && EntriesOk(env.cfg, Known(w))
    requires KeepsScopesApart(Known(w), s.scopes) && ExpiredDeletable(w.core.store, s.now, s.failing)
    ensures var c, store := Next(env, w, s).core, w.core.store;
            && Live(c)
            && c.sessions == Survivors(Known(w), s.scopes, s.now)
            && c.store == map id | id in store && store[id].session.expiresAt > s.now :: store[id]
  {
    hide RestoreDurable, Survivors, EntriesOk, Synced, KeepsScopesApart, RevsOk, SeenOk, DeliveriesOk, Lists, ExpiredDeletable, OwnKeys;
    ClockGrows(env.versions, Known(w), w.core.store, w.clock, s.now);
    RestoreExact(env.cfg, env.versions, Known(w), w.core.store, s.scopes, s.rows, s.now, s.failing);
    KnownOwnKeys(env, w);
    RestartRevived(env, Known(w), w.core.store, s.scopes, s.rows, s.now, s.failing);
  }

  /**
   * A crash at any point of any run while memory writes through: the restart brings back exactly the unexpired
   * durable sessions, with their live input claims, and drops exactly the expired rows.
   */
  lemma CrashRestores(env: Env, ws: seq<World>, steps: seq<Step>, n: nat)
    requires Run(env, ws, steps) && WorldOk(env, ws[0]) && n < |steps| && steps[n].Restart? && Live(ws[n].core)
    requires KeepsScopesApart(ws[n].core.sessions, steps[n].scopes)
    requires ExpiredDeletable(ws[n].core.store, steps[n].now, steps[n].failing)
    ensures var c, store := ws[n + 1].core, ws[n].core.store;
            && Live(c)
            && c.sessions == Survivors(ws[n].core.sessions, steps[n].scopes, steps[n].now)
            && c.store == map id | id in store && store[id].session.expiresAt > steps[n].now :: store[id]
  {
    hide Next, Enabled, Survivors, EntriesOk, Synced, KeepsScopesApart, RevsOk, SeenOk, DeliveriesOk, ExpiredDeletable, OwnKeys;
    RunOk(env, ws, steps, n);
    ImageNone(ws[n].core.sessions);
    RestartRestores(env, ws[n], steps[n]);
  }

  /** Steps that write no row. */
  predicate Quiet(s: Step) {
    s.Lookup? || s.Cancel? || s.CancelIfScope? || s.CancelScope? || s.Prune? || s.Preserve? || s.Close?
  }

  lemma LapsedTwice(m: Sessions, n: Sessions, o: Sessions, t: Time, t': Time)
    requires Lapsed(m, n, t) && Lapsed(n, o, t') && t <= t'
    ensures Lapsed(m, o, t')
  {
  }

  /** While rows are preserved, a quiet step removes sessions from memory only. */
  lemma QuietForm(env: Env, c: Core, left: Sessions, s: Step)
    requires c.preserve && !c.closed && Quiet(s) && !s.Preserve? && !s.Close? && left.Keys !! c.sessions.Keys
    ensures var (d, g) := (Effect(env, c, s), Gathered(c, s));
            && d.store == c.store && d.preserve && Image(d.sessions, NextLeft(c, left, s, d)) == Image(g.sessions, left)
  {
    hide RemoveMany, PruneInputs, LeftAfter, Image;
    var g := Gathered(c, s);
    GatheredLapsed(c, s, 0);
    NobodyLeft(c, left, c);
    match s
    case Lookup(id, now, failing) =>
      RemovePreserved(c, left, ExpiredIds(c.sessions, now), failing);
      RemovePreserved(c, left, {id}, failing);
    case Prune(now, failing) =>
      PruneInputsKeeps(c, now);
      RemovePreserved(g, left, ExpiredIds(g.sessions, now), failing);
    case Cancel(id, failing) => RemovePreserved(c, left, {id}, failing);
    case CancelIfScope(id, scope, failing) => RemovePreserved(c, left, {id}, failing);
    case CancelScope(scope, failing) => RemovePreserved(c, left, InScope(c.sessions, scope), failing);
  }

  lemma PruneInputsKeeps(c: Core, now: Time)
    ensures PruneInputs(c, now) == c.(sessions := PruneInputs(c, now).sessions)
    ensures PruneInputs(c, now).sessions.Keys == c.sessions.Keys
  {
  }

  lemma QuietStep(env: Env, w: World, s: Step)
    requires WorldOk(env, w) && Enabled(w, s) && !Live(w.core) && !s.Restart? && (w.core.closed || Quiet(s))
    ensures var w' := Next(env, w, s);
            && w'.core.store == w.core.store && !Live(w'.core) && w'.clock >= w.clock
            && Lapsed(Known(w), Known(w'), w'.clock)
  {
    hide Effect, ReportOf, NextLeft, CoreOk, Synced, RevsOk, SeenOk, DeliveriesOk, OwnKeys, Lists;
    if w.core.closed || s.Preserve? || s.Close? {
      StillStepOk(env, w, s);
    } else {
      QuietForm(env, w.core, w.left, s);
      GatheredLapsed(w.core, s, w.clock);
    }
  }

  /** From a shutdown on, quiet steps lose nothing but claims whose time has come. */
  lemma {:induction false} ShutdownKeeps(env: Env, ws: seq<World>, steps: seq<Step>, i: nat, n: nat)
    requires Run(env, ws, steps) && WorldOk(env, ws[0]) && i < n < |ws| && Live(ws[i].core)
    requires steps[i].Preserve? || steps[i].Close?
    requires forall k :: i < k < n ==> !steps[k].Restart? && (ws[k].core.closed || Quiet(steps[k]))
    ensures ws[n].core.store == ws[i].core.store && !Live(ws[n].core)
    ensures Lapsed(ws[i].core.sessions, Known(ws[n]), ws[n].clock)
    decreases n
  {
    hide WorldOk, Next, Enabled, Live, Lapsed, Image;
    RunOk(env, ws, steps, n - 1);
    if n == i + 1 {
      StillStepOk(env, ws[i], steps[i]);
      LiveKnows(env, ws[i]);
      NothingLapsed(ws[i].core.sessions, ws[n].clock);
    } else {
      ShutdownKeeps(env, ws, steps, i, n - 1);
      QuietStep(env, ws[n - 1], steps[n - 1]);
      LapsedTwice(ws[i].core.sessions, Known(ws[n - 1]), Known(ws[n]), ws[n - 1].clock, ws[n].clock);
    }
  }

  lemma LiveKnows(env: Env, w: World)
    requires WorldOk(env, w) && Live(w.core)
    ensures Known(w) == w.core.sessions && EntriesOk(env.cfg, w.core.sessions)
  {
    hide EntriesOk, Synced, RevsOk, SeenOk, DeliveriesOk, OwnKeys;
  }

  lemma NothingLapsed(m: Sessions, clock: Time)
    ensures Lapsed(m, m, clock)
  {
  }

  /** A claim that lapsed before the restart makes no difference to it. */
  lemma SameSurvivors(cfg: Config, m: Sessions, n: Sessions, scopes: Scopes, clock: Time, now: Time)
    requires Lapsed(m, n, clock) && clock <= now && EntriesOk(cfg, m) && KeepsScopesApart(m, scopes)
    ensures EntriesOk(cfg, n) && KeepsScopesApart(n, scopes)
    ensures Survivors(n, scopes, now) == Survivors(m, scopes, now)
  {
    hide EntriesOk, KeepsScopesApart;
    assert Within(n, m);
    EntriesWithin(cfg, n, m);
    SameScopes(m, n, scopes, clock);
    forall id | id in m && m[id].session.featureId in scopes
      ensures Revived(n[id], scopes, now) == Revived(m[id], scopes, now)
    {
    }
  }

  lemma SameScopes(m: Sessions, n: Sessions, scopes: Scopes, clock: Time)
    requires Lapsed(m, n, clock) && KeepsScopesApart(m, scopes)
    ensures KeepsScopesApart(n, scopes)
  {
    assert forall id :: id in n ==> n[id].session == m[id].session;
  }

  /**
   * A shutdown: rows are preserved or the runtime is closed, and from then on nothing is written. The next start
   * brings back exactly the unexpired durable sessions of that moment, with their live claims.
   */
  lemma ShutdownRestores(env: Env, ws: seq<World>, steps: seq<Step>, i: nat, n: nat)
    requires Run(env, ws, steps) && WorldOk(env, ws[0]) && i < n < |steps| && Live(ws[i].core)
    requires steps[i].Preserve? || steps[i].Close?
    requires forall k :: i < k < n ==> !steps[k].Restart? && (ws[k].core.closed || Quiet(steps[k]))
    requires steps[n].Restart? && KeepsScopesApart(ws[i].core.sessions, steps[n].scopes)
    requires ExpiredDeletable(ws[i].core.store, steps[n].now, steps[n].failing)
    ensures ws[n + 1].core.sessions == Survivors(ws[i].core.sessions, steps[n].scopes, steps[n].now)
  {
    hide WorldOk, Next, Survivors, EntriesOk, KeepsScopesApart, ExpiredDeletable, Lapsed, Lists, Live, Image;
    RunOk(env, ws, steps, i);
    RunOk(env, ws, steps, n);
    LiveKnows(env, ws[i]);
    ShutdownKeeps(env, ws, steps, i, n);
    SameSurvivors(env.cfg, ws[i].core.sessions, Known(ws[n]), steps[n].scopes, ws[n].clock, steps[n].now);
    RestartRestores(env, ws[n], steps[n]);
  }

  // ----- inputs

  /** No session is delivered more inputs than it armed, and one actor in one chat answers one session at a time. */
  lemma SingleDelivery(env: Env, ws: seq<World>, steps: seq<Step>, n: nat, id: string, other: string, key: InputKey)
    requires Run(env, ws, steps) && WorldOk(env, ws[0]) && n < |ws|
    ensures Get(ws[n].takes, id) <= Get(ws[n].arms, id)
    ensures HeldBy(ws[n].core.sessions, key, id) && HeldBy(ws[n].core.sessions, key, other) ==> id == other
    ensures HeldBy(ws[n].core.sessions, key, id) ==> KeyOf(ws[n].core.sessions[id].session.binding) == Some(key)
  {
    hide FitOk, SessionsOk, Synced, SeenOk, RevsOk, Next, Enabled, KeyOf;
    RunOk(env, ws, steps, n);
    assert Get(ws[n].takes, id) + Pending(Known(ws[n]), id) <= Get(ws[n].arms, id);
  }

  // ----- revisions

  /** Recorded revisions only grow, and grow with every state change; a change starts from the recorded one. */
  lemma RevsGrow(env: Env, w: World, s: Step, id: string)
    requires WorldOk(env, w) && Enabled(w, s) && id in w.revs
    ensures var rep, next := ReportOf(env, w.core, s), Next(env, w, s);
            && id in next.revs && next.revs[id] >= w.revs[id]
            && (Bumped(rep) == Some(id) ==>
                  && next.revs[id] > w.revs[id]
                  && id in w.core.sessions && w.core.sessions[id].session.revision == w.revs[id])
  {
    hide Effect, ReportOf, EntriesOk, Synced, SeenOk, DeliveriesOk, Lists, OwnKeys, KeyOf, HasTarget;
    if s.Restart? {
      RestartReports(env, w.core, s);
    } else if w.core.closed {
      ClosedStep(env, w.core, w.left, s);
    } else {
      NewIds(env, w, s);
      StepEvolves(env, w.core, s);
      assert forall k :: k in w.core.sessions ==> k in Known(w) && Known(w)[k] == w.core.sessions[k];
    }
  }

  lemma RestartReports(env: Env, c: Core, s: Step)
    requires s.Restart?
    ensures ReportOf(env, c, s) == Nothing
  {
  }

  /** The session whose state step k replaced. */
  ghost predicate ChangesAt(env: Env, ws: seq<World>, steps: seq<Step>, k: nat, id: string) {
    k < |steps| && k < |ws| && Bumped(ReportOf(env, ws[k].core, steps[k])) == Some(id)
  }

  lemma {:induction false} RevsGrowAlong(env: Env, ws: seq<World>, steps: seq<Step>, i: nat, j: nat, id: string)
    requires Run(env, ws, steps) && WorldOk(env, ws[0]) && i <= j < |ws| && id in ws[i].revs
    ensures id in ws[j].revs && ws[j].revs[id] >= ws[i].revs[id]
    ensures forall k :: i <= k < j && ChangesAt(env, ws, steps, k, id) ==> ws[j].revs[id] > ws[i].revs[id]
    decreases j
  {
    hide WorldOk, Next, Enabled, ReportOf;
    if i < j {
      RevsGrowAlong(env, ws, steps, i, j - 1, id);
      RunOk(env, ws, steps, j - 1);
      RevsGrow(env, ws[j - 1], steps[j - 1], id);
    }
  }

  /** The sessions in memory stand at their recorded revisions. */
  lemma AtRecorded(env: Env, w: World, id: string)
    requires WorldOk(env, w) && id in w.core.sessions
    ensures id in w.revs && w.core.sessions[id].session.revision == w.revs[id]
  {
    hide EntriesOk, Synced, SeenOk, DeliveriesOk, OwnKeys;
    assert Known(w)[id] == w.core.sessions[id];
  }

  /** Every revision of a session admits at most one state change, in the whole run. */
  lemma OneChangePerRevision(env: Env, ws: seq<World>, steps: seq<Step>, i: nat, j: nat, id: string)
    requires Run(env, ws, steps) && WorldOk(env, ws[0]) && i < j < |steps|
    requires ChangesAt(env, ws, steps, i, id) && ChangesAt(env, ws, steps, j, id)
    ensures id in ws[i].core.sessions && id in ws[j].core.sessions
    ensures ws[i].core.sessions[id].session.revision < ws[j].core.sessions[id].session.revision
  {
    hide WorldOk, Next, Enabled, ReportOf;
    RunOk(env, ws, steps, i);
    RunOk(env, ws, steps, j);
    ChangeIsRecorded(env, ws[i], steps[i], id);
    RevsGrow(env, ws[i], steps[i], id);
    RevsGrowAlong(env, ws, steps, i, j, id);
    RevsGrow(env, ws[j], steps[j], id);
  }

  lemma ChangeIsRecorded(env: Env, w: World, s: Step, id: string)
    requires WorldOk(env, w) && Enabled(w, s) && Bumped(ReportOf(env, w.core, s)) == Some(id)
    ensures id in w.revs
  {
    hide Effect, ReportOf, EntriesOk, Synced, SeenOk, DeliveriesOk, Lists, OwnKeys, KeyOf, HasTarget;
    if s.Restart? {
      RestartReports(env, w.core, s);
    } else if w.core.closed {
      ClosedStep(env, w.core, w.left, s);
    } else {
      NewIds(env, w, s);
      StepEvolves(env, w.core, s);
      assert forall k :: k in w.core.sessions ==> k in Known(w) && Known(w)[k] == w.core.sessions[k];
    }
  }

  /** A snapshot, and so every token made from it, is out of date for good once the state has been replaced. */
  lemma StaleForGood(env: Env, ws: seq<World>, steps: seq<Step>, i: nat, k: nat, j: nat, snap: Session)
    requires Run(env, ws, steps) && WorldOk(env, ws[0]) && i <= k < j < |ws|
    requires snap in ws[i].seen && ChangesAt(env, ws, steps, k, snap.id)
    ensures snap.id in ws[j].core.sessions ==> ws[j].core.sessions[snap.id].session.revision > snap.revision
  {
    hide WorldOk, Next, Enabled, ReportOf;
    RunOk(env, ws, steps, i);
    RunOk(env, ws, steps, j);
    SeenRecorded(env, ws[i], snap);
    RevsGrowAlong(env, ws, steps, i, j, snap.id);
    if snap.id in ws[j].core.sessions {
      AtRecorded(env, ws[j], snap.id);
    }
  }

  lemma SeenRecorded(env: Env, w: World, snap: Session)
    requires WorldOk(env, w) && snap in w.seen
    ensures snap.id in w.revs && snap.revision <= w.revs[snap.id]
  {
    hide EntriesOk, Synced, DeliveriesOk, KeyStands;
  }

  /** A session found twice at one revision had no state change in between. */
  lemma UnchangedBetween(env: Env, ws: seq<World>, steps: seq<Step>, i: nat, j: nat, id: string)
    requires Run(env, ws, steps) && WorldOk(env, ws[0]) && i <= j < |ws|
    requires id in ws[i].core.sessions && id in ws[j].core.sessions
    requires ws[i].core.sessions[id].session.revision == ws[j].core.sessions[id].session.revision
    ensures forall k :: i <= k < j ==> !ChangesAt(env, ws, steps, k, id)
  {
    hide WorldOk, Next, Enabled, ReportOf, ChangesAt;
    RunOk(env, ws, steps, i);
    RunOk(env, ws, steps, j);
    AtRecorded(env, ws[i], id);
    AtRecorded(env, ws[j], id);
    RevsGrowAlong(env, ws, steps, i, j, id);
  }
}
