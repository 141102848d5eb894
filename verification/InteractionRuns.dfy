/** Runs of the interaction runtime: arbitrary interleavings of locked regions, crashes and restarts. */
module InteractionRuns {
  import opened Prelude
  import opened Bindings
  import opened InteractionModel
  import opened InteractionBounds
  import opened InteractionDurable
  import Model = InteractionModel

  datatype Env = Env(cfg: Config, versions: Versions)

  /**
   * One locked region each. Operations that look a session up under one lock and commit under another are two
   * steps; the second carries the snapshot the first one handed out.
   */
  datatype Step =
    | Create(scopes: Scopes, create: CreateRequest, gen: seq<Option<string>>, now: Time, failing: set<string>)
    | Lookup(id: string, now: Time, failing: set<string>)
    | UpdateState(snap: Session, req: StateRequest, now: Time, failing: set<string>)
    | BindTarget(snap: Session, revision: nat, target: Target, now: Time, failing: set<string>)
    | Touch(snap: Session, ttl: int, now: Time, failing: set<string>)
    | ArmInput(snap: Session, req: StateRequest, now: Time, failing: set<string>)
    | TakeInput(key: InputKey, now: Time, failing: set<string>)
    | ReleaseInput(id: string, failing: set<string>)
    | Cancel(id: string, failing: set<string>)
    | CancelIfScope(id: string, scope: Scope, failing: set<string>)
    | CancelScope(scope: Scope, failing: set<string>)
    | Prune(now: Time, failing: set<string>)
    | Preserve
    | Close
    | Restart(scopes: Scopes, rows: seq<Row>, now: Time, failing: set<string>)

  ghost function Restarted(env: Env, store: Store, scopes: Scopes, rows: seq<Row>, now: Time, failing: set<string>): Core {
    var r := RestoreDurable(Fresh(store), env.cfg, env.versions, scopes, Some(rows), now, failing);
    if r.result.Ok? then r.core else Model.Close(r.core)
  }

  /** The core after a step. A start-up whose restore fails is abandoned. */
  ghost function Effect(env: Env, c: Core, s: Step): Core {
    match s
    case Create(scopes, req, gen, now, failing) =>
      Model.Create(c, env.cfg, env.versions, scopes, req, gen, now, failing).core
    case Lookup(id, now, failing) => Model.Lookup(c, id, now, failing).core
    case UpdateState(snap, req, now, failing) =>
      Model.UpdateState(c, env.cfg, env.versions, snap, req, now, failing).core
    case BindTarget(snap, revision, target, now, failing) =>
      Model.BindTarget(c, env.versions, snap, revision, target, now, failing).core
    case Touch(snap, ttl, now, failing) => Model.Touch(c, env.cfg, env.versions, snap, ttl, now, failing).core
    case ArmInput(snap, req, now, failing) =>
      Model.ArmInput(c, env.cfg, env.versions, snap, req, now, failing).core
    case TakeInput(key, now, failing) => Model.TakeInput(c, env.versions, key, now, failing).core
    case ReleaseInput(id, failing) => Model.ReleaseInput(c, env.versions, id, failing).core
    case Cancel(id, failing) => Remove(c, id, failing)
    case CancelIfScope(id, scope, failing) => Model.CancelIfScope(c, id, scope, failing)
    case CancelScope(scope, failing) => Model.CancelScope(c, scope, failing)
    case Prune(now, failing) => Model.Prune(PruneInputs(c, now), now, failing)
    case Preserve => c.(preserve := true)
    case Close => Model.Close(c)
    case Restart(scopes, rows, now, failing) => Restarted(env, c.store, scopes, rows, now, failing)
  }

  /** What a step told its caller, as far as it matters later. */
  datatype Report = Nothing | Created(id: string) | Found(snap: Session) | Updated(id: string) | Armed(id: string) | Taken(id: string)

  ghost function ReportOf(env: Env, c: Core, s: Step): Report {
    match s
    case Create(scopes, req, gen, now, failing) =>
      var r := Model.Create(c, env.cfg, env.versions, scopes, req, gen, now, failing).result;
      if r.Ok? then Created(r.value.id) else Nothing
    case Lookup(id, now, failing) =>
      var r := Model.Lookup(c, id, now, failing).result;
      if r.Ok? then Found(r.value) else Nothing
    case UpdateState(snap, req, now, failing) =>
      if Model.UpdateState(c, env.cfg, env.versions, snap, req, now, failing).result.Ok? then Updated(snap.id) else Nothing
    case ArmInput(snap, req, now, failing) =>
      if Model.ArmInput(c, env.cfg, env.versions, snap, req, now, failing).result.Ok? then Armed(snap.id) else Nothing
    case TakeInput(key, now, failing) =>
      var r := Model.TakeInput(c, env.versions, key, now, failing).result;
      if r.Ok? && r.value.Some? then Taken(r.value.value.id) else Nothing
    case _ => Nothing
  }

  /** The session whose state a step replaced. */
  function Bumped(rep: Report): Option<string> {
    match rep
    case Updated(id) => Some(id)
    case Armed(id) => Some(id)
    case Taken(id) => Some(id)
    case _ => None
  }

  /**
   * The core; the sessions that left memory while their rows were preserved; the latest time seen; the snapshots
   * handed out by this process; and over the whole run every session's latest revision and its number of armed
   * and of delivered inputs.
   */
  datatype World = World(core: Core, left: Sessions, clock: Time, seen: set<Session>,
                         revs: map<string, nat>, arms: map<string, int>, takes: map<string, int>)

  function StepTime(s: Step, clock: Time): Time {
    match s
    case ReleaseInput(_, _) => clock
    case Cancel(_, _) => clock
    case CancelIfScope(_, _, _) => clock
    case CancelScope(_, _) => clock
    case Preserve => clock
    case Close => clock
    case _ => if s.now > clock then s.now else clock
  }

  /** The sessions of a world, in memory or preserved. */
  function Known(w: World): Sessions {
    Image(w.core.sessions, w.left)
  }

  /** Memory as a step finds it, but for the claims it prunes before it removes anything. */
  function Gathered(c: Core, s: Step): Core {
    if s.Prune? then PruneInputs(c, s.now) else c
  }

  /** Closing leaves every session behind; a start-up that failed leaves those whose rows are still stored. */
  ghost function NextLeft(c: Core, left: Sessions, s: Step, d: Core): Sessions {
    match s
    case Restart(_, _, _, _) =>
      var m := Image(c.sessions, left);
      if d.closed then map id | id in m && id in d.store :: m[id] else map[]
    case Close => if c.closed then left else left + c.sessions
    case _ => LeftAfter(Gathered(c, s), left, d)
  }

  function NextRevs(revs: map<string, nat>, rep: Report): map<string, nat> {
    var b := Bumped(rep);
    if rep.Created? then revs[rep.id := 1]
    else if b.Some? && b.value in revs then revs[b.value := revs[b.value] + 1]
    else revs
  }

  ghost function Next(env: Env, w: World, s: Step): World {
    var c := Effect(env, w.core, s);
    var rep := ReportOf(env, w.core, s);
    World(c, NextLeft(w.core, w.left, s, c), StepTime(s, w.clock),
          if s.Restart? then {} else if rep.Found? then w.seen + {rep.snap} else w.seen,
          NextRevs(w.revs, rep),
          if rep.Armed? then w.arms[rep.id := Get(w.arms, rep.id) + 1] else w.arms,
          if rep.Taken? then w.takes[rep.id := Get(w.takes, rep.id) + 1] else w.takes)
  }

  /**
   * Session ids never repeat; commits use a snapshot of this process; a restart happens no earlier than anything
   * before it and loads the whole store.
   */
  ghost predicate Enabled(w: World, s: Step) {
    && (s.Create? ==> forall i :: 0 <= i < |s.gen| && s.gen[i].Some? ==> s.gen[i].value !in w.revs)
    && (s.UpdateState? || s.BindTarget? || s.Touch? || s.ArmInput? ==> s.snap in w.seen)
    && (s.Restart? ==> s.now >= w.clock && Lists(s.rows, w.core.store))
  }

  ghost predicate Run(env: Env, ws: seq<World>, steps: seq<Step>) {
    && |ws| == |steps| + 1
    && (forall i :: 0 <= i < |steps| ==> Enabled(ws[i], steps[i]) && ws[i + 1] == Next(env, ws[i], steps[i]))
  }

  function Start(store: Store): World {
    World(Fresh(store), map[], 0, {}, map[], map[], map[])
  }

  // ----- what a step does to each session

  ghost predicate EntryEvolves(e: Entry, f: Entry, id: string, rep: Report) {
    && f.session.scope == e.session.scope && f.session.featureId == e.session.featureId
    && (HasTarget(e.session.binding) ==> HasTarget(f.session.binding))
    && (KeyOf(e.session.binding).Some? ==> KeyOf(f.session.binding) == KeyOf(e.session.binding))
    && f.session.revision == e.session.revision + (if Bumped(rep) == Some(id) then 1 else 0)
    && (rep == Armed(id) || f.input == e.input || f.input.None?)
    && (rep == Taken(id) ==> e.input.Some? && f.input.None?)
  }

  ghost predicate Evolves(m: Sessions, n: Sessions, rep: Report) {
    && (forall id :: id in n ==>
          if rep == Created(id) then id !in m && n[id].session.revision == 1 && n[id].input.None?
          else id in m && EntryEvolves(m[id], n[id], id, rep))
    && (Bumped(rep).Some? ==> Bumped(rep).value in m && Bumped(rep).value in n)
    && (rep.Created? ==> rep.id in n)
    && (rep.Found? ==> rep.snap.id in m && m[rep.snap.id].session == rep.snap)
  }

  lemma EvolvesTrivially(m: Sessions, n: Sessions)
    requires Within(n, m) && forall id :: id in n ==> n[id].input == m[id].input || n[id].input.None?
    ensures Evolves(m, n, Nothing)
  {
    hide KeyOf;
  }

  lemma RemoveManyEvolves(c: Core, ids: set<string>, failing: set<string>)
    ensures Evolves(c.sessions, RemoveMany(c, ids, failing).sessions, Nothing)
    ensures RemoveMany(c, ids, failing).sessions.Keys <= c.sessions.Keys
  {
    hide Evolves;
    EvolvesTrivially(c.sessions, RemoveMany(c, ids, failing).sessions);
  }

  lemma InstallEvolves(c: Core, versions: Versions, e: Entry, failing: set<string>, rep: Report)
    requires e.session.id in c.sessions && EntryEvolves(c.sessions[e.session.id], e, e.session.id, rep)
    requires rep == Nothing || Bumped(rep) == Some(e.session.id)
    ensures var r := Install(c, versions, e, failing);
            Evolves(c.sessions, r.core.sessions, if r.result.Ok? then rep else Nothing)
  {
    hide KeyOf, Saved;
  }

  ghost predicate AllNew(m: Sessions, gen: seq<Option<string>>) {
    forall i :: 0 <= i < |gen| && gen[i].Some? ==> gen[i].value !in m
  }

  /** Creation prunes, and then adds at most one entry. */
  lemma CreateForm(env: Env, c: Core, scopes: Scopes, req: CreateRequest, gen: seq<Option<string>>, now: Time, failing: set<string>)
    requires AllNew(c.sessions, gen)
    ensures var r := Model.Create(c, env.cfg, env.versions, scopes, req, gen, now, failing);
            var p := Model.Prune(c, now, failing).sessions;
            && (r.result.Err? ==> r.core.sessions == c.sessions || r.core.sessions == p)
            && (r.result.Ok? ==>
                  var s := r.result.value;
                  && r.core.sessions == p[s.id := Entry(s, VersionOf(env.versions, s.featureId), None)]
                  && s.revision == 1 && s.id !in c.sessions && Some(s.id) in gen)
  {
    hide HasRoom, PickId, Saved, NormalizeTtl, RemoveMany, Valid, Normalized, VersionOf;
    PickIdFresh(Model.Prune(c, now, failing).sessions, gen, 0);
  }

  lemma CreateEvolves(env: Env, c: Core, scopes: Scopes, req: CreateRequest, gen: seq<Option<string>>, now: Time, failing: set<string>)
    requires AllNew(c.sessions, gen)
    ensures var s := Create(scopes, req, gen, now, failing);
            Evolves(c.sessions, Effect(env, c, s).sessions, ReportOf(env, c, s))
  {
    hide RemoveMany, Model.Create, KeyOf, AllNew;
    CreateForm(env, c, scopes, req, gen, now, failing);
    RemoveManyEvolves(c, ExpiredIds(c.sessions, now), failing);
    EvolvesTrivially(c.sessions, c.sessions);
  }

  lemma LookupEvolves(env: Env, c: Core, id: string, now: Time, failing: set<string>)
    requires Filed(c.sessions)
    ensures var s := Lookup(id, now, failing);
            Evolves(c.sessions, Effect(env, c, s).sessions, ReportOf(env, c, s))
  {
    hide RemoveMany, KeyOf;
    RemoveManyEvolves(c, ExpiredIds(c.sessions, now), failing);
    RemoveManyEvolves(c, {id}, failing);
    EvolvesTrivially(c.sessions, c.sessions);
  }

  /** Every second half prunes nothing, removes its session, or installs one entry. */
  lemma UpdateStateEvolves(env: Env, c: Core, snap: Session, req: StateRequest, now: Time, failing: set<string>)
    requires Filed(c.sessions)
    ensures var s := UpdateState(snap, req, now, failing);
            Evolves(c.sessions, Effect(env, c, s).sessions, ReportOf(env, c, s))
  {
    hide RemoveMany, KeyOf, Install, FitsBytes, Evolves;
    RemoveManyEvolves(c, {snap.id}, failing);
    EvolvesTrivially(c.sessions, c.sessions);
    if snap.id in c.sessions {
      var e := c.sessions[snap.id];
      var ttl := NormalizeTtl(env.cfg, req.ttl);
      var expiresAt := if req.ttl != 0 && ttl.Some? then now + ttl.value else e.session.expiresAt;
      var next := e.session.(state := req.state, revision := e.session.revision + 1, expiresAt := expiresAt);
      InstallEvolves(c, env.versions, e.(session := next, input := None), failing, Updated(snap.id));
    }
  }

  lemma BindTargetEvolves(env: Env, c: Core, snap: Session, revision: nat, target: Target, now: Time, failing: set<string>)
    requires Filed(c.sessions) && SessionsOk(env.cfg, c.sessions)
    ensures Evolves(c.sessions, Effect(env, c, BindTarget(snap, revision, target, now, failing)).sessions, Nothing)
  {
    hide RemoveMany, KeyOf, Install, Evolves, WithTarget, Valid, Complete;
    RemoveManyEvolves(c, {snap.id}, failing);
    EvolvesTrivially(c.sessions, c.sessions);
    if snap.id in c.sessions {
      var e := c.sessions[snap.id];
      assert SessionOk(env.cfg, snap.id, e.session);
      var b := WithTarget(e.session.binding, target);
      if b.Ok? {
        WithTargetNarrows(e.session.binding, target, b.value);
        InstallEvolves(c, env.versions, e.(session := e.session.(binding := b.value)), failing, Nothing);
      }
    }
  }

  lemma TouchEvolves(env: Env, c: Core, snap: Session, ttl: int, now: Time, failing: set<string>)
    requires Filed(c.sessions)
    ensures Evolves(c.sessions, Effect(env, c, Touch(snap, ttl, now, failing)).sessions, Nothing)
  {
    hide RemoveMany, KeyOf, Install, Evolves;
    RemoveManyEvolves(c, {snap.id}, failing);
    EvolvesTrivially(c.sessions, c.sessions);
    var t := NormalizeTtl(env.cfg, ttl);
    if snap.id in c.sessions && t.Some? {
      var e := c.sessions[snap.id];
      InstallEvolves(c, env.versions, e.(session := e.session.(expiresAt := now + t.value)), failing, Nothing);
    }
  }

  /** Arming works on the core without the outdated claim, which differs from the old one by that claim only. */
  lemma VacatedEvolves(c: Core, key: InputKey, id: string, n: Sessions, rep: Report)
    requires Filed(c.sessions)
    requires Evolves(Vacated(c, key, id).sessions, n, rep) && (rep == Nothing || rep == Armed(id))
    ensures Evolves(c.sessions, n, rep)
  {
    hide KeyOf;
  }

  lemma ArmInputEvolves(env: Env, c: Core, snap: Session, req: StateRequest, now: Time, failing: set<string>)
    requires Filed(c.sessions)
    ensures var s := ArmInput(snap, req, now, failing);
            Evolves(c.sessions, Effect(env, c, s).sessions, ReportOf(env, c, s))
  {
    hide RemoveMany, KeyOf, Install, FitsBytes, Evolves, Busy, Vacated;
    RemoveManyEvolves(c, {snap.id}, failing);
    EvolvesTrivially(c.sessions, c.sessions);
    var key := KeyOf(snap.binding);
    var ttl := NormalizeTtl(env.cfg, req.ttl);
    if snap.id in c.sessions && key.Some? && ttl.Some? {
      var v := Vacated(c, key.value, snap.id);
      VacatedKeeps(c, key.value, snap.id);
      EvolvesTrivially(v.sessions, v.sessions);
      VacatedEvolves(c, key.value, snap.id, v.sessions, Nothing);
      var e := c.sessions[snap.id];
      var next := e.session.(state := req.state, revision := e.session.revision + 1);
      var claim := Claim(key.value, Earlier(now + ttl.value, next.expiresAt));
      var f := e.(session := next, input := Some(claim));
      InstallEvolves(v, env.versions, f, failing, Armed(snap.id));
      var r := Install(v, env.versions, f, failing);
      VacatedEvolves(c, key.value, snap.id, r.core.sessions, if r.result.Ok? then Armed(snap.id) else Nothing);
    }
  }

  lemma VacatedKeeps(c: Core, key: InputKey, id: string)
    requires id in c.sessions
    ensures id in Vacated(c, key, id).sessions && Vacated(c, key, id).sessions[id] == c.sessions[id]
  {
  }

  lemma ClearInputEvolves(c: Core, id: string)
    requires id in c.sessions
    ensures Evolves(c.sessions, ClearInput(c, id).sessions, Nothing)
  {
    hide Evolves;
    EvolvesTrivially(c.sessions, ClearInput(c, id).sessions);
  }

  lemma TakeInputEvolves(env: Env, c: Core, key: InputKey, now: Time, failing: set<string>)
    requires Filed(c.sessions)
    ensures var s := TakeInput(key, now, failing);
            Evolves(c.sessions, Effect(env, c, s).sessions, ReportOf(env, c, s))
  {
    hide RemoveMany, KeyOf, Install, Evolves, ClearInput;
    EvolvesTrivially(c.sessions, c.sessions);
    var h := Holder(c.sessions, key);
    if h.Some? {
      RemoveManyEvolves(c, {h.value}, failing);
      ClearInputEvolves(c, h.value);
      var e := c.sessions[h.value];
      var f := e.(session := e.session.(revision := e.session.revision + 1), input := None);
      InstallEvolves(c, env.versions, f, failing, Taken(h.value));
      InstallReturns(c, env.versions, f, failing);
    }
  }

  lemma InstallReturns(c: Core, versions: Versions, e: Entry, failing: set<string>)
    ensures var r := Install(c, versions, e, failing); r.result.Ok? ==> r.result.value == e.session
  {
    hide Saved;
  }

  lemma ReleaseInputEvolves(env: Env, c: Core, id: string, failing: set<string>)
    requires Filed(c.sessions)
    ensures Evolves(c.sessions, Effect(env, c, ReleaseInput(id, failing)).sessions, Nothing)
  {
    hide KeyOf, Install, Evolves;
    EvolvesTrivially(c.sessions, c.sessions);
    if id in c.sessions {
      InstallEvolves(c, env.versions, c.sessions[id].(input := None), failing, Nothing);
    }
  }

  lemma PruneEvolves(c: Core, now: Time, failing: set<string>)
    ensures Evolves(c.sessions, Model.Prune(PruneInputs(c, now), now, failing).sessions, Nothing)
  {
    hide Evolves;
    EvolvesTrivially(c.sessions, Model.Prune(PruneInputs(c, now), now, failing).sessions);
  }

  /** Every step of one process moves each session on as its report says. */
  lemma StepEvolves(env: Env, c: Core, s: Step)
    requires CoreOk(env.cfg, c) && !s.Restart? && (s.Create? ==> AllNew(c.sessions, s.gen))
    ensures Evolves(c.sessions, Effect(env, c, s).sessions, ReportOf(env, c, s))
  {
    hide EntriesOk, Evolves, AllNew, Model.Create, Model.Lookup, Model.UpdateState, Model.BindTarget, Model.Touch,
         Model.ArmInput, Model.TakeInput, Model.ReleaseInput, RemoveMany, Model.Prune, PruneInputs;
    FiledOk(env.cfg, c);
    match s
    case Create(scopes, req, gen, now, failing) => CreateEvolves(env, c, scopes, req, gen, now, failing);
    case Lookup(id, now, failing) => LookupEvolves(env, c, id, now, failing);
    case UpdateState(snap, req, now, failing) => UpdateStateEvolves(env, c, snap, req, now, failing);
    case BindTarget(snap, revision, target, now, failing) => BindTargetEvolves(env, c, snap, revision, target, now, failing);
    case Touch(snap, ttl, now, failing) => TouchEvolves(env, c, snap, ttl, now, failing);
    case ArmInput(snap, req, now, failing) => ArmInputEvolves(env, c, snap, req, now, failing);
    case TakeInput(key, now, failing) => TakeInputEvolves(env, c, key, now, failing);
    case ReleaseInput(id, failing) => ReleaseInputEvolves(env, c, id, failing);
    case Prune(now, failing) => PruneEvolves(c, now, failing);
    case Cancel(id, failing) => RemoveManyEvolves(c, {id}, failing);
    case CancelIfScope(id, scope, failing) =>
      RemoveManyEvolves(c, {id}, failing);
      EvolvesTrivially(c.sessions, c.sessions);
    case CancelScope(scope, failing) =>
      RemoveManyEvolves(c, InScope(c.sessions, scope), failing);
      EvolvesTrivially(c.sessions, c.sessions);
    case Preserve => EvolvesTrivially(c.sessions, c.sessions);
    case Close =>
      EvolvesTrivially(c.sessions, c.sessions);
      EvolvesTrivially(c.sessions, map[]);
  }

  lemma FiledOk(cfg: Config, c: Core)
    requires CoreOk(cfg, c)
    ensures Filed(c.sessions) && SessionsOk(cfg, c.sessions)
  {
  }
}
