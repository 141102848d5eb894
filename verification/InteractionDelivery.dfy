/** An awaited input arrives: between arming and the first message before the deadline nothing else takes the claim away. */
module InteractionDelivery {
  import opened Prelude
  import opened Bindings
  import opened InteractionModel
  import opened InteractionBounds
  import opened InteractionDurable
  import opened InteractionRuns
  import opened InteractionTheorems
  import opened InteractionEffects
  import Model = InteractionModel

  /** A step that does not concern the session: it names another one, or happens before the claim runs out. */
  predicate Bystander(s: Step, id: string, scope: Scope, claim: Claim) {
    match s
    case Create(_, _, _, now, _) => now < claim.expiresAt
    case Lookup(_, now, _) => now < claim.expiresAt
    case UpdateState(snap, _, _, _) => snap.id != id
    case BindTarget(snap, _, _, _, _) => snap.id != id
    case Touch(snap, _, _, _) => snap.id != id
    case ArmInput(snap, _, now, _) => snap.id != id && now < claim.expiresAt
    case TakeInput(key, _, _) => key != claim.key
    case ReleaseInput(other, _) => other != id
    case Cancel(other, _) => other != id
    case CancelIfScope(other, other', _) => other != id || other' != scope
    case CancelScope(other, _) => other != scope
    case Prune(now, _) => now < claim.expiresAt
    case Preserve => true
    case Close => false
    case Restart(_, _, _, _) => false
  }

  /** The session awaits input, no longer than it lives. */
  ghost predicate Awaits(m: Sessions, id: string, e: Entry) {
    id in m && m[id] == e && e.input.Some? && e.input.value.expiresAt <= e.session.expiresAt
  }

  lemma DroppedOthers(c: Core, d: Core, ids: set<string>, failing: set<string>, id: string, e: Entry)
    requires Drops(c, d, ids, failing) && Awaits(c.sessions, id, e) && id !in ids
    ensures Awaits(d.sessions, id, e)
  {
  }

  lemma CommittedOther(c: Core, d: Core, versions: Versions, f: Entry, id: string, e: Entry)
    requires Commits(c, d, versions, f) && Awaits(c.sessions, id, e) && f.session.id != id
    ensures Awaits(d.sessions, id, e)
  {
  }

  lemma FailedOther(c: Core, d: Core, snap: Session, now: Time, failing: set<string>, fault: Fault, id: string, e: Entry)
    requires Failed(c, d, snap, now, failing, fault) && Awaits(c.sessions, id, e) && snap.id != id
    ensures Awaits(d.sessions, id, e)
  {
    hide Drops, Awaits;
    if d != c {
      DroppedOthers(c, d, {snap.id}, failing, id, e);
    }
  }

  lemma CreateSpares(env: Env, c: Core, s: Step, id: string, e: Entry)
    requires CoreOk(env.cfg, c) && s.Create? && Awaits(c.sessions, id, e) && s.now < e.input.value.expiresAt
    ensures Awaits(Effect(env, c, s).sessions, id, e)
  {
    hide CoreOk, Model.Create, RemoveMany, Drops, Commits, FitOk, PickId, GoodRequest;
    var expired := set k | k in c.sessions && c.sessions[k].session.expiresAt <= s.now;
    var r, p := Model.Create(c, env.cfg, env.versions, s.scopes, s.create, s.gen, s.now, s.failing), Model.Prune(c, s.now, s.failing);
    PrunesExactly(c, s.now, s.failing);
    DroppedOthers(c, p, expired, s.failing, id, e);
    CreatesExactly(env.cfg, c, env.versions, s.scopes, s.create, s.gen, s.now, s.failing);
    if r.result.Ok? {
      var n := r.result.value;
      CommittedOther(p, r.core, env.versions, Entry(n, VersionOf(env.versions, n.featureId), None), id, e);
    }
  }

  lemma LookupSpares(env: Env, c: Core, s: Step, id: string, e: Entry)
    requires s.Lookup? && Awaits(c.sessions, id, e) && s.now < e.input.value.expiresAt
    ensures Awaits(Effect(env, c, s).sessions, id, e)
  {
    hide Model.Lookup, Drops;
    var expired := set k | k in c.sessions && c.sessions[k].session.expiresAt <= s.now;
    LooksUpExactly(c, s.id, s.now, s.failing);
    var d := Effect(env, c, s);
    if Drops(c, d, expired, s.failing) {
      DroppedOthers(c, d, expired, s.failing, id, e);
    } else if Drops(c, d, {s.id}, s.failing) && s.id != id {
      DroppedOthers(c, d, {s.id}, s.failing, id, e);
    }
  }

  lemma UpdateSpares(env: Env, c: Core, s: Step, id: string, e: Entry)
    requires CoreOk(env.cfg, c) && s.UpdateState? && Awaits(c.sessions, id, e) && s.snap.id != id
    ensures Awaits(Effect(env, c, s).sessions, id, e)
  {
    hide CoreOk, Model.UpdateState, Drops, Commits, Awaits, StateFits, Failed;
    FiledOk(env.cfg, c);
    UpdatesExactly(env.cfg, c, env.versions, s.snap, s.req, s.now, s.failing);
    UpdateFaults(env.cfg, c, env.versions, s.snap, s.req, s.now, s.failing);
    var r := Model.UpdateState(c, env.cfg, env.versions, s.snap, s.req, s.now, s.failing);
    if r.result.Ok? {
      var f := c.sessions[s.snap.id];
      CommittedOther(c, r.core, env.versions, Entry(Replaced(f.session, s.req, s.now), f.version, None), id, e);
    } else if r.core != c {
      FailedOther(c, r.core, s.snap, s.now, s.failing, r.result.error, id, e);
    }
  }

  lemma BindSpares(env: Env, c: Core, s: Step, id: string, e: Entry)
    requires CoreOk(env.cfg, c) && s.BindTarget? && Awaits(c.sessions, id, e) && s.snap.id != id
    ensures Awaits(Effect(env, c, s).sessions, id, e)
  {
    hide CoreOk, Model.BindTarget, Drops, Commits, Awaits, Failed, WithTarget, Complete;
    FiledOk(env.cfg, c);
    BindsExactly(c, env.versions, s.snap, s.revision, s.target, s.now, s.failing);
    var r := Model.BindTarget(c, env.versions, s.snap, s.revision, s.target, s.now, s.failing);
    if r.result.Ok? {
      var f := c.sessions[s.snap.id];
      var n := f.session.(binding := WithTarget(f.session.binding, s.target).value);
      CommittedOther(c, r.core, env.versions, Entry(n, f.version, f.input), id, e);
    } else if r.core != c {
      FailedOther(c, r.core, s.snap, s.now, s.failing, r.result.error, id, e);
    }
  }

  lemma TouchSpares(env: Env, c: Core, s: Step, id: string, e: Entry)
    requires CoreOk(env.cfg, c) && s.Touch? && Awaits(c.sessions, id, e) && s.snap.id != id
    ensures Awaits(Effect(env, c, s).sessions, id, e)
  {
    hide CoreOk, Model.Touch, Drops, Commits, Awaits, Failed;
    FiledOk(env.cfg, c);
    TouchesExactly(env.cfg, c, env.versions, s.snap, s.ttl, s.now, s.failing);
    var r := Model.Touch(c, env.cfg, env.versions, s.snap, s.ttl, s.now, s.failing);
    if r.result.Ok? {
      var f := c.sessions[s.snap.id];
      CommittedOther(c, r.core, env.versions, Entry(f.session.(expiresAt := s.now + Lifetime(env.cfg, s.ttl)), f.version, f.input), id, e);
    } else if r.core != c {
      FailedOther(c, r.core, s.snap, s.now, s.failing, r.result.error, id, e);
    }
  }

  /** A live claim is not freed for another session: that one finds the key busy. */
  lemma FreedOthers(c: Core, v: Core, key: InputKey, other: string, now: Time, id: string, e: Entry)
    requires Frees(c, v, key, other) && !AwaitedElsewhere(c, key, other, now) && other != id
    requires Awaits(c.sessions, id, e) && now < e.input.value.expiresAt
    ensures Awaits(v.sessions, id, e)
  {
    assert !HeldBy(c.sessions, key, id);
  }

  lemma ArmSpares(env: Env, c: Core, s: Step, id: string, e: Entry)
    requires CoreOk(env.cfg, c) && s.ArmInput? && Awaits(c.sessions, id, e) && s.snap.id != id && s.now < e.input.value.expiresAt
    ensures Awaits(Effect(env, c, s).sessions, id, e)
  {
    hide CoreOk, Drops, Commits, Failed, KeyOf, Frees, StateFits, AwaitedElsewhere, Recheck, Install, FitsBytes, Busy, Vacated;
    FiledOk(env.cfg, c);
    RechecksExactly(c, s.snap, s.now, s.failing);
    var r := Model.ArmInput(c, env.cfg, env.versions, s.snap, s.req, s.now, s.failing);
    ArmsExactly(env.cfg, c, env.versions, s.snap, s.req, s.now, s.failing);
    var key := KeyOf(s.snap.binding);
    if key.Some? && Alive(c, s.snap, s.now) && !Busy(c.sessions, key.value, s.snap.id, s.now) {
      FreesExactly(env.cfg, c, key.value, s.snap.id, s.now);
      var v, f := Vacated(c, key.value, s.snap.id), ArmedEntry(env.cfg, c.sessions[s.snap.id], key.value, s.req, s.now);
      FreedOthers(c, v, key.value, s.snap.id, s.now, id, e);
      InstallsExactly(v, env.versions, f, s.failing);
      if r.result.Ok? {
        CommittedOther(v, r.core, env.versions, f, id, e);
      }
    } else if r.core != c {
      FailedOther(c, r.core, s.snap, s.now, s.failing, r.result.error, id, e);
    }
  }

  lemma OtherHolder(m: Sessions, key: InputKey, k: string, id: string, e: Entry)
    requires HeldBy(m, key, k) && Awaits(m, id, e) && e.input.value.key != key
    ensures k != id && Awaits(m[k := m[k].(input := None)], id, e)
  {
  }

  lemma TakeSpares(env: Env, c: Core, s: Step, id: string, e: Entry)
    requires CoreOk(env.cfg, c) && s.TakeInput? && Awaits(c.sessions, id, e) && s.key != e.input.value.key
    ensures Awaits(Effect(env, c, s).sessions, id, e)
  {
    hide CoreOk, Model.TakeInput, Awaits, HeldBy;
    if k :| HeldBy(c.sessions, s.key, k) {
      TakenElsewhere(env, c, s, k, id, e);
    } else {
      TakesNothing(env.cfg, c, env.versions, s.key, s.now, s.failing);
    }
  }

  lemma TakenElsewhere(env: Env, c: Core, s: Step, k: string, id: string, e: Entry)
    requires CoreOk(env.cfg, c) && s.TakeInput? && Awaits(c.sessions, id, e) && s.key != e.input.value.key
    requires HeldBy(c.sessions, s.key, k)
    ensures Awaits(Effect(env, c, s).sessions, id, e)
  {
    hide CoreOk, Model.TakeInput, Drops, Commits, Awaits, Writable, Filed;
    var r, f := Model.TakeInput(c, env.versions, s.key, s.now, s.failing), c.sessions[k];
    TakesExactly(env.cfg, c, env.versions, s.key, k, s.now, s.failing);
    OtherHolder(c.sessions, s.key, k, id, e);
    FiledOk(env.cfg, c);
    assert f.session.id == k by { FiledAt(c.sessions, k); }
    if r.result.Ok? {
      CommittedOther(c, r.core, env.versions, Entry(Delivered(f.session), f.version, None), id, e);
    } else if r.result.error == SessionExpired {
      DroppedOthers(c, r.core, {k}, s.failing, id, e);
    }
  }

  lemma FiledAt(m: Sessions, id: string)
    requires Filed(m) && id in m
    ensures m[id].session.id == id
  {
  }

  lemma ReleaseSpares(env: Env, c: Core, s: Step, id: string, e: Entry)
    requires CoreOk(env.cfg, c) && s.ReleaseInput? && Awaits(c.sessions, id, e) && s.id != id
    ensures Awaits(Effect(env, c, s).sessions, id, e)
  {
    hide CoreOk, Model.ReleaseInput, Commits, Awaits;
    ReleasesExactly(env.cfg, c, env.versions, s.id, s.failing);
    FiledOk(env.cfg, c);
    if Model.ReleaseInput(c, env.versions, s.id, s.failing).result.value {
      CommittedOther(c, Effect(env, c, s), env.versions, c.sessions[s.id].(input := None), id, e);
    }
  }

  lemma CancelSpares(env: Env, c: Core, s: Step, id: string, e: Entry)
    requires s.Cancel? || s.CancelIfScope? || s.CancelScope? || s.Prune?
    requires Awaits(c.sessions, id, e) && Bystander(s, id, e.session.scope, e.input.value)
    ensures Awaits(Effect(env, c, s).sessions, id, e)
  {
    hide RemoveMany, Drops;
    match s
    case Cancel(other, failing) =>
      CancelsExactly(c, other, NO_SCOPE, failing);
      DroppedOthers(c, Effect(env, c, s), {other}, failing, id, e);
    case CancelIfScope(other, scope, failing) =>
      CancelsExactly(c, other, scope, failing);
      var scoped := set k | k in c.sessions && c.sessions[k].session.scope == scope;
      DroppedOthers(c, Effect(env, c, s), {other} * scoped, failing, id, e);
    case CancelScope(scope, failing) =>
      CancelsExactly(c, id, scope, failing);
      var scoped := set k | k in c.sessions && c.sessions[k].session.scope == scope;
      DroppedOthers(c, Effect(env, c, s), if scope == NO_SCOPE then {} else scoped, failing, id, e);
    case Prune(now, failing) =>
      var g := PruneInputs(c, now);
      PrunesExactly(c, now, failing);
      PrunesExactly(g, now, failing);
      DroppedOthers(g, Effect(env, c, s), (set k | k in g.sessions && g.sessions[k].session.expiresAt <= now), failing, id, e);
  }

  /** A bystander leaves the session and its claim exactly as they are. */
  lemma BystandersSpare(env: Env, c: Core, s: Step, id: string, e: Entry)
    requires CoreOk(env.cfg, c) && Awaits(c.sessions, id, e) && Bystander(s, id, e.session.scope, e.input.value)
    ensures Awaits(Effect(env, c, s).sessions, id, e)
  {
    hide CoreOk, Effect;
    match s
    case Create(_, _, _, _, _) => CreateSpares(env, c, s, id, e);
    case Lookup(_, _, _) => LookupSpares(env, c, s, id, e);
    case UpdateState(_, _, _, _) => UpdateSpares(env, c, s, id, e);
    case BindTarget(_, _, _, _, _) => BindSpares(env, c, s, id, e);
    case Touch(_, _, _, _) => TouchSpares(env, c, s, id, e);
    case ArmInput(_, _, _, _) => ArmSpares(env, c, s, id, e);
    case TakeInput(_, _, _) => TakeSpares(env, c, s, id, e);
    case ReleaseInput(_, _) => ReleaseSpares(env, c, s, id, e);
    case Preserve => PreserveSpares(env, c);
    case _ => CancelSpares(env, c, s, id, e);
  }

  lemma PreserveSpares(env: Env, c: Core)
    ensures Effect(env, c, Preserve).sessions == c.sessions
  {
  }

  lemma {:induction false} StillAwaited(env: Env, ws: seq<World>, steps: seq<Step>, i: nat, n: nat, id: string, e: Entry)
    requires Run(env, ws, steps) && WorldOk(env, ws[0]) && i <= n < |ws| && Awaits(ws[i].core.sessions, id, e)
    requires forall k :: i <= k < n ==> Bystander(steps[k], id, e.session.scope, e.input.value)
    ensures Awaits(ws[n].core.sessions, id, e)
    decreases n
  {
    hide WorldOk, Effect, Enabled, Awaits, NextLeft, ReportOf;
    if i < n {
      StillAwaited(env, ws, steps, i, n - 1, id, e);
      RunOk(env, ws, steps, n - 1);
      MemoryOk(env, ws[n - 1]);
      BystandersSpare(env, ws[n - 1].core, steps[n - 1], id, e);
    }
  }

  lemma MemoryOk(env: Env, w: World)
    requires WorldOk(env, w)
    ensures CoreOk(env.cfg, w.core)
  {
    hide CoreOk, Synced, RevsOk, SeenOk, DeliveriesOk, OwnKeys;
  }

  /**
   * Once a session has been armed, and as long as only bystanders act, the first message of that actor in that chat
   * before the claim's deadline is delivered, with the state the session was armed with.
   */
  lemma AwaitedInputArrives(env: Env, ws: seq<World>, steps: seq<Step>, i: nat, j: nat, id: string)
    requires Run(env, ws, steps) && WorldOk(env, ws[0]) && i < j < |steps|
    requires steps[i].ArmInput? && ReportOf(env, ws[i].core, steps[i]) == Armed(id)
    requires steps[j].TakeInput? && KeyOf(steps[i].snap.binding) == Some(steps[j].key) && id in ws[i].core.sessions
    requires var e := ArmedEntry(env.cfg, ws[i].core.sessions[id], steps[j].key, steps[i].req, steps[i].now);
             && (forall k :: i < k < j ==> Bystander(steps[k], id, e.session.scope, e.input.value))
             && steps[j].now < e.input.value.expiresAt
             && Writable(ws[j].core, env.versions, e.session.featureId, id, steps[j].failing)
    ensures var e := ArmedEntry(env.cfg, ws[i].core.sessions[id], steps[j].key, steps[i].req, steps[i].now);
            && ReportOf(env, ws[j].core, steps[j]) == Taken(id)
            && Model.TakeInput(ws[j].core, env.versions, steps[j].key, steps[j].now, steps[j].failing).result == Ok(Some(Delivered(e.session)))
            && e.session.state == steps[i].req.state && e.session.revision == steps[i].req.revision + 1
  {
    hide WorldOk, Enabled, NextLeft, KeyOf, Model.TakeInput, Model.ArmInput, Bystander, CoreOk, Frees, AwaitedElsewhere, StateFits;
    var a := steps[i];
    RunOk(env, ws, steps, i);
    MemoryOk(env, ws[i]);
    ArmsExactly(env.cfg, ws[i].core, env.versions, a.snap, a.req, a.now, a.failing);
    FiledOk(env.cfg, ws[i].core);
    var e := ArmedEntry(env.cfg, ws[i].core.sessions[id], steps[j].key, a.req, a.now);
    StillAwaited(env, ws, steps, i + 1, j, id, e);
    RunOk(env, ws, steps, j);
    MemoryOk(env, ws[j]);
    FiledOk(env.cfg, ws[j].core);
    TakesExactly(env.cfg, ws[j].core, env.versions, steps[j].key, id, steps[j].now, steps[j].failing);
  }
}
