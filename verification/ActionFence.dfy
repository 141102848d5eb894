/** Callback resolution, handler registrations, and the fence between preparing an action and running it. */
module ActionFence {
  import opened Prelude
  import opened Bindings
  import Text
  import opened InteractionModel
  import opened InteractionBounds
  import opened InteractionDurable
  import opened InteractionRuns
  import opened InteractionTheorems
  import opened InteractionEffects
  import Model = InteractionModel
  import Tokens = CallbackTokens

  datatype HandlerKey = HandlerKey(featureId: string, actionId: string)

  /** Some handlers come with a preparer, which decides where their actions are to run. */
  datatype HandlerEntry = HandlerEntry(scope: Scope, token: nat, prepares: bool)

  type Handlers = map<HandlerKey, HandlerEntry>

  /** The features now enabled, with their scopes, and the actions they declare. */
  datatype Catalog = Catalog(scopes: Scopes, actions: set<HandlerKey>)

  predicate Current(cat: Catalog, featureId: string, scope: Scope) {
    featureId in cat.scopes && cat.scopes[featureId] == scope
  }

  // ----- resolving a callback

  /** A lookup followed by the generation check; a session of a stale generation is removed. */
  function CurrentSession(c: Core, cat: Catalog, id: string, now: Time, failing: set<string>): Outcome<Session> {
    var r := Model.Lookup(c, id, now, failing);
    if r.result.Err? then r
    else
      var s := r.result.value;
      if Current(cat, s.featureId, s.scope) then r
      else Outcome(Model.CancelIfScope(r.core, id, s.scope, failing), Err(ScopeStale))
  }

  function BindCurrent(c: Core, versions: Versions, cat: Catalog, id: string, revision: nat, target: Target,
                       now: Time, failing: set<string>): Outcome<Session>
  {
    if revision == 0 then Outcome(c, Err(RevisionConflict))
    else if !Complete(target) then Outcome(c, Err(BadBinding))
    else
      var r := CurrentSession(c, cat, id, now, failing);
      if r.result.Err? then r
      else Model.BindTarget(r.core, versions, r.result.value, revision, target, now, failing)
  }

  /** The first callback of a session without a target claims the callback's own. */
  function ClaimTarget(c: Core, versions: Versions, cat: Catalog, s: Session, revision: nat, actual: Binding,
                       now: Time, failing: set<string>): Outcome<Session>
  {
    var target := CompleteTarget(actual);
    if HasTarget(s.binding) || target.None? then Outcome(c, Ok(s))
    else BindCurrent(c, versions, cat, s.id, revision, target.value, now, failing)
  }

  function ResolveCallback(c: Core, versions: Versions, cat: Catalog, data: string, actual: Binding,
                           now: Time, failing: set<string>): Outcome<Session>
  {
    match Tokens.Parse(data)
    case Err(_) => Outcome(c, Err(BadToken))
    case Ok(token) =>
      if !Valid(Normalized(actual)) then Outcome(c, Err(BadBinding))
      else
        var r := CurrentSession(c, cat, token.sessionId, now, failing);
        if r.result.Err? then r
        else if !Matches(r.result.value.binding, Normalized(actual)) then Outcome(r.core, Err(BindingMismatch))
        else
          var b := ClaimTarget(r.core, versions, cat, r.result.value, token.revision, actual, now, failing);
          if b.result.Err? then b
          else
            var s := b.result.value;
            if s.revision != token.revision then Outcome(b.core, Err(StaleToken))
            else if HandlerKey(s.featureId, token.actionId) !in cat.actions then Outcome(b.core, Err(ActionNotFound))
            else b
  }

  /** The session is live, of the current generation, at the token's revision, and bound to the caller. */
  ghost predicate Resolved(c: Core, cat: Catalog, token: Tokens.Token, s: Session, actual: Binding, now: Time) {
    && s.id == token.sessionId && s.id in c.sessions && c.sessions[s.id].session == s
    && s.expiresAt > now && Current(cat, s.featureId, s.scope)
    && s.revision == token.revision && Matches(s.binding, Normalized(actual))
    && HandlerKey(s.featureId, token.actionId) in cat.actions
  }

  /** Attaching the caller's own target keeps the binding matched. */
  lemma ClaimedMatches(b: Binding, actual: Binding)
    requires !HasTarget(b) && CompleteTarget(actual).Some? && Matches(b, Normalized(actual))
    requires WithTarget(b, CompleteTarget(actual).value).Ok?
    ensures Matches(WithTarget(b, CompleteTarget(actual).value).value, Normalized(actual))
  {
    hide Text.Trim;
    TrimEmpty();
  }

  lemma ClaimTargetSound(c: Core, versions: Versions, cat: Catalog, s: Session, revision: nat, actual: Binding,
                         now: Time, failing: set<string>)
    requires Filed(c.sessions) && s.id in c.sessions && c.sessions[s.id].session == s
    requires Matches(s.binding, Normalized(actual)) && s.expiresAt > now && Current(cat, s.featureId, s.scope)
    requires ClaimTarget(c, versions, cat, s, revision, actual, now, failing).result.Ok?
    ensures var r := ClaimTarget(c, versions, cat, s, revision, actual, now, failing);
            var t := r.result.value;
            && t == s.(binding := t.binding) && Matches(t.binding, Normalized(actual))
            && t.id in r.core.sessions && r.core.sessions[t.id].session == t
  {
    hide Matches, WithTarget, HasTarget, CompleteTarget, Complete, RemoveMany, Saved, Normalized, Text.Trim;
    if !HasTarget(s.binding) && CompleteTarget(actual).Some? {
      var target := CompleteTarget(actual).value;
      if WithTarget(s.binding, target).Ok? {
        ClaimedMatches(s.binding, actual);
      }
    }
  }

  /** Resolution answers only for a session that was there at the token's revision, and still is. */
  lemma ResolveSound(c: Core, versions: Versions, cat: Catalog, data: string, actual: Binding, now: Time, failing: set<string>)
    requires Filed(c.sessions) && ResolveCallback(c, versions, cat, data, actual, now, failing).result.Ok?
    ensures Tokens.Parse(data).Ok?
    ensures var r := ResolveCallback(c, versions, cat, data, actual, now, failing);
            var token, s := Tokens.Parse(data).value, r.result.value;
            && Resolved(r.core, cat, token, s, actual, now)
            && s.id in c.sessions && c.sessions[s.id].session == s.(binding := c.sessions[s.id].session.binding)
  {
    hide Matches, Normalized, RemoveMany, ClaimTarget, Tokens.Parse, Valid;
    var token := Tokens.Parse(data).value;
    var r := CurrentSession(c, cat, token.sessionId, now, failing);
    ClaimTargetSound(c, versions, cat, r.result.value, token.revision, actual, now, failing);
  }

  /** The other way round: a current token of a live session bound to its caller always resolves. */
  lemma ResolveAccepts(c: Core, versions: Versions, cat: Catalog, data: string, s: Session, actual: Binding, now: Time, failing: set<string>)
    requires Tokens.Parse(data).Ok? && !c.closed && Valid(Normalized(actual))
    requires Tokens.ValidSessionId(s.id) && (HasTarget(s.binding) || CompleteTarget(actual).None?)
    requires Resolved(c, cat, Tokens.Parse(data).value, s, actual, now)
    ensures ResolveCallback(c, versions, cat, data, actual, now, failing) == Outcome(c, Ok(s))
  {
    hide Tokens.Parse, Tokens.ValidSessionId, Valid, Normalized, Matches, RemoveMany, HasTarget, CompleteTarget;
  }

  /** A token rendered from a snapshot never resolves again once the session's state has been replaced. */
  lemma OldTokensRejected(env: Env, ws: seq<World>, steps: seq<Step>, i: nat, k: nat, j: nat, snap: Session,
                          actionId: string, data: string, cat: Catalog, actual: Binding, now: Time, failing: set<string>)
    requires Run(env, ws, steps) && WorldOk(env, ws[0]) && i <= k < j < |ws|
    requires snap in ws[i].seen && ChangesAt(env, ws, steps, k, snap.id) && snap.revision < Tokens.REVISION_LIMIT
    requires Tokens.Encode(snap.featureId, actionId, snap.id, snap.revision) == Ok(data)
    ensures ResolveCallback(ws[j].core, env.versions, cat, data, actual, now, failing).result.Err?
  {
    hide ResolveCallback, WorldOk, Next, Enabled, ReportOf, Tokens.Parse, Tokens.Encode, Tokens.ValidIdentifier;
    RunOk(env, ws, steps, j);
    WorldFiled(env, ws[j]);
    StaleForGood(env, ws, steps, i, k, j, snap);
    Tokens.EncodeExact(snap.featureId, actionId, snap.id, snap.revision);
    Tokens.RoundTrip(snap.featureId, actionId, snap.id, snap.revision);
    if ResolveCallback(ws[j].core, env.versions, cat, data, actual, now, failing).result.Ok? {
      ResolveSound(ws[j].core, env.versions, cat, data, actual, now, failing);
    }
  }

  // ----- preparing and dispatching

  datatype Prepared = Prepared(data: string, binding: Binding, key: HandlerKey, scope: Scope, execution: Scope, handlerToken: nat)

  /** What the handler's preparer answers, and the catalog as it is after that. */
  datatype Admission = Admission(answer: Result<Scope, Fault>, after: Catalog)

  function Prepare(c: Core, h: Handlers, versions: Versions, cat: Catalog, data: string, binding: Binding,
                   adm: Admission, now: Time, failing: set<string>): Outcome<Prepared>
  {
    var r := ResolveCallback(c, versions, cat, data, binding, now, failing);
    if r.result.Err? || Tokens.Parse(data).Err? then Outcome(r.core, Err(if r.result.Err? then r.result.error else BadToken))
    else
      var s := r.result.value;
      var key := HandlerKey(s.featureId, Tokens.Parse(data).value.actionId);
      if key !in h || h[key].scope != s.scope then Outcome(r.core, Err(HandlerUnavailable))
      else if !Current(cat, s.featureId, h[key].scope) then Outcome(r.core, Err(ScopeStale))
      else
        var answer := if h[key].prepares then adm.answer else Ok(h[key].scope);
        if answer.Err? then Outcome(r.core, Err(answer.error))
        else if h[key].prepares && answer.value == NO_SCOPE then Outcome(r.core, Err(HandlerUnavailable))
        else if !Current(adm.after, s.featureId, h[key].scope) then Outcome(r.core, Err(ScopeStale))
        else Outcome(r.core, Ok(Prepared(data, Normalized(binding), key, h[key].scope, answer.value, h[key].token)))
  }

  /** The registration an action was prepared with. */
  predicate Holds(h: Handlers, p: Prepared) {
    p.key in h && h[p.key].scope == p.scope && h[p.key].token == p.handlerToken
  }

  /** Ok carries the session the handler is run with. */
  function Dispatch(c: Core, h: Handlers, versions: Versions, cat: Catalog, p: Prepared,
                    now: Time, failing: set<string>): Outcome<Session>
  {
    var r := ResolveCallback(c, versions, cat, p.data, p.binding, now, failing);
    if r.result.Err? || Tokens.Parse(p.data).Err? then r
    else
      var s := r.result.value;
      var key := HandlerKey(s.featureId, Tokens.Parse(p.data).value.actionId);
      if key != p.key || s.scope != p.scope then Outcome(r.core, Err(ScopeStale))
      else if !Holds(h, p) then Outcome(r.core, Err(HandlerUnavailable))
      else if !Current(cat, s.featureId, p.scope) then Outcome(r.core, Err(ScopeStale))
      else r
  }

  /** After a resolution the session has a target, unless the caller's event names none. */
  lemma ResolveLeavesTarget(c: Core, versions: Versions, cat: Catalog, data: string, actual: Binding, now: Time, failing: set<string>)
    requires ResolveCallback(c, versions, cat, data, actual, now, failing).result.Ok?
    ensures var r := ResolveCallback(c, versions, cat, data, actual, now, failing);
            && (HasTarget(r.result.value.binding) || CompleteTarget(actual).None?)
            && (!c.closed ==> !r.core.closed) && Valid(Normalized(actual)) && Tokens.ValidSessionId(Tokens.Parse(data).value.sessionId)
  {
    hide Tokens.Parse, Tokens.ValidSessionId, Valid, Normalized, Matches, RemoveMany, Text.Trim, Saved;
  }

  // ----- registrations

  datatype Registry = Registry(handlers: Handlers, next: nat)

  function Registered(g: Registry, key: HandlerKey, scope: Scope, prepares: bool): Registry {
    Registry(g.handlers[key := HandlerEntry(scope, g.next + 1, prepares)], g.next + 1)
  }

  function WithoutRegistration(h: Handlers, key: HandlerKey, token: nat): Handlers {
    if key in h && h[key].token == token then h - {key} else h
  }

  function WithoutScope(h: Handlers, scope: Scope): Handlers {
    map k | k in h && h[k].scope != scope :: h[k]
  }

  /** Tokens in use have been given out. */
  ghost predicate RegistryOk(g: Registry) {
    forall k :: k in g.handlers ==> 0 < g.handlers[k].token <= g.next
  }

  // ----- runs of the runtime and the dispatcher together

  datatype FenceState = FenceState(world: World, registry: Registry)

  datatype FenceStep =
    | Runtime(step: Step)
    | Register(key: HandlerKey, scope: Scope, prepares: bool)
    | CloseRegistration(key: HandlerKey, token: nat)
    | UnregisterScope(scope: Scope)

  ghost function FenceNext(env: Env, f: FenceState, s: FenceStep): FenceState {
    var h := f.registry.handlers;
    match s
    case Runtime(step) => f.(world := Next(env, f.world, step))
    case Register(key, scope, prepares) =>
      if key in h && h[key].scope == scope then f else f.(registry := Registered(f.registry, key, scope, prepares))
    case CloseRegistration(key, token) => f.(registry := f.registry.(handlers := WithoutRegistration(h, key, token)))
    case UnregisterScope(scope) => f.(registry := f.registry.(handlers := WithoutScope(h, scope)))
  }

  ghost predicate FenceRun(env: Env, fs: seq<FenceState>, steps: seq<FenceStep>) {
    && |fs| == |steps| + 1
    && (forall i :: 0 <= i < |steps| ==>
          && (steps[i].Runtime? ==> Enabled(fs[i].world, steps[i].step))
          && fs[i + 1] == FenceNext(env, fs[i], steps[i]))
  }

  ghost predicate FenceOk(env: Env, f: FenceState) {
    WorldOk(env, f.world) && RegistryOk(f.registry)
  }

  lemma FenceNextOk(env: Env, f: FenceState, s: FenceStep)
    requires FenceOk(env, f) && (s.Runtime? ==> Enabled(f.world, s.step))
    ensures FenceOk(env, FenceNext(env, f, s))
  {
    hide WorldOk, Next, Enabled;
    if s.Runtime? {
      NextOk(env, f.world, s.step);
    }
  }

  lemma {:induction false} FenceRunOk(env: Env, fs: seq<FenceState>, steps: seq<FenceStep>, n: nat)
    requires FenceRun(env, fs, steps) && FenceOk(env, fs[0]) && n < |fs|
    ensures FenceOk(env, fs[n])
  {
    hide FenceOk, FenceNext, Enabled;
    if n > 0 {
      FenceRunOk(env, fs, steps, n - 1);
      FenceNextOk(env, fs[n - 1], steps[n - 1]);
    }
  }

  /** A registration that is gone stays gone: its token is never given out again. */
  predicate Withdrawn(g: Registry, key: HandlerKey, token: nat) {
    token <= g.next && !(key in g.handlers && g.handlers[key].token == token)
  }

  lemma WithdrawnStays(env: Env, f: FenceState, s: FenceStep, key: HandlerKey, token: nat)
    requires Withdrawn(f.registry, key, token)
    ensures Withdrawn(FenceNext(env, f, s).registry, key, token)
  {
    hide Next;
  }

  /** An entry keeps its content as long as it keeps its token. */
  lemma EntryFixed(env: Env, f: FenceState, s: FenceStep, key: HandlerKey)
    requires RegistryOk(f.registry) && key in f.registry.handlers
    ensures var h := FenceNext(env, f, s).registry.handlers;
            key in h && h[key].token == f.registry.handlers[key].token ==> h[key] == f.registry.handlers[key]
    ensures f.registry.handlers[key].token <= FenceNext(env, f, s).registry.next
  {
    hide Next;
  }

  /** The same token at both ends of a run means the very same registration all the way. */
  lemma {:induction false} SameRegistration(env: Env, fs: seq<FenceState>, steps: seq<FenceStep>, i: nat, j: nat, key: HandlerKey)
    requires FenceRun(env, fs, steps) && FenceOk(env, fs[0]) && i <= j < |fs|
    requires key in fs[i].registry.handlers
    ensures fs[i].registry.handlers[key].token <= fs[j].registry.next
    ensures key in fs[j].registry.handlers && fs[j].registry.handlers[key].token == fs[i].registry.handlers[key].token ==>
      forall k :: i <= k <= j ==> key in fs[k].registry.handlers && fs[k].registry.handlers[key] == fs[i].registry.handlers[key]
    decreases j
  {
    hide FenceOk, FenceNext, Enabled;
    FenceRunOk(env, fs, steps, i);
    RegistryPart(env, fs[i]);
    if i < j {
      SameRegistration(env, fs, steps, i, j - 1, key);
      FenceRunOk(env, fs, steps, j - 1);
      RegistryPart(env, fs[j - 1]);
      var token := fs[i].registry.handlers[key].token;
      if Withdrawn(fs[j - 1].registry, key, token) {
        WithdrawnStays(env, fs[j - 1], steps[j - 1], key, token);
      } else {
        EntryFixed(env, fs[j - 1], steps[j - 1], key);
      }
    }
  }

  lemma RegistryPart(env: Env, f: FenceState)
    requires FenceOk(env, f)
    ensures RegistryOk(f.registry) && WorldOk(env, f.world)
    ensures forall key :: key in f.registry.handlers ==> f.registry.handlers[key].token <= f.registry.next
  {
    hide WorldOk;
  }

  lemma {:induction false} WithdrawnAlong(env: Env, fs: seq<FenceState>, steps: seq<FenceStep>, i: nat, j: nat,
                                          key: HandlerKey, token: nat)
    requires FenceRun(env, fs, steps) && i <= j < |fs| && Withdrawn(fs[i].registry, key, token)
    ensures Withdrawn(fs[j].registry, key, token)
    decreases j
  {
    hide FenceNext, Enabled, Withdrawn;
    if i < j {
      WithdrawnAlong(env, fs, steps, i, j - 1, key, token);
      WithdrawnStays(env, fs[j - 1], steps[j - 1], key, token);
    }
  }

  /** Once a newer registration takes the key, closing the older one does nothing, whenever that happens. */
  lemma CloseSparesNewer(env: Env, fs: seq<FenceState>, steps: seq<FenceStep>, i: nat, j: nat, older: nat)
    requires FenceRun(env, fs, steps) && i < j < |fs| && older <= fs[i].registry.next
    requires steps[i].Register? && fs[i + 1].registry != fs[i].registry
    ensures FenceNext(env, fs[j], CloseRegistration(steps[i].key, older)) == fs[j]
  {
    hide Next, Enabled;
    WithdrawnAlong(env, fs, steps, i + 1, j, steps[i].key, older);
  }

  // ----- the fence

  /** The session's state was replaced by step k. */
  ghost predicate ReplacesAt(env: Env, fs: seq<FenceState>, steps: seq<FenceStep>, k: nat, id: string) {
    && k < |steps| && k < |fs| && steps[k].Runtime?
    && Bumped(ReportOf(env, fs[k].world.core, steps[k].step)) == Some(id)
  }

  lemma {:induction false} RevisionsAlong(env: Env, fs: seq<FenceState>, steps: seq<FenceStep>, i: nat, j: nat, id: string)
    requires FenceRun(env, fs, steps) && FenceOk(env, fs[0]) && i <= j < |fs| && id in fs[i].world.revs
    ensures id in fs[j].world.revs && fs[j].world.revs[id] >= fs[i].world.revs[id]
    ensures forall k :: i <= k < j && ReplacesAt(env, fs, steps, k, id) ==> fs[j].world.revs[id] > fs[i].world.revs[id]
    decreases j
  {
    hide WorldOk, Next, Enabled, ReportOf, RegistryOk;
    if i < j {
      RevisionsAlong(env, fs, steps, i, j - 1, id);
      FenceRunOk(env, fs, steps, j - 1);
      if steps[j - 1].Runtime? {
        RevsGrow(env, fs[j - 1].world, steps[j - 1].step, id);
      }
    }
  }

  lemma PreparePins(c: Core, h: Handlers, versions: Versions, cat: Catalog, data: string, binding: Binding,
                    adm: Admission, now: Time, failing: set<string>)
    requires Filed(c.sessions) && Prepare(c, h, versions, cat, data, binding, adm, now, failing).result.Ok?
    ensures Tokens.Parse(data).Ok?
    ensures var r := Prepare(c, h, versions, cat, data, binding, adm, now, failing);
            var p, token := r.result.value, Tokens.Parse(data).value;
            && token.sessionId in r.core.sessions
            && var s := r.core.sessions[token.sessionId].session;
            && s.revision == token.revision && p.key == HandlerKey(s.featureId, token.actionId)
            && p.data == data && p.binding == Normalized(binding) && Valid(p.binding)
            && (HasTarget(s.binding) || CompleteTarget(binding).None?)
            && Holds(h, p) && Current(cat, p.key.featureId, p.scope) && Current(adm.after, p.key.featureId, p.scope)
            && (if h[p.key].prepares then p.execution != NO_SCOPE && adm.answer == Ok(p.execution) else p.execution == p.scope)
  {
    hide ResolveCallback, Normalized, Tokens.Parse, HasTarget, CompleteTarget, Valid;
    ResolveSound(c, versions, cat, data, binding, now, failing);
    ResolveLeavesTarget(c, versions, cat, data, binding, now, failing);
  }

  lemma DispatchChecks(c: Core, h: Handlers, versions: Versions, cat: Catalog, p: Prepared, now: Time, failing: set<string>)
    requires Filed(c.sessions) && Dispatch(c, h, versions, cat, p, now, failing).result.Ok?
    ensures Tokens.Parse(p.data).Ok?
    ensures var s, token := Dispatch(c, h, versions, cat, p, now, failing).result.value, Tokens.Parse(p.data).value;
            && s.id == token.sessionId && s.id in c.sessions
            && c.sessions[s.id].session.revision == token.revision == s.revision
            && p.key == HandlerKey(s.featureId, token.actionId) && p.key in cat.actions && Holds(h, p)
            && Current(cat, p.key.featureId, p.scope) && s.scope == p.scope
            && s.expiresAt > now && Matches(s.binding, Normalized(p.binding))
  {
    hide ResolveCallback, Normalized, Tokens.Parse, Matches;
    ResolveSound(c, versions, cat, p.data, p.binding, now, failing);
  }

  /**
   * The fence: an action prepared in state i and run in state j, with any steps between, finds its session at the
   * same revision with no state change in between, the very registration it was prepared with installed all the
   * way, and its feature in the same scope.
   */
  lemma PreparedActionFence(env: Env, fs: seq<FenceState>, steps: seq<FenceStep>, i: nat, j: nat,
                            c: Core, data: string, binding: Binding, adm: Admission, p: Prepared,
                            cat: Catalog, now: Time, failing: set<string>, cat': Catalog, now': Time, failing': set<string>)
    requires FenceRun(env, fs, steps) && FenceOk(env, fs[0]) && i <= j < |fs| && Filed(c.sessions)
    requires Prepare(c, fs[i].registry.handlers, env.versions, cat, data, binding, adm, now, failing)
          == Outcome(fs[i].world.core, Ok(p))
    requires Dispatch(fs[j].world.core, fs[j].registry.handlers, env.versions, cat', p, now', failing').result.Ok?
    ensures Tokens.Parse(data).Ok?
    ensures var id := Tokens.Parse(data).value.sessionId;
            && id in fs[i].world.core.sessions && id in fs[j].world.core.sessions
            && fs[i].world.core.sessions[id].session.revision == fs[j].world.core.sessions[id].session.revision
            && (forall k :: i <= k < j ==> !ReplacesAt(env, fs, steps, k, id))
    ensures forall k :: i <= k <= j ==> Holds(fs[k].registry.handlers, p)
    ensures Current(cat, p.key.featureId, p.scope) && Current(cat', p.key.featureId, p.scope)
  {
    hide Prepare, Dispatch, WorldOk, FenceNext, Enabled, Tokens.Parse, ReplacesAt, RegistryOk;
    FenceRunOk(env, fs, steps, i);
    FenceRunOk(env, fs, steps, j);
    WorldFiled(env, fs[j].world);
    PreparePins(c, fs[i].registry.handlers, env.versions, cat, data, binding, adm, now, failing);
    DispatchChecks(fs[j].world.core, fs[j].registry.handlers, env.versions, cat', p, now', failing');
    SameRegistration(env, fs, steps, i, j, p.key);
    var id := Tokens.Parse(data).value.sessionId;
    AtRecorded(env, fs[i].world, id);
    AtRecorded(env, fs[j].world, id);
    RevisionsAlong(env, fs, steps, i, j, id);
  }

  // ----- and nothing else gets in the way

  /** What dispatching looks at, all of it read from the state it starts in. */
  ghost predicate StillReady(c: Core, h: Handlers, cat: Catalog, p: Prepared, token: Tokens.Token, now: Time) {
    && token.sessionId in c.sessions
    && var s := c.sessions[token.sessionId].session;
    && s.expiresAt > now && s.revision == token.revision && s.scope == p.scope && Matches(s.binding, Normalized(p.binding))
    && Holds(h, p) && Current(cat, p.key.featureId, p.scope) && p.key in cat.actions
  }

  /** No target is left to be claimed, or the caller's event names a whole one and the claim can be written. */
  ghost predicate TargetSettled(c: Core, versions: Versions, s: Session, actual: Binding, failing: set<string>) {
    var target := CompleteTarget(actual);
    HasTarget(s.binding) || target.None? || (Complete(target.value) && Writable(c, versions, s.featureId, s.id, failing))
  }

  /** The entry after the callback: with the caller's target if it had none. */
  function Settled(e: Entry, actual: Binding): Entry {
    var target := CompleteTarget(actual);
    if HasTarget(e.session.binding) || target.None? then e
    else e.(session := e.session.(binding := Binding(e.session.binding.actorId, target.value.chatId, target.value.messageId, Text.Trim(target.value.inlineId))))
  }

  /** The entry is written where it takes a target; otherwise nothing changes. */
  ghost predicate Settles(c: Core, d: Core, versions: Versions, e: Entry, actual: Binding) {
    && e.session.id in c.sessions
    && if HasTarget(c.sessions[e.session.id].session.binding) || CompleteTarget(actual).None? then d == c else Commits(c, d, versions, e)
  }

  /** A session gives its target away exactly if the caller names a whole one and that can be written. */
  lemma ClaimExact(c: Core, versions: Versions, cat: Catalog, s: Session, actual: Binding, now: Time, failing: set<string>)
    requires Filed(c.sessions) && s.id in c.sessions && c.sessions[s.id].session == s && !c.closed && Tokens.ValidSessionId(s.id)
    requires s.expiresAt > now && Current(cat, s.featureId, s.scope) && s.revision > 0
    ensures var r := ClaimTarget(c, versions, cat, s, s.revision, actual, now, failing);
            var e := Settled(c.sessions[s.id], actual);
            && (r.result.Ok? <==> TargetSettled(c, versions, s, actual, failing))
            && (r.result.Ok? ==> r.result.value == e.session && Settles(c, r.core, versions, e, actual))
  {
    hide CompleteTarget, RemoveMany, Tokens.ValidSessionId, Complete, Model.BindTarget, Commits, Text.Trim, HasTarget;
    var target := CompleteTarget(actual);
    if !HasTarget(s.binding) && target.Some? {
      UntargetedTakes(s.binding, target.value);
      BindsExactly(c, versions, s, s.revision, target.value, now, failing);
    }
  }

  lemma UntargetedTakes(b: Binding, t: Target)
    requires !HasTarget(b)
    ensures WithTarget(b, t).Ok? <==> Complete(t)
    ensures WithTarget(b, t).Ok? ==> WithTarget(b, t).value == Binding(b.actorId, t.chatId, t.messageId, Text.Trim(t.inlineId))
  {
    hide Text.Trim;
  }

  lemma TargetComplete(actual: Binding)
    requires actual == Normalized(actual) && CompleteTarget(actual).Some?
    ensures Complete(CompleteTarget(actual).value)
  {
    hide Text.Trim;
    TrimEmpty();
  }

  lemma NormalizedTwice(b: Binding)
    ensures Normalized(Normalized(b)) == Normalized(b)
  {
    hide Text.Trim;
    Text.TrimTwice(b.inlineId);
  }

  /** A current session is found unchanged; one of another generation than its feature's is removed. */
  lemma CurrentSessionExact(c: Core, cat: Catalog, id: string, now: Time, failing: set<string>)
    ensures var (r, q) := (Model.Lookup(c, id, now, failing), CurrentSession(c, cat, id, now, failing));
            && (q.result.Ok? <==> r.result.Ok? && Current(cat, r.result.value.featureId, r.result.value.scope))
            && (q.result.Ok? || r.result.Err? ==> q == r)
            && (q.result.Err? && r.result.Ok? ==> q.result.error == ScopeStale && Drops(c, q.core, {id}, failing))
  {
    hide RemoveMany, Drops, Tokens.ValidSessionId;
    RemovesExactly(c, {id}, failing);
  }

  /** Why a callback is turned away. */
  lemma ResolveFaults(cfg: Config, c: Core, versions: Versions, cat: Catalog, data: string, actual: Binding, now: Time, failing: set<string>)
    requires CoreOk(cfg, c)
    ensures var r := ResolveCallback(c, versions, cat, data, actual, now, failing);
            r.result.Err? && Tokens.Parse(data).Ok? && Valid(Normalized(actual)) ==>
              var token := Tokens.Parse(data).value;
              var found := CurrentSession(c, cat, token.sessionId, now, failing);
              if found.result.Err? then r == found
              else
                var s := found.result.value;
                match r.result.error
                case BindingMismatch => !Matches(s.binding, Normalized(actual)) && r.core == c
                case StaleToken => s.revision != token.revision
                case RevisionConflict => s.revision != token.revision && r.core == c
                case ActionNotFound => HandlerKey(s.featureId, token.actionId) !in cat.actions
                case fault => s.revision == token.revision ==> !TargetSettled(c, versions, s, actual, failing)
    ensures var r := ResolveCallback(c, versions, cat, data, actual, now, failing);
            && (Tokens.Parse(data).Err? ==> r == Outcome(c, Err(BadToken)))
            && (Tokens.Parse(data).Ok? && !Valid(Normalized(actual)) ==> r == Outcome(c, Err(BadBinding)))
  {
    hide Tokens.Parse, Normalized, Matches, Valid, Tokens.ValidSessionId, RemoveMany, FitOk, ClaimsOk, Commits, CompleteTarget, HasTarget, Complete, Model.BindTarget, Drops;
    if Tokens.Parse(data).Ok? && Valid(Normalized(actual)) {
      var token := Tokens.Parse(data).value;
      var found := CurrentSession(c, cat, token.sessionId, now, failing);
      FiledOk(cfg, c);
      if found.result.Ok? {
        var s := found.result.value;
        assert SessionOk(cfg, s.id, s);
        ClaimExact(c, versions, cat, s, actual, now, failing);
        SettledRevision(c.sessions[s.id], actual);
        if CompleteTarget(actual).Some? {
          BindsExactly(c, versions, s, token.revision, CompleteTarget(actual).value, now, failing);
        }
      }
    }
  }

  /** What a callback must find: its session, live and current at the token's revision, bound to the caller, the action declared. */
  ghost predicate Answerable(c: Core, versions: Versions, cat: Catalog, data: string, actual: Binding, now: Time, failing: set<string>) {
    && Tokens.Parse(data).Ok? && Valid(Normalized(actual))
    && var token := Tokens.Parse(data).value;
    && token.sessionId in c.sessions
    && var s := c.sessions[token.sessionId].session;
    && s.expiresAt > now && Current(cat, s.featureId, s.scope) && s.revision == token.revision
    && Matches(s.binding, Normalized(actual)) && HandlerKey(s.featureId, token.actionId) in cat.actions
    && TargetSettled(c, versions, s, actual, failing)
  }

  /** Resolution succeeds exactly then, answers with that session, and changes nothing but a target still missing. */
  lemma ResolveExact(cfg: Config, c: Core, versions: Versions, cat: Catalog, data: string, actual: Binding, now: Time, failing: set<string>)
    requires CoreOk(cfg, c)
    ensures var r := ResolveCallback(c, versions, cat, data, actual, now, failing);
            && (r.result.Ok? <==> Answerable(c, versions, cat, data, actual, now, failing))
            && (r.result.Ok? ==>
                  var e := Settled(c.sessions[Tokens.Parse(data).value.sessionId], actual);
                  r.result.value == e.session && Settles(c, r.core, versions, e, actual))
  {
    hide ClaimTarget, Tokens.Parse, Normalized, Matches, Valid, Tokens.ValidSessionId, RemoveMany, FitOk, ClaimsOk, TargetSettled, Settles, Settled;
    if Tokens.Parse(data).Ok? {
      var id, revision := Tokens.Parse(data).value.sessionId, Tokens.Parse(data).value.revision;
      FiledOk(cfg, c);
      if id in c.sessions && !c.closed {
        var s := c.sessions[id].session;
        assert SessionOk(cfg, id, s);
        if s.expiresAt > now && Current(cat, s.featureId, s.scope) && Matches(s.binding, Normalized(actual)) {
          if s.revision == revision {
            ClaimExact(c, versions, cat, s, actual, now, failing);
            SettledRevision(c.sessions[id], actual);
          } else if ClaimTarget(c, versions, cat, s, revision, actual, now, failing).result.Ok? {
            ClaimTargetSound(c, versions, cat, s, revision, actual, now, failing);
          }
        }
      }
    }
  }

  lemma SettledRevision(e: Entry, actual: Binding)
    ensures var f := Settled(e, actual); f == e.(session := e.session.(binding := f.session.binding))
  {
    hide HasTarget, CompleteTarget, Text.Trim;
  }

  /**
   * Preparation succeeds exactly if the callback can be answered, a handler of the session's own scope is registered
   * for it, that scope is current before and after, and a preparer, where there is one, names a scope to run in.
   */
  lemma PrepareExact(cfg: Config, c: Core, h: Handlers, versions: Versions, cat: Catalog, data: string, binding: Binding,
                     adm: Admission, now: Time, failing: set<string>)
    requires CoreOk(cfg, c)
    ensures var r := Prepare(c, h, versions, cat, data, binding, adm, now, failing);
            && (r.result.Ok? <==>
                  && Answerable(c, versions, cat, data, binding, now, failing)
                  && var s := c.sessions[Tokens.Parse(data).value.sessionId].session;
                  && var key := HandlerKey(s.featureId, Tokens.Parse(data).value.actionId);
                  && key in h && h[key].scope == s.scope && Current(adm.after, s.featureId, s.scope)
                  && (h[key].prepares ==> adm.answer.Ok? && adm.answer.value != NO_SCOPE))
            && (r.result.Ok? ==>
                  var s := c.sessions[Tokens.Parse(data).value.sessionId].session;
                  var key := HandlerKey(s.featureId, Tokens.Parse(data).value.actionId);
                  && r.result.value == Prepared(data, Normalized(binding), key, s.scope,
                                                if h[key].prepares then adm.answer.value else s.scope, h[key].token)
                  && r.core == ResolveCallback(c, versions, cat, data, binding, now, failing).core)
  {
    hide ResolveCallback, CoreOk, Normalized, Tokens.Parse, Matches, Valid, TargetSettled, Settled, Settles;
    ResolveExact(cfg, c, versions, cat, data, binding, now, failing);
    if Answerable(c, versions, cat, data, binding, now, failing) {
      SettledRevision(c.sessions[Tokens.Parse(data).value.sessionId], binding);
    }
  }

  /** A session's feature and its having a target last as long as the session does, across restarts. */
  lemma {:induction false} IdentityAlong(env: Env, fs: seq<FenceState>, steps: seq<FenceStep>, i: nat, j: nat, id: string)
    requires FenceRun(env, fs, steps) && FenceOk(env, fs[0]) && i <= j < |fs|
    requires id in Known(fs[i].world) && id in Known(fs[j].world)
    ensures SameIdentity(Known(fs[i].world)[id].session, Known(fs[j].world)[id].session)
    decreases j
  {
    hide WorldOk, Next, Enabled, Image, HasTarget, RegistryOk;
    if i < j {
      FenceRunOk(env, fs, steps, i);
      FenceRunOk(env, fs, steps, j - 1);
      KnownRecorded(env, fs[i].world, id);
      RevisionsAlong(env, fs, steps, i, j - 1, id);
      if steps[j - 1].Runtime? {
        IdentityStep(env, fs[j - 1].world, steps[j - 1].step, id);
      }
      IdentityAlong(env, fs, steps, i, j - 1, id);
    }
  }

  lemma KnownRecorded(env: Env, w: World, id: string)
    requires WorldOk(env, w) && id in Known(w)
    ensures id in w.revs
  {
    hide CoreOk, Synced, SeenOk, DeliveriesOk, OwnKeys, Image;
  }

  lemma InMemoryKnown(env: Env, w: World, id: string)
    requires WorldOk(env, w) && id in w.core.sessions
    ensures id in Known(w) && Known(w)[id] == w.core.sessions[id]
  {
    hide CoreOk, Synced, RevsOk, SeenOk, DeliveriesOk, OwnKeys;
  }

  /** Dispatch runs the handler exactly if the callback can be answered for the key, scope and registration prepared. */
  lemma DispatchExact(cfg: Config, c: Core, h: Handlers, versions: Versions, cat: Catalog, p: Prepared, now: Time, failing: set<string>)
    requires CoreOk(cfg, c)
    ensures var r := Dispatch(c, h, versions, cat, p, now, failing);
            && (r.result.Ok? <==>
                  && Tokens.Parse(p.data).Ok? && Valid(Normalized(p.binding))
                  && var token := Tokens.Parse(p.data).value;
                  && StillReady(c, h, cat, p, token, now)
                  && p.key == HandlerKey(c.sessions[token.sessionId].session.featureId, token.actionId)
                  && TargetSettled(c, versions, c.sessions[token.sessionId].session, p.binding, failing))
            && (r.result.Ok? ==> r == ResolveCallback(c, versions, cat, p.data, p.binding, now, failing))
  {
    hide ResolveCallback, CoreOk, Normalized, Tokens.Parse, Matches, Valid, TargetSettled, Settled, Settles;
    ResolveExact(cfg, c, versions, cat, p.data, p.binding, now, failing);
    if Answerable(c, versions, cat, p.data, p.binding, now, failing) {
      SettledRevision(c.sessions[Tokens.Parse(p.data).value.sessionId], p.binding);
    }
  }

  /**
   * The fence lets through whatever is undisturbed: an action prepared in state i runs in state j, with any steps
   * between, exactly if its session is still there, unexpired, at the token's revision, in its scope and matched by
   * the caller, its registration is still held, and its feature still current and declaring the action. Only an
   * event padded with blanks can leave a target to be claimed at that late point.
   */
  lemma UndisturbedRuns(env: Env, fs: seq<FenceState>, steps: seq<FenceStep>, i: nat, j: nat,
                        c: Core, data: string, binding: Binding, adm: Admission, p: Prepared,
                        cat: Catalog, now: Time, failing: set<string>, cat': Catalog, now': Time, failing': set<string>)
    requires FenceRun(env, fs, steps) && FenceOk(env, fs[0]) && i <= j < |fs| && Filed(c.sessions)
    requires Prepare(c, fs[i].registry.handlers, env.versions, cat, data, binding, adm, now, failing)
          == Outcome(fs[i].world.core, Ok(p))
    ensures Tokens.Parse(data).Ok?
    ensures var (d, h, token) := (fs[j].world.core, fs[j].registry.handlers, Tokens.Parse(data).value);
            var ok := Dispatch(d, h, env.versions, cat', p, now', failing').result.Ok?;
            && (ok <==>
                  && StillReady(d, h, cat', p, token, now')
                  && TargetSettled(d, env.versions, d.sessions[token.sessionId].session, p.binding, failing'))
            && (CompleteTarget(binding).Some? || CompleteTarget(p.binding).None? ==> (ok <==> StillReady(d, h, cat', p, token, now')))
  {
    hide Prepare, Dispatch, WorldOk, FenceNext, Enabled, Tokens.Parse, RegistryOk, Image, Normalized, Valid, HasTarget, CompleteTarget, Holds, Matches, Current;
    FenceRunOk(env, fs, steps, i);
    FenceRunOk(env, fs, steps, j);
    PreparePins(c, fs[i].registry.handlers, env.versions, cat, data, binding, adm, now, failing);
    NormalizedTwice(binding);
    var id := Tokens.Parse(data).value.sessionId;
    InMemoryKnown(env, fs[i].world, id);
    if id in fs[j].world.core.sessions {
      InMemoryKnown(env, fs[j].world, id);
      IdentityAlong(env, fs, steps, i, j, id);
    }
    WorldCoreOk(env, fs[j].world);
    DispatchExact(env.cfg, fs[j].world.core, fs[j].registry.handlers, env.versions, cat', p, now', failing');
  }

  lemma WorldCoreOk(env: Env, w: World)
    requires WorldOk(env, w)
    ensures CoreOk(env.cfg, w.core)
  {
    hide CoreOk, Synced, RevsOk, SeenOk, DeliveriesOk, OwnKeys;
  }

  lemma WorldFiled(env: Env, w: World)
    requires WorldOk(env, w)
    ensures Filed(w.core.sessions)
  {
    FiledOk(env.cfg, w.core);
  }
}
