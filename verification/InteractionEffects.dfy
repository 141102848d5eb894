/**
 * What each operation of the interaction runtime does, stated on sessions and rows alone: when it succeeds, what the
 * session, its row and the answer are then, what a failure means, and that nothing else is touched.
 */
module InteractionEffects {
  import opened Prelude
  import opened Text
  import opened Bindings
  import opened InteractionModel
  import opened InteractionBounds
  import Model = InteractionModel
  import Tokens = CallbackTokens

  /** The store takes this session's row: nothing is stored, the feature opted out, or the write goes through. */
  predicate Writable(c: Core, versions: Versions, featureId: string, id: string, failing: set<string>) {
    !c.durable || featureId !in versions || versions[featureId] == "" || id !in failing
  }

  /** The session of a snapshot is still there, in its scope, and unexpired. */
  predicate Alive(c: Core, snap: Session, now: Time) {
    snap.id in c.sessions && c.sessions[snap.id].session.scope == snap.scope && c.sessions[snap.id].session.expiresAt > now
  }

  /** Zero selects the default lifetime. */
  function Lifetime(cfg: Config, ttl: int): int {
    if ttl == 0 then cfg.defaultTtl else ttl
  }

  predicate GoodTtl(cfg: Config, ttl: int) {
    ttl >= 0 && Lifetime(cfg, ttl) <= cfg.maxTtl
  }

  /** d is c with this entry in memory and, where its feature is durable, in the store. */
  ghost predicate Commits(c: Core, d: Core, versions: Versions, e: Entry) {
    var s := e.session;
    && d == c.(sessions := d.sessions, store := d.store)
    && d.sessions == c.sessions[s.id := e]
    && (if c.durable && s.featureId in versions && versions[s.featureId] != ""
        then d.store == c.store[s.id := Row(s, versions[s.featureId], if e.input.Some? then Some(e.input.value.expiresAt) else None)]
        else d.store == c.store)
  }

  /** d is c without these sessions, but for those whose rows had to be deleted and could not be. */
  ghost predicate Drops(c: Core, d: Core, ids: set<string>, failing: set<string>) {
    var stored := set id | id in c.sessions && c.durable && !c.preserve && c.sessions[id].version != "";
    && d == c.(sessions := d.sessions, store := d.store)
    && (forall id :: id in d.sessions <==> id in c.sessions && (id !in ids || (id in stored && id in failing)))
    && (forall id :: id in d.sessions ==> d.sessions[id] == c.sessions[id])
    && (forall id :: id in d.store <==> id in c.store && !(id in ids && id in stored && id !in failing))
    && (forall id :: id in d.store ==> d.store[id] == c.store[id])
  }

  /** Removal, whoever asks for it: cancelling, pruning, or a session found expired. */
  lemma RemovesExactly(c: Core, ids: set<string>, failing: set<string>)
    ensures Drops(c, RemoveMany(c, ids, failing), ids, failing)
  {
  }

  lemma CancelsExactly(c: Core, id: string, scope: Scope, failing: set<string>)
    ensures Drops(c, Remove(c, id, failing), {id}, failing)
    ensures var scoped := set k | k in c.sessions && c.sessions[k].session.scope == scope;
            && Drops(c, Model.CancelIfScope(c, id, scope, failing), {id} * scoped, failing)
            && Drops(c, Model.CancelScope(c, scope, failing), if scope == NO_SCOPE then {} else scoped, failing)
  {
    hide RemoveMany, Drops;
    var scoped := set k | k in c.sessions && c.sessions[k].session.scope == scope;
    RemovesExactly(c, {id}, failing);
    assert InScope(c.sessions, scope) == scoped;
    RemovesExactly(c, scoped, failing);
    NothingDropped(c, failing);
    assert {id} * scoped == if id in scoped then {id} else {};
  }

  lemma NothingDropped(c: Core, failing: set<string>)
    ensures Drops(c, c, {}, failing)
  {
  }

  lemma PrunesExactly(c: Core, now: Time, failing: set<string>)
    ensures Drops(c, Model.Prune(c, now, failing), (set id | id in c.sessions && c.sessions[id].session.expiresAt <= now), failing)
    ensures var d := Model.PruneInputs(c, now);
            && d == c.(sessions := d.sessions) && d.sessions.Keys == c.sessions.Keys
            && (forall id :: id in c.sessions ==>
                  var claim := c.sessions[id].input;
                  d.sessions[id] == if claim.Some? && claim.value.expiresAt <= now then c.sessions[id].(input := None) else c.sessions[id])
  {
    hide RemoveMany, Drops;
    RemovesExactly(c, ExpiredIds(c.sessions, now), failing);
  }

  lemma InstallsExactly(c: Core, versions: Versions, e: Entry, failing: set<string>)
    ensures var r := Install(c, versions, e, failing);
            && (r.result.Ok? <==> Writable(c, versions, e.session.featureId, e.session.id, failing))
            && (r.result.Ok? ==> r.result.value == e.session && Commits(c, r.core, versions, e))
            && (r.result.Err? ==> r.core == c && r.result.error == PersistenceFailed)
  {
  }

  /** A failed lookup of the snapshot's session: gone, or expired and dropped. */
  lemma RechecksExactly(c: Core, snap: Session, now: Time, failing: set<string>)
    ensures var r := Recheck(c, snap, now, failing);
            && (r.result.Ok? <==> Alive(c, snap, now))
            && (r.result.Ok? ==> r.core == c && r.result.value == c.sessions[snap.id])
            && (r.result.Err? ==> Failed(c, r.core, snap, now, failing, r.result.error))
  {
    hide RemoveMany, Drops;
    RemovesExactly(c, {snap.id}, failing);
  }

  ghost predicate Failed(c: Core, d: Core, snap: Session, now: Time, failing: set<string>, fault: Fault) {
    || (fault == NotFound && d == c && !(snap.id in c.sessions && c.sessions[snap.id].session.scope == snap.scope))
    || (fault == SessionExpired && snap.id in c.sessions && c.sessions[snap.id].session.expiresAt <= now && Drops(c, d, {snap.id}, failing))
  }

  // ----- lookup

  lemma LooksUpExactly(c: Core, id: string, now: Time, failing: set<string>)
    ensures var r := Model.Lookup(c, id, now, failing);
            && (r.result.Ok? <==> Tokens.ValidSessionId(id) && !c.closed && id in c.sessions && c.sessions[id].session.expiresAt > now)
            && (r.result.Ok? ==> r.core == c && r.result.value == c.sessions[id].session)
            && (r.result.Err? ==>
                  || (r.result.error == Closed && c.closed && r.core == c)
                  || (r.result.error == NotFound && !Tokens.ValidSessionId(id) && r.core == c)
                  || (r.result.error == NotFound && id !in c.sessions &&
                      Drops(c, r.core, (set k | k in c.sessions && c.sessions[k].session.expiresAt <= now), failing))
                  || (r.result.error == SessionExpired && id in c.sessions && c.sessions[id].session.expiresAt <= now &&
                      Drops(c, r.core, {id}, failing)))
  {
    hide RemoveMany, Drops, Tokens.ValidSessionId;
    RemovesExactly(c, {id}, failing);
    PrunesExactly(c, now, failing);
  }

  // ----- state updates

  /** The session after a state update. */
  function Replaced(s: Session, req: StateRequest, now: Time): Session {
    Session(s.id, s.featureId, s.scope, s.binding, req.state, s.revision + 1, s.createdAt,
            if req.ttl == 0 then s.expiresAt else now + req.ttl)
  }

  /** Replacing the session's state keeps the byte limits, one session's and the total of all. */
  ghost predicate StateFits(cfg: Config, c: Core, id: string, state: seq<Byte>)
    requires id in c.sessions
  {
    && |state| <= cfg.maxStateBytes
    && TotalBytes(c.sessions[id := c.sessions[id].(session := c.sessions[id].session.(state := state))]) <= cfg.maxTotalBytes
  }

  lemma FitsExactly(cfg: Config, c: Core, id: string, state: seq<Byte>)
    requires id in c.sessions
    ensures StateFits(cfg, c, id, state) <==> |state| <= cfg.maxStateBytes && FitsBytes(c.sessions, cfg, c.sessions[id], state)
  {
    hide TotalBytes;
    BytesPut(c.sessions, id, c.sessions[id].(session := c.sessions[id].session.(state := state)));
  }

  /**
   * A state update succeeds exactly for a live session at the expected revision, within both byte limits, with an
   * admissible lifetime and a writable row. Then memory, row and answer hold the new state at the next revision with
   * the new deadline, or the old one for a zero lifetime, and the session awaits no input any more.
   */
  lemma UpdatesExactly(cfg: Config, c: Core, versions: Versions, snap: Session, req: StateRequest, now: Time, failing: set<string>)
    requires Filed(c.sessions)
    ensures var r := Model.UpdateState(c, cfg, versions, snap, req, now, failing);
            && (r.result.Ok? <==>
                  && Alive(c, snap, now) && 0 < req.revision == c.sessions[snap.id].session.revision
                  && StateFits(cfg, c, snap.id, req.state) && (req.ttl == 0 || GoodTtl(cfg, req.ttl))
                  && Writable(c, versions, c.sessions[snap.id].session.featureId, snap.id, failing))
            && (r.result.Ok? ==>
                  var e := c.sessions[snap.id];
                  r.result.value == Replaced(e.session, req, now) && Commits(c, r.core, versions, Entry(Replaced(e.session, req, now), e.version, None)))
  {
    hide Recheck, Install, FitsBytes, StateFits, Commits, Drops;
    RechecksExactly(c, snap, now, failing);
    if snap.id in c.sessions {
      var e := c.sessions[snap.id];
      FitsExactly(cfg, c, snap.id, req.state);
      InstallsExactly(c, versions, Entry(Replaced(e.session, req, now), e.version, None), failing);
    }
  }

  /** Why a state update fails; nothing changes unless the session had expired. */
  lemma UpdateFaults(cfg: Config, c: Core, versions: Versions, snap: Session, req: StateRequest, now: Time, failing: set<string>)
    requires Filed(c.sessions)
    ensures var r := Model.UpdateState(c, cfg, versions, snap, req, now, failing);
            r.result.Err? ==>
              match r.result.error
              case StateTooLarge => r.core == c && |req.state| > cfg.maxStateBytes
              case InvalidTtl => r.core == c && req.ttl != 0 && !GoodTtl(cfg, req.ttl)
              case RevisionConflict => r.core == c && (req.revision == 0 || (Alive(c, snap, now) && c.sessions[snap.id].session.revision != req.revision))
              case Capacity => r.core == c && Alive(c, snap, now) && !StateFits(cfg, c, snap.id, req.state)
              case PersistenceFailed => r.core == c && snap.id in failing
              case fault => Failed(c, r.core, snap, now, failing, fault)
  {
    hide Recheck, Install, FitsBytes, StateFits, Commits, Drops;
    RechecksExactly(c, snap, now, failing);
    if |req.state| <= cfg.maxStateBytes && req.revision > 0 && (req.ttl == 0 || GoodTtl(cfg, req.ttl)) {
      if Alive(c, snap, now) {
        var e := c.sessions[snap.id];
        FitsExactly(cfg, c, snap.id, req.state);
        InstallsExactly(c, versions, Entry(Replaced(e.session, req, now), e.version, None), failing);
      }
    }
  }

  // ----- targets and deadlines

  /** Binding a target changes the binding and nothing else; it succeeds exactly where the binding takes the target. */
  lemma BindsExactly(c: Core, versions: Versions, snap: Session, revision: nat, target: Target, now: Time, failing: set<string>)
    requires Filed(c.sessions)
    ensures var r := Model.BindTarget(c, versions, snap, revision, target, now, failing);
            && (r.result.Ok? <==>
                  && Alive(c, snap, now) && 0 < revision == c.sessions[snap.id].session.revision
                  && WithTarget(c.sessions[snap.id].session.binding, target).Ok?
                  && Writable(c, versions, c.sessions[snap.id].session.featureId, snap.id, failing))
            && (r.result.Ok? ==>
                  var e := c.sessions[snap.id];
                  var s := e.session.(binding := WithTarget(e.session.binding, target).value);
                  r.result.value == s && Commits(c, r.core, versions, Entry(s, e.version, e.input)))
    ensures var r := Model.BindTarget(c, versions, snap, revision, target, now, failing);
            r.result.Err? ==>
              match r.result.error
              case BadBinding => r.core == c && !Complete(target)
              case RevisionConflict => r.core == c && (revision == 0 || (Alive(c, snap, now) && c.sessions[snap.id].session.revision != revision))
              case AlreadyBound => r.core == c && Alive(c, snap, now) && Complete(target) && WithTarget(c.sessions[snap.id].session.binding, target).Err?
              case PersistenceFailed => r.core == c && snap.id in failing
              case fault => Failed(c, r.core, snap, now, failing, fault)
  {
    hide Recheck, Install, Commits, Drops, Complete;
    RechecksExactly(c, snap, now, failing);
    if snap.id in c.sessions {
      var e := c.sessions[snap.id];
      var b := WithTarget(e.session.binding, target);
      if b.Ok? {
        InstallsExactly(c, versions, e.(session := e.session.(binding := b.value)), failing);
      }
    }
  }

  /** Touching moves the deadline to now plus the lifetime and leaves state, revision and claim alone. */
  lemma TouchesExactly(cfg: Config, c: Core, versions: Versions, snap: Session, ttl: int, now: Time, failing: set<string>)
    requires Filed(c.sessions)
    ensures var r := Model.Touch(c, cfg, versions, snap, ttl, now, failing);
            && (r.result.Ok? <==>
                  && Alive(c, snap, now) && GoodTtl(cfg, ttl)
                  && Writable(c, versions, c.sessions[snap.id].session.featureId, snap.id, failing))
            && (r.result.Ok? ==>
                  var e := c.sessions[snap.id];
                  var s := e.session.(expiresAt := now + Lifetime(cfg, ttl));
                  r.result.value == s && Commits(c, r.core, versions, Entry(s, e.version, e.input)))
            && (r.result.Err? ==>
                  match r.result.error
                  case InvalidTtl => r.core == c && !GoodTtl(cfg, ttl)
                  case PersistenceFailed => r.core == c && snap.id in failing
                  case fault => Failed(c, r.core, snap, now, failing, fault))
  {
    hide Recheck, Install, Commits, Drops;
    RechecksExactly(c, snap, now, failing);
    if snap.id in c.sessions {
      var e := c.sessions[snap.id];
      InstallsExactly(c, versions, e.(session := e.session.(expiresAt := now + Lifetime(cfg, ttl))), failing);
    }
  }

  // ----- creation

  /** There is room for a session exactly if all limits hold with it. */
  lemma RoomExactly(cfg: Config, m: Sessions, e: Entry)
    requires FitOk(cfg, m) && e.session.id !in m
    ensures HasRoom(m, cfg, e.session.scope, e.session.binding.actorId, |e.session.state|) <==> FitOk(cfg, m[e.session.id := e])
  {
    hide FitOk, HasRoom;
    if HasRoom(m, cfg, e.session.scope, e.session.binding.actorId, |e.session.state|) {
      FitAdd(cfg, m, e);
    } else if FitOk(cfg, m[e.session.id := e]) {
      FitLeavesRoom(cfg, m, e);
    }
  }

  lemma FitLeavesRoom(cfg: Config, m: Sessions, e: Entry)
    requires e.session.id !in m && FitOk(cfg, m[e.session.id := e])
    ensures HasRoom(m, cfg, e.session.scope, e.session.binding.actorId, |e.session.state|)
  {
    hide TotalBytes, InScope, OfActor;
    var id, s := e.session.id, e.session;
    var r := m[id := e];
    BytesPut(m, id, e);
    OneMoreCounted(m, e);
    OneFewer(r.Keys, m.Keys, id, cfg.maxSessions);
    assert |InScope(r, s.scope)| <= cfg.maxPerScope;
    OneFewer(InScope(r, s.scope), InScope(m, s.scope), id, cfg.maxPerScope);
    if s.binding.actorId != 0 {
      assert |OfActor(r, s.binding.actorId)| <= cfg.maxPerActor;
      OneFewer(OfActor(r, s.binding.actorId), OfActor(m, s.binding.actorId), id, cfg.maxPerActor);
    }
  }

  lemma OneMoreCounted(m: Sessions, e: Entry)
    requires e.session.id !in m
    ensures var (r, id, s) := (m[e.session.id := e], e.session.id, e.session);
            && r.Keys == m.Keys + {id} && InScope(r, s.scope) == InScope(m, s.scope) + {id} && id !in InScope(m, s.scope)
            && OfActor(r, s.binding.actorId) == OfActor(m, s.binding.actorId) + {id} && id !in OfActor(m, s.binding.actorId)
  {
  }

  lemma OneFewer(a: set<string>, b: set<string>, id: string, limit: nat)
    requires a == b + {id} && id !in b && |a| <= limit
    ensures |b| < limit
  {
  }

  /** A generated id that is well formed and already in use. */
  predicate Collides(m: Sessions, generated: Option<string>) {
    generated.Some? && Tokens.ValidSessionId(generated.value) && generated.value in m
  }

  /** The first of four generated ids that does not collide decides. */
  lemma {:induction false} PicksExactly(m: Sessions, gen: seq<Option<string>>, from: nat, k: nat)
    requires from <= k <= |gen| && k <= 4 && forall j :: from <= j < k ==> Collides(m, gen[j])
    ensures k == 4 || k == |gen| ==> PickId(m, gen, from) == Err(IdCollision)
    ensures k < 4 && k < |gen| && !Collides(m, gen[k]) ==>
              PickId(m, gen, from) ==
              if gen[k].None? then Err(IdSourceFailed) else if Tokens.ValidSessionId(gen[k].value) then Ok(gen[k].value) else Err(InvalidId)
    decreases k - from
  {
    hide Tokens.ValidSessionId;
    if from < k {
      assert Collides(m, gen[from]);
      PicksExactly(m, gen, from + 1, k);
    }
  }

  /** The session a request asks for. */
  function Requested(cfg: Config, scopes: Scopes, req: CreateRequest, id: string, now: Time): Session
    requires Normalize(req.featureId) in scopes
  {
    Session(id, Normalize(req.featureId), scopes[Normalize(req.featureId)], Normalized(req.binding), req.state, 1, now,
            now + Lifetime(cfg, req.ttl))
  }

  /** What a request must say by itself. */
  predicate GoodRequest(cfg: Config, scopes: Scopes, req: CreateRequest) {
    && Tokens.ValidIdentifier(Normalize(req.featureId)) && Valid(Normalized(req.binding))
    && |req.state| <= cfg.maxStateBytes && GoodTtl(cfg, req.ttl)
    && Normalize(req.featureId) in scopes && scopes[Normalize(req.featureId)] != NO_SCOPE
  }

  /**
   * Creation prunes what has expired, and then succeeds exactly for a good request if an id is found, all limits hold
   * with the new session, and its row can be written. Memory, row and answer hold the requested session at revision 1.
   */
  lemma CreatesExactly(cfg: Config, c: Core, versions: Versions, scopes: Scopes, req: CreateRequest,
                       gen: seq<Option<string>>, now: Time, failing: set<string>)
    requires CoreOk(cfg, c)
    ensures var (r, p) := (Model.Create(c, cfg, versions, scopes, req, gen, now, failing), Model.Prune(c, now, failing));
            var id := PickId(p.sessions, gen, 0);
            && (r.result.Ok? <==>
                  && !c.closed && GoodRequest(cfg, scopes, req) && id.Ok?
                  && var s := Requested(cfg, scopes, req, id.value, now);
                  && FitOk(cfg, p.sessions[s.id := Entry(s, VersionOf(versions, s.featureId), None)])
                  && Writable(c, versions, s.featureId, s.id, failing))
            && (r.result.Ok? ==>
                  var s := Requested(cfg, scopes, req, id.value, now);
                  && r.result.value == s && s.id !in p.sessions
                  && Commits(p, r.core, versions, Entry(s, VersionOf(versions, s.featureId), None)))
            && (r.result.Err? ==> r.core == (if !c.closed && GoodRequest(cfg, scopes, req) then p else c))
  {
    hide FitOk, HasRoom, PickId, RemoveMany, Normalized, Normalize, Valid, Tokens.ValidIdentifier, SessionsOk, ClaimsOk, Saved, Commits;
    var p := Model.Prune(c, now, failing);
    RemoveManyOk(cfg, c, ExpiredIds(c.sessions, now), failing);
    PickIdFresh(p.sessions, gen, 0);
    var id := PickId(p.sessions, gen, 0);
    RemoveFlags(c, ExpiredIds(c.sessions, now), failing);
    if id.Ok? && Normalize(req.featureId) in scopes {
      var s := Requested(cfg, scopes, req, id.value, now);
      RoomExactly(cfg, p.sessions, Entry(s, VersionOf(versions, s.featureId), None));
      InstallsExactly(p, versions, Entry(s, VersionOf(versions, s.featureId), None), failing);
    }
  }

  lemma RemoveFlags(c: Core, ids: set<string>, failing: set<string>)
    ensures RemoveMany(c, ids, failing).durable == c.durable
  {
  }

  /** Why a creation fails. */
  lemma CreateFaults(cfg: Config, c: Core, versions: Versions, scopes: Scopes, req: CreateRequest,
                     gen: seq<Option<string>>, now: Time, failing: set<string>)
    ensures var (r, p) := (Model.Create(c, cfg, versions, scopes, req, gen, now, failing), Model.Prune(c, now, failing));
            r.result.Err? ==>
              match r.result.error
              case Closed => c.closed
              case BadBinding => !Valid(Normalized(req.binding))
              case StateTooLarge => |req.state| > cfg.maxStateBytes
              case InvalidTtl => !GoodTtl(cfg, req.ttl)
              case InvalidFeature =>
                var f := Normalize(req.featureId);
                !Tokens.ValidIdentifier(f) || f !in scopes || scopes[f] == NO_SCOPE
              case Capacity =>
                var f := Normalize(req.featureId);
                f in scopes && !HasRoom(p.sessions, cfg, scopes[f], Normalized(req.binding).actorId, |req.state|)
              case PersistenceFailed => PickId(p.sessions, gen, 0).Ok? && PickId(p.sessions, gen, 0).value in failing
              case fault => PickId(p.sessions, gen, 0) == Err(fault)
  {
    hide HasRoom, PickId, RemoveMany, Normalized, Normalize, Valid, Tokens.ValidIdentifier;
    PickIdFaults(Model.Prune(c, now, failing).sessions, gen, 0);
  }

  lemma {:induction false} PickIdFaults(m: Sessions, gen: seq<Option<string>>, k: nat)
    requires k <= |gen|
    ensures var r := PickId(m, gen, k); r.Err? ==> r.error in {IdCollision, IdSourceFailed, InvalidId}
    decreases |gen| - k
  {
    hide Tokens.ValidSessionId;
    if k < |gen| {
      PickIdFaults(m, gen, k + 1);
    }
  }

  /** The second look at the catalog takes back a session whose generation has ended. */
  lemma CreateCheckedExactly(cfg: Config, c: Core, versions: Versions, scopes: Scopes, scopes': Scopes, req: CreateRequest,
                             gen: seq<Option<string>>, now: Time, failing: set<string>)
    ensures var (r, q) := (Model.Create(c, cfg, versions, scopes, req, gen, now, failing),
                           Model.CreateChecked(c, cfg, versions, scopes, scopes', req, gen, now, failing));
            if r.result.Err? then q == r
            else
              var s := r.result.value;
              if s.featureId in scopes' && scopes'[s.featureId] == s.scope then q == r
              else q.result == Err(ScopeStale) && Drops(r.core, q.core, {s.id}, failing)
  {
    hide HasRoom, PickId, RemoveMany, Normalized, Normalize, Valid, Tokens.ValidIdentifier, Drops;
    var r := Model.Create(c, cfg, versions, scopes, req, gen, now, failing);
    if r.result.Ok? {
      RemovesExactly(r.core, {r.result.value.id}, failing);
    }
  }

  // ----- input claims

  /** Another session awaits input under the key, and its time has not come. */
  ghost predicate AwaitedElsewhere(c: Core, key: InputKey, id: string, now: Time) {
    exists k :: k != id && HeldBy(c.sessions, key, k) && c.sessions[k].input.value.expiresAt > now
  }

  /** v is c without any other session's claim on the key. */
  ghost predicate Frees(c: Core, v: Core, key: InputKey, id: string) {
    && v == c.(sessions := v.sessions) && v.sessions.Keys == c.sessions.Keys
    && (forall k :: k in c.sessions ==>
          v.sessions[k] == if k != id && HeldBy(c.sessions, key, k) then c.sessions[k].(input := None) else c.sessions[k])
  }

  lemma HolderOnly(m: Sessions, key: InputKey, id: string)
    requires ClaimsOk(m) && HeldBy(m, key, id)
    ensures Holder(m, key) == Some(id) && forall k :: HeldBy(m, key, k) ==> k == id
  {
  }

  lemma FreesExactly(cfg: Config, c: Core, key: InputKey, id: string, now: Time)
    requires CoreOk(cfg, c)
    ensures Frees(c, Vacated(c, key, id), key, id)
    ensures Busy(c.sessions, key, id, now) <==> AwaitedElsewhere(c, key, id, now)
  {
    hide FitOk, SessionsOk, OwnKeys;
    var h := Holder(c.sessions, key);
    if h.Some? {
      HolderOnly(c.sessions, key, h.value);
    }
  }

  /** The session after arming, and its claim: until now plus the lifetime, but never beyond the session itself. */
  function ArmedEntry(cfg: Config, e: Entry, key: InputKey, req: StateRequest, now: Time): Entry {
    var until := now + Lifetime(cfg, req.ttl);
    var s := Session(e.session.id, e.session.featureId, e.session.scope, e.session.binding, req.state, e.session.revision + 1,
                     e.session.createdAt, e.session.expiresAt);
    Entry(s, e.version, Some(Claim(key, if until <= s.expiresAt then until else s.expiresAt)))
  }

  /**
   * Arming succeeds exactly for a live session at the expected revision that is bound to an actor in a chat where no
   * other session awaits input, within the byte limits, with an admissible lifetime and a writable row.
   */
  lemma ArmsExactly(cfg: Config, c: Core, versions: Versions, snap: Session, req: StateRequest, now: Time, failing: set<string>)
    requires CoreOk(cfg, c)
    ensures var r := Model.ArmInput(c, cfg, versions, snap, req, now, failing);
            var key := KeyOf(snap.binding);
            && (r.result.Ok? <==>
                  && Alive(c, snap, now) && 0 < req.revision == c.sessions[snap.id].session.revision
                  && StateFits(cfg, c, snap.id, req.state) && GoodTtl(cfg, req.ttl)
                  && key.Some? && !AwaitedElsewhere(c, key.value, snap.id, now)
                  && Writable(c, versions, c.sessions[snap.id].session.featureId, snap.id, failing))
            && (r.result.Ok? ==>
                  var (v, e) := (Vacated(c, key.value, snap.id), ArmedEntry(cfg, c.sessions[snap.id], key.value, req, now));
                  Frees(c, v, key.value, snap.id) && r.result.value == e.session && Commits(v, r.core, versions, e))
  {
    hide Recheck, Install, FitsBytes, StateFits, Commits, Drops, KeyOf, Busy, Vacated, AwaitedElsewhere, Frees, FitOk, ClaimsOk;
    RechecksExactly(c, snap, now, failing);
    if snap.id in c.sessions && KeyOf(snap.binding).Some? {
      var key, e := KeyOf(snap.binding).value, c.sessions[snap.id];
      assert SessionOk(cfg, snap.id, e.session);
      FreesExactly(cfg, c, key, snap.id, now);
      FitsExactly(cfg, c, snap.id, req.state);
      VacatedFlags(c, key, snap.id);
      InstallsExactly(Vacated(c, key, snap.id), versions, ArmedEntry(cfg, e, key, req, now), failing);
    }
  }

  lemma VacatedFlags(c: Core, key: InputKey, id: string)
    ensures Vacated(c, key, id).durable == c.durable
  {
  }

  /** Why arming fails; only an outdated claim of another session may be gone by then. */
  lemma ArmFaults(cfg: Config, c: Core, versions: Versions, snap: Session, req: StateRequest, now: Time, failing: set<string>)
    requires CoreOk(cfg, c)
    ensures var r := Model.ArmInput(c, cfg, versions, snap, req, now, failing);
            r.result.Err? ==>
              match r.result.error
              case StateTooLarge => r.core == c && |req.state| > cfg.maxStateBytes
              case InvalidTtl => r.core == c && !GoodTtl(cfg, req.ttl)
              case BadBinding => r.core == c && KeyOf(snap.binding).None?
              case RevisionConflict => r.core == c && (req.revision == 0 || (Alive(c, snap, now) && c.sessions[snap.id].session.revision != req.revision))
              case InputBusy => r.core == c && KeyOf(snap.binding).Some? && AwaitedElsewhere(c, KeyOf(snap.binding).value, snap.id, now)
              case Capacity => Alive(c, snap, now) && !StateFits(cfg, c, snap.id, req.state) &&
                KeyOf(snap.binding).Some? && Frees(c, r.core, KeyOf(snap.binding).value, snap.id)
              case PersistenceFailed => snap.id in failing && KeyOf(snap.binding).Some? && Frees(c, r.core, KeyOf(snap.binding).value, snap.id)
              case fault => Failed(c, r.core, snap, now, failing, fault)
  {
    hide Recheck, Install, FitsBytes, StateFits, Commits, Drops, KeyOf, Busy, Vacated, AwaitedElsewhere, Frees, FitOk, ClaimsOk;
    RechecksExactly(c, snap, now, failing);
    if snap.id in c.sessions && KeyOf(snap.binding).Some? {
      var key, e := KeyOf(snap.binding).value, c.sessions[snap.id];
      assert SessionOk(cfg, snap.id, e.session);
      FreesExactly(cfg, c, key, snap.id, now);
      FitsExactly(cfg, c, snap.id, req.state);
      VacatedFlags(c, key, snap.id);
      InstallsExactly(Vacated(c, key, snap.id), versions, ArmedEntry(cfg, e, key, req, now), failing);
    }
  }

  /** The session after a delivery: the next revision, everything else as it was. */
  function Delivered(s: Session): Session {
    Session(s.id, s.featureId, s.scope, s.binding, s.state, s.revision + 1, s.createdAt, s.expiresAt)
  }

  /**
   * Under a key some session holds, an input is delivered exactly if claim and session are unexpired and the row can
   * be written. Then the answer is that session at its next revision, and its claim is gone from memory and row.
   */
  lemma TakesExactly(cfg: Config, c: Core, versions: Versions, key: InputKey, id: string, now: Time, failing: set<string>)
    requires CoreOk(cfg, c) && HeldBy(c.sessions, key, id)
    ensures var (r, e) := (Model.TakeInput(c, versions, key, now, failing), c.sessions[id]);
            && (r.result.Ok? && r.result.value.Some? <==>
                  && e.input.value.expiresAt > now && e.session.expiresAt > now
                  && Writable(c, versions, e.session.featureId, id, failing))
            && (r.result.Ok? ==>
                  r.result.value == Some(Delivered(e.session)) && Commits(c, r.core, versions, Entry(Delivered(e.session), e.version, None)))
            && (r.result.Err? ==>
                  match r.result.error
                  case InputExpired => e.input.value.expiresAt <= now && r.core == c.(sessions := c.sessions[id := e.(input := None)])
                  case SessionExpired => e.session.expiresAt <= now && Drops(c, r.core, {id}, failing)
                  case fault => fault == PersistenceFailed && r.core == c && id in failing)
  {
    hide FitOk, RemoveMany, Install, Commits, Drops;
    HolderOnly(c.sessions, key, id);
    var e := c.sessions[id];
    assert SessionOk(cfg, id, e.session);
    InstallsExactly(c, versions, Entry(Delivered(e.session), e.version, None), failing);
    RemovesExactly(c, {id}, failing);
  }

  /** Nothing is awaited exactly where no session holds the key. */
  lemma TakesNothing(cfg: Config, c: Core, versions: Versions, key: InputKey, now: Time, failing: set<string>)
    requires CoreOk(cfg, c)
    ensures var r := Model.TakeInput(c, versions, key, now, failing);
            && (r.result == Ok(None) <==> key.actorId != 0 && key.chatId != 0 && !c.closed && forall id :: !HeldBy(c.sessions, key, id))
            && ((forall id :: !HeldBy(c.sessions, key, id)) ==>
                  r.core == c && r.result == if key.actorId == 0 || key.chatId == 0 then Err(BadBinding) else if c.closed then Err(Closed) else Ok(None))
  {
    hide FitOk, RemoveMany, Install, SessionsOk;
    var h := Holder(c.sessions, key);
  }

  lemma TakeCheckedExactly(c: Core, versions: Versions, scopes: Scopes, key: InputKey, now: Time, failing: set<string>)
    ensures var (r, q) := (Model.TakeInput(c, versions, key, now, failing), Model.TakeInputChecked(c, versions, scopes, key, now, failing));
            if r.result.Err? || r.result.value.None? then q == r
            else
              var s := r.result.value.value;
              if s.featureId in scopes && scopes[s.featureId] == s.scope then q == r
              else q.result == Err(ScopeStale) && Drops(r.core, q.core, {s.id}, failing)
  {
    hide RemoveMany, Drops;
    var r := Model.TakeInput(c, versions, key, now, failing);
    if r.result.Ok? && r.result.value.Some? {
      RemovesExactly(r.core, {r.result.value.value.id}, failing);
    }
  }

  /** Releasing drops the claim from memory and row, and reports whether it did. */
  lemma ReleasesExactly(cfg: Config, c: Core, versions: Versions, id: string, failing: set<string>)
    requires CoreOk(cfg, c)
    ensures var r := Model.ReleaseInput(c, versions, id, failing);
            && r.result.Ok?
            && (r.result.value <==>
                  id in c.sessions && c.sessions[id].input.Some? && Writable(c, versions, c.sessions[id].session.featureId, id, failing))
            && (if r.result.value then Commits(c, r.core, versions, c.sessions[id].(input := None)) else r.core == c)
  {
    hide FitOk, ClaimsOk, Install, Commits, Tokens.ValidSessionId;
    if id in c.sessions {
      assert SessionOk(cfg, id, c.sessions[id].session);
      InstallsExactly(c, versions, c.sessions[id].(input := None), failing);
    }
  }

  // ----- restoring

  /** The entry a row stands for, in its feature's current scope; a claim whose time has come is left out. */
  function Reloaded(row: Row, scopes: Scopes, now: Time): Option<Entry> {
    var s := row.session;
    if s.featureId !in scopes then None
    else if row.inputExpires.None? || row.inputExpires.value <= now then
      Some(Entry(s.(scope := scopes[s.featureId]), row.version, None))
    else if KeyOf(s.binding).None? then None
    else Some(Entry(s.(scope := scopes[s.featureId]), row.version, Some(Claim(KeyOf(s.binding).value, row.inputExpires.value))))
  }

  /** A row that is unexpired, of a durable feature and written under the version declared now. */
  predicate CurrentRow(versions: Versions, row: Row, now: Time) {
    && row.session.expiresAt > now && row.version != ""
    && row.session.featureId in versions && versions[row.session.featureId] == row.version
  }

  /**
   * A row comes back exactly if it is current, its session is not there yet, and the sessions together with it keep
   * every limit and every claim its own key. A row that is fine but already in memory is left alone; any other is
   * deleted, and an error if that fails.
   */
  lemma RestoresExactly(cfg: Config, c: Core, versions: Versions, scopes: Scopes, row: Row, now: Time, failing: set<string>)
    requires CoreOk(cfg, c)
    ensures var (r, id, e) := (Model.RestoreRow(c, cfg, versions, scopes, row, now, failing), row.session.id, Reloaded(row, scopes, now));
            && (r.result == Ok(true) <==>
                  && CurrentRow(versions, row, now) && id !in c.sessions && e.Some? && EntriesOk(cfg, c.sessions[id := e.value]))
            && (r.result == Ok(true) ==> r.core == c.(sessions := c.sessions[id := e.value]))
            && (r.result == Ok(false) ==> r.core == c.(store := c.store - {id}) || (r.core == c && id in c.sessions))
            && (r.result.Err? ==> r.result.error == PersistenceFailed && r.core == c && id in failing)
  {
    hide FitOk, HasRoom, KeyOf, Tokens.ValidSessionId, Valid, EntriesOk;
    var s, e := row.session, Reloaded(row, scopes, now);
    if s.id !in c.sessions && e.Some? {
      EntriesNeed(cfg, c.sessions, e.value);
    }
  }

  /** The sessions with one more keep their invariant exactly if it is well formed, fits, and its claim is free. */
  lemma EntriesNeed(cfg: Config, m: Sessions, e: Entry)
    requires EntriesOk(cfg, m) && e.session.id !in m
    requires e.input.Some? ==> KeyOf(e.session.binding) == Some(e.input.value.key)
    ensures EntriesOk(cfg, m[e.session.id := e]) <==>
            && SessionOk(cfg, e.session.id, e.session)
            && HasRoom(m, cfg, e.session.scope, e.session.binding.actorId, |e.session.state|)
            && (e.input.Some? ==> Holder(m, e.input.value.key).None?)
  {
    hide FitOk, HasRoom, KeyOf, SessionOk;
    RoomExactly(cfg, m, e);
    var r := m[e.session.id := e];
    assert EntriesOk(cfg, r) ==> SessionOk(cfg, e.session.id, r[e.session.id].session);
    if e.input.Some? && Holder(m, e.input.value.key).Some? {
      var h := Holder(m, e.input.value.key).value;
      assert h in r && r[h] == m[h] && r[h].input.value.key == r[e.session.id].input.value.key;
    } else if SessionOk(cfg, e.session.id, e.session) && HasRoom(m, cfg, e.session.scope, e.session.binding.actorId, |e.session.state|) {
      EntriesAdd(cfg, m, e);
    }
  }

  /** Rows are dealt with one after the other: two lists in a row come to the same as their concatenation. */
  lemma {:induction false} RestoresInOrder(c: Core, cfg: Config, versions: Versions, scopes: Scopes, a: seq<Row>, b: seq<Row>, n: nat,
                                           now: Time, failing: set<string>)
    requires n <= |b|
    ensures var first := RestoreRows(c, cfg, versions, scopes, a, |a|, now, failing);
            var both := RestoreRows(c, cfg, versions, scopes, a + b, |a| + n, now, failing);
            if first.result.Err? then both == first
            else
              var second := RestoreRows(first.core, cfg, versions, scopes, b, n, now, failing);
              both.core == second.core && (both.result.Ok? <==> second.result.Ok?) && (both.result.Err? ==> both.result == second.result)
    decreases n
  {
    hide Model.RestoreRow;
    if n == 0 {
      RestoresPrefix(c, cfg, versions, scopes, a, b, |a|, now, failing);
    } else {
      RestoresInOrder(c, cfg, versions, scopes, a, b, n - 1, now, failing);
      assert (a + b)[|a| + n - 1] == b[n - 1];
    }
  }

  lemma {:induction false} RestoresPrefix(c: Core, cfg: Config, versions: Versions, scopes: Scopes, a: seq<Row>, b: seq<Row>, n: nat,
                                          now: Time, failing: set<string>)
    requires n <= |a|
    ensures RestoreRows(c, cfg, versions, scopes, a + b, n, now, failing) == RestoreRows(c, cfg, versions, scopes, a, n, now, failing)
  {
    hide Model.RestoreRow;
    if n > 0 {
      RestoresPrefix(c, cfg, versions, scopes, a, b, n - 1, now, failing);
      assert (a + b)[n - 1] == a[n - 1];
    }
  }

  lemma RestoresOne(c: Core, cfg: Config, versions: Versions, scopes: Scopes, row: Row, now: Time, failing: set<string>)
    ensures RestoreRows(c, cfg, versions, scopes, [row], 1, now, failing) == Model.RestoreRow(c, cfg, versions, scopes, row, now, failing)
  {
    hide Model.RestoreRow;
  }

  // ----- configuration

  /** What a limit comes to: zero stands for the default. */
  function Setting(given: int, standard: int): int {
    if given == 0 then standard else given
  }

  /** A configuration is accepted exactly if no limit is negative and both pairs are in order, defaults filled in. */
  lemma ConfiguresExactly(raw: RawConfig)
    ensures var n := NormalizeConfig(raw);
            && (n.Ok? <==>
                  && raw.maxSessions >= 0 && raw.maxPerScope >= 0 && raw.maxPerActor >= 0 && raw.maxStateBytes >= 0
                  && raw.maxTotalBytes >= 0 && raw.defaultTtl >= 0 && raw.maxTtl >= 0
                  && Setting(raw.defaultTtl, 900_000_000_000) <= Setting(raw.maxTtl, 86_400_000_000_000)
                  && Setting(raw.maxStateBytes, 65_536) <= Setting(raw.maxTotalBytes, 8_388_608))
            && (n.Ok? ==>
                  && n.value.maxSessions == Setting(raw.maxSessions, 4096) && n.value.maxPerScope == Setting(raw.maxPerScope, 512)
                  && n.value.maxPerActor == Setting(raw.maxPerActor, 64) && n.value.maxStateBytes == Setting(raw.maxStateBytes, 65_536)
                  && n.value.maxTotalBytes == Setting(raw.maxTotalBytes, 8_388_608)
                  && n.value.defaultTtl == Setting(raw.defaultTtl, 900_000_000_000)
                  && n.value.maxTtl == Setting(raw.maxTtl, 86_400_000_000_000))
            && (n.Err? ==> n.error == InvalidConfig)
  {
  }
}
