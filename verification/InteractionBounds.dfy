/** What every locked region keeps: well-formed sessions, the capacity limits, and one claim per actor and chat. */
module InteractionBounds {
  import opened Prelude
  import opened Bindings
  import opened InteractionModel
  import Tokens = CallbackTokens

  // ----- total state bytes

  lemma BytesUnfold(m: Sessions) returns (id: string)
    requires |m| > 0
    ensures id in m && TotalBytes(m) == |m[id].session.state| + TotalBytes(m - {id})
  {
    id :| id in m && TotalBytes(m) == |m[id].session.state| + TotalBytes(m - {id});
  }

  lemma {:induction false} BytesSplit(m: Sessions, id: string)
    requires id in m
    ensures TotalBytes(m) == |m[id].session.state| + TotalBytes(m - {id})
    decreases |m|
  {
    hide TotalBytes;
    var k := BytesUnfold(m);
    if k != id {
      BytesSplit(m - {k}, id);
      BytesSplit(m - {id}, k);
      assert m - {k} - {id} == m - {id} - {k};
    }
  }

  lemma BytesPut(m: Sessions, id: string, e: Entry)
    ensures TotalBytes(m[id := e]) == TotalBytes(m) - (if id in m then |m[id].session.state| else 0) + |e.session.state|
  {
    hide TotalBytes;
    BytesSplit(m[id := e], id);
    assert m[id := e] - {id} == m - {id};
    if id in m {
      BytesSplit(m, id);
    } else {
      assert m - {id} == m;
    }
  }

  /** Every session of a is one of b. */
  ghost predicate Within(a: Sessions, b: Sessions) {
    forall id :: id in a ==> id in b && a[id].session == b[id].session
  }

  lemma {:induction false} BytesWithin(a: Sessions, b: Sessions)
    requires Within(a, b)
    ensures TotalBytes(a) <= TotalBytes(b)
    decreases |a|
  {
    if |a| > 0 {
      var id :| id in a;
      BytesSplit(a, id);
      BytesSplit(b, id);
      BytesWithin(a - {id}, b - {id});
    }
  }

  // ----- the invariant

  /** Entries are filed under their own ids. */
  ghost predicate Filed(m: Sessions) {
    forall id :: id in m ==> m[id].session.id == id
  }

  ghost predicate SessionOk(cfg: Config, id: string, s: Session) {
    && s.id == id && Tokens.ValidSessionId(id) && s.revision > 0 && Valid(s.binding) && |s.state| <= cfg.maxStateBytes
  }

  ghost predicate SessionsOk(cfg: Config, m: Sessions) {
    forall id :: id in m ==> SessionOk(cfg, id, m[id].session)
  }

  ghost predicate FitOk(cfg: Config, m: Sessions) {
    && |m| <= cfg.maxSessions
    && (forall scope :: |InScope(m, scope)| <= cfg.maxPerScope)
    && (forall actorId :: actorId != 0 ==> |OfActor(m, actorId)| <= cfg.maxPerActor)
    && TotalBytes(m) <= cfg.maxTotalBytes
  }

  /** Claims are keyed by their session's own actor and chat. */
  ghost predicate OwnKeys(m: Sessions) {
    forall id :: id in m && m[id].input.Some? ==> KeyOf(m[id].session.binding) == Some(m[id].input.value.key)
  }

  /** And no two share a key. */
  ghost predicate ClaimsOk(m: Sessions) {
    && OwnKeys(m)
    && (forall i, j :: i in m && j in m && i != j && m[i].input.Some? && m[j].input.Some? ==>
          m[i].input.value.key != m[j].input.value.key)
  }

  ghost predicate EntriesOk(cfg: Config, m: Sessions) {
    SessionsOk(cfg, m) && FitOk(cfg, m) && ClaimsOk(m)
  }

  ghost predicate CoreOk(cfg: Config, c: Core) {
    EntriesOk(cfg, c.sessions) && (c.closed ==> c.sessions == map[])
  }

  lemma FitWithin(cfg: Config, a: Sessions, b: Sessions)
    requires FitOk(cfg, b) && Within(a, b)
    ensures FitOk(cfg, a)
  {
    BytesWithin(a, b);
    SubsetSize(a.Keys, b.Keys);
    forall scope
      ensures |InScope(a, scope)| <= cfg.maxPerScope
    {
      SubsetSize(InScope(a, scope), InScope(b, scope));
    }
    forall actorId | actorId != 0
      ensures |OfActor(a, actorId)| <= cfg.maxPerActor
    {
      SubsetSize(OfActor(a, actorId), OfActor(b, actorId));
    }
  }

  /** Fewer sessions or fewer claims keep the invariant. */
  lemma EntriesWithin(cfg: Config, a: Sessions, b: Sessions)
    requires EntriesOk(cfg, b) && Within(a, b)
    requires forall id :: id in a ==> a[id].input == b[id].input || a[id].input.None?
    ensures EntriesOk(cfg, a)
  {
    hide FitOk, TotalBytes;
    FitWithin(cfg, a, b);
  }

  /** A session put in place of itself keeps the counts. */
  lemma FitPut(cfg: Config, m: Sessions, e: Entry)
    requires FitOk(cfg, m) && e.session.id in m
    requires var s := m[e.session.id].session; e.session.scope == s.scope && e.session.binding.actorId == s.binding.actorId
    requires FitsBytes(m, cfg, m[e.session.id], e.session.state)
    ensures FitOk(cfg, m[e.session.id := e])
  {
    hide TotalBytes;
    var r := m[e.session.id := e];
    BytesPut(m, e.session.id, e);
    assert r.Keys == m.Keys;
    forall scope
      ensures |InScope(r, scope)| <= cfg.maxPerScope
    {
      assert InScope(r, scope) == InScope(m, scope);
    }
    forall actorId | actorId != 0
      ensures |OfActor(r, actorId)| <= cfg.maxPerActor
    {
      assert OfActor(r, actorId) == OfActor(m, actorId);
    }
  }

  /** The new claim is the session's own, and nobody else's. */
  ghost predicate ClaimFree(m: Sessions, e: Entry) {
    e.input.Some? ==>
      && KeyOf(e.session.binding) == Some(e.input.value.key)
      && forall id :: id != e.session.id ==> !HeldBy(m, e.input.value.key, id)
  }

  lemma EntriesPut(cfg: Config, m: Sessions, e: Entry)
    requires EntriesOk(cfg, m) && e.session.id in m && SessionOk(cfg, e.session.id, e.session)
    requires var s := m[e.session.id].session; e.session.scope == s.scope && e.session.binding.actorId == s.binding.actorId
    requires FitsBytes(m, cfg, m[e.session.id], e.session.state) && ClaimFree(m, e)
    ensures EntriesOk(cfg, m[e.session.id := e])
  {
    hide FitOk, TotalBytes, SessionOk, KeyOf;
    FitPut(cfg, m, e);
    assert forall id :: id in m && m[id].input.Some? ==> HeldBy(m, m[id].input.value.key, id);
  }

  lemma CountAdd(a: set<string>, b: set<string>, id: string, limit: nat)
    requires a <= b + {id} && |b| <= limit && (id in a ==> |b| < limit)
    ensures |a| <= limit
  {
    if id in a {
      SubsetSize(a - {id}, b);
    } else {
      SubsetSize(a, b);
    }
  }

  lemma FitAdd(cfg: Config, m: Sessions, e: Entry)
    requires FitOk(cfg, m) && e.session.id !in m
    requires HasRoom(m, cfg, e.session.scope, e.session.binding.actorId, |e.session.state|)
    ensures FitOk(cfg, m[e.session.id := e])
  {
    hide TotalBytes;
    var id := e.session.id;
    var r := m[id := e];
    BytesPut(m, id, e);
    CountAdd(r.Keys, m.Keys, id, cfg.maxSessions);
    forall scope
      ensures |InScope(r, scope)| <= cfg.maxPerScope
    {
      CountAdd(InScope(r, scope), InScope(m, scope), id, cfg.maxPerScope);
    }
    forall actorId | actorId != 0
      ensures |OfActor(r, actorId)| <= cfg.maxPerActor
    {
      CountAdd(OfActor(r, actorId), OfActor(m, actorId), id, cfg.maxPerActor);
    }
  }

  lemma EntriesAdd(cfg: Config, m: Sessions, e: Entry)
    requires EntriesOk(cfg, m) && e.session.id !in m && SessionOk(cfg, e.session.id, e.session)
    requires HasRoom(m, cfg, e.session.scope, e.session.binding.actorId, |e.session.state|) && ClaimFree(m, e)
    ensures EntriesOk(cfg, m[e.session.id := e])
  {
    hide FitOk, TotalBytes, SessionOk, KeyOf, HasRoom;
    FitAdd(cfg, m, e);
    assert forall id :: id in m && m[id].input.Some? ==> HeldBy(m, m[id].input.value.key, id);
  }

  // ----- the regions

  lemma RemoveManyOk(cfg: Config, c: Core, ids: set<string>, failing: set<string>)
    requires CoreOk(cfg, c)
    ensures CoreOk(cfg, RemoveMany(c, ids, failing)) && RemoveMany(c, ids, failing).closed == c.closed
  {
    hide EntriesOk;
    EntriesWithin(cfg, RemoveMany(c, ids, failing).sessions, c.sessions);
  }

  lemma PruneInputsOk(cfg: Config, c: Core, now: Time)
    requires CoreOk(cfg, c)
    ensures CoreOk(cfg, PruneInputs(c, now))
  {
    hide EntriesOk;
    EntriesWithin(cfg, PruneInputs(c, now).sessions, c.sessions);
  }

  lemma ClearInputOk(cfg: Config, c: Core, id: string)
    requires CoreOk(cfg, c) && id in c.sessions
    ensures CoreOk(cfg, ClearInput(c, id))
  {
    hide EntriesOk;
    EntriesWithin(cfg, ClearInput(c, id).sessions, c.sessions);
  }

  lemma {:induction false} PickIdFresh(m: Sessions, gen: seq<Option<string>>, k: nat)
    requires k <= |gen|
    ensures var id := PickId(m, gen, k); id.Ok? ==> id.value !in m && Tokens.ValidSessionId(id.value) && Some(id.value) in gen
    decreases |gen| - k
  {
    if k < |gen| && gen[k].Some? && gen[k].value in m {
      PickIdFresh(m, gen, k + 1);
    }
  }

  lemma CreateOk(cfg: Config, c: Core, versions: Versions, scopes: Scopes, req: CreateRequest,
                 gen: seq<Option<string>>, now: Time, failing: set<string>)
    requires CoreOk(cfg, c)
    ensures CoreOk(cfg, Create(c, cfg, versions, scopes, req, gen, now, failing).core)
  {
    hide EntriesOk, HasRoom, PickId, Saved, RemoveMany, Valid, Normalized;
    var p := Prune(c, now, failing);
    RemoveManyOk(cfg, c, ExpiredIds(c.sessions, now), failing);
    PickIdFresh(p.sessions, gen, 0);
    var r := Create(c, cfg, versions, scopes, req, gen, now, failing);
    if r.result.Ok? {
      var s := r.result.value;
      EntriesAdd(cfg, p.sessions, Entry(s, VersionOf(versions, s.featureId), None));
    }
  }

  lemma LookupOk(cfg: Config, c: Core, id: string, now: Time, failing: set<string>)
    requires CoreOk(cfg, c)
    ensures CoreOk(cfg, Lookup(c, id, now, failing).core)
  {
    hide CoreOk, RemoveMany;
    RemoveManyOk(cfg, c, ExpiredIds(c.sessions, now), failing);
    RemoveManyOk(cfg, c, {id}, failing);
  }

  lemma InstallOk(cfg: Config, c: Core, versions: Versions, e: Entry, failing: set<string>)
    requires CoreOk(cfg, c) && e.session.id in c.sessions && SessionOk(cfg, e.session.id, e.session)
    requires var s := c.sessions[e.session.id].session;
             e.session.scope == s.scope && e.session.binding.actorId == s.binding.actorId
    requires FitsBytes(c.sessions, cfg, c.sessions[e.session.id], e.session.state) && ClaimFree(c.sessions, e)
    ensures CoreOk(cfg, Install(c, versions, e, failing).core)
  {
    hide EntriesOk, SessionOk, FitsBytes, ClaimFree, Saved;
    EntriesPut(cfg, c.sessions, e);
  }

  lemma SameBytesFit(cfg: Config, m: Sessions, e: Entry)
    requires FitOk(cfg, m)
    ensures FitsBytes(m, cfg, e, e.session.state)
  {
  }

  lemma EntryOk(cfg: Config, c: Core, id: string)
    requires CoreOk(cfg, c) && id in c.sessions
    ensures SessionOk(cfg, id, c.sessions[id].session)
    ensures c.sessions[id].session.id == id
    ensures ClaimFree(c.sessions, c.sessions[id])
    ensures FitsBytes(c.sessions, cfg, c.sessions[id], c.sessions[id].session.state)
  {
    SameBytesFit(cfg, c.sessions, c.sessions[id]);
  }

  lemma UpdateStateOk(cfg: Config, c: Core, versions: Versions, snap: Session, req: StateRequest,
                      now: Time, failing: set<string>)
    requires CoreOk(cfg, c)
    ensures CoreOk(cfg, UpdateState(c, cfg, versions, snap, req, now, failing).core)
  {
    hide CoreOk, Install, FitsBytes, RemoveMany, Valid;
    RemoveManyOk(cfg, c, {snap.id}, failing);
    if snap.id in c.sessions {
      EntryOk(cfg, c, snap.id);
      var e := c.sessions[snap.id];
      if FitsBytes(c.sessions, cfg, e, req.state) && |req.state| <= cfg.maxStateBytes {
        var ttl := NormalizeTtl(cfg, req.ttl);
        var expiresAt := if req.ttl != 0 && ttl.Some? then now + ttl.value else e.session.expiresAt;
        var next := e.session.(state := req.state, revision := e.session.revision + 1, expiresAt := expiresAt);
        InstallOk(cfg, c, versions, e.(session := next, input := None), failing);
      }
    }
  }

  lemma BindTargetOk(cfg: Config, c: Core, versions: Versions, snap: Session, revision: nat, target: Target,
                     now: Time, failing: set<string>)
    requires CoreOk(cfg, c)
    ensures CoreOk(cfg, BindTarget(c, versions, snap, revision, target, now, failing).core)
  {
    hide CoreOk, Install, FitsBytes, RemoveMany, Valid, WithTarget;
    RemoveManyOk(cfg, c, {snap.id}, failing);
    if snap.id in c.sessions {
      EntryOk(cfg, c, snap.id);
      var e := c.sessions[snap.id];
      var b := WithTarget(e.session.binding, target);
      if b.Ok? {
        WithTargetNarrows(e.session.binding, target, b.value);
        InstallOk(cfg, c, versions, e.(session := e.session.(binding := b.value)), failing);
      }
    }
  }

  lemma TouchOk(cfg: Config, c: Core, versions: Versions, snap: Session, ttl: int, now: Time, failing: set<string>)
    requires CoreOk(cfg, c)
    ensures CoreOk(cfg, Touch(c, cfg, versions, snap, ttl, now, failing).core)
  {
    hide CoreOk, Install, FitsBytes, RemoveMany, Valid;
    RemoveManyOk(cfg, c, {snap.id}, failing);
    var t := NormalizeTtl(cfg, ttl);
    if snap.id in c.sessions && t.Some? {
      EntryOk(cfg, c, snap.id);
      var e := c.sessions[snap.id];
      InstallOk(cfg, c, versions, e.(session := e.session.(expiresAt := now + t.value)), failing);
    }
  }

  /** Once an outdated claim is out of the way, the key is free for the session. */
  lemma VacatedFree(cfg: Config, c: Core, key: InputKey, id: string)
    requires CoreOk(cfg, c)
    ensures var v := Vacated(c, key, id);
            && CoreOk(cfg, v) && v.sessions.Keys == c.sessions.Keys
            && (id in c.sessions ==> v.sessions[id] == c.sessions[id])
            && (forall k :: k != id ==> !HeldBy(v.sessions, key, k))
            && TotalBytes(v.sessions) == TotalBytes(c.sessions)
  {
    hide TotalBytes, FitOk, SessionOk;
    var h := Holder(c.sessions, key);
    if h.Some? && h.value != id {
      ClearInputOk(cfg, c, h.value);
      BytesPut(c.sessions, h.value, c.sessions[h.value].(input := None));
    }
    assert forall i, j :: HeldBy(c.sessions, key, i) && HeldBy(c.sessions, key, j) ==> i == j;
  }

  /** An input key taken from a snapshot is still the session's own when its binding only narrowed since. */
  ghost predicate KeyStands(m: Sessions, snap: Session) {
    snap.id in m && KeyOf(snap.binding).Some? ==> KeyOf(m[snap.id].session.binding) == KeyOf(snap.binding)
  }

  lemma ArmInputOk(cfg: Config, c: Core, versions: Versions, snap: Session, req: StateRequest,
                   now: Time, failing: set<string>)
    requires CoreOk(cfg, c) && KeyStands(c.sessions, snap)
    ensures CoreOk(cfg, ArmInput(c, cfg, versions, snap, req, now, failing).core)
  {
    hide CoreOk, Install, TotalBytes, RemoveMany, Valid, KeyOf, Vacated, Busy;
    RemoveManyOk(cfg, c, {snap.id}, failing);
    var key := KeyOf(snap.binding);
    var ttl := NormalizeTtl(cfg, req.ttl);
    if snap.id in c.sessions && key.Some? && ttl.Some? && |req.state| <= cfg.maxStateBytes {
      var v := Vacated(c, key.value, snap.id);
      VacatedFree(cfg, c, key.value, snap.id);
      EntryOk(cfg, c, snap.id);
      var e := c.sessions[snap.id];
      if FitsBytes(c.sessions, cfg, e, req.state) {
        var next := e.session.(state := req.state, revision := e.session.revision + 1);
        var claim := Claim(key.value, Earlier(now + ttl.value, next.expiresAt));
        InstallOk(cfg, v, versions, e.(session := next, input := Some(claim)), failing);
      }
    }
  }

  lemma TakeInputOk(cfg: Config, c: Core, versions: Versions, key: InputKey, now: Time, failing: set<string>)
    requires CoreOk(cfg, c)
    ensures CoreOk(cfg, TakeInput(c, versions, key, now, failing).core)
  {
    hide CoreOk, Install, FitsBytes, RemoveMany, Valid;
    var h := Holder(c.sessions, key);
    if h.Some? {
      ClearInputOk(cfg, c, h.value);
      RemoveManyOk(cfg, c, {h.value}, failing);
      EntryOk(cfg, c, h.value);
      var e := c.sessions[h.value];
      InstallOk(cfg, c, versions, e.(session := e.session.(revision := e.session.revision + 1), input := None), failing);
    }
  }

  lemma ReleaseInputOk(cfg: Config, c: Core, versions: Versions, id: string, failing: set<string>)
    requires CoreOk(cfg, c)
    ensures CoreOk(cfg, ReleaseInput(c, versions, id, failing).core)
  {
    hide CoreOk, Install, FitsBytes, Valid;
    if id in c.sessions {
      EntryOk(cfg, c, id);
      InstallOk(cfg, c, versions, c.sessions[id].(input := None), failing);
    }
  }

  /** Restoring keeps the invariant from any state and for any rows, whoever wrote them. */
  lemma RestoreRowOk(cfg: Config, c: Core, versions: Versions, scopes: Scopes, row: Row, now: Time, failing: set<string>)
    requires CoreOk(cfg, c) && !c.closed
    ensures var r := RestoreRow(c, cfg, versions, scopes, row, now, failing).core; CoreOk(cfg, r) && !r.closed
  {
    hide EntriesOk, HasRoom, Valid, KeyOf;
    var s := row.session;
    if Compatible(cfg, versions, scopes, row, now) && s.id !in c.sessions
       && HasRoom(c.sessions, cfg, scopes[s.featureId], s.binding.actorId, |s.state|) {
      var session := s.(scope := scopes[s.featureId]);
      EntriesAdd(cfg, c.sessions, Entry(session, row.version, None));
      var key := KeyOf(s.binding);
      if row.inputExpires.Some? && key.Some? && Holder(c.sessions, key.value).None? {
        EntriesAdd(cfg, c.sessions, Entry(session, row.version, Some(Claim(key.value, row.inputExpires.value))));
      }
    }
  }

  lemma {:induction false} RestoreOk(cfg: Config, c: Core, versions: Versions, scopes: Scopes, rows: seq<Row>, n: nat,
                                     now: Time, failing: set<string>)
    requires CoreOk(cfg, c) && !c.closed && n <= |rows|
    ensures var r := RestoreRows(c, cfg, versions, scopes, rows, n, now, failing).core; CoreOk(cfg, r) && !r.closed
  {
    hide CoreOk, RestoreRow;
    if n > 0 {
      RestoreOk(cfg, c, versions, scopes, rows, n - 1, now, failing);
      var r := RestoreRows(c, cfg, versions, scopes, rows, n - 1, now, failing);
      RestoreRowOk(cfg, r.core, versions, scopes, rows[n - 1], now, failing);
    }
  }
}
