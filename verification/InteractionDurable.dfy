/** Write-through durability: the store mirrors memory after every region, and a restart rebuilds it. */
module InteractionDurable {
  import opened Prelude
  import opened Bindings
  import opened InteractionModel
  import opened InteractionBounds
  import Tokens = CallbackTokens

  /** The stored deadline is the claim's own, or belongs to a claim that ran out without being written through. */
  ghost predicate DeadlineOk(input: Option<Claim>, stored: Option<Time>, clock: Time) {
    stored == DeadlineOf(input) || (input.None? && stored.Some? && stored.value <= clock)
  }

  /** The scope is left out: a restored session takes its feature's current one. */
  ghost predicate Mirror(e: Entry, row: Row, clock: Time) {
    && row.session.(scope := e.session.scope) == e.session
    && row.version == e.version
    && DeadlineOk(e.input, row.inputExpires, clock)
  }

  /** The store holds exactly the sessions of opted-in features, as they are in memory. */
  ghost predicate Synced(versions: Versions, m: Sessions, store: Store, clock: Time) {
    && (forall id :: id in m ==> m[id].session.id == id && m[id].version == VersionOf(versions, m[id].session.featureId))
    && (forall id :: id in m && m[id].version != "" ==> id in store)
    && (forall id :: id in store ==> id in m && m[id].version != "" && Mirror(m[id], store[id], clock))
  }

  /** Memory writes through and deletes through. */
  predicate Live(c: Core) {
    c.durable && !c.preserve && !c.closed
  }

  /** The sessions in memory together with those that left it while rows are preserved. */
  function Image(m: Sessions, left: Sessions): Sessions {
    m + left
  }

  ghost predicate CoreSynced(versions: Versions, c: Core, left: Sessions, clock: Time) {
    && c.durable && !c.closed && (!c.preserve ==> left == map[])
    && left.Keys !! c.sessions.Keys
    && Synced(versions, Image(c.sessions, left), c.store, clock)
  }

  /** What has left memory once c became d: nothing while deletes go through. */
  function LeftAfter(c: Core, left: Sessions, d: Core): Sessions {
    if c.preserve then left + (c.sessions - d.sessions.Keys) else left
  }

  lemma ClockGrows(versions: Versions, m: Sessions, store: Store, clock: Time, later: Time)
    requires Synced(versions, m, store, clock) && clock <= later
    ensures Synced(versions, m, store, later)
  {
  }

  lemma NobodyLeft(c: Core, left: Sessions, d: Core)
    requires c.sessions.Keys <= d.sessions.Keys
    ensures LeftAfter(c, left, d) == left
  {
    assert c.sessions - d.sessions.Keys == map[];
  }

  lemma ImageNone(m: Sessions)
    ensures Image(m, map[]) == m
  {
  }

  lemma ImagePut(m: Sessions, left: Sessions, id: string, e: Entry)
    requires id !in left
    ensures Image(m[id := e], left) == Image(m, left)[id := e]
  {
  }

  // ----- single changes

  /** n is m without some claims whose time has come. */
  ghost predicate Lapsed(m: Sessions, n: Sessions, clock: Time) {
    && n.Keys == m.Keys
    && (forall id :: id in m ==>
          || n[id] == m[id]
          || (n[id] == m[id].(input := None) && m[id].input.Some? && m[id].input.value.expiresAt <= clock))
  }

  lemma MirrorCleared(e: Entry, row: Row, clock: Time)
    requires Mirror(e, row, clock) && (e.input.Some? ==> e.input.value.expiresAt <= clock)
    ensures Mirror(e.(input := None), row, clock)
  {
  }

  lemma MirrorWritten(e: Entry, clock: Time)
    ensures Mirror(e, Row(e.session, e.version, DeadlineOf(e.input)), clock)
  {
  }

  /** Claims may be dropped without a write once their time has come. */
  lemma LapsedSynced(versions: Versions, m: Sessions, n: Sessions, store: Store, clock: Time)
    requires Synced(versions, m, store, clock) && Lapsed(m, n, clock)
    ensures Synced(versions, n, store, clock)
  {
    hide VersionOf, Mirror;
    forall id | id in store
      ensures Mirror(n[id], store[id], clock)
    {
      if n[id] != m[id] {
        MirrorCleared(m[id], store[id], clock);
      }
    }
  }

  /** A written entry is mirrored. */
  lemma WrittenSynced(versions: Versions, m: Sessions, store: Store, e: Entry, clock: Time)
    requires Synced(versions, m, store, clock) && e.version == VersionOf(versions, e.session.featureId)
    requires e.session.id in m ==> (e.version == "" <==> m[e.session.id].version == "")
    ensures var row := Row(e.session, e.version, DeadlineOf(e.input));
            Synced(versions, m[e.session.id := e], if e.version == "" then store else store[e.session.id := row], clock)
  {
    hide VersionOf, Mirror, DeadlineOf;
    MirrorWritten(e, clock);
  }

  // ----- the regions

  lemma RemoveLive(versions: Versions, c: Core, ids: set<string>, failing: set<string>, clock: Time)
    requires Live(c) && Synced(versions, c.sessions, c.store, clock)
    ensures var d := RemoveMany(c, ids, failing); Live(d) && Synced(versions, d.sessions, d.store, clock)
  {
    hide Mirror, VersionOf;
  }

  lemma RemovePreserved(c: Core, left: Sessions, ids: set<string>, failing: set<string>)
    requires c.preserve && left.Keys !! c.sessions.Keys
    ensures var d := RemoveMany(c, ids, failing);
            && d == c.(sessions := d.sessions) && LeftAfter(c, left, d).Keys !! d.sessions.Keys
            && Image(d.sessions, LeftAfter(c, left, d)) == Image(c.sessions, left)
  {
    var d := RemoveMany(c, ids, failing);
    assert d.store == c.store;
  }

  /** Removal deletes through; a failed delete keeps both, and preserved rows stay with the session that left. */
  lemma RemoveManySynced(versions: Versions, c: Core, left: Sessions, ids: set<string>, failing: set<string>, clock: Time)
    requires CoreSynced(versions, c, left, clock)
    ensures CoreSynced(versions, RemoveMany(c, ids, failing), LeftAfter(c, left, RemoveMany(c, ids, failing)), clock)
  {
    hide Synced, RemoveMany, Image;
    if c.preserve {
      RemovePreserved(c, left, ids, failing);
    } else {
      ImageNone(c.sessions);
      RemoveLive(versions, c, ids, failing, clock);
      ImageNone(RemoveMany(c, ids, failing).sessions);
    }
  }

  lemma LapseSynced(versions: Versions, c: Core, left: Sessions, n: Sessions, clock: Time)
    requires CoreSynced(versions, c, left, clock) && Lapsed(c.sessions, n, clock)
    ensures CoreSynced(versions, c.(sessions := n), left, clock)
  {
    hide Synced;
    assert Lapsed(Image(c.sessions, left), Image(n, left), clock);
    LapsedSynced(versions, Image(c.sessions, left), Image(n, left), c.store, clock);
  }

  lemma PruneInputsSynced(versions: Versions, c: Core, left: Sessions, now: Time, clock: Time)
    requires CoreSynced(versions, c, left, clock) && now <= clock
    ensures CoreSynced(versions, PruneInputs(c, now), left, clock)
  {
    hide CoreSynced;
    LapseSynced(versions, c, left, PruneInputs(c, now).sessions, clock);
  }

  lemma ClearInputSynced(versions: Versions, c: Core, left: Sessions, id: string, clock: Time)
    requires CoreSynced(versions, c, left, clock) && id in c.sessions
    requires c.sessions[id].input.Some? ==> c.sessions[id].input.value.expiresAt <= clock
    ensures CoreSynced(versions, ClearInput(c, id), left, clock)
  {
    hide CoreSynced;
    LapseSynced(versions, c, left, ClearInput(c, id).sessions, clock);
  }

  lemma EntryId(versions: Versions, c: Core, left: Sessions, id: string, clock: Time)
    requires CoreSynced(versions, c, left, clock) && id in c.sessions
    ensures c.sessions[id].session.id == id && c.sessions[id].version == VersionOf(versions, c.sessions[id].session.featureId)
  {
    hide Mirror, VersionOf;
    assert id in Image(c.sessions, left) && Image(c.sessions, left)[id] == c.sessions[id];
  }

  /** A written-through entry is mirrored; a failed write changes nothing. */
  lemma InstallSynced(versions: Versions, c: Core, left: Sessions, e: Entry, failing: set<string>, clock: Time)
    requires CoreSynced(versions, c, left, clock) && e.session.id in c.sessions
    requires var o := c.sessions[e.session.id]; e.version == o.version && e.session.featureId == o.session.featureId
    ensures CoreSynced(versions, Install(c, versions, e, failing).core, left, clock)
    ensures Install(c, versions, e, failing).core.sessions.Keys == c.sessions.Keys
  {
    hide VersionOf, Synced, DeadlineOf;
    EntryId(versions, c, left, e.session.id, clock);
    ImagePut(c.sessions, left, e.session.id, e);
    assert Image(c.sessions, left)[e.session.id] == c.sessions[e.session.id];
    WrittenSynced(versions, Image(c.sessions, left), c.store, e, clock);
  }

  lemma AddSynced(versions: Versions, c: Core, left: Sessions, s: Session, failing: set<string>, clock: Time)
    requires CoreSynced(versions, c, left, clock) && s.id !in c.sessions && s.id !in left
    requires Saved(c, versions, s, None, failing).Some?
    ensures CoreSynced(versions,
                       c.(sessions := c.sessions[s.id := Entry(s, VersionOf(versions, s.featureId), None)],
                          store := Saved(c, versions, s, None, failing).value), left, clock)
  {
    hide VersionOf, Synced;
    var e := Entry(s, VersionOf(versions, s.featureId), None);
    ImagePut(c.sessions, left, s.id, e);
    WrittenSynced(versions, Image(c.sessions, left), c.store, e, clock);
  }

  lemma CreateSynced(cfg: Config, versions: Versions, c: Core, left: Sessions, scopes: Scopes, req: CreateRequest,
                     gen: seq<Option<string>>, now: Time, failing: set<string>, clock: Time)
    requires CoreSynced(versions, c, left, clock)
    requires forall i :: 0 <= i < |gen| && gen[i].Some? ==> gen[i].value !in c.sessions && gen[i].value !in left
    ensures var d := Create(c, cfg, versions, scopes, req, gen, now, failing).core;
            CoreSynced(versions, d, LeftAfter(c, left, d), clock)
  {
    hide CoreSynced, HasRoom, PickId, RemoveMany, Valid, Normalized, VersionOf, NormalizeTtl, LeftAfter;
    NobodyLeft(c, left, c);
    var p := Prune(c, now, failing);
    RemoveManySynced(versions, c, left, ExpiredIds(c.sessions, now), failing, clock);
    PickIdFresh(p.sessions, gen, 0);
    var r := Create(c, cfg, versions, scopes, req, gen, now, failing);
    if r.result.Ok? {
      var s := r.result.value;
      LeftThenAdded(c, left, p, r.core, s.id);
      AddSynced(versions, p, LeftAfter(c, left, p), s, failing, clock);
    }
  }

  lemma LeftThenAdded(c: Core, left: Sessions, p: Core, d: Core, id: string)
    requires id !in c.sessions && id !in left && d.sessions.Keys == p.sessions.Keys + {id}
    ensures LeftAfter(c, left, d) == LeftAfter(c, left, p) && id !in LeftAfter(c, left, p)
  {
    assert c.sessions - d.sessions.Keys == c.sessions - p.sessions.Keys;
  }

  lemma LookupSynced(versions: Versions, c: Core, left: Sessions, id: string, now: Time, failing: set<string>, clock: Time)
    requires CoreSynced(versions, c, left, clock)
    ensures var d := Lookup(c, id, now, failing).core; CoreSynced(versions, d, LeftAfter(c, left, d), clock)
  {
    hide CoreSynced, RemoveMany, LeftAfter;
    NobodyLeft(c, left, c);
    RemoveManySynced(versions, c, left, ExpiredIds(c.sessions, now), failing, clock);
    RemoveManySynced(versions, c, left, {id}, failing, clock);
  }

  /** Every second half removes its session, installs one entry, or does nothing. */
  lemma InstalledSynced(versions: Versions, c: Core, left: Sessions, e: Entry, failing: set<string>, clock: Time)
    requires CoreSynced(versions, c, left, clock) && e.session.id in c.sessions
    requires var o := c.sessions[e.session.id]; e.version == o.version && e.session.featureId == o.session.featureId
    ensures var d := Install(c, versions, e, failing).core; CoreSynced(versions, d, LeftAfter(c, left, d), clock)
  {
    hide CoreSynced, Install, LeftAfter;
    InstallSynced(versions, c, left, e, failing, clock);
    NobodyLeft(c, left, Install(c, versions, e, failing).core);
  }

  lemma UpdateStateSynced(cfg: Config, versions: Versions, c: Core, left: Sessions, snap: Session, req: StateRequest, now: Time,
                          failing: set<string>, clock: Time)
    requires CoreSynced(versions, c, left, clock)
    ensures var d := UpdateState(c, cfg, versions, snap, req, now, failing).core; CoreSynced(versions, d, LeftAfter(c, left, d), clock)
  {
    hide CoreSynced, Install, FitsBytes, RemoveMany, LeftAfter, VersionOf;
    NobodyLeft(c, left, c);
    RemoveManySynced(versions, c, left, {snap.id}, failing, clock);
    if snap.id in c.sessions {
      EntryId(versions, c, left, snap.id, clock);
      var e := c.sessions[snap.id];
      var ttl := NormalizeTtl(cfg, req.ttl);
      var expiresAt := if req.ttl != 0 && ttl.Some? then now + ttl.value else e.session.expiresAt;
      var next := e.session.(state := req.state, revision := e.session.revision + 1, expiresAt := expiresAt);
      InstalledSynced(versions, c, left, e.(session := next, input := None), failing, clock);
    }
  }

  lemma BindTargetSynced(versions: Versions, c: Core, left: Sessions, snap: Session, revision: nat, target: Target, now: Time,
                         failing: set<string>, clock: Time)
    requires CoreSynced(versions, c, left, clock)
    ensures var d := BindTarget(c, versions, snap, revision, target, now, failing).core; CoreSynced(versions, d, LeftAfter(c, left, d), clock)
  {
    hide CoreSynced, Install, RemoveMany, WithTarget, Complete, LeftAfter, VersionOf;
    NobodyLeft(c, left, c);
    RemoveManySynced(versions, c, left, {snap.id}, failing, clock);
    if snap.id in c.sessions {
      EntryId(versions, c, left, snap.id, clock);
      var e := c.sessions[snap.id];
      var b := WithTarget(e.session.binding, target);
      if b.Ok? {
        InstalledSynced(versions, c, left, e.(session := e.session.(binding := b.value)), failing, clock);
      }
    }
  }

  lemma TouchSynced(cfg: Config, versions: Versions, c: Core, left: Sessions, snap: Session, ttl: int, now: Time,
                    failing: set<string>, clock: Time)
    requires CoreSynced(versions, c, left, clock)
    ensures var d := Touch(c, cfg, versions, snap, ttl, now, failing).core; CoreSynced(versions, d, LeftAfter(c, left, d), clock)
  {
    hide CoreSynced, Install, RemoveMany, LeftAfter, VersionOf;
    NobodyLeft(c, left, c);
    RemoveManySynced(versions, c, left, {snap.id}, failing, clock);
    var t := NormalizeTtl(cfg, ttl);
    if snap.id in c.sessions && t.Some? {
      EntryId(versions, c, left, snap.id, clock);
      var e := c.sessions[snap.id];
      InstalledSynced(versions, c, left, e.(session := e.session.(expiresAt := now + t.value)), failing, clock);
    }
  }

  /** Another session's outdated claim goes without a write. */
  lemma VacatedSynced(versions: Versions, c: Core, left: Sessions, key: InputKey, id: string, now: Time, clock: Time)
    requires CoreSynced(versions, c, left, clock) && now <= clock && !Busy(c.sessions, key, id, now)
    ensures CoreSynced(versions, Vacated(c, key, id), left, clock)
    ensures Vacated(c, key, id) == c.(sessions := Vacated(c, key, id).sessions) && Vacated(c, key, id).sessions.Keys == c.sessions.Keys
    ensures id in c.sessions ==> Vacated(c, key, id).sessions[id] == c.sessions[id]
  {
    hide CoreSynced;
    var h := Holder(c.sessions, key);
    if h.Some? && h.value != id {
      ClearInputSynced(versions, c, left, h.value, clock);
    }
  }

  lemma ArmInputSynced(cfg: Config, versions: Versions, c: Core, left: Sessions, snap: Session, req: StateRequest, now: Time,
                       failing: set<string>, clock: Time)
    requires CoreSynced(versions, c, left, clock) && now <= clock
    ensures var d := ArmInput(c, cfg, versions, snap, req, now, failing).core; CoreSynced(versions, d, LeftAfter(c, left, d), clock)
  {
    hide CoreSynced, Install, FitsBytes, RemoveMany, KeyOf, LeftAfter, VersionOf, Busy, Vacated;
    NobodyLeft(c, left, c);
    RemoveManySynced(versions, c, left, {snap.id}, failing, clock);
    var key := KeyOf(snap.binding);
    var ttl := NormalizeTtl(cfg, req.ttl);
    if snap.id in c.sessions && key.Some? && ttl.Some? && !Busy(c.sessions, key.value, snap.id, now) {
      var v := Vacated(c, key.value, snap.id);
      VacatedSynced(versions, c, left, key.value, snap.id, now, clock);
      EntryId(versions, c, left, snap.id, clock);
      var e := c.sessions[snap.id];
      var next := e.session.(state := req.state, revision := e.session.revision + 1);
      var f := e.(session := next, input := Some(Claim(key.value, Earlier(now + ttl.value, next.expiresAt))));
      InstallSynced(versions, v, left, f, failing, clock);
      NobodyLeft(c, left, v);
      NobodyLeft(c, left, Install(v, versions, f, failing).core);
    }
  }

  lemma TakeInputSynced(versions: Versions, c: Core, left: Sessions, key: InputKey, now: Time, failing: set<string>, clock: Time)
    requires CoreSynced(versions, c, left, clock) && now <= clock
    ensures var d := TakeInput(c, versions, key, now, failing).core; CoreSynced(versions, d, LeftAfter(c, left, d), clock)
  {
    hide CoreSynced, Install, RemoveMany, LeftAfter, VersionOf;
    NobodyLeft(c, left, c);
    var h := Holder(c.sessions, key);
    if h.Some? {
      var e := c.sessions[h.value];
      if e.input.value.expiresAt <= now {
        ClearInputSynced(versions, c, left, h.value, clock);
        NobodyLeft(c, left, ClearInput(c, h.value));
      }
      RemoveManySynced(versions, c, left, {h.value}, failing, clock);
      EntryId(versions, c, left, h.value, clock);
      InstalledSynced(versions, c, left, e.(session := e.session.(revision := e.session.revision + 1), input := None), failing, clock);
    }
  }

  lemma ReleaseInputSynced(versions: Versions, c: Core, left: Sessions, id: string, failing: set<string>, clock: Time)
    requires CoreSynced(versions, c, left, clock)
    ensures var d := ReleaseInput(c, versions, id, failing).core; CoreSynced(versions, d, LeftAfter(c, left, d), clock)
  {
    hide CoreSynced, Install, LeftAfter, VersionOf;
    NobodyLeft(c, left, c);
    if id in c.sessions {
      EntryId(versions, c, left, id, clock);
      InstalledSynced(versions, c, left, c.sessions[id].(input := None), failing, clock);
    }
  }

  // ----- restart

  /** What Load returns: every stored row once, in any order. */
  ghost predicate Lists(rows: seq<Row>, store: Store) {
    && (forall i :: 0 <= i < |rows| ==> rows[i].session.id in store && store[rows[i].session.id] == rows[i])
    && (forall i, j :: 0 <= i < j < |rows| ==> rows[i].session.id != rows[j].session.id)
    && (forall id :: id in store ==> exists i :: 0 <= i < |rows| && rows[i].session.id == id)
  }

  ghost function Seen(rows: seq<Row>, n: nat): set<string>
    requires n <= |rows|
  {
    set i | 0 <= i < n :: rows[i].session.id
  }

  /** A session as it comes back: in its feature's current scope, with its claim unless that has run out. */
  function Revived(e: Entry, scopes: Scopes, now: Time): Entry
    requires e.session.featureId in scopes
  {
    Entry(e.session.(scope := scopes[e.session.featureId]), e.version, LiveInput(e.input, now))
  }

  /** The sessions brought back so far are revived ones, and the rows dealt with are theirs. */
  ghost predicate RestoredSoFar(m: Sessions, store: Store, scopes: Scopes, seen: set<string>, now: Time, c: Core, ok: bool) {
    && Live(c)
    && (forall id :: id in c.store ==> id in store && c.store[id] == store[id])
    && (forall id :: id in store && id !in seen ==> id in c.store)
    && (forall id :: id in c.sessions ==>
          && id in seen && id in c.store && id in m && m[id].session.featureId in scopes
          && m[id].session.expiresAt > now
          && c.sessions[id] == Revived(m[id], scopes, now))
    && (ok ==> forall id :: id in c.store && id in seen ==> id in c.sessions)
  }

  function Fresh(store: Store): Core {
    Core(false, false, true, map[], store)
  }

  /** What a compatible row turns into. */
  function FromRow(row: Row, scopes: Scopes, now: Time): Entry
    requires row.session.featureId in scopes
  {
    var key := KeyOf(row.session.binding);
    Entry(row.session.(scope := scopes[row.session.featureId]), row.version,
          if row.inputExpires.Some? && row.inputExpires.value > now && key.Some?
          then Some(Claim(key.value, row.inputExpires.value)) else None)
  }

  lemma RowRevives(m: Sessions, row: Row, scopes: Scopes, now: Time)
    requires OwnKeys(m) && row.session.id in m && Mirror(m[row.session.id], row, now)
    requires row.session.featureId in scopes
    ensures m[row.session.id].session.featureId == row.session.featureId
    ensures m[row.session.id].session.expiresAt == row.session.expiresAt
    ensures FromRow(row, scopes, now) == Revived(m[row.session.id], scopes, now)
  {
      }

  /** A row is brought back as it stands, skipped, or dropped from the store. */
  lemma RestoreRowCases(cfg: Config, versions: Versions, scopes: Scopes, row: Row, now: Time, failing: set<string>, c: Core)
    ensures var r := RestoreRow(c, cfg, versions, scopes, row, now, failing);
            || (r == Rejected(c, row.session.id, failing))
            || (r == Outcome(c, Ok(false)) && row.session.id in c.sessions)
            || (&& row.session.featureId in scopes && row.session.expiresAt > now
                && r == Outcome(c.(sessions := c.sessions[row.session.id := FromRow(row, scopes, now)]), Ok(true)))
  {
    hide HasRoom, VersionOf, KeyOf, Holder;
  }

  lemma RestoreRowRevives(cfg: Config, versions: Versions, m: Sessions, store: Store, scopes: Scopes, seen: set<string>,
                          row: Row, now: Time, failing: set<string>, c: Core)
    requires OwnKeys(m) && Synced(versions, m, store, now)
    requires RestoredSoFar(m, store, scopes, seen, now, c, true)
    requires row.session.id in store && store[row.session.id] == row && row.session.id !in seen
    ensures var r := RestoreRow(c, cfg, versions, scopes, row, now, failing);
            RestoredSoFar(m, store, scopes, seen + {row.session.id}, now, r.core, r.result.Ok?)
  {
    hide Mirror, FromRow, Revived, RestoreRow, VersionOf, OwnKeys;
    var id := row.session.id;
    assert id in m && Mirror(m[id], row, now);
    RestoreRowCases(cfg, versions, scopes, row, now, failing, c);
    if row.session.featureId in scopes {
      RowRevives(m, row, scopes, now);
    }
  }

  lemma RowUnseen(rows: seq<Row>, store: Store, n: nat)
    requires Lists(rows, store) && n < |rows|
    ensures var id := rows[n].session.id; id in store && store[id] == rows[n] && id !in Seen(rows, n)
    ensures Seen(rows, n + 1) == Seen(rows, n) + {rows[n].session.id}
  {
  }

  lemma NothingRestored(m: Sessions, store: Store, scopes: Scopes, now: Time)
    ensures RestoredSoFar(m, store, scopes, {}, now, Fresh(store), true)
  {
  }

  lemma StoppedRestore(m: Sessions, store: Store, scopes: Scopes, seen: set<string>, id: string, now: Time, c: Core)
    requires RestoredSoFar(m, store, scopes, seen, now, c, false)
    ensures RestoredSoFar(m, store, scopes, seen + {id}, now, c, false)
  {
  }

  lemma {:induction false} RestoreRevives(cfg: Config, versions: Versions, m: Sessions, store: Store, scopes: Scopes,
                                          rows: seq<Row>, n: nat, now: Time, failing: set<string>)
    requires OwnKeys(m) && Synced(versions, m, store, now) && Lists(rows, store) && n <= |rows|
    ensures var r := RestoreRows(Fresh(store), cfg, versions, scopes, rows, n, now, failing);
            RestoredSoFar(m, store, scopes, Seen(rows, n), now, r.core, r.result.Ok?)
  {
    hide OwnKeys, Synced, RestoreRow, Lists, RestoredSoFar;
    if n == 0 {
      NoneSeen(rows);
      NothingRestored(m, store, scopes, now);
    } else {
      RestoreRevives(cfg, versions, m, store, scopes, rows, n - 1, now, failing);
      var r := RestoreRows(Fresh(store), cfg, versions, scopes, rows, n - 1, now, failing);
      RowUnseen(rows, store, n - 1);
      if r.result.Ok? {
        RestoreRowRevives(cfg, versions, m, store, scopes, Seen(rows, n - 1), rows[n - 1], now, failing, r.core);
      } else {
        StoppedRestore(m, store, scopes, Seen(rows, n - 1), rows[n - 1].session.id, now, r.core);
      }
    }
  }

  lemma AllSeen(rows: seq<Row>, store: Store)
    requires Lists(rows, store)
    ensures Seen(rows, |rows|) == store.Keys
  {
  }

  lemma MirrorRevived(e: Entry, row: Row, scopes: Scopes, now: Time)
    requires Mirror(e, row, now) && e.session.featureId in scopes
    ensures var r := Revived(e, scopes, now);
            && Mirror(r, row, now) && r.session.id == e.session.id && r.version == e.version
            && r.session.featureId == e.session.featureId
  {
  }

  /** After a successful restart memory and store agree again. */
  lemma RestartSynced(cfg: Config, versions: Versions, m: Sessions, store: Store, scopes: Scopes, rows: seq<Row>,
                      now: Time, failing: set<string>)
    requires OwnKeys(m) && Synced(versions, m, store, now) && Lists(rows, store)
    requires RestoreDurable(Fresh(store), cfg, versions, scopes, Some(rows), now, failing).result.Ok?
    ensures CoreSynced(versions, RestoreDurable(Fresh(store), cfg, versions, scopes, Some(rows), now, failing).core, map[], now)
  {
    hide OwnKeys, RestoreRows, VersionOf, Lists, Mirror, Revived, Seen;
    RestoreRevives(cfg, versions, m, store, scopes, rows, |rows|, now, failing);
    AllSeen(rows, store);
    ImageNone(RestoreRows(Fresh(store), cfg, versions, scopes, rows, |rows|, now, failing).core.sessions);
    forall id | id in store && m[id].session.featureId in scopes
      ensures var e := Revived(m[id], scopes, now);
              && Mirror(e, store[id], now) && e.session.id == id && e.version == m[id].version
              && e.session.featureId == m[id].session.featureId
    {
      MirrorRevived(m[id], store[id], scopes, now);
    }
  }

  /** However a restart ends, the store is in step with the old sessions it still holds. */
  lemma RestartKeepsStore(cfg: Config, versions: Versions, m: Sessions, store: Store, scopes: Scopes, rows: seq<Row>,
                          now: Time, failing: set<string>)
    requires OwnKeys(m) && Synced(versions, m, store, now) && Lists(rows, store)
    ensures var r := RestoreDurable(Fresh(store), cfg, versions, scopes, Some(rows), now, failing);
            Synced(versions, map id | id in m && id in r.core.store :: m[id], r.core.store, now)
  {
    hide OwnKeys, RestoreRows, VersionOf, Lists, Mirror, Revived, Seen;
    RestoreRevives(cfg, versions, m, store, scopes, rows, |rows|, now, failing);
  }

  /** The restart's catalog never gathers sessions of different old scopes under one new scope. */
  ghost predicate KeepsScopesApart(m: Sessions, scopes: Scopes) {
    && (forall id :: id in m && m[id].version != "" ==> m[id].session.featureId in scopes)
    && (forall i, j :: i in m && j in m && m[i].version != "" && m[j].version != "" ==>
          scopes[m[i].session.featureId] == scopes[m[j].session.featureId] ==> m[i].session.scope == m[j].session.scope)
  }

  /** The sessions a crash at now must not lose. */
  ghost function Survivors(m: Sessions, scopes: Scopes, now: Time): Sessions
    requires KeepsScopesApart(m, scopes)
  {
    map id | id in m && m[id].version != "" && m[id].session.expiresAt > now :: Revived(m[id], scopes, now)
  }

  /** A revived part of the old sessions always leaves room for one more of them. */
  lemma RoomForSurvivor(cfg: Config, m: Sessions, scopes: Scopes, now: Time, part: Sessions, id: string)
    requires EntriesOk(cfg, m) && KeepsScopesApart(m, scopes)
    requires id in m && m[id].version != "" && id !in part
    requires forall k :: k in part ==> k in m && m[k].version != "" && part[k] == Revived(m[k], scopes, now)
    ensures HasRoom(part, cfg, scopes[m[id].session.featureId], m[id].session.binding.actorId, |m[id].session.state|)
  {
    hide TotalBytes, SessionsOk, ClaimsOk;
    var s := m[id].session;
    var scope := scopes[s.featureId];
    StrictSize(part.Keys, m.Keys, id);
    StrictSize(InScope(part, scope), InScope(m, s.scope), id);
    StrictSize(OfActor(part, s.binding.actorId), OfActor(m, s.binding.actorId), id);
    SurvivorBytes(m, scopes, now, part, id);
  }

  lemma StrictSize(a: set<string>, b: set<string>, id: string)
    requires a <= b && id in b && id !in a
    ensures |a| < |b|
  {
    SubsetSize(a, b - {id});
  }

  lemma SurvivorBytes(m: Sessions, scopes: Scopes, now: Time, part: Sessions, id: string)
    requires KeepsScopesApart(m, scopes) && id in m && id !in part
    requires forall k :: k in part ==> k in m && m[k].version != "" && part[k] == Revived(m[k], scopes, now)
    ensures TotalBytes(part) + |m[id].session.state| <= TotalBytes(m)
  {
    hide TotalBytes;
    var kept := map k | k in part :: m[k];
    BytesSame(part, kept);
    BytesWithin(kept, m - {id});
    BytesSplit(m, id);
  }

  lemma {:induction false} BytesSame(a: Sessions, b: Sessions)
    requires a.Keys == b.Keys && forall id :: id in a ==> a[id].session.state == b[id].session.state
    ensures TotalBytes(a) == TotalBytes(b)
    decreases |a|
  {
    hide TotalBytes;
    if |a| > 0 {
      var id :| id in a;
      BytesSplit(a, id);
      BytesSplit(b, id);
      BytesSame(a - {id}, b - {id});
    } else {
      BytesNone(a);
      BytesNone(b);
    }
  }

  lemma BytesNone(m: Sessions)
    requires m.Keys == {}
    ensures TotalBytes(m) == 0
  {
    assert |m| == 0;
  }

  lemma EntriesOwnKeys(cfg: Config, m: Sessions)
    requires EntriesOk(cfg, m)
    ensures OwnKeys(m)
  {
  }

  /** A row's live claim never collides with one already brought back. */
  lemma KeyIsFree(cfg: Config, m: Sessions, scopes: Scopes, now: Time, part: Sessions, id: string)
    requires EntriesOk(cfg, m) && id in m && id !in part && m[id].input.Some?
    requires forall k :: k in part ==> k in m && m[k].session.featureId in scopes && part[k] == Revived(m[k], scopes, now)
    ensures KeyOf(m[id].session.binding) == Some(m[id].input.value.key)
    ensures Holder(part, m[id].input.value.key).None?
  {
    hide FitOk, SessionsOk;
    var key := m[id].input.value.key;
    assert forall k :: HeldBy(part, key, k) ==> HeldBy(m, key, k);
  }

  lemma RestoreRowInstalls(cfg: Config, versions: Versions, scopes: Scopes, row: Row, now: Time, failing: set<string>, c: Core)
    requires Compatible(cfg, versions, scopes, row, now) && row.session.id !in c.sessions
    requires HasRoom(c.sessions, cfg, scopes[row.session.featureId], row.session.binding.actorId, |row.session.state|)
    requires row.inputExpires.Some? && row.inputExpires.value > now ==>
      var key := KeyOf(row.session.binding); key.Some? && Holder(c.sessions, key.value).None?
    ensures RestoreRow(c, cfg, versions, scopes, row, now, failing)
         == Outcome(c.(sessions := c.sessions[row.session.id := FromRow(row, scopes, now)]), Ok(true))
  {
    hide HasRoom, KeyOf, Holder, Compatible;
  }

  /** An unexpired mirrored row passes every check of the restart. */
  lemma RowCompatible(cfg: Config, versions: Versions, m: Sessions, row: Row, scopes: Scopes, now: Time)
    requires EntriesOk(cfg, m) && KeepsScopesApart(m, scopes) && row.session.id in m
    requires var e := m[row.session.id]; Mirror(e, row, now) && e.version != "" && e.version == VersionOf(versions, e.session.featureId)
    ensures var s := m[row.session.id].session;
            && s.featureId == row.session.featureId && s.binding == row.session.binding && s.state == row.session.state
            && s.expiresAt == row.session.expiresAt && s.featureId in scopes
    ensures row.session.expiresAt > now ==> Compatible(cfg, versions, scopes, row, now)
    ensures row.inputExpires.Some? && row.inputExpires.value > now ==> m[row.session.id].input.Some?
  {
    hide FitOk, ClaimsOk, VersionOf;
    assert SessionOk(cfg, row.session.id, m[row.session.id].session);
  }

  lemma RestoreRowExact(cfg: Config, versions: Versions, m: Sessions, store: Store, scopes: Scopes, seen: set<string>,
                        row: Row, now: Time, failing: set<string>, c: Core)
    requires EntriesOk(cfg, m) && Synced(versions, m, store, now) && KeepsScopesApart(m, scopes)
    requires RestoredSoFar(m, store, scopes, seen, now, c, true)
    requires row.session.id in store && store[row.session.id] == row && row.session.id !in seen
    requires row.session.id in failing ==> row.session.expiresAt > now
    ensures RestoreRow(c, cfg, versions, scopes, row, now, failing) ==
            if row.session.expiresAt > now
            then Outcome(c.(sessions := c.sessions[row.session.id := FromRow(row, scopes, now)]), Ok(true))
            else Outcome(c.(store := c.store - {row.session.id}), Ok(false))
  {
    hide EntriesOk, HasRoom, VersionOf, Revived, FromRow, KeyOf, KeepsScopesApart, Holder, Mirror;
    var id := row.session.id;
    RowCompatible(cfg, versions, m, row, scopes, now);
    if row.session.expiresAt > now {
      RoomForSurvivor(cfg, m, scopes, now, c.sessions, id);
      if row.inputExpires.Some? && row.inputExpires.value > now {
        KeyIsFree(cfg, m, scopes, now, c.sessions, id);
      }
      RestoreRowInstalls(cfg, versions, scopes, row, now, failing, c);
    }
  }

  /** No deletion of an expired row fails. */
  ghost predicate ExpiredDeletable(store: Store, now: Time, failing: set<string>) {
    forall id :: id in store && id in failing ==> store[id].session.expiresAt > now
  }

  lemma {:induction false} RestoreExactPrefix(cfg: Config, versions: Versions, m: Sessions, store: Store, scopes: Scopes,
                                              rows: seq<Row>, n: nat, now: Time, failing: set<string>)
    requires EntriesOk(cfg, m) && Synced(versions, m, store, now) && KeepsScopesApart(m, scopes)
    requires Lists(rows, store) && ExpiredDeletable(store, now, failing) && n <= |rows|
    ensures var r := RestoreRows(Fresh(store), cfg, versions, scopes, rows, n, now, failing);
            && r.result.Ok?
            && (forall id :: id in Seen(rows, n) && id in store && store[id].session.expiresAt > now ==> id in r.core.sessions)
            && (forall id :: id in store ==>
                  (id in r.core.store <==> id !in Seen(rows, n) || store[id].session.expiresAt > now))
  {
    hide EntriesOk, Synced, RestoreRow, KeepsScopesApart, RestoredSoFar, Lists, FromRow, Seen, ExpiredDeletable;
    if n == 0 {
      NoneSeen(rows);
    } else {
      RestoreExactPrefix(cfg, versions, m, store, scopes, rows, n - 1, now, failing);
      EntriesOwnKeys(cfg, m);
      RestoreRevives(cfg, versions, m, store, scopes, rows, n - 1, now, failing);
      var r := RestoreRows(Fresh(store), cfg, versions, scopes, rows, n - 1, now, failing);
      RowUnseen(rows, store, n - 1);
      FailsUnexpired(store, now, failing, rows[n - 1].session.id);
      RestoreRowExact(cfg, versions, m, store, scopes, Seen(rows, n - 1), rows[n - 1], now, failing, r.core);
    }
  }

  lemma NoneSeen(rows: seq<Row>)
    ensures Seen(rows, 0) == {}
  {
  }

  lemma FailsUnexpired(store: Store, now: Time, failing: set<string>, id: string)
    requires ExpiredDeletable(store, now, failing) && id in store
    ensures id in failing ==> store[id].session.expiresAt > now
  {
  }

  /**
   * Crash and restore: with the store in step with the sessions m of the process that died, a restart brings
   * back exactly the unexpired durable sessions with their live claims, and drops exactly the expired rows.
   */
  lemma RestoreExact(cfg: Config, versions: Versions, m: Sessions, store: Store, scopes: Scopes, rows: seq<Row>,
                     now: Time, failing: set<string>)
    requires EntriesOk(cfg, m) && Synced(versions, m, store, now) && KeepsScopesApart(m, scopes)
    requires Lists(rows, store) && ExpiredDeletable(store, now, failing)
    ensures var r := RestoreDurable(Fresh(store), cfg, versions, scopes, Some(rows), now, failing);
            && r.result.Ok?
            && r.core.sessions == Survivors(m, scopes, now)
            && r.core.store == map id | id in store && store[id].session.expiresAt > now :: store[id]
  {
    hide EntriesOk, RestoreRows, VersionOf, Lists, ExpiredDeletable, Revived, Seen, DeadlineOk;
    RestoreExactPrefix(cfg, versions, m, store, scopes, rows, |rows|, now, failing);
    EntriesOwnKeys(cfg, m);
    RestoreRevives(cfg, versions, m, store, scopes, rows, |rows|, now, failing);
    AllSeen(rows, store);
  }
}
