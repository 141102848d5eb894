/**
 * The interaction runtime as a value: live sessions, the durable store, and one function per locked region.
 * Store calls on the ids in `failing` fail without effect.
 */
module InteractionModel {
  import opened Prelude
  import opened Text
  import opened Bindings
  import Tokens = CallbackTokens

  newtype Byte = x: int | 0 <= x < 256

  /** One generation of one plugin. */
  datatype Scope = Scope(owner: string, generation: nat)

  const NO_SCOPE: Scope := Scope("", 0)

  datatype Session = Session(id: string, featureId: string, scope: Scope, binding: Binding, state: seq<Byte>,
                             revision: nat, createdAt: Time, expiresAt: Time)

  datatype Claim = Claim(key: InputKey, expiresAt: Time)

  datatype Entry = Entry(session: Session, version: string, input: Option<Claim>)

  /** A persisted session; inputExpires is None where the source stores the zero time. */
  datatype Row = Row(session: Session, version: string, inputExpires: Option<Time>)

  datatype Config = Config(maxSessions: nat, maxPerScope: nat, maxPerActor: nat, maxStateBytes: nat,
                           maxTotalBytes: nat, defaultTtl: int, maxTtl: int)

  /** Configured limits as given: zero selects the default. */
  datatype RawConfig = RawConfig(maxSessions: int, maxPerScope: int, maxPerActor: int, maxStateBytes: int,
                                 maxTotalBytes: int, defaultTtl: int, maxTtl: int)

  const MINUTE: int := 60_000_000_000
  const DEFAULT_CONFIG := Config(4096, 512, 64, 64 * 1024, 8 * 1024 * 1024, 15 * MINUTE, 24 * 60 * MINUTE)

  function OrDefault(given: int, standard: nat): (r: nat)
    requires given >= 0
    ensures r == 0 ==> standard == 0
  {
    if given == 0 then standard else given
  }

  /** Negative limits, a default ttl beyond the maximum and a session limit beyond the total are errors. */
  function NormalizeConfig(r: RawConfig): (n: Result<Config, Fault>)
    ensures n.Ok? ==>
      var c := n.value;
      && c.maxSessions > 0 && c.maxPerScope > 0 && c.maxPerActor > 0 && c.maxStateBytes > 0
      && 0 < c.defaultTtl <= c.maxTtl && c.maxStateBytes <= c.maxTotalBytes
  {
    if r.maxSessions < 0 || r.maxPerScope < 0 || r.maxPerActor < 0 || r.maxStateBytes < 0 || r.maxTotalBytes < 0
       || r.defaultTtl < 0 || r.maxTtl < 0
    then Err(InvalidConfig)
    else
      var d := DEFAULT_CONFIG;
      var c := Config(OrDefault(r.maxSessions, d.maxSessions), OrDefault(r.maxPerScope, d.maxPerScope),
                      OrDefault(r.maxPerActor, d.maxPerActor), OrDefault(r.maxStateBytes, d.maxStateBytes),
                      OrDefault(r.maxTotalBytes, d.maxTotalBytes), if r.defaultTtl == 0 then d.defaultTtl else r.defaultTtl,
                      if r.maxTtl == 0 then d.maxTtl else r.maxTtl);
      if c.defaultTtl > c.maxTtl || c.maxStateBytes > c.maxTotalBytes then Err(InvalidConfig) else Ok(c)
  }

  type Versions = map<string, string>
  type Scopes = map<string, Scope>
  type Sessions = map<string, Entry>
  type Store = map<string, Row>

  datatype Core = Core(closed: bool, preserve: bool, durable: bool, sessions: Sessions, store: Store)

  datatype Fault =
    | InvalidConfig | Closed | InvalidFeature | BadBinding | InvalidTtl | StateTooLarge | Capacity
    | IdSourceFailed | InvalidId | IdCollision
    | NotFound | SessionExpired | ScopeStale | BindingMismatch | RevisionConflict | AlreadyBound
    | InputBusy | InputExpired | PersistenceFailed
    | BadToken | StaleToken | ActionNotFound | HandlerRegistered | HandlerUnavailable | PreparerFailed

  datatype Outcome<+T> = Outcome(core: Core, result: Result<T, Fault>)

  /** The durability version a feature declares; the empty version opts out. */
  function VersionOf(versions: Versions, featureId: string): string {
    if featureId in versions then versions[featureId] else ""
  }

  function NormalizeTtl(cfg: Config, ttl: int): Option<int> {
    if ttl < 0 then None
    else
      var t := if ttl == 0 then cfg.defaultTtl else ttl;
      if t > cfg.maxTtl then None else Some(t)
  }

  // ----- what the capacity limits count

  function InScope(m: Sessions, scope: Scope): set<string> {
    set id | id in m && m[id].session.scope == scope
  }

  function OfActor(m: Sessions, actorId: int): set<string> {
    set id | id in m && m[id].session.binding.actorId == actorId
  }

  ghost function TotalBytes(m: Sessions): nat {
    if |m| == 0 then 0
    else
      var id :| id in m;
      |m[id].session.state| + TotalBytes(m - {id})
  }

  ghost predicate HasRoom(m: Sessions, cfg: Config, scope: Scope, actorId: int, bytes: nat) {
    && |m| < cfg.maxSessions
    && |InScope(m, scope)| < cfg.maxPerScope
    && (actorId != 0 ==> |OfActor(m, actorId)| < cfg.maxPerActor)
    && TotalBytes(m) + bytes <= cfg.maxTotalBytes
  }

  // ----- removal

  predicate Deletes(c: Core, id: string)
    requires id in c.sessions
  {
    c.durable && !c.preserve && c.sessions[id].version != ""
  }

  function Gone(c: Core, ids: set<string>, failing: set<string>): set<string> {
    set id | id in ids && id in c.sessions && !(Deletes(c, id) && id in failing)
  }

  /** Forgets the given sessions and their rows; a session whose row cannot be deleted stays. */
  function RemoveMany(c: Core, ids: set<string>, failing: set<string>): Core {
    var gone := Gone(c, ids, failing);
    c.(sessions := c.sessions - gone, store := c.store - (set id | id in gone && Deletes(c, id)))
  }

  function Remove(c: Core, id: string, failing: set<string>): Core {
    RemoveMany(c, {id}, failing)
  }

  function ExpiredIds(m: Sessions, now: Time): set<string> {
    set id | id in m && m[id].session.expiresAt <= now
  }

  function Prune(c: Core, now: Time, failing: set<string>): Core {
    RemoveMany(c, ExpiredIds(c.sessions, now), failing)
  }

  function LiveInput(input: Option<Claim>, now: Time): Option<Claim> {
    if input.Some? && input.value.expiresAt <= now then None else input
  }

  /** The sessions whose claim has run out. */
  function LapsedIds(m: Sessions, now: Time): set<string> {
    set id | id in m && m[id].input.Some? && m[id].input.value.expiresAt <= now
  }

  /** Drops the input claims whose time has come. */
  function PruneInputs(c: Core, now: Time): Core {
    c.(sessions := map id | id in c.sessions :: c.sessions[id].(input := LiveInput(c.sessions[id].input, now)))
  }

  function CancelScope(c: Core, scope: Scope, failing: set<string>): Core {
    if scope == NO_SCOPE then c else RemoveMany(c, InScope(c.sessions, scope), failing)
  }

  /** Removes the session only while it still belongs to the scope that was found stale. */
  function CancelIfScope(c: Core, id: string, scope: Scope, failing: set<string>): Core {
    if id in c.sessions && c.sessions[id].session.scope == scope then Remove(c, id, failing) else c
  }

  function Close(c: Core): Core {
    if c.closed then c else c.(closed := true, sessions := map[])
  }

  // ----- persistence

  /** The store after writing the session through; None when the write fails. */
  function Saved(c: Core, versions: Versions, s: Session, inputExpires: Option<Time>, failing: set<string>): Option<Store> {
    var version := VersionOf(versions, s.featureId);
    if !c.durable || version == "" then Some(c.store)
    else if s.id in failing then None
    else Some(c.store[s.id := Row(s, version, inputExpires)])
  }

  function DeadlineOf(input: Option<Claim>): Option<Time> {
    if input.Some? then Some(input.value.expiresAt) else None
  }

  // ----- sessions

  datatype CreateRequest = CreateRequest(featureId: string, binding: Binding, state: seq<Byte>, ttl: int)

  const MAX_ID_ATTEMPTS: nat := 4

  /** The outcomes of the id generator, tried in turn until one is unused, four times at most. */
  function PickId(m: Sessions, gen: seq<Option<string>>, k: nat): Result<string, Fault>
    requires k <= |gen|
    decreases |gen| - k
  {
    if k == MAX_ID_ATTEMPTS || k == |gen| then Err(IdCollision)
    else if gen[k].None? then Err(IdSourceFailed)
    else if !Tokens.ValidSessionId(gen[k].value) then Err(InvalidId)
    else if gen[k].value !in m then Ok(gen[k].value)
    else PickId(m, gen, k + 1)
  }

  ghost function Create(c: Core, cfg: Config, versions: Versions, scopes: Scopes, req: CreateRequest,
                        gen: seq<Option<string>>, now: Time, failing: set<string>): Outcome<Session>
  {
    var featureId := Normalize(req.featureId);
    var binding := Normalized(req.binding);
    var ttl := NormalizeTtl(cfg, req.ttl);
    if c.closed then Outcome(c, Err(Closed))
    else if !Tokens.ValidIdentifier(featureId) then Outcome(c, Err(InvalidFeature))
    else if !Valid(binding) then Outcome(c, Err(BadBinding))
    else if |req.state| > cfg.maxStateBytes then Outcome(c, Err(StateTooLarge))
    else if ttl.None? then Outcome(c, Err(InvalidTtl))
    else if featureId !in scopes || scopes[featureId] == NO_SCOPE then Outcome(c, Err(InvalidFeature))
    else
      var p := Prune(c, now, failing);
      if !HasRoom(p.sessions, cfg, scopes[featureId], binding.actorId, |req.state|) then Outcome(p, Err(Capacity))
      else
        var id := PickId(p.sessions, gen, 0);
        if id.Err? then Outcome(p, Err(id.error))
        else
          var s := Session(id.value, featureId, scopes[featureId], binding, req.state, 1, now, now + ttl.value);
          var store := Saved(p, versions, s, None, failing);
          if store.None? then Outcome(p, Err(PersistenceFailed))
          else Outcome(p.(sessions := p.sessions[s.id := Entry(s, VersionOf(versions, featureId), None)],
                          store := store.value), Ok(s))
  }

  /** Creation with the generation check that follows publication, against the catalog as it is by then. */
  ghost function CreateChecked(c: Core, cfg: Config, versions: Versions, scopes: Scopes, scopes': Scopes, req: CreateRequest,
                               gen: seq<Option<string>>, now: Time, failing: set<string>): Outcome<Session>
  {
    var r := Create(c, cfg, versions, scopes, req, gen, now, failing);
    if r.result.Err? then r
    else
      var s := r.result.value;
      if s.featureId in scopes' && scopes'[s.featureId] == s.scope then r
      else Outcome(CancelIfScope(r.core, s.id, s.scope, failing), Err(ScopeStale))
  }

  /** The shared first half of every session operation: a snapshot of the live session. */
  function Lookup(c: Core, id: string, now: Time, failing: set<string>): Outcome<Session> {
    if !Tokens.ValidSessionId(id) then Outcome(c, Err(NotFound))
    else if c.closed then Outcome(c, Err(Closed))
    else if id !in c.sessions then Outcome(Prune(c, now, failing), Err(NotFound))
    else if c.sessions[id].session.expiresAt <= now then Outcome(Remove(c, id, failing), Err(SessionExpired))
    else Outcome(c, Ok(c.sessions[id].session))
  }

  /** The checks that open every second half; the snapshot may be out of date by then. */
  function Recheck(c: Core, snap: Session, now: Time, failing: set<string>): Outcome<Entry> {
    var id := snap.id;
    if id !in c.sessions || c.sessions[id].session.scope != snap.scope then Outcome(c, Err(NotFound))
    else if c.sessions[id].session.expiresAt <= now then Outcome(Remove(c, id, failing), Err(SessionExpired))
    else Outcome(c, Ok(c.sessions[id]))
  }

  /** Writes the entry through and installs it, or changes nothing. */
  function Install(c: Core, versions: Versions, e: Entry, failing: set<string>): Outcome<Session> {
    var store := Saved(c, versions, e.session, DeadlineOf(e.input), failing);
    if store.None? then Outcome(c, Err(PersistenceFailed))
    else Outcome(c.(sessions := c.sessions[e.session.id := e], store := store.value), Ok(e.session))
  }

  ghost predicate FitsBytes(m: Sessions, cfg: Config, e: Entry, state: seq<Byte>) {
    TotalBytes(m) - |e.session.state| + |state| <= cfg.maxTotalBytes
  }

  datatype StateRequest = StateRequest(revision: nat, state: seq<Byte>, ttl: int)

  /** A zero ttl keeps the session's deadline. */
  ghost function UpdateState(c: Core, cfg: Config, versions: Versions, snap: Session, req: StateRequest,
                             now: Time, failing: set<string>): Outcome<Session>
  {
    var ttl := NormalizeTtl(cfg, req.ttl);
    if |req.state| > cfg.maxStateBytes then Outcome(c, Err(StateTooLarge))
    else if req.revision == 0 then Outcome(c, Err(RevisionConflict))
    else if req.ttl != 0 && ttl.None? then Outcome(c, Err(InvalidTtl))
    else
      var r := Recheck(c, snap, now, failing);
      if r.result.Err? then Outcome(r.core, Err(r.result.error))
      else
        var e := r.result.value;
        if e.session.revision != req.revision then Outcome(c, Err(RevisionConflict))
        else if !FitsBytes(c.sessions, cfg, e, req.state) then Outcome(c, Err(Capacity))
        else
          var expiresAt := if req.ttl != 0 then now + ttl.value else e.session.expiresAt;
          var next := e.session.(state := req.state, revision := e.session.revision + 1, expiresAt := expiresAt);
          Install(c, versions, e.(session := next, input := None), failing)
  }

  function BindTarget(c: Core, versions: Versions, snap: Session, revision: nat, target: Target,
                      now: Time, failing: set<string>): Outcome<Session>
  {
    if revision == 0 then Outcome(c, Err(RevisionConflict))
    else if !Complete(target) then Outcome(c, Err(BadBinding))
    else
      var r := Recheck(c, snap, now, failing);
      if r.result.Err? then Outcome(r.core, Err(r.result.error))
      else
        var e := r.result.value;
        if e.session.revision != revision then Outcome(c, Err(RevisionConflict))
        else
          match WithTarget(e.session.binding, target)
          case Err(_) => Outcome(c, Err(AlreadyBound))
          case Ok(binding) => Install(c, versions, e.(session := e.session.(binding := binding)), failing)
  }

  function Touch(c: Core, cfg: Config, versions: Versions, snap: Session, ttl: int,
                 now: Time, failing: set<string>): Outcome<Session>
  {
    var t := NormalizeTtl(cfg, ttl);
    if t.None? then Outcome(c, Err(InvalidTtl))
    else
      var r := Recheck(c, snap, now, failing);
      if r.result.Err? then Outcome(r.core, Err(r.result.error))
      else
        var e := r.result.value;
        Install(c, versions, e.(session := e.session.(expiresAt := now + t.value)), failing)
  }

  // ----- input claims

  ghost predicate HeldBy(m: Sessions, key: InputKey, id: string) {
    id in m && m[id].input.Some? && m[id].input.value.key == key
  }

  /** The session that awaits input under the key. */
  ghost function Holder(m: Sessions, key: InputKey): (r: Option<string>)
    ensures r.Some? ==> HeldBy(m, key, r.value)
    ensures r.None? ==> forall id :: !HeldBy(m, key, id)
  {
    if id :| HeldBy(m, key, id) then Some(id) else None
  }

  function ClearInput(c: Core, id: string): Core
    requires id in c.sessions
  {
    c.(sessions := c.sessions[id := c.sessions[id].(input := None)])
  }

  /** Another session's claim on the key, as it stands at now. */
  ghost predicate Busy(m: Sessions, key: InputKey, id: string, now: Time) {
    var h := Holder(m, key);
    h.Some? && h.value != id && m[h.value].input.value.expiresAt > now
  }

  /** The core without another session's outdated claim on the key. */
  ghost function Vacated(c: Core, key: InputKey, id: string): Core {
    var h := Holder(c.sessions, key);
    if h.Some? && h.value != id then ClearInput(c, h.value) else c
  }

  function Earlier(a: Time, b: Time): Time {
    if a > b then b else a
  }

  ghost function ArmInput(c: Core, cfg: Config, versions: Versions, snap: Session, req: StateRequest,
                          now: Time, failing: set<string>): Outcome<Session>
  {
    var ttl := NormalizeTtl(cfg, req.ttl);
    var key := KeyOf(snap.binding);
    if |req.state| > cfg.maxStateBytes then Outcome(c, Err(StateTooLarge))
    else if req.revision == 0 then Outcome(c, Err(RevisionConflict))
    else if ttl.None? then Outcome(c, Err(InvalidTtl))
    else if key.None? then Outcome(c, Err(BadBinding))
    else
      var r := Recheck(c, snap, now, failing);
      if r.result.Err? then Outcome(r.core, Err(r.result.error))
      else
        var e := r.result.value;
        if e.session.revision != req.revision then Outcome(c, Err(RevisionConflict))
        else if Busy(c.sessions, key.value, snap.id, now) then Outcome(c, Err(InputBusy))
        else
          var v := Vacated(c, key.value, snap.id);
          if !FitsBytes(c.sessions, cfg, e, req.state) then Outcome(v, Err(Capacity))
          else
            var next := e.session.(state := req.state, revision := e.session.revision + 1);
            var claim := Claim(key.value, Earlier(now + ttl.value, next.expiresAt));
            Install(v, versions, e.(session := next, input := Some(claim)), failing)
  }

  /** Delivers the awaited input once; Ok(None) when nothing is awaited. */
  ghost function TakeInput(c: Core, versions: Versions, key: InputKey, now: Time, failing: set<string>): Outcome<Option<Session>> {
    var h := Holder(c.sessions, key);
    if key.actorId == 0 || key.chatId == 0 then Outcome(c, Err(BadBinding))
    else if c.closed then Outcome(c, Err(Closed))
    else if h.None? then Outcome(c, Ok(None))
    else
      var e := c.sessions[h.value];
      if e.input.value.expiresAt <= now then Outcome(ClearInput(c, h.value), Err(InputExpired))
      else if e.session.expiresAt <= now then Outcome(Remove(c, h.value, failing), Err(SessionExpired))
      else
        var r := Install(c, versions, e.(session := e.session.(revision := e.session.revision + 1), input := None), failing);
        Outcome(r.core, if r.result.Ok? then Ok(Some(r.result.value)) else Err(r.result.error))
  }

  /** Delivery with the generation check that follows it, against the catalog as it is by then. */
  ghost function TakeInputChecked(c: Core, versions: Versions, scopes: Scopes, key: InputKey, now: Time, failing: set<string>): Outcome<Option<Session>> {
    var r := TakeInput(c, versions, key, now, failing);
    if r.result.Err? || r.result.value.None? then r
    else
      var s := r.result.value.value;
      if s.featureId in scopes && scopes[s.featureId] == s.scope then r
      else Outcome(CancelIfScope(r.core, s.id, s.scope, failing), Err(ScopeStale))
  }

  function ReleaseInput(c: Core, versions: Versions, id: string, failing: set<string>): Outcome<bool> {
    if !Tokens.ValidSessionId(id) || id !in c.sessions || c.sessions[id].input.None? then Outcome(c, Ok(false))
    else
      var r := Install(c, versions, c.sessions[id].(input := None), failing);
      Outcome(r.core, Ok(r.result.Ok?))
  }

  // ----- restoring

  predicate Compatible(cfg: Config, versions: Versions, scopes: Scopes, row: Row, now: Time) {
    var s := row.session;
    && s.featureId in scopes && row.version != "" && row.version == VersionOf(versions, s.featureId)
    && s.expiresAt > now && Tokens.ValidSessionId(s.id) && s.revision != 0 && Valid(s.binding)
    && |s.state| <= cfg.maxStateBytes
  }

  function Rejected(c: Core, id: string, failing: set<string>): Outcome<bool> {
    if id in failing then Outcome(c, Err(PersistenceFailed)) else Outcome(c.(store := c.store - {id}), Ok(false))
  }

  /** One loaded row: restored, skipped or rejected; an error when a rejected row cannot be deleted. */
  ghost function RestoreRow(c: Core, cfg: Config, versions: Versions, scopes: Scopes, row: Row, now: Time,
                            failing: set<string>): Outcome<bool>
  {
    var s := row.session;
    if !Compatible(cfg, versions, scopes, row, now) then Rejected(c, s.id, failing)
    else if s.id in c.sessions then Outcome(c, Ok(false))
    else
      var scope := scopes[s.featureId];
      if !HasRoom(c.sessions, cfg, scope, s.binding.actorId, |s.state|) then Rejected(c, s.id, failing)
      else
        var session := s.(scope := scope);
        if row.inputExpires.Some? && row.inputExpires.value > now then
          var key := KeyOf(s.binding);
          if key.None? || Holder(c.sessions, key.value).Some? then Rejected(c, s.id, failing)
          else
            var claim := Claim(key.value, row.inputExpires.value);
            Outcome(c.(sessions := c.sessions[s.id := Entry(session, row.version, Some(claim))]), Ok(true))
        else
          Outcome(c.(sessions := c.sessions[s.id := Entry(session, row.version, None)]), Ok(true))
  }

  /** The first n rows, stopping at the first failed deletion. */
  ghost function RestoreRows(c: Core, cfg: Config, versions: Versions, scopes: Scopes, rows: seq<Row>, n: nat,
                             now: Time, failing: set<string>): Outcome<bool>
    requires n <= |rows|
  {
    if n == 0 then Outcome(c, Ok(true))
    else
      var r := RestoreRows(c, cfg, versions, scopes, rows, n - 1, now, failing);
      if r.result.Err? then r else RestoreRow(r.core, cfg, versions, scopes, rows[n - 1], now, failing)
  }

  /** `loaded` is None when the store cannot be read. */
  ghost function RestoreDurable(c: Core, cfg: Config, versions: Versions, scopes: Scopes, loaded: Option<seq<Row>>,
                                now: Time, failing: set<string>): Outcome<bool>
  {
    if c.closed then Outcome(c, Err(Closed))
    else if !c.durable then Outcome(c, Ok(true))
    else if loaded.None? then Outcome(c, Err(PersistenceFailed))
    else RestoreRows(c, cfg, versions, scopes, loaded.value, |loaded.value|, now, failing)
  }
}
