/** The in-memory idempotency table: two-phase claims fenced by per-claim tokens. */
module Idempotency {
  import opened Prelude
  import opened Text

  const DEFAULT_TTL: int := 600_000_000_000

  datatype Status = Accepted | Processing | Reserved

  datatype Claim = Claim(token: string, status: Status, createdAt: Time, expiresAt: Time)

  type Table = map<string, Claim>

  datatype Fault = EmptyKey | TokenSource | NotOwned

  function Window(ttl: int): int {
    if ttl <= 0 then DEFAULT_TTL else ttl
  }

  /** A claim suppresses duplicates strictly before its expiry. */
  predicate Held(t: Table, key: string, now: Time) {
    key in t && now < t[key].expiresAt
  }

  predicate Owns(t: Table, key: string, token: string) {
    key in t && t[key].status != Accepted && t[key].token == token
  }

  predicate MayAdvance(t: Table, key: string, token: string) {
    Owns(t, key, token) && t[key].status == Processing
  }

  function Begun(t: Table, key: string, token: string, now: Time, ttl: int): Table {
    t[key := Claim(token, Processing, now, now + Window(ttl))]
  }

  function Marked(t: Table, key: string, now: Time, ttl: int): Table {
    t[key := Claim("", Accepted, now, now + Window(ttl))]
  }

  function AcceptedTable(t: Table, key: string, now: Time, ttl: int): Table
    requires key in t
  {
    t[key := t[key].(token := "", status := Accepted, expiresAt := now + Window(ttl))]
  }

  function ReservedTable(t: Table, key: string, now: Time, ttl: int): Table
    requires key in t
  {
    t[key := t[key].(status := Reserved, expiresAt := now + Window(ttl))]
  }

  function Evicted(t: Table, now: Time): Table {
    map k | k in t && now <= t[k].expiresAt :: t[k]
  }

  // ----- the manager and its handles

  class Manager {
    var entries: Table

    constructor ()
      ensures entries == map[]
    {
      entries := map[];
    }

    /** A new processing claim, unless an unexpired one of any status is in the way. */
    method Begin(key: string, token: Option<string>, now: Time, ttl: int)
      returns (r: Result<Option<ExecutionClaim>, Fault>)
      modifies this
      ensures r.Err? || r.value.None? ==> entries == old(entries)
      ensures r.Err? <==> Trim(key) == "" || token.None?
      ensures r.Ok? ==> (r.value.Some? <==> !Held(old(entries), Trim(key), now))
      ensures r.Ok? && r.value.Some? ==>
        var c := r.value.value;
        && fresh(c) && c.manager == this && c.key == Trim(key) && c.token == token.value && !c.done
        && entries == Begun(old(entries), Trim(key), token.value, now, ttl)
    {
      var cleanKey := Trim(key);
      if cleanKey == "" {
        return Err(EmptyKey);
      }
      if token.None? {
        return Err(TokenSource);
      }
      var expiresAt := now + Window(ttl);
      if cleanKey in entries && now < entries[cleanKey].expiresAt {
        return Ok(None);
      }
      entries := entries[cleanKey := Claim(token.value, Processing, now, expiresAt)];
      var c := new ExecutionClaim(this, cleanKey, token.value);
      return Ok(Some(c));
    }

    /** The one-step form: records the key as processed unless it already is. */
    method CheckAndSet(key: string, now: Time, ttl: int) returns (r: Result<bool, Fault>)
      modifies this
      ensures r.Err? <==> Trim(key) == ""
      ensures r.Ok? ==> (r.value <==> !Held(old(entries), Trim(key), now))
      ensures entries == if r == Ok(true) then Marked(old(entries), Trim(key), now, ttl) else old(entries)
    {
      var cleanKey := Trim(key);
      if cleanKey == "" {
        return Err(EmptyKey);
      }
      if cleanKey in entries {
        if now < entries[cleanKey].expiresAt {
          return Ok(false);
        }
      }
      entries := entries[cleanKey := Claim("", Accepted, now, now + Window(ttl))];
      return Ok(true);
    }

    /** Drops exactly the claims whose expiry lies before now. */
    method EvictExpired(now: Time)
      modifies this
      ensures entries == Evicted(old(entries), now)
      ensures forall k :: k in entries <==> k in old(entries) && now <= old(entries)[k].expiresAt
      ensures forall k :: k in entries ==> entries[k] == old(entries)[k]
    {
      var keys := entries.Keys;
      while keys != {}
        invariant keys <= old(entries).Keys
        invariant forall k :: k in keys ==> k in entries
        invariant forall k :: k in entries ==> k in old(entries) && entries[k] == old(entries)[k]
        invariant forall k :: k in old(entries) && k !in keys ==> (k in entries <==> now <= old(entries)[k].expiresAt)
        decreases |keys|
      {
        var k :| k in keys;
        if now > entries[k].expiresAt {
          entries := entries - {k};
        }
        keys := keys - {k};
      }
    }

    method IsProcessed(key: string, now: Time) returns (processed: bool)
      ensures processed <==> Trim(key) != "" && Held(entries, Trim(key), now)
    {
      var cleanKey := Trim(key);
      if cleanKey == "" {
        return false;
      }
      processed := cleanKey in entries && now < entries[cleanKey].expiresAt;
    }
  }

  class ExecutionClaim {
    const manager: Manager
    const key: string
    const token: string
    var done: bool

    constructor (m: Manager, k: string, t: string)
      ensures manager == m && key == k && token == t && !done
    {
      manager, key, token, done := m, k, t, false;
    }

    /** Commits a processing claim; a settled handle does nothing. */
    method Accept(now: Time, ttl: int) returns (fault: Option<Fault>)
      modifies this, manager
      ensures fault.Some? <==> !old(done) && !MayAdvance(old(manager.entries), key, token)
      ensures done == fault.None?
      ensures manager.entries == if !old(done) && fault.None? then AcceptedTable(old(manager.entries), key, now, ttl)
                                 else old(manager.entries)
    {
      if done {
        return None;
      }
      if key !in manager.entries || manager.entries[key].status != Processing || manager.entries[key].token != token {
        return Some(NotOwned);
      }
      var current := manager.entries[key].(status := Accepted, token := "", expiresAt := now + Window(ttl));
      manager.entries := manager.entries[key := current];
      done := true;
      return None;
    }

    /** Fences a processing claim before its work is submitted; the handle stays usable for a release. */
    method Reserve(now: Time, ttl: int) returns (fault: Option<Fault>)
      modifies manager
      ensures fault.Some? <==> done || !MayAdvance(old(manager.entries), key, token)
      ensures manager.entries == if fault.None? then ReservedTable(old(manager.entries), key, now, ttl)
                                 else old(manager.entries)
    {
      if done {
        return Some(NotOwned);
      }
      if key !in manager.entries || manager.entries[key].status != Processing || manager.entries[key].token != token {
        return Some(NotOwned);
      }
      var current := manager.entries[key].(status := Reserved, expiresAt := now + Window(ttl));
      manager.entries := manager.entries[key := current];
      return None;
    }

    /** Gives the key back, unless the claim is accepted or somebody else's. */
    method Release() returns (fault: Option<Fault>)
      modifies this, manager
      ensures fault.Some? <==> !old(done) && !Owns(old(manager.entries), key, token)
      ensures done == fault.None?
      ensures manager.entries == if !old(done) && fault.None? then old(manager.entries) - {key}
                                 else old(manager.entries)
    {
      if done {
        return None;
      }
      if key !in manager.entries
         || (manager.entries[key].status != Processing && manager.entries[key].status != Reserved)
         || manager.entries[key].token != token {
        return Some(NotOwned);
      }
      manager.entries := manager.entries - {key};
      done := true;
      return None;
    }
  }

  // ----- runs

  datatype Handle = Handle(key: string, done: bool)

  /** The table and every handle ever given out, by token. */
  datatype World = World(table: Table, handles: map<string, Handle>)

  /** One locked region each. Handles are named by their tokens. */
  datatype Step =
    | Begin(key: string, token: string, now: Time, ttl: int)
    | CheckAndSet(key: string, now: Time, ttl: int)
    | Accept(token: string, now: Time, ttl: int)
    | Reserve(token: string, now: Time, ttl: int)
    | Release(token: string)
    | Evict(now: Time)

  /** Tokens are random and never repeat; handle operations need a handle. */
  predicate Enabled(w: World, s: Step) {
    match s
    case Begin(_, token, _, _) => token != "" && token !in w.handles
    case Accept(token, _, _) => token in w.handles
    case Reserve(token, _, _) => token in w.handles
    case Release(token) => token in w.handles
    case _ => true
  }

  function Next(w: World, s: Step): World
    requires Enabled(w, s)
  {
    match s
    case Begin(key, token, now, ttl) =>
      if Held(w.table, key, now) then w
      else World(Begun(w.table, key, token, now, ttl), w.handles[token := Handle(key, false)])
    case CheckAndSet(key, now, ttl) =>
      if Held(w.table, key, now) then w else w.(table := Marked(w.table, key, now, ttl))
    case Accept(token, now, ttl) =>
      var h := w.handles[token];
      if h.done || !MayAdvance(w.table, h.key, token) then w
      else World(AcceptedTable(w.table, h.key, now, ttl), w.handles[token := h.(done := true)])
    case Reserve(token, now, ttl) =>
      var h := w.handles[token];
      if h.done || !MayAdvance(w.table, h.key, token) then w
      else w.(table := ReservedTable(w.table, h.key, now, ttl))
    case Release(token) =>
      var h := w.handles[token];
      if h.done || !Owns(w.table, h.key, token) then w
      else World(w.table - {h.key}, w.handles[token := h.(done := true)])
    case Evict(now) => w.(table := Evicted(w.table, now))
  }

  /** Unsettled claims belong to the unsettled handle of their token, for that very key. */
  ghost predicate WorldOk(w: World) {
    && "" !in w.handles
    && (forall k :: k in w.table && w.table[k].status == Accepted ==> w.table[k].token == "")
    && (forall k :: k in w.table && w.table[k].status != Accepted ==>
          w.table[k].token in w.handles && w.handles[w.table[k].token] == Handle(k, false))
  }

  ghost predicate Run(ws: seq<World>, steps: seq<Step>) {
    && |ws| == |steps| + 1
    && (forall i :: 0 <= i < |steps| ==> Enabled(ws[i], steps[i]) && ws[i + 1] == Next(ws[i], steps[i]))
  }

  lemma NextOk(w: World, s: Step)
    requires WorldOk(w) && Enabled(w, s)
    ensures WorldOk(Next(w, s))
    ensures forall token :: token in w.handles ==>
      token in Next(w, s).handles && Next(w, s).handles[token].key == w.handles[token].key
  {
  }

  lemma {:induction false} RunOk(ws: seq<World>, steps: seq<Step>, n: nat)
    requires Run(ws, steps) && WorldOk(ws[0]) && n < |ws|
    ensures WorldOk(ws[n])
    ensures forall token :: token in ws[0].handles ==>
      token in ws[n].handles && ws[n].handles[token].key == ws[0].handles[token].key
  {
    if n > 0 {
      RunOk(ws, steps, n - 1);
      NextOk(ws[n - 1], steps[n - 1]);
    }
  }

  /** The claim a handle was given is settled, expired away, or replaced. */
  predicate Lost(w: World, token: string) {
    token in w.handles && !Owns(w.table, w.handles[token].key, token)
  }

  predicate ByHandle(s: Step, token: string) {
    || (s.Accept? && s.token == token)
    || (s.Reserve? && s.token == token)
    || (s.Release? && s.token == token)
  }

  /** A new claim on the key, whoever makes it. */
  predicate Claims(w: World, s: Step, key: string) {
    || (s.Begin? && s.key == key && !Held(w.table, key, s.now))
    || (s.CheckAndSet? && s.key == key && !Held(w.table, key, s.now))
  }

  lemma LostStays(w: World, s: Step, token: string)
    requires WorldOk(w) && Enabled(w, s) && Lost(w, token)
    ensures Lost(Next(w, s), token)
    ensures ByHandle(s, token) ==> Next(w, s) == w
  {
  }

  /** Once the key is claimed anew, the old handle never changes the table again, in any run that follows. */
  lemma {:induction false} OldHandleIsFenced(ws: seq<World>, steps: seq<Step>, token: string, n: nat)
    requires Run(ws, steps) && WorldOk(ws[0]) && 0 < n <= |steps|
    requires token in ws[0].handles && Claims(ws[0], steps[0], ws[0].handles[token].key)
    ensures Lost(ws[n], token)
    ensures n < |steps| && ByHandle(steps[n], token) ==> ws[n + 1] == ws[n]
  {
    RunOk(ws, steps, n);
    if n > 1 {
      RunOk(ws, steps, n - 1);
      OldHandleIsFenced(ws, steps, token, n - 1);
      LostStays(ws[n - 1], steps[n - 1], token);
    }
    if n < |steps| {
      LostStays(ws[n], steps[n], token);
    }
  }

  /** The holder gives the key back, or the claim's current expiry has come at the step's own time. */
  predicate Ends(w: World, s: Step, key: string) {
    key in w.table &&
    match s
    case Release(token) => w.table[key].status != Accepted && token == w.table[key].token
    case Evict(now) => now > w.table[key].expiresAt
    case Begin(k, _, now, _) => k == key && now >= w.table[key].expiresAt
    case CheckAndSet(k, now, _) => k == key && now >= w.table[key].expiresAt
    case _ => false
  }

  /** A claim survives every step that does not end it, and only its own holder can change it meanwhile. */
  lemma ClaimPersists(w: World, s: Step, key: string)
    requires WorldOk(w) && Enabled(w, s) && key in w.table && !Ends(w, s, key)
    ensures !Claims(w, s, key)
    ensures key in Next(w, s).table && Next(w, s).table[key].createdAt == w.table[key].createdAt
    ensures Next(w, s).table[key] != w.table[key] ==>
      w.table[key].status == Processing && ByHandle(s, w.table[key].token)
    ensures w.table[key].status == Accepted ==> Next(w, s).table[key] == w.table[key]
  {
  }

  /** A second claim on a key succeeds only after the first was released or its current expiry passed. */
  lemma {:induction false} SecondClaimWaits(ws: seq<World>, steps: seq<Step>, key: string, n: nat) returns (i: nat)
    requires Run(ws, steps) && WorldOk(ws[0]) && key in ws[0].table
    requires n < |steps| && Claims(ws[n], steps[n], key)
    ensures i <= n && key in ws[i].table && Ends(ws[i], steps[i], key)
    ensures forall j :: 0 <= j <= i ==> key in ws[j].table && ws[j].table[key].createdAt == ws[0].table[key].createdAt
  {
    i := 0;
    while !Ends(ws[i], steps[i], key)
      invariant i <= n && WorldOk(ws[i])
      invariant forall j :: 0 <= j <= i ==> key in ws[j].table && ws[j].table[key].createdAt == ws[0].table[key].createdAt
      decreases n - i
    {
      ClaimPersists(ws[i], steps[i], key);
      NextOk(ws[i], steps[i]);
      i := i + 1;
    }
  }

  /** The step sets the key's window: a new claim, or its holder accepting or reserving it. */
  predicate SetsWindow(w: World, s: Step, key: string) {
    || Claims(w, s, key)
    || (s.Accept? && s.token in w.handles && w.handles[s.token] == Handle(key, false) && MayAdvance(w.table, key, s.token))
    || (s.Reserve? && s.token in w.handles && w.handles[s.token] == Handle(key, false) && MayAdvance(w.table, key, s.token))
  }

  /** The window lasts as long as asked for, and ten minutes where nothing positive was. */
  lemma WindowIsSet(w: World, s: Step, key: string)
    requires Enabled(w, s) && SetsWindow(w, s, key)
    ensures key in Next(w, s).table
    ensures Next(w, s).table[key].expiresAt == s.now + if s.ttl > 0 then s.ttl else 10 * 60 * 1_000_000_000
  {
  }

  /** Until its claim ends, whoever began it can still accept, reserve or release it. */
  lemma {:induction false} HolderMayAct(ws: seq<World>, steps: seq<Step>, n: nat)
    requires Run(ws, steps) && WorldOk(ws[0]) && 0 < n < |ws|
    requires steps[0].Begin? && Claims(ws[0], steps[0], steps[0].key)
    requires forall i :: 0 < i < n ==> !Ends(ws[i], steps[i], steps[0].key) && !ByHandle(steps[i], steps[0].token)
    ensures var (key, token) := (steps[0].key, steps[0].token);
            && MayAdvance(ws[n].table, key, token) && token in ws[n].handles && ws[n].handles[token] == Handle(key, false)
  {
    if n > 1 {
      HolderMayAct(ws, steps, n - 1);
      RunOk(ws, steps, n - 1);
      ClaimPersists(ws[n - 1], steps[n - 1], steps[0].key);
    }
  }

  /** What the holder's operations make of the claim; a reservation can still be released. */
  lemma HolderActs(w: World, s: Step, key: string, token: string)
    requires ByHandle(s, token) && token in w.handles && w.handles[token] == Handle(key, false) && Owns(w.table, key, token)
    requires s.Release? || w.table[key].status == Processing
    ensures var w' := Next(w, s);
            && token in w'.handles
            && (s.Accept? ==> key in w'.table && w'.table[key].status == Accepted && w'.handles[token].done)
            && (s.Reserve? ==> Owns(w'.table, key, token) && w'.table[key].status == Reserved && w'.handles == w.handles)
            && (s.Release? ==> w'.table == w.table - {key} && w'.handles[token].done)
  {
  }

  /** The step tries to claim the key at this time. */
  predicate Tries(s: Step, key: string, now: Time) {
    (s.Begin? || s.CheckAndSet?) && s.key == key && s.now == now
  }

  /** The key stays claimed as it is, or has been evicted past its expiry. */
  lemma {:induction false} WindowStays(ws: seq<World>, steps: seq<Step>, key: string, n: nat, until: Time, latest: Time)
    requires Run(ws, steps) && WorldOk(ws[0]) && n < |ws| && key in ws[0].table && ws[0].table[key].expiresAt == until
    requires forall i :: 0 <= i < n ==>
      !SetsWindow(ws[i], steps[i], key) && (steps[i].Release? ==> steps[i].token != ws[0].table[key].token) && (!steps[i].Release? ==> steps[i].now <= latest)
    ensures key in ws[n].table ==> ws[n].table[key] == ws[0].table[key]
    ensures key !in ws[n].table ==> latest > until
  {
    if n > 0 {
      WindowStays(ws, steps, key, n - 1, until, latest);
      RunOk(ws, steps, n - 1);
    }
  }

  /**
   * A window blocks every claim before it ends and none after: as long as nobody sets it anew and its holder does not
   * give the key back, an attempt no earlier than the steps before it succeeds exactly from its end on.
   */
  lemma BlocksExactlyUntil(ws: seq<World>, steps: seq<Step>, key: string, n: nat, now: Time)
    requires Run(ws, steps) && WorldOk(ws[0]) && n < |steps| && key in ws[0].table && Tries(steps[n], key, now)
    requires forall i :: 0 <= i < n ==>
      !SetsWindow(ws[i], steps[i], key) && (steps[i].Release? ==> steps[i].token != ws[0].table[key].token) && (!steps[i].Release? ==> steps[i].now <= now)
    ensures Claims(ws[n], steps[n], key) <==> now >= ws[0].table[key].expiresAt
  {
    WindowStays(ws, steps, key, n, ws[0].table[key].expiresAt, now);
  }

  /** A release has no time of its own. */
  predicate StrictlyBefore(s: Step, t: Time) {
    s.Release? || s.now < t
  }

  /** An accepted claim is never removed by a release: it stays as it is until its expiry comes. */
  lemma {:induction false} AcceptedStays(ws: seq<World>, steps: seq<Step>, key: string, n: nat)
    requires Run(ws, steps) && WorldOk(ws[0]) && n < |ws|
    requires key in ws[0].table && ws[0].table[key].status == Accepted
    requires forall i :: 0 <= i < n ==> StrictlyBefore(steps[i], ws[0].table[key].expiresAt)
    ensures key in ws[n].table && ws[n].table[key] == ws[0].table[key]
    ensures n < |steps| && StrictlyBefore(steps[n], ws[0].table[key].expiresAt) ==> !Claims(ws[n], steps[n], key)
  {
    RunOk(ws, steps, n);
    if n > 0 {
      AcceptedStays(ws, steps, key, n - 1);
      RunOk(ws, steps, n - 1);
      ClaimPersists(ws[n - 1], steps[n - 1], key);
    }
  }
}
