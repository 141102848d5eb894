/** The interaction runtime as it is written: a session table with its indexes, updated in place under one lock. */
module InteractionRuntime {
  import opened Prelude
  import opened Text
  import opened Bindings
  import opened IndexedHeaps
  import opened InteractionModel
  import opened InteractionBounds
  import opened InteractionRuns
  import opened InteractionIndexes
  import Model = InteractionModel
  import Tokens = CallbackTokens

  /** Removing one more session. */
  lemma RemoveOneMore(c: Core, ids: set<string>, id: string, failing: set<string>)
    ensures Remove(RemoveMany(c, ids, failing), id, failing) == RemoveMany(c, ids + {id}, failing)
  {
    var p := RemoveMany(c, ids, failing);
    var q := Remove(p, id, failing);
    var r := RemoveMany(c, ids + {id}, failing);
    assert q.sessions == r.sessions;
    assert q.store == r.store;
  }

  lemma RemoveNone(c: Core, failing: set<string>)
    ensures RemoveMany(c, {}, failing) == c
  {
    assert Gone(c, {}, failing) == {};
  }

  lemma RemoveAbsent(c: Core, id: string, failing: set<string>)
    requires id !in c.sessions
    ensures Remove(c, id, failing) == c
  {
    assert Gone(c, {id}, failing) == {};
  }

  lemma RemovePresent(c: Core, id: string, failing: set<string>)
    requires id in c.sessions
    ensures Remove(c, id, failing) ==
      if !Deletes(c, id) then c.(sessions := c.sessions - {id})
      else if id in failing then c
      else c.(sessions := c.sessions - {id}, store := c.store - {id})
  {
    var r := Remove(c, id, failing);
    if Deletes(c, id) && id in failing {
      assert Gone(c, {id}, failing) == {};
    } else {
      assert Gone(c, {id}, failing) == {id};
      assert (set k | k in {id} && Deletes(c, k)) == if Deletes(c, id) then {id} else {};
    }
  }

  lemma GoneSize(c: Core, ids: set<string>, failing: set<string>)
    ensures |RemoveMany(c, ids, failing).sessions| == |c.sessions| - |Gone(c, ids, failing)|
  {
    var gone := Gone(c, ids, failing);
    assert (c.sessions - gone).Keys == c.sessions.Keys - gone;
    assert gone <= c.sessions.Keys;
  }

  lemma PruneSize(c: Core, now: Time, failing: set<string>)
    ensures |Model.Prune(c, now, failing).sessions| == |c.sessions| - |Gone(c, ExpiredIds(c.sessions, now), failing)|
  {
    hide RemoveMany, Gone, ExpiredIds;
    GoneSize(c, ExpiredIds(c.sessions, now), failing);
  }

  /** How many sessions a set of removals takes away, and whether a row stands in the way of one. */
  ghost predicate RemovalCounted(c: Core, ids: set<string>, failing: set<string>, removed: int, failed: bool) {
    && removed == |Gone(c, ids, failing)|
    && (failed <==> exists id :: id in ids && id in c.sessions && Deletes(c, id) && id in failing)
  }

  lemma NoRemoval(c: Core, failing: set<string>)
    ensures RemovalCounted(c, {}, failing, 0, false)
  {
    assert Gone(c, {}, failing) == {};
  }

  lemma OneMoreRemoval(c: Core, ids: set<string>, id: string, failing: set<string>, removed: int, failed: bool)
    requires RemovalCounted(c, ids, failing, removed, failed) && id in c.sessions && id !in ids
    ensures var bad := Deletes(c, id) && id in failing;
            RemovalCounted(c, ids + {id}, failing, if bad then removed else removed + 1, failed || bad)
  {
    var bad := Deletes(c, id) && id in failing;
    assert Gone(c, ids + {id}, failing) == if bad then Gone(c, ids, failing) else Gone(c, ids, failing) + {id};
    assert bad ==> id in ids + {id} && id in c.sessions;
  }

  lemma DropAfterPut(m: Sessions, id: string, e: Entry)
    ensures m[id := e] - {id} == m - {id}
  {
  }

  function Ids(items: seq<Item>): set<string> {
    set i | 0 <= i < |items| :: items[i].id
  }

  lemma IdsSplit(items: seq<Item>, k: nat)
    requires k < |items| && forall i, j :: 0 <= i < j < |items| ==> items[i].id != items[j].id
    ensures Ids(items[k..]) == Ids(items[k + 1..]) + {items[k].id}
    ensures items[k].id !in Ids(items[k + 1..])
  {
    var t, u := items[k..], items[k + 1..];
    assert t[0] == items[k] && t[0].id in Ids(t);
    assert forall i :: 0 <= i < |u| ==> u[i] == t[i + 1] && u[i] == items[k + 1 + i];
    forall id | id in Ids(t)
      ensures id in Ids(u) + {items[k].id}
    {
      var i :| 0 <= i < |t| && t[i].id == id;
      assert i > 0 ==> u[i - 1].id == id;
    }
    forall id | id in Ids(u)
      ensures id in Ids(t)
    {
      var i :| 0 <= i < |u| && u[i].id == id;
      assert t[i + 1].id == id;
    }
  }

  lemma NoIds(items: seq<Item>)
    requires |items| == 0
    ensures Ids(items) == {}
  {
  }

  /** Pruning so far: `done` has been tried, and `retry` is what could not be removed. */
  ghost predicate PruneInv(before: Core, c: Core, done: set<string>, retry: seq<Item>, now: Time, failing: set<string>) {
    && c == RemoveMany(before, done, failing)
    && done <= ExpiredIds(before.sessions, now)
    && Ids(retry) <= done
    && (forall i, j :: 0 <= i < j < |retry| ==> retry[i].id != retry[j].id)
    && (forall i :: 0 <= i < |retry| ==> retry[i].id in c.sessions && retry[i].due == c.sessions[retry[i].id].session.expiresAt)
  }

  lemma PruneStart(c: Core, now: Time, failing: set<string>)
    ensures PruneInv(c, c, {}, [], now, failing) && Ids([]) == {}
  {
    RemoveNone(c, failing);
  }

  lemma IdsAppend(items: seq<Item>, item: Item)
    ensures Ids(items + [item]) == Ids(items) + {item.id}
  {
    var longer := items + [item];
    assert longer[|items|].id in Ids(longer);
    forall id | id in Ids(items)
      ensures id in Ids(longer)
    {
      var i :| 0 <= i < |items| && items[i].id == id;
      assert longer[i].id == id;
    }
  }

  lemma PruneStep(before: Core, c: Core, done: set<string>, retry: seq<Item>, item: Item, now: Time, failing: set<string>)
    requires PruneInv(before, c, done, retry, now, failing)
    requires item.id in c.sessions && item.id !in Ids(retry) && c.sessions[item.id].session.expiresAt == item.due <= now
    ensures var d := Remove(c, item.id, failing);
            var failed := Deletes(c, item.id) && item.id in failing;
            && PruneInv(before, d, done + {item.id}, if failed then retry + [item] else retry, now, failing)
            && (!failed ==> item.id !in d.sessions)
            && Ids(retry + [item]) == Ids(retry) + {item.id}
  {
    hide RemoveMany, Ids;
    RemoveOneMore(before, done, item.id, failing);
    RemovePresent(c, item.id, failing);
    RemovedKeeps(before, done, failing);
    IdsListed(retry);
    IdsAppend(retry, item);
  }

  lemma IdsListed(items: seq<Item>)
    ensures forall i :: 0 <= i < |items| ==> items[i].id in Ids(items)
  {
  }

  lemma ScopeMember(m: Sessions, scope: Scope, id: string)
    requires id in InScope(m, scope)
    ensures id in m
  {
  }

  lemma RemovedKeeps(c: Core, ids: set<string>, failing: set<string>)
    ensures var r := RemoveMany(c, ids, failing);
            && r.durable == c.durable && r.preserve == c.preserve
            && (forall id :: id in r.sessions ==> id in c.sessions && r.sessions[id] == c.sessions[id])
            && (forall id :: id in c.sessions && id !in ids ==> id in r.sessions)
  {
  }

  /** With nothing due left in the heap, everything expired has been tried. */
  lemma PruneDone(before: Core, c: Core, done: set<string>, retry: seq<Item>, now: Time, failing: set<string>)
    requires PruneInv(before, c, done, retry, now, failing)
    requires forall id :: id in c.sessions && id !in Ids(retry) ==> c.sessions[id].session.expiresAt > now
    ensures c == Model.Prune(before, now, failing)
  {
    hide RemoveMany;
    RemovedKeeps(before, done, failing);
    assert done == ExpiredIds(before.sessions, now);
  }

  lemma RetriesStand(before: Core, c: Core, done: set<string>, retry: seq<Item>, now: Time, failing: set<string>)
    requires PruneInv(before, c, done, retry, now, failing)
    ensures forall i, j :: 0 <= i < j < |retry| ==> retry[i].id != retry[j].id
    ensures forall i :: 0 <= i < |retry| ==> retry[i].id in c.sessions && retry[i].due == c.sessions[retry[i].id].session.expiresAt
  {
    hide RemoveMany;
  }

  /** Claims under the remaining keys are still to be looked at; the others are unexpired. */
  ghost predicate ClaimsPruned(before: Sessions, m: Sessions, keys: set<InputKey>, now: Time) {
    && m.Keys == before.Keys
    && (forall id :: id in m ==>
          && (m[id] == before[id] || m[id] == before[id].(input := LiveInput(before[id].input, now)))
          && (m[id].input.Some? && m[id].input.value.key !in keys ==> m[id].input.value.expiresAt > now))
  }

  lemma ClaimsUnpruned(m: Sessions, i: InputIndex, now: Time)
    requires InputsOk(m, i)
    ensures ClaimsPruned(m, m, i.Keys, now)
  {
  }

  /** An indexed key is held by the session it names, so the entry is there and its claim matches. */
  lemma ClaimPruned(before: Sessions, m: Sessions, i: InputIndex, keys: set<InputKey>, key: InputKey, now: Time)
    requires InputsOk(m, i) && key in i && key in keys && ClaimsPruned(before, m, keys, now)
    ensures HeldBy(m, key, i[key])
    ensures m[i[key]].input.value.expiresAt <= now ==> i[key] in LapsedIds(m, now)
    ensures var e := m[i[key]];
            ClaimsPruned(before, if e.input.value.expiresAt <= now then m[i[key] := e.(input := None)] else m, keys - {key}, now)
  {
  }

  lemma AllClaimsPruned(before: Sessions, m: Sessions, now: Time)
    requires ClaimsPruned(before, m, {}, now)
    ensures m == map id | id in before :: before[id].(input := LiveInput(before[id].input, now))
    ensures LapsedIds(m, now) == {}
  {
  }

  lemma OneClaimFewer(m: Sessions, id: string, now: Time)
    requires id in LapsedIds(m, now)
    ensures |LapsedIds(m[id := m[id].(input := None)], now)| == |LapsedIds(m, now)| - 1
  {
    assert LapsedIds(m[id := m[id].(input := None)], now) == LapsedIds(m, now) - {id};
  }

  lemma VacatedStands(c: Core, key: InputKey, id: string)
    requires id in c.sessions
    ensures var v := Vacated(c, key, id);
            && v == c.(sessions := v.sessions) && id in v.sessions && v.sessions[id] == c.sessions[id]
  {
  }

  /** Once its only holder lets go, a key is free. */
  lemma LetGo(m: Sessions, n: Sessions, key: InputKey, id: string, e: Entry)
    requires n == m[id := e] && e.input.None? && forall k :: HeldBy(m, key, k) ==> k == id
    ensures forall k :: !HeldBy(n, key, k)
  {
    assert forall k :: k != id && HeldBy(n, key, k) ==> HeldBy(m, key, k);
  }

  lemma CompatibleScope(cfg: Config, versions: Versions, scopes: Scopes, row: Row, now: Time)
    ensures Compatible(cfg, versions, scopes, row, now) ==> row.session.featureId in scopes
  {
  }

  /** A failed row ends the restore with its error. */
  lemma {:induction false} RestoreStops(c: Core, cfg: Config, versions: Versions, scopes: Scopes, rows: seq<Row>, k: nat, n: nat,
                                        now: Time, failing: set<string>)
    requires k <= n <= |rows| && RestoreRows(c, cfg, versions, scopes, rows, k, now, failing).result.Err?
    ensures RestoreRows(c, cfg, versions, scopes, rows, n, now, failing) == RestoreRows(c, cfg, versions, scopes, rows, k, now, failing)
  {
    hide Model.RestoreRow;
    if k < n {
      RestoreStops(c, cfg, versions, scopes, rows, k, n - 1, now, failing);
    }
  }

  class Runtime {
    const cfg: Config
    var closed: bool
    var preserve: bool
    var durable: bool
    var store: Store
    var sessions: Sessions
    var byScope: ScopeIndex
    var actorCounts: ActorIndex
    var expiries: IndexedHeap
    var inputs: InputIndex
    var stateBytes: int

    ghost predicate ValidBut(missing: set<string>)
      reads this, expiries
    {
      expiries.Valid() && Indexed(sessions, byScope, actorCounts, expiries.contents, inputs, stateBytes, missing)
    }

    /** Every index describes the session table. */
    ghost predicate Valid()
      reads this, expiries
    {
      ValidBut({})
    }

    function View(): Core
      reads this
    {
      Core(closed, preserve, durable, sessions, store)
    }

    constructor (config: Config, persistent: bool, rows: Store)
      ensures Valid() && fresh(expiries) && cfg == config
      ensures View() == Core(false, false, persistent, map[], rows)
    {
      var heap := new IndexedHeap();
      cfg, closed, preserve, durable, store := config, false, false, persistent, rows;
      NothingIndexed();
      sessions, byScope, actorCounts, expiries, inputs, stateBytes := map[], map[], map[], heap, map[], 0;
    }

    // ----- helpers under the lock

    method CheckCapacity(scope: Scope, actorId: int, bytes: nat) returns (room: bool)
      requires Valid()
      ensures room <==> HasRoom(sessions, cfg, scope, actorId, bytes)
    {
      hide TotalBytes, ScopesOk, ActorsOk, InputsOk, ScopeIds;
      ScopeIdsExact(sessions, byScope, scope);
      if actorId != 0 {
        ActorCountExact(sessions, actorCounts, actorId);
      }
      if |sessions| >= cfg.maxSessions {
        return false;
      }
      if |ScopeIds(byScope, scope)| >= cfg.maxPerScope {
        return false;
      }
      if actorId != 0 && Get(actorCounts, actorId) >= cfg.maxPerActor {
        return false;
      }
      room := stateBytes + bytes <= cfg.maxTotalBytes;
    }

    method SaveDurable(versions: Versions, s: Session, inputExpires: Option<Time>, failing: set<string>) returns (ok: bool)
      modifies this`store
      ensures var r := Saved(old(View()), versions, s, inputExpires, failing);
              ok == r.Some? && store == if ok then r.value else old(store)
    {
      if !durable {
        return true;
      }
      var version := VersionOf(versions, s.featureId);
      if version == "" {
        return true;
      }
      if s.id in failing {
        return false;
      }
      store := store[s.id := Row(s, version, inputExpires)];
      return true;
    }

    /** Enters a new session into the table and every index. */
    method Publish(e: Entry)
      requires Valid() && e.session.id !in sessions && (e.input.Some? ==> e.input.value.key !in inputs)
      modifies this`sessions, this`byScope, this`actorCounts, this`inputs, this`stateBytes, expiries
      ensures Valid() && sessions == old(sessions)[e.session.id := e]
    {
      hide Indexed, AddScope, AddActor;
      var id := e.session.id;
      NotDue(id, {});
      IndexedAdd(sessions, byScope, actorCounts, expiries.contents, inputs, stateBytes, {}, e);
      if e.input.Some? {
        inputs := inputs[e.input.value.key := id];
      }
      sessions := sessions[id := e];
      byScope := AddScope(byScope, e.session.scope, id);
      actorCounts := AddActor(actorCounts, e.session.binding.actorId);
      stateBytes := stateBytes + |e.session.state|;
      expiries.PushNew(id, e.session.expiresAt);
    }

    lemma NotDue(id: string, missing: set<string>)
      requires ValidBut(missing) && id !in sessions
      ensures id !in expiries.contents && id !in expiries.pos
    {
      hide TotalBytes, ScopesOk, ActorsOk, InputsOk;
    }

    method ClearInput(id: string, ghost missing: set<string>) returns (had: bool)
      requires ValidBut(missing) && id in sessions
      modifies this`sessions, this`inputs
      ensures ValidBut(missing) && had == old(sessions)[id].input.Some?
      ensures View() == Model.ClearInput(old(View()), id)
    {
      hide Indexed;
      if sessions[id].input.None? {
        assert sessions[id := sessions[id].(input := None)] == sessions;
        return false;
      }
      var key := sessions[id].input.value.key;
      IndexedHolder(id, missing);
      IndexedClear(sessions, byScope, actorCounts, expiries.contents, inputs, stateBytes, missing, id);
      if key in inputs && inputs[key] == id {
        inputs := inputs - {key};
      }
      sessions := sessions[id := sessions[id].(input := None)];
      return true;
    }

    lemma IndexedHolder(id: string, missing: set<string>)
      requires ValidBut(missing) && id in sessions && sessions[id].input.Some?
      ensures sessions[id].input.value.key in inputs && inputs[sessions[id].input.value.key] == id
    {
      hide TotalBytes, ScopesOk, ActorsOk;
    }

    /** Takes a session out of the table and every index. */
    method DropSession(id: string, ghost missing: set<string>)
      requires ValidBut(missing) && id in sessions
      modifies this`sessions, this`byScope, this`actorCounts, this`inputs, this`stateBytes, expiries
      ensures ValidBut(missing) && sessions == old(sessions) - {id} && expiries.contents == old(expiries.contents) - {id}
    {
      hide Indexed, DropScope, DropActor;
      var e := sessions[id];
      DropAfterPut(sessions, id, e.(input := None));
      var had := ClearInput(id, missing);
      IndexedDrop(sessions, byScope, actorCounts, expiries.contents, inputs, stateBytes, missing, id);
      sessions := sessions - {id};
      expiries.Remove(id);
      byScope := DropScope(byScope, e.session.scope, id);
      actorCounts := DropActor(actorCounts, e.session.binding.actorId);
      stateBytes := stateBytes - |e.session.state|;
    }

    /** Forgets a session everywhere, unless its row cannot be deleted. */
    method RemoveSession(id: string, failing: set<string>, ghost missing: set<string>) returns (removed: bool, failed: bool)
      requires ValidBut(missing)
      modifies this`sessions, this`byScope, this`actorCounts, this`inputs, this`stateBytes, this`store, expiries
      ensures ValidBut(missing) && View() == Remove(old(View()), id, failing)
      ensures failed <==> id in old(sessions) && Deletes(old(View()), id) && id in failing
      ensures removed <==> id in old(sessions) && !failed
      ensures |sessions| == if removed then |old(sessions)| - 1 else |old(sessions)|
      ensures expiries.contents == if removed then old(expiries.contents) - {id} else old(expiries.contents)
    {
      hide Indexed, RemoveMany;
      if id !in sessions {
        RemoveAbsent(View(), id, failing);
        return false, false;
      }
      RemovePresent(View(), id, failing);
      if durable && !preserve && sessions[id].version != "" {
        if id in failing {
          return false, true;
        }
        store := store - {id};
      }
      assert (sessions - {id}).Keys == sessions.Keys - {id};
      DropSession(id, missing);
      return true, false;
    }

    /** Reclaims every session whose time is up; those whose rows cannot be deleted are put back. */
    method PruneExpired(now: Time, failing: set<string>) returns (removed: nat)
      requires Valid()
      modifies this`sessions, this`byScope, this`actorCounts, this`inputs, this`stateBytes, this`store, expiries
      ensures Valid() && View() == Model.Prune(old(View()), now, failing)
      ensures removed == |Gone(old(View()), ExpiredIds(old(sessions), now), failing)|
    {
      hide Indexed, PruneInv, Ids, Gone, Model.Prune, ExpiredIds;
      removed := 0;
      var retry: seq<Item> := [];
      ghost var before := View();
      ghost var done: set<string> := {};
      PruneStart(before, now, failing);
      while true
        invariant expiries == old(expiries)
        invariant ValidBut(Ids(retry)) && PruneInv(before, View(), done, retry, now, failing)
        invariant removed + |sessions| == |before.sessions|
        decreases |expiries.contents|
      {
        var item, failed;
        item, failed, done := PruneNext(retry, now, failing, before, done);
        if item.None? {
          break;
        }
        if failed {
          retry := retry + [item.value];
        } else {
          removed := removed + 1;
        }
      }
      NothingDue(retry, now);
      PruneDone(before, View(), done, retry, now, failing);
      PruneSize(before, now, failing);
      RetriesStand(before, View(), done, retry, now, failing);
      PushBack(retry);
    }

    /** Takes the earliest session that is due off the heap. */
    method PopExpiry(now: Time, ghost missing: set<string>) returns (item: Option<Item>)
      requires ValidBut(missing)
      modifies expiries
      ensures item.None? ==> ValidBut(missing) && forall id :: id in expiries.contents ==> expiries.contents[id] > now
      ensures item.Some? ==>
        && ValidBut(missing + {item.value.id}) && |expiries.contents| < old(|expiries.contents|)
        && item.value.id in sessions && item.value.id !in missing
        && sessions[item.value.id].session.expiresAt == item.value.due <= now
    {
      hide Indexed;
      ghost var due := expiries.contents;
      item := expiries.PopDue(now);
      if item.Some? {
        assert (due - {item.value.id}).Keys == due.Keys - {item.value.id};
        IndexedPop(sessions, byScope, actorCounts, due, inputs, stateBytes, missing, item.value.id);
      }
    }

    /** Pops the earliest session that is due and tries to remove it. */
    method PruneNext(retry: seq<Item>, now: Time, failing: set<string>, ghost before: Core, ghost done: set<string>)
      returns (item: Option<Item>, failed: bool, ghost tried: set<string>)
      requires ValidBut(Ids(retry)) && PruneInv(before, View(), done, retry, now, failing)
      modifies this`sessions, this`byScope, this`actorCounts, this`inputs, this`stateBytes, this`store, expiries
      ensures var rest := if item.Some? && failed then retry + [item.value] else retry;
              ValidBut(Ids(rest)) && PruneInv(before, View(), tried, rest, now, failing)
      ensures item.None? ==> forall id :: id in expiries.contents ==> expiries.contents[id] > now
      ensures item.Some? ==> |expiries.contents| < old(|expiries.contents|)
      ensures |sessions| == if item.Some? && !failed then old(|sessions|) - 1 else old(|sessions|)
    {
      hide Indexed, RemoveMany, PruneInv, Ids, Gone;
      failed, tried := false, done;
      ghost var missing := Ids(retry);
      item := PopExpiry(now, missing);
      if item.None? {
        return;
      }
      var id := item.value.id;
      PruneStep(before, View(), done, retry, item.value, now, failing);
      tried := done + {id};
      var ok;
      ok, failed := RemoveSession(id, failing, missing + {id});
      if !failed {
        IndexedGone(sessions, byScope, actorCounts, expiries.contents, inputs, stateBytes, missing, id);
      }
    }

    lemma NothingDue(retry: seq<Item>, now: Time)
      requires ValidBut(Ids(retry)) && forall id :: id in expiries.contents ==> expiries.contents[id] > now
      ensures forall id :: id in sessions && id !in Ids(retry) ==> sessions[id].session.expiresAt > now
    {
      hide TotalBytes, ScopesOk, ActorsOk, InputsOk, Ids;
    }

    /** Puts the deadlines of sessions that could not be removed back into the heap. */
    method PushBack(retry: seq<Item>)
      requires ValidBut(Ids(retry))
      requires forall i, j :: 0 <= i < j < |retry| ==> retry[i].id != retry[j].id
      requires forall i :: 0 <= i < |retry| ==> retry[i].id in sessions && retry[i].due == sessions[retry[i].id].session.expiresAt
      modifies expiries
      ensures Valid()
    {
      hide Indexed, Ids;
      var k := 0;
      assert retry[0..] == retry;
      while k < |retry|
        invariant k <= |retry| && expiries == old(expiries) && ValidBut(Ids(retry[k..]))
      {
        IdsSplit(retry, k);
        IndexedPush(sessions, byScope, actorCounts, expiries.contents, inputs, stateBytes, Ids(retry[k + 1..]), retry[k].id);
        expiries.PushNew(retry[k].id, retry[k].due);
        k := k + 1;
      }
      NoIds(retry[k..]);
    }

    /** Drops the claims whose time has come. */
    method PruneInputs(now: Time) returns (removed: nat)
      requires Valid()
      modifies this`sessions, this`inputs
      ensures Valid() && View() == Model.PruneInputs(old(View()), now)
      ensures removed == |LapsedIds(old(sessions), now)|
    {
      hide Indexed, ClaimsPruned, LapsedIds, InputsOk;
      removed := 0;
      var keys := inputs.Keys;
      ghost var before := sessions;
      InputsListed();
      ClaimsUnpruned(sessions, inputs, now);
      while keys != {}
        invariant Valid() && keys <= inputs.Keys && ClaimsPruned(before, sessions, keys, now)
        invariant removed + |LapsedIds(sessions, now)| == |LapsedIds(before, now)|
        decreases |keys|
      {
        var key :| key in keys;
        var id := inputs[key];
        InputsListed();
        ClaimPruned(before, sessions, inputs, keys, key, now);
        var e := sessions[id];
        if e.input.value.expiresAt <= now {
          IndexedClear(sessions, byScope, actorCounts, expiries.contents, inputs, stateBytes, {}, id);
          OneClaimFewer(sessions, id, now);
          sessions := sessions[id := e.(input := None)];
          inputs := inputs - {key};
          removed := removed + 1;
        }
        keys := keys - {key};
      }
      AllClaimsPruned(before, sessions, now);
    }

    lemma InputsListed()
      requires Valid()
      ensures InputsOk(sessions, inputs)
    {
      hide TotalBytes, ScopesOk, ActorsOk, InputsOk;
    }

    method PruneAll(now: Time, failing: set<string>) returns (removed: nat)
      requires Valid()
      modifies this`sessions, this`byScope, this`actorCounts, this`inputs, this`stateBytes, this`store, expiries
      ensures var p := Model.PruneInputs(old(View()), now);
              Valid() && View() == Model.Prune(p, now, failing) && removed == |Gone(p, ExpiredIds(p.sessions, now), failing)|
    {
      hide Indexed, RemoveMany;
      var claims := PruneInputs(now);
      removed := PruneExpired(now, failing);
    }

    method Cancel(id: string, failing: set<string>) returns (removed: bool)
      requires Valid()
      modifies this`sessions, this`byScope, this`actorCounts, this`inputs, this`stateBytes, this`store, expiries
      ensures Valid() && View() == Remove(old(View()), id, failing)
      ensures removed <==> id in old(sessions) && id !in sessions
    {
      hide Indexed, RemoveMany;
      ghost var before := View();
      var failed;
      removed, failed := RemoveSession(id, failing, {});
      if id in before.sessions {
        RemovePresent(before, id, failing);
      }
    }

    method CancelIfScope(id: string, scope: Scope, failing: set<string>)
      requires Valid()
      modifies this`sessions, this`byScope, this`actorCounts, this`inputs, this`stateBytes, this`store, expiries
      ensures Valid() && View() == Model.CancelIfScope(old(View()), id, scope, failing)
    {
      hide Indexed, RemoveMany;
      if id in sessions && sessions[id].session.scope == scope {
        var removed, failed := RemoveSession(id, failing, {});
      }
    }

    /** Removes every session of one plugin generation; reports whether some row could not be deleted. */
    method CancelScope(scope: Scope, failing: set<string>) returns (removed: nat, failed: bool)
      requires Valid()
      modifies this`sessions, this`byScope, this`actorCounts, this`inputs, this`stateBytes, this`store, expiries
      ensures Valid() && View() == Model.CancelScope(old(View()), scope, failing)
      ensures var ids := if scope == NO_SCOPE then {} else InScope(old(sessions), scope);
              RemovalCounted(old(View()), ids, failing, removed, failed)
    {
      hide Indexed, RemoveMany, InScope, ScopeIds, RemovalCounted;
      removed, failed := 0, false;
      NoRemoval(View(), failing);
      if scope == NO_SCOPE {
        return;
      }
      ghost var before := View();
      ScopeListed(scope);
      var ids := ScopeIds(byScope, scope);
      ghost var done: set<string> := {};
      RemoveNone(before, failing);
      while ids != {}
        invariant expiries == old(expiries) && Valid() && View() == RemoveMany(before, done, failing)
        invariant done + ids == InScope(before.sessions, scope) && done !! ids
        invariant RemovalCounted(before, done, failing, removed, failed)
        decreases |ids|
      {
        var id :| id in ids;
        RemoveOneMore(before, done, id, failing);
        ScopeMember(before.sessions, scope, id);
        RemovedKeeps(before, done, failing);
        OneMoreRemoval(before, done, id, failing, removed, failed);
        var ok, bad := RemoveSession(id, failing, {});
        if bad {
          failed := true;
        } else if ok {
          removed := removed + 1;
        }
        done := done + {id};
        ids := ids - {id};
      }
      assert done == InScope(before.sessions, scope);
    }

    lemma ScopeListed(scope: Scope)
      requires Valid()
      ensures ScopeIds(byScope, scope) == InScope(sessions, scope)
    {
      hide TotalBytes, ScopesOk, ActorsOk, InputsOk;
      ScopeIdsExact(sessions, byScope, scope);
    }

    method Close()
      requires Valid()
      modifies this
      ensures Valid() && (expiries == old(expiries) || fresh(expiries))
      ensures View() == Model.Close(old(View()))
    {
      hide Indexed;
      if closed {
        return;
      }
      closed := true;
      NothingIndexed();
      sessions, byScope, actorCounts, inputs, stateBytes := map[], map[], map[], map[], 0;
      expiries := new IndexedHeap();
    }

    method PreserveDurable()
      requires Valid()
      modifies this`preserve
      ensures Valid() && View() == old(View()).(preserve := true)
    {
      hide Indexed;
      preserve := true;
    }

    // ----- sessions

    /** Tries the generated ids in turn, four times at most. */
    method UniqueId(gen: seq<Option<string>>) returns (id: Result<string, Fault>)
      ensures id == PickId(sessions, gen, 0)
    {
      var k := 0;
      while k < MAX_ID_ATTEMPTS && k < |gen|
        invariant k <= MAX_ID_ATTEMPTS && k <= |gen| && PickId(sessions, gen, 0) == PickId(sessions, gen, k)
      {
        if gen[k].None? {
          return Err(IdSourceFailed);
        }
        if !Tokens.ValidSessionId(gen[k].value) {
          return Err(InvalidId);
        }
        if gen[k].value !in sessions {
          return Ok(gen[k].value);
        }
        k := k + 1;
      }
      return Err(IdCollision);
    }

    /** A new session; live ones are never evicted to make room. */
    method Create(versions: Versions, scopes: Scopes, req: CreateRequest, gen: seq<Option<string>>, now: Time,
                  failing: set<string>) returns (r: Result<Session, Fault>)
      requires Valid()
      modifies this`sessions, this`byScope, this`actorCounts, this`inputs, this`stateBytes, this`store, expiries
      ensures Valid()
      ensures Outcome(View(), r) == Model.Create(old(View()), cfg, versions, scopes, req, gen, now, failing)
    {
      hide Indexed, RemoveMany, HasRoom, PickId, Saved, Bindings.Valid;
      if closed {
        return Err(Closed);
      }
      var featureId := Normalize(req.featureId);
      if !Tokens.ValidIdentifier(featureId) {
        return Err(InvalidFeature);
      }
      var binding := Normalized(req.binding);
      if !Bindings.Valid(binding) {
        return Err(BadBinding);
      }
      if |req.state| > cfg.maxStateBytes {
        return Err(StateTooLarge);
      }
      var ttl := NormalizeTtl(cfg, req.ttl);
      if ttl.None? {
        return Err(InvalidTtl);
      }
      if featureId !in scopes || scopes[featureId] == NO_SCOPE {
        return Err(InvalidFeature);
      }
      r := CreateIn(versions, scopes[featureId], featureId, binding, req.state, ttl.value, gen, now, failing);
    }

    /** The locked part of a creation. */
    method CreateIn(versions: Versions, scope: Scope, featureId: string, binding: Binding, state: seq<Byte>, ttl: int,
                    gen: seq<Option<string>>, now: Time, failing: set<string>) returns (r: Result<Session, Fault>)
      requires Valid()
      modifies this`sessions, this`byScope, this`actorCounts, this`inputs, this`stateBytes, this`store, expiries
      ensures Valid()
      ensures var p := Model.Prune(old(View()), now, failing);
              var id := PickId(p.sessions, gen, 0);
              if !HasRoom(p.sessions, cfg, scope, binding.actorId, |state|) then View() == p && r == Err(Capacity)
              else if id.Err? then View() == p && r == Err(id.error)
              else
                var s := Session(id.value, featureId, scope, binding, state, 1, now, now + ttl);
                var rows := Saved(p, versions, s, None, failing);
                if rows.None? then View() == p && r == Err(PersistenceFailed)
                else r == Ok(s) && View() == p.(sessions := p.sessions[s.id := Entry(s, VersionOf(versions, featureId), None)], store := rows.value)
    {
      hide Indexed, RemoveMany, HasRoom, PickId, Saved;
      var pruned := PruneExpired(now, failing);
      var room := CheckCapacity(scope, binding.actorId, |state|);
      if !room {
        return Err(Capacity);
      }
      PickIdFresh(sessions, gen, 0);
      var id := UniqueId(gen);
      if id.Err? {
        return Err(id.error);
      }
      var s := Session(id.value, featureId, scope, binding, state, 1, now, now + ttl);
      var ok := SaveDurable(versions, s, None, failing);
      if !ok {
        return Err(PersistenceFailed);
      }
      Publish(Entry(s, VersionOf(versions, featureId), None));
      return Ok(s);
    }

    /** A creation with its second look at the catalog: a session of a generation that ended meanwhile is removed. */
    method CreateChecked(versions: Versions, scopes: Scopes, scopes': Scopes, req: CreateRequest, gen: seq<Option<string>>,
                         now: Time, failing: set<string>) returns (r: Result<Session, Fault>)
      requires Valid()
      modifies this`sessions, this`byScope, this`actorCounts, this`inputs, this`stateBytes, this`store, expiries
      ensures Valid()
      ensures Outcome(View(), r) == Model.CreateChecked(old(View()), cfg, versions, scopes, scopes', req, gen, now, failing)
    {
      hide Indexed, Model.Create, Model.CancelIfScope;
      r := Create(versions, scopes, req, gen, now, failing);
      if r.Err? {
        return;
      }
      var s := r.value;
      if s.featureId !in scopes' || scopes'[s.featureId] != s.scope {
        CancelIfScope(s.id, s.scope, failing);
        return Err(ScopeStale);
      }
    }

    method Lookup(id: string, now: Time, failing: set<string>) returns (r: Result<Session, Fault>)
      requires Valid()
      modifies this`sessions, this`byScope, this`actorCounts, this`inputs, this`stateBytes, this`store, expiries
      ensures Valid()
      ensures Outcome(View(), r) == Model.Lookup(old(View()), id, now, failing)
    {
      hide Indexed, RemoveMany;
      if !Tokens.ValidSessionId(id) {
        return Err(NotFound);
      }
      if closed {
        return Err(Closed);
      }
      if id !in sessions {
        var pruned := PruneExpired(now, failing);
        return Err(NotFound);
      }
      if sessions[id].session.expiresAt <= now {
        var removed, failed := RemoveSession(id, failing, {});
        return Err(SessionExpired);
      }
      return Ok(sessions[id].session);
    }

    method Recheck(snap: Session, now: Time, failing: set<string>) returns (r: Result<Entry, Fault>)
      requires Valid()
      modifies this`sessions, this`byScope, this`actorCounts, this`inputs, this`stateBytes, this`store, expiries
      ensures Valid()
      ensures Outcome(View(), r) == Model.Recheck(old(View()), snap, now, failing)
    {
      hide Indexed, RemoveMany;
      if snap.id !in sessions || sessions[snap.id].session.scope != snap.scope {
        return Err(NotFound);
      }
      if sessions[snap.id].session.expiresAt <= now {
        var removed, failed := RemoveSession(snap.id, failing, {});
        return Err(SessionExpired);
      }
      return Ok(sessions[snap.id]);
    }

    /** Writes a session's new state, binding or deadline into its entry; the claim stays as it is. */
    method Amend(s: Session)
      requires Valid() && s.id in sessions
      requires s.scope == sessions[s.id].session.scope && s.binding.actorId == sessions[s.id].session.binding.actorId
      modifies this`sessions, this`stateBytes, expiries
      ensures Valid() && sessions == old(sessions)[s.id := old(sessions)[s.id].(session := s)]
    {
      hide Indexed;
      var e := sessions[s.id];
      Scheduled(s.id);
      IndexedPut(sessions, byScope, actorCounts, expiries.contents, inputs, stateBytes, {}, e.(session := s));
      stateBytes := stateBytes - |e.session.state| + |s.state|;
      sessions := sessions[s.id := e.(session := s)];
      if s.expiresAt != e.session.expiresAt {
        expiries.Put(s.id, s.expiresAt);
      }
    }

    lemma Scheduled(id: string)
      requires Valid() && id in sessions
      ensures id in expiries.contents && expiries.contents[id] == sessions[id].session.expiresAt
      ensures expiries.contents[id := sessions[id].session.expiresAt] == expiries.contents
    {
      hide TotalBytes, ScopesOk, ActorsOk, InputsOk;
    }

    lemma OwnIds()
      requires Valid()
      ensures Filed(sessions) && stateBytes == TotalBytes(sessions)
    {
      hide TotalBytes, ScopesOk, ActorsOk, InputsOk;
    }

    /** Writes a session's new contents and drops its claim. */
    method Settle(s: Session)
      requires Valid() && s.id in sessions
      requires s.scope == sessions[s.id].session.scope && s.binding.actorId == sessions[s.id].session.binding.actorId
      modifies this`sessions, this`inputs, this`stateBytes, expiries
      ensures Valid() && sessions == old(sessions)[s.id := Entry(s, old(sessions)[s.id].version, None)]
    {
      hide Indexed;
      var had := ClearInput(s.id, {});
      Amend(s);
    }

    /** Writes through and amends, or changes nothing. */
    method SaveAndAmend(versions: Versions, s: Session, failing: set<string>) returns (r: Result<Session, Fault>)
      requires Valid() && s.id in sessions
      requires s.scope == sessions[s.id].session.scope && s.binding.actorId == sessions[s.id].session.binding.actorId
      modifies this`sessions, this`stateBytes, this`store, expiries
      ensures Valid()
      ensures Outcome(View(), r) == Install(old(View()), versions, old(sessions)[s.id].(session := s), failing)
    {
      hide Indexed, Saved;
      var ok := SaveDurable(versions, s, DeadlineOf(sessions[s.id].input), failing);
      if !ok {
        return Err(PersistenceFailed);
      }
      Amend(s);
      return Ok(s);
    }

    /** Writes through without the claim and settles, or changes nothing. */
    method SaveAndSettle(versions: Versions, s: Session, failing: set<string>) returns (r: Result<Session, Fault>)
      requires Valid() && s.id in sessions
      requires s.scope == sessions[s.id].session.scope && s.binding.actorId == sessions[s.id].session.binding.actorId
      modifies this`sessions, this`inputs, this`stateBytes, this`store, expiries
      ensures Valid()
      ensures Outcome(View(), r) == Install(old(View()), versions, old(sessions)[s.id].(session := s, input := None), failing)
    {
      hide Indexed, Saved;
      var ok := SaveDurable(versions, s, None, failing);
      if !ok {
        return Err(PersistenceFailed);
      }
      Settle(s);
      return Ok(s);
    }

    method UpdateState(versions: Versions, snap: Session, req: StateRequest, now: Time, failing: set<string>)
      returns (r: Result<Session, Fault>)
      requires Valid()
      modifies this`sessions, this`byScope, this`actorCounts, this`inputs, this`stateBytes, this`store, expiries
      ensures Valid()
      ensures Outcome(View(), r) == Model.UpdateState(old(View()), cfg, versions, snap, req, now, failing)
    {
      hide Indexed, RemoveMany, Install, TotalBytes;
      if |req.state| > cfg.maxStateBytes {
        return Err(StateTooLarge);
      }
      if req.revision == 0 {
        return Err(RevisionConflict);
      }
      var ttl := NormalizeTtl(cfg, req.ttl);
      if req.ttl != 0 && ttl.None? {
        return Err(InvalidTtl);
      }
      var found := Recheck(snap, now, failing);
      if found.Err? {
        return Err(found.error);
      }
      OwnIds();
      var s := found.value.session;
      if s.revision != req.revision {
        return Err(RevisionConflict);
      }
      if stateBytes - |s.state| + |req.state| > cfg.maxTotalBytes {
        return Err(Capacity);
      }
      var expiresAt := if req.ttl != 0 then now + ttl.value else s.expiresAt;
      var next := s.(state := req.state, revision := s.revision + 1, expiresAt := expiresAt);
      r := SaveAndSettle(versions, next, failing);
    }

    method BindTarget(versions: Versions, snap: Session, revision: nat, target: Target, now: Time, failing: set<string>)
      returns (r: Result<Session, Fault>)
      requires Valid()
      modifies this`sessions, this`byScope, this`actorCounts, this`inputs, this`stateBytes, this`store, expiries
      ensures Valid()
      ensures Outcome(View(), r) == Model.BindTarget(old(View()), versions, snap, revision, target, now, failing)
    {
      hide Indexed, RemoveMany, Install, WithTarget, Complete, Bindings.Valid;
      if revision == 0 {
        return Err(RevisionConflict);
      }
      if !Complete(target) {
        return Err(BadBinding);
      }
      var found := Recheck(snap, now, failing);
      if found.Err? {
        return Err(found.error);
      }
      OwnIds();
      var s := found.value.session;
      if s.revision != revision {
        return Err(RevisionConflict);
      }
      var binding := WithTarget(s.binding, target);
      if binding.Err? {
        return Err(AlreadyBound);
      }
      WithTargetActor(s.binding, target);
      var next := s.(binding := binding.value);
      r := SaveAndAmend(versions, next, failing);
    }

    method Touch(versions: Versions, snap: Session, ttl: int, now: Time, failing: set<string>)
      returns (r: Result<Session, Fault>)
      requires Valid()
      modifies this`sessions, this`byScope, this`actorCounts, this`inputs, this`stateBytes, this`store, expiries
      ensures Valid()
      ensures Outcome(View(), r) == Model.Touch(old(View()), cfg, versions, snap, ttl, now, failing)
    {
      hide Indexed, RemoveMany, Install;
      var t := NormalizeTtl(cfg, ttl);
      if t.None? {
        return Err(InvalidTtl);
      }
      var found := Recheck(snap, now, failing);
      if found.Err? {
        return Err(found.error);
      }
      OwnIds();
      var next := found.value.session.(expiresAt := now + t.value);
      r := SaveAndAmend(versions, next, failing);
    }

    // ----- input claims

    /** Makes way for a claim on the key: false when another session's claim is still live. */
    method Vacate(key: InputKey, id: string, now: Time) returns (free: bool)
      requires Valid()
      modifies this`sessions, this`inputs
      ensures Valid() && free == !Busy(old(sessions), key, id, now)
      ensures View() == if free then Vacated(old(View()), key, id) else old(View())
      ensures free && key in inputs ==> inputs[key] == id
    {
      hide Indexed;
      HolderNamed(key);
      if key in inputs && inputs[key] != id {
        var other := inputs[key];
        if sessions[other].input.value.expiresAt > now {
          return false;
        }
        ghost var before := sessions;
        var had := ClearInput(other, {});
        LetGo(before, sessions, key, other, before[other].(input := None));
        HolderNamed(key);
      }
      return true;
    }

    lemma HolderNamed(key: InputKey)
      requires Valid()
      ensures Holder(sessions, key) == if key in inputs then Some(inputs[key]) else None
      ensures key in inputs ==> HeldBy(sessions, key, inputs[key])
      ensures forall id :: HeldBy(sessions, key, id) ==> key in inputs && inputs[key] == id
    {
      hide TotalBytes, ScopesOk, ActorsOk;
      HolderIndexed(sessions, inputs, key);
    }

    /** Installs a claim for a session whose own former claim, if any, is dropped. */
    method InstallClaim(s: Session, claim: Claim)
      requires Valid() && s.id in sessions
      requires s.scope == sessions[s.id].session.scope && s.binding.actorId == sessions[s.id].session.binding.actorId
      requires claim.key in inputs ==> inputs[claim.key] == s.id
      modifies this`sessions, this`inputs, this`stateBytes, expiries
      ensures Valid()
      ensures sessions == old(sessions)[s.id := Entry(s, old(sessions)[s.id].version, Some(claim))]
    {
      hide Indexed;
      HolderNamed(claim.key);
      ghost var before := sessions;
      Settle(s);
      LetGo(before, sessions, claim.key, s.id, Entry(s, before[s.id].version, None));
      HolderNamed(claim.key);
      IndexedClaim(sessions, byScope, actorCounts, expiries.contents, inputs, stateBytes, {}, s.id, claim);
      sessions := sessions[s.id := sessions[s.id].(input := Some(claim))];
      inputs := inputs[claim.key := s.id];
    }

    /** Writes through with the new claim and installs it, or changes nothing. */
    method SaveAndClaim(versions: Versions, s: Session, claim: Claim, failing: set<string>) returns (r: Result<Session, Fault>)
      requires Valid() && s.id in sessions
      requires s.scope == sessions[s.id].session.scope && s.binding.actorId == sessions[s.id].session.binding.actorId
      requires claim.key in inputs ==> inputs[claim.key] == s.id
      modifies this`sessions, this`inputs, this`stateBytes, this`store, expiries
      ensures Valid()
      ensures Outcome(View(), r) == Install(old(View()), versions, old(sessions)[s.id].(session := s, input := Some(claim)), failing)
    {
      hide Indexed, Saved;
      var ok := SaveDurable(versions, s, Some(claim.expiresAt), failing);
      if !ok {
        return Err(PersistenceFailed);
      }
      InstallClaim(s, claim);
      return Ok(s);
    }

    method ArmInput(versions: Versions, snap: Session, req: StateRequest, now: Time, failing: set<string>)
      returns (r: Result<Session, Fault>)
      requires Valid()
      modifies this`sessions, this`byScope, this`actorCounts, this`inputs, this`stateBytes, this`store, expiries
      ensures Valid()
      ensures Outcome(View(), r) == Model.ArmInput(old(View()), cfg, versions, snap, req, now, failing)
    {
      hide Indexed, RemoveMany, Install, TotalBytes, KeyOf, Busy, Vacated;
      if |req.state| > cfg.maxStateBytes {
        return Err(StateTooLarge);
      }
      if req.revision == 0 {
        return Err(RevisionConflict);
      }
      var ttl := NormalizeTtl(cfg, req.ttl);
      if ttl.None? {
        return Err(InvalidTtl);
      }
      var key := KeyOf(snap.binding);
      if key.None? {
        return Err(BadBinding);
      }
      var found := Recheck(snap, now, failing);
      if found.Err? {
        return Err(found.error);
      }
      OwnIds();
      var s := found.value.session;
      if s.revision != req.revision {
        return Err(RevisionConflict);
      }
      ghost var before := View();
      VacatedStands(before, key.value, s.id);
      var total := stateBytes - |s.state| + |req.state|;
      var free := Vacate(key.value, s.id, now);
      if !free {
        return Err(InputBusy);
      }
      if total > cfg.maxTotalBytes {
        return Err(Capacity);
      }
      var next := s.(state := req.state, revision := s.revision + 1);
      var claim := Claim(key.value, Earlier(now + ttl.value, next.expiresAt));
      r := SaveAndClaim(versions, next, claim, failing);
    }

    /** Delivers the awaited input once, and makes every token rendered before stale. */
    method TakeInput(versions: Versions, key: InputKey, now: Time, failing: set<string>)
      returns (r: Result<Option<Session>, Fault>)
      requires Valid()
      modifies this`sessions, this`byScope, this`actorCounts, this`inputs, this`stateBytes, this`store, expiries
      ensures Valid()
      ensures Outcome(View(), r) == Model.TakeInput(old(View()), versions, key, now, failing)
    {
      hide Indexed, RemoveMany, Install;
      if key.actorId == 0 || key.chatId == 0 {
        return Err(BadBinding);
      }
      if closed {
        return Err(Closed);
      }
      HolderNamed(key);
      if key !in inputs {
        return Ok(None);
      }
      OwnIds();
      var id := inputs[key];
      var e := sessions[id];
      if e.input.value.expiresAt <= now {
        var had := ClearInput(id, {});
        return Err(InputExpired);
      }
      if e.session.expiresAt <= now {
        var removed, failed := RemoveSession(id, failing, {});
        return Err(SessionExpired);
      }
      var next := e.session.(revision := e.session.revision + 1);
      var saved := SaveAndSettle(versions, next, failing);
      return if saved.Ok? then Ok(Some(saved.value)) else Err(saved.error);
    }

    /** A delivery with its look at the catalog: a session of a generation that has ended is removed instead. */
    method TakeInputChecked(versions: Versions, scopes: Scopes, key: InputKey, now: Time, failing: set<string>)
      returns (r: Result<Option<Session>, Fault>)
      requires Valid()
      modifies this`sessions, this`byScope, this`actorCounts, this`inputs, this`stateBytes, this`store, expiries
      ensures Valid()
      ensures Outcome(View(), r) == Model.TakeInputChecked(old(View()), versions, scopes, key, now, failing)
    {
      hide Indexed, Model.TakeInput, Model.CancelIfScope;
      r := TakeInput(versions, key, now, failing);
      if r.Err? || r.value.None? {
        return;
      }
      var s := r.value.value;
      if s.featureId !in scopes || scopes[s.featureId] != s.scope {
        CancelIfScope(s.id, s.scope, failing);
        return Err(ScopeStale);
      }
    }

    method ReleaseInput(versions: Versions, id: string, failing: set<string>) returns (released: bool)
      requires Valid()
      modifies this`sessions, this`inputs, this`stateBytes, this`store, expiries
      ensures Valid()
      ensures Outcome(View(), Ok(released)) == Model.ReleaseInput(old(View()), versions, id, failing)
    {
      hide Indexed, Install;
      if !Tokens.ValidSessionId(id) {
        return false;
      }
      if id !in sessions {
        return false;
      }
      OwnIds();
      if sessions[id].input.None? {
        return false;
      }
      var saved := SaveAndSettle(versions, sessions[id].session, failing);
      return saved.Ok?;
    }

    // ----- restoring

    method RejectRow(id: string, failing: set<string>) returns (r: Result<bool, Fault>)
      modifies this`store
      ensures Outcome(View(), r) == Rejected(old(View()), id, failing)
    {
      if id in failing {
        return Err(PersistenceFailed);
      }
      store := store - {id};
      return Ok(false);
    }

    method RestoreRow(versions: Versions, scopes: Scopes, row: Row, now: Time, failing: set<string>) returns (r: Result<bool, Fault>)
      requires Valid()
      modifies this`sessions, this`byScope, this`actorCounts, this`inputs, this`stateBytes, this`store, expiries
      ensures Valid()
      ensures Outcome(View(), r) == Model.RestoreRow(old(View()), cfg, versions, scopes, row, now, failing)
    {
      hide Indexed, HasRoom, Compatible, KeyOf, Rejected;
      CompatibleScope(cfg, versions, scopes, row, now);
      var s := row.session;
      if !Compatible(cfg, versions, scopes, row, now) {
        r := RejectRow(s.id, failing);
        return;
      }
      if s.id in sessions {
        return Ok(false);
      }
      var scope := scopes[s.featureId];
      var room := CheckCapacity(scope, s.binding.actorId, |s.state|);
      if !room {
        r := RejectRow(s.id, failing);
        return;
      }
      var e := Entry(s.(scope := scope), row.version, None);
      if row.inputExpires.Some? && row.inputExpires.value > now {
        var key := KeyOf(s.binding);
        if key.None? {
          r := RejectRow(s.id, failing);
          return;
        }
        HolderNamed(key.value);
        if key.value in inputs {
          r := RejectRow(s.id, failing);
          return;
        }
        e := e.(input := Some(Claim(key.value, row.inputExpires.value)));
      }
      Publish(e);
      return Ok(true);
    }

    /** Reloads the loaded rows one by one; stops when a rejected row cannot be deleted. None is a failed load. */
    method RestoreDurable(versions: Versions, scopes: Scopes, loaded: Option<seq<Row>>, now: Time, failing: set<string>)
      returns (r: Result<bool, Fault>)
      requires Valid()
      modifies this`sessions, this`byScope, this`actorCounts, this`inputs, this`stateBytes, this`store, expiries
      ensures Valid()
      ensures var m := Model.RestoreDurable(old(View()), cfg, versions, scopes, loaded, now, failing);
              View() == m.core && (r.Ok? <==> m.result.Ok?) && (r.Err? ==> r == m.result)
    {
      hide Indexed, Model.RestoreRow;
      if closed {
        return Err(Closed);
      }
      if !durable {
        return Ok(true);
      }
      if loaded.None? {
        return Err(PersistenceFailed);
      }
      var rows := loaded.value;
      ghost var before := View();
      var k := 0;
      while k < |rows|
        invariant k <= |rows| && Valid() && expiries == old(expiries)
        invariant var m := RestoreRows(before, cfg, versions, scopes, rows, k, now, failing); View() == m.core && m.result.Ok?
      {
        var done := RestoreRow(versions, scopes, rows[k], now, failing);
        if done.Err? {
          RestoreStops(before, cfg, versions, scopes, rows, k + 1, |rows|, now, failing);
          return Err(done.error);
        }
        k := k + 1;
      }
      return Ok(true);
    }
  }

  /** A runtime with a checked configuration; zero limits stand for their defaults. */
  method NewRuntime(raw: RawConfig, persistent: bool, rows: Store) returns (r: Result<Runtime, Fault>)
    ensures r.Ok? <==> NormalizeConfig(raw).Ok?
    ensures r.Err? ==> r.error == InvalidConfig
    ensures r.Ok? ==>
      && fresh(r.value) && fresh(r.value.expiries) && r.value.Valid() && Ok(r.value.cfg) == NormalizeConfig(raw)
      && r.value.View() == Core(false, false, persistent, map[], rows)
  {
    hide Indexed;
    var cfg := NormalizeConfig(raw);
    if cfg.Err? {
      return Err(InvalidConfig);
    }
    var runtime := new Runtime(cfg.value, persistent, rows);
    return Ok(runtime);
  }
}
