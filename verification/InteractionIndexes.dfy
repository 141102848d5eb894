/** The runtime's secondary indexes as values, and how they follow the session table. */
module InteractionIndexes {
  import opened Prelude
  import opened Bindings
  import opened InteractionModel
  import opened InteractionBounds
  import opened InteractionRuns

  type ScopeIndex = map<Scope, set<string>>
  type ActorIndex = map<int, int>
  type InputIndex = map<InputKey, string>

  /** The ids of each scope that has sessions. */
  ghost predicate ScopesOk(m: Sessions, b: ScopeIndex) {
    && (forall s :: s in b ==> b[s] == InScope(m, s) && b[s] != {})
    && (forall id :: id in m ==> m[id].session.scope in b)
  }

  /** The number of sessions of each actor that has some; sessions without an actor are not counted. */
  ghost predicate ActorsOk(m: Sessions, a: ActorIndex) {
    && (forall k :: k in a ==> k != 0 && a[k] == |OfActor(m, k)| && a[k] > 0)
    && (forall id :: id in m && m[id].session.binding.actorId != 0 ==> m[id].session.binding.actorId in a)
  }

  /** One deadline per session, except those being retried. */
  ghost predicate DueOk(m: Sessions, due: map<string, Time>, missing: set<string>) {
    && (forall id :: id in due <==> id in m && id !in missing)
    && (forall id :: id in due && id in m ==> due[id] == m[id].session.expiresAt)
  }

  /** Keys and live claims, one for one. */
  ghost predicate InputsOk(m: Sessions, i: InputIndex) {
    && (forall key :: key in i ==> HeldBy(m, key, i[key]))
    && (forall id :: id in m && m[id].input.Some? ==> m[id].input.value.key in i && i[m[id].input.value.key] == id)
  }

  ghost predicate Indexed(m: Sessions, b: ScopeIndex, a: ActorIndex, due: map<string, Time>, i: InputIndex, bytes: int,
                          missing: set<string>)
  {
    Filed(m) && ScopesOk(m, b) && ActorsOk(m, a) && DueOk(m, due, missing) && InputsOk(m, i) && bytes == TotalBytes(m)
  }

  // ----- scopes

  function ScopeIds(b: ScopeIndex, scope: Scope): set<string> {
    if scope in b then b[scope] else {}
  }

  function AddScope(b: ScopeIndex, scope: Scope, id: string): ScopeIndex {
    b[scope := ScopeIds(b, scope) + {id}]
  }

  function DropScope(b: ScopeIndex, scope: Scope, id: string): ScopeIndex {
    var ids := ScopeIds(b, scope) - {id};
    if ids == {} then b - {scope} else b[scope := ids]
  }

  lemma ScopeIdsExact(m: Sessions, b: ScopeIndex, scope: Scope)
    requires ScopesOk(m, b)
    ensures ScopeIds(b, scope) == InScope(m, scope)
  {
    if scope !in b {
      assert InScope(m, scope) == {};
    }
  }

  lemma ScopesAdd(m: Sessions, b: ScopeIndex, e: Entry)
    requires ScopesOk(m, b) && e.session.id !in m
    ensures ScopesOk(m[e.session.id := e], AddScope(b, e.session.scope, e.session.id))
  {
    var id, scope := e.session.id, e.session.scope;
    var n := m[id := e];
    ScopeIdsExact(m, b, scope);
    assert InScope(n, scope) == InScope(m, scope) + {id};
    forall s | s in b && s != scope
      ensures InScope(n, s) == b[s]
    {
      assert InScope(n, s) == InScope(m, s);
    }
  }

  lemma ScopesDrop(m: Sessions, b: ScopeIndex, id: string)
    requires ScopesOk(m, b) && id in m
    ensures ScopesOk(m - {id}, DropScope(b, m[id].session.scope, id))
  {
    var scope := m[id].session.scope;
    var n := m - {id};
    ScopeIdsExact(m, b, scope);
    assert InScope(n, scope) == InScope(m, scope) - {id};
    forall s | s in b && s != scope
      ensures InScope(n, s) == b[s]
    {
      assert InScope(n, s) == InScope(m, s);
    }
    forall k | k in n
      ensures n[k].session.scope in DropScope(b, scope, id)
    {
      if n[k].session.scope == scope {
        assert k in InScope(n, scope);
      }
    }
  }

  // ----- actors

  function AddActor(a: ActorIndex, actorId: int): ActorIndex {
    if actorId == 0 then a else a[actorId := Get(a, actorId) + 1]
  }

  function DropActor(a: ActorIndex, actorId: int): ActorIndex {
    if actorId == 0 then a
    else if Get(a, actorId) <= 1 then a - {actorId}
    else a[actorId := Get(a, actorId) - 1]
  }

  lemma ActorCountExact(m: Sessions, a: ActorIndex, actorId: int)
    requires ActorsOk(m, a) && actorId != 0
    ensures Get(a, actorId) == |OfActor(m, actorId)|
  {
    if actorId !in a {
      assert OfActor(m, actorId) == {};
    }
  }

  lemma ActorsAdd(m: Sessions, a: ActorIndex, e: Entry)
    requires ActorsOk(m, a) && e.session.id !in m
    ensures ActorsOk(m[e.session.id := e], AddActor(a, e.session.binding.actorId))
  {
    var id, actor := e.session.id, e.session.binding.actorId;
    var n := m[id := e];
    if actor != 0 {
      ActorCountExact(m, a, actor);
      assert OfActor(n, actor) == OfActor(m, actor) + {id};
    }
    forall k | k in a && k != actor
      ensures |OfActor(n, k)| == a[k]
    {
      assert OfActor(n, k) == OfActor(m, k);
    }
  }

  lemma ActorsDrop(m: Sessions, a: ActorIndex, id: string)
    requires ActorsOk(m, a) && id in m
    ensures ActorsOk(m - {id}, DropActor(a, m[id].session.binding.actorId))
  {
    var actor := m[id].session.binding.actorId;
    var n := m - {id};
    if actor != 0 {
      ActorCountExact(m, a, actor);
      assert id in OfActor(m, actor);
      assert OfActor(n, actor) == OfActor(m, actor) - {id};
    }
    forall k | k in a && k != actor
      ensures |OfActor(n, k)| == a[k]
    {
      assert OfActor(n, k) == OfActor(m, k);
    }
    forall k | k in n && n[k].session.binding.actorId != 0
      ensures n[k].session.binding.actorId in DropActor(a, actor)
    {
      if n[k].session.binding.actorId == actor {
        assert k in OfActor(n, actor);
        assert |OfActor(n, actor)| == |OfActor(m, actor)| - 1;
        assert OfActor(n, actor) != {};
      }
    }
  }

  // ----- inputs

  lemma InputsAdd(m: Sessions, i: InputIndex, e: Entry)
    requires InputsOk(m, i) && e.session.id !in m && (e.input.Some? ==> e.input.value.key !in i)
    ensures InputsOk(m[e.session.id := e], if e.input.Some? then i[e.input.value.key := e.session.id] else i)
  {
  }

  lemma InputsDrop(m: Sessions, i: InputIndex, id: string)
    requires InputsOk(m, i) && id in m && m[id].input.None?
    ensures InputsOk(m - {id}, i)
  {
  }

  lemma InputsClear(m: Sessions, i: InputIndex, id: string)
    requires InputsOk(m, i) && id in m && m[id].input.Some?
    ensures InputsOk(m[id := m[id].(input := None)], i - {m[id].input.value.key})
  {
  }

  /** The index names the holder of a key. */
  lemma HolderIndexed(m: Sessions, i: InputIndex, key: InputKey)
    requires InputsOk(m, i)
    ensures Holder(m, key) == if key in i then Some(i[key]) else None
  {
  }

  // ----- all together

  lemma NothingIndexed()
    ensures Indexed(map[], map[], map[], map[], map[], 0, {})
  {
    assert TotalBytes(map[]) == 0;
  }

  lemma IndexedAdd(m: Sessions, b: ScopeIndex, a: ActorIndex, due: map<string, Time>, i: InputIndex, bytes: int,
                   missing: set<string>, e: Entry)
    requires Indexed(m, b, a, due, i, bytes, missing) && e.session.id !in m && e.session.id !in missing
    requires e.input.Some? ==> e.input.value.key !in i
    ensures Indexed(m[e.session.id := e], AddScope(b, e.session.scope, e.session.id),
                    AddActor(a, e.session.binding.actorId), due[e.session.id := e.session.expiresAt],
                    if e.input.Some? then i[e.input.value.key := e.session.id] else i,
                    bytes + |e.session.state|, missing)
  {
    hide TotalBytes, ScopesOk, ActorsOk, InputsOk, AddScope, AddActor;
    ScopesAdd(m, b, e);
    ActorsAdd(m, a, e);
    InputsAdd(m, i, e);
    BytesPut(m, e.session.id, e);
  }

  lemma IndexedDrop(m: Sessions, b: ScopeIndex, a: ActorIndex, due: map<string, Time>, i: InputIndex, bytes: int,
                    missing: set<string>, id: string)
    requires Indexed(m, b, a, due, i, bytes, missing) && id in m && m[id].input.None?
    ensures Indexed(m - {id}, DropScope(b, m[id].session.scope, id), DropActor(a, m[id].session.binding.actorId),
                    due - {id}, i, bytes - |m[id].session.state|, missing)
  {
    hide TotalBytes, ScopesOk, ActorsOk, InputsOk, DropScope, DropActor;
    ScopesDrop(m, b, id);
    ActorsDrop(m, a, id);
    InputsDrop(m, i, id);
    BytesSplit(m, id);
  }

  lemma SameCounts(m: Sessions, b: ScopeIndex, a: ActorIndex, id: string, e: Entry)
    requires id in m && ScopesOk(m, b) && ActorsOk(m, a)
    requires e.session.scope == m[id].session.scope && e.session.binding.actorId == m[id].session.binding.actorId
    ensures ScopesOk(m[id := e], b) && ActorsOk(m[id := e], a)
  {
    var n := m[id := e];
    forall s
      ensures InScope(n, s) == InScope(m, s)
    {
    }
    forall k
      ensures OfActor(n, k) == OfActor(m, k)
    {
    }
  }

  lemma IndexedClear(m: Sessions, b: ScopeIndex, a: ActorIndex, due: map<string, Time>, i: InputIndex, bytes: int,
                     missing: set<string>, id: string)
    requires Indexed(m, b, a, due, i, bytes, missing) && id in m && m[id].input.Some?
    ensures Indexed(m[id := m[id].(input := None)], b, a, due, i - {m[id].input.value.key}, bytes, missing)
  {
    hide TotalBytes, ScopesOk, ActorsOk, InputsOk;
    SameCounts(m, b, a, id, m[id].(input := None));
    InputsClear(m, i, id);
    BytesPut(m, id, m[id].(input := None));
  }

  /** Replacing a session's state, binding or deadline; its claim, scope and actor stay. */
  lemma IndexedPut(m: Sessions, b: ScopeIndex, a: ActorIndex, due: map<string, Time>, i: InputIndex, bytes: int,
                   missing: set<string>, e: Entry)
    requires Indexed(m, b, a, due, i, bytes, missing) && e.session.id in m && e.session.id !in missing
    requires var o := m[e.session.id];
             e.session.scope == o.session.scope && e.session.binding.actorId == o.session.binding.actorId && e.input == o.input
    ensures Indexed(m[e.session.id := e], b, a, due[e.session.id := e.session.expiresAt], i,
                    bytes - |m[e.session.id].session.state| + |e.session.state|, missing)
  {
    hide TotalBytes, ScopesOk, ActorsOk;
    SameCounts(m, b, a, e.session.id, e);
    BytesPut(m, e.session.id, e);
  }

  /** A claim installed under a free key. */
  lemma IndexedClaim(m: Sessions, b: ScopeIndex, a: ActorIndex, due: map<string, Time>, i: InputIndex, bytes: int,
                     missing: set<string>, id: string, claim: Claim)
    requires Indexed(m, b, a, due, i, bytes, missing) && id in m && m[id].input.None? && claim.key !in i
    ensures Indexed(m[id := m[id].(input := Some(claim))], b, a, due, i[claim.key := id], bytes, missing)
  {
    hide TotalBytes, ScopesOk, ActorsOk;
    SameCounts(m, b, a, id, m[id].(input := Some(claim)));
    BytesPut(m, id, m[id].(input := Some(claim)));
  }

  // ----- sessions out of the heap while they are being retried

  lemma IndexedPop(m: Sessions, b: ScopeIndex, a: ActorIndex, due: map<string, Time>, i: InputIndex, bytes: int,
                   missing: set<string>, id: string)
    requires Indexed(m, b, a, due, i, bytes, missing) && id in due
    ensures Indexed(m, b, a, due - {id}, i, bytes, missing + {id})
    ensures id in m && id !in missing && due[id] == m[id].session.expiresAt
  {
    hide TotalBytes, ScopesOk, ActorsOk, InputsOk;
  }

  lemma IndexedPush(m: Sessions, b: ScopeIndex, a: ActorIndex, due: map<string, Time>, i: InputIndex, bytes: int,
                    missing: set<string>, id: string)
    requires Indexed(m, b, a, due, i, bytes, missing + {id}) && id in m && id !in missing
    ensures Indexed(m, b, a, due[id := m[id].session.expiresAt], i, bytes, missing)
    ensures id !in due
  {
    hide TotalBytes, ScopesOk, ActorsOk, InputsOk;
  }

  lemma IndexedGone(m: Sessions, b: ScopeIndex, a: ActorIndex, due: map<string, Time>, i: InputIndex, bytes: int,
                    missing: set<string>, id: string)
    requires Indexed(m, b, a, due, i, bytes, missing + {id}) && id !in m
    ensures Indexed(m, b, a, due, i, bytes, missing)
  {
    hide TotalBytes, ScopesOk, ActorsOk, InputsOk;
  }
}
