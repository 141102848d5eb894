/** The action dispatcher as it is written: handler registrations, preparation and dispatch over the runtime. */
module Dispatcher {
  import opened Prelude
  import opened Text
  import opened Bindings
  import opened InteractionModel
  import opened InteractionRuntime
  import opened ActionFence
  import Model = InteractionModel
  import Tokens = CallbackTokens

  class ActionDispatcher {
    const sessions: Runtime
    var handlers: Handlers
    var next: nat

    constructor (runtime: Runtime)
      ensures sessions == runtime && View() == Registry(map[], 0) && RegistryOk(View())
    {
      sessions, handlers, next := runtime, map[], 0;
    }

    function View(): Registry
      reads this
    {
      Registry(handlers, next)
    }

    /** A generation may hold an action once; a newer generation takes it over under a fresh token. */
    method Register(cat: Catalog, scope: Scope, featureId: string, actionId: string, prepares: bool)
      returns (r: Result<HandlerRegistration, Fault>)
      requires RegistryOk(View())
      modifies this
      ensures RegistryOk(View())
      ensures var key := HandlerKey(Normalize(featureId), Normalize(actionId));
              && (r.Ok? <==>
                    && scope != NO_SCOPE && Tokens.ValidIdentifier(key.featureId) && Tokens.ValidIdentifier(key.actionId)
                    && key in cat.actions && Current(cat, key.featureId, scope)
                    && !(key in old(handlers) && old(handlers)[key].scope == scope))
              && View() == (if r.Ok? then Registered(old(View()), key, scope, prepares) else old(View()))
              && (r.Ok? ==>
                    && handlers == old(handlers)[key := HandlerEntry(scope, old(next) + 1, prepares)] && next == old(next) + 1
                    && fresh(r.value) && r.value.dispatcher == this && r.value.key == key && !r.value.closed
                    && r.value.token == handlers[key].token
                    && forall k :: k in old(handlers) ==> old(handlers)[k].token < r.value.token)
    {
      if scope == NO_SCOPE {
        return Err(HandlerUnavailable);
      }
      var key := HandlerKey(Normalize(featureId), Normalize(actionId));
      if !Tokens.ValidIdentifier(key.featureId) || !Tokens.ValidIdentifier(key.actionId) || key !in cat.actions {
        return Err(ActionNotFound);
      }
      if !Current(cat, key.featureId, scope) {
        return Err(ScopeStale);
      }
      if key in handlers && handlers[key].scope == scope {
        return Err(HandlerRegistered);
      }
      next := next + 1;
      handlers := handlers[key := HandlerEntry(scope, next, prepares)];
      var registration := new HandlerRegistration(this, key, next);
      return Ok(registration);
    }

    /** Removes the handlers of exactly one generation. */
    method UnregisterScope(scope: Scope) returns (removed: nat)
      modifies this`handlers
      ensures handlers == if scope == NO_SCOPE then old(handlers) else WithoutScope(old(handlers), scope)
      ensures scope != NO_SCOPE ==> forall k :: k in handlers <==> k in old(handlers) && old(handlers)[k].scope != scope
      ensures forall k :: k in handlers ==> handlers[k] == old(handlers)[k]
      ensures removed == |old(handlers)| - |handlers|
    {
      removed := 0;
      if scope == NO_SCOPE {
        return;
      }
      var keys := handlers.Keys;
      while keys != {}
        invariant keys <= handlers.Keys && removed + |handlers| == |old(handlers)|
        invariant forall k :: k in handlers ==> k in old(handlers) && handlers[k] == old(handlers)[k]
        invariant forall k :: k in old(handlers) && k !in keys ==> (k in handlers <==> old(handlers)[k].scope != scope)
        invariant forall k :: k in keys ==> k in handlers
        decreases |keys|
      {
        var key :| key in keys;
        if handlers[key].scope == scope {
          assert (handlers - {key}).Keys == handlers.Keys - {key};
          handlers := handlers - {key};
          removed := removed + 1;
        }
        keys := keys - {key};
      }
    }

    method FindCurrent(cat: Catalog, id: string, now: Time, failing: set<string>) returns (r: Result<Session, Fault>)
      requires sessions.Valid()
      modifies sessions, sessions.expiries
      ensures sessions.Valid() && sessions.expiries == old(sessions.expiries)
      ensures Outcome(sessions.View(), r) == CurrentSession(old(sessions.View()), cat, id, now, failing)
    {
      hide RemoveMany, Runtime.Valid;
      var found := sessions.Lookup(id, now, failing);
      if found.Err? {
        return found;
      }
      var s := found.value;
      if !Current(cat, s.featureId, s.scope) {
        sessions.CancelIfScope(id, s.scope, failing);
        return Err(ScopeStale);
      }
      return found;
    }

    method Resolve(versions: Versions, cat: Catalog, data: string, actual: Binding, now: Time, failing: set<string>)
      returns (r: Result<Session, Fault>)
      requires sessions.Valid()
      modifies sessions, sessions.expiries
      ensures sessions.Valid() && sessions.expiries == old(sessions.expiries)
      ensures Outcome(sessions.View(), r) == ResolveCallback(old(sessions.View()), versions, cat, data, actual, now, failing)
    {
      hide CurrentSession, Model.BindTarget, Runtime.Valid, Tokens.Parse, Normalized, Matches, Bindings.Valid, CompleteTarget, HasTarget, Complete;
      var token := Tokens.Parse(data);
      if token.Err? {
        return Err(BadToken);
      }
      var event := Normalized(actual);
      if !Bindings.Valid(event) {
        return Err(BadBinding);
      }
      r := FindCurrent(cat, token.value.sessionId, now, failing);
      if r.Err? {
        return;
      }
      if !Matches(r.value.binding, event) {
        return Err(BindingMismatch);
      }
      var target := CompleteTarget(actual);
      if !HasTarget(r.value.binding) && target.Some? {
        r := Bind(versions, cat, r.value.id, token.value.revision, target.value, now, failing);
        if r.Err? {
          return;
        }
      }
      if r.value.revision != token.value.revision {
        return Err(StaleToken);
      }
      if HandlerKey(r.value.featureId, token.value.actionId) !in cat.actions {
        return Err(ActionNotFound);
      }
    }

    method Bind(versions: Versions, cat: Catalog, id: string, revision: nat, target: Target, now: Time, failing: set<string>)
      returns (r: Result<Session, Fault>)
      requires sessions.Valid()
      modifies sessions, sessions.expiries
      ensures sessions.Valid() && sessions.expiries == old(sessions.expiries)
      ensures Outcome(sessions.View(), r) == BindCurrent(old(sessions.View()), versions, cat, id, revision, target, now, failing)
    {
      hide CurrentSession, Model.BindTarget, Runtime.Valid, Complete;
      if revision == 0 {
        return Err(RevisionConflict);
      }
      if !Complete(target) {
        return Err(BadBinding);
      }
      r := FindCurrent(cat, id, now, failing);
      if r.Err? {
        return;
      }
      r := sessions.BindTarget(versions, r.value, revision, target, now, failing);
    }

    /** Pins the registration and the generation an action was resolved under. */
    method Prepare(versions: Versions, cat: Catalog, data: string, binding: Binding, adm: Admission, now: Time, failing: set<string>)
      returns (r: Result<Prepared, Fault>)
      requires sessions.Valid()
      modifies sessions, sessions.expiries
      ensures sessions.Valid() && sessions.expiries == old(sessions.expiries)
      ensures Outcome(sessions.View(), r) == ActionFence.Prepare(old(sessions.View()), old(handlers), versions, cat, data, binding, adm, now, failing)
    {
      hide ResolveCallback, Runtime.Valid, Tokens.Parse, Normalized;
      var resolved := Resolve(versions, cat, data, binding, now, failing);
      if resolved.Err? {
        return Err(resolved.error);
      }
      var token := Tokens.Parse(data);
      if token.Err? {
        return Err(BadToken);
      }
      var s := resolved.value;
      var key := HandlerKey(s.featureId, token.value.actionId);
      if key !in handlers || handlers[key].scope != s.scope {
        return Err(HandlerUnavailable);
      }
      if !Current(cat, s.featureId, handlers[key].scope) {
        return Err(ScopeStale);
      }
      var execution := handlers[key].scope;
      if handlers[key].prepares {
        if adm.answer.Err? {
          return Err(adm.answer.error);
        }
        execution := adm.answer.value;
        if execution == NO_SCOPE {
          return Err(HandlerUnavailable);
        }
      }
      if !Current(adm.after, s.featureId, handlers[key].scope) {
        return Err(ScopeStale);
      }
      return Ok(Prepared(data, Normalized(binding), key, handlers[key].scope, execution, handlers[key].token));
    }

    /** Checks everything again; Ok is the session the handler runs with. */
    method Dispatch(versions: Versions, cat: Catalog, p: Prepared, now: Time, failing: set<string>)
      returns (r: Result<Session, Fault>)
      requires sessions.Valid()
      modifies sessions, sessions.expiries
      ensures sessions.Valid() && sessions.expiries == old(sessions.expiries)
      ensures Outcome(sessions.View(), r) == ActionFence.Dispatch(old(sessions.View()), old(handlers), versions, cat, p, now, failing)
    {
      hide ResolveCallback, Runtime.Valid, Tokens.Parse;
      r := Resolve(versions, cat, p.data, p.binding, now, failing);
      var token := Tokens.Parse(p.data);
      if r.Err? || token.Err? {
        return;
      }
      var s := r.value;
      var key := HandlerKey(s.featureId, token.value.actionId);
      if key != p.key || s.scope != p.scope {
        return Err(ScopeStale);
      }
      if !Holds(handlers, p) {
        return Err(HandlerUnavailable);
      }
      if !Current(cat, s.featureId, p.scope) {
        return Err(ScopeStale);
      }
    }
  }

  class HandlerRegistration {
    const dispatcher: ActionDispatcher
    const key: HandlerKey
    const token: nat
    var closed: bool

    constructor (d: ActionDispatcher, k: HandlerKey, t: nat)
      ensures dispatcher == d && key == k && token == t && !closed
    {
      dispatcher, key, token, closed := d, k, t, false;
    }

    /** Takes effect once, and only on the registration it came from. */
    method Close()
      requires RegistryOk(dispatcher.View())
      modifies this`closed, dispatcher`handlers
      ensures closed && RegistryOk(dispatcher.View())
      ensures dispatcher.handlers == if old(closed) then old(dispatcher.handlers) else WithoutRegistration(old(dispatcher.handlers), key, token)
      ensures dispatcher.handlers ==
        if !old(closed) && key in old(dispatcher.handlers) && old(dispatcher.handlers)[key].token == token
        then old(dispatcher.handlers) - {key} else old(dispatcher.handlers)
    {
      if closed {
        return;
      }
      closed := true;
      if key in dispatcher.handlers && dispatcher.handlers[key].token == token {
        dispatcher.handlers := dispatcher.handlers - {key};
      }
    }
  }
}
