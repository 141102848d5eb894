/** What a session is bound to: an actor, a chat, a message or an inline message. Zero fields are unbound. */
module Bindings {
  import opened Prelude
  import opened Text

  datatype BindingFault = InvalidBinding | TargetBound

  datatype Target = Target(chatId: int, messageId: int, inlineId: string)

  datatype Binding = Binding(actorId: int, chatId: int, messageId: int, inlineId: string)

  /** Free-form input is awaited from one actor in one chat. */
  datatype InputKey = InputKey(actorId: int, chatId: int)

  predicate Complete(t: Target) {
    if Trim(t.inlineId) != "" then t.chatId == 0 && t.messageId == 0
    else t.chatId != 0 && t.messageId > 0
  }

  function Normalized(b: Binding): Binding {
    b.(inlineId := Trim(b.inlineId))
  }

  predicate Valid(b: Binding) {
    var inline := Trim(b.inlineId);
    && (inline != "" ==> b.chatId == 0 && b.messageId == 0)
    && b.messageId >= 0
    && (b.messageId > 0 ==> b.chatId != 0)
    && (b.actorId != 0 || b.chatId != 0 || b.messageId != 0 || inline != "")
  }

  /** Only the dimensions the session binds are compared. */
  predicate Matches(b: Binding, actual: Binding) {
    && (b.actorId != 0 ==> actual.actorId == b.actorId)
    && (b.chatId != 0 ==> actual.chatId == b.chatId)
    && (b.messageId != 0 ==> actual.messageId == b.messageId)
    && (b.inlineId != "" ==> actual.inlineId == b.inlineId)
  }

  function WithTarget(b: Binding, t: Target): Result<Binding, BindingFault> {
    if !Complete(t) then Err(InvalidBinding)
    else if b.inlineId != "" then
      if b.inlineId != t.inlineId then Err(TargetBound) else Ok(b)
    else if b.chatId != 0 && t.chatId != b.chatId then Err(TargetBound)
    else if b.messageId != 0 && t.messageId != b.messageId then Err(TargetBound)
    else if t.inlineId != "" && (b.chatId != 0 || b.messageId != 0) then Err(TargetBound)
    else Ok(b.(chatId := t.chatId, messageId := t.messageId, inlineId := Trim(t.inlineId)))
  }

  function KeyOf(b: Binding): Option<InputKey> {
    if b.actorId == 0 || b.chatId == 0 || b.inlineId != "" then None else Some(InputKey(b.actorId, b.chatId))
  }

  predicate HasTarget(b: Binding) {
    b.chatId != 0 || b.messageId != 0 || b.inlineId != ""
  }

  function CompleteTarget(b: Binding): Option<Target> {
    if b.inlineId != "" && b.chatId == 0 && b.messageId == 0 then Some(Target(0, 0, b.inlineId))
    else if b.chatId != 0 && b.messageId > 0 && b.inlineId == "" then Some(Target(b.chatId, b.messageId, ""))
    else None
  }

  /** The binding laid over an event: what it binds, and the event's own dimensions where it binds nothing. */
  function Overlay(b: Binding, event: Binding): Binding {
    Binding(if b.actorId == 0 then event.actorId else b.actorId, if b.chatId == 0 then event.chatId else b.chatId,
            if b.messageId == 0 then event.messageId else b.messageId, if b.inlineId == "" then event.inlineId else b.inlineId)
  }

  /** An event matches exactly if laying the binding over it changes nothing. */
  lemma MatchesExactly(b: Binding, event: Binding)
    ensures Matches(b, event) <==> Overlay(b, event) == event
  {
  }

  /** A valid binding is an actor, a chat, a message in a chat, or an inline message, each with or without an actor. */
  lemma ValidShapes(b: Binding)
    ensures Valid(b) <==>
            var blank := Trim(b.inlineId) == "";
            || (blank && b.chatId == 0 && b.messageId == 0 && b.actorId != 0)
            || (blank && b.chatId != 0 && b.messageId >= 0)
            || (!blank && b.chatId == 0 && b.messageId == 0)
  {
    hide Trim;
  }

  /** A normal event names the one whole target whose event it is, if there is one; input is awaited in its chat. */
  lemma EventTargets(b: Binding, t: Target)
    requires b == Normalized(b)
    ensures CompleteTarget(b) == Some(t) <==> Complete(t) && Event(b.actorId, t) == b
    ensures forall k :: KeyOf(b) == Some(k) <==> k.actorId == b.actorId != 0 && k.chatId == b.chatId != 0 && b.inlineId == ""
  {
    hide Trim;
    TrimEmpty();
  }

  /** Where an interaction with this target would come from. */
  function Event(actorId: int, t: Target): Binding {
    Binding(actorId, t.chatId, t.messageId, t.inlineId)
  }

  /**
   * Attaching a target only narrows a binding: whatever matches afterwards matched before, the actor and any
   * input key stay, and the target's own events still match.
   */
  lemma WithTargetNarrows(b: Binding, t: Target, actual: Binding)
    requires Valid(b) && WithTarget(b, t).Ok?
    ensures var r := WithTarget(b, t).value;
            && Valid(r) && HasTarget(r) && r.actorId == b.actorId
            && (Matches(r, actual) ==> Matches(b, actual))
            && (KeyOf(b).Some? ==> KeyOf(r) == KeyOf(b))
            && (Trim(t.inlineId) == t.inlineId ==> Matches(r, Event(b.actorId, t)) && WithTarget(r, t) == Ok(r))
  {
    hide Trim;
    TrimTwice(t.inlineId);
    TrimEmpty();
  }

  /** An accepted target is the binding's target from then on, whole, and the actor stays. */
  lemma WithTargetExact(b: Binding, t: Target)
    requires Valid(b) && b == Normalized(b) && WithTarget(b, t).Ok?
    ensures WithTarget(b, t).value == Binding(b.actorId, t.chatId, t.messageId, Trim(t.inlineId))
  {
    hide Trim;
    TrimEmpty();
  }

  lemma WithTargetActor(b: Binding, t: Target)
    requires WithTarget(b, t).Ok?
    ensures WithTarget(b, t).value.actorId == b.actorId
  {
    hide Trim;
  }

  /** A complete target is accepted exactly when its events match the binding already. */
  lemma WithTargetAccepts(b: Binding, t: Target)
    requires Valid(b) && Trim(t.inlineId) == t.inlineId
    ensures WithTarget(b, t).Ok? <==> Complete(t) && Matches(b, Event(b.actorId, t))
  {
    hide Trim;
    TrimEmpty();
  }

  /** A session without a target takes the target of the first complete event; from then on only that one matches. */
  lemma FirstEventClaimsTarget(b: Binding, actual: Binding, other: Binding)
    requires Valid(b) && !HasTarget(b) && Matches(b, actual)
    requires actual == Normalized(actual) && other == Normalized(other)
    requires CompleteTarget(actual).Some? && CompleteTarget(other).Some?
    ensures var r := WithTarget(b, CompleteTarget(actual).value);
            && r.Ok? && Matches(r.value, actual)
            && (Matches(r.value, other) ==> CompleteTarget(other) == CompleteTarget(actual))
  {
    hide Trim;
    TrimEmpty();
  }

  lemma TrimEmpty()
    ensures Trim("") == ""
  {
  }
}
