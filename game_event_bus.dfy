/** The listener directory of GameEvents.h: a map from listener to the set of
    event kinds it subscribed to, with a broadcast send and an entity-targeted
    send. A send returns the listeners whose OnEvent it called, in call order. */
module GameEventBus {
  import opened GameEventTypes

  /** Identity of an IGameEventListener (the map key, the listener object's address). */
  type ListenerId = nat

  /** An IEntity address, possibly null. */
  datatype EntityRef = NullEntity | Entity(id: nat)

  /** The subscribed mask of each listener. */
  type Directory = map<ListenerId, set<GameEvent>>

  /** The listeners whose mask holds the kind. */
  function Recipients(listeners: Directory, kind: GameEvent): set<ListenerId>
  {
    set l | l in listeners && kind in listeners[l]
  }

  /** The listeners a targeted send addresses: with a null target every
      recipient of the broadcast, otherwise those whose entity is the target. */
  function TargetedRecipients(listeners: Directory, target: EntityRef, kind: GameEvent,
                              entityOf: ListenerId -> EntityRef): set<ListenerId>
  {
    if target == NullEntity then Recipients(listeners, kind)
    else set l | l in listeners && kind in listeners[l] && entityOf(l) == target
  }

  predicate Distinct(s: seq<ListenerId>)
  {
    forall i, j :: 0 <= i < j < |s| ==> s[i] != s[j]
  }

  /** A listener whose mask lacks the kind is never addressed, by either send. */
  lemma UnsubscribedReceivesNothing(listeners: Directory, target: EntityRef, kind: GameEvent,
                                    entityOf: ListenerId -> EntityRef, l: ListenerId)
    requires l !in listeners || kind !in listeners[l]
    ensures l !in Recipients(listeners, kind)
    ensures l !in TargetedRecipients(listeners, target, kind, entityOf)
  {
  }

  /** A targeted send never reaches beyond the broadcast, and only reaches
      listeners bound to the target. */
  lemma TargetedWithinBroadcast(listeners: Directory, target: EntityRef, kind: GameEvent,
                                entityOf: ListenerId -> EntityRef)
    ensures TargetedRecipients(listeners, target, kind, entityOf) <= Recipients(listeners, kind)
    ensures target != NullEntity ==>
      forall l :: l in TargetedRecipients(listeners, target, kind, entityOf) ==> entityOf(l) == target
  {
  }

  /** With exactly one subscribed listener bound to the target, a targeted send
      addresses exactly that listener. */
  lemma TargetedSingleMatch(listeners: Directory, target: EntityRef, kind: GameEvent,
                            entityOf: ListenerId -> EntityRef, only: ListenerId)
    requires target != NullEntity
    requires only in listeners && kind in listeners[only] && entityOf(only) == target
    requires forall l :: l in listeners && kind in listeners[l] && entityOf(l) == target ==> l == only
    ensures TargetedRecipients(listeners, target, kind, entityOf) == {only}
  {
  }

  /** With no subscribed listener bound to a non-null target, a targeted send
      addresses nobody. */
  lemma TargetedNoMatch(listeners: Directory, target: EntityRef, kind: GameEvent,
                        entityOf: ListenerId -> EntityRef)
    requires target != NullEntity
    requires forall l :: l in listeners && kind in listeners[l] ==> entityOf(l) != target
    ensures TargetedRecipients(listeners, target, kind, entityOf) == {}
  {
  }

  /** The directory as the source stores it: each listener's EGameEventMask,
      given by the kinds it was built from. */
  type MaskDirectory = map<ListenerId, seq<GameEvent>>

  /** The listeners whose mask has the kind's bit set. */
  function BitRecipients(masks: MaskDirectory, kind: GameEvent): set<ListenerId>
  {
    set l | l in masks && MaskOf(masks[l]) & Value(kind) != 0
  }

  /** Each listener's mask read as the set of kinds it holds. */
  function AsKindSets(masks: MaskDirectory): Directory
  {
    map l | l in masks :: set k | k in masks[l]
  }

  /** For every kind but None, testing the bit masks selects exactly the
      listeners the set-of-kinds directory selects, so the set view loses
      nothing. */
  lemma BitMasksAgreeWithSets(masks: MaskDirectory, kind: GameEvent)
    requires kind != None
    ensures BitRecipients(masks, kind) == Recipients(AsKindSets(masks), kind)
  {
    forall l | l in masks
      ensures (MaskOf(masks[l]) & Value(kind) != 0) <==> kind in AsKindSets(masks)[l]
    {
      MaskCheck(masks[l], kind);
    }
  }

  /** CGameEvents: the singleton listener directory. */
  class GameEvents {
    var listeners: Directory

    constructor ()
      ensures listeners == map[]
    {
      listeners := map[];
    }

    /** Broadcast SendEvent: calls OnEvent once on every listener whose mask
        holds the signal's type, in an unspecified (map) order. The directory
        is not modified. */
    method SendEvent(event: Signal) returns (notified: seq<ListenerId>)
      ensures Distinct(notified)
      ensures forall l :: l in notified <==> l in Recipients(listeners, event.Type())
    {
      notified := [];
      var pending := listeners.Keys;
      while pending != {}
        invariant pending <= listeners.Keys
        invariant forall l :: l in notified <==> l in Recipients(listeners, event.Type()) && l !in pending
        invariant Distinct(notified)
        decreases pending
      {
        var l :| l in pending;
        if event.Type() in listeners[l] {
          notified := notified + [l];
        }
        pending := pending - {l};
      }
    }

    /** Targeted SendEvent: a null target falls back to the broadcast;
        otherwise a listener is called only if its mask holds the type and its
        GetEntity() (the host function `entityOf`) is the target. */
    method SendEventToEntity(target: EntityRef, event: Signal, entityOf: ListenerId -> EntityRef)
      returns (notified: seq<ListenerId>)
      ensures Distinct(notified)
      ensures forall l :: l in notified <==> l in TargetedRecipients(listeners, target, event.Type(), entityOf)
    {
      if target == NullEntity {
        notified := SendEvent(event);
        return;
      }
      notified := [];
      var pending := listeners.Keys;
      while pending != {}
        invariant pending <= listeners.Keys
        invariant forall l :: l in notified <==>
          l in TargetedRecipients(listeners, target, event.Type(), entityOf) && l !in pending
        invariant Distinct(notified)
        decreases pending
      {
        var l :| l in pending;
        if event.Type() in listeners[l] && entityOf(l) == target {
          notified := notified + [l];
        }
        pending := pending - {l};
      }
    }
  }
}
