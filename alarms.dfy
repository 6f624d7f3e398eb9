/** Alarm dispatch (`AlarmService`) and the registry of live push channels.
    A user who connects gets a fresh server-sent-event emitter, registered
    under the user's id (the last registration wins); the emitter's completion
    and timeout callbacks delete whatever the registry holds under that id.
    Sending an alarm persists it first and then pushes a short event to the
    receiver's emitter, if one is registered. Whether the transport accepts an
    event is an input: `delivered == false` stands for an I/O failure. */
module Alarms {
  import opened Domain
  import opened AlarmRecords
  import opened Store

  /** The idle timeout of a new emitter: one hour, in milliseconds. */
  const DEFAULT_TIMEOUT: int := 60 * 1000 * 60

  /** The event name browsers listen on. */
  const ALARM_NAME: string := "alarm"

  /** One server-sent event: its id, its name and its data. */
  datatype Event = Event(id: string, name: string, data: string)

  /** The event sent as soon as a channel opens. */
  const CONNECT_EVENT: Event := Event("", ALARM_NAME, "connect completed")

  /** The event that announces the alarm with id `alarmId`. */
  function AlarmEvent(alarmId: nat): (e: Event)
    ensures e.name == ALARM_NAME && e.data == "new alarm"
    ensures (forall i :: 0 <= i < |e.id| ==> '0' <= e.id[i] <= '9') && ParseDecimal(e.id) == alarmId
  {
    ParseNatToString(alarmId);
    Event(NatToString(alarmId), ALARM_NAME, "new alarm")
  }

  /** The connect event cannot be mistaken for an alarm: its id is empty and
      its data differs, while every alarm event has a non-empty id. */
  lemma ConnectEventDistinct(alarmId: nat)
    ensures CONNECT_EVENT.name == ALARM_NAME
    ensures CONNECT_EVENT.id != AlarmEvent(alarmId).id && CONNECT_EVENT.data != AlarmEvent(alarmId).data
  {
  }

  /** Different alarms are announced by events with different ids. */
  lemma AlarmEventIdsDiffer(a: nat, b: nat)
    requires a != b
    ensures AlarmEvent(a).id != AlarmEvent(b).id
  {
    NatToStringInjective(a, b);
  }

  /** One live push channel to one browser. `sent` is what has been delivered
      down it; `onCompletion` and `onTimeout` are the registry keys its
      installed callbacks delete (None while no callback is installed). */
  class SseEmitter {
    const timeout: int
    var sent: seq<Event>
    var onCompletion: Option<int>
    var onTimeout: Option<int>

    constructor (timeout: int)
      ensures this.timeout == timeout && sent == []
      ensures onCompletion.None? && onTimeout.None?
    {
      this.timeout := timeout;
      sent := [];
      onCompletion, onTimeout := None, None;
    }

    /** Pushes one event; it reaches the browser only if the transport
        accepts it. */
    method Send(e: Event, delivered: bool)
      modifies this`sent
      ensures sent == if delivered then old(sent) + [e] else old(sent)
    {
      if delivered {
        sent := sent + [e];
      }
    }
  }

  /** The registry of live channels: at most one emitter per user id. */
  class EmitterRepository {
    var emitters: map<int, SseEmitter>

    constructor ()
      ensures emitters == map[]
    {
      emitters := map[];
    }

    /** Registers an emitter, replacing whatever the user had. */
    method Save(userId: int, emitter: SseEmitter)
      modifies this
      ensures emitters == old(emitters)[userId := emitter]
    {
      emitters := emitters[userId := emitter];
    }

    /** The emitter registered for the user, if any. */
    function Get(userId: int): (r: Option<SseEmitter>)
      reads this
      ensures r.Some? <==> userId in emitters
      ensures r.Some? ==> r.value == emitters[userId]
    {
      if userId in emitters then Some(emitters[userId]) else None
    }

    /** Deletes the user's entry, whichever emitter it holds; deleting an
        absent entry does nothing. */
    method Delete(userId: int)
      modifies this
      ensures emitters == old(emitters) - {userId}
    {
      emitters := emitters - {userId};
    }
  }

  class AlarmService {
    const registry: EmitterRepository
    const db: Database

    constructor (registry: EmitterRepository, db: Database)
      ensures this.registry == registry && this.db == db
    {
      this.registry := registry;
      this.db := db;
    }

    /** Opens a live channel for a user: a fresh emitter is registered under
        the user's id, replacing any earlier one, its callbacks are installed,
        and the connect event is pushed. If that push fails the call reports
        ALARM_CONNECT_ERROR, and the registration stays. */
    method ConnectAlarm(userId: int, delivered: bool) returns (r: Result<SseEmitter>)
      modifies registry
      ensures userId in registry.emitters
      ensures registry.emitters == old(registry.emitters)[userId := registry.emitters[userId]]
      ensures var e := registry.emitters[userId];
        && fresh(e) && e.timeout == DEFAULT_TIMEOUT
        && e.onCompletion == Some(userId) && e.onTimeout == Some(userId)
        && (delivered ==> r == Ok(e) && e.sent == [CONNECT_EVENT])
        && (!delivered ==> r == Err(AlarmConnectError) && e.sent == [])
    {
      var emitter := new SseEmitter(DEFAULT_TIMEOUT);
      registry.Save(userId, emitter);
      emitter.onCompletion := Some(userId);
      emitter.onTimeout := Some(userId);
      emitter.Send(CONNECT_EVENT, delivered);
      if !delivered {
        return Err(AlarmConnectError);
      }
      r := Ok(emitter);
    }

    /** The transport reports that an emitter completed: its completion
        callback deletes the registry entry under its key, even when a later
        connection has since replaced the emitter there. */
    method EmitterCompleted(emitter: SseEmitter)
      modifies registry
      ensures emitter.onCompletion.Some? ==> registry.emitters == old(registry.emitters) - {emitter.onCompletion.value}
      ensures emitter.onCompletion.None? ==> registry.emitters == old(registry.emitters)
    {
      if emitter.onCompletion.Some? {
        registry.Delete(emitter.onCompletion.value);
      }
    }

    /** The transport reports that an emitter timed out: its timeout callback
        deletes the registry entry under its key, as completion does. */
    method EmitterTimedOut(emitter: SseEmitter)
      modifies registry
      ensures emitter.onTimeout.Some? ==> registry.emitters == old(registry.emitters) - {emitter.onTimeout.value}
      ensures emitter.onTimeout.None? ==> registry.emitters == old(registry.emitters)
    {
      if emitter.onTimeout.Some? {
        registry.Delete(emitter.onTimeout.value);
      }
    }

    /** The push half of a send: the event for alarm `alarmId` goes to the
        receiver's emitter if one is registered. A failed push deletes the
        registration and reports ALARM_CONNECT_ERROR; with no emitter nothing
        is pushed and the call succeeds. */
    method Notify(receiverUserId: int, alarmId: nat, delivered: bool) returns (r: Outcome)
      modifies registry, registry.emitters.Values
      ensures forall e ::
        e in old(registry.emitters.Values) && old(registry.Get(receiverUserId)) != Some(e) ==> e.sent == old(e.sent)
      ensures forall e :: e in old(registry.emitters.Values) ==>
        e.onCompletion == old(e.onCompletion) && e.onTimeout == old(e.onTimeout)
      ensures receiverUserId !in old(registry.emitters) ==>
        r == Pass && registry.emitters == old(registry.emitters)
      ensures receiverUserId in old(registry.emitters) && delivered ==>
        var e := old(registry.emitters)[receiverUserId];
        && r == Pass && registry.emitters == old(registry.emitters)
        && e.sent == old(e.sent) + [AlarmEvent(alarmId)]
      ensures receiverUserId in old(registry.emitters) && !delivered ==>
        var e := old(registry.emitters)[receiverUserId];
        && r == Fail(AlarmConnectError) && registry.emitters == old(registry.emitters) - {receiverUserId}
        && e.sent == old(e.sent)
    {
      var emitter := registry.Get(receiverUserId);
      match emitter {
        case None =>
          r := Pass;
        case Some(e) =>
          e.Send(AlarmEvent(alarmId), delivered);
          if !delivered {
            registry.Delete(receiverUserId);
            return Fail(AlarmConnectError);
          }
          r := Pass;
      }
    }

    /** Records an alarm for a user and pushes a notice to the user's live
        channel if there is one. The alarm is saved before any push, so a
        failed push (which deletes the channel and reports ALARM_CONNECT_ERROR)
        leaves the alarm in place. */
    method Send(alarmType: AlarmType, args: AlarmArgs, receiverUserId: int, now: int, delivered: bool)
      returns (r: Outcome)
      requires db.Valid()
      modifies db, registry, registry.emitters.Values
      ensures db.Valid()
      ensures forall e ::
        e in old(registry.emitters.Values) && old(registry.Get(receiverUserId)) != Some(e) ==> e.sent == old(e.sent)
      ensures forall e :: e in old(registry.emitters.Values) ==>
        e.onCompletion == old(e.onCompletion) && e.onTimeout == old(e.onTimeout)
      ensures FindUserById(old(db.users), receiverUserId).None? ==>
        && r == Fail(UserNotFound) && unchanged(db) && registry.emitters == old(registry.emitters)
        && forall e :: e in old(registry.emitters.Values) ==> e.sent == old(e.sent)
      ensures FindUserById(old(db.users), receiverUserId).Some? ==>
        var saved := Persisted(Of(receiverUserId, alarmType, args), |old(db.alarms)| + 1, now);
        && db.alarms == old(db.alarms) + [saved]
        && AlarmsOf(db.alarms, receiverUserId) == AlarmsOf(old(db.alarms), receiverUserId) + [saved]
        && db.users == old(db.users) && db.posts == old(db.posts) && db.nextPostId == old(db.nextPostId)
        && db.likes == old(db.likes) && db.comments == old(db.comments)
        && (receiverUserId !in old(registry.emitters) ==>
              r == Pass && registry.emitters == old(registry.emitters))
        && (receiverUserId in old(registry.emitters) && delivered ==>
              var e := old(registry.emitters)[receiverUserId];
              && r == Pass && registry.emitters == old(registry.emitters)
              && e.sent == old(e.sent) + [AlarmEvent(|old(db.alarms)| + 1)])
        && (receiverUserId in old(registry.emitters) && !delivered ==>
              var e := old(registry.emitters)[receiverUserId];
              && r == Fail(AlarmConnectError) && registry.emitters == old(registry.emitters) - {receiverUserId}
              && e.sent == old(e.sent))
    {
      var user := FindUserById(db.users, receiverUserId);
      if user.None? {
        return Fail(UserNotFound);
      }
      FindUserByIdRow(db.users, receiverUserId);
      var saved := db.SaveAlarm(Of(user.value.id, alarmType, args), now);
      AlarmsOfAppend(old(db.alarms), saved, receiverUserId);
      r := Notify(receiverUserId, saved.id.value, delivered);
    }
  }

  /** A user connects twice, so the second channel replaces the first in the
      registry. When the first channel then completes, its callback still
      deletes the user's entry: the second channel stays open but no longer
      receives alarms. */
  method ReplacedChannelCompletes(service: AlarmService, userId: int) returns (first: SseEmitter, second: SseEmitter)
    modifies service.registry
    ensures fresh(first) && fresh(second) && first != second
    ensures first.sent == [CONNECT_EVENT] && second.sent == [CONNECT_EVENT]
    ensures service.registry.emitters == old(service.registry.emitters) - {userId}
  {
    var r1 := service.ConnectAlarm(userId, true);
    first := r1.value;
    var r2 := service.ConnectAlarm(userId, true);
    second := r2.value;
    assert service.registry.emitters[userId] == second;
    service.EmitterCompleted(first);
  }
}
