/** The alarm record (`AlarmEntity`): who receives it, what kind it is, who
    caused it and where, and the three timestamps the persistence layer fills
    in. Deletion is soft, and reads only see records that are not deleted. */
module AlarmRecords {
  import opened Domain

  /** One row of the alarm table. `recipient` is the id of the user who
      receives the alarm, not of the user who caused it; the latter is
      `args.fromUserId`. `id` and the timestamps are unset (None) until the
      persistence layer assigns them. */
  datatype Alarm = Alarm(
    id: Option<int>,
    recipient: int,
    alarmType: AlarmType,
    args: AlarmArgs,
    registeredAt: Option<int>,
    updatedAt: Option<int>,
    deletedAt: Option<int>)

  /** The factory: a record that carries the recipient, the kind and the
      payload, with no id and no timestamp yet. */
  function Of(recipient: int, alarmType: AlarmType, args: AlarmArgs): (a: Alarm)
    ensures a.recipient == recipient && a.alarmType == alarmType && a.args == args
    ensures a.id.None? && a.registeredAt.None? && a.updatedAt.None? && a.deletedAt.None?
  {
    Alarm(None, recipient, alarmType, args, None, None, None)
  }

  /** The hook run before the first insert: stamps the registration time. */
  function PrePersist(a: Alarm, now: int): (p: Alarm)
    ensures p.registeredAt == Some(now)
    ensures p.(registeredAt := a.registeredAt) == a
  {
    a.(registeredAt := Some(now))
  }

  /** The hook run before an update: stamps the update time. */
  function PreUpdate(a: Alarm, now: int): (p: Alarm)
    ensures p.updatedAt == Some(now)
    ensures p.(updatedAt := a.updatedAt) == a
  {
    a.(updatedAt := Some(now))
  }

  /** The row the table holds once a record has been inserted under `id` at
      time `now`: the identity column is assigned and the insert hook has run. */
  function Persisted(a: Alarm, id: int, now: int): (p: Alarm)
    ensures p.id == Some(id) && p.registeredAt == Some(now)
    ensures p.recipient == a.recipient && p.alarmType == a.alarmType && p.args == a.args
    ensures p.updatedAt == a.updatedAt && p.deletedAt == a.deletedAt
  {
    PrePersist(a.(id := Some(id)), now)
  }

  /** Deleting a record is an UPDATE of its deletion time; the row stays. The
      update hook is not run for this statement. */
  function SoftDelete(a: Alarm, now: int): (d: Alarm)
    ensures d.deletedAt == Some(now)
    ensures d.(deletedAt := a.deletedAt) == a
  {
    a.(deletedAt := Some(now))
  }

  /** The filter every read applies: only rows whose deletion time is unset. */
  predicate Visible(a: Alarm) {
    a.deletedAt.None?
  }

  /** The visible alarms addressed to `userId`, in table order. */
  function AlarmsOf(alarms: seq<Alarm>, userId: int): (r: seq<Alarm>)
    ensures |r| <= |alarms|
    ensures forall a :: a in r <==> a in alarms && a.recipient == userId && Visible(a)
  {
    if alarms == [] then []
    else
      var rest := AlarmsOf(alarms[..|alarms| - 1], userId);
      var last := alarms[|alarms| - 1];
      assert alarms == alarms[..|alarms| - 1] + [last];
      if last.recipient == userId && Visible(last) then rest + [last] else rest
  }

  /** Appending a visible alarm for `userId` appends it to what a read for
      `userId` returns, and leaves reads for other users unchanged. */
  lemma AlarmsOfAppend(alarms: seq<Alarm>, a: Alarm, userId: int)
    requires Visible(a)
    ensures AlarmsOf(alarms + [a], userId)
         == if a.recipient == userId then AlarmsOf(alarms, userId) + [a] else AlarmsOf(alarms, userId)
  {
    assert (alarms + [a])[..|alarms + [a]| - 1] == alarms;
  }

  /** A record created by the factory and then persisted is visible, is
      addressed to the recipient given to the factory, and has been registered
      but never updated. */
  lemma NewAlarmIsVisible(recipient: int, t: AlarmType, args: AlarmArgs, id: int, now: int)
    ensures var p := Persisted(Of(recipient, t, args), id, now);
      Visible(p) && p.recipient == recipient && p.args.fromUserId == args.fromUserId
      && p.registeredAt == Some(now) && p.updatedAt.None?
  {
  }
}
