/** The `ACTIVE_CAPTS` and `ACTIVE_AIRDROPS` tables of bot.py and the
    commands that write and read them: `/create-capt`, `/airdrop`,
    `/panel-capt` and `/panel-airdrop`. */
module BotRegistry {
  import opened Results
  import opened DayTime
  import opened BotRoster

  /** `(guild.id, channel.id)`. */
  type Key = (int, int)

  datatype PanelError = NoActiveEvent | NotAllowed

  class Registry {
    var capts: map<Key, CaptEvent>
    var airdrops: map<Key, AirdropEvent>

    constructor ()
      ensures capts == map[] && airdrops == map[]
    {
      capts := map[];
      airdrops := map[];
    }

    /** `/create-capt`: a start time that is not `HH:MM` is refused and
        nothing is registered; otherwise a new empty event starting at the
        nearest future `HH:MM` is announced as message `msgId` and replaces
        whatever the channel held. */
    method CreateCapt(key: Key, startTime: string, now: int, msgId: int) returns (r: Option<CaptEvent>)
      requires 0 <= now < SecondsPerDay
      modifies this
      ensures airdrops == old(airdrops)
      ensures ParseColonClock(startTime).None? ==> r.None? && capts == old(capts)
      ensures ParseColonClock(startTime).Some? ==>
        r.Some? && fresh(r.value) && r.value.Valid()
        && r.value.startsAt == NearestFuture(SecondOfDay(ParseColonClock(startTime).value), now)
        && r.value.users == [] && r.value.pickedList == [] && r.value.message == Some(msgId)
        && capts == old(capts)[key := r.value]
    {
      var c := ParseColonClock(startTime);
      if c.None? {
        return None;
      }
      var ev := new CaptEvent(NearestFuture(SecondOfDay(c.value), now));
      ev.message := Some(msgId);
      capts := capts[key := ev];
      r := Some(ev);
    }

    /** `/airdrop`: the same, for an AirDrop with unlimited signups. */
    method CreateAirdrop(key: Key, startTime: string, now: int, msgId: int) returns (r: Option<AirdropEvent>)
      requires 0 <= now < SecondsPerDay
      modifies this
      ensures capts == old(capts)
      ensures ParseColonClock(startTime).None? ==> r.None? && airdrops == old(airdrops)
      ensures ParseColonClock(startTime).Some? ==>
        r.Some? && fresh(r.value) && r.value.Valid()
        && r.value.startsAt == NearestFuture(SecondOfDay(ParseColonClock(startTime).value), now)
        && r.value.maxSlots == 0
        && r.value.users == [] && r.value.queue == [] && r.value.pickedList == []
        && r.value.message == Some(msgId)
        && airdrops == old(airdrops)[key := r.value]
    {
      var c := ParseColonClock(startTime);
      if c.None? {
        return None;
      }
      var ev := new AirdropEvent(NearestFuture(SecondOfDay(c.value), now), 0);
      ev.message := Some(msgId);
      airdrops := airdrops[key := ev];
      r := Some(ev);
    }

    /** `/panel-capt`: the channel must hold an announced event, and then
        the caller must be an administrator, the event's author, or hold
        the configured role (`hasRole` is false when no role is set). */
    method CaptPanel(key: Key, admin: bool, isAuthor: bool, hasRole: bool)
      returns (r: Result<CaptEvent, PanelError>)
      ensures r.Ok? <==> key in capts && capts[key].message.Some? && (admin || isAuthor || hasRole)
      ensures r.Ok? ==> r.value == capts[key]
      ensures r.Err? ==> (r.error == NoActiveEvent <==> key !in capts || capts[key].message.None?)
    {
      if key !in capts || capts[key].message.None? {
        return Err(NoActiveEvent);
      }
      if !(admin || isAuthor || hasRole) {
        return Err(NotAllowed);
      }
      r := Ok(capts[key]);
    }

    /** `/panel-airdrop`: as `/panel-capt`, but only administrators and
        holders of the role; being the author does not count. */
    method AirdropPanel(key: Key, admin: bool, hasRole: bool)
      returns (r: Result<AirdropEvent, PanelError>)
      ensures r.Ok? <==> key in airdrops && airdrops[key].message.Some? && (admin || hasRole)
      ensures r.Ok? ==> r.value == airdrops[key]
      ensures r.Err? ==> (r.error == NoActiveEvent <==> key !in airdrops || airdrops[key].message.None?)
    {
      if key !in airdrops || airdrops[key].message.None? {
        return Err(NoActiveEvent);
      }
      if !(admin || hasRole) {
        return Err(NotAllowed);
      }
      r := Ok(airdrops[key]);
    }
  }
}
