/** The tables of main.py: `ACTIVE_CAPTS` and `ACTIVE_AIRDROPS`, keyed by
    `(guild.id, channel.id)`, and `SQUADS`, keyed by the id of the squad
    announcement; with the commands and callbacks that write and read them:
    `/create-capt`, `/airdrop`, `/panel-capt`, `/panel-airdrop`,
    `/create-squad`, the "Zarządzaj składem" button and the squad modal. */
module MainRegistry {
  import opened Results
  import opened DayTime
  import opened MainText
  import opened MainRoster

  /** `(guild.id, channel.id)`. */
  type Key = (int, int)

  datatype PanelError = NoActiveEvent | NotAllowed

  datatype SquadError = SquadNotAllowed | SquadNotFound

  /** One entry of `SQUADS`: the pinged role, the member list as last
      typed, the channel of the announcement and who created it. */
  datatype Squad = Squad(roleId: int, membersList: string, channelId: int, authorName: string)

  /** The modal's text field: `required=True, max_length=4000`. */
  const MaxMembersText: nat := 4000

  class Registry {
    var capts: map<Key, CaptEvent>
    var airdrops: map<Key, AirdropEvent>
    var squads: map<int, Squad>

    constructor ()
      ensures capts == map[] && airdrops == map[] && squads == map[]
    {
      capts := map[];
      airdrops := map[];
      squads := map[];
    }

    /** `/create-capt`: a start time that is not `HH:MM` is refused and
        nothing is registered; otherwise a new empty event starting at the
        time `_parse_pl_time` picks is announced as message `msgId` and
        replaces whatever the channel held. */
    method CreateCapt(key: Key, startTime: string, now: int, msgId: int) returns (r: Option<CaptEvent>)
      requires 0 <= now < SecondsPerDay
      modifies this
      ensures airdrops == old(airdrops) && squads == old(squads)
      ensures ParsePlTime(startTime, now).None? ==> r.None? && capts == old(capts)
      ensures ParsePlTime(startTime, now).Some? ==>
        r.Some? && fresh(r.value) && r.value.Valid()
        && r.value.startsAt == ParsePlTime(startTime, now).value
        && r.value.users == [] && r.value.pickedList == [] && r.value.message == Some(msgId)
        && capts == old(capts)[key := r.value]
    {
      var t := ParsePlTime(startTime, now);
      if t.None? {
        return None;
      }
      var ev := new CaptEvent(t.value);
      ev.message := Some(msgId);
      capts := capts[key := ev];
      r := Some(ev);
    }

    /** `/airdrop`: the same, for an AirDrop whose limit is `max_slots`
        when positive and none otherwise, with an empty queue. */
    method CreateAirdrop(key: Key, startTime: string, now: int, maxSlots: int, msgId: int) returns (r: Option<AirdropEvent>)
      requires 0 <= now < SecondsPerDay
      modifies this
      ensures capts == old(capts) && squads == old(squads)
      ensures ParsePlTime(startTime, now).None? ==> r.None? && airdrops == old(airdrops)
      ensures ParsePlTime(startTime, now).Some? ==>
        r.Some? && fresh(r.value) && r.value.Valid()
        && r.value.startsAt == ParsePlTime(startTime, now).value
        && r.value.maxSlots == (if maxSlots > 0 then maxSlots else 0)
        && r.value.users == [] && r.value.queue == [] && r.value.message == Some(msgId)
        && airdrops == old(airdrops)[key := r.value]
    {
      var t := ParsePlTime(startTime, now);
      if t.None? {
        return None;
      }
      var ev := new AirdropEvent(t.value, maxSlots);
      ev.message := Some(msgId);
      airdrops := airdrops[key := ev];
      r := Some(ev);
    }

    /** `/panel-capt`: the channel must hold an announced event, and then
        the caller must be an administrator or the event's author. */
    method CaptPanel(key: Key, admin: bool, isAuthor: bool) returns (r: Result<CaptEvent, PanelError>)
      ensures r.Ok? <==> key in capts && capts[key].message.Some? && (admin || isAuthor)
      ensures r.Ok? ==> r.value == capts[key]
      ensures r.Err? ==> (r.error == NoActiveEvent <==> key !in capts || capts[key].message.None?)
    {
      if key !in capts || capts[key].message.None? {
        return Err(NoActiveEvent);
      }
      if !(admin || isAuthor) {
        return Err(NotAllowed);
      }
      r := Ok(capts[key]);
    }

    /** `/panel-airdrop`: as `/panel-capt`. */
    method AirdropPanel(key: Key, admin: bool, isAuthor: bool) returns (r: Result<AirdropEvent, PanelError>)
      ensures r.Ok? <==> key in airdrops && airdrops[key].message.Some? && (admin || isAuthor)
      ensures r.Ok? ==> r.value == airdrops[key]
      ensures r.Err? ==> (r.error == NoActiveEvent <==> key !in airdrops || airdrops[key].message.None?)
    {
      if key !in airdrops || airdrops[key].message.None? {
        return Err(NoActiveEvent);
      }
      if !(admin || isAuthor) {
        return Err(NotAllowed);
      }
      r := Ok(airdrops[key]);
    }

    /** `/create-squad`: a caller who is not a squad admin is refused and
        nothing is stored; otherwise the announcement `msgId` is stored
        with the three-line template as its member list, replacing any
        entry under that id. */
    method CreateSquad(squadAdmin: bool, roleId: int, authorName: string, msgId: int, channelId: int)
      returns (created: bool)
      modifies this
      ensures capts == old(capts) && airdrops == old(airdrops)
      ensures created == squadAdmin
      ensures !created ==> squads == old(squads)
      ensures created ==> squads == old(squads)[msgId := Squad(roleId, InitialMembers, channelId, authorName)]
    {
      if !squadAdmin {
        return false;
      }
      squads := squads[msgId := Squad(roleId, InitialMembers, channelId, authorName)];
      created := true;
    }

    /** The "Zarządzaj składem" button: a caller who is not a squad admin
        is refused first, then an unknown announcement; otherwise the modal
        opens on the current member list. */
    method OpenEditor(squadAdmin: bool, msgId: int) returns (r: Result<string, SquadError>)
      ensures r.Ok? <==> squadAdmin && msgId in squads
      ensures r.Ok? ==> r.value == squads[msgId].membersList
      ensures r.Err? ==> (r.error == SquadNotAllowed <==> !squadAdmin)
    {
      if !squadAdmin {
        return Err(SquadNotAllowed);
      }
      if msgId !in squads {
        return Err(SquadNotFound);
      }
      r := Ok(squads[msgId].membersList);
    }

    /** The modal's submit: an unknown announcement changes nothing;
        otherwise its member list becomes the submitted text and the rest
        of the entry, and every other entry, stays. */
    method EditMembers(msgId: int, text: string) returns (found: bool)
      requires 1 <= |text| <= MaxMembersText
      modifies this
      ensures capts == old(capts) && airdrops == old(airdrops)
      ensures found <==> msgId in old(squads)
      ensures !found ==> squads == old(squads)
      ensures found ==> squads == old(squads)[msgId := old(squads)[msgId].(membersList := text)]
    {
      if msgId !in squads {
        return false;
      }
      squads := squads[msgId := squads[msgId].(membersList := text)];
      found := true;
    }
  }
}
