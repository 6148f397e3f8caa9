/** The in-memory rosters of bot.py: the CAPT, AirDrop, MCL/ZoneWars and ping
    views, each a class whose list fields the button and select callbacks
    edit in place. Values chosen in a select or typed in a modal are method
    parameters; the preconditions say what the widget lets through. */
module BotRoster {
  import opened Seqs
  import opened Results
  import Pools
  import Text

  /** How many people the AirDrop "PICK" select takes at most. */
  const AirdropPickLimit: nat := 20

  /** The length `TextInput` lets through in the MCL label modal, and the
      slice the label is cut to. */
  const LabelMaxLength: nat := 30

  /* ---------------------------------------------------------------- CAPT */

  class CaptEvent {
    const startsAt: int
    var users: seq<int>
    var pickedList: seq<int>
    /** The announcement message id, once it has been sent. */
    var message: Option<int>

    ghost predicate Valid()
      reads this
    {
      NoDup(users) && NoDup(pickedList)
    }

    constructor (startsAt: int)
      ensures Valid() && this.startsAt == startsAt
      ensures users == [] && pickedList == [] && message == None
    {
      this.startsAt := startsAt;
      users := [];
      pickedList := [];
      message := None;
    }

    /** "Dołącz": the id is appended only when it is absent, so joining
        twice is joining once. */
    method Join(uid: int)
      requires Valid()
      modifies this
      ensures Valid() && uid in users
      ensures users == if uid in old(users) then old(users) else old(users) + [uid]
      ensures pickedList == old(pickedList) && message == old(message)
    {
      if uid !in users {
        users := users + [uid];
      }
    }

    /** "Opuść": the id leaves both pools, everything else stays in order,
        and `changed` says whether it was in either. */
    method Leave(uid: int) returns (changed: bool)
      requires Valid()
      modifies this
      ensures Valid()
      ensures users == Without(old(users), {uid}) && pickedList == Without(old(pickedList), {uid})
      ensures Elems(users) == Elems(old(users)) - {uid}
      ensures Elems(pickedList) == Elems(old(pickedList)) - {uid}
      ensures changed <==> uid in old(users) || uid in old(pickedList)
      ensures !changed ==> users == old(users) && pickedList == old(pickedList)
      ensures message == old(message)
    {
      changed := false;
      RemoveFirstFacts(users, uid);
      RemoveFirstFacts(pickedList, uid);
      if uid in users {
        users := RemoveFirst(users, uid);
        changed := true;
      }
      if uid in pickedList {
        pickedList := RemoveFirst(pickedList, uid);
        changed := true;
      }
    }

    /** `CaptAddInstantView`: up to 25 server members go onto the picked
        list; only absent ones are appended and `added` counts them. */
    method AddToPicked(ids: seq<int>) returns (added: nat)
      requires Valid() && 1 <= |ids| <= 25
      modifies this
      ensures Valid()
      ensures pickedList == old(pickedList) + Dedupe(Without(ids, Elems(old(pickedList))))
      ensures Elems(pickedList) == Elems(old(pickedList)) + Elems(ids)
      ensures added == |Elems(ids) - Elems(old(pickedList))|
      ensures users == old(users) && message == old(message)
    {
      pickedList, added := Pools.AppendAbsent(pickedList, ids);
    }

    /** `CaptRemoveInstantView`: the ticked ids leave the list and the rest
        keep their order. The options are those of the picked list when the
        view opened, so a ticked id may already be gone; `removed` (size of
        the set before minus size after) counts only the ids still listed. */
    method RemoveFromPicked(chosen: seq<int>) returns (removed: nat)
      requires Valid()
      requires 1 <= |chosen| <= 25
      modifies this
      ensures Valid()
      ensures pickedList == Without(old(pickedList), Elems(chosen))
      ensures Elems(pickedList) == Elems(old(pickedList)) - Elems(chosen)
      ensures removed == |Elems(old(pickedList)) * Elems(chosen)|
      ensures users == old(users) && message == old(message)
    {
      var before := Elems(pickedList);
      WithoutFacts(pickedList, Elems(chosen));
      pickedList := Without(pickedList, Elems(chosen));
      removed := |before| - |Elems(pickedList)|;
      RemovedCount(before, Elems(chosen));
    }
  }

  /* ------------------------------------------------------------- AIRDROP */

  datatype JoinOutcome = Joined | AlreadyIn | Full

  datatype RemoveOneOutcome = NothingChosen | Removed | NotListed

  class AirdropEvent {
    const startsAt: int
    const maxSlots: int
    var users: seq<int>
    var queue: seq<int>
    var pickedList: seq<int>
    var message: Option<int>

    ghost predicate Valid()
      reads this
    {
      NoDup(users) && NoDup(queue) && NoDup(pickedList) && Disjoint(users, queue)
      && (maxSlots > 0 ==> |users| <= maxSlots)
    }

    /** The slot count the caller asks for is ignored: signups are always
        unlimited here. */
    constructor (startsAt: int, requestedSlots: int)
      ensures Valid() && this.startsAt == startsAt && maxSlots == 0
      ensures users == [] && queue == [] && pickedList == [] && message == None
    {
      this.startsAt := startsAt;
      maxSlots := 0;
      users := [];
      queue := [];
      pickedList := [];
      message := None;
    }

    /** "Dołącz": a member changes nothing, a full event (only possible with
        a positive slot count) rejects without change, anyone else is
        appended and leaves the queue. */
    method Join(uid: int) returns (outcome: JoinOutcome)
      requires Valid()
      modifies this
      ensures Valid()
      ensures outcome == if uid in old(users) then AlreadyIn
                         else if maxSlots > 0 && |old(users)| >= maxSlots then Full
                         else Joined
      ensures outcome == Joined ==> users == old(users) + [uid] && queue == Without(old(queue), {uid})
      ensures outcome != Joined ==> users == old(users) && queue == old(queue)
      ensures pickedList == old(pickedList) && message == old(message)
    {
      if uid in users {
        outcome := AlreadyIn;
        return;
      }
      if maxSlots > 0 && |users| >= maxSlots {
        outcome := Full;
        return;
      }
      RemoveFirstFacts(queue, uid);
      DisjointShrink(users, queue, users, RemoveFirst(queue, uid));
      DisjointSnoc(users, RemoveFirst(queue, uid), uid);
      users := users + [uid];
      if uid in queue {
        queue := RemoveFirst(queue, uid);
      }
      outcome := Joined;
    }

    /** "Opuść": the id leaves signups, queue and picked list; nobody is
        promoted from the queue. */
    method Leave(uid: int) returns (changed: bool)
      requires Valid()
      modifies this
      ensures Valid()
      ensures users == Without(old(users), {uid})
      ensures queue == Without(old(queue), {uid})
      ensures pickedList == Without(old(pickedList), {uid})
      ensures changed <==> uid in old(users) || uid in old(queue) || uid in old(pickedList)
      ensures message == old(message)
    {
      changed := false;
      RemoveFirstFacts(users, uid);
      RemoveFirstFacts(queue, uid);
      RemoveFirstFacts(pickedList, uid);
      DisjointShrink(users, queue, RemoveFirst(users, uid), RemoveFirst(queue, uid));
      if uid in users {
        users := RemoveFirst(users, uid);
        changed := true;
      }
      if uid in queue {
        queue := RemoveFirst(queue, uid);
        changed := true;
      }
      if uid in pickedList {
        pickedList := RemoveFirst(pickedList, uid);
        changed := true;
      }
    }

    /** "PICK": open a picker over a snapshot of the signups, unless there
        are none. No permission check guards this button. */
    method OpenPick() returns (p: AirdropPick?)
      ensures p != null <==> users != []
      ensures p != null ==> fresh(p) && p.event == this && p.offered == users
    {
      if users == [] {
        p := null;
      } else {
        p := new AirdropPick(this);
      }
    }

    /** `AirdropAddAnyView`: append absent server members to the picked
        list; `added` counts them. */
    method AddToPicked(ids: seq<int>) returns (added: nat)
      requires Valid() && 1 <= |ids| <= 25
      modifies this
      ensures Valid()
      ensures pickedList == old(pickedList) + Dedupe(Without(ids, Elems(old(pickedList))))
      ensures added == |Elems(ids) - Elems(old(pickedList))|
      ensures users == old(users) && queue == old(queue) && message == old(message)
    {
      pickedList, added := Pools.AppendAbsent(pickedList, ids);
    }

    /** `AirdropRemovePickedView`: drop the ticked ids; survivors keep their
        order, and `removed` counts the ticked ids that were still listed
        (the options are those of the list when the view opened). */
    method RemoveFromPicked(chosen: seq<int>) returns (removed: nat)
      requires Valid()
      requires 1 <= |chosen| <= 25
      modifies this
      ensures Valid()
      ensures pickedList == Without(old(pickedList), Elems(chosen))
      ensures Elems(pickedList) == Elems(old(pickedList)) - Elems(chosen)
      ensures removed == |Elems(old(pickedList)) * Elems(chosen)|
      ensures users == old(users) && queue == old(queue) && message == old(message)
    {
      var before := Elems(pickedList);
      WithoutFacts(pickedList, Elems(chosen));
      pickedList := Without(pickedList, Elems(chosen));
      removed := |before| - |Elems(pickedList)|;
      RemovedCount(before, Elems(chosen));
    }

    /** The panel's "Wyczyść wytypowanych". */
    method ClearPicked()
      requires Valid()
      modifies this
      ensures Valid() && pickedList == []
      ensures users == old(users) && queue == old(queue) && message == old(message)
    {
      pickedList := [];
    }

    /** `AddPickedView`: "Dodaj" with one server member chosen, or with
        nothing chosen yet (then nothing happens). */
    method AddOne(choice: Option<int>)
      requires Valid()
      modifies this
      ensures Valid()
      ensures pickedList == match choice
        case None => old(pickedList)
        case Some(uid) => if uid in old(pickedList) then old(pickedList) else old(pickedList) + [uid]
      ensures users == old(users) && queue == old(queue) && message == old(message)
    {
      if choice.None? {
        return;
      }
      var uid := choice.value;
      if uid !in pickedList {
        pickedList := pickedList + [uid];
      }
    }

    /** `RemovePickedView`: "Usuń" removes the chosen member if listed and
        otherwise says so. */
    method RemoveOne(choice: Option<int>) returns (outcome: RemoveOneOutcome)
      requires Valid()
      modifies this
      ensures Valid()
      ensures outcome == match choice
        case None => NothingChosen
        case Some(uid) => if uid in old(pickedList) then Removed else NotListed
      ensures choice.Some? ==> pickedList == Without(old(pickedList), {choice.value})
      ensures choice.None? ==> pickedList == old(pickedList)
      ensures users == old(users) && queue == old(queue) && message == old(message)
    {
      if choice.None? {
        outcome := NothingChosen;
        return;
      }
      var uid := choice.value;
      RemoveFirstFacts(pickedList, uid);
      if uid in pickedList {
        pickedList := RemoveFirst(pickedList, uid);
        outcome := Removed;
      } else {
        outcome := NotListed;
      }
    }
  }

  /** `AirdropPickView`: a select over every signup at the time of opening,
      at most 20 of them ticked. */
  class AirdropPick {
    const event: AirdropEvent
    const offered: seq<int>

    constructor (event: AirdropEvent)
      ensures this.event == event && offered == event.users
    {
      this.event := event;
      offered := event.users;
    }

    /** "Publikuj Wytypowanych": nothing ticked changes nothing; otherwise
        the ticked ids are merged into the picked list, de-duplicated, so
        the existing entries keep their places and order. */
    method Publish(chosen: seq<int>) returns (published: bool)
      requires event.Valid()
      requires Elems(chosen) <= Elems(offered)
      requires |chosen| <= AirdropPickLimit && |chosen| <= |offered|
      modifies event
      ensures event.Valid()
      ensures published <==> chosen != []
      ensures published ==> event.pickedList == Dedupe(old(event.pickedList) + chosen)
      ensures event.pickedList == old(event.pickedList) + Dedupe(Without(chosen, Elems(old(event.pickedList))))
      ensures event.users == old(event.users) && event.queue == old(event.queue)
      ensures event.message == old(event.message)
    {
      AppendNewFacts(event.pickedList, chosen);
      if chosen == [] {
        assert event.pickedList + chosen == event.pickedList;
        DedupeNoDup(event.pickedList);
        published := false;
        return;
      }
      event.pickedList := Dedupe(event.pickedList + chosen);
      published := true;
    }
  }

  /* ---------------------------------------------------------- MCL / ZoneWars */

  class MclEvent {
    const maxPick: int
    var signups: seq<int>
    /** The "Imię Nazwisko | UID" text each signup typed. */
    var inputMap: map<int, string>
    var selectedIds: seq<int>
    /** The labels organisers attach to selected players. */
    var extraLabels: map<int, string>
    var message: Option<int>

    ghost predicate Valid()
      reads this
    {
      NoDup(signups) && NoDup(selectedIds) && inputMap.Keys == Elems(signups) && maxPick >= 1
    }

    /** `max(1, max_pick)`: MCL asks for 20, ZoneWars for 25. */
    constructor (requestedPick: int)
      ensures Valid() && maxPick == if requestedPick < 1 then 1 else requestedPick
      ensures signups == [] && inputMap == map[] && selectedIds == [] && extraLabels == map[]
      ensures message == None
    {
      maxPick := if requestedPick < 1 then 1 else requestedPick;
      signups := [];
      inputMap := map[];
      selectedIds := [];
      extraLabels := map[];
      message := None;
    }

    /** `add_or_update_signup`: the id is appended only when new, and the
        newest text always replaces the stored one. */
    method AddOrUpdateSignup(uid: int, text: string)
      requires Valid()
      modifies this
      ensures Valid()
      ensures signups == if uid in old(signups) then old(signups) else old(signups) + [uid]
      ensures inputMap == old(inputMap)[uid := text]
      ensures selectedIds == old(selectedIds) && extraLabels == old(extraLabels)
      ensures message == old(message)
    {
      if uid !in signups {
        signups := signups + [uid];
      }
      inputMap := inputMap[uid := text];
    }

    /** `MclSignupModal.on_submit`: the typed text (3 to 80 characters) is
        stored stripped of surrounding whitespace. */
    method SubmitSignup(uid: int, typed: string)
      requires Valid() && 3 <= |typed| <= 80
      modifies this
      ensures Valid()
      ensures uid in signups && inputMap[uid] == Text.Strip(typed)
      ensures signups == if uid in old(signups) then old(signups) else old(signups) + [uid]
      ensures inputMap == old(inputMap)[uid := Text.Strip(typed)]
      ensures selectedIds == old(selectedIds) && extraLabels == old(extraLabels)
      ensures message == old(message)
    {
      AddOrUpdateSignup(uid, Text.Strip(typed));
    }

    /** `remove_signup`: the id leaves signups and selection; its text and
        label are always dropped; `changed` reports only the two lists. */
    method RemoveSignup(uid: int) returns (changed: bool)
      requires Valid()
      modifies this
      ensures Valid()
      ensures signups == Without(old(signups), {uid})
      ensures selectedIds == Without(old(selectedIds), {uid})
      ensures inputMap == old(inputMap) - {uid} && extraLabels == old(extraLabels) - {uid}
      ensures changed <==> uid in old(signups) || uid in old(selectedIds)
      ensures message == old(message)
    {
      changed := false;
      RemoveFirstFacts(signups, uid);
      RemoveFirstFacts(selectedIds, uid);
      if uid in signups {
        signups := RemoveFirst(signups, uid);
        changed := true;
      }
      if uid in selectedIds {
        selectedIds := RemoveFirst(selectedIds, uid);
        changed := true;
      }
      inputMap := inputMap - {uid};
      extraLabels := extraLabels - {uid};
    }

    /** "Wystaw na event (ADMIN)": authorised organisers get a picker over
        the first 25 signups, if there are any. */
    method OpenPick(authorised: bool) returns (p: MclPick?)
      ensures p != null <==> authorised && signups != []
      ensures p != null ==> fresh(p) && p.event == this && p.offered == Take(signups, 25)
    {
      if !authorised || signups == [] {
        p := null;
      } else {
        p := new MclPick(this);
      }
    }
  }

  /** `MclPickView` (and `ZoneWarsPickView`, which adds nothing): a select
      over the first 25 signups, at most `maxPick` ticked. */
  class MclPick {
    const event: MclEvent
    const offered: seq<int>

    constructor (event: MclEvent)
      ensures this.event == event && offered == Take(event.signups, 25)
    {
      this.event := event;
      offered := Take(event.signups, 25);
    }

    /** "Publikuj listę": nothing ticked changes nothing; otherwise the
        selection becomes the ticked ids in first-seen order and a
        selection panel over a copy of it is published. */
    method Publish(chosen: seq<int>) returns (panel: MclSelection?)
      requires event.Valid()
      requires Elems(chosen) <= Elems(offered)
      requires |chosen| <= event.maxPick && |chosen| <= |offered|
      modifies event
      ensures event.Valid()
      ensures panel == null <==> chosen == []
      ensures chosen == [] ==> event.selectedIds == old(event.selectedIds)
      ensures chosen != [] ==> event.selectedIds == Dedupe(chosen)
      ensures Elems(event.selectedIds) == if chosen == [] then Elems(old(event.selectedIds)) else Elems(chosen)
      ensures panel != null ==> fresh(panel) && panel.parent == event && panel.selectedIds == event.selectedIds
      ensures panel != null ==> panel.Valid()
      ensures event.signups == old(event.signups) && event.inputMap == old(event.inputMap)
      ensures event.extraLabels == old(event.extraLabels) && event.message == old(event.message)
    {
      if chosen == [] {
        panel := null;
        return;
      }
      DedupeFacts(chosen);
      event.selectedIds := Dedupe(chosen);
      panel := new MclSelection(event);
    }
  }

  /** `MclSelectedView`: its own copy of the selection, taken when it is
      published, and the event's text and label dictionaries themselves
      (shared, not copied). */
  class MclSelection {
    const parent: MclEvent
    var selectedIds: seq<int>

    ghost predicate Valid()
      reads this, parent
    {
      NoDup(selectedIds) && parent.Valid()
    }

    constructor (parent: MclEvent)
      requires parent.Valid()
      ensures Valid() && this.parent == parent && selectedIds == parent.selectedIds
    {
      this.parent := parent;
      selectedIds := parent.selectedIds;
    }

    /** `MclPanelAddView`: the select offers signups missing from this copy
        of the selection when the panel was built; the callback appends the
        chosen id only if the copy still lacks it, and then overwrites the
        event's selection with the copy. */
    method PanelAdd(uid: int)
      requires Valid()
      modifies this, parent
      ensures Valid()
      ensures selectedIds == if uid in old(selectedIds) then old(selectedIds) else old(selectedIds) + [uid]
      ensures uid !in old(selectedIds) ==> parent.selectedIds == selectedIds
      ensures uid in old(selectedIds) ==> parent.selectedIds == old(parent.selectedIds)
      ensures parent.signups == old(parent.signups) && parent.inputMap == old(parent.inputMap)
      ensures parent.extraLabels == old(parent.extraLabels) && parent.message == old(parent.message)
    {
      if uid !in selectedIds {
        selectedIds := selectedIds + [uid];
        parent.selectedIds := selectedIds;
      }
    }

    /** `MclPanelRemoveView`: the chosen id is filtered out of this copy
        when the copy still holds it, and the event's selection is then
        overwritten with the copy; otherwise nothing changes. */
    method PanelRemove(uid: int)
      requires Valid()
      modifies this, parent
      ensures Valid()
      ensures selectedIds == Without(old(selectedIds), {uid})
      ensures uid !in old(selectedIds) ==> selectedIds == old(selectedIds)
      ensures uid in old(selectedIds) ==> parent.selectedIds == selectedIds
      ensures uid !in old(selectedIds) ==> parent.selectedIds == old(parent.selectedIds)
      ensures parent.signups == old(parent.signups) && parent.inputMap == old(parent.inputMap)
      ensures parent.extraLabels == old(parent.extraLabels) && parent.message == old(parent.message)
    {
      WithoutFacts(selectedIds, {uid});
      if uid in selectedIds {
        selectedIds := Without(selectedIds, {uid});
        parent.selectedIds := selectedIds;
      } else {
        WithoutAbsent(selectedIds, {uid});
      }
    }

    /** The later `MclAssignLabelModal`: the typed label (at most 30
        characters) is stripped; a non-empty one is stored for the player,
        an empty one removes the player's label. The player is the one
        chosen when the modal opened, whether or not still selected. */
    method AssignLabel(uid: int, typed: string)
      requires Valid() && |typed| <= LabelMaxLength
      modifies parent
      ensures Valid()
      ensures var t := Text.Strip(typed);
        parent.extraLabels == if t != [] then old(parent.extraLabels)[uid := Take(t, LabelMaxLength)]
                              else old(parent.extraLabels) - {uid}
      ensures var t := Text.Strip(typed); t != [] ==> parent.extraLabels[uid] == t
      ensures parent.signups == old(parent.signups) && parent.selectedIds == old(parent.selectedIds)
      ensures parent.inputMap == old(parent.inputMap) && parent.message == old(parent.message)
    {
      var t := Text.Strip(typed);
      if t != [] {
        parent.extraLabels := parent.extraLabels[uid := Take(t, LabelMaxLength)];
      } else {
        parent.extraLabels := parent.extraLabels - {uid};
      }
    }
  }

  /* --------------------------------------------------------------- pings */

  /** The `PV` view of the ping commands (Cayo, Zancudo, Magazyny, Dilerzy
      are the same view). */
  class PingRoster {
    var users: seq<int>

    ghost predicate Valid()
      reads this
    {
      NoDup(users)
    }

    constructor ()
      ensures Valid() && users == []
    {
      users := [];
    }

    /** "Będę": append the id if absent. */
    method Bede(uid: int)
      requires Valid()
      modifies this
      ensures Valid() && uid in users
      ensures users == if uid in old(users) then old(users) else old(users) + [uid]
    {
      if uid !in users {
        users := users + [uid];
      }
    }
  }
}
