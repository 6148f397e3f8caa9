/** The rosters of main.py: the CAPT announcement with its organiser panel
    (add and untick signups, add and untick picks, random pick, the PICK
    window), and the AirDrop announcement with a real slot limit, a
    waiting queue and the winners draw. Unlike bot.py, the AirDrop here
    has no picked list. */
module MainRoster {
  import opened Seqs
  import opened Results
  import opened Text
  import Pools

  /** The select menus of the panels take at most this many ids, and the
      untick menus and the PICK window show at most this many entries. */
  const SelectLimit: nat := 25

  /** `int(str(value).strip())` followed by `assert n > 0`, for the digit
      strings the count field admits. */
  function ParseCount(text: string): (r: Option<nat>)
    ensures r.Some? ==> r.value > 0
  {
    var t := Strip(text);
    if t != [] && AllDigits(t) && DigitsValue(t) > 0 then Some(DigitsValue(t)) else None
  }

  /** A positive count typed as `str(n)` is read back as `n`. */
  lemma ParseCountRoundTrip(n: nat)
    requires n > 0
    ensures ParseCount(NatToDecimal(n)) == Some(n)
  {
    var s := NatToDecimal(n);
    assert IsDigit(s[0]) && IsDigit(s[|s| - 1]);
    StripUnchanged(s);
    DecimalRoundTrip(n);
  }

  /** A count of zero is refused. */
  lemma ParseCountZero()
    ensures ParseCount("0") == None
  {
    assert Strip("0") == "0" by { StripUnchanged("0"); }
    assert "0"[..0] == [];
  }

  function Min(a: int, b: int): int
  {
    if a < b then a else b
  }

  /** What `random.sample(pool, k=min(n, len(pool)))` can return: distinct
      elements of the pool, as many as asked for or the whole pool. */
  predicate IsSample(sample: seq<int>, pool: seq<int>, n: nat)
  {
    NoDup(sample) && Elems(sample) <= Elems(pool) && |sample| == Min(n, |pool|)
  }

  /* ---------------------------------------------------------------- CAPT */

  datatype RandomOutcome = BadCount | EmptyPool | Drawn(count: nat)

  class CaptEvent {
    const startsAt: int
    var users: seq<int>
    var pickedList: seq<int>
    var message: Option<int>

    ghost predicate Valid()
      reads this
    {
      NoDup(users) && NoDup(pickedList)
    }

    constructor (startsAt: int)
      ensures Valid() && this.startsAt == startsAt
      ensures users == [] && pickedList == [] && message == None
    {
      this.startsAt := startsAt;
      users := [];
      pickedList := [];
      message := None;
    }

    /** "Dołącz": the id is appended only when absent. */
    method Join(uid: int)
      requires Valid()
      modifies this
      ensures Valid() && uid in users
      ensures users == if uid in old(users) then old(users) else old(users) + [uid]
      ensures pickedList == old(pickedList) && message == old(message)
    {
      if uid !in users {
        users := users + [uid];
      }
    }

    /** "Opuść": the id leaves signups and picks; `changed` says whether it
        was in either. */
    method Leave(uid: int) returns (changed: bool)
      requires Valid()
      modifies this
      ensures Valid()
      ensures users == Without(old(users), {uid}) && pickedList == Without(old(pickedList), {uid})
      ensures changed <==> uid in old(users) || uid in old(pickedList)
      ensures !changed ==> users == old(users) && pickedList == old(pickedList)
      ensures message == old(message)
    {
      changed := false;
      RemoveFirstFacts(users, uid);
      RemoveFirstFacts(pickedList, uid);
      if uid in users {
        users := RemoveFirst(users, uid);
        changed := true;
      }
      if uid in pickedList {
        pickedList := RemoveFirst(pickedList, uid);
        changed := true;
      }
    }

    /** `CaptAddSignupsView`: the chosen members not yet signed up are
        appended in order, and `added` counts them. */
    method AddSignups(ids: seq<int>) returns (added: nat)
      requires Valid() && 1 <= |ids| <= SelectLimit
      modifies this
      ensures Valid()
      ensures users == old(users) + Dedupe(Without(ids, Elems(old(users))))
      ensures Elems(users) == Elems(old(users)) + Elems(ids)
      ensures added == |Elems(ids) - Elems(old(users))|
      ensures pickedList == old(pickedList) && message == old(message)
    {
      users, added := Pools.AppendAbsent(users, ids);
    }

    /** `CaptRemoveSignupsView`: the signups are filtered, in order, by the
        ids left ticked; `removed` is the drop in length; the picked list
        loses everyone no longer signed up. */
    method RemoveSignups(keep: set<int>) returns (removed: nat)
      requires Valid()
      modifies this
      ensures Valid()
      ensures users == Keep(old(users), keep)
      ensures pickedList == Keep(old(pickedList), Elems(users))
      ensures Elems(users) == Elems(old(users)) * keep
      ensures Elems(pickedList) <= Elems(users)
      ensures removed == |old(users)| - |users| == |Elems(old(users)) - keep|
      ensures message == old(message)
    {
      var before := users;
      KeepFacts(before, keep);
      users := Keep(before, keep);
      NoDupCard(before);
      CardDiff(Elems(before), Elems(before) * keep);
      assert Elems(before) - keep == Elems(before) - Elems(before) * keep;
      removed := |before| - |users|;
      KeepFacts(pickedList, Elems(users));
      pickedList := Keep(pickedList, Elems(users));
    }

    /** `AddToPickedView`: the chosen members not yet picked are appended
        in order, and `added` counts them. */
    method AddToPicked(ids: seq<int>) returns (added: nat)
      requires Valid() && 1 <= |ids| <= SelectLimit
      modifies this
      ensures Valid()
      ensures pickedList == old(pickedList) + Dedupe(Without(ids, Elems(old(pickedList))))
      ensures Elems(pickedList) == Elems(old(pickedList)) + Elems(ids)
      ensures added == |Elems(ids) - Elems(old(pickedList))|
      ensures users == old(users) && message == old(message)
    {
      pickedList, added := Pools.AppendAbsent(pickedList, ids);
    }

    /** `RemoveFromPickedView`: the picked list is filtered, in order, by
        the ids left ticked; `removed` is the drop in length. */
    method RemoveFromPicked(keep: set<int>) returns (removed: nat)
      requires Valid()
      modifies this
      ensures Valid()
      ensures pickedList == Keep(old(pickedList), keep)
      ensures Elems(pickedList) == Elems(old(pickedList)) * keep
      ensures removed == |old(pickedList)| - |pickedList| == |Elems(old(pickedList)) - keep|
      ensures users == old(users) && message == old(message)
    {
      var before := pickedList;
      KeepFacts(before, keep);
      pickedList := Keep(before, keep);
      NoDupCard(before);
      CardDiff(Elems(before), Elems(before) * keep);
      assert Elems(before) - keep == Elems(before) - Elems(before) * keep;
      removed := |before| - |pickedList|;
    }

    /** The signups who are not picked yet, in signup order. */
    function Pool(): (r: seq<int>)
      reads this
      ensures Elems(r) == Elems(users) - Elems(pickedList)
    {
      WithoutFactsElems(users, Elems(pickedList));
      Without(users, Elems(pickedList))
    }

    /** `RandomPickModal`: a count that is not a positive integer and an
        empty pool are refused without change; otherwise the sample drawn
        from the pool is appended to the picked list, all of it, since no
        sampled id can be picked already. */
    method RandomPick(count: string, sample: seq<int>) returns (outcome: RandomOutcome)
      requires Valid() && |count| <= 3
      requires ParseCount(count).Some? && Pool() != [] ==> IsSample(sample, Pool(), ParseCount(count).value)
      modifies this
      ensures Valid()
      ensures outcome == if ParseCount(count).None? then BadCount
                         else if old(Pool()) == [] then EmptyPool
                         else Drawn(|sample|)
      ensures outcome.Drawn? ==> pickedList == old(pickedList) + sample
      ensures outcome.Drawn? ==> outcome.count == Min(ParseCount(count).value, |old(Pool())|)
      ensures !outcome.Drawn? ==> pickedList == old(pickedList)
      ensures users == old(users) && message == old(message)
    {
      var n := ParseCount(count);
      if n.None? {
        return BadCount;
      }
      if Pool() == [] {
        return EmptyPool;
      }
      forall x | x in sample ensures x !in Elems(pickedList) {
        assert x in Elems(sample);
      }
      WithoutAbsent(sample, Elems(pickedList));
      DedupeNoDup(sample);
      var added;
      pickedList, added := Pools.AppendAbsent(pickedList, sample);
      outcome := Drawn(|sample|);
    }

    /** "PICK": only the author or an administrator, and only when someone
        has signed up; the window offers the first 25 signups. */
    method OpenPick(authorised: bool) returns (p: PickView?)
      requires Valid()
      ensures p != null <==> authorised && users != []
      ensures p != null ==> fresh(p) && p.capt == this && p.offered == Take(users, SelectLimit)
    {
      if !authorised || users == [] {
        return null;
      }
      p := new PickView(this);
    }
  }

  /** The PICK window, over the first 25 signups at the time it opened. */
  class PickView {
    const capt: CaptEvent
    const offered: seq<int>

    constructor (capt: CaptEvent)
      ensures this.capt == capt && offered == Take(capt.users, SelectLimit)
    {
      this.capt := capt;
      offered := Take(capt.users, SelectLimit);
    }

    /** "Publikuj listę": nothing ticked changes nothing; otherwise the
        picked list becomes the ticked ids, first occurrences in order. */
    method Publish(chosen: seq<int>) returns (published: bool)
      requires capt.Valid()
      requires Elems(chosen) <= Elems(offered) && |chosen| <= |offered|
      modifies capt
      ensures capt.Valid()
      ensures published <==> chosen != []
      ensures published ==> capt.pickedList == Dedupe(chosen)
      ensures published ==> Elems(capt.pickedList) == Elems(chosen)
      ensures !published ==> capt.pickedList == old(capt.pickedList)
      ensures capt.users == old(capt.users) && capt.message == old(capt.message)
    {
      if chosen == [] {
        return false;
      }
      DedupeFacts(chosen);
      capt.pickedList := Dedupe(chosen);
      published := true;
    }
  }

  /** Unticking in a menu of the first 25 entries drops every entry past
      them, whatever is left ticked. */
  lemma UntickDropsTail(users: seq<int>, keep: set<int>)
    requires NoDup(users) && keep <= Elems(Take(users, SelectLimit))
    ensures forall i :: SelectLimit <= i < |users| ==> users[i] !in Keep(users, keep)
    ensures |Keep(users, keep)| <= SelectLimit
  {
    KeepPastPrefix(users, keep, SelectLimit);
    KeepFacts(users, keep);
    TakeElems(users, SelectLimit);
    ElemsCardLe(Take(users, SelectLimit));
    assert Elems(users) * keep == keep;
    CardDiff(Elems(Take(users, SelectLimit)), keep);
  }

  /* ------------------------------------------------------------- AIRDROP */

  /** The signups and the queue, as values. */
  datatype Roster = Roster(users: seq<int>, queue: seq<int>)

  /** The invariant the AirDrop keeps: no duplicates, nobody both signed up
      and queued, and never more signups than slots when slots are set. */
  ghost predicate RosterValid(r: Roster, maxSlots: int)
  {
    NoDup(r.users) && NoDup(r.queue) && Disjoint(r.users, r.queue)
    && (maxSlots > 0 ==> |r.users| <= maxSlots)
  }

  /** The loop variables of `AirdropAddSignupsView`'s callback. */
  datatype AddTally = AddTally(roster: Roster, added: nat, skippedFull: nat)

  /** One chosen id: members are passed over, a full event counts it as
      skipped, anyone else is appended and leaves the queue. */
  function AddStep(t: AddTally, uid: int, maxSlots: int): AddTally
  {
    if uid in t.roster.users then t
    else if maxSlots > 0 && |t.roster.users| >= maxSlots then t.(skippedFull := t.skippedFull + 1)
    else AddTally(Roster(t.roster.users + [uid], RemoveFirst(t.roster.queue, uid)), t.added + 1, t.skippedFull)
  }

  function AddAll(r: Roster, ids: seq<int>, maxSlots: int): AddTally
  {
    if ids == [] then AddTally(r, 0, 0)
    else AddStep(AddAll(r, ids[..|ids| - 1], maxSlots), ids[|ids| - 1], maxSlots)
  }

  ghost predicate AddFacts(r: Roster, ids: seq<int>, maxSlots: int, t: AddTally)
  {
    RosterValid(t.roster, maxSlots)
    && r.users <= t.roster.users
    && Elems(t.roster.users) <= Elems(r.users) + Elems(ids)
    && (t.skippedFull == 0 ==> Elems(t.roster.users) == Elems(r.users) + Elems(ids))
    && t.roster.queue == Without(r.queue, Elems(t.roster.users))
    && t.added == |t.roster.users| - |r.users|
    && t.added + t.skippedFull <= |ids|
    && (t.skippedFull > 0 ==> maxSlots > 0 && |t.roster.users| == maxSlots)
    && (maxSlots <= 0 ==> t.skippedFull == 0 && t.roster.users == Dedupe(r.users + ids))
  }

  lemma AddStepFacts(r: Roster, ids: seq<int>, uid: int, maxSlots: int)
    requires RosterValid(r, maxSlots)
    requires AddFacts(r, ids, maxSlots, AddAll(r, ids, maxSlots))
    ensures AddFacts(r, ids + [uid], maxSlots, AddStep(AddAll(r, ids, maxSlots), uid, maxSlots))
  {
    var t := AddAll(r, ids, maxSlots);
    var t' := AddStep(t, uid, maxSlots);
    var u := t.roster.users;
    var q := t.roster.queue;
    assert Elems(ids + [uid]) == Elems(ids) + {uid};
    assert (r.users + (ids + [uid]))[..|r.users + (ids + [uid])| - 1] == r.users + ids;
    if uid in u {
    } else if maxSlots > 0 && |u| >= maxSlots {
    } else {
      var u', q' := u + [uid], RemoveFirst(q, uid);
      assert t'.roster == Roster(u', q');
      assert Elems(u') == Elems(u) + {uid};
      assert NoDup(q') && Elems(q') == Elems(q) - {uid} && q' == Without(q, {uid}) by {
        RemoveFirstFacts(q, uid);
      }
      assert q' == Without(r.queue, Elems(u')) by {
        WithoutWithout(r.queue, Elems(u), {uid});
      }
      assert Disjoint(u', q') by {
        DisjointShrink(u, q, u, q');
        DisjointSnoc(u, q', uid);
      }
      assert NoDup(u') by {
        forall i, j | 0 <= i < j < |u'| ensures u'[i] != u'[j] {
          if j == |u| {
            assert u'[i] == u[i];
          }
        }
      }
    }
  }

  /** What the panel's add loop promises: the invariant is kept; the old
      signups stay, in order, in front; nobody new but the chosen; when
      nobody was skipped every chosen id ends up signed up; the queue only
      loses the newly signed up; `added` counts the new signups; someone is
      skipped only when the event is full; and without a limit it is plain
      append-if-absent. */
  lemma {:induction false} AddAllFacts(r: Roster, ids: seq<int>, maxSlots: int)
    requires RosterValid(r, maxSlots)
    ensures AddFacts(r, ids, maxSlots, AddAll(r, ids, maxSlots))
    ensures maxSlots <= 0 ==> AddAll(r, ids, maxSlots).roster.users == r.users + Dedupe(Without(ids, Elems(r.users)))
  {
    var t := AddAll(r, ids, maxSlots);
    assert AddFacts(r, ids, maxSlots, t) by {
      if ids == [] {
        WithoutAbsent(r.queue, Elems(r.users));
        DedupeNoDup(r.users);
        assert r.users + ids == r.users;
      } else {
        var p := ids[..|ids| - 1];
        var x := ids[|ids| - 1];
        assert p + [x] == ids;
        assert t == AddStep(AddAll(r, p, maxSlots), x, maxSlots);
        AddAllFacts(r, p, maxSlots);
        AddStepFacts(r, p, x, maxSlots);
      }
    }
    if maxSlots <= 0 {
      assert t.roster.users == Dedupe(r.users + ids);
      AppendNewFacts(r.users, ids);
    }
  }

  datatype JoinOutcome = Joined | AlreadyIn | Full

  datatype QueueOutcome = NoQueue | AlreadySignedUp | SlotsFree | AlreadyQueued | Queued

  datatype DrawOutcome = DrawBadCount | DrawEmptyPool | Winners(ids: seq<int>, fromQueue: bool)

  class AirdropEvent {
    const startsAt: int
    /** `max(0, int(max_slots or 0))`; 0 means no limit and no queue. */
    const maxSlots: int
    var users: seq<int>
    var queue: seq<int>
    var message: Option<int>

    ghost predicate Valid()
      reads this
    {
      maxSlots >= 0 && RosterValid(Roster(users, queue), maxSlots)
    }

    constructor (startsAt: int, requestedSlots: int)
      ensures Valid() && this.startsAt == startsAt
      ensures maxSlots == if requestedSlots > 0 then requestedSlots else 0
      ensures users == [] && queue == [] && message == None
    {
      this.startsAt := startsAt;
      maxSlots := if requestedSlots > 0 then requestedSlots else 0;
      users := [];
      queue := [];
      message := None;
    }

    /** "Dołącz": a member changes nothing, a full event rejects without
        change, anyone else is appended and leaves the queue. */
    method Join(uid: int) returns (outcome: JoinOutcome)
      requires Valid()
      modifies this
      ensures Valid()
      ensures outcome == if uid in old(users) then AlreadyIn
                         else if maxSlots > 0 && |old(users)| >= maxSlots then Full
                         else Joined
      ensures outcome == Joined ==> users == old(users) + [uid] && queue == Without(old(queue), {uid})
      ensures outcome != Joined ==> users == old(users) && queue == old(queue)
      ensures message == old(message)
    {
      if uid in users {
        return AlreadyIn;
      }
      if maxSlots > 0 && |users| >= maxSlots {
        return Full;
      }
      RemoveFirstFacts(queue, uid);
      DisjointShrink(users, queue, users, RemoveFirst(queue, uid));
      DisjointSnoc(users, RemoveFirst(queue, uid), uid);
      users := users + [uid];
      if uid in queue {
        queue := RemoveFirst(queue, uid);
      }
      outcome := Joined;
    }

    /** "Opuść": the id leaves signups and queue; the freed slot is not
        given to anyone from the queue. */
    method Leave(uid: int) returns (changed: bool)
      requires Valid()
      modifies this
      ensures Valid()
      ensures users == Without(old(users), {uid}) && queue == Without(old(queue), {uid})
      ensures |users| <= |old(users)|
      ensures changed <==> uid in old(users) || uid in old(queue)
      ensures message == old(message)
    {
      changed := false;
      RemoveFirstFacts(users, uid);
      RemoveFirstFacts(queue, uid);
      DisjointShrink(users, queue, RemoveFirst(users, uid), RemoveFirst(queue, uid));
      if uid in users {
        users := RemoveFirst(users, uid);
        changed := true;
      }
      if uid in queue {
        queue := RemoveFirst(queue, uid);
        changed := true;
      }
    }

    /** "Dołącz do kolejki": refused, in this order, when there is no
        limit, when already signed up, while slots are free, and when
        already queued; otherwise the id joins the end of the queue. */
    method JoinQueue(uid: int) returns (outcome: QueueOutcome)
      requires Valid()
      modifies this
      ensures Valid()
      ensures outcome == if maxSlots <= 0 then NoQueue
                         else if uid in old(users) then AlreadySignedUp
                         else if |old(users)| < maxSlots then SlotsFree
                         else if uid in old(queue) then AlreadyQueued
                         else Queued
      ensures outcome == Queued ==> queue == old(queue) + [uid]
      ensures outcome != Queued ==> queue == old(queue)
      ensures users == old(users) && message == old(message)
    {
      if maxSlots <= 0 {
        return NoQueue;
      }
      if uid in users {
        return AlreadySignedUp;
      }
      if |users| < maxSlots {
        return SlotsFree;
      }
      if uid in queue {
        return AlreadyQueued;
      }
      forall i, j | 0 <= i < j < |queue + [uid]| ensures (queue + [uid])[i] != (queue + [uid])[j] {
        if j == |queue| {
          assert (queue + [uid])[i] == queue[i];
        }
      }
      queue := queue + [uid];
      outcome := Queued;
    }

    /** `AirdropAddSignupsView`: the chosen ids are walked in order as
        `AddAll` describes, with the counts of added and skipped ids. */
    method AddSignups(ids: seq<int>) returns (added: nat, skippedFull: nat)
      requires Valid() && 1 <= |ids| <= SelectLimit
      modifies this
      ensures Valid()
      ensures AddTally(Roster(users, queue), added, skippedFull) == AddAll(Roster(old(users), old(queue)), ids, maxSlots)
      ensures message == old(message)
    {
      ghost var r0 := Roster(users, queue);
      added, skippedFull := 0, 0;
      var i := 0;
      while i < |ids|
        invariant 0 <= i <= |ids|
        invariant AddTally(Roster(users, queue), added, skippedFull) == AddAll(r0, ids[..i], maxSlots)
        invariant message == old(message)
      {
        assert ids[..i + 1][..i] == ids[..i];
        var uid := ids[i];
        if uid in users {
        } else if maxSlots > 0 && |users| >= maxSlots {
          skippedFull := skippedFull + 1;
        } else {
          users := users + [uid];
          if uid in queue {
            queue := RemoveFirst(queue, uid);
          }
          added := added + 1;
        }
        i := i + 1;
      }
      assert ids[..i] == ids;
      AddAllFacts(r0, ids, maxSlots);
    }

    /** `AirdropRemoveSignupsView`: the signups are filtered, in order, by
        the ids left ticked; the queue is not touched. */
    method RemoveSignups(keep: set<int>) returns (removed: nat)
      requires Valid()
      modifies this
      ensures Valid()
      ensures users == Keep(old(users), keep)
      ensures removed == |old(users)| - |users| == |Elems(old(users)) - keep|
      ensures queue == old(queue) && message == old(message)
    {
      var before := users;
      KeepFacts(before, keep);
      DisjointShrink(before, queue, Keep(before, keep), queue);
      users := Keep(before, keep);
      NoDupCard(before);
      CardDiff(Elems(before), Elems(before) * keep);
      assert Elems(before) - keep == Elems(before) - Elems(before) * keep;
      removed := |before| - |users|;
    }

    /** `AirdropWinnersModal`: with a limit the winners come from the
        queue, otherwise from the signups; a bad count or an empty pool is
        refused; nothing is changed either way. */
    method DrawWinners(count: string, sample: seq<int>) returns (outcome: DrawOutcome)
      requires |count| <= 3
      requires ParseCount(count).Some? && (if maxSlots > 0 then queue else users) != [] ==>
        IsSample(sample, if maxSlots > 0 then queue else users, ParseCount(count).value)
      ensures outcome == if ParseCount(count).None? then DrawBadCount
                         else if (if maxSlots > 0 then queue else users) == [] then DrawEmptyPool
                         else Winners(sample, maxSlots > 0)
      ensures ParseCount(count).None? ==> outcome == DrawBadCount
      ensures ParseCount(count).Some? && (if maxSlots > 0 then queue else users) == [] ==> outcome == DrawEmptyPool
      ensures outcome.Winners? ==> |outcome.ids| == Min(ParseCount(count).value, |if maxSlots > 0 then queue else users|)
      ensures outcome.Winners? ==> outcome.fromQueue == (maxSlots > 0) && outcome.ids == sample
      ensures outcome.Winners? ==> NoDup(outcome.ids) && 1 <= |outcome.ids| <= ParseCount(count).value
      ensures outcome.Winners? ==> Elems(outcome.ids) <= Elems(if maxSlots > 0 then queue else users)
    {
      var n := ParseCount(count);
      if n.None? {
        return DrawBadCount;
      }
      var fromQueue := maxSlots > 0;
      var pool := if fromQueue then queue else users;
      if pool == [] {
        return DrawEmptyPool;
      }
      outcome := Winners(sample, fromQueue);
    }
  }

  /** Leaving never brings anyone in from the queue, so a full event stays
      within its slots and the queue only shrinks. */
  lemma LeaveNoPromotion(r: Roster, uid: int, maxSlots: int)
    requires RosterValid(r, maxSlots)
    ensures var r' := Roster(Without(r.users, {uid}), Without(r.queue, {uid}));
      RosterValid(r', maxSlots) && Elems(r'.users) <= Elems(r.users) && Elems(r'.queue) <= Elems(r.queue)
  {
    WithoutFacts(r.users, {uid});
    WithoutFacts(r.queue, {uid});
    DisjointShrink(r.users, r.queue, Without(r.users, {uid}), Without(r.queue, {uid}));
  }
}
