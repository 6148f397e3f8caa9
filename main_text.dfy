/** The text helpers of main.py: `_parse_pl_time`, its `fmt_users`, the
    presence and stream-link checks of `/set-status`, and the member count
    of a squad announcement. */
module MainText {
  import opened Seqs
  import opened Results
  import opened Text
  import opened DayTime
  import opened Guild

  /* --------------------------------------------------- `_parse_pl_time` */

  /** `_parse_pl_time`: an `HH:MM` start time, as seconds from today's
      midnight, strictly after `now` and at most a day after it; anything
      that is not `HH:MM` with a valid hour and minute is refused. */
  function ParsePlTime(s: string, now: int): (r: Option<int>)
    requires 0 <= now < SecondsPerDay
    ensures r.Some? <==> ParseColonClock(s).Some?
    ensures r.Some? ==> now < r.value <= now + SecondsPerDay
    ensures r.Some? ==> r.value % SecondsPerDay == SecondOfDay(ParseColonClock(s).value)
  {
    match ParseColonClock(s)
    case None => None
    case Some(c) => Some(NearestFuture(SecondOfDay(c), now))
  }

  /** A time written as `HH:MM` is the next moment of that time of day. */
  lemma ParsePlTimeWritten(c: Clock, now: int)
    requires ValidClock(c) && 0 <= now < SecondsPerDay
    ensures ParsePlTime(Pad2(c.hh) + ":" + Pad2(c.mm), now) == Some(NearestFuture(SecondOfDay(c), now))
  {
    ColonClockRoundTrip(c);
  }

  /** Any result within a day after `now` with the right time of day is
      the one returned: the rule picks today or tomorrow, nothing else. */
  lemma ParsePlTimeUnique(s: string, now: int, t: int)
    requires 0 <= now < SecondsPerDay && ParseColonClock(s).Some?
    requires now < t <= now + SecondsPerDay && t % SecondsPerDay == SecondOfDay(ParseColonClock(s).value)
    ensures ParsePlTime(s, now) == Some(t)
  {
    NearestFutureUnique(SecondOfDay(ParseColonClock(s).value), now, t);
  }

  /* ------------------------------------------------------- `fmt_users` */

  /** `f"• {m.mention} | {m.display_name}"`, or `f"• <@{uid}>"`. */
  function BulletLine(dir: Directory, uid: int): string
  {
    match dir(uid)
    case Some(m) => "\U{2022} " + m.mention + " | " + m.displayName
    case None => "\U{2022} " + RawMention(uid)
  }

  /** The lines of a non-empty listing: a bullet per shown id, then
      `… (+k)` when ids are left out. */
  function BulletLines(dir: Directory, ids: seq<int>, limit: nat): (lines: seq<string>)
    ensures |lines| == |Take(ids, limit)| + (if |ids| > limit then 1 else 0)
    ensures forall k :: 0 <= k < |Take(ids, limit)| ==> lines[k] == BulletLine(dir, ids[k])
    ensures |ids| > limit ==> lines[|lines| - 1] == OverflowBullet(|ids| - limit)
  {
    var shown := Take(ids, limit);
    seq(|shown|, k requires 0 <= k < |shown| => BulletLine(dir, shown[k]))
    + (if |ids| > limit then [OverflowBullet(|ids| - limit)] else [])
  }

  /** main.py's `fmt_users`: a dash for nobody, otherwise the lines joined
      by newlines; the dash never stands for a non-empty list. */
  function FmtUsers(dir: Directory, ids: seq<int>, limit: nat): (r: string)
    ensures r != []
    ensures r == "\U{2014}" <==> ids == []
  {
    if ids == [] then "\U{2014}"
    else
      var lines := BulletLines(dir, ids, limit);
      JoinHead(lines, "\n");
      Join(lines, "\n")
  }

  /** A join starts with its first part. */
  lemma JoinHead(parts: seq<string>, sep: string)
    requires parts != [] && parts[0] != []
    ensures Join(parts, sep) != [] && Join(parts, sep)[0] == parts[0][0]
  {
  }

  ghost predicate SingleLineMembers(dir: Directory)
  {
    forall uid :: dir(uid).Some? ==> '\n' !in dir(uid).value.mention && '\n' !in dir(uid).value.displayName
  }

  /** The listing splits back into one line per shown id plus the
      overflow line. */
  lemma FmtUsersLines(dir: Directory, ids: seq<int>, limit: nat)
    requires ids != [] && SingleLineMembers(dir)
    ensures SplitOn(FmtUsers(dir, ids, limit), '\n') == BulletLines(dir, ids, limit)
    ensures |SplitOn(FmtUsers(dir, ids, limit), '\n')| == (if |ids| > limit then limit + 1 else |ids|)
  {
    var lines := BulletLines(dir, ids, limit);
    var n := |Take(ids, limit)|;
    forall k | 0 <= k < |lines| ensures '\n' !in lines[k] {
      if k < n {
        assert lines[k] == BulletLine(dir, ids[k]);
        BulletLineSingle(dir, ids[k]);
      } else {
        assert lines[k] == OverflowBullet(|ids| - limit);
      }
    }
    SplitJoin(lines, '\n');
  }

  /** The `… (+k)` line. */
  function OverflowBullet(hidden: int): (l: string)
    ensures '\n' !in l
  {
    var d := IntToDecimal(hidden);
    assert forall k :: 0 <= k < |d| ==> d[k] != '\n';
    "\U{2026} (+" + d + ")"
  }

  lemma BulletLineSingle(dir: Directory, uid: int)
    requires SingleLineMembers(dir)
    ensures '\n' !in BulletLine(dir, uid)
  {
    if dir(uid).None? {
      assert '\n' !in RawMention(uid);
    }
  }

  /* ------------------------------------------- `_presence_from_choice` */

  datatype Status = Online | DoNotDisturb | Idle | Invisible

  /** `_presence_from_choice`: the four choice values, anything else
      online. */
  function PresenceFromChoice(choice: string): Status
  {
    if choice == "dnd" then DoNotDisturb
    else if choice == "idle" then Idle
    else if choice == "invisible" then Invisible
    else Online
  }

  /** The `value` each presence choice of `/set-status` carries. */
  function ChoiceValue(s: Status): string
  {
    match s
    case Online => "online"
    case DoNotDisturb => "dnd"
    case Idle => "idle"
    case Invisible => "invisible"
  }

  /** Every choice the command offers yields its own status, and an
      unknown value falls back to online. */
  lemma PresenceChoices(s: Status, other: string)
    requires other !in {"dnd", "idle", "invisible"}
    ensures PresenceFromChoice(ChoiceValue(s)) == s
    ensures PresenceFromChoice(other) == Online
  {
  }

  /* ------------------------------------------------ `_is_valid_stream` */

  /** `_is_valid_stream`: non-empty, and the lower-cased link names
      Twitch or YouTube. */
  predicate IsValidStream(url: string)
  {
    url != []
    && (Contains(Lower(url), "twitch.tv/") || Contains(Lower(url), "youtube.com/") || Contains(Lower(url), "youtu.be/"))
  }

  lemma LowerIdempotent(s: string)
    ensures Lower(Lower(s)) == Lower(s)
  {
  }

  lemma LowerAppend(a: string, b: string)
    ensures Lower(a + b) == Lower(a) + Lower(b)
  {
  }

  /** Upper or lower case makes no difference to the check. */
  lemma StreamCaseInsensitive(url: string)
    ensures IsValidStream(Lower(url)) == IsValidStream(url)
  {
    LowerIdempotent(url);
  }

  /** Text without capital letters is its own lower case. */
  lemma {:induction false} LowerKeeps(s: string)
    requires forall i :: 0 <= i < |s| ==> !('A' <= s[i] <= 'Z')
    ensures Lower(s) == s
  {
    if s != [] {
      LowerKeeps(s[1..]);
    }
  }

  /** A Twitch link is accepted whatever surrounds it. */
  lemma TwitchAccepted(pre: string, post: string)
    ensures IsValidStream(pre + "twitch.tv/" + post)
  {
    var m := "twitch.tv/";
    var url := pre + m + post;
    assert Lower(m) == m by {
      LowerKeeps(m);
    }
    assert Lower(url) == Lower(pre) + m + Lower(post) by {
      LowerAppend(pre + m, post);
      LowerAppend(pre, m);
    }
    assert Contains(Lower(url), m) by {
      ContainsMiddle(Lower(pre), m, Lower(post));
    }
    assert |url| >= |m|;
  }

  /** Text lacking a character of `sub` does not hold `sub`. */
  lemma {:induction false} MissingChar(s: string, sub: string, c: char)
    requires c in sub && c !in s
    ensures !Contains(s, sub)
  {
    var i :| 0 <= i < |sub| && sub[i] == c;
    assert !(sub <= s) by {
      assert i >= |s| || s[i] != c;
    }
    if s != [] {
      MissingChar(s[1..], sub, c);
    }
  }

  /** A link without a slash is refused. */
  lemma StreamNeedsSlash(url: string)
    requires '/' !in url
    ensures !IsValidStream(url)
  {
    var l := Lower(url);
    forall i | 0 <= i < |l| ensures l[i] != '/' {
      assert l[i] == LowerChar(url[i]);
    }
    MissingChar(l, "twitch.tv/", '/');
    MissingChar(l, "youtube.com/", '/');
    MissingChar(l, "youtu.be/", '/');
  }

  /* ------------------------------------------------------- squad count */

  /** `[line for line in lines if line.strip()]`. */
  function NonBlank(lines: seq<string>): (r: seq<string>)
    ensures |r| <= |lines|
    ensures forall i :: 0 <= i < |r| ==> Strip(r[i]) != []
  {
    if lines == [] then []
    else (if Strip(lines[0]) != [] then [lines[0]] else []) + NonBlank(lines[1..])
  }

  /** The member count of `create_squad_embed`: the lines of the list that
      are not blank. */
  function SquadMemberCount(membersList: string): nat
  {
    |NonBlank(SplitOn(membersList, '\n'))|
  }

  /** A list written line by line counts its non-blank lines. */
  lemma SquadCountOfLines(lines: seq<string>)
    requires lines != [] && forall i :: 0 <= i < |lines| ==> '\n' !in lines[i]
    ensures SquadMemberCount(Join(lines, "\n")) == |NonBlank(lines)|
    ensures SquadMemberCount(Join(lines, "\n")) <= |lines|
  {
    SplitJoin(lines, '\n');
  }

  /** Every line of a list that strips to something is kept. */
  lemma {:induction false} NonBlankKeepsAll(lines: seq<string>)
    requires forall i :: 0 <= i < |lines| ==> Strip(lines[i]) != []
    ensures NonBlank(lines) == lines
  {
    if lines != [] {
      NonBlankKeepsAll(lines[1..]);
    }
  }

  /** The text after the number in each line of a new squad's list. */
  const Placeholder: string := "- [Wpisz osob\U{0119}]"

  /** A line of a new squad's list: a digit, then the placeholder. */
  function TemplateLine(d: char): string
  {
    [d] + Placeholder
  }

  /** The list `/create-squad` starts with: lines `1`, `2` and `3` of the
      template, one under the other. */
  const InitialMembers: string := Join([TemplateLine('1'), TemplateLine('2'), TemplateLine('3')], "\n")

  /** A template line is a single line that is not blank. */
  lemma TemplateLineFacts(d: char)
    requires IsDigit(d)
    ensures Strip(TemplateLine(d)) == TemplateLine(d) && '\n' !in TemplateLine(d)
  {
    var l := TemplateLine(d);
    assert l[0] == d && l[|l| - 1] == ']';
    StripUnchanged(l);
  }

  /** A new squad announcement counts three members. */
  lemma InitialMembersCount()
    ensures SquadMemberCount(InitialMembers) == 3
  {
    var lines := [TemplateLine('1'), TemplateLine('2'), TemplateLine('3')];
    TemplateLineFacts('1');
    TemplateLineFacts('2');
    TemplateLineFacts('3');
    NonBlankKeepsAll(lines);
    SquadCountOfLines(lines);
  }
}
