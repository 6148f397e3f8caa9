/** The "nearest future" rule both programs apply to an `HH:MM` start time,
    on integer seconds counted from today's midnight. */
module DayTime {
  import opened Results
  import opened Text

  const SecondsPerDay: int := 86400

  /** An hour and a minute as typed by an organiser. */
  datatype Clock = Clock(hh: nat, mm: nat)

  predicate ValidClock(c: Clock)
  {
    c.hh <= 23 && c.mm <= 59
  }

  /** Seconds from midnight to `hh:mm:00`. */
  function SecondOfDay(c: Clock): (t: int)
    requires ValidClock(c)
    ensures 0 <= t < SecondsPerDay && t % 60 == 0
  {
    c.hh * 3600 + c.mm * 60
  }

  /** `t if t > now else t + timedelta(days=1)`: the first moment strictly
      after `now` whose time of day is `t`. */
  function NearestFuture(t: int, now: int): (r: int)
    requires 0 <= t < SecondsPerDay && 0 <= now < SecondsPerDay
    ensures now < r <= now + SecondsPerDay
    ensures r % SecondsPerDay == t
  {
    if t > now then t else t + SecondsPerDay
  }

  /** There is exactly one such moment within a day after `now`. */
  lemma NearestFutureUnique(t: int, now: int, r: int)
    requires 0 <= t < SecondsPerDay && 0 <= now < SecondsPerDay
    requires now < r <= now + SecondsPerDay && r % SecondsPerDay == t
    ensures r == NearestFuture(t, now)
  {
    var q := r / SecondsPerDay;
    assert r == q * SecondsPerDay + t;
    assert 0 <= r < 2 * SecondsPerDay;
    assert q == 0 || q == 1;
  }

  /** `hh, mm = (int(x) for x in s.strip().split(":"))` and the range check
      that follows it: exactly two fields, each of ASCII digits, naming a
      valid hour and minute. */
  function ParseColonClock(s: string): (r: Option<Clock>)
    ensures r.Some? ==> ValidClock(r.value)
    ensures r.Some? ==> |SplitOn(Strip(s), ':')| == 2
  {
    var fields := SplitOn(Strip(s), ':');
    if |fields| == 2 && fields[0] != [] && AllDigits(fields[0]) && fields[1] != [] && AllDigits(fields[1]) then
      var c := Clock(DigitsValue(fields[0]), DigitsValue(fields[1]));
      if ValidClock(c) then Some(c) else None
    else None
  }

  /** Two digit fields around one colon are read as hour and minute. */
  lemma ColonClockAccepts(a: string, b: string)
    requires a != [] && AllDigits(a) && b != [] && AllDigits(b)
    requires DigitsValue(a) <= 23 && DigitsValue(b) <= 59
    ensures ParseColonClock(a + ":" + b) == Some(Clock(DigitsValue(a), DigitsValue(b)))
  {
    var s := a + ":" + b;
    assert s == a + [':'] + b;
    StripUnchanged(s);
    assert ':' !in a by {
      forall i | 0 <= i < |a| ensures a[i] != ':' {
        assert IsDigit(a[i]);
      }
    }
    assert ':' !in b by {
      forall i | 0 <= i < |b| ensures b[i] != ':' {
        assert IsDigit(b[i]);
      }
    }
    SplitField(a, ':', b);
    SplitNoSep(b, ':');
  }

  /** Reading back a clock written as `HH:MM`. */
  lemma ColonClockRoundTrip(c: Clock)
    requires ValidClock(c)
    ensures ParseColonClock(Pad2(c.hh) + ":" + Pad2(c.mm)) == Some(c)
  {
    ColonClockAccepts(Pad2(c.hh), Pad2(c.mm));
  }

  /** Without a colon there is one field, which is rejected. */
  lemma ColonClockNeedsColon(s: string)
    requires ':' !in Strip(s)
    ensures ParseColonClock(s) == None
  {
    SplitNoSep(Strip(s), ':');
  }

  /** `max(60, remain + 3600)`: how long an event's buttons stay live, given
      the seconds left until its start. */
  function ViewTimeout(remain: int): (r: int)
    ensures r >= 60 && r >= remain + 3600
    ensures r == 60 || r == remain + 3600
  {
    if remain + 3600 > 60 then remain + 3600 else 60
  }
}
