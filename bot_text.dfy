/** The text helpers of bot.py: the digit-run time parser of the ping
    commands, the listing formatters and the greedy message chunker. */
module BotText {
  import opened Seqs
  import opened Results
  import opened Text
  import opened DayTime
  import opened Guild

  /* ------------------------------------------------- `_parse_hhmm_to_dt` */

  /** The two `ValueError` messages of the parser. */
  datatype TimeError = BadFormat | OutOfRange

  /** `re.findall(r"\d+", s)` over ASCII digits: the maximal digit runs, in
      order. `cur` is the run being read. */
  function RunsFrom(s: string, cur: string): (runs: seq<string>)
    requires AllDigits(cur)
    ensures forall i :: 0 <= i < |runs| ==> runs[i] != [] && AllDigits(runs[i])
    decreases |s|
  {
    if s == [] then (if cur == [] then [] else [cur])
    else if IsDigit(s[0]) then RunsFrom(s[1..], cur + [s[0]])
    else (if cur == [] then [] else [cur]) + RunsFrom(s[1..], [])
  }

  function DigitRuns(s: string): (runs: seq<string>)
    ensures forall i :: 0 <= i < |runs| ==> runs[i] != [] && AllDigits(runs[i])
  {
    RunsFrom(s, [])
  }

  lemma {:induction false} RunsFromDigits(d: string, s: string, cur: string)
    requires AllDigits(d) && AllDigits(cur)
    ensures RunsFrom(d + s, cur) == RunsFrom(s, cur + d)
  {
    if d != [] {
      assert (d + s)[1..] == d[1..] + s;
      assert cur + [d[0]] + d[1..] == cur + d;
      RunsFromDigits(d[1..], s, cur + [d[0]]);
    } else {
      assert d + s == s && cur + d == cur;
    }
  }

  /** One digit string on its own is one run. */
  lemma OneRun(d: string)
    requires d != [] && AllDigits(d)
    ensures DigitRuns(d) == [d]
  {
    RunsFromDigits(d, [], []);
    assert d + [] == d && [] + d == d;
  }

  /** Two digit strings around a non-digit are two runs. */
  lemma TwoRuns(a: string, sep: char, b: string)
    requires a != [] && AllDigits(a) && b != [] && AllDigits(b) && !IsDigit(sep)
    ensures DigitRuns(a + [sep] + b) == [a, b]
  {
    assert a + [sep] + b == a + ([sep] + b);
    RunsFromDigits(a, [sep] + b, []);
    assert [] + a == a;
    assert ([sep] + b)[1..] == b;
    RunsFromDigits(b, [], []);
    assert b + [] == b && [] + b == b;
  }

  /** Hour and minute before the range check, from the digit runs. */
  function ClockFromRuns(runs: seq<string>): (r: Result<Clock, TimeError>)
    requires forall i :: 0 <= i < |runs| ==> runs[i] != [] && AllDigits(runs[i])
    ensures r.Err? ==> r.error == BadFormat
    ensures r.Ok? <==> |runs| >= 2 || (|runs| == 1 && 3 <= |runs[0]| <= 4)
  {
    if |runs| >= 2 then Ok(Clock(DigitsValue(runs[0]), DigitsValue(runs[1])))
    else if |runs| == 1 && (|runs[0]| == 3 || |runs[0]| == 4) then
      var p := runs[0];
      AllDigitsSlice(p, 0, |p| - 2);
      AllDigitsSlice(p, |p| - 2, |p|);
      Ok(Clock(DigitsValue(p[..|p| - 2]), DigitsValue(p[|p| - 2..])))
    else Err(BadFormat)
  }

  /** `_parse_hhmm_to_dt` up to the clock: "19:00", "19.00", "19 00",
      "1900" and "930" are accepted; anything else is a bad format, and
      an hour above 23 or a minute above 59 is out of range. */
  function ParseHhmm(raw: string): (r: Result<Clock, TimeError>)
    ensures r.Ok? ==> ValidClock(r.value)
  {
    match ClockFromRuns(DigitRuns(Strip(raw)))
    case Err(e) => Err(e)
    case Ok(c) => if ValidClock(c) then Ok(c) else Err(OutOfRange)
  }

  /** The whole parser: the start time as seconds from today's midnight,
      strictly after `now` and at most one day after it. */
  function ParseHhmmToDt(raw: string, now: int): (r: Result<int, TimeError>)
    requires 0 <= now < SecondsPerDay
    ensures r.Ok? <==> ParseHhmm(raw).Ok?
    ensures r.Ok? ==> now < r.value <= now + SecondsPerDay
    ensures r.Ok? ==> r.value % SecondsPerDay == SecondOfDay(ParseHhmm(raw).value)
    ensures r.Err? ==> r.error == ParseHhmm(raw).error
  {
    match ParseHhmm(raw)
    case Err(e) => Err(e)
    case Ok(c) => Ok(NearestFuture(SecondOfDay(c), now))
  }

  lemma DigitsNotSpace(s: string)
    requires s != [] && AllDigits(s)
    ensures Strip(s) == s
  {
    assert IsDigit(s[0]) && IsDigit(s[|s| - 1]);
    StripUnchanged(s);
  }

  /** `HH<sep>MM` with any non-digit non-space separator is read back. */
  lemma HhmmSeparated(c: Clock, sep: char)
    requires ValidClock(c) && !IsDigit(sep)
    ensures ParseHhmm(Pad2(c.hh) + [sep] + Pad2(c.mm)) == Ok(c)
  {
    var s := Pad2(c.hh) + [sep] + Pad2(c.mm);
    assert s[0] == Pad2(c.hh)[0] && s[|s| - 1] == Pad2(c.mm)[1];
    StripUnchanged(s);
    TwoRuns(Pad2(c.hh), sep, Pad2(c.mm));
  }

  lemma ShortDecimal(n: nat)
    requires n < 100
    ensures 1 <= |NatToDecimal(n)| <= 2
  {
  }

  /** The hour in plain decimal followed by two minute digits, as in "930"
      or "1900", is read back. */
  lemma HhmmCompact(c: Clock)
    requires ValidClock(c)
    ensures ParseHhmm(NatToDecimal(c.hh) + Pad2(c.mm)) == Ok(c)
  {
    var h := NatToDecimal(c.hh);
    var p := h + Pad2(c.mm);
    ShortDecimal(c.hh);
    DigitsNotSpace(p);
    OneRun(p);
    assert p[..|p| - 2] == h;
    assert p[|p| - 2..] == Pad2(c.mm);
    DecimalRoundTrip(c.hh);
  }

  /** Text without any digit is a bad format. */
  lemma NoDigitsRejected(raw: string)
    requires forall i :: 0 <= i < |raw| ==> !IsDigit(raw[i])
    ensures ParseHhmm(raw) == Err(BadFormat)
  {
    var s := Strip(raw);
    NoRuns(s, []);
  }

  lemma {:induction false} NoRuns(s: string, cur: string)
    requires cur == [] && forall i :: 0 <= i < |s| ==> !IsDigit(s[i])
    ensures RunsFrom(s, cur) == []
  {
    if s != [] {
      NoRuns(s[1..], []);
    }
  }

  /** Two runs with an hour of 24 or more are out of range. */
  lemma LateHourRejected(a: string, sep: char, b: string)
    requires a != [] && AllDigits(a) && b != [] && AllDigits(b) && !IsDigit(sep)
    requires DigitsValue(a) > 23 && !IsSpace(a[0]) && !IsSpace(b[|b| - 1])
    ensures ParseHhmm(a + [sep] + b) == Err(OutOfRange)
  {
    var s := a + [sep] + b;
    assert s[0] == a[0] && s[|s| - 1] == b[|b| - 1];
    StripUnchanged(s);
    TwoRuns(a, sep, b);
  }

  /* ------------------------------------------------------- `fmt_users` */

  /** `[line(start + k, ids[k]) for k in range(len(ids))]`, built the way
      the listing loops build it, one line appended at a time. */
  function NumberedMap(line: (int, int) -> string, ids: seq<int>, start: int): (lines: seq<string>)
    ensures |lines| == |ids|
  {
    if ids == [] then [] else NumberedMap(line, ids[..|ids| - 1], start) + [line(start + |ids| - 1, ids[|ids| - 1])]
  }

  /** Line `k` is `line(start + k, ids[k])`. */
  lemma {:induction false} NumberedMapAt(line: (int, int) -> string, ids: seq<int>, start: int, k: int)
    requires 0 <= k < |ids|
    ensures NumberedMap(line, ids, start)[k] == line(start + k, ids[k])
  {
    var p := ids[..|ids| - 1];
    if k < |p| {
      NumberedMapAt(line, p, start, k);
    }
  }

  /** Lines that are single lines one by one are single lines as a list. */
  lemma NumberedMapSingle(line: (int, int) -> string, ids: seq<int>, start: int)
    requires forall i, uid :: '\n' !in line(i, uid)
    ensures forall k :: 0 <= k < |ids| ==> '\n' !in NumberedMap(line, ids, start)[k]
  {
    forall k | 0 <= k < |ids| ensures '\n' !in NumberedMap(line, ids, start)[k] {
      var i, uid := start + k, ids[k];
      assert '\n' !in line(i, uid);
      NumberedMapAt(line, ids, start, k);
    }
  }

  /** `input_map.get(uid)` or `extra_labels.get(uid)`, kept only when
      truthy. */
  function Present(m: map<int, string>, uid: int): (r: seq<string>)
    ensures |r| <= 1 && (r != [] <==> uid in m && m[uid] != [])
  {
    if uid in m && |m[uid]| > 0 then [m[uid]] else []
  }

  /** What an optional part adds to a line: `" | "` and the part. */
  function FieldOf(p: seq<string>): string
  {
    if p == [] then "" else " | " + p[0]
  }

  /** `f"{idx}. "` and the mention, then the signup text and the label
      when they are present, each after `" | "`. */
  function UserLine(dir: Directory, inputMap: map<int, string>, labels: map<int, string>,
                    idx: int, uid: int): string
  {
    IntToDecimal(idx) + ". " + MentionOf(dir, uid) + FieldOf(Present(inputMap, uid)) + FieldOf(Present(labels, uid))
  }

  /** `" | ".join` of a first part and at most two optional ones. */
  lemma JoinFields(m: string, a: seq<string>, b: seq<string>)
    requires |a| <= 1 && |b| <= 1
    ensures Join([m] + a + b, " | ") == m + FieldOf(a) + FieldOf(b)
  {
    var parts := [m] + a + b;
    if a == [] && b == [] {
      assert parts == [m];
    } else if a == [] {
      assert parts == [m, b[0]] && parts[1..] == [b[0]];
    } else if b == [] {
      assert parts == [m, a[0]] && parts[1..] == [a[0]];
    } else {
      assert parts == [m, a[0], b[0]] && parts[1..] == [a[0], b[0]] && parts[1..][1..] == [b[0]];
      assert Join(parts[1..], " | ") == a[0] + " | " + b[0];
      assert m + " | " + (a[0] + " | " + b[0]) == m + (" | " + a[0]) + (" | " + b[0]);
    }
  }

  /** The line is `f"{idx}. " + " | ".join(parts)` for the parts `fmt_users`
      collects: the mention, then whichever of the signup text and the
      label is present. */
  lemma UserLineJoin(dir: Directory, inputMap: map<int, string>, labels: map<int, string>, idx: int, uid: int)
    ensures UserLine(dir, inputMap, labels, idx, uid)
            == IntToDecimal(idx) + ". " + Join([MentionOf(dir, uid)] + Present(inputMap, uid) + Present(labels, uid), " | ")
  {
    JoinFields(MentionOf(dir, uid), Present(inputMap, uid), Present(labels, uid));
  }

  /** `(+k)` for the ids past the limit. */
  function OverflowLine(hidden: int): (l: string)
    ensures '\n' !in l
  {
    "(+" + IntToDecimal(hidden) + ")"
  }

  function UserLineOf(dir: Directory, inputMap: map<int, string>, labels: map<int, string>): (int, int) -> string
  {
    (idx: int, uid: int) => UserLine(dir, inputMap, labels, idx, uid)
  }

  /** The lines `fmt_users` joins: the first `limit` ids numbered from
      `start`, then one overflow line when ids are left out. */
  function FmtLines(dir: Directory, inputMap: map<int, string>, labels: map<int, string>,
                    ids: seq<int>, start: int, limit: nat): (lines: seq<string>)
    ensures |lines| == |Take(ids, limit)| + (if |ids| > limit then 1 else 0)
    ensures lines[..|Take(ids, limit)|] == NumberedMap(UserLineOf(dir, inputMap, labels), Take(ids, limit), start)
    ensures |ids| > limit ==> lines[|lines| - 1] == OverflowLine(|ids| - limit)
  {
    var shown := Take(ids, limit);
    var main := NumberedMap(UserLineOf(dir, inputMap, labels), shown, start);
    var lines := main + (if |ids| > limit then [OverflowLine(|ids| - limit)] else []);
    assert lines[..|shown|] == main;
    lines
  }

  /** The loop of `fmt_users` over the ids it shows. */
  method ShownLines(dir: Directory, inputMap: map<int, string>, labels: map<int, string>,
                    shown: seq<int>, start: int) returns (lines: seq<string>)
    ensures lines == NumberedMap(UserLineOf(dir, inputMap, labels), shown, start)
  {
    lines := [];
    var i := 0;
    while i < |shown|
      invariant 0 <= i <= |shown|
      invariant lines == NumberedMap(UserLineOf(dir, inputMap, labels), shown[..i], start)
    {
      var line := UserLine(dir, inputMap, labels, start + i, shown[i]);
      assert NumberedMap(UserLineOf(dir, inputMap, labels), shown[..i + 1], start) == lines + [line] by {
        assert shown[..i + 1][..i] == shown[..i];
        assert UserLineOf(dir, inputMap, labels)(start + i, shown[i]) == line;
      }
      lines := lines + [line];
      i := i + 1;
    }
    assert shown[..i] == shown;
  }

  /** `fmt_users`: "" for no ids, otherwise the lines joined by newlines. */
  method FmtUsers(dir: Directory, inputMap: map<int, string>, labels: map<int, string>,
                  ids: seq<int>, start: int, limit: nat) returns (text: string)
    ensures ids == [] ==> text == ""
    ensures ids != [] ==> text == Join(FmtLines(dir, inputMap, labels, ids, start, limit), "\n")
  {
    if ids == [] {
      return "";
    }
    var shown := Take(ids, limit);
    var lines := ShownLines(dir, inputMap, labels, shown, start);
    ghost var main := lines;
    if |ids| > limit {
      lines := lines + [OverflowLine(|ids| - limit)];
    }
    assert lines == FmtLines(dir, inputMap, labels, ids, start, limit) by {
      assert lines == main + (if |ids| > limit then [OverflowLine(|ids| - limit)] else []);
    }
    text := Join(lines, "\n");
  }

  predicate NoNewline(s: string)
  {
    '\n' !in s
  }

  /** Mentions, signup texts and labels that are single lines. */
  ghost predicate SingleLineSources(dir: Directory, inputMap: map<int, string>, labels: map<int, string>)
  {
    (forall uid :: dir(uid).Some? ==> NoNewline(dir(uid).value.mention))
    && (forall uid :: uid in inputMap ==> NoNewline(inputMap[uid]))
    && (forall uid :: uid in labels ==> NoNewline(labels[uid]))
  }

  lemma UserLineSingle(dir: Directory, inputMap: map<int, string>, labels: map<int, string>, idx: int, uid: int)
    requires SingleLineSources(dir, inputMap, labels)
    ensures NoNewline(UserLine(dir, inputMap, labels, idx, uid))
  {
    assert '\n' !in MentionOf(dir, uid);
  }

  lemma UserLineOfSingle(dir: Directory, inputMap: map<int, string>, labels: map<int, string>)
    requires SingleLineSources(dir, inputMap, labels)
    ensures forall i, uid :: '\n' !in UserLineOf(dir, inputMap, labels)(i, uid)
  {
    forall i, uid ensures '\n' !in UserLineOf(dir, inputMap, labels)(i, uid) {
      UserLineSingle(dir, inputMap, labels, i, uid);
    }
  }

  /** With single-line sources every line of the listing is a single
      line. */
  lemma FmtLinesSingle(dir: Directory, inputMap: map<int, string>, labels: map<int, string>,
                       ids: seq<int>, start: int, limit: nat)
    requires SingleLineSources(dir, inputMap, labels)
    ensures forall k :: 0 <= k < |FmtLines(dir, inputMap, labels, ids, start, limit)|
                        ==> '\n' !in FmtLines(dir, inputMap, labels, ids, start, limit)[k]
  {
    var lines := FmtLines(dir, inputMap, labels, ids, start, limit);
    var shown := Take(ids, limit);
    var main := NumberedMap(UserLineOf(dir, inputMap, labels), shown, start);
    assert forall k :: 0 <= k < |main| ==> '\n' !in main[k] by {
      UserLineOfSingle(dir, inputMap, labels);
      NumberedMapSingle(UserLineOf(dir, inputMap, labels), shown, start);
    }
    forall k | 0 <= k < |lines| ensures '\n' !in lines[k] {
      if k < |shown| {
        assert lines[k] == lines[..|shown|][k] == main[k];
      } else {
        assert lines[k] == OverflowLine(|ids| - limit);
      }
    }
  }

  /** The listing splits back into exactly its lines: one per shown id and
      one overflow line. */
  lemma FmtUsersLines(dir: Directory, inputMap: map<int, string>, labels: map<int, string>,
                      ids: seq<int>, start: int, limit: nat)
    requires ids != [] && SingleLineSources(dir, inputMap, labels)
    ensures SplitOn(Join(FmtLines(dir, inputMap, labels, ids, start, limit), "\n"), '\n')
            == FmtLines(dir, inputMap, labels, ids, start, limit)
  {
    FmtLinesSingle(dir, inputMap, labels, ids, start, limit);
    SplitJoin(FmtLines(dir, inputMap, labels, ids, start, limit), '\n');
  }

  /* ----------------------------------------- `format_numbered_users` */

  /** `f"{i}. <@{uid}>"`, the line of an id with no cached member. */
  function MentionLine(i: int, uid: int): (l: string)
    ensures '\n' !in l
  {
    IntToDecimal(i) + ". " + RawMention(uid)
  }

  /** `f"{i}. {m.mention} | {m.display_name}"`, or `f"{i}. <@{uid}>"`. */
  function NumberedLine(dir: Directory, i: int, uid: int): string
  {
    match dir(uid)
    case Some(m) => IntToDecimal(i) + ". " + m.mention + " | " + m.displayName
    case None => MentionLine(i, uid)
  }

  function NumberedLineOf(dir: Directory): (int, int) -> string
  {
    (i: int, uid: int) => NumberedLine(dir, i, uid)
  }

  /** `format_numbered_users`: one line per id, numbered from 1. */
  method NumberedUsers(dir: Directory, ids: seq<int>) returns (lines: seq<string>)
    ensures lines == NumberedMap(NumberedLineOf(dir), ids, 1)
  {
    lines := [];
    var i := 0;
    while i < |ids|
      invariant 0 <= i <= |ids| && lines == NumberedMap(NumberedLineOf(dir), ids[..i], 1)
    {
      var line := NumberedLine(dir, i + 1, ids[i]);
      assert NumberedMap(NumberedLineOf(dir), ids[..i + 1], 1) == lines + [line] by {
        assert ids[..i + 1][..i] == ids[..i];
        assert NumberedLineOf(dir)(i + 1, ids[i]) == line;
      }
      lines := lines + [line];
      i := i + 1;
    }
    assert ids[..i] == ids;
  }

  /** Line `k` names the `k`-th id under number `k + 1`. */
  lemma NumberedUsersAt(dir: Directory, ids: seq<int>, k: int)
    requires 0 <= k < |ids|
    ensures NumberedMap(NumberedLineOf(dir), ids, 1)[k] == NumberedLine(dir, k + 1, ids[k])
  {
    NumberedMapAt(NumberedLineOf(dir), ids, 1, k);
  }

  /* -------------------------------------------------------- `chunk_lines` */

  /** `sum(len(line) + 1 for line in g)`. */
  function Cost(g: seq<string>): nat
  {
    if g == [] then 0 else Cost(g[..|g| - 1]) + |g[|g| - 1]| + 1
  }

  /** The loop variables of `chunk_lines`, with the chunks kept as lists
      of lines. */
  datatype ChunkState = ChunkState(groups: seq<seq<string>>, cur: seq<string>, curLen: int)

  /** One iteration: start a new chunk when the line would not fit and the
      current chunk is not empty; otherwise extend the current chunk. */
  function ChunkStep(st: ChunkState, line: string, maxChars: int): ChunkState
  {
    var ln := |line| + 1;
    if st.curLen + ln > maxChars && st.cur != [] then ChunkState(st.groups + [st.cur], [line], ln)
    else ChunkState(st.groups, st.cur + [line], st.curLen + ln)
  }

  function ChunkRun(lines: seq<string>, maxChars: int): ChunkState
  {
    if lines == [] then ChunkState([], [], 0)
    else ChunkStep(ChunkRun(lines[..|lines| - 1], maxChars), lines[|lines| - 1], maxChars)
  }

  /** After the loop: the unfinished chunk is kept when it holds a line. */
  function Close(st: ChunkState): seq<seq<string>>
  {
    if st.cur != [] then st.groups + [st.cur] else st.groups
  }

  /** The chunks as lists of lines. */
  function ChunkGroups(lines: seq<string>, maxChars: int): seq<seq<string>>
  {
    Close(ChunkRun(lines, maxChars))
  }

  /** A chunk costs more than the limit only when it holds a single line. */
  predicate OversizeIsSingle(g: seq<string>, maxChars: int)
  {
    Cost(g) > maxChars ==> |g| <= 1
  }

  /** Chunk `next` starts with a line that did not fit after `g`. */
  predicate Greedy(g: seq<string>, next: seq<string>, maxChars: int)
  {
    next != [] && Cost(g) + |next[0]| + 1 > maxChars
  }

  /** What the finished chunks satisfy as a list. */
  ghost predicate WellChunked(gs: seq<seq<string>>, maxChars: int)
  {
    (forall i :: 0 <= i < |gs| ==> gs[i] != [] && OversizeIsSingle(gs[i], maxChars))
    && (forall i :: 0 <= i < |gs| - 1 ==> Greedy(gs[i], gs[i + 1], maxChars))
  }

  ghost predicate ChunkInvariant(lines: seq<string>, st: ChunkState, maxChars: int)
  {
    Flatten(st.groups) + st.cur == lines
    && st.curLen == Cost(st.cur)
    && (st.cur == [] ==> lines == [] && st.groups == [])
    && WellChunked(st.groups, maxChars)
    && OversizeIsSingle(st.cur, maxChars)
    && (st.groups != [] ==> Greedy(st.groups[|st.groups| - 1], st.cur, maxChars))
  }

  lemma CostSnoc(g: seq<string>, line: string)
    ensures Cost(g + [line]) == Cost(g) + |line| + 1
  {
    assert (g + [line])[..|g|] == g;
  }

  /** Appending a chunk that follows greedily keeps the list well chunked. */
  lemma WellChunkedSnoc(gs: seq<seq<string>>, g: seq<string>, maxChars: int)
    requires WellChunked(gs, maxChars)
    requires g != [] && OversizeIsSingle(g, maxChars)
    requires gs != [] ==> Greedy(gs[|gs| - 1], g, maxChars)
    ensures WellChunked(gs + [g], maxChars)
  {
    var ng := gs + [g];
    forall i | 0 <= i < |ng| - 1 ensures Greedy(ng[i], ng[i + 1], maxChars) {
      if i < |gs| - 1 {
        assert ng[i] == gs[i] && ng[i + 1] == gs[i + 1];
      } else {
        assert ng[i] == gs[|gs| - 1] && ng[i + 1] == g;
      }
    }
  }

  lemma StepInvariant(prefix: seq<string>, st: ChunkState, line: string, maxChars: int)
    requires ChunkInvariant(prefix, st, maxChars)
    ensures ChunkInvariant(prefix + [line], ChunkStep(st, line, maxChars), maxChars)
  {
    var ln := |line| + 1;
    CostSnoc(st.cur, line);
    if st.curLen + ln > maxChars && st.cur != [] {
      FlattenSnoc(st.groups, st.cur);
      assert [] + [line] == [line];
      CostSnoc([], line);
      WellChunkedSnoc(st.groups, st.cur, maxChars);
      assert Greedy(st.cur, [line], maxChars);
    } else {
      assert Flatten(st.groups) + (st.cur + [line]) == (Flatten(st.groups) + st.cur) + [line];
      if st.cur == [] {
        assert st.cur + [line] == [line];
      } else {
        assert Cost(st.cur + [line]) <= maxChars;
      }
      if st.groups != [] {
        assert (st.cur + [line])[0] == st.cur[0];
      }
    }
  }

  lemma {:induction false} ChunkRunInvariant(lines: seq<string>, maxChars: int)
    ensures ChunkInvariant(lines, ChunkRun(lines, maxChars), maxChars)
  {
    if lines != [] {
      var prefix := lines[..|lines| - 1];
      var last := lines[|lines| - 1];
      assert prefix + [last] == lines;
      assert ChunkRun(lines, maxChars) == ChunkStep(ChunkRun(prefix, maxChars), last, maxChars);
      ChunkRunInvariant(prefix, maxChars);
      StepInvariant(prefix, ChunkRun(prefix, maxChars), last, maxChars);
    }
  }

  lemma CloseFacts(lines: seq<string>, st: ChunkState, maxChars: int)
    requires ChunkInvariant(lines, st, maxChars)
    ensures Flatten(Close(st)) == lines
    ensures lines == [] <==> Close(st) == []
    ensures WellChunked(Close(st), maxChars)
  {
    if st.cur != [] {
      FlattenSnoc(st.groups, st.cur);
      WellChunkedSnoc(st.groups, st.cur, maxChars);
    } else {
      assert Flatten(st.groups) + [] == Flatten(st.groups);
    }
  }

  /** What `chunk_lines` promises: the chunks' lines, in order, are the
      input; no input gives no chunk and no chunk is empty; a chunk over
      the limit holds one line; each chunk after the first starts with a
      line that did not fit into the one before. */
  lemma ChunkGroupsFacts(lines: seq<string>, maxChars: int)
    ensures Flatten(ChunkGroups(lines, maxChars)) == lines
    ensures lines == [] <==> ChunkGroups(lines, maxChars) == []
    ensures WellChunked(ChunkGroups(lines, maxChars), maxChars)
  {
    ChunkRunInvariant(lines, maxChars);
    CloseFacts(lines, ChunkRun(lines, maxChars), maxChars);
  }

  /** `chunk_lines`: each chunk is its lines joined by newlines. */
  method ChunkLines(lines: seq<string>, maxChars: int) returns (chunks: seq<string>)
    ensures |chunks| == |ChunkGroups(lines, maxChars)|
    ensures forall i :: 0 <= i < |chunks| ==> chunks[i] == Join(ChunkGroups(lines, maxChars)[i], "\n")
  {
    chunks := [];
    var cur: seq<string> := [];
    var curLen := 0;
    var i := 0;
    while i < |lines|
      invariant 0 <= i <= |lines|
      invariant cur == ChunkRun(lines[..i], maxChars).cur
      invariant curLen == ChunkRun(lines[..i], maxChars).curLen
      invariant |chunks| == |ChunkRun(lines[..i], maxChars).groups|
      invariant forall k :: 0 <= k < |chunks| ==> chunks[k] == Join(ChunkRun(lines[..i], maxChars).groups[k], "\n")
    {
      assert lines[..i + 1][..i] == lines[..i];
      var line := lines[i];
      var ln := |line| + 1;
      if curLen + ln > maxChars && cur != [] {
        chunks := chunks + [Join(cur, "\n")];
        cur, curLen := [line], ln;
      } else {
        cur := cur + [line];
        curLen := curLen + ln;
      }
      i := i + 1;
    }
    assert lines[..i] == lines;
    if cur != [] {
      chunks := chunks + [Join(cur, "\n")];
    }
  }

  /* ------------------------------------------------------------ `PV` lists */

  const BedeShown: nat := 100

  /** `f"{i+1}. <@{uid}>"` for the first 100 ids. */
  function BedeLines(users: seq<int>): (lines: seq<string>)
    ensures |lines| == |Take(users, BedeShown)|
  {
    NumberedMap(MentionLine, Take(users, BedeShown), 1)
  }

  function BedeOverflow(left: int): (l: string)
    ensures '\n' !in l
  {
    "\U{2026} i jeszcze " + IntToDecimal(left) + " wi\U{0119}cej"
  }

  /** "ListaBędę": nothing for an empty list, otherwise the numbered
      mentions of the first 100 and an overflow line for the rest. */
  function ListaBede(users: seq<int>): Option<string>
  {
    if users == [] then None
    else
      var text := Join(BedeLines(users), "\n");
      var left := |users| - |Take(users, BedeShown)|;
      Some(if left > 0 then text + "\n" + BedeOverflow(left) else text)
  }

  /** The lines of the list: the first 100 numbered mentions, then one
      line counting the others when there are more than 100. */
  function BedeAll(users: seq<int>): (lines: seq<string>)
    ensures |lines| == (if |users| > BedeShown then BedeShown + 1 else |users|)
  {
    BedeLines(users) + (if |users| > BedeShown then [BedeOverflow(|users| - BedeShown)] else [])
  }

  /** The list text is those lines joined by newlines. */
  lemma ListaBedeJoin(users: seq<int>)
    requires users != []
    ensures ListaBede(users) == Some(Join(BedeAll(users), "\n"))
  {
    var lines := BedeLines(users);
    var left := |users| - |Take(users, BedeShown)|;
    var text := Join(lines, "\n");
    assert ListaBede(users) == Some(if left > 0 then text + "\n" + BedeOverflow(left) else text);
    if |users| > BedeShown {
      var last := BedeOverflow(left);
      assert Join(BedeAll(users), "\n") == text + "\n" + last by {
        assert BedeAll(users) == lines + [last];
        JoinSnoc(lines, last, "\n");
      }
    } else {
      assert Join(BedeAll(users), "\n") == text by {
        assert BedeAll(users) == lines + [] == lines;
      }
    }
  }

  /** No line of the list is more than one line. */
  lemma BedeAllSingle(users: seq<int>)
    ensures forall k :: 0 <= k < |BedeAll(users)| ==> '\n' !in BedeAll(users)[k]
  {
    var lines := BedeLines(users);
    var all := BedeAll(users);
    assert forall k :: 0 <= k < |lines| ==> '\n' !in lines[k] by {
      NumberedMapSingle(MentionLine, Take(users, BedeShown), 1);
    }
    forall k | 0 <= k < |all| ensures '\n' !in all[k] {
      if k < |lines| {
        assert all[k] == lines[k];
      }
    }
  }

  /** The list splits back into exactly its lines: at most 100 numbered
      mentions and the line counting the rest. */
  lemma ListaBedeLines(users: seq<int>)
    requires users != []
    ensures ListaBede(users).Some?
    ensures SplitOn(ListaBede(users).value, '\n') == BedeAll(users)
  {
    ListaBedeJoin(users);
    BedeAllSingle(users);
    SplitJoin(BedeAll(users), '\n');
  }

  /* ------------------------------------------- AirDrop "Pokaż wytypowanych" */

  /** `f"{i}. <@{uid}>"` for every picked id, numbered from 1. */
  function PickedLines(picked: seq<int>): (lines: seq<string>)
    ensures |lines| == |picked|
  {
    NumberedMap(MentionLine, picked, 1)
  }

  /** The embed text as the source builds it: the lines are joined with
      the two characters backslash and `n`, not with a line break. */
  function ShowPickedAsWritten(picked: seq<int>): Option<string>
  {
    if picked == [] then None else Some(Join(PickedLines(picked), "\\n"))
  }

  /** The same list joined with line breaks, as the other listings do. */
  function ShowPicked(picked: seq<int>): Option<string>
  {
    if picked == [] then None else Some(Join(PickedLines(picked), "\n"))
  }

  /** As written, the whole list is one line however many are picked. */
  lemma ShowPickedAsWrittenOneLine(picked: seq<int>)
    requires picked != []
    ensures ShowPickedAsWritten(picked).Some?
    ensures SplitOn(ShowPickedAsWritten(picked).value, '\n') == [ShowPickedAsWritten(picked).value]
  {
    var lines := PickedLines(picked);
    NumberedMapSingle(MentionLine, picked, 1);
    JoinAvoids(lines, "\\n", '\n');
    SplitNoSep(Join(lines, "\\n"), '\n');
  }

  /** Two picks show as a single line holding a literal backslash-n. */
  lemma ShowPickedAsWrittenExample()
    ensures ShowPickedAsWritten([1, 2]) == Some("1. <@1>\\n2. <@2>")
  {
    var lines := PickedLines([1, 2]);
    NumberedMapAt(MentionLine, [1, 2], 1, 0);
    NumberedMapAt(MentionLine, [1, 2], 1, 1);
    assert IntToDecimal(1) == "1" && IntToDecimal(2) == "2";
    assert RawMention(1) == "<@1>" && RawMention(2) == "<@2>";
    assert lines[0] == "1. <@1>" && lines[1] == "2. <@2>";
    assert lines == ["1. <@1>", "2. <@2>"];
    assert lines[1..] == ["2. <@2>"];
    assert Join(lines, "\\n") == "1. <@1>" + "\\n" + "2. <@2>";
    assert "1. <@1>" + "\\n" + "2. <@2>" == "1. <@1>\\n2. <@2>";
  }

  /** Joined with line breaks, the text splits into one line per pick. */
  lemma ShowPickedLines(picked: seq<int>)
    requires picked != []
    ensures ShowPicked(picked).Some?
    ensures SplitOn(ShowPicked(picked).value, '\n') == PickedLines(picked)
    ensures |SplitOn(ShowPicked(picked).value, '\n')| == |picked|
  {
    NumberedMapSingle(MentionLine, picked, 1);
    SplitJoin(PickedLines(picked), '\n');
  }
}
