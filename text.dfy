/** Python `str` operations the bots apply to typed text: `strip`, `split`,
    `join`, `int`, `str(int)`, `lower` and `in`. */
module Text {

  /** `str.isspace` for one character: the characters Python's `strip()`
      removes by default. */
  predicate IsSpace(c: char)
  {
    c == ' ' || ('\U{0009}' <= c <= '\U{000D}') || ('\U{001C}' <= c <= '\U{001F}')
    || c == '\U{0085}' || c == '\U{00A0}' || c == '\U{1680}'
    || ('\U{2000}' <= c <= '\U{200A}') || c == '\U{2028}' || c == '\U{2029}'
    || c == '\U{202F}' || c == '\U{205F}' || c == '\U{3000}'
  }

  /** Where the run of whitespace starting at `i` ends. */
  function SpaceEnd(s: string, i: nat): (k: nat)
    requires i <= |s|
    ensures i <= k <= |s|
    ensures k < |s| ==> !IsSpace(s[k])
    ensures forall j :: i <= j < k ==> IsSpace(s[j])
    decreases |s| - i
  {
    if i < |s| && IsSpace(s[i]) then SpaceEnd(s, i + 1) else i
  }

  /** Where the run of whitespace ending at `e` starts, going no lower
      than `lo`. */
  function SpaceStart(s: string, lo: nat, e: nat): (r: nat)
    requires lo <= e <= |s|
    ensures lo <= r <= e
    ensures r > lo ==> !IsSpace(s[r - 1])
    ensures forall j :: r <= j < e ==> IsSpace(s[j])
    decreases e
  {
    if e > lo && IsSpace(s[e - 1]) then SpaceStart(s, lo, e - 1) else e
  }

  /** The first position `strip()` keeps: everything before it is
      whitespace. */
  function StripStart(s: string): (k: nat)
    ensures k <= |s|
    ensures k < |s| ==> !IsSpace(s[k])
    ensures forall i :: 0 <= i < k ==> IsSpace(s[i])
  {
    SpaceEnd(s, 0)
  }

  /** The end of what `strip()` keeps: everything from it on is
      whitespace. */
  function StripEnd(s: string): (e: nat)
    ensures StripStart(s) <= e <= |s|
    ensures e > StripStart(s) ==> !IsSpace(s[e - 1])
    ensures forall i :: e <= i < |s| ==> IsSpace(s[i])
  {
    SpaceStart(s, StripStart(s), |s|)
  }

  /** `s.strip()`: the slice between the leading and the trailing
      whitespace; neither end of the result is whitespace. */
  function Strip(s: string): (r: string)
    ensures |r| <= |s|
    ensures r == [] || (!IsSpace(r[0]) && !IsSpace(r[|r| - 1]))
  {
    s[StripStart(s)..StripEnd(s)]
  }

  /** Text with no whitespace at either end is left as it is. */
  lemma StripUnchanged(s: string)
    requires s == [] || (!IsSpace(s[0]) && !IsSpace(s[|s| - 1]))
    ensures Strip(s) == s
  {
    assert StripStart(s) == 0;
    assert StripEnd(s) == |s|;
  }

  /** Stripping twice is stripping once. */
  lemma StripIdempotent(s: string)
    ensures Strip(Strip(s)) == Strip(s)
  {
    StripUnchanged(Strip(s));
  }

  /** Text made only of whitespace strips to nothing, and only such text
      does. */
  lemma StripEmpty(s: string)
    ensures Strip(s) == [] <==> forall i :: 0 <= i < |s| ==> IsSpace(s[i])
  {
    if Strip(s) == [] {
      forall i | 0 <= i < |s| ensures IsSpace(s[i]) {
        if i >= StripStart(s) {
          assert i >= StripEnd(s);
        }
      }
    } else {
      assert !IsSpace(s[StripStart(s)]);
    }
  }

  predicate IsDigit(c: char)
  {
    '0' <= c <= '9'
  }

  predicate AllDigits(s: string)
  {
    forall i :: 0 <= i < |s| ==> IsDigit(s[i])
  }

  lemma AllDigitsSlice(s: string, i: int, j: int)
    requires AllDigits(s) && 0 <= i <= j <= |s|
    ensures AllDigits(s[i..j])
  {
    assert forall k :: 0 <= k < j - i ==> s[i..j][k] == s[i + k];
  }

  function DigitValue(c: char): nat
    requires IsDigit(c)
  {
    (c as int - '0' as int) as nat
  }

  function DigitChar(d: nat): (c: char)
    requires d < 10
    ensures IsDigit(c) && DigitValue(c) == d
  {
    ('0' as int + d) as char
  }

  /** `int(s)` for a string made of ASCII digits only. */
  function DigitsValue(s: string): nat
    requires AllDigits(s)
  {
    if s == [] then 0 else DigitsValue(s[..|s| - 1]) * 10 + DigitValue(s[|s| - 1])
  }

  /** `str(n)` for a natural number. */
  function NatToDecimal(n: nat): (r: string)
    ensures r != [] && AllDigits(r)
  {
    if n < 10 then [DigitChar(n)] else NatToDecimal(n / 10) + [DigitChar(n % 10)]
  }

  /** `f"{i}"` for any integer. */
  function IntToDecimal(i: int): (r: string)
    ensures r != []
    ensures forall k :: 0 <= k < |r| ==> IsDigit(r[k]) || r[k] == '-'
  {
    if i < 0 then "-" + NatToDecimal(-i) else NatToDecimal(i)
  }

  /** Reading back what `str(n)` wrote gives `n`. */
  lemma {:induction false} DecimalRoundTrip(n: nat)
    ensures DigitsValue(NatToDecimal(n)) == n
  {
    if n >= 10 {
      DecimalRoundTrip(n / 10);
      var s := NatToDecimal(n);
      assert s[..|s| - 1] == NatToDecimal(n / 10);
    }
  }

  /** `f"{n:02d}"` for `n < 100`. */
  function Pad2(n: nat): (r: string)
    requires n < 100
    ensures |r| == 2 && AllDigits(r) && DigitsValue(r) == n
  {
    var r := [DigitChar(n / 10), DigitChar(n % 10)];
    assert r[..1] == [DigitChar(n / 10)];
    assert r[..1][..0] == [];
    assert DigitsValue(r[..1]) == n / 10;
    r
  }

  /** `s.split(sep)` with a one-character separator: always at least one
      field; an empty string gives `[""]`. */
  function SplitOn(s: string, sep: char): (r: seq<string>)
    ensures |r| >= 1
    ensures forall i :: 0 <= i < |r| ==> sep !in r[i]
  {
    if s == [] then [""]
    else
      var rest := SplitOn(s[1..], sep);
      if s[0] == sep then [""] + rest
      else [[s[0]] + rest[0]] + rest[1..]
  }

  /** `sep.join(parts)`. */
  function Join(parts: seq<string>, sep: string): string
  {
    if parts == [] then ""
    else if |parts| == 1 then parts[0]
    else parts[0] + sep + Join(parts[1..], sep)
  }

  lemma {:induction false} SplitNoSep(p: string, sep: char)
    requires sep !in p
    ensures SplitOn(p, sep) == [p]
  {
    if p != [] {
      SplitNoSep(p[1..], sep);
      assert [p[0]] + p[1..] == p;
    }
  }

  lemma {:induction false} SplitField(p: string, sep: char, rest: string)
    requires sep !in p
    ensures SplitOn(p + [sep] + rest, sep) == [p] + SplitOn(rest, sep)
  {
    if p == [] {
      assert p + [sep] + rest == [sep] + rest;
      assert ([sep] + rest)[1..] == rest;
    } else {
      var s := p + [sep] + rest;
      assert s[1..] == p[1..] + [sep] + rest;
      SplitField(p[1..], sep, rest);
      assert [p[0]] + p[1..] == p;
    }
  }

  /** Splitting a joined list gives the list back, as long as no element
      holds the separator. */
  lemma {:induction false} SplitJoin(parts: seq<string>, sep: char)
    requires parts != []
    requires forall i :: 0 <= i < |parts| ==> sep !in parts[i]
    ensures SplitOn(Join(parts, [sep]), sep) == parts
  {
    if |parts| == 1 {
      SplitNoSep(parts[0], sep);
    } else {
      var tail := parts[1..];
      assert forall i :: 0 <= i < |tail| ==> tail[i] == parts[i + 1];
      SplitJoin(tail, sep);
      var rest := Join(tail, [sep]);
      assert sep !in parts[0];
      SplitField(parts[0], sep, rest);
      assert Join(parts, [sep]) == parts[0] + [sep] + rest;
      assert [parts[0]] + tail == parts;
    }
  }

  function LowerChar(c: char): char
  {
    if 'A' <= c <= 'Z' then (c as int + 32) as char else c
  }

  /** `s.lower()` on ASCII letters; other characters are kept. */
  function Lower(s: string): (r: string)
    ensures |r| == |s|
    ensures forall i :: 0 <= i < |s| ==> r[i] == LowerChar(s[i])
  {
    if s == [] then [] else [LowerChar(s[0])] + Lower(s[1..])
  }

  /** `sub in s`. */
  predicate Contains(s: string, sub: string)
  {
    sub <= s || (s != [] && Contains(s[1..], sub))
  }

  /** A text holds everything its pieces hold. */
  lemma {:induction false} ContainsMiddle(pre: string, sub: string, post: string)
    ensures Contains(pre + sub + post, sub)
  {
    if pre != [] {
      assert (pre + sub + post)[1..] == pre[1..] + sub + post;
      ContainsMiddle(pre[1..], sub, post);
    } else {
      assert pre + sub + post == sub + post;
    }
  }

  /** Joining one more part adds the separator and the part. */
  lemma {:induction false} JoinSnoc(parts: seq<string>, x: string, sep: string)
    requires parts != []
    ensures Join(parts + [x], sep) == Join(parts, sep) + sep + x
  {
    if |parts| == 1 {
      assert (parts + [x])[1..] == [x];
    } else {
      assert (parts + [x])[1..] == parts[1..] + [x];
      JoinSnoc(parts[1..], x, sep);
    }
  }

  /** A character absent from every part and from the separator is absent
      from the joined text. */
  lemma {:induction false} JoinAvoids(parts: seq<string>, sep: string, c: char)
    requires forall i :: 0 <= i < |parts| ==> c !in parts[i]
    requires c !in sep
    ensures c !in Join(parts, sep)
  {
    if |parts| > 1 {
      JoinAvoids(parts[1..], sep, c);
    }
  }
}
