/** Python list semantics used by both bot programs: membership pools are
    lists of ids, edited with `append`, `remove`, comprehensions and
    `list(dict.fromkeys(...))`. */
module Seqs {

  /** The set of ids held by a list, `set(s)` in Python. */
  function Elems<T(==)>(s: seq<T>): set<T>
  {
    set x | x in s
  }

  /** A list holds every id at most once. */
  predicate NoDup<T(==)>(s: seq<T>)
  {
    forall i, j | 0 <= i < j < |s| :: s[i] != s[j]
  }

  /** Two lists share no id. */
  predicate Disjoint<T(==)>(a: seq<T>, b: seq<T>)
  {
    forall x :: x in a ==> x !in b
  }

  /** `s[:n]` for a non-negative `n`. */
  function Take<T(==)>(s: seq<T>, n: nat): (r: seq<T>)
    ensures |r| == if n < |s| then n else |s|
    ensures r <= s
  {
    if n < |s| then s[..n] else s
  }

  /** `s.remove(x)` guarded by `x in s`: drops the FIRST occurrence only. */
  function RemoveFirst<T(==)>(s: seq<T>, x: T): (r: seq<T>)
    ensures x in s ==> |r| == |s| - 1
    ensures x !in s ==> r == s
  {
    if s == [] then []
    else if s[0] == x then s[1..]
    else [s[0]] + RemoveFirst(s[1..], x)
  }

  /** Every occurrence of `x` removed. */
  function RemoveAll<T(==)>(s: seq<T>, x: T): (r: seq<T>)
  {
    if s == [] then []
    else if s[0] == x then RemoveAll(s[1..], x)
    else [s[0]] + RemoveAll(s[1..], x)
  }

  /** `[u for u in s if u in keep]`, order-preserving. */
  function Keep<T(==)>(s: seq<T>, keep: set<T>): (r: seq<T>)
  {
    if s == [] then []
    else if s[0] in keep then [s[0]] + Keep(s[1..], keep)
    else Keep(s[1..], keep)
  }

  /** `[u for u in s if u not in drop]`, order-preserving. */
  function Without<T(==)>(s: seq<T>, drop: set<T>): (r: seq<T>)
  {
    if s == [] then []
    else if s[0] in drop then Without(s[1..], drop)
    else [s[0]] + Without(s[1..], drop)
  }

  /** `list(dict.fromkeys(s))`: first occurrences, in order. */
  function Dedupe<T(==)>(s: seq<T>): (r: seq<T>)
  {
    if s == [] then []
    else
      var r := Dedupe(s[..|s| - 1]);
      if s[|s| - 1] in r then r else r + [s[|s| - 1]]
  }

  /** The ids of a list of pages, page after page. */
  function Flatten<T(==)>(pages: seq<seq<T>>): (r: seq<T>)
  {
    if pages == [] then [] else pages[0] + Flatten(pages[1..])
  }

  // ---------------------------------------------------------------------
  // Facts about the operations above.

  lemma {:induction false} NoDupCard<T>(s: seq<T>)
    requires NoDup(s)
    ensures |Elems(s)| == |s|
  {
    if s != [] {
      var t := s[1..];
      assert NoDup(t);
      NoDupCard(t);
      assert Elems(s) == {s[0]} + Elems(t);
      assert s[0] !in Elems(t);
    }
  }

  lemma ElemsCardLe<T>(s: seq<T>)
    ensures |Elems(s)| <= |s|
  {
    if s != [] {
      ElemsCardLe(s[1..]);
      assert Elems(s) == {s[0]} + Elems(s[1..]);
    }
  }

  /** With no duplicates, Python's `remove` removes every occurrence. */
  lemma {:induction false} RemoveFirstIsRemoveAll<T>(s: seq<T>, x: T)
    requires NoDup(s)
    ensures RemoveFirst(s, x) == RemoveAll(s, x)
  {
    if s != [] {
      assert NoDup(s[1..]);
      if s[0] == x {
        assert x !in s[1..];
        RemoveAllAbsent(s[1..], x);
      } else {
        RemoveFirstIsRemoveAll(s[1..], x);
      }
    }
  }

  lemma {:induction false} RemoveAllAbsent<T>(s: seq<T>, x: T)
    requires x !in s
    ensures RemoveAll(s, x) == s
  {
    if s != [] {
      RemoveAllAbsent(s[1..], x);
    }
  }

  /** What `remove` leaves behind: the other ids, no duplicates, order kept. */
  lemma {:induction false} RemoveFirstFacts<T>(s: seq<T>, x: T)
    requires NoDup(s)
    ensures NoDup(RemoveFirst(s, x))
    ensures Elems(RemoveFirst(s, x)) == Elems(s) - {x}
    ensures RemoveFirst(s, x) == Without(s, {x})
  {
    if s != [] {
      assert NoDup(s[1..]);
      RemoveFirstFacts(s[1..], x);
      if s[0] == x {
        assert x !in s[1..];
        WithoutAbsent(s[1..], {x});
        assert Elems(s) == {x} + Elems(s[1..]);
      } else {
        var r := RemoveFirst(s[1..], x);
        assert RemoveFirst(s, x) == [s[0]] + r;
        assert s[0] !in Elems(s[1..]);
        assert s[0] !in Elems(r);
        assert Elems(s) == {s[0]} + Elems(s[1..]);
        assert Elems([s[0]] + r) == {s[0]} + Elems(r);
      }
    }
  }

  lemma {:induction false} WithoutAbsent<T>(s: seq<T>, drop: set<T>)
    requires forall x :: x in s ==> x !in drop
    ensures Without(s, drop) == s
  {
    if s != [] {
      WithoutAbsent(s[1..], drop);
    }
  }

  lemma {:induction false} KeepElems<T>(s: seq<T>, keep: set<T>)
    ensures Elems(Keep(s, keep)) == Elems(s) * keep
  {
    if s != [] {
      KeepElems(s[1..], keep);
      assert Elems(s) == {s[0]} + Elems(s[1..]);
      if s[0] in keep {
        var r := Keep(s[1..], keep);
        assert Elems([s[0]] + r) == {s[0]} + Elems(r);
      }
    }
  }

  /** The kept ids: no duplicates, exactly the listed ids that are in
      `keep`. */
  lemma KeepFacts<T>(s: seq<T>, keep: set<T>)
    requires NoDup(s)
    ensures NoDup(Keep(s, keep))
    ensures Elems(Keep(s, keep)) == Elems(s) * keep
    ensures |Keep(s, keep)| == |Elems(s) * keep|
  {
    NoDupKeep(s, keep);
    KeepElems(s, keep);
    NoDupCard(Keep(s, keep));
  }

  lemma {:induction false} NoDupKeep<T>(s: seq<T>, keep: set<T>)
    requires NoDup(s)
    ensures NoDup(Keep(s, keep)) && Elems(Keep(s, keep)) <= Elems(s)
  {
    if s != [] {
      assert NoDup(s[1..]);
      NoDupKeep(s[1..], keep);
      if s[0] in keep {
        var r := Keep(s[1..], keep);
        assert s[0] !in Elems(s[1..]);
        assert Elems([s[0]] + r) == {s[0]} + Elems(r);
      }
    }
  }

  lemma {:induction false} NoDupWithout<T>(s: seq<T>, drop: set<T>)
    requires NoDup(s)
    ensures NoDup(Without(s, drop))
  {
    if s != [] {
      assert NoDup(s[1..]);
      NoDupWithout(s[1..], drop);
      if s[0] !in drop {
        WithoutFactsElems(s[1..], drop);
        assert s[0] !in Elems(Without(s[1..], drop));
      }
    }
  }

  /** The ids left after dropping: no duplicates, exactly the listed ids
      outside `drop`. */
  lemma WithoutFacts<T>(s: seq<T>, drop: set<T>)
    requires NoDup(s)
    ensures NoDup(Without(s, drop))
    ensures Elems(Without(s, drop)) == Elems(s) - drop
    ensures |Without(s, drop)| == |s| - |Elems(s) * drop|
  {
    NoDupWithout(s, drop);
    WithoutFactsElems(s, drop);
    NoDupCard(Without(s, drop));
    NoDupCard(s);
    assert Elems(s) - drop == Elems(s) - Elems(s) * drop;
    CardDiff(Elems(s), Elems(s) * drop);
  }

  // ---------------------------------------------------------------------
  // Dedupe

  lemma {:induction false} DedupeFacts<T>(s: seq<T>)
    ensures NoDup(Dedupe(s))
    ensures Elems(Dedupe(s)) == Elems(s)
    ensures |Dedupe(s)| <= |s|
  {
    if s != [] {
      var p := s[..|s| - 1];
      DedupeFacts(p);
      assert s == p + [s[|s| - 1]];
      assert Elems(s) == Elems(p) + {s[|s| - 1]};
    }
  }

  /** A list without duplicates is its own `dict.fromkeys`. */
  lemma {:induction false} DedupeNoDup<T>(s: seq<T>)
    requires NoDup(s)
    ensures Dedupe(s) == s
  {
    if s != [] {
      var p := s[..|s| - 1];
      assert NoDup(p);
      DedupeNoDup(p);
      assert s[|s| - 1] !in p;
      assert s == p + [s[|s| - 1]];
    }
  }

  /** Deduplicating `a + b` keeps `a`'s entries first, then the new ids of `b`
      in the order they first appear there. */
  /** One more id is kept by `dict.fromkeys` exactly when it is new. */
  lemma DedupeSnoc<T>(s: seq<T>, x: T)
    ensures Dedupe(s + [x]) == if x in s then Dedupe(s) else Dedupe(s) + [x]
  {
    assert (s + [x])[..|s|] == s;
    DedupeFacts(s);
    assert x in Dedupe(s) <==> x in Elems(Dedupe(s));
  }

  lemma {:induction false} DedupeAppend<T>(a: seq<T>, b: seq<T>)
    ensures Dedupe(a + b) == Dedupe(a) + Dedupe(Without(b, Elems(a)))
  {
    if b == [] {
      assert a + b == a;
    } else {
      var p := b[..|b| - 1];
      var x := b[|b| - 1];
      var w := Without(p, Elems(a));
      assert b == p + [x];
      assert Dedupe(a + b) == if x in a + p then Dedupe(a + p) else Dedupe(a + p) + [x] by {
        assert a + b == (a + p) + [x];
        DedupeSnoc(a + p, x);
      }
      assert Dedupe(a + p) == Dedupe(a) + Dedupe(w) by {
        DedupeAppend(a, p);
      }
      assert Without(b, Elems(a)) == w + (if x in Elems(a) then [] else [x]) by {
        WithoutSnoc(p, x, Elems(a));
      }
      if x in Elems(a) {
        assert x in a + p;
        assert w + [] == w;
      } else {
        assert Dedupe(w + [x]) == if x in w then Dedupe(w) else Dedupe(w) + [x] by {
          DedupeSnoc(w, x);
        }
        assert x in w <==> x in p by {
          WithoutFactsElems(p, Elems(a));
          assert x in w <==> x in Elems(w);
        }
        assert x in a + p <==> x in p;
      }
    }
  }

  lemma {:induction false} WithoutFactsElems<T>(s: seq<T>, drop: set<T>)
    ensures Elems(Without(s, drop)) == Elems(s) - drop
  {
    if s != [] {
      WithoutFactsElems(s[1..], drop);
      assert Elems(s) == {s[0]} + Elems(s[1..]);
      if s[0] !in drop {
        assert Elems([s[0]] + Without(s[1..], drop)) == {s[0]} + Elems(Without(s[1..], drop));
      }
    }
  }

  lemma {:induction false} WithoutSnoc<T>(s: seq<T>, x: T, drop: set<T>)
    ensures Without(s + [x], drop) == Without(s, drop) + (if x in drop then [] else [x])
  {
    if s == [] {
      assert [x][1..] == [];
    } else {
      assert (s + [x])[1..] == s[1..] + [x];
      WithoutSnoc(s[1..], x, drop);
    }
  }

  lemma {:induction false} KeepSnoc<T>(s: seq<T>, x: T, keep: set<T>)
    ensures Keep(s + [x], keep) == Keep(s, keep) + (if x in keep then [x] else [])
  {
    if s == [] {
      assert [x][1..] == [];
    } else {
      assert (s + [x])[1..] == s[1..] + [x];
      KeepSnoc(s[1..], x, keep);
    }
  }

  /** A list without duplicates followed by new ids: what the
      "append if absent" loops build, in one formula. */
  lemma AppendNewFacts<T>(a: seq<T>, b: seq<T>)
    requires NoDup(a)
    ensures Dedupe(a + b) == a + Dedupe(Without(b, Elems(a)))
    ensures NoDup(Dedupe(a + b))
    ensures |Dedupe(a + b)| - |a| == |Elems(b) - Elems(a)|
  {
    DedupeAppend(a, b);
    DedupeNoDup(a);
    DedupeFacts(a + b);
    var w := Dedupe(Without(b, Elems(a)));
    DedupeFacts(Without(b, Elems(a)));
    WithoutFactsElems(b, Elems(a));
    NoDupCard(w);
  }

  lemma {:induction false} FlattenLength<T>(pages: seq<seq<T>>, sizes: seq<nat>)
    requires |pages| == |sizes|
    requires forall i :: 0 <= i < |pages| ==> |pages[i]| == sizes[i]
    ensures |Flatten(pages)| == SumNat(sizes)
  {
    if pages != [] {
      FlattenLength(pages[1..], sizes[1..]);
    }
  }

  function SumNat(xs: seq<nat>): nat
  {
    if xs == [] then 0 else xs[0] + SumNat(xs[1..])
  }

  lemma {:induction false} FlattenElems<T>(pages: seq<seq<T>>, x: T)
    ensures x in Flatten(pages) <==> exists i :: 0 <= i < |pages| && x in pages[i]
  {
    if pages != [] {
      FlattenElems(pages[1..], x);
      if x in pages[0] {
      } else if x in Flatten(pages[1..]) {
        var i :| 0 <= i < |pages[1..]| && x in pages[1..][i];
        assert x in pages[i + 1];
      } else {
        forall i | 0 <= i < |pages| ensures x !in pages[i] {
          if i > 0 {
            assert pages[i] == pages[1..][i - 1];
          }
        }
      }
    }
  }

  lemma NoDupAppend<T>(a: seq<T>, b: seq<T>)
    requires NoDup(a) && NoDup(b) && Disjoint(a, b)
    ensures NoDup(a + b)
  {
    forall i, j | 0 <= i < j < |a + b| ensures (a + b)[i] != (a + b)[j] {
      if j >= |a| && i < |a| {
        assert (a + b)[i] in a;
        assert (a + b)[j] in b;
      }
    }
  }

  lemma TakeElems<T>(s: seq<T>, n: nat)
    ensures Elems(Take(s, n)) <= Elems(s)
    ensures forall x :: x in Take(s, n) ==> x in s
  {
    forall x | x in Take(s, n) ensures x in s {
      var i :| 0 <= i < |Take(s, n)| && Take(s, n)[i] == x;
      assert s[i] == x;
    }
  }

  /** Removing a subset removes exactly its size. */
  lemma CardDiff<T>(b: set<T>, a: set<T>)
    requires a <= b
    ensures |b - a| == |b| - |a|
  {
    assert b == (b - a) + a;
    assert (b - a) * a == {};
  }

  /** What leaves a set when `drop` is taken out is its part in `drop`. */
  lemma RemovedCount<T>(before: set<T>, drop: set<T>)
    ensures |before| - |before - drop| == |before * drop|
  {
    assert before - drop == before - before * drop;
    CardDiff(before, before * drop);
  }

  lemma DisjointShrink<T>(a: seq<T>, b: seq<T>, a': seq<T>, b': seq<T>)
    requires Disjoint(a, b) && Elems(a') <= Elems(a) && Elems(b') <= Elems(b)
    ensures Disjoint(a', b')
  {
    forall x | x in a' ensures x !in b' {
      assert x in Elems(a');
      assert x !in Elems(b);
      assert x !in Elems(b');
    }
  }

  lemma DisjointSnoc<T>(a: seq<T>, b: seq<T>, x: T)
    requires Disjoint(a, b) && x !in b
    ensures Disjoint(a + [x], b)
  {
  }

  lemma {:induction false} FlattenSnoc<T>(pages: seq<seq<T>>, p: seq<T>)
    ensures Flatten(pages + [p]) == Flatten(pages) + p
  {
    if pages == [] {
      assert [p][1..] == [];
    } else {
      assert (pages + [p])[1..] == pages[1..] + [p];
      FlattenSnoc(pages[1..], p);
    }
  }
  /** Filtering twice is filtering once by both sets. */
  lemma {:induction false} WithoutWithout<T>(s: seq<T>, a: set<T>, b: set<T>)
    ensures Without(Without(s, a), b) == Without(s, a + b)
  {
    if s != [] {
      WithoutWithout(s[1..], a, b);
    }
  }

  /** When the kept ids all come from the first `n` entries of a list
      without duplicates, no entry from position `n` on survives. */
  lemma KeepPastPrefix<T>(s: seq<T>, keep: set<T>, n: nat)
    requires NoDup(s) && keep <= Elems(Take(s, n))
    ensures forall i :: n <= i < |s| ==> s[i] !in Keep(s, keep)
  {
    KeepFacts(s, keep);
    forall i | n <= i < |s| ensures s[i] !in Keep(s, keep) {
      forall j | 0 <= j < |Take(s, n)| ensures Take(s, n)[j] != s[i] {
        assert Take(s, n)[j] == s[j];
      }
      assert s[i] !in Elems(Take(s, n));
      assert s[i] !in Elems(Keep(s, keep));
    }
  }
}
