/** The list edit every "add" callback of both bots performs: walk the chosen
    ids in order, append each id the list does not hold yet, and count how
    many were appended. */
module Pools {
  import opened Seqs

  /** `for u in ids: if u not in xs: xs.append(u); added += 1`, run on a copy
      of `xs`: the result keeps `xs` as its prefix, appends the new ids in
      first-seen order and only those, and `added` counts exactly them. */
  method AppendAbsent(xs: seq<int>, ids: seq<int>) returns (r: seq<int>, added: nat)
    requires NoDup(xs)
    ensures r == xs + Dedupe(Without(ids, Elems(xs)))
    ensures NoDup(r) && Elems(r) == Elems(xs) + Elems(ids)
    ensures added == |r| - |xs| == |Elems(ids) - Elems(xs)|
  {
    r := xs;
    added := 0;
    DedupeNoDup(xs);
    assert xs + ids[..0] == xs;
    var i := 0;
    while i < |ids|
      invariant 0 <= i <= |ids|
      invariant r == Dedupe(xs + ids[..i])
      invariant added == |r| - |xs|
    {
      var s := xs + ids[..i + 1];
      assert s[..|s| - 1] == xs + ids[..i];
      if ids[i] !in r {
        r := r + [ids[i]];
        added := added + 1;
      }
      i := i + 1;
    }
    assert ids[..i] == ids;
    AppendNewFacts(xs, ids);
    DedupeFacts(xs + ids);
    assert Elems(xs + ids) == Elems(xs) + Elems(ids);
  }
}
