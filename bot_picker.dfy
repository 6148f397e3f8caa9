/** `CaptPagedPickView` of bot.py: a picker over a snapshot of the CAPT
    signups, shown 25 per page, with a budget of 25 picks across all pages.
    The page-to-selection dictionary is an association list kept in
    insertion order, as a Python `dict` keeps it. */
module BotPicker {
  import opened Seqs
  import BotRoster

  const PageSize: nat := 25
  const MaxPick: nat := 25

  /** One entry of `page_selections`: a page number and the set of ids
      ticked on it. */
  datatype PageSelection = PageSelection(page: nat, ids: set<int>)

  predicate DistinctPages(sel: seq<PageSelection>)
  {
    forall i, j | 0 <= i < j < |sel| :: sel[i].page != sel[j].page
  }

  /** `sum(len(s) for s in page_selections.values())`. */
  function Total(sel: seq<PageSelection>): nat
  {
    if sel == [] then 0 else |sel[0].ids| + Total(sel[1..])
  }

  /** Every id ticked on any page. */
  function Union(sel: seq<PageSelection>): set<int>
  {
    if sel == [] then {} else sel[0].ids + Union(sel[1..])
  }

  /** `page_selections.get(page, set())`. */
  function Lookup(sel: seq<PageSelection>, page: nat): set<int>
  {
    if sel == [] then {}
    else if sel[0].page == page then sel[0].ids
    else Lookup(sel[1..], page)
  }

  /** `page_selections[page] = ids`: an existing key keeps its position, a
      new key goes last. */
  function Put(sel: seq<PageSelection>, page: nat, ids: set<int>): seq<PageSelection>
  {
    if sel == [] then [PageSelection(page, ids)]
    else if sel[0].page == page then [PageSelection(page, ids)] + sel[1..]
    else [sel[0]] + Put(sel[1..], page, ids)
  }

  /** What the dictionary assignment does to the budget and to every key. */
  lemma PutFacts(sel: seq<PageSelection>, page: nat, ids: set<int>)
    requires DistinctPages(sel)
    ensures DistinctPages(Put(sel, page, ids))
    ensures Total(Put(sel, page, ids)) == Total(sel) - |Lookup(sel, page)| + |ids|
    ensures forall p :: Lookup(Put(sel, page, ids), p) == if p == page then ids else Lookup(sel, p)
    ensures forall i :: 0 <= i < |Put(sel, page, ids)| ==>
      Put(sel, page, ids)[i].page == page || Put(sel, page, ids)[i] in sel
  {
    PutDistinct(sel, page, ids);
    PutTotal(sel, page, ids);
    PutLookup(sel, page, ids);
    PutFrom(sel, page, ids);
  }

  /** Assigning a key replaces that key's set and keeps every other key's. */
  lemma {:induction false} PutLookup(sel: seq<PageSelection>, page: nat, ids: set<int>)
    ensures forall p :: Lookup(Put(sel, page, ids), p) == if p == page then ids else Lookup(sel, p)
  {
    if sel != [] && sel[0].page != page {
      PutLookup(sel[1..], page, ids);
    }
  }

  /** Assigning a key exchanges its old set for the new one in the budget. */
  lemma {:induction false} PutTotal(sel: seq<PageSelection>, page: nat, ids: set<int>)
    ensures Total(Put(sel, page, ids)) == Total(sel) - |Lookup(sel, page)| + |ids|
  {
    if sel != [] && sel[0].page != page {
      PutTotal(sel[1..], page, ids);
    }
  }

  /** Every entry after an assignment is the assigned key or an old entry. */
  lemma {:induction false} PutFrom(sel: seq<PageSelection>, page: nat, ids: set<int>)
    ensures forall i :: 0 <= i < |Put(sel, page, ids)| ==>
      Put(sel, page, ids)[i].page == page || Put(sel, page, ids)[i] in sel
  {
    if sel != [] && sel[0].page != page {
      PutFrom(sel[1..], page, ids);
      var r := Put(sel, page, ids);
      var t := Put(sel[1..], page, ids);
      assert r == [sel[0]] + t;
      forall i | 0 <= i < |r| ensures r[i].page == page || r[i] in sel {
        if i > 0 {
          assert r[i] == t[i - 1];
          if t[i - 1].page != page {
            assert t[i - 1] in sel[1..];
          }
        }
      }
    }
  }

  /** Assigning a key keeps the keys distinct. */
  lemma {:induction false} PutDistinct(sel: seq<PageSelection>, page: nat, ids: set<int>)
    requires DistinctPages(sel)
    ensures DistinctPages(Put(sel, page, ids))
  {
    if sel == [] {
    } else if sel[0].page == page {
      var r := Put(sel, page, ids);
      forall i, j | 0 <= i < j < |r| ensures r[i].page != r[j].page {
        assert r[j] == sel[j];
        if i > 0 {
          assert r[i] == sel[i];
        }
      }
    } else {
      assert DistinctPages(sel[1..]) by {
        forall i, j | 0 <= i < j < |sel[1..]| ensures sel[1..][i].page != sel[1..][j].page {
          assert sel[1..][i] == sel[i + 1] && sel[1..][j] == sel[j + 1];
        }
      }
      PutDistinct(sel[1..], page, ids);
      PutFrom(sel[1..], page, ids);
      var r := Put(sel, page, ids);
      var t := Put(sel[1..], page, ids);
      assert r == [sel[0]] + t;
      forall i, j | 0 <= i < j < |r| ensures r[i].page != r[j].page {
        if i == 0 {
          assert r[j] == t[j - 1];
          if t[j - 1].page != page {
            assert t[j - 1] in sel[1..];
            var k :| 0 <= k < |sel[1..]| && sel[1..][k] == t[j - 1];
            assert sel[k + 1] == t[j - 1];
          }
        } else {
          assert r[i] == t[i - 1] && r[j] == t[j - 1];
        }
      }
    }
  }

  lemma {:induction false} LookupMissing(sel: seq<PageSelection>, page: nat)
    requires forall i :: 0 <= i < |sel| ==> sel[i].page != page
    ensures Lookup(sel, page) == {}
  {
    if sel != [] {
      LookupMissing(sel[1..], page);
    }
  }

  /** The last page index: `(len(option_rows) - 1) // 25`, or 0 with no rows. */
  function LastPage(rows: seq<int>): (last: nat)
    ensures rows != [] ==> PageSize * last < |rows| <= PageSize * last + PageSize
  {
    if rows == [] then 0 else (|rows| - 1) / PageSize
  }

  /** `option_rows[25 * page : 25 * page + 25]` with Python's clamping. */
  function PageOptions(rows: seq<int>, page: nat): (r: seq<int>)
    ensures |r| <= PageSize
    ensures forall k :: 0 <= k < |r| ==> PageSize * page + k < |rows| && r[k] == rows[PageSize * page + k]
    ensures rows != [] && page <= LastPage(rows) ==> r != []
  {
    var lo := if PageSize * page < |rows| then PageSize * page else |rows|;
    var hi := if PageSize * page + PageSize < |rows| then PageSize * page + PageSize else |rows|;
    rows[lo..hi]
  }

  /** The pages cover the rows: row `i` is shown on page `i / 25`. */
  lemma PagesCoverRows(rows: seq<int>, i: nat)
    requires i < |rows|
    ensures i / PageSize <= LastPage(rows)
    ensures rows[i] == PageOptions(rows, i / PageSize)[i % PageSize]
  {
    var p := i / PageSize;
    assert PageSize * p + i % PageSize == i;
  }

  /** With no repeated row, two different pages share no id. */
  lemma PagesDisjoint(rows: seq<int>, p: nat, q: nat, x: int)
    requires NoDup(rows) && p != q
    requires x in PageOptions(rows, p)
    ensures x !in PageOptions(rows, q)
  {
    var a := PageOptions(rows, p);
    var i :| 0 <= i < |a| && a[i] == x;
    var b := PageOptions(rows, q);
    forall j | 0 <= j < |b| ensures b[j] != x {
      var ip := PageSize * p + i;
      var jq := PageSize * q + j;
      assert ip != jq;
      assert b[j] == rows[jq] && x == rows[ip];
    }
  }

  /** `max(0, MAX_PICK - current_total)`: the picks still allowed. */
  function Remaining(sel: seq<PageSelection>): (r: nat)
    ensures r <= MaxPick
    ensures Total(sel) <= MaxPick ==> Total(sel) + r == MaxPick
    ensures Total(sel) >= MaxPick ==> r == 0
  {
    if Total(sel) >= MaxPick then 0 else MaxPick - Total(sel)
  }

  /** The select's `max_values` on a page: the page's option count bounded
      by what remains, or 0 once nothing remains. */
  function SelectCap(rows: seq<int>, page: nat, sel: seq<PageSelection>): (cap: nat)
    ensures cap <= |PageOptions(rows, page)| && cap <= Remaining(sel)
    ensures cap == 0 <==> PageOptions(rows, page) == [] || Remaining(sel) == 0
  {
    var r := Remaining(sel);
    if r > 0 then (if |PageOptions(rows, page)| < r then |PageOptions(rows, page)| else r) else 0
  }

  /** A page with options whose cap is 0 shows a disabled select. */
  predicate SelectDisabled(rows: seq<int>, page: nat, sel: seq<PageSelection>)
  {
    SelectCap(rows, page, sel) == 0 && PageOptions(rows, page) != []
  }

  /** Replacing the current page's selection with at most `SelectCap` ids
      keeps the total within the budget. */
  lemma SelectKeepsBudget(rows: seq<int>, page: nat, sel: seq<PageSelection>, chosen: set<int>)
    requires DistinctPages(sel) && Total(sel) <= MaxPick
    requires |chosen| <= SelectCap(rows, page, sel)
    ensures Total(Put(sel, page, chosen)) <= MaxPick
  {
    PutFacts(sel, page, chosen);
  }

  /** Once the budget is used up, every page that has options is disabled. */
  lemma FullBudgetDisables(rows: seq<int>, page: nat, sel: seq<PageSelection>)
    requires Total(sel) >= MaxPick && PageOptions(rows, page) != []
    ensures SelectDisabled(rows, page, sel)
  {
  }

  /** The ticked sets of different entries are disjoint. */
  predicate PairwiseDisjoint(sel: seq<PageSelection>)
  {
    forall i, j | 0 <= i < j < |sel| :: sel[i].ids * sel[j].ids == {}
  }

  /** A picker's selections only hold ids offered on their own page. */
  predicate OnOwnPage(rows: seq<int>, sel: seq<PageSelection>)
  {
    forall i :: 0 <= i < |sel| ==> sel[i].ids <= Elems(PageOptions(rows, sel[i].page))
  }

  lemma SelectionsDisjoint(rows: seq<int>, sel: seq<PageSelection>)
    requires NoDup(rows) && DistinctPages(sel) && OnOwnPage(rows, sel)
    ensures PairwiseDisjoint(sel)
  {
    forall i, j | 0 <= i < j < |sel| ensures sel[i].ids * sel[j].ids == {} {
      forall x | x in sel[i].ids ensures x !in sel[j].ids {
        assert x in Elems(PageOptions(rows, sel[i].page));
        PagesDisjoint(rows, sel[i].page, sel[j].page, x);
        assert x !in Elems(PageOptions(rows, sel[j].page));
      }
    }
  }

  /** An iteration order of each page's set. */
  predicate Enumerates(enums: seq<seq<int>>, sel: seq<PageSelection>)
  {
    |enums| == |sel| && forall i :: 0 <= i < |sel| ==> NoDup(enums[i]) && Elems(enums[i]) == sel[i].ids
  }

  /** Chaining the pages' sets in dictionary order lists every ticked id,
      as many entries as the total, with no repeat when the sets are
      disjoint. */
  lemma FlattenSelections(enums: seq<seq<int>>, sel: seq<PageSelection>)
    requires Enumerates(enums, sel)
    ensures |Flatten(enums)| == Total(sel)
    ensures Elems(Flatten(enums)) == Union(sel)
    ensures PairwiseDisjoint(sel) ==> NoDup(Flatten(enums))
  {
    FlattenTotal(enums, sel);
    FlattenUnion(enums, sel);
    if PairwiseDisjoint(sel) {
      FlattenNoDup(enums, sel);
    }
  }

  /** Dropping the first page keeps an enumeration an enumeration. */
  lemma EnumeratesTail(enums: seq<seq<int>>, sel: seq<PageSelection>)
    requires Enumerates(enums, sel) && sel != []
    ensures Enumerates(enums[1..], sel[1..])
  {
    forall i | 0 <= i < |sel[1..]| ensures NoDup(enums[1..][i]) && Elems(enums[1..][i]) == sel[1..][i].ids {
      assert enums[1..][i] == enums[i + 1] && sel[1..][i] == sel[i + 1];
    }
  }

  lemma {:induction false} FlattenTotal(enums: seq<seq<int>>, sel: seq<PageSelection>)
    requires Enumerates(enums, sel)
    ensures |Flatten(enums)| == Total(sel)
  {
    if sel != [] {
      EnumeratesTail(enums, sel);
      FlattenTotal(enums[1..], sel[1..]);
      NoDupCard(enums[0]);
      assert Flatten(enums) == enums[0] + Flatten(enums[1..]);
    }
  }

  lemma {:induction false} FlattenUnion(enums: seq<seq<int>>, sel: seq<PageSelection>)
    requires Enumerates(enums, sel)
    ensures Elems(Flatten(enums)) == Union(sel)
  {
    if sel != [] {
      EnumeratesTail(enums, sel);
      FlattenUnion(enums[1..], sel[1..]);
      var rest := Flatten(enums[1..]);
      assert Flatten(enums) == enums[0] + rest;
      assert Elems(enums[0] + rest) == Elems(enums[0]) + Elems(rest);
    }
  }

  lemma {:induction false} FlattenNoDup(enums: seq<seq<int>>, sel: seq<PageSelection>)
    requires Enumerates(enums, sel) && PairwiseDisjoint(sel)
    ensures NoDup(Flatten(enums))
  {
    if sel != [] {
      EnumeratesTail(enums, sel);
      assert PairwiseDisjoint(sel[1..]) by {
        forall i, j | 0 <= i < j < |sel[1..]| ensures sel[1..][i].ids * sel[1..][j].ids == {} {
          assert sel[1..][i] == sel[i + 1] && sel[1..][j] == sel[j + 1];
        }
      }
      FlattenNoDup(enums[1..], sel[1..]);
      var rest := Flatten(enums[1..]);
      assert Elems(rest) == Union(sel[1..]) by {
        FlattenUnion(enums[1..], sel[1..]);
      }
      UnionDisjoint(sel);
      forall x | x in enums[0] ensures x !in rest {
        assert x in sel[0].ids;
        assert x !in sel[0].ids * Union(sel[1..]);
      }
      NoDupAppend(enums[0], rest);
      assert Flatten(enums) == enums[0] + rest;
    }
  }

  lemma {:induction false} UnionDisjoint(sel: seq<PageSelection>)
    requires sel != [] && PairwiseDisjoint(sel)
    ensures sel[0].ids * Union(sel[1..]) == {}
  {
    if |sel| > 1 {
      var tail := sel[1..];
      assert [sel[0]] + tail[1..] == sel[..1] + sel[2..];
      var shorter := [sel[0]] + tail[1..];
      assert PairwiseDisjoint(shorter) by {
        forall i, j | 0 <= i < j < |shorter| ensures shorter[i].ids * shorter[j].ids == {} {
          if i == 0 {
            assert shorter[j] == sel[j + 1];
          } else {
            assert shorter[i] == sel[i + 1] && shorter[j] == sel[j + 1];
          }
        }
      }
      UnionDisjoint(shorter);
      assert shorter[1..] == tail[1..];
      assert sel[0].ids * sel[1].ids == {};
    }
  }

  class PagedPick {
    const capt: BotRoster.CaptEvent
    /** The signups at the moment the picker opened. */
    const optionRows: seq<int>
    var page: nat
    var selections: seq<PageSelection>

    ghost predicate Valid()
      reads this
    {
      NoDup(optionRows) && page <= LastPage(optionRows)
      && DistinctPages(selections) && OnOwnPage(optionRows, selections)
      && Total(selections) <= MaxPick
    }

    constructor (capt: BotRoster.CaptEvent)
      requires capt.Valid()
      ensures Valid() && this.capt == capt && optionRows == capt.users
      ensures page == 0 && selections == []
    {
      this.capt := capt;
      optionRows := capt.users;
      page := 0;
      selections := [];
    }

    /** The current page's select: its choice replaces that page's entry;
        the choice comes from the page's options and respects the cap. */
    method Select(chosen: set<int>)
      requires Valid()
      requires !SelectDisabled(optionRows, page, selections)
      requires chosen <= Elems(PageOptions(optionRows, page))
      requires |chosen| <= SelectCap(optionRows, page, selections)
      modifies this
      ensures Valid()
      ensures selections == Put(old(selections), page, chosen) && page == old(page)
      ensures Lookup(selections, page) == chosen
      ensures forall p :: p != page ==> Lookup(selections, p) == Lookup(old(selections), p)
      ensures Total(selections) == Total(old(selections)) - |Lookup(old(selections), page)| + |chosen|
    {
      PutFacts(selections, page, chosen);
      SelectKeepsBudget(optionRows, page, selections, chosen);
      var next := Put(selections, page, chosen);
      forall i | 0 <= i < |next| ensures next[i].ids <= Elems(PageOptions(optionRows, next[i].page)) {
        if next[i].page == page {
          assert next[i].ids == Lookup(next, page) by {
            LookupAt(next, i);
          }
        }
      }
      selections := next;
    }

    /** "◀︎": one page back unless on the first; selections untouched. */
    method Prev()
      requires Valid()
      modifies this
      ensures Valid()
      ensures page == if old(page) > 0 then old(page) - 1 else 0
      ensures selections == old(selections)
    {
      if page > 0 {
        page := page - 1;
      }
    }

    /** "▶︎": one page on unless on the last; selections untouched. */
    method Next()
      requires Valid()
      modifies this
      ensures Valid()
      ensures page == if old(page) < LastPage(optionRows) then old(page) + 1 else old(page)
      ensures page <= LastPage(optionRows)
      ensures selections == old(selections)
    {
      var maxPage := if optionRows != [] then (|optionRows| - 1) / PageSize else 0;
      if page < maxPage {
        page := page + 1;
      }
    }

    /** "Wyczyść wybór". */
    method Clear()
      requires Valid()
      modifies this
      ensures Valid() && selections == [] && Total(selections) == 0
      ensures page == old(page)
    {
      selections := [];
    }

    /** "Publikuj listę": the pages' sets chained in dictionary order (each
        set in the order `enums` gives), de-duplicated and cut to 25. An
        empty result changes nothing; otherwise it replaces the picked list.
        Because pages share no id and the budget holds, the result is
        exactly the chained sets: every ticked id once, `Total` of them. */
    method Publish(enums: seq<seq<int>>) returns (published: bool)
      requires Valid() && capt.Valid()
      requires Enumerates(enums, selections)
      modifies capt
      ensures capt.Valid()
      ensures published <==> Take(Dedupe(Flatten(enums)), MaxPick) != []
      ensures published <==> Total(selections) > 0
      ensures published ==> capt.pickedList == Take(Dedupe(Flatten(enums)), MaxPick)
      ensures published ==> capt.pickedList == Flatten(enums)
      ensures published ==> Elems(capt.pickedList) == Union(selections)
      ensures published ==> |capt.pickedList| == Total(selections)
      ensures !published ==> capt.pickedList == old(capt.pickedList)
      ensures capt.users == old(capt.users) && capt.message == old(capt.message)
    {
      SelectionsDisjoint(optionRows, selections);
      FlattenSelections(enums, selections);
      DedupeNoDup(Flatten(enums));
      var chosen := Take(Dedupe(Flatten(enums)), MaxPick);
      assert chosen == Flatten(enums);
      if chosen == [] {
        published := false;
        return;
      }
      capt.pickedList := chosen;
      published := true;
    }
  }

  lemma {:induction false} LookupAt(sel: seq<PageSelection>, i: nat)
    requires DistinctPages(sel) && i < |sel|
    ensures Lookup(sel, sel[i].page) == sel[i].ids
  {
    if i > 0 {
      assert DistinctPages(sel[1..]) by {
        forall a, b | 0 <= a < b < |sel[1..]| ensures sel[1..][a].page != sel[1..][b].page {
          assert sel[1..][a] == sel[a + 1] && sel[1..][b] == sel[b + 1];
        }
      }
      assert sel[0].page != sel[i].page;
      LookupAt(sel[1..], i - 1);
    }
  }

  /** CAPT "PICK" (the later of its two definitions): authorised organisers
      open a picker when somebody has signed up. */
  method OpenPick(capt: BotRoster.CaptEvent, authorised: bool) returns (p: PagedPick?)
    requires capt.Valid()
    ensures p != null <==> authorised && capt.users != []
    ensures p != null ==> fresh(p) && p.Valid() && p.capt == capt && p.optionRows == capt.users
    ensures p != null ==> p.page == 0 && p.selections == []
  {
    if !authorised || capt.users == [] {
      p := null;
    } else {
      p := new PagedPick(capt);
    }
  }
}
