/** Collecting the pages a renderer wrote, and the reservation around it. */
module Render {
  import opened Common
  import opened Decimal
  import opened Workspace

  /** A directory entry: whether it is a regular file, its size, whether it starts as a PNG file, whether renaming works. */
  datatype Entry = Entry(name: string, regular: bool, size: int64, png: bool, renamed: bool)

  datatype Page = Page(number: int, size: int64)

  datatype Reason = UnexpectedOutput | DuplicateOutput | InvalidOutput | BudgetExceeded | IncompleteOutput | OutOfOrder

  const MAX_NUMBER := 0x7FFF_FFFF_FFFF_FFFF

  predicate AllDigits(s: string) {
    s != "" && forall c | c in s :: IsDigit(c)
  }

  /** The page number of a file named `render-<digits>.png`. */
  function PageNumber(name: string): Option<int> {
    if |name| <= 11 || name[..7] != "render-" || name[|name| - 4..] != ".png" then None
    else
      var digits := name[7..|name| - 4];
      if AllDigits(digits) && 0 < Value(digits) <= MAX_NUMBER then Some(Value(digits)) else None
  }

  predicate InRange(e: Entry, first: int, last: int) {
    PageNumber(e.name).Some? && first <= PageNumber(e.name).value <= last
  }

  predicate Good(e: Entry, first: int, last: int) {
    InRange(e, first, last) && e.regular && e.png && e.renamed
  }

  function SizeOf(entries: seq<Entry>): int {
    if entries == [] then 0 else SizeOf(entries[..|entries| - 1]) + entries[|entries| - 1].size as int
  }

  predicate DistinctNumbers(entries: seq<Entry>) {
    forall i, k | 0 <= i < k < |entries| :: PageNumber(entries[i].name) != PageNumber(entries[k].name)
  }

  /** A complete batch: only good pages of the range, each once, as many as the range has, within the budget. */
  predicate Complete(entries: seq<Entry>, first: int, last: int, budget: int64) {
    && (forall i | 0 <= i < |entries| :: Good(entries[i], first, last))
    && DistinctNumbers(entries) && |entries| == last - first + 1 && SizeOf(entries) <= budget as int
  }

  predicate Sizes(entries: seq<Entry>) {
    forall i | 0 <= i < |entries| :: entries[i].size >= 0
  }

  lemma {:induction false} SizeGrows(entries: seq<Entry>, k: nat)
    requires k <= |entries| && Sizes(entries)
    ensures 0 <= SizeOf(entries[..k]) <= SizeOf(entries)
    decreases |entries|
  {
    if k == |entries| {
      assert entries[..k] == entries;
      if k > 0 {
        SizeGrows(entries[..k - 1], k - 1);
      }
    } else {
      SizeGrows(entries[..|entries| - 1], k);
      assert entries[..|entries| - 1][..k] == entries[..k];
    }
  }

  // ----- Sorting ----------------------------------------------------------------------------------

  predicate Increasing(pages: seq<Page>) {
    forall i, k | 0 <= i < k < |pages| :: pages[i].number < pages[k].number
  }

  predicate Lacks(pages: seq<Page>, number: int) {
    forall p | p in pages :: p.number != number
  }

  function Inserted(pages: seq<Page>, p: Page): (r: seq<Page>)
    ensures multiset(r) == multiset(pages) + multiset{p}
  {
    if pages == [] then [p]
    else if p.number < pages[0].number then
      assert multiset([p] + pages) == multiset(pages) + multiset{p};
      [p] + pages
    else
      assert pages == [pages[0]] + pages[1..];
      [pages[0]] + Inserted(pages[1..], p)
  }

  function Sorted(pages: seq<Page>): (r: seq<Page>)
    ensures multiset(r) == multiset(pages)
  {
    if pages == [] then []
    else
      assert pages == [pages[0]] + pages[1..];
      Inserted(Sorted(pages[1..]), pages[0])
  }

  lemma SameElements(a: seq<Page>, b: seq<Page>)
    requires multiset(a) == multiset(b)
    ensures forall p :: p in a <==> p in b
  {
    forall p ensures p in a <==> p in b {
      assert p in a <==> p in multiset(a);
      assert p in b <==> p in multiset(b);
    }
  }

  lemma {:induction false} InsertedIncreases(pages: seq<Page>, p: Page)
    requires Increasing(pages) && Lacks(pages, p.number)
    ensures Increasing(Inserted(pages, p))
  {
    if pages != [] && p.number > pages[0].number {
      InsertedIncreases(pages[1..], p);
      var rest := Inserted(pages[1..], p);
      assert multiset(rest) == multiset(pages[1..] + [p]);
      SameElements(rest, pages[1..] + [p]);
      forall k | 0 <= k < |rest| ensures pages[0].number < rest[k].number {
        assert rest[k] in pages[1..] + [p];
      }
    }
  }

  predicate DifferentPages(pages: seq<Page>) {
    forall i, k | 0 <= i < k < |pages| :: pages[i].number != pages[k].number
  }

  lemma {:induction false} SortedIncreases(pages: seq<Page>)
    requires DifferentPages(pages)
    ensures Increasing(Sorted(pages))
  {
    if pages != [] {
      SortedIncreases(pages[1..]);
      SameElements(Sorted(pages[1..]), pages[1..]);
      InsertedIncreases(Sorted(pages[1..]), pages[0]);
    }
  }

  predicate Exactly(pages: seq<Page>, first: int, last: int) {
    |pages| == last - first + 1 && forall i | 0 <= i < |pages| :: pages[i].number == first + i
  }

  /** Pigeonhole: as many different numbers of the range as the range has, in order, are the whole range. */
  lemma {:induction false} FromBelow(pages: seq<Page>, first: int, i: nat)
    requires Increasing(pages) && i < |pages| && first <= pages[0].number
    ensures first + i <= pages[i].number
  {
    if i > 0 {
      FromBelow(pages, first, i - 1);
    }
  }

  lemma {:induction false} FromAbove(pages: seq<Page>, last: int, i: nat)
    requires Increasing(pages) && i < |pages| && pages[|pages| - 1].number <= last
    ensures pages[i].number <= last - (|pages| - 1 - i)
    decreases |pages| - i
  {
    if i < |pages| - 1 {
      FromAbove(pages, last, i + 1);
    }
  }

  /** The order check after sorting can never fail. */
  lemma SortedIsExact(pages: seq<Page>, first: int, last: int)
    requires DifferentPages(pages) && |pages| == last - first + 1
    requires forall p | p in pages :: first <= p.number <= last
    ensures Exactly(Sorted(pages), first, last)
  {
    SortedIncreases(pages);
    var sorted := Sorted(pages);
    SameElements(sorted, pages);
    assert |sorted| == |multiset(sorted)| == |multiset(pages)| == |pages|;
    forall i | 0 <= i < |sorted| ensures sorted[i].number == first + i {
      assert sorted[0] in pages && sorted[|sorted| - 1] in pages;
      FromBelow(sorted, first, i);
      FromAbove(sorted, last, i);
    }
  }

  // ----- Collecting -------------------------------------------------------------------------------

  function PageOf(e: Entry): Page
    requires PageNumber(e.name).Some?
  {
    Page(PageNumber(e.name).value, e.size)
  }

  function PageBytes(pages: seq<Page>): int {
    if pages == [] then 0 else pages[0].size as int + PageBytes(pages[1..])
  }

  lemma {:induction false} AppendedBytes(pages: seq<Page>, p: Page)
    ensures PageBytes(pages + [p]) == PageBytes(pages) + p.size as int
  {
    if pages == [] {
      assert [p][1..] == [];
    } else {
      assert (pages + [p])[1..] == pages[1..] + [p];
      AppendedBytes(pages[1..], p);
    }
  }

  lemma {:induction false} InsertedBytes(pages: seq<Page>, p: Page)
    ensures PageBytes(Inserted(pages, p)) == PageBytes(pages) + p.size as int
  {
    if pages == [] {
      assert [p][1..] == [];
    } else if p.number < pages[0].number {
      assert ([p] + pages)[1..] == pages;
    } else {
      InsertedBytes(pages[1..], p);
      assert ([pages[0]] + Inserted(pages[1..], p))[1..] == Inserted(pages[1..], p);
    }
  }

  lemma {:induction false} SortedBytes(pages: seq<Page>)
    ensures PageBytes(Sorted(pages)) == PageBytes(pages)
  {
    if pages != [] {
      SortedBytes(pages[1..]);
      InsertedBytes(Sorted(pages[1..]), pages[0]);
    }
  }

  /** The pages collected so far are those of the entries so far. */
  ghost predicate Collected(entries: seq<Entry>, first: int, last: int, pages: seq<Page>, seen: set<int>) {
    && |pages| == |entries|
    && (forall i | 0 <= i < |entries| :: Good(entries[i], first, last) && pages[i] == PageOf(entries[i]))
    && DistinctNumbers(entries)
    && seen == set p | p in pages :: p.number
  }

  lemma SeenBefore(entries: seq<Entry>, i: nat, first: int, last: int, pages: seq<Page>, seen: set<int>)
    requires i < |entries| && Collected(entries[..i], first, last, pages, seen)
    requires PageNumber(entries[i].name).Some? && PageNumber(entries[i].name).value in seen
    ensures !DistinctNumbers(entries)
  {
    var p :| p in pages && p.number == PageNumber(entries[i].name).value;
    var k :| 0 <= k < |pages| && pages[k] == p;
    assert entries[..i][k] == entries[k];
  }

  lemma NotSeenBefore(was: seq<Entry>, e: Entry, first: int, last: int, pages: seq<Page>, seen: set<int>)
    requires Collected(was, first, last, pages, seen) && Good(e, first, last) && PageNumber(e.name).value !in seen
    ensures Collected(was + [e], first, last, pages + [PageOf(e)], seen + {PageNumber(e.name).value})
  {
    forall i | 0 <= i < |was| ensures PageNumber(was[i].name) != PageNumber(e.name) {
      assert pages[i] in pages && pages[i] == PageOf(was[i]);
    }
  }

  lemma CollectedDiffer(entries: seq<Entry>, first: int, last: int, pages: seq<Page>, seen: set<int>)
    requires Collected(entries, first, last, pages, seen)
    ensures DifferentPages(pages)
  {
    forall i, k | 0 <= i < k < |pages| ensures pages[i].number != pages[k].number {
      assert pages[i] == PageOf(entries[i]) && pages[k] == PageOf(entries[k]);
    }
  }

  lemma CollectedIsExact(entries: seq<Entry>, first: int, last: int, pages: seq<Page>, seen: set<int>)
    requires Collected(entries, first, last, pages, seen) && |pages| == last - first + 1
    ensures Exactly(Sorted(pages), first, last) && PageBytes(Sorted(pages)) == PageBytes(pages)
    ensures forall p | p in Sorted(pages) :: exists e | e in entries && PageNumber(e.name).Some? :: p == PageOf(e)
  {
    CollectedDiffer(entries, first, last, pages, seen);
    SortedIsExact(pages, first, last);
    SortedBytes(pages);
    SameElements(Sorted(pages), pages);
    forall p | p in Sorted(pages) ensures exists e | e in entries && PageNumber(e.name).Some? :: p == PageOf(e) {
      var i :| 0 <= i < |pages| && pages[i] == p;
      assert entries[i] in entries && p == PageOf(entries[i]);
    }
  }

  lemma SizesKept(entries: seq<Entry>, pages: seq<Page>)
    requires Sizes(entries) && forall p | p in pages :: exists e | e in entries && PageNumber(e.name).Some? :: p == PageOf(e)
    ensures forall i | 0 <= i < |pages| :: pages[i].size >= 0
  {
    forall i | 0 <= i < |pages| ensures pages[i].size >= 0 {
      assert pages[i] in pages;
    }
  }

  /** Takes the entries in directory order, until one is refused. */
  method CollectAll(entries: seq<Entry>, first: int, last: int, budget: int64)
    returns (r: Result<seq<Page>, Reason>, ghost seen: set<int>)
    requires Sizes(entries) && budget >= 0
    ensures r.Ok? ==> Collected(entries, first, last, r.value, seen) && SizeOf(entries) == PageBytes(r.value) <= budget as int
    ensures r.Err? ==> !Complete(entries, first, last, budget) && r.error != OutOfOrder
  {
    var pages: seq<Page> := [];
    var numbers: set<int> := {};
    var total: int64 := 0;
    seen := {};
    for i := 0 to |entries|
      invariant seen == numbers && Collected(entries[..i], first, last, pages, seen)
      invariant 0 <= total <= budget && total as int == SizeOf(entries[..i]) == PageBytes(pages)
    {
      var e := entries[i];
      assert entries[..i + 1] == entries[..i] + [e] && entries[..i + 1][..i] == entries[..i];
      SizeGrows(entries, i + 1);
      var number := PageNumber(e.name);
      if number.None? || number.value < first || number.value > last {
        return Err(UnexpectedOutput), seen;
      }
      if number.value in numbers {
        SeenBefore(entries, i, first, last, pages, seen);
        return Err(DuplicateOutput), seen;
      }
      if !e.regular || e.size > budget {
        return Err(InvalidOutput), seen;
      }
      if e.size > budget - total {
        return Err(BudgetExceeded), seen;
      }
      total := total + e.size;
      if !e.png || !e.renamed {
        return Err(InvalidOutput), seen;
      }
      NotSeenBefore(entries[..i], e, first, last, pages, seen);
      AppendedBytes(pages, PageOf(e));
      numbers := numbers + {number.value};
      seen := numbers;
      pages := pages + [PageOf(e)];
    }
    assert entries[..|entries|] == entries;
    r := Ok(pages);
  }

  lemma CollectedIsComplete(entries: seq<Entry>, first: int, last: int, pages: seq<Page>, seen: set<int>, budget: int64)
    requires Collected(entries, first, last, pages, seen) && SizeOf(entries) <= budget as int
    ensures Complete(entries, first, last, budget) <==> |pages| == last - first + 1
  {
  }

  /** Accepts exactly the complete batches, and sorts them; the order check after sorting never fires. */
  method CollectRenderedPages(entries: seq<Entry>, first: int, last: int, budget: int64) returns (r: Result<seq<Page>, Reason>)
    requires Sizes(entries) && budget >= 0
    ensures r.Ok? <==> Complete(entries, first, last, budget)
    ensures r.Ok? ==> Exactly(r.value, first, last) && PageBytes(r.value) == SizeOf(entries) <= budget as int
    ensures r.Ok? ==> forall i | 0 <= i < |r.value| :: r.value[i].size >= 0
    ensures r.Ok? ==> forall p | p in r.value :: exists e | e in entries && PageNumber(e.name).Some? :: p == PageOf(e)
    ensures r.Err? ==> r.error != OutOfOrder
  {
    ghost var seen;
    r, seen := CollectAll(entries, first, last, budget);
    if r.Err? {
      return;
    }
    CollectedIsComplete(entries, first, last, r.value, seen, budget);
    if |r.value| != last - first + 1 {
      return Err(IncompleteOutput);
    }
    CollectedIsExact(entries, first, last, r.value, seen);
    var pages := Sorted(r.value);
    SizesKept(entries, pages);
    var ordered := InOrder(pages, first);
    r := if ordered then Ok(pages) else Err(OutOfOrder);
  }

  method InOrder(pages: seq<Page>, first: int) returns (ordered: bool)
    ensures ordered <==> forall i | 0 <= i < |pages| :: pages[i].number == first + i
  {
    for i := 0 to |pages|
      invariant forall k | 0 <= k < i :: pages[k].number == first + k
    {
      if pages[i].number != first + i {
        return false;
      }
    }
    ordered := true;
  }

  // ----- The reservation around a render ------------------------------------------------------------

  /** Everything that is left is reserved while the renderer runs, then cut down to what it wrote, and
      given back at the end. Once the pages are accepted, cutting down cannot fail. */
  method RenderPages(workspace: Workspace, entries: seq<Entry>, first: int, last: int, available: Option<int64>,
                     ran: bool, visited: bool, cleaned: bool)
    returns (ok: bool, pages: seq<Page>)
    requires workspace.Valid() && Sizes(entries)
    modifies workspace
    ensures workspace.Valid() && workspace.reserved == old(workspace.reserved) && workspace.active == old(workspace.active)
    ensures ok <==> 0 < first <= last && !old(workspace.closed) && workspace.Fits(old(workspace.budget) - old(workspace.reserved), available)
                    && ran && Complete(entries, first, last, old(workspace.budget) - old(workspace.reserved)) && visited && cleaned
    ensures ok ==> Exactly(pages, first, last) && PageBytes(pages) == SizeOf(entries)
  {
    pages := [];
    if first <= 0 || last <= 0 || first > last {
      return false, pages;
    }
    var lease := workspace.ReserveRemaining(available);
    if lease.None? {
      return false, pages;
    }
    ok := false;
    if ran {
      ok, pages := CollectWithin(lease.value, entries, first, last);
      ok := ok && visited;
    }
    lease.value.Release();
    ok := ok && cleaned;
  }

  /** Collects the pages and cuts the reservation down to their size, which cannot fail. */
  method CollectWithin(lease: Reservation, entries: seq<Entry>, first: int, last: int) returns (ok: bool, pages: seq<Page>)
    requires lease.Valid() && !lease.released && !lease.workspace.closed && Sizes(entries)
    modifies lease, lease.workspace
    ensures lease.Valid() && !lease.released && lease.workspace.closed == old(lease.workspace.closed)
    ensures lease.workspace.Unmoved(old(lease.workspace.leases), old(lease.workspace.budget), old(lease.workspace.minimumFree))
    ensures ok <==> Complete(entries, first, last, old(lease.bytes))
    ensures ok ==> Exactly(pages, first, last) && PageBytes(pages) == SizeOf(entries) == lease.bytes as int
    ensures lease.workspace.active == old(lease.workspace.active)
    ensures lease.workspace.reserved as int == old(lease.workspace.reserved) as int - (old(lease.bytes) as int - lease.bytes as int)
  {
    assert lease.Matches(lease.workspace.ledger[lease.slot]);
    SlotWithinTotal(lease.workspace.ledger, lease.slot);
    var collected := CollectRenderedPages(entries, first, last, lease.bytes);
    if collected.Err? {
      return false, [];
    }
    pages := collected.value;
    var total := AddSizes(pages, lease.bytes);
    var resized := lease.Resize(total);
    return resized, pages;
  }

  method AddSizes(pages: seq<Page>, bound: int64) returns (total: int64)
    requires (forall i | 0 <= i < |pages| :: pages[i].size >= 0) && PageBytes(pages) <= bound as int
    ensures total as int == PageBytes(pages) && 0 <= total
  {
    total := 0;
    for i := 0 to |pages|
      invariant 0 <= total && total as int + PageBytes(pages[i..]) == PageBytes(pages)
    {
      BytesNonNegative(pages[i..][1..]);
      assert pages[i..][1..] == pages[i + 1..];
      total := total + pages[i].size;
    }
  }

  lemma {:induction false} BytesNonNegative(pages: seq<Page>)
    requires forall i | 0 <= i < |pages| :: pages[i].size >= 0
    ensures PageBytes(pages) >= 0
  {
    if pages != [] {
      BytesNonNegative(pages[1..]);
    }
  }
}
