/** Validated pages and batches, and joining them into one text that can be taken apart again. */
module Transcript {
  import opened Common
  import opened Decimal
  import Utf8

  const MAX_PAGE_BYTES := 32 * 1024
  const MAX_BATCH_BYTES := 60 * 1024
  const MAX_RAW_BYTES := 64 * 1024
  const MAX_JOINED_BYTES := 16 * 1024 * 1024

  datatype Page = Page(number: nat, text: string)

  datatype Batch = Batch(first: int, last: int, pages: seq<Page>)

  /** A test that every page text has to pass. */
  type TextRule = string -> bool

  /** The rule of the service; the refusal-phrase heuristic is left open: any predicate on texts. */
  function Proper(suspicious: string -> bool): TextRule {
    text => Utf8.Valid(text) && !Blank(text) && !suspicious(text)
  }

  predicate ValidRange(first: int, last: int) {
    first > 0 && last >= first && last - first < MAX_RAW_BYTES
  }

  predicate ValidText(text: string, proper: TextRule) {
    proper(text) && |text| <= MAX_PAGE_BYTES
  }

  /** The bytes of the first `k` page texts. */
  function TextBytes(pages: seq<Page>, k: nat): nat
    requires k <= |pages|
  {
    if k == 0 then 0 else TextBytes(pages, k - 1) + |pages[k - 1].text|
  }

  predicate ValidPages(pages: seq<Page>, first: int, proper: TextRule) {
    && (forall i | 0 <= i < |pages| :: pages[i].number == first + i && ValidText(pages[i].text, proper))
    && TextBytes(pages, |pages|) <= MAX_BATCH_BYTES
  }

  predicate ValidBatch(batch: Batch, proper: TextRule) {
    && ValidRange(batch.first, batch.last)
    && |batch.pages| == batch.last - batch.first + 1
    && ValidPages(batch.pages, batch.first, proper)
  }

  lemma {:induction false} TextBytesGrow(pages: seq<Page>, i: nat, j: nat)
    requires i <= j <= |pages|
    ensures TextBytes(pages, i) <= TextBytes(pages, j)
    decreases j
  {
    if i < j {
      TextBytesGrow(pages, i, j - 1);
    }
  }

  method CheckBatch(batch: Batch, expectedPage: int, proper: TextRule) returns (ok: bool)
    ensures ok <==> batch.first == expectedPage && ValidBatch(batch, proper)
  {
    if !ValidRange(batch.first, batch.last) || batch.first != expectedPage || |batch.pages| != batch.last - batch.first + 1 {
      return false;
    }
    var total := 0;
    for i := 0 to |batch.pages|
      invariant total == TextBytes(batch.pages, i) <= MAX_BATCH_BYTES
      invariant forall k | 0 <= k < i :: batch.pages[k].number == batch.first + k && ValidText(batch.pages[k].text, proper)
    {
      var page := batch.pages[i];
      TextBytesGrow(batch.pages, i + 1, |batch.pages|);
      if page.number != batch.first + i || !ValidText(page.text, proper) {
        return false;
      }
      if |page.text| > MAX_BATCH_BYTES - total {
        return false;
      }
      total := total + |page.text|;
    }
    ok := true;
  }

  // ----- Joining ------------------------------------------------------------------------------

  function Header(page: Page): string {
    "----- PAGE " + (Dec(page.number) + ("; BYTES " + (Dec(|page.text|) + " -----\n\n")))
  }

  /** What makes the previous text end in a blank line. */
  function Padding(previous: string): string {
    var n := |previous|;
    if n >= 2 && previous[n - 2] == '\n' && previous[n - 1] == '\n' then ""
    else if n >= 1 && previous[n - 1] == '\n' then "\n"
    else "\n\n"
  }

  /** What page `k` adds to the joined text. */
  function Part(pages: seq<Page>, k: nat): string
    requires k < |pages|
  {
    (if k == 0 then "" else Padding(pages[k - 1].text)) + Header(pages[k]) + pages[k].text
  }

  function Parts(pages: seq<Page>): (parts: seq<string>)
    ensures |parts| == |pages|
  {
    seq(|pages|, k requires 0 <= k < |pages| => Part(pages, k))
  }

  /** The first `k` strings, one after the other. */
  function Concat(parts: seq<string>, k: nat): string
    requires k <= |parts|
  {
    if k == 0 then "" else Concat(parts, k - 1) + parts[k - 1]
  }

  function Joined(pages: seq<Page>): string { Concat(Parts(pages), |pages|) }

  predicate PartAt(parts: seq<string>, pages: seq<Page>, k: nat)
    requires k < |parts| == |pages|
  {
    parts[k] == Part(pages, k)
  }

  ghost predicate PartsOf(parts: seq<string>, pages: seq<Page>) {
    |parts| == |pages| && forall k | 0 <= k < |pages| :: PartAt(parts, pages, k)
  }

  lemma JoinedIsConcat(pages: seq<Page>) returns (parts: seq<string>)
    ensures PartsOf(parts, pages) && Concat(parts, |parts|) == Joined(pages)
  {
    parts := Parts(pages);
    assert forall k | 0 <= k < |pages| :: PartAt(parts, pages, k);
  }

  /** The pages of the first `b` batches. */
  function PagesTo(batches: seq<Batch>, b: nat): seq<Page>
    requires b <= |batches|
  {
    if b == 0 then [] else PagesTo(batches, b - 1) + batches[b - 1].pages
  }

  function AllPages(batches: seq<Batch>): seq<Page> { PagesTo(batches, |batches|) }

  /** The batches are valid and their pages run from 1 upwards. */
  predicate Consecutive(batches: seq<Batch>, proper: TextRule) {
    forall b | 0 <= b < |batches| :: Continues(batches, b, proper)
  }

  /** Batch `b` is valid and starts where the batches before it end. */
  predicate Continues(batches: seq<Batch>, b: nat, proper: TextRule)
    requires b < |batches|
  {
    ValidBatch(batches[b], proper) && batches[b].first == |PagesTo(batches, b)| + 1
  }

  predicate Joinable(batches: seq<Batch>, proper: TextRule) {
    batches != [] && Consecutive(batches, proper) && |Joined(AllPages(batches))| <= MAX_JOINED_BYTES
  }

  lemma {:induction false} PagesGrow(batches: seq<Batch>, b: nat, c: nat)
    requires b <= c <= |batches|
    ensures PagesTo(batches, b) <= PagesTo(batches, c)
    decreases c
  {
    if b < c {
      PagesGrow(batches, b, c - 1);
    }
  }

  ghost predicate StandsAt(part: seq<Page>, pages: seq<Page>, at: nat) {
    at + |part| <= |pages| && forall i | 0 <= i < |part| :: pages[at + i] == part[i]
  }

  /** Where the pages of batch `b` stand among all pages. */
  lemma PagesOfBatch(batches: seq<Batch>, b: nat)
    requires b < |batches|
    ensures |PagesTo(batches, b)| + |batches[b].pages| == |PagesTo(batches, b + 1)| <= |AllPages(batches)|
    ensures StandsAt(batches[b].pages, AllPages(batches), |PagesTo(batches, b)|)
  {
    PagesGrow(batches, b + 1, |batches|);
  }

  lemma {:induction false} ConcatGrows(parts: seq<string>, j: nat, k: nat)
    requires j <= k <= |parts|
    ensures |Concat(parts, j)| <= |Concat(parts, k)|
    decreases k
  {
    if j < k {
      ConcatGrows(parts, j, k - 1);
    }
  }

  /** What both passes carry along: the number of the next page, and the text written last. */
  ghost predicate Reached(pages: seq<Page>, k: nat, expectedPage: int, previous: string) {
    k <= |pages| && expectedPage == k + 1 && (k > 0 ==> previous == pages[k - 1].text)
  }

  /** Adds the pages of one batch to the running size, unless the limit is passed. */
  method AddSizes(batch: Batch, start: int, sofar: nat, last: string, ghost pages: seq<Page>, ghost parts: seq<string>, ghost done: nat)
    returns (fits: bool, total: nat, expectedPage: int, previous: string)
    requires PartsOf(parts, pages) && Reached(pages, done, start, last) && StandsAt(batch.pages, pages, done)
    requires sofar == |Concat(parts, done)| <= MAX_JOINED_BYTES
    ensures !fits ==> |Concat(parts, |parts|)| > MAX_JOINED_BYTES
    ensures fits ==> total == |Concat(parts, done + |batch.pages|)| <= MAX_JOINED_BYTES
    ensures fits ==> Reached(pages, done + |batch.pages|, expectedPage, previous)
  {
    fits, total, expectedPage, previous := true, sofar, start, last;
    for i := 0 to |batch.pages|
      invariant Reached(pages, done + i, expectedPage, previous)
      invariant total == |Concat(parts, done + i)| <= MAX_JOINED_BYTES
    {
      var page := batch.pages[i];
      assert pages[done + i] == page;
      assert PartAt(parts, pages, done + i);
      ConcatGrows(parts, done + i + 1, |parts|);
      var separator := |Header(page)|;
      if expectedPage != 1 {
        separator := separator + |Padding(previous)|;
      }
      if separator > MAX_JOINED_BYTES - total {
        return false, total, expectedPage, previous;
      }
      total := total + separator;
      if |page.text| > MAX_JOINED_BYTES - total {
        return false, total, expectedPage, previous;
      }
      total := total + |page.text|;
      previous := page.text;
      expectedPage := expectedPage + 1;
    }
  }

  /** Checks a batch that follows `done` pages, and adds the size of its pages. */
  method AddBatch(batch: Batch, proper: TextRule, start: int, sofar: nat, last: string,
                  ghost pages: seq<Page>, ghost parts: seq<string>, ghost done: nat)
    returns (fits: bool, total: nat, expectedPage: int, previous: string)
    requires PartsOf(parts, pages) && Reached(pages, done, start, last) && StandsAt(batch.pages, pages, done)
    requires sofar == |Concat(parts, done)| <= MAX_JOINED_BYTES
    ensures !fits ==> !(ValidBatch(batch, proper) && batch.first == done + 1) || |Concat(parts, |parts|)| > MAX_JOINED_BYTES
    ensures fits ==> ValidBatch(batch, proper) && batch.first == done + 1
    ensures fits ==> Reached(pages, done + |batch.pages|, expectedPage, previous)
    ensures fits ==> total == |Concat(parts, done + |batch.pages|)| <= MAX_JOINED_BYTES
  {
    var ok := CheckBatch(batch, start, proper);
    if !ok {
      return false, sofar, start, last;
    }
    fits, total, expectedPage, previous := AddSizes(batch, start, sofar, last, pages, parts, done);
  }

  /** First pass: checks every batch and adds up the sizes of all pages. */
  method SizeAll(batches: seq<Batch>, proper: TextRule, ghost pages: seq<Page>, ghost parts: seq<string>)
    returns (size: Option<nat>)
    requires pages == AllPages(batches) && PartsOf(parts, pages)
    ensures size.Some? <==> Consecutive(batches, proper) && |Concat(parts, |parts|)| <= MAX_JOINED_BYTES
    ensures size.Some? ==> size.value == |Concat(parts, |parts|)|
  {
    var total, expectedPage, previous := 0, 1, "";
    for b := 0 to |batches|
      invariant forall c | 0 <= c < b :: Continues(batches, c, proper)
      invariant |PagesTo(batches, b)| <= |pages|
      invariant total == |Concat(parts, |PagesTo(batches, b)|)| <= MAX_JOINED_BYTES
      invariant Reached(pages, |PagesTo(batches, b)|, expectedPage, previous)
    {
      PagesOfBatch(batches, b);
      var fits;
      fits, total, expectedPage, previous :=
        AddBatch(batches[b], proper, expectedPage, total, previous, pages, parts, |PagesTo(batches, b)|);
      if !fits {
        assert Continues(batches, b, proper) ==> |Concat(parts, |parts|)| > MAX_JOINED_BYTES;
        return None;
      }
    }
    size := Some(total);
  }

  /** Writes the pages of one batch. */
  method AppendPages(batch: Batch, start: int, sofar: string, last: string, ghost pages: seq<Page>, ghost parts: seq<string>, ghost done: nat)
    returns (joined: string, expectedPage: int, previous: string)
    requires PartsOf(parts, pages) && Reached(pages, done, start, last) && StandsAt(batch.pages, pages, done)
    requires sofar == Concat(parts, done)
    ensures joined == Concat(parts, done + |batch.pages|) && Reached(pages, done + |batch.pages|, expectedPage, previous)
  {
    joined, expectedPage, previous := sofar, start, last;
    for i := 0 to |batch.pages|
      invariant Reached(pages, done + i, expectedPage, previous)
      invariant joined == Concat(parts, done + i)
    {
      var page := batch.pages[i];
      assert pages[done + i] == page && PartAt(parts, pages, done + i);
      Regroup(joined, if expectedPage != 1 then Padding(previous) else "", Header(page), page.text, "");
      joined := joined + if expectedPage != 1 then Padding(previous) else "";
      joined := joined + Header(page);
      joined := joined + page.text;
      previous := page.text;
      expectedPage := expectedPage + 1;
    }
  }

  /** Second pass: writes the parts of all pages. */
  method WriteAll(batches: seq<Batch>, ghost pages: seq<Page>, ghost parts: seq<string>) returns (joined: string)
    requires pages == AllPages(batches) && PartsOf(parts, pages)
    ensures joined == Concat(parts, |parts|)
  {
    joined := "";
    var expectedPage, previous := 1, "";
    for b := 0 to |batches|
      invariant |PagesTo(batches, b)| <= |pages|
      invariant joined == Concat(parts, |PagesTo(batches, b)|)
      invariant Reached(pages, |PagesTo(batches, b)|, expectedPage, previous)
    {
      PagesOfBatch(batches, b);
      joined, expectedPage, previous := AppendPages(batches[b], expectedPage, joined, previous, pages, parts, |PagesTo(batches, b)|);
    }
  }

  /** Joins the batches, or refuses; the text has exactly the size that the first pass announced. */
  method Join(batches: seq<Batch>, proper: TextRule) returns (content: Option<string>)
    ensures content == if Joinable(batches, proper) then Some(Joined(AllPages(batches))) else None
  {
    if batches == [] {
      return None;
    }
    ghost var parts := JoinedIsConcat(AllPages(batches));
    var size := SizeAll(batches, proper, AllPages(batches), parts);
    if size.None? {
      return None;
    }
    var joined := WriteAll(batches, AllPages(batches), parts);
    assert |joined| == size.value;
    content := Some(joined);
  }

  // ----- Taking a joined text apart -----------------------------------------------------------

  function Strip(s: string, prefix: string): Option<string> {
    if prefix <= s then Some(s[|prefix|..]) else None
  }

  /** Reads a header that announces page `number`, then as many bytes as it says. */
  function SplitPage(s: string, number: nat): (r: Option<(Page, string)>)
    ensures r.Some? ==> |r.value.1| < |s|
  {
    var s :- Strip(s, "----- PAGE ");
    var (n, s) :- ReadNat(s);
    var s :- Strip(s, "; BYTES ");
    var (size, s) :- ReadNat(s);
    var s :- Strip(s, " -----\n\n");
    if n != number || size > |s| then None else Some((Page(n, s[..size]), s[size..]))
  }

  /** Takes one page off the front of a text. */
  type PageReader = (string, nat) -> Option<(Page, string)>

  /** The pages of a joined text from page `number` on. */
  function Split(s: string, number: nat, read: PageReader): Option<seq<Page>>
    decreases |s|
  {
    var (page, rest) :- read(s, number);
    if rest == "" then Some([page])
    else
      var next :- Strip(rest, Padding(page.text));
      if |next| >= |s| then None
      else
        var more :- Split(next, number + 1, read);
        Some([page] + more)
  }

  /** A page under its header, and what follows it. */
  function Headed(page: Page, rest: string): string { Header(page) + (page.text + rest) }

  lemma SplitHeader(page: Page, rest: string)
    ensures SplitPage(Headed(page, rest), page.number) == Some((page, rest))
  {
    var body := page.text + rest;
    var s4 := " -----\n\n" + body;
    var s3 := Dec(|page.text|) + s4;
    var s2 := "; BYTES " + s3;
    var s1 := Dec(page.number) + s2;
    var s := Header(page) + body;
    assert s == "----- PAGE " + s1;
    assert Strip(s, "----- PAGE ") == Some(s1);
    ReadPrinted(page.number, s2);
    assert Strip(s2, "; BYTES ") == Some(s3);
    ReadPrinted(|page.text|, s4);
    assert Strip(s4, " -----\n\n") == Some(body);
    assert body[..|page.text|] == page.text && body[|page.text|..] == rest;
  }

  /** The reader recovers every headed page, whatever its text and whatever follows. */
  ghost predicate Recovers(read: PageReader) {
    forall page, rest :: read(Headed(page, rest), page.number) == Some((page, rest))
  }

  lemma SplitPageRecovers()
    ensures Recovers(SplitPage)
  {
    forall page: Page, rest ensures SplitPage(Headed(page, rest), page.number) == Some((page, rest)) {
      SplitHeader(page, rest);
    }
  }

  lemma SplitStep(s: string, number: nat, page: Page, rest: string, tail: string, more: seq<Page>, read: PageReader)
    requires read(s, number) == Some((page, rest)) && rest != ""
    requires Strip(rest, Padding(page.text)) == Some(tail) && |tail| < |s|
    requires Split(tail, number + 1, read) == Some(more)
    ensures Split(s, number, read) == Some([page] + more)
  {
  }

  /** What follows the text of page `k`. */
  function After(pages: seq<Page>, k: nat): string
    requires k < |pages|
    decreases |pages| - k
  {
    if k + 1 == |pages| then "" else Padding(pages[k].text) + Headed(pages[k + 1], After(pages, k + 1))
  }

  predicate Numbered(pages: seq<Page>) {
    forall i | 0 <= i < |pages| :: pages[i].number == i + 1
  }

  /** The joined text, read from any page boundary. */
  lemma {:induction false} JoinedAt(pages: seq<Page>, parts: seq<string>, k: nat)
    requires k < |pages| && PartsOf(parts, pages)
    ensures Concat(parts, |parts|) == Concat(parts, k + 1) + After(pages, k)
    decreases |pages| - k
  {
    if k + 1 < |pages| {
      JoinedAt(pages, parts, k + 1);
      assert PartAt(parts, pages, k + 1);
      Regroup(Concat(parts, k + 1), Padding(pages[k].text), Header(pages[k + 1]), pages[k + 1].text, After(pages, k + 1));
    }
  }

  lemma Regroup(a: string, b: string, c: string, d: string, e: string)
    ensures a + (b + c + d) + e == a + (b + (c + (d + e)))
    ensures a + (b + c + d) == a + b + c + d
  {
  }

  lemma SplitMore(page: Page, tail: string, more: seq<Page>, read: PageReader)
    requires Recovers(read)
    requires tail != "" && Split(tail, page.number + 1, read) == Some(more)
    ensures Split(Headed(page, Padding(page.text) + tail), page.number, read) == Some([page] + more)
  {
    var rest := Padding(page.text) + tail;
    assert Strip(rest, Padding(page.text)) == Some(tail);
    SplitStep(Headed(page, rest), page.number, page, rest, tail, more, read);
  }

  lemma SplitLast(page: Page, read: PageReader)
    requires Recovers(read)
    ensures Split(Headed(page, ""), page.number, read) == Some([page])
  {
    assert read(Headed(page, ""), page.number) == Some((page, ""));
  }

  lemma {:induction false} SplitFrom(pages: seq<Page>, k: nat, read: PageReader)
    requires k < |pages| && Numbered(pages) && Recovers(read)
    ensures Split(Headed(pages[k], After(pages, k)), k + 1, read) == Some(pages[k..])
    decreases |pages| - k
  {
    if k + 1 == |pages| {
      assert pages[k..] == [pages[k]];
      SplitLast(pages[k], read);
    } else {
      SplitFrom(pages, k + 1, read);
      SplitMore(pages[k], Headed(pages[k + 1], After(pages, k + 1)), pages[k + 1..], read);
      assert [pages[k]] + pages[k + 1..] == pages[k..];
    }
  }

  /** The first part is the first page under its header. */
  lemma FirstPart(pages: seq<Page>, parts: seq<string>)
    requires pages != [] && PartsOf(parts, pages)
    ensures Concat(parts, 1) == Header(pages[0]) + pages[0].text
  {
    assert PartAt(parts, pages, 0);
    OnePart(parts, Header(pages[0]), pages[0].text);
  }

  lemma OnePart(parts: seq<string>, header: string, text: string)
    requires parts != [] && parts[0] == "" + header + text
    ensures Concat(parts, 1) == header + text
  {
    assert Concat(parts, 0) == "" && Concat(parts, 1) == Concat(parts, 0) + parts[0];
    assert "" + header == header;
    assert "" + parts[0] == parts[0];
  }

  lemma Associate(a: string, b: string, c: string)
    ensures a + b + c == a + (b + c)
  {
  }

  lemma JoinedFromFirst(pages: seq<Page>, parts: seq<string>)
    requires pages != [] && PartsOf(parts, pages)
    ensures Concat(parts, |parts|) == Headed(pages[0], After(pages, 0))
  {
    JoinedAt(pages, parts, 0);
    FirstPart(pages, parts);
    Associate(Header(pages[0]), pages[0].text, After(pages, 0));
  }

  lemma SplitAll(s: string, pages: seq<Page>, read: PageReader)
    requires Numbered(pages) && pages != [] && s == Headed(pages[0], After(pages, 0)) && Recovers(read)
    ensures Split(s, 1, read) == Some(pages)
  {
    SplitFrom(pages, 0, read);
    assert pages[0..] == pages;
  }

  /** A text in these parts is taken apart by any reader that recovers headed pages. */
  lemma SplitParts(s: string, pages: seq<Page>, parts: seq<string>, read: PageReader)
    requires Numbered(pages) && pages != [] && PartsOf(parts, pages) && s == Concat(parts, |parts|) && Recovers(read)
    ensures Split(s, 1, read) == Some(pages)
  {
    JoinedFromFirst(pages, parts);
    SplitAll(s, pages, read);
  }

  /** A decoder recovers the exact pages from any joined text, even when a page imitates a header. */
  lemma JoinIsDecodable(pages: seq<Page>)
    requires Numbered(pages) && pages != []
    ensures Split(Joined(pages), 1, SplitPage) == Some(pages)
  {
    var parts := JoinedIsConcat(pages);
    SplitPageRecovers();
    SplitParts(Joined(pages), pages, parts, SplitPage);
  }

  lemma NumbersAppend(pages: seq<Page>, more: seq<Page>)
    requires Numbered(pages) && forall i | 0 <= i < |more| :: more[i].number == |pages| + 1 + i
    ensures Numbered(pages + more)
  {
  }

  lemma {:induction false} ConsecutiveNumbers(batches: seq<Batch>, b: nat, proper: TextRule)
    requires b <= |batches| && Consecutive(batches, proper)
    ensures Numbered(PagesTo(batches, b)) && b <= |PagesTo(batches, b)|
  {
    if b > 0 {
      ConsecutiveNumbers(batches, b - 1, proper);
      assert Continues(batches, b - 1, proper);
      BatchNumbers(batches[b - 1], proper);
      NumbersAppend(PagesTo(batches, b - 1), batches[b - 1].pages);
    }
  }

  lemma BatchNumbers(batch: Batch, proper: TextRule)
    requires ValidBatch(batch, proper)
    ensures |batch.pages| > 0 && forall i | 0 <= i < |batch.pages| :: batch.pages[i].number == batch.first + i
  {
  }

  /** Two successful joins give the same text exactly when the pages are the same, however they are batched. */
  lemma JoinIgnoresBatching(a: seq<Batch>, b: seq<Batch>, proper: TextRule)
    requires Joinable(a, proper) && Joinable(b, proper)
    ensures Joined(AllPages(a)) == Joined(AllPages(b)) <==> AllPages(a) == AllPages(b)
    ensures Split(Joined(AllPages(a)), 1, SplitPage) == Some(AllPages(a))
  {
    ConsecutiveNumbers(a, |a|, proper);
    ConsecutiveNumbers(b, |b|, proper);
    JoinIsDecodable(AllPages(a));
    JoinIsDecodable(AllPages(b));
  }
}
