/** Page numbering, range selection and concatenation of the extracted PDF
    text (nimble/nimble.py:57-84). The dictionaries `pdf_dict` and
    `range_dict` are filled once each, with fresh keys, and read back in
    insertion order, so each is modelled as the list of its entries in that
    order. */
module Pages {
  import opened Wrappers
  import opened Strings

  /** One dictionary entry: a page number and the text extracted from it. */
  datatype Page = Page(number: int, text: string)

  /** The `-r first last` option, already converted to integers. */
  datatype PageRange = PageRange(first: int, last: int)

  /** `pages` holds one entry per page text, in reader order, numbered from 1. */
  ghost predicate Numbered(pages: seq<Page>, pageTexts: seq<string>)
  {
    |pages| == |pageTexts| &&
    forall i :: 0 <= i < |pages| ==> pages[i] == Page(i + 1, pageTexts[i])
  }

  /** The extraction loop with its `count` counter that fills `pdf_dict`. */
  method NumberPages(pageTexts: seq<string>) returns (pdfDict: seq<Page>)
    ensures Numbered(pdfDict, pageTexts)
  {
    pdfDict := [];
    var count := 0;
    for i := 0 to |pageTexts|
      invariant count == i
      invariant Numbered(pdfDict, pageTexts[..i])
    {
      count := count + 1;
      pdfDict := pdfDict + [Page(count, pageTexts[i])];
    }
    assert pageTexts[..|pageTexts|] == pageTexts;
  }

  /** Reference definition of the filter: among the first `k` entries, those
      whose number lies in `[first, last]`, in their original order. */
  function InRange(pages: seq<Page>, k: nat, first: int, last: int): (kept: seq<Page>)
    requires k <= |pages|
  {
    if k == 0 then []
    else
      var p := pages[k - 1];
      InRange(pages, k - 1, first, last) + (if first <= p.number <= last then [p] else [])
  }

  /** The loop that copies the entries in range into `range_dict`. */
  method FilterRange(pdfDict: seq<Page>, first: int, last: int) returns (rangeDict: seq<Page>)
    ensures rangeDict == InRange(pdfDict, |pdfDict|, first, last)
  {
    rangeDict := [];
    for i := 0 to |pdfDict|
      invariant rangeDict == InRange(pdfDict, i, first, last)
    {
      if first <= pdfDict[i].number <= last {
        rangeDict := rangeDict + [pdfDict[i]];
      }
    }
  }

  /** The filter keeps exactly the entries whose number is in range. */
  lemma {:induction false} InRangeMembers(pages: seq<Page>, k: nat, first: int, last: int, p: Page)
    requires k <= |pages|
    ensures p in InRange(pages, k, first, last) <==> p in pages[..k] && first <= p.number <= last
  {
    if k > 0 {
      InRangeMembers(pages, k - 1, first, last, p);
      assert pages[..k] == pages[..k - 1] + [pages[k - 1]];
    }
  }

  /** `x` forced into `[0, n]`. */
  function Clamp(x: int, n: nat): (c: nat)
    ensures c <= n
    ensures 0 <= x <= n ==> c == x
  {
    if x < 0 then 0 else if x > n then n else x
  }

  /** Every entry is numbered with its 1-based position. */
  predicate NumberedInOrder(pages: seq<Page>)
  {
    forall i :: 0 <= i < |pages| ==> pages[i].number == i + 1
  }

  /** On pages numbered 1..n the pages in `[first, last]` are a contiguous
      run: list positions `first - 1` up to `last`, clipped to the document
      (here to its first `k` pages). */
  lemma {:induction false} InRangeOfNumbered(pages: seq<Page>, k: nat, first: int, last: int)
    requires k <= |pages| && NumberedInOrder(pages) && first <= last
    ensures Clamp(first - 1, k) <= Clamp(last, k)
    ensures InRange(pages, k, first, last) == pages[Clamp(first - 1, k)..Clamp(last, k)]
  {
    if k > 0 {
      InRangeOfNumbered(pages, k - 1, first, last);
      var lo', hi' := Clamp(first - 1, k - 1), Clamp(last, k - 1);
      var lo, hi := Clamp(first - 1, k), Clamp(last, k);
      assert pages[k - 1].number == k;
      if first <= k <= last {
        assert lo == lo' && hi == k && hi' == k - 1 && lo <= k - 1;
        var run := pages[lo..k - 1];
        assert pages[lo..k] == run + [pages[k - 1]];
      } else if last < k {
        assert lo == lo' && hi == hi';
      } else {
        assert lo == k && hi == k && lo' == k - 1 && hi' == k - 1;
      }
    }
  }

  /** The texts of a list of entries, in order. */
  function Texts(pages: seq<Page>): (texts: seq<string>)
    ensures |texts| == |pages|
    ensures forall i :: 0 <= i < |pages| ==> texts[i] == pages[i].text
  {
    if pages == [] then [] else [pages[0].text] + Texts(pages[1..])
  }

  /** The loop `pdf_str += page_text` over the entries of a dictionary. */
  method ConcatPages(pages: seq<Page>) returns (s: string)
    ensures s == Join(Texts(pages))
  {
    s := "";
    for i := 0 to |pages|
      invariant s == Join(Texts(pages[..i]))
    {
      assert Texts(pages[..i + 1]) == Texts(pages[..i]) + [pages[i].text];
      JoinSnoc(Texts(pages[..i]), pages[i].text);
      s := s + pages[i].text;
    }
    assert pages[..|pages|] == pages;
  }

  /** Reference definition of the text handed to the chunker: with a range
      `first <= last` that meets the document, the pages from `first` to
      `last`; otherwise every page. Pages are concatenated in reader order. */
  function SelectedText(pageTexts: seq<string>, range: Option<PageRange>): (pdfStr: string)
  {
    var n := |pageTexts|;
    if range.Some? && range.value.first <= range.value.last
       && Clamp(range.value.first - 1, n) < Clamp(range.value.last, n)
    then Join(pageTexts[Clamp(range.value.first - 1, n)..Clamp(range.value.last, n)])
    else Join(pageTexts)
  }

  /** Building `pdf_str` from the page texts and the optional range: number
      the pages, keep those in range when a well-ordered range is given, and
      concatenate the kept pages, or every page when none was kept. */
  method ExtractText(pageTexts: seq<string>, range: Option<PageRange>) returns (pdfStr: string)
    ensures pdfStr == SelectedText(pageTexts, range)
  {
    var pdfDict := NumberPages(pageTexts);
    var rangeDict := [];
    if range.Some? && range.value.first <= range.value.last {
      rangeDict := FilterRange(pdfDict, range.value.first, range.value.last);
      InRangeOfNumbered(pdfDict, |pdfDict|, range.value.first, range.value.last);
    }
    if |rangeDict| > 0 {
      pdfStr := ConcatPages(rangeDict);
      var lo := Clamp(range.value.first - 1, |pageTexts|);
      var hi := Clamp(range.value.last, |pageTexts|);
      assert Texts(pdfDict[lo..hi]) == pageTexts[lo..hi];
    } else {
      pdfStr := ConcatPages(pdfDict);
      assert Texts(pdfDict) == pageTexts;
    }
  }
}
