/**
 * The paginated-document abstraction the merge relies on: a loaded document
 * is a sequence of pages, `insertPages(src, pages, at)` splices the listed
 * pages of `src` (1-based page numbers) into the destination before its
 * 1-based position `at`, and the page count is the sequence's length.
 * The document library itself is outside the model; these are the
 * behaviours handleMerge depends on.
 */
module Documents {
  import opened Common

  /** The content of one page; the model never looks inside it. */
  type Page = seq<bv8>

  /** What the document library makes of a picked file: its pages, or the reason it rejects the file. */
  datatype FileContent = Readable(pages: seq<Page>) | Unreadable(reason: string)

  /** A file the user picked in one of the slots. */
  datatype SourceFile = SourceFile(name: string, content: FileContent)

  /** Page numbers that all name a page of a document with `count` pages. */
  predicate ValidPageNumbers(count: nat, numbers: seq<int>) {
    forall k :: 0 <= k < |numbers| ==> 1 <= numbers[k] <= count
  }

  /** `Array.from({ length: count }, (_, k) => k + 1)`. */
  function PageRange(count: nat): (r: seq<int>)
    ensures |r| == count
    ensures forall k :: 0 <= k < count ==> r[k] == k + 1
  {
    if count == 0 then [] else PageRange(count - 1) + [count]
  }

  /** The range holds every page of the document, in increasing order. */
  lemma PageRangeIsIncreasingAndValid(count: nat)
    ensures ValidPageNumbers(count, PageRange(count))
    ensures forall a, b :: 0 <= a < b < count ==> PageRange(count)[a] < PageRange(count)[b]
  {
  }

  /** The pages of `src` named by `numbers`, in the order `numbers` lists them. */
  function SelectPages(src: seq<Page>, numbers: seq<int>): (r: seq<Page>)
    requires ValidPageNumbers(|src|, numbers)
    ensures |r| == |numbers|
  {
    if numbers == [] then [] else [src[numbers[0] - 1]] + SelectPages(src, numbers[1..])
  }

  lemma {:induction false} SelectPagesAt(src: seq<Page>, numbers: seq<int>, k: nat)
    requires ValidPageNumbers(|src|, numbers) && k < |numbers|
    ensures SelectPages(src, numbers)[k] == src[numbers[k] - 1]
  {
    if k > 0 {
      SelectPagesAt(src, numbers[1..], k - 1);
    } else if |numbers| > 1 {
      SelectPagesAt(src, numbers[1..], 0);
    }
  }

  /** Selecting the full range 1..count of a document gives all its pages, in order. */
  lemma SelectFullRange(src: seq<Page>)
    ensures ValidPageNumbers(|src|, PageRange(|src|))
    ensures SelectPages(src, PageRange(|src|)) == src
  {
    var numbers := PageRange(|src|);
    if |src| == 0 {
      assert numbers == [];
    } else {
      SelectPagesAt(src, numbers, 0);
      forall k | 0 <= k < |src|
        ensures SelectPages(src, numbers)[k] == src[k]
      {
        SelectPagesAt(src, numbers, k);
      }
    }
  }

  /**
   * The pages of a destination holding `dest` after `insertPages(src, numbers, at)`,
   * or None when the library rejects the call: `at` outside 1..|dest| + 1 or a
   * page number that `src` does not have.
   */
  function InsertedPages(dest: seq<Page>, src: seq<Page>, numbers: seq<int>, at: int): (r: Option<seq<Page>>)
    ensures r.Some? <==> 1 <= at <= |dest| + 1 && ValidPageNumbers(|src|, numbers)
    ensures r.Some? ==> |r.value| == |dest| + |numbers|
    ensures r.Some? ==> r.value[..at - 1] == dest[..at - 1] && r.value[at - 1 + |numbers|..] == dest[at - 1..]
    ensures r.Some? ==> forall k :: 0 <= k < |numbers| ==> r.value[at - 1 + k] == src[numbers[k] - 1]
  {
    if 1 <= at <= |dest| + 1 && ValidPageNumbers(|src|, numbers) then
      var block := SelectPages(src, numbers);
      var r := dest[..at - 1] + block + dest[at - 1..];
      assert forall k :: 0 <= k < |numbers| ==> r[at - 1 + k] == src[numbers[k] - 1] by {
        forall k | 0 <= k < |numbers| ensures r[at - 1 + k] == src[numbers[k] - 1] {
          SelectPagesAt(src, numbers, k);
        }
      }
      Some(r)
    else
      None
  }

  /**
   * One round of the merge loop: inserting the full page range of `d` at one
   * past the destination's page count is accepted and appends `d` at the end.
   */
  lemma AppendStep(acc: seq<Page>, d: seq<Page>)
    ensures InsertedPages(acc, d, PageRange(|d|), |acc| + 1) == Some(acc + d)
  {
    SelectFullRange(d);
    assert acc[..|acc|] == acc && acc[|acc|..] == [];
    assert acc[..|acc|] + SelectPages(d, PageRange(|d|)) + acc[|acc|..] == acc + d;
  }

  /** The documents' pages one after the other, in list order. */
  function Concat(docs: seq<seq<Page>>): seq<Page> {
    if docs == [] then [] else Concat(docs[..|docs| - 1]) + docs[|docs| - 1]
  }

  /** The sum of the documents' page counts. */
  function TotalPages(docs: seq<seq<Page>>): nat {
    if docs == [] then 0 else TotalPages(docs[..|docs| - 1]) + |docs[|docs| - 1]|
  }

  lemma ConcatPrefix(docs: seq<seq<Page>>, i: nat)
    requires i < |docs|
    ensures Concat(docs[..i + 1]) == Concat(docs[..i]) + docs[i]
  {
    assert docs[..i + 1][..i] == docs[..i];
  }

  /** The merged document has as many pages as all inputs together. */
  lemma {:induction false} ConcatLength(docs: seq<seq<Page>>)
    ensures |Concat(docs)| == TotalPages(docs)
  {
    if docs != [] {
      ConcatLength(docs[..|docs| - 1]);
    }
  }

  /**
   * Page `j` of input `k` is page `TotalPages(docs[..k]) + j` of the merged
   * document: every input occupies one contiguous block, in list order, and
   * keeps its own page order.
   */
  lemma {:induction false} ConcatBlock(docs: seq<seq<Page>>, k: nat, j: nat)
    requires k < |docs| && j < |docs[k]|
    ensures TotalPages(docs[..k]) + j < |Concat(docs)|
    ensures Concat(docs)[TotalPages(docs[..k]) + j] == docs[k][j]
  {
    var m := |docs| - 1;
    var front := docs[..m];
    ConcatLength(docs);
    ConcatLength(front);
    if k == m {
      assert docs[..k] == front;
    } else {
      assert front[..k] == docs[..k];
      ConcatBlock(front, k, j);
    }
  }

  /** A document loaded by the library; only `insertPages` changes it. */
  class Document {
    var pages: seq<Page>

    constructor (pages: seq<Page>)
      ensures this.pages == pages
    {
      this.pages := pages;
    }

    /** `getPageCount()`: the number of pages the document holds. */
    function PageCount(): (n: nat)
      reads this
      ensures n == |pages|
    {
      |pages|
    }

    /** `insertPages(src, numbers, at)`; `ok` is false when the library rejects the call, which then changes nothing. */
    method InsertPages(src: Document, numbers: seq<int>, at: int) returns (ok: bool)
      modifies this
      ensures ok == InsertedPages(old(pages), old(src.pages), numbers, at).Some?
      ensures ok ==> pages == InsertedPages(old(pages), old(src.pages), numbers, at).value
      ensures !ok ==> pages == old(pages)
      ensures ok ==> PageCount() == old(PageCount()) + |numbers|
    {
      var r := InsertedPages(pages, src.pages, numbers, at);
      if r.Some? {
        pages := r.value;
        ok := true;
      } else {
        ok := false;
      }
    }

    /** `getFileData()`: the serialised document, represented by the pages it holds. */
    method GetFileData() returns (data: seq<Page>)
      ensures data == pages
    {
      data := pages;
    }
  }

  /** `Core.createDocument(f, { extension: 'pdf' })`: a fresh document holding the file's pages, or the library's error. */
  method CreateDocument(f: SourceFile) returns (r: Result<Document>)
    ensures f.content.Readable? ==> r.Ok? && fresh(r.value) && r.value.pages == f.content.pages
    ensures f.content.Unreadable? ==> r == Err(f.content.reason)
  {
    match f.content
    case Readable(pages) =>
      var d := new Document(pages);
      r := Ok(d);
    case Unreadable(reason) =>
      r := Err(reason);
  }
}
