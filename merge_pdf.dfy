/**
 * The merge panel (src/MergePDF.jsx): four file slots, the merge it runs over
 * the filled ones, and the `merging`, `mergedUrl` and `error` state it shows.
 * The document library is the one modelled in module Documents; whether its
 * Core object has been attached is a flag set by the initialisation effect.
 */
module MergePdf {
  import opened Common
  import opened Documents

  const SlotCount: nat := 4
  const TooFewMessage := "Select at least two PDF files to merge."
  const CoreMissingMessage := "PDFTron Core not loaded yet."
  const MergeFailedPrefix := "Merge failed: "
  const LoadFailedPrefix := "Failed to load file #"

  /**
   * `files.filter(f => f)`: the picked files, in slot order, at most one per
   * slot; SelectedIsFilledSlotsInOrder below says exactly which.
   */
  function Selected(slots: seq<Option<SourceFile>>): (r: seq<SourceFile>)
    ensures |r| <= |slots|
  {
    if slots == [] then []
    else
      Selected(slots[..|slots| - 1]) + Picked(slots[|slots| - 1])
  }

  /** The file a single slot contributes to the selection. */
  function Picked(slot: Option<SourceFile>): seq<SourceFile> {
    if slot.Some? then [slot.value] else []
  }

  lemma SelectedSnoc(slots: seq<Option<SourceFile>>, slot: Option<SourceFile>)
    ensures Selected(slots + [slot]) == Selected(slots) + Picked(slot)
  {
    assert (slots + [slot])[..|slots|] == slots;
  }

  /** The indices of the filled slots, in increasing order. */
  ghost function FilledSlots(slots: seq<Option<SourceFile>>): seq<nat> {
    if slots == [] then []
    else FilledSlots(slots[..|slots| - 1]) + (if slots[|slots| - 1].Some? then [|slots| - 1] else [])
  }

  lemma FilledSlotsSnoc(slots: seq<Option<SourceFile>>, slot: Option<SourceFile>)
    ensures FilledSlots(slots + [slot]) == FilledSlots(slots) + (if slot.Some? then [|slots|] else [])
  {
    assert (slots + [slot])[..|slots|] == slots;
  }

  /** Every listed slot index is below `n`. */
  lemma {:induction false} FilledSlotsBelow(slots: seq<Option<SourceFile>>)
    ensures forall k :: 0 <= k < |FilledSlots(slots)| ==> FilledSlots(slots)[k] < |slots|
  {
    if slots != [] {
      FilledSlotsBelow(slots[..|slots| - 1]);
    }
  }

  /**
   * The selection holds exactly the filled slots' files, in slot order: its
   * `k`-th file is the file of the `k`-th filled slot, the slot indices
   * increase, and a slot is listed exactly when it holds a file.
   */
  lemma {:induction false} SelectedIsFilledSlotsInOrder(slots: seq<Option<SourceFile>>)
    ensures |Selected(slots)| == |FilledSlots(slots)|
    ensures forall k :: 0 <= k < |FilledSlots(slots)| ==>
              FilledSlots(slots)[k] < |slots| && slots[FilledSlots(slots)[k]] == Some(Selected(slots)[k])
    ensures forall a, b :: 0 <= a < b < |FilledSlots(slots)| ==> FilledSlots(slots)[a] < FilledSlots(slots)[b]
    ensures forall i :: 0 <= i < |slots| ==> (slots[i].Some? <==> i in FilledSlots(slots))
  {
    if slots != [] {
      var n := |slots| - 1;
      var front, last := slots[..n], slots[n];
      assert slots == front + [last];
      SelectedIsFilledSlotsInOrder(front);
      FilledSlotsBelow(front);
      SelectedSnoc(front, last);
      FilledSlotsSnoc(front, last);
      var idx, sel := FilledSlots(front), Selected(front);
      forall k | 0 <= k < |FilledSlots(slots)|
        ensures FilledSlots(slots)[k] < |slots| && slots[FilledSlots(slots)[k]] == Some(Selected(slots)[k])
      {
        if k < |idx| {
          assert FilledSlots(slots)[k] == idx[k] && Selected(slots)[k] == sel[k];
        }
      }
      forall i | 0 <= i < |slots|
        ensures slots[i].Some? <==> i in FilledSlots(slots)
      {
        if i < n {
          assert slots[i] == front[i];
          assert i in FilledSlots(slots) <==> i in idx;
        }
      }
    }
  }

  predicate AllReadable(fs: seq<SourceFile>) {
    forall k :: 0 <= k < |fs| ==> fs[k].content.Readable?
  }

  /** The position of the first file the library rejects, if any. */
  function FirstUnreadable(fs: seq<SourceFile>): (r: Option<nat>)
    ensures r.Some? ==> r.value < |fs| && fs[r.value].content.Unreadable? && AllReadable(fs[..r.value])
    ensures r.None? <==> AllReadable(fs)
  {
    if fs == [] then None
    else if fs[0].content.Unreadable? then Some(0)
    else
      match FirstUnreadable(fs[1..])
      case Some(j) =>
        assert fs[..j + 1] == [fs[0]] + fs[1..][..j];
        Some(j + 1)
      case None =>
        assert forall k :: 1 <= k < |fs| ==> fs[k] == fs[1..][k - 1];
        None
  }

  /** The message of the error thrown when the file at 0-based position `i` fails to load. */
  function LoadFailureMessage(i: nat, reason: string): (m: string)
    ensures LoadFailedPrefix <= m
    ensures DecimalValue(LeadingDigits(m[|LoadFailedPrefix|..])) == i + 1
    ensures |reason| <= |m| && m[|m| - |reason|..] == reason
  {
    var digits := NatToString(i + 1);
    var m := LoadFailedPrefix + digits + ": " + reason;
    assert m[|LoadFailedPrefix|..] == digits + (": " + reason);
    LeadingDigitsOfDigits(digits, ": " + reason);
    DecimalRoundTrip(i + 1);
    m
  }

  /** The error message names the file's position and the reason without ambiguity. */
  lemma LoadFailureMessageInjective(i: nat, j: nat, ra: string, rb: string)
    ensures LoadFailureMessage(i, ra) == LoadFailureMessage(j, rb) ==> i == j && ra == rb
  {
    if LoadFailureMessage(i, ra) == LoadFailureMessage(j, rb) {
      var m := LoadFailureMessage(i, ra);
      var p := |LoadFailedPrefix|;
      var si, sj := NatToString(i + 1), NatToString(j + 1);
      assert m[p..] == si + (": " + ra) by {
        assert m == LoadFailedPrefix + (si + (": " + ra));
      }
      assert m[p..] == sj + (": " + rb) by {
        assert m == LoadFailedPrefix + (sj + (": " + rb));
      }
      // The position's digits run up to the ':' that follows them.
      LeadingDigitsOfDigits(si, ": " + ra);
      LeadingDigitsOfDigits(sj, ": " + rb);
      NatToStringInjective(i + 1, j + 1);
      assert ra == m[p + |si| + 2..] == rb;
    }
  }

  function LoadedPages(fs: seq<SourceFile>): seq<seq<Page>>
    requires AllReadable(fs)
  {
    seq(|fs|, k requires 0 <= k < |fs| => fs[k].content.pages)
  }

  /**
   * Loading the selection: the pages of every file, or the error of the first
   * file that fails, naming its 1-based position.
   */
  function LoadAll(fs: seq<SourceFile>): (r: Result<seq<seq<Page>>>)
    ensures r.Ok? <==> AllReadable(fs)
    ensures r.Ok? ==> |r.value| == |fs| && forall k :: 0 <= k < |fs| ==> r.value[k] == fs[k].content.pages
    ensures r.Err? ==> exists i :: 0 <= i < |fs| && fs[i].content.Unreadable? && AllReadable(fs[..i]) &&
                         r.message == LoadFailureMessage(i, fs[i].content.reason)
  {
    match FirstUnreadable(fs)
    case Some(i) => Err(LoadFailureMessage(i, fs[i].content.reason))
    case None => Ok(LoadedPages(fs))
  }

  /** How a merge over `slots` ends. */
  datatype MergeOutcome = TooFew | Failed(message: string) | Merged(pages: seq<Page>)

  /**
   * The reference result of a merge: too few files, then a missing Core, then
   * the first load failure, and otherwise the inputs' pages one after the
   * other.
   */
  function MergeOf(slots: seq<Option<SourceFile>>, coreLoaded: bool): (r: MergeOutcome)
    ensures r.TooFew? <==> |Selected(slots)| < 2
    ensures r.Failed? ==> MergeFailedPrefix <= r.message
    ensures r.Failed? && !coreLoaded ==> r.message == MergeFailedPrefix + CoreMissingMessage
    ensures r.Failed? && coreLoaded ==>
              exists i :: 0 <= i < |Selected(slots)| && Selected(slots)[i].content.Unreadable? &&
                AllReadable(Selected(slots)[..i]) &&
                r.message == MergeFailedPrefix + LoadFailureMessage(i, Selected(slots)[i].content.reason)
    ensures r.Merged? <==> |Selected(slots)| >= 2 && coreLoaded && AllReadable(Selected(slots))
    ensures r.Merged? ==> |r.pages| == TotalPages(LoadedPages(Selected(slots)))
  {
    var selected := Selected(slots);
    if |selected| < 2 then TooFew
    else if !coreLoaded then Failed(MergeFailedPrefix + CoreMissingMessage)
    else
      match LoadAll(selected)
      case Err(m) => Failed(MergeFailedPrefix + m)
      case Ok(docs) =>
        ConcatLength(docs);
        Merged(Concat(docs))
  }

  /**
   * A successful merge has as many pages as all selected files together, and
   * page `j` of the `k`-th selected file is page `TotalPages(...[..k]) + j` of
   * the result.
   */
  lemma MergedLayout(slots: seq<Option<SourceFile>>, coreLoaded: bool, k: nat, j: nat)
    requires MergeOf(slots, coreLoaded).Merged?
    ensures AllReadable(Selected(slots))
    ensures |MergeOf(slots, coreLoaded).pages| == TotalPages(LoadedPages(Selected(slots)))
    ensures k < |Selected(slots)| && j < |Selected(slots)[k].content.pages| ==>
              var offset := TotalPages(LoadedPages(Selected(slots))[..k]);
              offset + j < |MergeOf(slots, coreLoaded).pages| &&
              MergeOf(slots, coreLoaded).pages[offset + j] == Selected(slots)[k].content.pages[j]
  {
    var docs := LoadedPages(Selected(slots));
    ConcatLength(docs);
    if k < |Selected(slots)| && j < |Selected(slots)[k].content.pages| {
      ConcatBlock(docs, k, j);
    }
  }

  /** The selection made from four slots, one slot at a time. */
  lemma SelectedOfFour(w: Option<SourceFile>, x: Option<SourceFile>, y: Option<SourceFile>, z: Option<SourceFile>)
    ensures Selected([w, x, y, z]) == Picked(w) + Picked(x) + Picked(y) + Picked(z)
  {
    var empty: seq<Option<SourceFile>> := [];
    SelectedSnoc(empty, w);
    assert empty + [w] == [w];
    SelectedSnoc([w], x);
    assert [w] + [x] == [w, x];
    SelectedSnoc([w, x], y);
    assert [w, x] + [y] == [w, x, y];
    SelectedSnoc([w, x, y], z);
    assert [w, x, y] + [z] == [w, x, y, z];
  }

  /** A strictly increasing run of indices spans at least as many values as it has entries. */
  lemma {:induction false} IncreasingSpan(idx: seq<nat>)
    requires |idx| >= 1
    requires forall a, b :: 0 <= a < b < |idx| ==> idx[a] < idx[b]
    ensures idx[|idx| - 1] >= idx[0] + |idx| - 1
  {
    if |idx| > 1 {
      var front := idx[..|idx| - 1];
      assert front[0] == idx[0] && front[|front| - 1] == idx[|idx| - 2];
      IncreasingSpan(front);
    }
  }

  /** A single filled slot, whichever it is, is refused whether or not the Core is loaded. */
  lemma SingleFileIsRefused(slots: seq<Option<SourceFile>>, i: nat, coreLoaded: bool)
    requires |slots| == SlotCount && i < SlotCount && slots[i].Some?
    requires forall j :: 0 <= j < SlotCount && j != i ==> slots[j].None?
    ensures MergeOf(slots, coreLoaded) == TooFew
  {
    SelectedIsFilledSlotsInOrder(slots);
    var idx := FilledSlots(slots);
    assert forall k :: 0 <= k < |idx| ==> idx[k] == i;
    if |idx| >= 1 {
      IncreasingSpan(idx);
    }
  }

  /** A three-page file followed by a two-page file merge to A1, A2, A3, B1, B2. */
  lemma ThreePagesThenTwo(a1: Page, a2: Page, a3: Page, b1: Page, b2: Page)
    ensures MergeOf([Some(SourceFile("A", Readable([a1, a2, a3]))), Some(SourceFile("B", Readable([b1, b2]))), None, None], true)
            == Merged([a1, a2, a3, b1, b2])
  {
    var a := SourceFile("A", Readable([a1, a2, a3]));
    var b := SourceFile("B", Readable([b1, b2]));
    var slots := [Some(a), Some(b), None, None];
    SelectedOfFour(Some(a), Some(b), None, None);
    assert Selected(slots) == [a, b];
    assert AllReadable([a, b]);
    var docs := LoadedPages([a, b]);
    assert LoadAll([a, b]) == Ok(docs);
    assert docs == [[a1, a2, a3], [b1, b2]];
    assert docs[..1] == [[a1, a2, a3]];
    assert docs[..1][..0] == [];
    assert Concat(docs[..1]) == [a1, a2, a3];
    assert Concat(docs) == [a1, a2, a3] + [b1, b2];
  }

  /** A failing second file of three aborts the merge with an error naming file #2. */
  lemma SecondFileFails(a: seq<Page>, c: seq<Page>, reason: string)
    ensures MergeOf([Some(SourceFile("A", Readable(a))), Some(SourceFile("B", Unreadable(reason))), Some(SourceFile("C", Readable(c))), None], true)
            == Failed(MergeFailedPrefix + LoadFailureMessage(1, reason))
    ensures LoadFailureMessage(1, reason) == "Failed to load file #2: " + reason
  {
    var fa, fb, fc := SourceFile("A", Readable(a)), SourceFile("B", Unreadable(reason)), SourceFile("C", Readable(c));
    var slots := [Some(fa), Some(fb), Some(fc), None];
    SelectedOfFour(Some(fa), Some(fb), Some(fc), None);
    var selected := [fa, fb, fc];
    assert Selected(slots) == selected;
    assert selected[1..] == [fb, fc];
    assert FirstUnreadable(selected) == Some(1);
    assert NatToString(2) == "2";
  }

  /**
   * `Promise.all(selectedFiles.map(f => Core.createDocument(f, ...)))`, taken
   * in list order and stopping at the first failure: fresh, distinct
   * documents holding the files' pages, or the first failure's message.
   */
  method LoadDocuments(selected: seq<SourceFile>) returns (r: Result<seq<Document>>)
    ensures r.Err? <==> LoadAll(selected).Err?
    ensures r.Err? ==> r.message == LoadAll(selected).message
    ensures r.Ok? ==> |r.value| == |selected|
    ensures r.Ok? ==> forall k :: 0 <= k < |selected| ==> fresh(r.value[k]) && r.value[k].pages == LoadAll(selected).value[k]
    ensures r.Ok? ==> forall a, b :: 0 <= a < b < |selected| ==> r.value[a] != r.value[b]
  {
    var docs: seq<Document> := [];
    var i := 0;
    while i < |selected|
      invariant 0 <= i <= |selected| && |docs| == i
      invariant AllReadable(selected[..i])
      invariant forall k :: 0 <= k < i ==> fresh(docs[k]) && docs[k].pages == selected[k].content.pages
      invariant forall a, b :: 0 <= a < b < i ==> docs[a] != docs[b]
    {
      var d := CreateDocument(selected[i]);
      if d.Err? {
        assert FirstUnreadable(selected) == Some(i) by {
          assert selected[..i + 1][..i] == selected[..i];
        }
        r := Err(LoadFailureMessage(i, d.message));
        return;
      }
      assert selected[..i + 1] == selected[..i] + [selected[i]];
      docs := docs + [d.value];
      i := i + 1;
    }
    assert selected[..i] == selected;
    r := Ok(docs);
  }

  /**
   * The loop of handleMerge: the first document is the destination, and each
   * later one's pages 1..pageCount are inserted at one past the destination's
   * page count, one source at a time, in list order. Every insertion is
   * accepted, and the destination ends up holding all inputs' pages in order.
   */
  method AppendDocuments(docs: seq<Document>, ghost inputs: seq<seq<Page>>) returns (mergedDoc: Document)
    requires |docs| >= 1 && |docs| == |inputs|
    requires forall k :: 0 <= k < |docs| ==> docs[k].pages == inputs[k]
    requires forall a, b :: 0 <= a < b < |docs| ==> docs[a] != docs[b]
    modifies docs[0]
    ensures mergedDoc == docs[0] && mergedDoc.pages == Concat(inputs)
  {
    mergedDoc := docs[0];
    assert inputs[..1] == [inputs[0]];
    var i := 1;
    while i < |docs|
      invariant 1 <= i <= |docs|
      invariant mergedDoc == docs[0] && mergedDoc.pages == Concat(inputs[..i])
      invariant forall k :: 1 <= k < |docs| ==> docs[k].pages == inputs[k]
    {
      var docToInsert := docs[i];
      var pageCount := docToInsert.PageCount();
      var pages := PageRange(pageCount);
      AppendStep(mergedDoc.pages, docToInsert.pages);
      ConcatPrefix(inputs, i);
      var ok := mergedDoc.InsertPages(docToInsert, pages, mergedDoc.PageCount() + 1);
      assert ok;
      i := i + 1;
    }
    assert inputs[..i] == inputs;
  }

  /** The merge panel's state. */
  class MergePanel {
    /** The four slots; None is an empty slot. */
    var files: seq<Option<SourceFile>>
    var merging: bool
    /** The pages served by the download link's object URL; None when there is no link. */
    var mergedUrl: Option<seq<Page>>
    var error: string
    /** Whether `coreRef.current` holds the library's Core object. */
    var coreLoaded: bool

    ghost predicate Valid()
      reads this
    {
      |files| == SlotCount
    }

    /** The component's initial state. */
    constructor ()
      ensures Valid() && files == [None, None, None, None]
      ensures !merging && mergedUrl == None && error == "" && !coreLoaded
    {
      files := [None, None, None, None];
      merging := false;
      mergedUrl := None;
      error := "";
      coreLoaded := false;
    }

    /** The initialisation effect attaching the Core object and marking it ready. */
    method AttachCore()
      requires Valid()
      modifies this
      ensures Valid() && coreLoaded
      ensures files == old(files) && merging == old(merging) && mergedUrl == old(mergedUrl) && error == old(error)
    {
      coreLoaded := true;
    }

    /** `handleFileChange(idx, file)`: replace one slot and clear the result and the error. */
    method HandleFileChange(idx: nat, file: Option<SourceFile>)
      requires Valid() && idx < SlotCount
      modifies this
      ensures Valid() && files == old(files)[idx := file]
      ensures forall j :: 0 <= j < SlotCount && j != idx ==> files[j] == old(files)[j]
      ensures mergedUrl == None && error == ""
      ensures merging == old(merging) && coreLoaded == old(coreLoaded)
    {
      var newFiles := files;
      newFiles := newFiles[idx := file];
      files := newFiles;
      mergedUrl := None;
      error := "";
    }

    /**
     * `handleMerge()`: the state it ends in is the one MergeOf predicts.
     * Too few files leave `merging` and `mergedUrl` as they were; every
     * failure clears the link and ends with `merging` false; a success sets
     * the link to the merged pages.
     */
    method HandleMerge()
      requires Valid()
      modifies this
      ensures Valid() && files == old(files) && coreLoaded == old(coreLoaded)
      ensures match MergeOf(old(files), old(coreLoaded))
              case TooFew => error == TooFewMessage && merging == old(merging) && mergedUrl == old(mergedUrl)
              case Failed(m) => error == m && !merging && mergedUrl == None
              case Merged(p) => error == "" && !merging && mergedUrl == Some(p)
    {
      error := "";
      var selectedFiles := Selected(files);
      if |selectedFiles| < 2 {
        error := TooFewMessage;
        return;
      }
      merging := true;
      mergedUrl := None;
      if !coreLoaded {
        error := MergeFailedPrefix + CoreMissingMessage;
        merging := false;
        return;
      }
      var loaded := LoadDocuments(selectedFiles);
      if loaded.Err? {
        error := MergeFailedPrefix + loaded.message;
        merging := false;
        return;
      }
      var mergedDoc := AppendDocuments(loaded.value, LoadAll(selectedFiles).value);
      var fileData := mergedDoc.GetFileData();
      mergedUrl := Some(fileData);
      merging := false;
    }
  }
}
