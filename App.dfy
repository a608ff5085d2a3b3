/**
 * The editor (src/App.js): the loaded document, the list of placed elements, the
 * selected page, the pending placement and the authoring dialog flag, with the
 * handlers that replace them, and the export.
 */
module App {
  import opened Wrappers
  import opened Lists
  import opened Signatures
  import opened Numbers
  import opened Export
  import PdfViewer

  /** The file the user picked: its name and MIME type. */
  datatype PickedFile = PickedFile(name: string, mimeType: string)

  const PdfMimeType: string := "application/pdf"

  /**
   * The upload gate: a file is present and its type is exactly `application/pdf`
   * (compared case-sensitively, so `application/PDF` is refused).
   */
  predicate AcceptsFile(file: Option<PickedFile>): (ok: bool)
    ensures ok ==> file.Some? && file.value.mimeType == PdfMimeType
    ensures file.Some? && file.value.mimeType == PdfMimeType ==> ok
    ensures file.Some? && file.value.mimeType == "application/PDF" ==> !ok
  {
    file.Some? && file.value.mimeType == PdfMimeType
  }

  /** How an upload ended: loaded, refused for its type, or failed to parse. */
  datatype UploadOutcome = Loaded | InvalidType | LoadFailed

  /** Why an export was refused before any work: no document or no element. */
  datatype ExportError = NothingToSign

  /** What one export produces: the draws on the document copy and the name it is saved under. */
  datatype SignedPdf = SignedPdf(draws: seq<DrawOp>, fileName: string)

  class Editor {
    var pdfFile: Option<PickedFile>
    var pdfDoc: Option<PdfDoc>
    var signatures: seq<Signature>
    var modalOpen: bool
    var pending: Option<Placement>
    var selectedPage: int
    var numPages: Option<nat>

    /** The picked file and the parsed document are set and cleared together. */
    ghost predicate Valid()
      reads this
    {
      pdfFile.Some? <==> pdfDoc.Some?
    }

    constructor ()
      ensures Valid()
      ensures pdfFile == None && pdfDoc == None && signatures == []
      ensures !modalOpen && pending == None && selectedPage == 1 && numPages == None
    {
      pdfFile := None;
      pdfDoc := None;
      signatures := [];
      modalOpen := false;
      pending := None;
      selectedPage := 1;
      numPages := None;
    }

    /**
     * A file is offered. `parsed` is what the PDF library makes of its bytes
     * (None when loading throws). Only a PDF that parses changes anything: it
     * becomes the document, the list is emptied and page 1 is selected.
     */
    method FileUpload(file: Option<PickedFile>, parsed: Option<PdfDoc>) returns (outcome: UploadOutcome)
      requires Valid()
      modifies this
      ensures Valid()
      ensures outcome == if !AcceptsFile(file) then InvalidType else if parsed.None? then LoadFailed else Loaded
      ensures outcome == Loaded ==>
        && pdfDoc == parsed && pdfFile == file && signatures == []
        && numPages == Some(|parsed.value.pages|) && selectedPage == 1
        && modalOpen == old(modalOpen) && pending == old(pending)
      ensures outcome != Loaded ==> unchanged(this)
    {
      if !AcceptsFile(file) {
        return InvalidType;
      }
      if parsed.None? {
        return LoadFailed;
      }
      pdfDoc := parsed;
      pdfFile := file;
      signatures := [];
      numPages := Some(|parsed.value.pages|);
      selectedPage := 1;
      outcome := Loaded;
    }

    /** "Add to Page": the default placement on the selected page is remembered and the dialog opens. */
    method AddElement(isMobile: bool)
      modifies this
      ensures pending == Some(DefaultPlacement(isMobile, selectedPage)) && modalOpen
      ensures pending.value.pageNumber == selectedPage
      ensures signatures == old(signatures) && selectedPage == old(selectedPage) && numPages == old(numPages)
      ensures pdfFile == old(pdfFile) && pdfDoc == old(pdfDoc)
    {
      pending := Some(DefaultPlacement(isMobile, selectedPage));
      modalOpen := true;
    }

    /** handlePageSelect. */
    method SelectPage(n: int)
      modifies this
      ensures selectedPage == n
      ensures signatures == old(signatures) && pending == old(pending) && modalOpen == old(modalOpen)
      ensures numPages == old(numPages) && pdfFile == old(pdfFile) && pdfDoc == old(pdfDoc)
    {
      selectedPage := n;
    }

    /** handlePdfLoad: the viewer reports the page count it rendered. */
    method PdfLoaded(count: nat)
      modifies this
      ensures numPages == Some(count)
      ensures signatures == old(signatures) && pending == old(pending) && modalOpen == old(modalOpen)
      ensures selectedPage == old(selectedPage) && pdfFile == old(pdfFile) && pdfDoc == old(pdfDoc)
    {
      numPages := Some(count);
    }

    /** Closing the dialog without saving; the pending placement is left as it was. */
    method CloseModal()
      modifies this
      ensures !modalOpen
      ensures signatures == old(signatures) && pending == old(pending) && selectedPage == old(selectedPage)
      ensures numPages == old(numPages) && pdfFile == old(pdfFile) && pdfDoc == old(pdfDoc)
    {
      modalOpen := false;
    }

    /**
     * The dialog saved an image of `naturalWidth` by `naturalHeight` pixels. With
     * a pending placement, a new element is appended there, sized to fit the
     * screen class, with id `now`; the dialog closes and the placement is used
     * up. Without one, nothing happens.
     */
    method SignatureSave(dataUrl: string, naturalWidth: nat, naturalHeight: nat, isMobile: bool, now: int)
      modifies this
      ensures old(pending).None? ==> unchanged(this)
      ensures old(pending).Some? ==>
        && signatures == old(signatures) + [Signature(
             now, dataUrl, old(pending).value.x, old(pending).value.y,
             Max(Downscaled(naturalWidth, naturalHeight, isMobile).width, MinWidth),
             Max(Downscaled(naturalWidth, naturalHeight, isMobile).height, MinHeight),
             old(pending).value.pageNumber)]
        && MinWidth <= signatures[|old(signatures)|].width <= MaxWidth(isMobile)
        && MinHeight <= signatures[|old(signatures)|].height <= MaxHeight(isMobile)
        && !modalOpen && pending == None
        && selectedPage == old(selectedPage) && numPages == old(numPages)
        && pdfFile == old(pdfFile) && pdfDoc == old(pdfDoc)
    {
      if pending.Some? {
        var size := InitialSize(naturalWidth, naturalHeight, isMobile);
        var at := pending.value;
        var added := Signature(now, dataUrl, at.x, at.y, size.width, size.height, at.pageNumber);
        signatures := signatures + [added];
        modalOpen := false;
        pending := None;
      }
    }

    /** handleSignatureDelete. */
    method SignatureDelete(id: int)
      modifies this
      ensures signatures == Delete(old(signatures), id)
      ensures pending == old(pending) && modalOpen == old(modalOpen) && selectedPage == old(selectedPage)
      ensures numPages == old(numPages) && pdfFile == old(pdfFile) && pdfDoc == old(pdfDoc)
    {
      signatures := Delete(signatures, id);
    }

    /** handleSignatureMove. */
    method SignatureMove(id: int, p: Position)
      modifies this
      ensures signatures == Move(old(signatures), id, p)
      ensures pending == old(pending) && modalOpen == old(modalOpen) && selectedPage == old(selectedPage)
      ensures numPages == old(numPages) && pdfFile == old(pdfFile) && pdfDoc == old(pdfDoc)
    {
      signatures := Move(signatures, id, p);
    }

    /** handleSignatureResize. */
    method SignatureResize(id: int, p: Position, size: Size)
      modifies this
      ensures signatures == Resize(old(signatures), id, p, size)
      ensures pending == old(pending) && modalOpen == old(modalOpen) && selectedPage == old(selectedPage)
      ensures numPages == old(numPages) && pdfFile == old(pdfFile) && pdfDoc == old(pdfDoc)
    {
      signatures := Resize(signatures, id, p, size);
    }

    /**
     * Export. Refused, with nothing done, when no document is loaded or no element
     * is placed. Otherwise each element whose page exists is drawn, in list
     * order, using the one displayed size `shown` (that of the first rendered
     * page, or None when no page canvas is found); the rest are skipped. The
     * result is saved as the picked file's name with its first ".pdf" replaced.
     */
    method Download(shown: Option<Displayed>) returns (r: Result<SignedPdf, ExportError>)
      requires Valid() && Measurable(shown)
      ensures r.Failure? <==> pdfDoc.None? || signatures == []
      ensures r.Success? ==>
        && r.value.draws == Draws(pdfDoc.value.pages, signatures, shown)
        && r.value.fileName == SignedFileName(pdfFile.value.name)
    {
      if pdfDoc.None? || |signatures| == 0 {
        return Failure(NothingToSign);
      }
      var pages := pdfDoc.value.pages;
      var draws: seq<DrawOp> := [];
      var i := 0;
      while i < |signatures|
        invariant 0 <= i <= |signatures|
        invariant draws == Draws(pages, signatures[..i], shown)
      {
        var sig := signatures[i];
        var index := sig.pageNumber - 1;
        if 0 <= index < |pages| {
          draws := draws + [DrawOp(index, sig.dataUrl, ToPdf(Bounds(sig), pages[index], shown))];
        }
        DrawsAppend(pages, signatures[..i], sig, shown);
        assert signatures[..i + 1] == signatures[..i] + [sig];
        i := i + 1;
      }
      assert signatures[..i] == signatures;
      r := Success(SignedPdf(draws, SignedFileName(pdfFile.value.name)));
    }

    /** "Upload New PDF": everything returns to the initial state. */
    method Reset()
      modifies this
      ensures Valid()
      ensures pdfFile == None && pdfDoc == None && signatures == []
      ensures !modalOpen && pending == None && selectedPage == 1 && numPages == None
    {
      pdfFile := None;
      pdfDoc := None;
      signatures := [];
      modalOpen := false;
      pending := None;
      selectedPage := 1;
      numPages := None;
    }
  }

  /** An element overlaid on page `i + 1` is drawn on page index `i`. */
  lemma OverlaidIsDrawn(pages: seq<PageSize>, sigs: seq<Signature>, shown: Option<Displayed>, i: nat, e: Signature)
    requires Measurable(shown) && i < |pages| && e in PdfViewer.Overlays(sigs, |pages|)[i]
    ensures DrawOp(i, e.dataUrl, ToPdf(Bounds(e), pages[i], shown)) in Draws(pages, sigs, shown)
  {
    var kept := Filter(sigs, OnSomePage(|pages|));
    PdfViewer.OverlayShowsItsPage(sigs, |pages|, i, e);
    assert e in sigs && e.pageNumber == i + 1;
    FilterMembers(sigs, OnSomePage(|pages|), e);
    var k :| 0 <= k < |kept| && kept[k] == e;
    assert Draws(pages, sigs, shown)[k] == DrawFor(pages, e, shown);
  }

  /**
   * What the viewer shows is what export draws: an element overlaid on page
   * `i + 1` is drawn on page index `i`, and there are as many draws as overlays
   * over all pages.
   */
  lemma OverlaysAreExported(pages: seq<PageSize>, sigs: seq<Signature>, shown: Option<Displayed>)
    requires Measurable(shown)
    ensures |Draws(pages, sigs, shown)| == |Flatten(PdfViewer.Overlays(sigs, |pages|))|
    ensures forall i, e :: 0 <= i < |pages| && e in PdfViewer.Overlays(sigs, |pages|)[i] ==>
      DrawOp(i, e.dataUrl, ToPdf(Bounds(e), pages[i], shown)) in Draws(pages, sigs, shown)
  {
    var kept := Filter(sigs, OnSomePage(|pages|));
    var overlays := PdfViewer.Overlays(sigs, |pages|);
    PdfViewer.OverlaysCoverThePages(sigs, |pages|);
    assert |Flatten(overlays)| == |multiset(Flatten(overlays))| == |multiset(kept)| == |kept|;
    forall i: nat, e: Signature | i < |pages| && e in overlays[i]
      ensures DrawOp(i, e.dataUrl, ToPdf(Bounds(e), pages[i], shown)) in Draws(pages, sigs, shown)
    {
      OverlaidIsDrawn(pages, sigs, shown, i, e);
    }
  }
}
