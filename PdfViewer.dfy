/**
 * The page viewer (src/components/PdfViewer.js): which elements each rendered
 * page overlays, the width pages are rendered at, what the drag and resize
 * handlers forward to the editor, and the viewer's own load state.
 */
module PdfViewer {
  import opened Wrappers
  import opened Lists
  import opened Signatures
  import opened Numbers

  // ---------------------------------------------------------------------------
  // Overlays (getSignaturesForPage and the page loop of the render)

  /** The elements placed on page `n`, in list order. */
  function ForPage(sigs: seq<Signature>, n: int): (r: seq<Signature>)
    ensures |r| <= |sigs|
    ensures forall i :: 0 <= i < |r| ==> r[i].pageNumber == n
  {
    FilterKept(sigs, OnPage(n));
    Filter(sigs, OnPage(n))
  }

  /**
   * Page `n` shows every element placed on it, each as often as it occurs in the
   * list, no other element, and in list order.
   */
  lemma ForPageExactly(sigs: seq<Signature>, n: int, e: Signature)
    ensures multiset(ForPage(sigs, n))[e] == if e.pageNumber == n then multiset(sigs)[e] else 0
    ensures IsSubsequence(ForPage(sigs, n), sigs)
  {
    FilterCount(sigs, OnPage(n), e);
    FilterIsSubsequence(sigs, OnPage(n));
  }

  /**
   * How many pages the render loop draws: `Array.from(new Array(numPages))`.
   * Before the document reports its page count, `new Array(null)` is the
   * one-element array `[null]`, so one page (page 1) is drawn.
   */
  function PagesDrawn(numPages: Option<nat>): (count: nat)
    ensures numPages.Some? ==> count == numPages.value
    ensures numPages.None? ==> count == 1
  {
    match numPages
    case None => 1
    case Some(n) => n
  }

  /** The overlays of the rendered pages: entry `i` is what page `i + 1` shows. */
  function Overlays(sigs: seq<Signature>, pageCount: nat): (r: seq<seq<Signature>>)
    ensures |r| == pageCount
  {
    seq(pageCount, i requires 0 <= i < pageCount => ForPage(sigs, i + 1))
  }

  /** A rendered page shows an element exactly when the element is placed on that page. */
  lemma OverlayShowsItsPage(sigs: seq<Signature>, pageCount: nat, i: nat, e: Signature)
    requires i < pageCount
    ensures e in Overlays(sigs, pageCount)[i] <==> e in sigs && e.pageNumber == i + 1
  {
    FilterMembers(sigs, OnPage(i + 1), e);
  }

  /**
   * Together the rendered pages show, each as often as it occurs, exactly the
   * elements whose page is among them; an element on a page that does not exist
   * is shown nowhere.
   */
  lemma {:induction false} OverlaysCoverThePages(sigs: seq<Signature>, pageCount: nat)
    ensures multiset(Flatten(Overlays(sigs, pageCount))) == multiset(Filter(sigs, OnSomePage(pageCount)))
    decreases pageCount
  {
    if pageCount == 0 {
      forall x ensures multiset(Filter(sigs, OnSomePage(0)))[x] == 0 {
        FilterCount(sigs, OnSomePage(0), x);
      }
      assert multiset(Filter(sigs, OnSomePage(0))) == multiset{};
    } else {
      var n := pageCount - 1;
      var before := Overlays(sigs, n);
      var all := Overlays(sigs, pageCount);
      assert all == before + [ForPage(sigs, pageCount)];
      assert all[..|all| - 1] == before;
      assert Flatten(all) == Flatten(before) + ForPage(sigs, pageCount);
      OverlaysCoverThePages(sigs, n);
      FilterSplit(sigs, OnSomePage(pageCount), OnSomePage(n), OnPage(pageCount));
    }
  }

  /** Deleting from the list and then selecting a page is selecting and then deleting. */
  lemma ForPageAfterDelete(sigs: seq<Signature>, n: int, id: int)
    ensures ForPage(Delete(sigs, id), n) == Delete(ForPage(sigs, n), id)
  {
    FilterCommutes(sigs, OtherId(id), OnPage(n));
  }

  /** A move never takes an element off its page: the page shows the moved elements. */
  lemma ForPageAfterMove(sigs: seq<Signature>, n: int, id: int, p: Position)
    ensures ForPage(Move(sigs, id, p), n) == Move(ForPage(sigs, n), id, p)
  {
    forall e ensures OnPage(n)(MoveTo(id, p)(e)) == OnPage(n)(e) { }
    FilterMapCommute(sigs, MoveTo(id, p), OnPage(n));
  }

  /** A resize never takes an element off its page: the page shows the resized elements. */
  lemma ForPageAfterResize(sigs: seq<Signature>, n: int, id: int, p: Position, size: Size)
    ensures ForPage(Resize(sigs, id, p, size), n) == Resize(ForPage(sigs, n), id, p, size)
  {
    forall e ensures OnPage(n)(ResizeTo(id, p, size)(e)) == OnPage(n)(e) { }
    FilterMapCommute(sigs, ResizeTo(id, p, size), OnPage(n));
  }

  // ---------------------------------------------------------------------------
  // Page width (updatePageWidth)

  const Gutter: real := 64.0
  const MaxPageWidth: real := 800.0
  const InitialPageWidth: real := 600.0

  /** The width pages are rendered at: the container less its padding, at most 800. */
  function PageWidth(containerWidth: real): (r: real)
    ensures r <= MaxPageWidth && r <= containerWidth - Gutter
    ensures r == MaxPageWidth || r == containerWidth - Gutter
  {
    Min(containerWidth - Gutter, MaxPageWidth)
  }

  // ---------------------------------------------------------------------------
  // The drag and resize adapters (onDragStop, onResizeStop)

  /** What react-rnd reports at the end of a drag. */
  datatype DragData = DragData(x: real, y: real, deltaX: real, deltaY: real, lastX: real, lastY: real)

  /** The arguments of `onSignatureMove`. */
  datatype MoveRequest = MoveRequest(id: int, position: Position)

  /** The arguments of `onSignatureResize`. */
  datatype ResizeRequest = ResizeRequest(id: int, position: Position, size: Size)

  /** `parseInt` of a CSS length: its integer part, rounding toward zero. */
  function Truncate(v: real): (r: int)
    ensures 0.0 <= v ==> 0 <= r && r as real <= v < r as real + 1.0
    ensures v < 0.0 ==> r <= 0 && r as real - 1.0 < v <= r as real
  {
    if v >= 0.0 then v.Floor else -((-v).Floor)
  }

  /** A drag forwards the element's id and the final position, nothing else. */
  function DragStop(id: int, d: DragData): (r: MoveRequest)
    ensures r.id == id && r.position.x == d.x && r.position.y == d.y
  {
    MoveRequest(id, Position(d.x, d.y))
  }

  /**
   * A resize forwards the element's id, the reported position and the style size
   * truncated to whole pixels.
   */
  function ResizeStop(id: int, position: Position, styleWidth: real, styleHeight: real): (r: ResizeRequest)
    ensures r.id == id && r.position == position
    ensures r.size.width == r.size.width.Floor as real && r.size.height == r.size.height.Floor as real
    ensures 0.0 <= styleWidth ==> r.size.width <= styleWidth < r.size.width + 1.0
    ensures 0.0 <= styleHeight ==> r.size.height <= styleHeight < r.size.height + 1.0
  {
    ResizeRequest(id, position, Size(Truncate(styleWidth) as real, Truncate(styleHeight) as real))
  }

  // ---------------------------------------------------------------------------
  // The viewer's own state

  const LoadErrorPrefix: string := "Failed to load PDF document: "
  const UnknownError: string := "Unknown error"

  /** The message shown when the document fails to load (`error.message || 'Unknown error'`). */
  function LoadErrorText(message: Option<string>): (r: string)
    ensures |LoadErrorPrefix| <= |r| && r[..|LoadErrorPrefix|] == LoadErrorPrefix
    ensures message.Some? && message.value != "" ==> r[|LoadErrorPrefix|..] == message.value
    ensures message.None? || message.value == "" ==> r[|LoadErrorPrefix|..] == UnknownError
  {
    LoadErrorPrefix + (if message.None? || message.value == "" then UnknownError else message.value)
  }

  /**
   * The viewer's component state: page count, render width, load error, and
   * whether an object URL for the current file exists (`pdfUrl`).
   */
  class Viewer {
    var numPages: Option<nat>
    var pageWidth: real
    var error: Option<string>
    var hasUrl: bool

    constructor ()
      ensures numPages == None && pageWidth == InitialPageWidth && error == None && !hasUrl
    {
      numPages := None;
      pageWidth := InitialPageWidth;
      error := None;
      hasUrl := false;
    }

    /**
     * On mount and on window resize: with a container of the given width, the
     * page width follows it and is reported when the parent passed a listener
     * (`onPageWidthChange`); without a container, nothing changes.
     */
    method UpdatePageWidth(container: Option<real>, hasListener: bool) returns (reported: Option<real>)
      modifies this
      ensures container.Some? ==> pageWidth == PageWidth(container.value)
      ensures container.None? ==> pageWidth == old(pageWidth)
      ensures reported.Some? <==> container.Some? && hasListener
      ensures reported.Some? ==> reported.value == pageWidth
      ensures pageWidth <= MaxPageWidth || pageWidth == old(pageWidth)
      ensures numPages == old(numPages) && error == old(error) && hasUrl == old(hasUrl)
    {
      reported := None;
      if container.Some? {
        pageWidth := PageWidth(container.value);
        if hasListener {
          reported := Some(pageWidth);
        }
      }
    }

    /**
     * When the file changes: a present file gets an object URL and its old page
     * count and error are forgotten; without a file the URL is dropped.
     */
    method FileChanged(present: bool)
      modifies this
      ensures hasUrl == present
      ensures present ==> numPages == None && error == None
      ensures !present ==> numPages == old(numPages) && error == old(error)
      ensures pageWidth == old(pageWidth)
    {
      if present {
        error := None;
        numPages := None;
      }
      hasUrl := present;
    }

    /** Load success: the page count is recorded, the error cleared, and the same count forwarded. */
    method DocumentLoadSuccess(count: nat) returns (forwarded: nat)
      modifies this
      ensures numPages == Some(count) && error == None && forwarded == count
      ensures pageWidth == old(pageWidth) && hasUrl == old(hasUrl)
    {
      numPages := Some(count);
      error := None;
      forwarded := count;
    }

    /** Load failure: an error naming the failure text is recorded. */
    method DocumentLoadError(message: Option<string>)
      modifies this
      ensures error == Some(LoadErrorText(message))
      ensures numPages == old(numPages) && pageWidth == old(pageWidth) && hasUrl == old(hasUrl)
    {
      error := Some(LoadErrorText(message));
    }

    /**
     * What the render shows over its pages, entry `i` being page `i + 1`'s
     * overlay: no page at all while there is no file or no URL for it, or once
     * loading failed; otherwise the pages the loop draws.
     */
    function RenderedOverlays(sigs: seq<Signature>, filePresent: bool): (r: seq<seq<Signature>>)
      reads this
      ensures !filePresent || !hasUrl || error.Some? ==> r == []
      ensures filePresent && hasUrl && error.None? ==> |r| == PagesDrawn(numPages)
      ensures forall i :: 0 <= i < |r| ==> r[i] == ForPage(sigs, i + 1)
    {
      if !filePresent || !hasUrl || error.Some? then []
      else Overlays(sigs, PagesDrawn(numPages))
    }
  }
}
