/**
 * The export step of the editor (handleDownload in src/App.js): the mapping from
 * displayed pixels to PDF points, the draw operations one export issues, and the
 * name of the signed file.
 */
module Export {
  import opened Wrappers
  import opened Lists
  import opened Signatures

  /** A page's native size in PDF points (`page.getSize()`). */
  datatype PageSize = PageSize(width: real, height: real)

  /** The loaded document, as far as export sees it: its pages, in order. */
  datatype PdfDoc = PdfDoc(pages: seq<PageSize>)

  /** The rendered size in pixels of the first `.pdf-page canvas` on screen. */
  datatype Displayed = Displayed(width: real, height: real)

  /**
   * A rectangle: in displayed pixels with the origin at the top-left, or in PDF
   * points with the origin at the bottom-left.
   */
  datatype Rect = Rect(x: real, y: real, width: real, height: real)

  /** One `page.drawImage` call: the 0-based page index, the image, and where. */
  datatype DrawOp = DrawOp(pageIndex: nat, image: string, rect: Rect)

  /** The displayed rectangle of a placed element. */
  function Bounds(sig: Signature): Rect
  {
    Rect(sig.x, sig.y, sig.width, sig.height)
  }

  /** A displayed size, when one was found, has positive sides. */
  predicate Measurable(shown: Option<Displayed>)
  {
    shown.Some? ==> shown.value.width > 0.0 && shown.value.height > 0.0
  }

  /**
   * Where a displayed rectangle lands on a page of native size `page`. With a
   * displayed size, each axis is scaled by native over displayed, and y is
   * flipped; without one (no canvas was found), only y is flipped.
   */
  function ToPdf(b: Rect, page: PageSize, shown: Option<Displayed>): (r: Rect)
    requires Measurable(shown)
    // proportions along each axis are kept, measured from the top of the page
    ensures shown.Some? ==>
      && r.x * shown.value.width == b.x * page.width
      && r.width * shown.value.width == b.width * page.width
      && r.height * shown.value.height == b.height * page.height
      && (page.height - r.y - r.height) * shown.value.height == b.y * page.height
    // the fallback keeps x, width and height and flips y alone
    ensures shown.None? ==>
      && r.x == b.x && r.width == b.width && r.height == b.height
      && page.height - r.y - r.height == b.y
  {
    match shown
    case Some(d) =>
      var scaleX := page.width / d.width;
      var scaleY := page.height / d.height;
      var scaledX := b.x * scaleX;
      var scaledY := b.y * scaleY;
      var scaledWidth := b.width * scaleX;
      var scaledHeight := b.height * scaleY;
      Rect(scaledX, page.height - scaledY - scaledHeight, scaledWidth, scaledHeight)
    case None =>
      Rect(b.x, page.height - b.y - b.height, b.width, b.height)
  }

  /** The inverse mapping: from PDF points back to the displayed page. */
  function FromPdf(r: Rect, page: PageSize, shown: Option<Displayed>): (b: Rect)
    requires page.width > 0.0 && page.height > 0.0
    ensures shown.None? ==> b.y == page.height - r.y - r.height
  {
    match shown
    case Some(d) =>
      var backX := d.width / page.width;
      var backY := d.height / page.height;
      Rect(r.x * backX, (page.height - r.y - r.height) * backY, r.width * backX, r.height * backY)
    case None =>
      Rect(r.x, page.height - r.y - r.height, r.width, r.height)
  }

  /** Mapping to the page and back recovers the displayed rectangle. */
  lemma RoundTrip(b: Rect, page: PageSize, shown: Option<Displayed>)
    requires Measurable(shown) && page.width > 0.0 && page.height > 0.0
    ensures FromPdf(ToPdf(b, page, shown), page, shown) == b
  {
  }

  /** Mapping back to the displayed page and then to the page again recovers the PDF rectangle. */
  lemma RoundTripFromPdf(r: Rect, page: PageSize, shown: Option<Displayed>)
    requires Measurable(shown) && page.width > 0.0 && page.height > 0.0
    ensures ToPdf(FromPdf(r, page, shown), page, shown) == r
  {
  }

  /** An element at the top of the displayed page is drawn with its top at the top of the page. */
  lemma TopMapsToTop(b: Rect, page: PageSize, d: Displayed)
    requires Measurable(Some(d)) && b.y == 0.0
    ensures ToPdf(b, page, Some(d)).y == page.height - ToPdf(b, page, Some(d)).height
    ensures ToPdf(b, page, Some(d)).y == page.height - b.height * (page.height / d.height)
  {
  }

  /** An element touching the bottom of the displayed page is drawn at PDF y = 0. */
  lemma BottomMapsToZero(b: Rect, page: PageSize, d: Displayed)
    requires Measurable(Some(d)) && b.y + b.height == d.height
    ensures ToPdf(b, page, Some(d)).y == 0.0
  {
  }

  /** The fallback is the scaled mapping for a page displayed at its native size. */
  lemma FallbackIsIdentityScale(b: Rect, page: PageSize)
    requires page.width > 0.0 && page.height > 0.0
    ensures ToPdf(b, page, None) == ToPdf(b, page, Some(Displayed(page.width, page.height)))
  {
  }

  /** An element inside the displayed page is drawn inside the PDF page. */
  lemma InsideStaysInside(b: Rect, page: PageSize, d: Displayed)
    requires Measurable(Some(d)) && page.width >= 0.0 && page.height >= 0.0
    requires 0.0 <= b.x && 0.0 <= b.width && b.x + b.width <= d.width
    requires 0.0 <= b.y && 0.0 <= b.height && b.y + b.height <= d.height
    ensures var r := ToPdf(b, page, Some(d));
      && 0.0 <= r.x && r.x + r.width <= page.width
      && 0.0 <= r.y && r.y + r.height <= page.height
  {
    var sx, sy := page.width / d.width, page.height / d.height;
    var r := ToPdf(b, page, Some(d));
    assert r == Rect(b.x * sx, page.height - b.y * sy - b.height * sy, b.width * sx, b.height * sy);
    assert 0.0 <= sx && 0.0 <= sy;
    assert r.x + r.width == (b.x + b.width) * sx <= d.width * sx == page.width;
    assert page.height - r.y == (b.y + b.height) * sy <= d.height * sy == page.height;
    assert 0.0 <= b.x * sx && 0.0 <= b.y * sy;
  }

  /** A US Letter page (612x792) displayed at 600x777: the element at (200,150), 100x50. */
  lemma LetterPageExample()
    ensures ToPdf(Rect(200.0, 150.0, 100.0, 50.0), PageSize(612.0, 792.0), Some(Displayed(600.0, 777.0)))
      == Rect(204.0, 456984.0 / 777.0, 102.0, 39600.0 / 777.0)
  {
  }

  /**
   * Export measures only the first rendered page and uses that size for every
   * page. Pages of another shape are then placed off: a portrait first page of
   * 600x800 points shown at 600x800 pixels, and a landscape page of 800x600
   * points (shown at 600x450): an element touching the bottom of the landscape
   * page is drawn 262.5 points up instead of at 0.
   */
  lemma FirstPageSizeAppliesToAllPages()
    ensures ToPdf(Rect(0.0, 400.0, 100.0, 50.0), PageSize(800.0, 600.0), Some(Displayed(600.0, 800.0))).y == 262.5
    ensures ToPdf(Rect(0.0, 400.0, 100.0, 50.0), PageSize(800.0, 600.0), Some(Displayed(600.0, 450.0))).y == 0.0
  {
  }

  // ---------------------------------------------------------------------------
  // The draw operations of one export

  /** The draw of one element whose page exists. */
  function DrawFor(pages: seq<PageSize>, sig: Signature, shown: Option<Displayed>): DrawOp
    requires Measurable(shown) && 1 <= sig.pageNumber <= |pages|
  {
    DrawOp(sig.pageNumber - 1, sig.dataUrl, ToPdf(Bounds(sig), pages[sig.pageNumber - 1], shown))
  }

  /**
   * The draws of one export: one per element whose page exists, in list order
   * (a later element paints over an earlier one), every one with the same
   * displayed size.
   */
  function Draws(pages: seq<PageSize>, sigs: seq<Signature>, shown: Option<Displayed>): (r: seq<DrawOp>)
    requires Measurable(shown)
    ensures |r| <= |sigs|
    ensures forall k :: 0 <= k < |r| ==> r[k].pageIndex < |pages|
  {
    var kept := Filter(sigs, OnSomePage(|pages|));
    FilterKept(sigs, OnSomePage(|pages|));
    seq(|kept|, k requires 0 <= k < |kept| => DrawFor(pages, kept[k], shown))
  }

  /**
   * The loop step: a further element adds its draw at the end when its page
   * exists, and is skipped otherwise.
   */
  lemma DrawsAppend(pages: seq<PageSize>, sigs: seq<Signature>, sig: Signature, shown: Option<Displayed>)
    requires Measurable(shown)
    ensures 1 <= sig.pageNumber <= |pages| ==>
      Draws(pages, sigs + [sig], shown) == Draws(pages, sigs, shown) + [DrawFor(pages, sig, shown)]
    ensures !(1 <= sig.pageNumber <= |pages|) ==>
      Draws(pages, sigs + [sig], shown) == Draws(pages, sigs, shown)
  {
    FilterAppend(sigs, sig, OnSomePage(|pages|));
  }

  /** When every element's page exists, the k-th draw is the k-th element's. */
  lemma DrawsEveryElement(pages: seq<PageSize>, sigs: seq<Signature>, shown: Option<Displayed>)
    requires Measurable(shown)
    requires forall i :: 0 <= i < |sigs| ==> 1 <= sigs[i].pageNumber <= |pages|
    ensures |Draws(pages, sigs, shown)| == |sigs|
    ensures forall k :: 0 <= k < |sigs| ==> Draws(pages, sigs, shown)[k] == DrawFor(pages, sigs[k], shown)
  {
    FilterKeepsAll(sigs, OnSomePage(|pages|));
  }

  /** No element whose page does not exist is drawn. */
  lemma DrawsNothingOffThePages(pages: seq<PageSize>, sigs: seq<Signature>, shown: Option<Displayed>)
    requires Measurable(shown)
    requires forall i :: 0 <= i < |sigs| ==> !(1 <= sigs[i].pageNumber <= |pages|)
    ensures Draws(pages, sigs, shown) == []
  {
    var kept := Filter(sigs, OnSomePage(|pages|));
    if kept != [] {
      FilterKept(sigs, OnSomePage(|pages|));
      FilterMembers(sigs, OnSomePage(|pages|), kept[0]);
      assert false;
    }
  }

  // ---------------------------------------------------------------------------
  // The name of the signed file

  /** `pat` occurs in `s` at index `i`. */
  predicate OccursAt(s: string, pat: string, i: nat)
  {
    i + |pat| <= |s| && s[i..i + |pat|] == pat
  }

  /** The first index at or after `from` where `pat` occurs, as `indexOf` finds it. */
  function IndexOfFrom(s: string, pat: string, from: nat): (r: Option<nat>)
    requires from <= |s|
    ensures r.Some? ==> from <= r.value && OccursAt(s, pat, r.value)
    ensures forall j :: from <= j && (r.None? || j < r.value) ==> !OccursAt(s, pat, j)
    decreases |s| - from
  {
    if OccursAt(s, pat, from) then Some(from)
    else if from == |s| then None
    else IndexOfFrom(s, pat, from + 1)
  }

  const PdfExtension: string := ".pdf"
  const SignedSuffix: string := "_signed.pdf"

  /**
   * `name.replace('.pdf', '_signed.pdf')`: the first ".pdf" in the name, wherever
   * it is, becomes "_signed.pdf"; a name without ".pdf" is kept as it is.
   */
  function SignedFileName(name: string): (r: string)
    ensures IndexOfFrom(name, PdfExtension, 0).None? ==> r == name
    ensures IndexOfFrom(name, PdfExtension, 0).Some? ==>
      var i := IndexOfFrom(name, PdfExtension, 0).value;
      && |r| == |name| + |SignedSuffix| - |PdfExtension|
      && r[..i] == name[..i]
      && OccursAt(r, SignedSuffix, i)
      && r[i + |SignedSuffix|..] == name[i + |PdfExtension|..]
  {
    match IndexOfFrom(name, PdfExtension, 0)
    case None => name
    case Some(i) => name[..i] + SignedSuffix + name[i + |PdfExtension|..]
  }

  /** A name "stem.pdf" whose stem holds no ".pdf" becomes "stem_signed.pdf". */
  lemma SignedFileNameOfStem(stem: string)
    requires forall j :: !OccursAt(stem, PdfExtension, j)
    ensures SignedFileName(stem + PdfExtension) == stem + SignedSuffix
  {
    var name := stem + PdfExtension;
    var n := |stem|;
    assert OccursAt(name, PdfExtension, n) by {
      assert name[n..n + 4] == PdfExtension;
    }
    forall j: nat | j < n
      ensures !OccursAt(name, PdfExtension, j)
    {
      if j + 4 <= n {
        assert name[j..j + 4] == stem[j..j + 4];
        assert !OccursAt(stem, PdfExtension, j);
      } else {
        // ".pdf" has no proper prefix that is also a suffix, so it cannot straddle
        assert name[n] == '.';
        if OccursAt(name, PdfExtension, j) {
          assert false;
        }
      }
    }
    var r := IndexOfFrom(name, PdfExtension, 0);
    assert r == Some(n);
    assert name[..n] == stem;
    assert name[n + 4..] == [];
  }
}
