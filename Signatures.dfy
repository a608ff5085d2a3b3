/**
 * The placed elements of the editor (src/App.js): the element record, the list
 * operations behind delete, move and resize, and the initial size and default
 * placement of a new element.
 */
module Signatures {
  import opened Lists
  import opened Numbers

  /**
   * A placed signature or text image. `x`, `y`, `width` and `height` are in the
   * pixels of the displayed page (origin top-left); `pageNumber` is 1-based.
   * `id` is the `Date.now()` value at creation; nothing makes it unique.
   */
  datatype Signature = Signature(
    id: int,
    dataUrl: string,
    x: real,
    y: real,
    width: real,
    height: real,
    pageNumber: int)

  datatype Position = Position(x: real, y: real)

  datatype Size = Size(width: real, height: real)

  /** Where the next authored element will be put (`currentSignPosition`). */
  datatype Placement = Placement(x: real, y: real, pageNumber: int)

  /** The criterion of the delete filter. */
  function OtherId(id: int): Signature -> bool { (e: Signature) => e.id != id }

  /** The criterion of the per-page filter. */
  function OnPage(n: int): Signature -> bool { (e: Signature) => e.pageNumber == n }

  /** The criterion of "its page exists" in a document of `count` pages. */
  function OnSomePage(count: int): Signature -> bool { (e: Signature) => 1 <= e.pageNumber <= count }

  // ---------------------------------------------------------------------------
  // Delete (handleSignatureDelete)

  /** The list without the elements carrying `id`. */
  function Delete(s: seq<Signature>, id: int): (r: seq<Signature>)
    ensures |r| <= |s|
    ensures forall i :: 0 <= i < |r| ==> r[i].id != id && r[i] in s
  {
    var r := Filter(s, OtherId(id));
    assert forall e :: e in r ==> e in s && e.id != id by {
      forall e | e in r ensures e in s && e.id != id {
        FilterMembers(s, OtherId(id), e);
      }
    }
    r
  }

  /**
   * Delete keeps exactly the elements whose id differs, each with its multiplicity,
   * and in their original order.
   */
  lemma DeleteKeepsTheOthers(s: seq<Signature>, id: int, e: Signature)
    ensures multiset(Delete(s, id))[e] == if e.id == id then 0 else multiset(s)[e]
    ensures IsSubsequence(Delete(s, id), s)
  {
    FilterCount(s, OtherId(id), e);
    FilterIsSubsequence(s, OtherId(id));
  }

  /** Deleting an id no element carries changes nothing. */
  lemma DeleteAbsent(s: seq<Signature>, id: int)
    requires forall i :: 0 <= i < |s| ==> s[i].id != id
    ensures Delete(s, id) == s
  {
    FilterKeepsAll(s, OtherId(id));
  }

  /** Deleting twice is deleting once. */
  lemma DeleteTwice(s: seq<Signature>, id: int)
    ensures Delete(Delete(s, id), id) == Delete(s, id)
  {
    FilterIdempotent(s, OtherId(id));
  }

  // ---------------------------------------------------------------------------
  // Move and resize (handleSignatureMove, handleSignatureResize)

  /** The update applied by a move to each element. */
  function MoveTo(id: int, p: Position): Signature -> Signature
  {
    (e: Signature) => if e.id == id then e.(x := p.x, y := p.y) else e
  }

  /** The update applied by a resize to each element. */
  function ResizeTo(id: int, p: Position, size: Size): Signature -> Signature
  {
    (e: Signature) => if e.id == id then e.(x := p.x, y := p.y, width := size.width, height := size.height) else e
  }

  /**
   * Every element carrying `id` gets position `p`; nothing else changes: not the
   * length, not the order, not the other fields, not the other elements.
   */
  function Move(s: seq<Signature>, id: int, p: Position): (r: seq<Signature>)
    ensures |r| == |s|
    ensures forall i :: 0 <= i < |s| ==>
      && r[i].id == s[i].id && r[i].dataUrl == s[i].dataUrl && r[i].pageNumber == s[i].pageNumber
      && r[i].width == s[i].width && r[i].height == s[i].height
      && (if s[i].id == id then r[i].x == p.x && r[i].y == p.y else r[i] == s[i])
  {
    Map(s, MoveTo(id, p))
  }

  /**
   * Every element carrying `id` gets position `p` and size `size`; its id, image
   * and page, the length and order of the list and every other element are kept.
   */
  function Resize(s: seq<Signature>, id: int, p: Position, size: Size): (r: seq<Signature>)
    ensures |r| == |s|
    ensures forall i :: 0 <= i < |s| ==>
      && r[i].id == s[i].id && r[i].dataUrl == s[i].dataUrl && r[i].pageNumber == s[i].pageNumber
      && (if s[i].id == id
          then r[i].x == p.x && r[i].y == p.y && r[i].width == size.width && r[i].height == size.height
          else r[i] == s[i])
  {
    Map(s, ResizeTo(id, p, size))
  }

  /** Moving an id no element carries changes nothing. */
  lemma MoveAbsent(s: seq<Signature>, id: int, p: Position)
    requires forall i :: 0 <= i < |s| ==> s[i].id != id
    ensures Move(s, id, p) == s
  {
  }

  /** Of two moves of the same element, the later one decides where it is. */
  lemma MoveLastWins(s: seq<Signature>, id: int, p: Position, q: Position)
    ensures Move(Move(s, id, p), id, q) == Move(s, id, q)
  {
  }

  /** Of two resizes of the same element, the later one decides its rectangle. */
  lemma ResizeLastWins(s: seq<Signature>, id: int, p: Position, size: Size, q: Position, size': Size)
    ensures Resize(Resize(s, id, p, size), id, q, size') == Resize(s, id, q, size')
  {
  }

  // ---------------------------------------------------------------------------
  // A new element (handleAddElement, handleSignatureSave)

  const MinWidth: real := 80.0
  const MinHeight: real := 40.0

  /** The box a new image is scaled down to fit: 200x100 on mobile, 300x150 otherwise. */
  function MaxWidth(isMobile: bool): real { if isMobile then 200.0 else 300.0 }

  function MaxHeight(isMobile: bool): real { if isMobile then 100.0 else 150.0 }

  /** Where "Add to Page" puts the next element: a fixed offset on the selected page. */
  function DefaultPlacement(isMobile: bool, selectedPage: int): (r: Placement)
    ensures r.pageNumber == selectedPage
  {
    if isMobile then Placement(50.0, 100.0, selectedPage) else Placement(200.0, 150.0, selectedPage)
  }

  /**
   * The factor `Math.min(maxWidth / width, maxHeight / height)` for an image that
   * does not fit. A zero side makes its ratio infinite in JavaScript, and the
   * minimum is then the other ratio.
   */
  function ScaleFactor(width: real, height: real, maxWidth: real, maxHeight: real): real
    requires width > 0.0 || height > 0.0
  {
    if width == 0.0 then maxHeight / height
    else if height == 0.0 then maxWidth / width
    else Min(maxWidth / width, maxHeight / height)
  }

  lemma Cancel(v: real, limit: real)
    requires v > 0.0
    ensures v * (limit / v) == limit
  {
  }

  lemma Monotone(v: real, a: real, b: real)
    requires 0.0 <= v && a <= b
    ensures v * a <= v * b
  {
  }

  /**
   * Scaling an image that does not fit by `ScaleFactor` keeps its aspect ratio
   * and brings it inside the box with one side on it.
   */
  lemma {:induction false} ScaleFactorFits(width: real, height: real, maxWidth: real, maxHeight: real)
    requires 0.0 <= width && 0.0 <= height && 0.0 < maxWidth && 0.0 < maxHeight
    requires width > maxWidth || height > maxHeight
    ensures var s := ScaleFactor(width, height, maxWidth, maxHeight);
      && 0.0 <= width * s <= maxWidth && 0.0 <= height * s <= maxHeight
      && (width * s == maxWidth || height * s == maxHeight)
      && (width * s) * height == (height * s) * width
  {
    var s := ScaleFactor(width, height, maxWidth, maxHeight);
    if width == 0.0 {
      Cancel(height, maxHeight);
    } else if height == 0.0 {
      Cancel(width, maxWidth);
    } else {
      var a, b := maxWidth / width, maxHeight / height;
      Cancel(width, maxWidth);
      Cancel(height, maxHeight);
      if a <= b {
        Monotone(height, a, b);
      } else {
        Monotone(width, b, a);
      }
    }
    assert (width * s) * height == (height * s) * width;
  }

  /** An image that does not fit, scaled by `ScaleFactor`. */
  function Scaled(width: real, height: real, maxWidth: real, maxHeight: real): (d: Size)
    requires 0.0 <= width && 0.0 <= height && 0.0 < maxWidth && 0.0 < maxHeight
    requires width > maxWidth || height > maxHeight
    ensures 0.0 <= d.width <= maxWidth && 0.0 <= d.height <= maxHeight
    ensures d.width == maxWidth || d.height == maxHeight
    ensures d.width * height == d.height * width
  {
    ScaleFactorFits(width, height, maxWidth, maxHeight);
    var scale := ScaleFactor(width, height, maxWidth, maxHeight);
    Size(width * scale, height * scale)
  }

  /**
   * The scale-down step: an image larger than the box of the screen class is
   * scaled, keeping its aspect ratio, until it fits with one side on the box;
   * an image that fits keeps its natural size.
   */
  function Downscaled(naturalWidth: nat, naturalHeight: nat, isMobile: bool): (d: Size)
    ensures 0.0 <= d.width <= MaxWidth(isMobile) && 0.0 <= d.height <= MaxHeight(isMobile)
    ensures d.width * naturalHeight as real == d.height * naturalWidth as real
    ensures naturalWidth as real <= MaxWidth(isMobile) && naturalHeight as real <= MaxHeight(isMobile) ==>
      d == Size(naturalWidth as real, naturalHeight as real)
    ensures !(naturalWidth as real <= MaxWidth(isMobile) && naturalHeight as real <= MaxHeight(isMobile)) ==>
      d.width == MaxWidth(isMobile) || d.height == MaxHeight(isMobile)
  {
    var maxWidth, maxHeight := MaxWidth(isMobile), MaxHeight(isMobile);
    var width, height := naturalWidth as real, naturalHeight as real;
    if width <= maxWidth && height <= maxHeight then Size(width, height)
    else Scaled(width, height, maxWidth, maxHeight)
  }

  /** A wide, short image (a typed signature) is scaled to the box width, then raised to the minimum height. */
  lemma WideImageExample()
    ensures Downscaled(1000, 100, false) == Size(300.0, 30.0)
    ensures Max(Downscaled(1000, 100, false).height, MinHeight) == 40.0
  {
  }

  /**
   * The displayed size of a new element whose image is `naturalWidth` by
   * `naturalHeight` pixels: scaled down to fit the box of the screen class, then
   * each side raised to at least 80 by 40 on its own.
   */
  method InitialSize(naturalWidth: nat, naturalHeight: nat, isMobile: bool) returns (size: Size)
    ensures MinWidth <= size.width <= MaxWidth(isMobile)
    ensures MinHeight <= size.height <= MaxHeight(isMobile)
    ensures size.width == Max(Downscaled(naturalWidth, naturalHeight, isMobile).width, MinWidth)
    ensures size.height == Max(Downscaled(naturalWidth, naturalHeight, isMobile).height, MinHeight)
  {
    var maxWidth := MaxWidth(isMobile);
    var maxHeight := MaxHeight(isMobile);
    var width := naturalWidth as real;
    var height := naturalHeight as real;
    if width > maxWidth || height > maxHeight {
      var scale := ScaleFactor(width, height, maxWidth, maxHeight);
      width := width * scale;
      height := height * scale;
      assert Size(width, height) == Scaled(naturalWidth as real, naturalHeight as real, maxWidth, maxHeight);
    }
    assert Size(width, height) == Downscaled(naturalWidth, naturalHeight, isMobile);
    width := Max(width, MinWidth);
    height := Max(height, MinHeight);
    size := Size(width, height);
  }
}
