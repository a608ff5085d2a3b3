# Simple PDF Signer — a Dafny model of its editor logic

The system is a browser client. The user loads a PDF, places signature and
text images on chosen pages, moves and resizes them, and downloads a copy of
the PDF with the images drawn in. Rendering, PDF mutation, drag/resize and
freehand capture come from libraries. This project models the logic the
application itself contains, in three parts:

- **The editor** (`src/App.js`, modules `Signatures`, `Export`, `App`). The
  list of placed elements (`id, dataUrl, x, y, width, height, pageNumber`) and
  the editor state: the picked file, the parsed document, the selected page,
  the page count, the pending placement and the dialog flag. `App.Editor` is a
  class whose methods are the handlers: upload, add, save, delete, move,
  resize, close, reset and download. Delete, move and resize are pure list
  functions (`Signatures.Delete`, `Move`, `Resize`). The export maps each
  element from displayed pixels to PDF points (`Export.ToPdf`), skips elements
  whose page does not exist, and names the output file (`Export.SignedFileName`).
- **The viewer** (`src/components/PdfViewer.js`, module `PdfViewer`). The
  per-page filter, the elements each rendered page overlays, the page-width
  rule, the drag and resize adapters, and the viewer's load state (class
  `PdfViewer.Viewer`).
- **The authoring dialog** (`src/components/SignatureModal.js`, module
  `SignatureModal`). Save validation per tab, with JavaScript `trim` written
  out. Clear per tab. The font table lookup with its Arial fallback, and the
  size of the canvas a text is rendered on. Class `SignatureModal.Modal`.

`Lists` holds the order-preserving filter, map and flatten that the code
uses through `Array.prototype.filter`/`map`, with their lemmas. `Wrappers`
holds `Option` and `Result`.

Geometry uses `real`, so the mapping identities hold exactly. These come in
as parameters: the image's natural size, the measured text width, the
displayed canvas size, the container width, `Date.now()` and the mobile test
(`window.innerWidth <= 768`).

The model follows the code, including these behaviours:

- Adding an element checks neither that its id is unique nor that its page
  exists.
- Resizing stores the size it is given. The 50×20 minimum is applied by the
  drag/resize library, not by this code.
- The output name replaces the first ".pdf" anywhere in the name. It is
  case-sensitive, and a name without ".pdf" is kept unchanged. It is not
  always `<stem>_signed.pdf`.
- Export measures only the first rendered page canvas and uses that size for
  every page (`Export.FirstPageSizeAppliesToAllPages` shows the effect on a
  page of another shape).
- `canvas.width = …` and `canvas.height = …` store whole pixels, so the text
  canvas size is truncated to an integer.
- Before the viewer knows the page count, `Array.from(new Array(null))` draws
  one page (`PdfViewer.PagesDrawn`).

## Model

| member | source | states |
|---|---|---|
| `App.Editor.constructor` | src/App.js:12-19 | Initial state: no file or document, empty list, dialog closed, no pending placement, page 1 selected, no page count |
| `App.Editor.FileUpload` | src/App.js:22-43 | Only a present file of type exactly `application/pdf` that parses is taken. Then the document and file are set, the list is emptied, the page count recorded and page 1 selected. A wrong type or a parse failure changes nothing, and the outcome says which |
| `App.Editor.AddElement` | src/App.js:45-55 | The pending placement becomes the default placement on the selected page, and the dialog opens. Nothing else changes |
| `App.AcceptsFile` | src/App.js:24 | A file is accepted exactly when it is present and its type is exactly `application/pdf`. The comparison is case-sensitive, so `application/PDF` is refused |
| `Signatures.DefaultPlacement` | src/App.js:46-52 | The default placement is on the selected page (at 50,100 on mobile, 200,150 otherwise) |
| `App.Editor.SelectPage` | src/App.js:57-59 | Only the selected page changes |
| `App.Editor.PdfLoaded` | src/App.js:61-63 | Only the page count changes, to the count the viewer reports |
| `App.Editor.CloseModal` | src/App.js:291 | The dialog closes. The pending placement stays as it was |
| `App.Editor.SignatureSave` | src/App.js:65-104 | With a pending placement, exactly one element is appended after the old ones. It carries id `now`, the image, and the placement's x, y and page. Its width and height are the downscaled size, each side raised on its own to at least 80 and 40, so they lie within 80..max width and 40..max height. The dialog closes and the placement is used up. Without a pending placement nothing changes |
| `Signatures.ScaleFactorFits` | src/App.js:79-83 | Scaling an image that does not fit by `Math.min(maxWidth / width, maxHeight / height)` keeps its aspect ratio and brings it inside the box with one side on it, a zero side included |
| `Signatures.Scaled` | src/App.js:79-83 | The scaled size of an image that does not fit lies in the box, touches it with one side and keeps the aspect ratio |
| `Signatures.Downscaled` | src/App.js:70-83 | The scaled size fits the box (200×100 on mobile, 300×150 otherwise) and keeps the image's aspect ratio. An image that fits keeps its natural size. One that does not fit touches the box with one side. Together these pin the size, a zero side included, which JavaScript handles as an infinite ratio |
| `Signatures.WideImageExample` | src/App.js:79-87 | A 1000×100 image on desktop is scaled to 300×30, and its height is then raised to 40 |
| `Signatures.InitialSize` | src/App.js:70-87 | The size is the downscaled size with each side raised on its own to at least 80 and 40. So it lies within [80, 200]×[40, 100] on mobile and [80, 300]×[40, 150] otherwise |
| `App.Editor.SignatureDelete` | src/App.js:106-108 | The new list is `Delete` of the old one. Nothing else changes |
| `Signatures.Delete` | src/App.js:107 | No element carrying the id remains, every element left was in the list, and the list does not grow |
| `Signatures.DeleteKeepsTheOthers` | src/App.js:107 | Every element whose id differs is kept with its multiplicity, the others are dropped, and the order is kept (a subsequence) |
| `Signatures.DeleteAbsent` | src/App.js:107 | Deleting an id that no element carries leaves the list unchanged |
| `Signatures.DeleteTwice` | src/App.js:106-108 | Deleting the same id twice equals deleting it once |
| `App.Editor.SignatureMove` | src/App.js:110-116 | The new list is `Move` of the old one. Nothing else changes |
| `Signatures.Move` | src/App.js:111-115 | The length and order are kept. Elements with the id get the new x, y. Their id, image, page and size stay, and every other element is unchanged |
| `Signatures.MoveAbsent` | src/App.js:111-115 | Moving an id that no element carries leaves the list unchanged |
| `Signatures.MoveLastWins` | src/App.js:110-116 | Two moves of one id equal the later move alone |
| `App.Editor.SignatureResize` | src/App.js:118-130 | The new list is `Resize` of the old one. Nothing else changes |
| `Signatures.Resize` | src/App.js:119-129 | The length and order are kept. Elements with the id get the new x, y, width and height. Their id, image and page stay, and every other element is unchanged |
| `Signatures.ResizeLastWins` | src/App.js:118-130 | Two resizes of one id equal the later resize alone |
| `App.Editor.Download` | src/App.js:132-200 | Refused with no work exactly when there is no document or the list is empty. Otherwise the loop's draws are `Draws` of the document's pages, the list and the one displayed size, and the file name is `SignedFileName` of the picked file's name |
| `Export.ToPdf` | src/App.js:159-185 | With a displayed size, x and width scale by page width over displayed width, and height by page height over displayed height. The distance from the page top (page height − y − height) scales the same way as y, which is the y-flip. Without one, x, width and height are kept and only y is flipped (page height − y − height) |
| `Export.RoundTrip` | src/App.js:159-169 | Mapping a displayed rectangle to the page and back recovers it (positive page size) |
| `Export.RoundTripFromPdf` | src/App.js:159-169 | Mapping a PDF rectangle back to the display and again to the page recovers it |
| `Export.TopMapsToTop` | src/App.js:163-169 | An element at displayed y = 0 is drawn at PDF y = page height − height·scaleY, its top at the page top |
| `Export.BottomMapsToZero` | src/App.js:163-169 | An element with y + height = displayed height is drawn at PDF y = 0 |
| `Export.FallbackIsIdentityScale` | src/App.js:177-185 | The no-canvas fallback equals the scaled mapping with a displayed size equal to the page size |
| `Export.InsideStaysInside` | src/App.js:159-176 | An element inside the displayed page is drawn inside the PDF page |
| `Export.LetterPageExample` | src/App.js:159-176 | A 612×792 page shown at 600×777, element (200,150) of 100×50: drawn at (204, 456984/777 ≈ 588.13) with size 102 × 39600/777 ≈ 50.97 |
| `Export.FirstPageSizeAppliesToAllPages` | src/App.js:153-169 | With the first page's displayed size applied to a page of another shape, a bottom-touching element lands at y = 262.5. With that page's own displayed size it lands at 0 |
| `Export.Draws` | src/App.js:142-188 | There is at most one draw per element, and every draw targets an existing page index |
| `Export.DrawsAppend` | src/App.js:142-144 | One more element adds its draw at the end when its page exists and is skipped otherwise. Draws therefore follow list order, and a later element paints over an earlier one |
| `Export.DrawsEveryElement` | src/App.js:142-176 | When every element's page exists, draw k is element k's, at page index pageNumber − 1 |
| `Export.DrawsNothingOffThePages` | src/App.js:143-144 | Elements whose page does not exist produce no draw |
| `Export.IndexOfFrom` | src/App.js:192 | The result is the first occurrence at or after `from`, or none at all |
| `Export.SignedFileName` | src/App.js:192 | A name without ".pdf" is unchanged. Otherwise, at the first ".pdf", the text before is kept, "_signed.pdf" is inserted and the text after is kept |
| `Export.SignedFileNameOfStem` | src/App.js:192 | "stem.pdf", with no ".pdf" inside the stem, becomes "stem_signed.pdf" |
| `App.Editor.Reset` | src/App.js:202-213 | Everything returns to the initial state |
| `App.OverlaidIsDrawn` | src/App.js:142-176 | An element the viewer overlays on page i+1 is drawn on page index i, at its mapped rectangle |
| `App.OverlaysAreExported` | src/App.js:142-176 | Every element the viewer overlays on page i+1 is drawn on page index i, and there are as many draws as overlays over all pages |
| `PdfViewer.ForPage` | src/components/PdfViewer.js:81-83 | Every element returned is on page n, and there are no more than in the list |
| `PdfViewer.ForPageExactly` | src/components/PdfViewer.js:81-83 | Page n gets exactly the elements with pageNumber n, each with its multiplicity, in list order (a subsequence) |
| `PdfViewer.PagesDrawn` | src/components/PdfViewer.js:113 | The render loop draws numPages pages, or one page before the count is known |
| `PdfViewer.Overlays` | src/components/PdfViewer.js:113-134 | One overlay per rendered page |
| `PdfViewer.OverlayShowsItsPage` | src/components/PdfViewer.js:113-134 | Rendered page i+1 shows an element exactly when the element is in the list with pageNumber i+1 |
| `PdfViewer.OverlaysCoverThePages` | src/components/PdfViewer.js:113-134 | Together the pages show, with multiplicity, exactly the elements whose page is among 1..numPages. Elements on other pages are shown nowhere |
| `PdfViewer.ForPageAfterDelete` | src/components/PdfViewer.js:81-83 | A page's elements after a delete are the page's elements with that id deleted |
| `PdfViewer.ForPageAfterMove` | src/components/PdfViewer.js:81-83 | A move keeps every element on its page. The page shows its elements, moved |
| `PdfViewer.ForPageAfterResize` | src/components/PdfViewer.js:81-83 | A resize keeps every element on its page. The page shows its elements, resized |
| `PdfViewer.PageWidth` | src/components/PdfViewer.js:27-28 | The page width is at most 800 and at most container − 64, and equals one of them (their minimum) |
| `PdfViewer.Truncate` | src/components/PdfViewer.js:146-147 | `parseInt` truncates toward zero. A non-negative value loses less than one |
| `PdfViewer.DragStop` | src/components/PdfViewer.js:77-79 | A drag forwards the element's id and the reported x, y, and nothing else |
| `PdfViewer.ResizeStop` | src/components/PdfViewer.js:143-149 | A resize forwards the element's id and the reported position as given. The size is whole pixels, each side at most the style length and less than one pixel below it |
| `PdfViewer.LoadErrorText` | src/components/PdfViewer.js:70-73 | The message starts with "Failed to load PDF document: ". It ends with the failure text, or with "Unknown error" when that is missing or empty |
| `PdfViewer.Viewer.constructor` | src/components/PdfViewer.js:18-21 | Initially there is no page count, no error and no object URL, and the width is 600 |
| `PdfViewer.Viewer.UpdatePageWidth` | src/components/PdfViewer.js:24-35 | With a container, the width becomes `PageWidth` of it. It is reported exactly when there is a container and the parent passed a listener (the editor at src/App.js:261-270 passes none). Without a container, nothing changes |
| `PdfViewer.Viewer.FileChanged` | src/components/PdfViewer.js:42-61 | A present file gets an object URL and clears the page count and the error. Without a file the URL is dropped and the rest is kept |
| `PdfViewer.Viewer.DocumentLoadSuccess` | src/components/PdfViewer.js:63-68 | The page count is recorded, the error is cleared, and the same count is forwarded to the editor |
| `PdfViewer.Viewer.DocumentLoadError` | src/components/PdfViewer.js:70-73 | The error becomes the message naming the failure. The page count and width are kept |
| `PdfViewer.Viewer.RenderedOverlays` | src/components/PdfViewer.js:85-134 | No page is shown without a file or its URL, or after a load error. Otherwise there is one entry per page the loop draws. Entry i is always what page i+1 overlays |
| `SignatureModal.TrimStart` | src/components/SignatureModal.js:89 | The result is a suffix of the text, everything dropped is white space, and the result does not start with white space |
| `SignatureModal.TrimEnd` | src/components/SignatureModal.js:95 | The result is a prefix of the text, everything dropped is white space, and the result does not end with white space |
| `SignatureModal.Leading` | src/components/SignatureModal.js:89 | The leading white space `trim` drops: all of it is white space, and the rest is what `TrimStart` keeps |
| `SignatureModal.Trim` | src/components/SignatureModal.js:89-95 | `trim()` is the contiguous part of the text after its leading white space. Everything dropped before and after it is white space, and it neither starts nor ends with white space |
| `SignatureModal.TrimEmptyIffBlank` | src/components/SignatureModal.js:89-99 | `trim()` gives "" exactly when every character is ECMAScript white space or a line terminator |
| `SignatureModal.FindFont` | src/components/SignatureModal.js:49 | The index returned is the first font with that name, or there is none |
| `SignatureModal.FontFamily` | src/components/SignatureModal.js:14-49 | Each listed font name gives its own style. A name not in the table gives "Arial, sans-serif" |
| `SignatureModal.TextTabFamily` | src/components/SignatureModal.js:99 | The text tab's font, "professional", is "Times New Roman, serif" |
| `SignatureModal.Padding` | src/components/SignatureModal.js:56 | The padding is at least 20 and at least half the font size, and equals one of them |
| `SignatureModal.TextSignature` | src/components/SignatureModal.js:44-77 | The image carries the text and size it was given, in the family the font name maps to. Its canvas is at least 200×60 and holds the measured text and its padding on both sides, to within the pixel lost by truncation |
| `SignatureModal.TextCanvasSize` | src/components/SignatureModal.js:56-58 | The width is at least 200 and the height at least 60. Each is the whole-pixel part of text width + 2·padding (or font size + 2·padding), or the minimum when that is larger |
| `SignatureModal.Modal.constructor` | src/components/SignatureModal.js:7-12 | The dialog starts on the draw tab with a blank canvas, empty inputs, font "signature" and size 24 |
| `SignatureModal.Modal.SelectTab` | src/components/SignatureModal.js:120-142 | The tab changes. Leaving the draw tab discards the drawing, and the other inputs are kept |
| `SignatureModal.Modal.BeginStroke` | src/components/SignatureModal.js:105-107 | A stroke makes the canvas non-blank. Nothing else changes |
| `SignatureModal.Modal.Clear` | src/components/SignatureModal.js:33-42 | Only the active tab's input is reset: the canvas and `isEmpty`, the typed signature, or the text. The other tabs are untouched |
| `SignatureModal.Modal.Save` | src/components/SignatureModal.js:79-103 | Draw tab: rejected, with its message, exactly when the canvas is blank. Type tab: rejected exactly when the text is all white space, otherwise rendered in the selected font at size 36. Text tab: rejected exactly when all white space, otherwise rendered in Times New Roman at the chosen size |

## Left out

- PDF parsing, copying, image embedding, drawing and saving (pdf-lib), the
  `fetch` of data URLs, and `file-saver`. The document is its list of page
  sizes, a draw is an emitted `DrawOp`, and the save is the resulting file
  name. Failures inside these libraries during export, and their error alert,
  are not modelled.
- The `isProcessing` busy flag and all asynchronous ordering. This includes
  `handleSignatureSave` reading the list as it was when the handler was
  created.
- Page rendering (react-pdf), dragging and resizing (react-rnd) with its
  50×20 minimum and parent bounds, and freehand capture
  (react-signature-canvas).
- Canvas text measurement and drawing, and `toDataURL`. The measured width is
  an input, and a rendered image is described by its text, font, size and
  canvas size.
- DOM queries, `offsetWidth`, `window.innerWidth` and event listeners. Their
  values are inputs. Of an object URL only whether one exists is modelled. The layout offset between an overlay's
  parent and the page canvas is not modelled.
- The Escape-key handler and the input `onChange` setters of the dialog. These
  are plain field assignments; the dialog's fields are public.
- Zero displayed canvas sizes. JavaScript would divide by zero (Infinity or
  NaN), so `Export.ToPdf` requires a displayed size to be positive.
- IEEE floating point. Reals are exact. Canvas sizes of 2^32 pixels or more,
  which wrap in the browser, are not modelled.
- `PdfViewer.ResizeStop`: `parseInt` reads the CSS length string ("150.5px").
  The model takes the numeric length, so a malformed style string (NaN) is
  not modelled.
- The verification record (`src/utils/verification.js`,
  `src/components/VerificationBadge.js`), `src/components/FileUpload.js`,
  `src/index.js` and `simple-server-fixed.js` are not part of this model.
