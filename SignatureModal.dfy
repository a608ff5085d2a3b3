/**
 * The authoring dialog (src/components/SignatureModal.js): its three tabs (draw,
 * type a signature, add text), save validation per tab, clearing, the font
 * table, and the size of the canvas a text is rendered on.
 */
module SignatureModal {
  import opened Wrappers
  import opened Signatures
  import opened Numbers

  // ---------------------------------------------------------------------------
  // `String.prototype.trim`

  /** The characters `trim` removes: ECMAScript white space and line terminators. */
  predicate IsJsWhitespace(c: char)
  {
    || c == '\t' || c == '\n' || c == '\U{B}' || c == '\U{C}' || c == '\r' || c == ' '
    || c == '\U{A0}' || c == '\U{1680}' || ('\U{2000}' <= c <= '\U{200A}')
    || c == '\U{2028}' || c == '\U{2029}' || c == '\U{202F}' || c == '\U{205F}'
    || c == '\U{3000}' || c == '\U{FEFF}'
  }

  /** Every character of `s` is white space (the empty string included). */
  predicate IsBlank(s: string)
  {
    forall i :: 0 <= i < |s| ==> IsJsWhitespace(s[i])
  }

  /** `s` without its leading white space. */
  function TrimStart(s: string): (r: string)
    ensures |r| <= |s| && r == s[|s| - |r|..]
    ensures IsBlank(s[..|s| - |r|])
    ensures r == [] || !IsJsWhitespace(r[0])
  {
    if s != [] && IsJsWhitespace(s[0]) then TrimStart(s[1..]) else s
  }

  /** `s` without its trailing white space. */
  function TrimEnd(s: string): (r: string)
    ensures |r| <= |s| && r == s[..|r|]
    ensures IsBlank(s[|r|..])
    ensures r == [] || !IsJsWhitespace(r[|r| - 1])
  {
    if s != [] && IsJsWhitespace(s[|s| - 1]) then TrimEnd(s[..|s| - 1]) else s
  }

  /** How many white-space characters `trim` drops from the front of `s`. */
  function Leading(s: string): (k: nat)
    ensures k <= |s| && IsBlank(s[..k]) && TrimStart(s) == s[k..]
  {
    |s| - |TrimStart(s)|
  }

  /**
   * `s.trim()`: the part of `s` from `Leading(s)` on, with no white space at
   * either end, everything dropped before and after it being white space.
   */
  function Trim(s: string): (r: string)
    ensures Leading(s) + |r| <= |s|
    ensures r == s[Leading(s)..Leading(s) + |r|]
    ensures IsBlank(s[..Leading(s)]) && IsBlank(s[Leading(s) + |r|..])
    ensures r == [] || (!IsJsWhitespace(r[0]) && !IsJsWhitespace(r[|r| - 1]))
  {
    var k, t := Leading(s), TrimStart(s);
    var r := TrimEnd(t);
    assert t == s[k..];
    assert r == t[..|r|] && IsBlank(t[|r|..]);
    assert s[k + |r|..] == t[|r|..];
    assert s[k..k + |r|] == t[..|r|];
    r
  }

  /** The trimmed text is empty exactly when the text is all white space. */
  lemma {:induction false} TrimEmptyIffBlank(s: string)
    ensures Trim(s) == [] <==> IsBlank(s)
  {
    var t := TrimStart(s);
    if Trim(s) == [] {
      assert IsBlank(t[0..]);
      assert t == [];
      assert s[..|s|] == s;
    } else {
      var i := |s| - |t|;
      assert t != [];
      assert !IsJsWhitespace(s[i]);
    }
  }

  // ---------------------------------------------------------------------------
  // Fonts and text rendering (generateTextSignature)

  datatype Font = Font(name: string, caption: string, style: string)

  /** The fonts offered on the type tab. */
  const Fonts: seq<Font> := [
    Font("signature", "Signature Style", "Dancing Script, cursive"),
    Font("elegant", "Elegant", "Great Vibes, cursive"),
    Font("professional", "Professional", "Times New Roman, serif"),
    Font("modern", "Modern", "Arial, sans-serif"),
    Font("handwritten", "Handwritten", "Kalam, cursive")
  ]

  const FallbackFamily: string := "Arial, sans-serif"
  const TextTabFont: string := "professional"

  /** The index of the first font called `name`, as `Array.prototype.find` picks it. */
  function FindFont(fonts: seq<Font>, name: string): (r: Option<nat>)
    ensures r.Some? ==> r.value < |fonts| && fonts[r.value].name == name
    ensures forall j :: 0 <= j < |fonts| && (r.None? || j < r.value) ==> fonts[j].name != name
  {
    if fonts == [] then None
    else if fonts[0].name == name then Some(0)
    else match FindFont(fonts[1..], name)
      case None => None
      case Some(i) => Some(i + 1)
  }

  /** The CSS font family for a font name: the table's style, or Arial for a name not in it. */
  function FontFamily(name: string): (family: string)
    ensures forall i :: 0 <= i < |Fonts| && Fonts[i].name == name ==> family == Fonts[i].style
    ensures (forall i :: 0 <= i < |Fonts| ==> Fonts[i].name != name) ==> family == FallbackFamily
  {
    match FindFont(Fonts, name)
    case None => FallbackFamily
    case Some(i) => Fonts[i].style
  }

  /** The text tab always renders in Times New Roman. */
  lemma TextTabFamily()
    ensures FontFamily(TextTabFont) == "Times New Roman, serif"
  {
  }

  /** The pixel size of a canvas (`canvas.width` and `canvas.height` hold whole numbers). */
  datatype CanvasSize = CanvasSize(width: int, height: int)

  /** The padding around rendered text: half the font size, at least 20. */
  function Padding(fontSize: real): (p: real)
    ensures p >= 20.0 && p >= fontSize * 0.5
    ensures p == 20.0 || p == fontSize * 0.5
  {
    Max(20.0, fontSize * 0.5)
  }

  /**
   * The canvas a text of measured width `textWidth` is rendered on: the text plus
   * padding on both sides, at least 200 by 60, cut to whole pixels.
   */
  function TextCanvasSize(textWidth: real, fontSize: real): (r: CanvasSize)
    ensures 200 <= r.width && 60 <= r.height
    ensures textWidth + 2.0 * Padding(fontSize) < r.width as real + 1.0
    ensures r.width == 200 || r.width as real <= textWidth + 2.0 * Padding(fontSize)
    ensures fontSize + 2.0 * Padding(fontSize) < r.height as real + 1.0
    ensures r.height == 60 || r.height as real <= fontSize + 2.0 * Padding(fontSize)
  {
    var padding := Padding(fontSize);
    CanvasSize(Max(textWidth + padding * 2.0, 200.0).Floor, Max(fontSize + padding * 2.0, 60.0).Floor)
  }

  /** The image one save hands to the editor. */
  datatype Authored =
    | Drawn
    | Lettered(text: string, fontFamily: string, fontSize: real, canvas: CanvasSize)

  /**
   * A text rendered in the named font at the given size, on a canvas that holds
   * the measured text with its padding on both sides.
   */
  function TextSignature(text: string, font: string, fontSize: real, textWidth: real): (r: Authored)
    ensures r.Lettered? && r.text == text && r.fontSize == fontSize
    ensures r.fontFamily == FontFamily(font)
    ensures 200 <= r.canvas.width && 60 <= r.canvas.height
    ensures textWidth + 2.0 * Padding(fontSize) < r.canvas.width as real + 1.0
    ensures fontSize + 2.0 * Padding(fontSize) < r.canvas.height as real + 1.0
  {
    Lettered(text, FontFamily(font), fontSize, TextCanvasSize(textWidth, fontSize))
  }

  // ---------------------------------------------------------------------------
  // The dialog

  datatype Tab = Draw | Type | Text

  const TypedFontSize: real := 36.0
  const DefaultFontSize: int := 24
  const DrawFirst: string := "Please draw your signature first"
  const EnterSignature: string := "Please enter your signature text"
  const EnterText: string := "Please enter some text"

  /** The dialog's state: the active tab and each tab's input. */
  class Modal {
    var activeTab: Tab
    /** Whether the drawing canvas holds no stroke (`sigCanvas.current.isEmpty()`). */
    var canvasBlank: bool
    /** The component's own `isEmpty` flag. */
    var isEmpty: bool
    var typedSignature: string
    var selectedFont: string
    var textValue: string
    var fontSize: int

    constructor ()
      ensures activeTab == Draw && canvasBlank && isEmpty
      ensures typedSignature == "" && selectedFont == "signature" && textValue == ""
      ensures fontSize == DefaultFontSize
    {
      activeTab := Draw;
      canvasBlank := true;
      isEmpty := true;
      typedSignature := "";
      selectedFont := "signature";
      textValue := "";
      fontSize := DefaultFontSize;
    }

    /**
     * Switching tabs. The drawing canvas exists only on the draw tab, so leaving
     * that tab discards the drawing; the typed inputs are kept.
     */
    method SelectTab(t: Tab)
      modifies this
      ensures activeTab == t
      ensures canvasBlank == (if old(activeTab) == Draw && t != Draw then true else old(canvasBlank))
      ensures isEmpty == old(isEmpty) && typedSignature == old(typedSignature)
      ensures selectedFont == old(selectedFont) && textValue == old(textValue) && fontSize == old(fontSize)
    {
      if activeTab == Draw && t != Draw {
        canvasBlank := true;
      }
      activeTab := t;
    }

    /** A stroke starts on the drawing canvas (handleBegin). */
    method BeginStroke()
      requires activeTab == Draw
      modifies this
      ensures !canvasBlank && !isEmpty
      ensures activeTab == old(activeTab) && typedSignature == old(typedSignature)
      ensures selectedFont == old(selectedFont) && textValue == old(textValue) && fontSize == old(fontSize)
    {
      canvasBlank := false;
      isEmpty := false;
    }

    /** Clear resets the active tab's input and leaves the other tabs' inputs as they are. */
    method Clear()
      modifies this
      ensures activeTab == old(activeTab) && selectedFont == old(selectedFont) && fontSize == old(fontSize)
      ensures old(activeTab) == Draw ==>
        canvasBlank && isEmpty && typedSignature == old(typedSignature) && textValue == old(textValue)
      ensures old(activeTab) == Type ==>
        typedSignature == "" && canvasBlank == old(canvasBlank) && isEmpty == old(isEmpty) && textValue == old(textValue)
      ensures old(activeTab) == Text ==>
        textValue == "" && canvasBlank == old(canvasBlank) && isEmpty == old(isEmpty) && typedSignature == old(typedSignature)
    {
      match activeTab
      case Draw =>
        canvasBlank := true;
        isEmpty := true;
      case Type =>
        typedSignature := "";
      case Text =>
        textValue := "";
    }

    /**
     * Save: rejected with the tab's message when its input is empty (a blank
     * canvas, or a text of white space only); otherwise the image handed to the
     * editor. `textWidth` is what the browser measures for the text to render.
     */
    method Save(textWidth: real) returns (r: Result<Authored, string>)
      ensures activeTab == Draw ==>
        (r.Failure? <==> canvasBlank) && (r.Success? ==> r.value == Drawn)
        && (r.Failure? ==> r.error == DrawFirst)
      ensures activeTab == Type ==>
        (r.Failure? <==> IsBlank(typedSignature))
        && (r.Success? ==> r.value == Lettered(typedSignature, FontFamily(selectedFont), TypedFontSize,
                                               TextCanvasSize(textWidth, TypedFontSize)))
        && (r.Failure? ==> r.error == EnterSignature)
      ensures activeTab == Text ==>
        (r.Failure? <==> IsBlank(textValue))
        && (r.Success? ==> r.value == Lettered(textValue, "Times New Roman, serif", fontSize as real,
                                               TextCanvasSize(textWidth, fontSize as real)))
        && (r.Failure? ==> r.error == EnterText)
    {
      match activeTab
      case Draw =>
        if canvasBlank {
          return Failure(DrawFirst);
        }
        r := Success(Drawn);
      case Type =>
        TrimEmptyIffBlank(typedSignature);
        if Trim(typedSignature) == "" {
          return Failure(EnterSignature);
        }
        r := Success(TextSignature(typedSignature, selectedFont, TypedFontSize, textWidth));
      case Text =>
        TrimEmptyIffBlank(textValue);
        if Trim(textValue) == "" {
          return Failure(EnterText);
        }
        TextTabFamily();
        r := Success(TextSignature(textValue, TextTabFont, fontSize as real, textWidth));
    }
  }
}
