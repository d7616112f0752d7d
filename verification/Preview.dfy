/** The preview component (components/FlyerPreview.tsx): its own copy of the canvas size
    table, the substitution of image placeholders into the generated markup, the
    document written into the off-screen frame, the readiness flag that gates the
    download buttons, and the download handler with the rasteriser as a parameter. */
module Preview {

  import opened Wrappers
  import opened Text
  import opened Types
  import opened Gemini

  /** The component's local size table; it agrees with the service's table. */
  function PreviewDimensions(f: CanvasFormat): (d: Dimensions)
    ensures d == CanvasDimensions(f)
  {
    match f
    case SquarePost => Dimensions(1080, 1080)
    case PortraitPost => Dimensions(1080, 1350)
    case Story => Dimensions(1080, 1920)
    case Landscape => Dimensions(1920, 1080)
    case A4Document => Dimensions(2480, 3508)
  }

  // ---- Placeholder substitution ----

  /** The four image slots, in the order the substitution visits them. */
  datatype Slot = LogoSlot | SpeakerSlot | BackgroundSlot | QrSlot

  const Slots: seq<Slot> := [LogoSlot, SpeakerSlot, BackgroundSlot, QrSlot]

  const LogoToken: string := "[LOGO_IMAGE_URL]"
  const SpeakerToken: string := "[SPEAKER_IMAGE_URL]"
  const BackgroundToken: string := "[BACKGROUND_IMAGE_URL]"
  const QrToken: string := "[QR_CODE_IMAGE_URL]"

  function Token(s: Slot): (t: string)
    ensures t != []
  {
    match s
    case LogoSlot => LogoToken
    case SpeakerSlot => SpeakerToken
    case BackgroundSlot => BackgroundToken
    case QrSlot => QrToken
  }

  /** What the preview receives besides the markup: three optional images and the
      optional QR code data URL. */
  datatype Assets = Assets(logo: Option<ImageFile>, speakerImage: Option<ImageFile>,
                           backgroundImage: Option<ImageFile>, qrCodeDataUrl: Option<string>)

  /** `image?.dataUrl`, with the empty text standing for an absent slot. */
  function ImageValue(image: Option<ImageFile>): string {
    if image.Some? then image.value.dataUrl else ""
  }

  /** The text a slot's token is replaced with; empty (falsy) means "leave the token". */
  function SlotValue(a: Assets, s: Slot): string {
    match s
    case LogoSlot => ImageValue(a.logo)
    case SpeakerSlot => ImageValue(a.speakerImage)
    case BackgroundSlot => ImageValue(a.backgroundImage)
    case QrSlot => if a.qrCodeDataUrl.Some? then a.qrCodeDataUrl.value else ""
  }

  /** One conditional step: replace every occurrence of the token when the value is set. */
  function ReplaceIfSet(html: string, token: string, value: string): string
    requires token != []
  {
    if value == "" then html else ReplaceAll(html, token, value)
  }

  /** The substitution steps for `slots`, in order. */
  function SubstituteSlots(html: string, a: Assets, slots: seq<Slot>): string
    decreases |slots|
  {
    if slots == [] then html
    else SubstituteSlots(ReplaceIfSet(html, Token(slots[0]), SlotValue(a, slots[0])), a, slots[1..])
  }

  /** `processedHtml`: logo, then speaker image, then background, then QR code. */
  function Substitute(html: string, a: Assets): string {
    SubstituteSlots(html, a, Slots)
  }

  /** The step-by-step reassignment of `finalHtml`. */
  method ProcessHtml(htmlContent: string, a: Assets) returns (finalHtml: string)
    ensures finalHtml == Substitute(htmlContent, a)
  {
    finalHtml := htmlContent;
    assert SubstituteSlots(finalHtml, a, Slots) == Substitute(htmlContent, a);
    if a.logo.Some? && a.logo.value.dataUrl != "" {
      finalHtml := ReplaceAll(finalHtml, LogoToken, a.logo.value.dataUrl);
    }
    assert SubstituteSlots(finalHtml, a, [SpeakerSlot, BackgroundSlot, QrSlot]) == Substitute(htmlContent, a) by {
      assert Slots[1..] == [SpeakerSlot, BackgroundSlot, QrSlot];
    }
    if a.speakerImage.Some? && a.speakerImage.value.dataUrl != "" {
      finalHtml := ReplaceAll(finalHtml, SpeakerToken, a.speakerImage.value.dataUrl);
    }
    assert SubstituteSlots(finalHtml, a, [BackgroundSlot, QrSlot]) == Substitute(htmlContent, a) by {
      assert [SpeakerSlot, BackgroundSlot, QrSlot][1..] == [BackgroundSlot, QrSlot];
    }
    if a.backgroundImage.Some? && a.backgroundImage.value.dataUrl != "" {
      finalHtml := ReplaceAll(finalHtml, BackgroundToken, a.backgroundImage.value.dataUrl);
    }
    assert SubstituteSlots(finalHtml, a, [QrSlot]) == Substitute(htmlContent, a) by {
      assert [BackgroundSlot, QrSlot][1..] == [QrSlot];
    }
    if a.qrCodeDataUrl.Some? && a.qrCodeDataUrl.value != "" {
      finalHtml := ReplaceAll(finalHtml, QrToken, a.qrCodeDataUrl.value);
    }
    assert [QrSlot][1..] == [];
  }

  lemma LogoTokenShape() ensures IsBracketToken(LogoToken) {
    assert forall i :: 1 <= i < |LogoToken| - 1 ==> TokenChar(LogoToken[i]);
  }

  lemma SpeakerTokenShape() ensures IsBracketToken(SpeakerToken) {
    assert forall i :: 1 <= i < |SpeakerToken| - 1 ==> TokenChar(SpeakerToken[i]);
  }

  lemma BackgroundTokenShape() ensures IsBracketToken(BackgroundToken) {
    assert forall i :: 1 <= i < |BackgroundToken| - 1 ==> TokenChar(BackgroundToken[i]);
  }

  lemma QrTokenShape() ensures IsBracketToken(QrToken) {
    assert forall i :: 1 <= i < |QrToken| - 1 ==> TokenChar(QrToken[i]);
  }

  /** Every placeholder is a bracketed upper-case name, and each slot has its own. */
  lemma TokensAreDistinctBracketTokens(s: Slot, t: Slot)
    ensures IsBracketToken(Token(s))
    ensures Token(s) == Token(t) ==> s == t
  {
    LogoTokenShape();
    SpeakerTokenShape();
    BackgroundTokenShape();
    QrTokenShape();
  }

  /** Every value that is set can neither complete nor start a placeholder (true of any
      data URL or web address: it has a `:` and no brackets). */
  predicate SafeAssets(a: Assets) {
    forall s :: SlotValue(a, s) != "" ==> SafeValue(SlotValue(a, s))
  }

  lemma {:induction false} SubstituteSlotsKeeps(html: string, a: Assets, slots: seq<Slot>, t: Slot)
    requires SlotValue(a, t) == "" && Contains(html, Token(t))
    ensures Contains(SubstituteSlots(html, a, slots), Token(t))
    decreases |slots|
  {
    if slots != [] {
      var s := slots[0];
      var next := ReplaceIfSet(html, Token(s), SlotValue(a, s));
      if SlotValue(a, s) != "" {
        TokensAreDistinctBracketTokens(s, t);
        TokensAreDistinctBracketTokens(t, s);
        ReplaceAllKeepsOtherToken(html, Token(s), SlotValue(a, s), Token(t));
      }
      SubstituteSlotsKeeps(next, a, slots[1..], t);
    }
  }

  /** A placeholder whose value is absent or empty is left in the markup. */
  lemma SubstituteKeepsUnset(html: string, a: Assets, t: Slot)
    requires SlotValue(a, t) == "" && Contains(html, Token(t))
    ensures Contains(Substitute(html, a), Token(t))
  {
    SubstituteSlotsKeeps(html, a, Slots, t);
  }

  lemma {:induction false} SubstituteSlotsAbsent(html: string, a: Assets, slots: seq<Slot>, t: Slot)
    requires SafeAssets(a) && !Contains(html, Token(t))
    ensures !Contains(SubstituteSlots(html, a, slots), Token(t))
    decreases |slots|
  {
    if slots != [] {
      var s := slots[0];
      var next := ReplaceIfSet(html, Token(s), SlotValue(a, s));
      if SlotValue(a, s) != "" {
        TokensAreDistinctBracketTokens(t, s);
        ReplaceAllLeavesNoToken(html, Token(s), SlotValue(a, s), Token(t));
      }
      SubstituteSlotsAbsent(next, a, slots[1..], t);
    }
  }

  lemma {:induction false} SubstituteSlotsRemoves(html: string, a: Assets, slots: seq<Slot>, t: Slot)
    requires SafeAssets(a) && SlotValue(a, t) != "" && t in slots
    ensures !Contains(SubstituteSlots(html, a, slots), Token(t))
    decreases |slots|
  {
    var s := slots[0];
    var next := ReplaceIfSet(html, Token(s), SlotValue(a, s));
    if s == t {
      TokensAreDistinctBracketTokens(t, t);
      ReplaceAllLeavesNoToken(html, Token(t), SlotValue(a, t), Token(t));
      SubstituteSlotsAbsent(next, a, slots[1..], t);
    } else {
      assert t in slots[1..] by { assert slots == [s] + slots[1..]; }
      SubstituteSlotsRemoves(next, a, slots[1..], t);
    }
  }

  /** With safe values, a placeholder whose value is set is gone from the result. */
  lemma SubstituteRemovesSet(html: string, a: Assets, t: Slot)
    requires SafeAssets(a) && SlotValue(a, t) != ""
    ensures !Contains(Substitute(html, a), Token(t))
  {
    assert t in Slots by { assert t == Slots[0] || t == Slots[1] || t == Slots[2] || t == Slots[3]; }
    SubstituteSlotsRemoves(html, a, Slots, t);
  }

  lemma {:induction false} SubstituteSlotsUnchanged(html: string, a: Assets, slots: seq<Slot>)
    requires forall s :: s in slots && SlotValue(a, s) != "" ==> !Contains(html, Token(s))
    ensures SubstituteSlots(html, a, slots) == html
    decreases |slots|
  {
    if slots != [] {
      var s := slots[0];
      if SlotValue(a, s) != "" {
        ReplaceAllAbsent(html, Token(s), SlotValue(a, s));
      }
      assert forall r :: r in slots[1..] ==> r in slots;
      SubstituteSlotsUnchanged(html, a, slots[1..]);
    }
  }

  /** Markup holding none of the four placeholders passes through unchanged. */
  lemma SubstituteWithoutTokens(html: string, a: Assets)
    requires forall s :: !Contains(html, Token(s))
    ensures Substitute(html, a) == html
  {
    SubstituteSlotsUnchanged(html, a, Slots);
  }

  /** With safe values, substituting a second time changes nothing. */
  lemma SubstituteIdempotent(html: string, a: Assets)
    requires SafeAssets(a)
    ensures Substitute(Substitute(html, a), a) == Substitute(html, a)
  {
    var r := Substitute(html, a);
    forall s | s in Slots && SlotValue(a, s) != "" ensures !Contains(r, Token(s)) {
      SubstituteRemovesSet(html, a, s);
    }
    SubstituteSlotsUnchanged(r, a, Slots);
  }

  lemma {:induction false} SubstituteSlotsNone(html: string, a: Assets, slots: seq<Slot>)
    requires forall s :: s in slots ==> SlotValue(a, s) == ""
    ensures SubstituteSlots(html, a, slots) == html
    decreases |slots|
  {
    if slots != [] {
      assert forall r :: r in slots[1..] ==> r in slots;
      SubstituteSlotsNone(html, a, slots[1..]);
    }
  }

  lemma {:induction false} SubstituteSlotsOnly(html: string, a: Assets, slots: seq<Slot>, t: Slot)
    requires SlotValue(a, t) != ""
    requires t in slots && forall i, j :: 0 <= i < j < |slots| ==> slots[i] != slots[j]
    requires forall s :: s in slots && s != t ==> SlotValue(a, s) == ""
    ensures SubstituteSlots(html, a, slots) == ReplaceAll(html, Token(t), SlotValue(a, t))
    decreases |slots|
  {
    var rest := slots[1..];
    assert forall r :: r in rest ==> r in slots;
    if slots[0] == t {
      forall s | s in rest ensures SlotValue(a, s) == "" {
        var j :| 0 <= j < |rest| && rest[j] == s;
        assert slots[j + 1] == s;
      }
      SubstituteSlotsNone(ReplaceAll(html, Token(t), SlotValue(a, t)), a, rest);
    } else {
      assert t in rest by { assert slots == [slots[0]] + rest; }
      SubstituteSlotsOnly(html, a, rest, t);
    }
  }

  /** With a single value set, every occurrence of its placeholder, found left to right,
      is replaced by that value and everything between occurrences is kept. */
  lemma SubstituteSingle(html: string, a: Assets, t: Slot)
    requires SlotValue(a, t) != ""
    requires forall s :: s != t ==> SlotValue(a, s) == ""
    ensures Substitute(html, a) == Join(Split(html, Token(t)), SlotValue(a, t))
  {
    assert t in Slots by { assert t == Slots[0] || t == Slots[1] || t == Slots[2] || t == Slots[3]; }
    SubstituteSlotsOnly(html, a, Slots, t);
    ReplaceAllIsSplitJoin(html, Token(t), SlotValue(a, t));
  }

  /** Why the idempotence above asks for safe values: a value made only of name
      characters can complete a placeholder around it, which the next pass replaces. */
  lemma SubstituteTwiceDiffersForNameLikeValue()
    ensures var a := Assets(Some(ImageFile("logo", "LOGO")), None, None, None);
            var html := "[" + LogoToken + "_IMAGE_URL]";
            Substitute(html, a) == LogoToken && Substitute(Substitute(html, a), a) == "LOGO"
  {
    var a := Assets(Some(ImageFile("logo", "LOGO")), None, None, None);
    var html := "[" + LogoToken + "_IMAGE_URL]";
    forall s | s != LogoSlot ensures SlotValue(a, s) == "" { }
    SubstituteSlotsOnly(html, a, Slots, LogoSlot);
    SubstituteSlotsOnly(LogoToken, a, Slots, LogoSlot);
    ReplaceOnceInside("[", "_IMAGE_URL]", "LOGO");
    ReplaceWholeToken("LOGO");
  }

  lemma ReplaceOnceInside(before: string, after: string, v: string)
    requires before == "[" && after == "_IMAGE_URL]" && v == "LOGO"
    ensures ReplaceAll(before + LogoToken + after, LogoToken, v) == LogoToken
  {
    var s := before + LogoToken + after;
    assert s[..|LogoToken|] != LogoToken by {
      assert s[1] == LogoToken[0] == '[';
      assert LogoToken[1] == 'L';
    }
    ReplaceAroundOnce(before, LogoToken, after, v);
    LogoTokenSpelled();
  }

  /** One character, then a whole token, then a tail too short to hold another: only
      the token is replaced. */
  lemma ReplaceAroundOnce(before: string, t: string, after: string, v: string)
    requires |before| == 1 && |t| > 0 && |after| < |t|
    requires (before + t + after)[..|t|] != t
    ensures ReplaceAll(before + t + after, t, v) == before + v + after
  {
    var s := before + t + after;
    var rest := t + after;
    assert s[1..] == rest && s[0] == before[0];
    ReplaceMissStep(s, t, v);
    assert rest[..|t|] == t && rest[|t|..] == after;
    ReplaceMatchStep(rest, t, v);
    assert [before[0]] == before;
  }

  /** The step of a scan that finds no occurrence at the front. */
  lemma ReplaceMissStep(s: string, t: string, v: string)
    requires |t| > 0 && |s| >= |t| && s[..|t|] != t
    ensures ReplaceAll(s, t, v) == [s[0]] + ReplaceAll(s[1..], t, v)
  {
  }

  /** The step of a scan that finds an occurrence at the front, with a tail too short
      to hold another. */
  lemma ReplaceMatchStep(s: string, t: string, v: string)
    requires |t| > 0 && |s| >= |t| && s[..|t|] == t && |s| - |t| < |t|
    ensures ReplaceAll(s, t, v) == v + s[|t|..]
  {
  }

  lemma LogoTokenSpelled()
    ensures LogoToken == "[" + "LOGO" + "_IMAGE_URL]"
  {
  }

  lemma ReplaceWholeToken(v: string)
    ensures ReplaceAll(LogoToken, LogoToken, v) == v
  {
    assert LogoToken[..|LogoToken|] == LogoToken;
    assert LogoToken[|LogoToken|..] == [];
  }

  // ---- The document written into the frames ----

  /** The template text before the container element. */
  const DocumentHead: string :=
    "\n    <!DOCTYPE html>\n    <html>\n      <head>\n        <script src=\"https://cdn.tailwindcss.com\"></script>\n      </head>\n      <body style=\"margin: 0;\">\n        "
  const ContainerId: string := "id=\"flyer-container\""
  /** The whitespace between the container's opening tag and the markup. */
  const MarkupIndent: string := "\n          "
  /** The template text after the markup. */
  const DocumentTail: string := "\n        </div>\n      </body>\n    </html>\n  "

  /** The container's opening tag, sized in pixels to the canvas. */
  function ContainerOpenTag(d: Dimensions): string {
    "<div " + ContainerId + " style=\"width: " + NatToString(d.width) + "px; height: " + NatToString(d.height) + "px;\">"
  }

  /** `fullIframeContent` */
  function ComposeDocument(processed: string, d: Dimensions): string {
    DocumentHead + ContainerOpenTag(d) + MarkupIndent + processed + DocumentTail
  }

  /** Reads the markup back out of a composed document of the given size. */
  function MarkupOf(doc: string, d: Dimensions): (r: Option<string>)
    ensures r.Some? ==> ComposeDocument(r.value, d) == doc
  {
    var head := DocumentHead + ContainerOpenTag(d) + MarkupIndent;
    if |head| + |DocumentTail| <= |doc| && StartsWith(doc, head) && EndsWith(doc, DocumentTail) then
      var markup := doc[|head|..|doc| - |DocumentTail|];
      assert doc == doc[..|head|] + markup + doc[|doc| - |DocumentTail|..];
      Some(markup)
    else None
  }

  /** The composed document holds the markup verbatim, right after a container sized
      to the canvas: reading it back gives exactly the markup. */
  lemma ComposeDocumentRoundTrip(processed: string, d: Dimensions)
    ensures MarkupOf(ComposeDocument(processed, d), d) == Some(processed)
  {
    var head := DocumentHead + ContainerOpenTag(d) + MarkupIndent;
    var doc := ComposeDocument(processed, d);
    assert doc == head + processed + DocumentTail;
    assert doc[..|head|] == head;
    assert doc[|doc| - |DocumentTail|..] == DocumentTail;
    assert doc[|head|..|doc| - |DocumentTail|] == processed;
  }

  /** Whether `getElementById('flyer-container')` finds the node: the id attribute
      occurs in the document. */
  predicate HasContainer(doc: string) {
    Contains(doc, ContainerId)
  }

  /** Every composed document has the container the download looks for. */
  lemma ComposedDocumentHasContainer(processed: string, d: Dimensions)
    ensures HasContainer(ComposeDocument(processed, d))
  {
    var style := " style=\"width: " + NatToString(d.width) + "px; height: " + NatToString(d.height) + "px;\">";
    assert ContainerOpenTag(d) == "<div " + ContainerId + style;
    OccursInside(DocumentHead, "<div ", ContainerId, style, MarkupIndent + processed + DocumentTail);
    assert ComposeDocument(processed, d) == DocumentHead + ("<div " + ContainerId + style) + (MarkupIndent + processed + DocumentTail);
  }

  lemma OccursInside(a: string, b: string, t: string, c: string, e: string)
    ensures Contains(a + (b + t + c) + e, t)
  {
    var s := a + (b + t + c) + e;
    assert s[|a| + |b|..|a| + |b| + |t|] == t;
    assert OccursAt(s, t, |a| + |b|);
  }

  /** The document for the preview's current inputs. */
  function DocumentFor(html: string, a: Assets, f: CanvasFormat): string {
    ComposeDocument(Substitute(html, a), PreviewDimensions(f))
  }

  lemma DocumentForHasContainer(html: string, a: Assets, f: CanvasFormat)
    ensures HasContainer(DocumentFor(html, a, f))
  {
    ComposedDocumentHasContainer(Substitute(html, a), PreviewDimensions(f));
  }

  // ---- Readiness of the off-screen frame and the download ----

  datatype ImageFormat = Png | Jpeg

  function Extension(f: ImageFormat): string {
    match f
    case Png => "png"
    case Jpeg => "jpeg"
  }

  const DownloadQuality: real := 0.98

  /** The options handed to the rasteriser (the fetch settings for remote images are
      not modelled). */
  datatype RasterOptions = RasterOptions(width: nat, height: nat, quality: real, canvasWidth: nat, canvasHeight: nat)

  /** A call of `htmlToImage.toPng` or `htmlToImage.toJpeg` on the container node. */
  datatype RasterRequest = RasterRequest(format: ImageFormat, options: RasterOptions)

  /** What a press of a download button ends in. */
  datatype DownloadOutcome =
    | SourceMissing                          // no off-screen document: logged, nothing else
    | ContainerMissing                       // no `flyer-container` node: logged, nothing else
    | Saved(fileName: string, href: string)  // a link with this name and target was clicked
    | Alerted                                // the rasteriser failed: the user was alerted

  /** The preview component's state that outlives a render. `ready` is
      `isDownloadSourceReady`; `onloadArmed` says the off-screen frame's `onload` handler
      is installed; `pendingTimers` counts the 300 ms timers it has started and that have
      not fired yet. */
  class FlyerPreview {
    const framePresent: bool      // the off-screen frame element exists
    const documentPresent: bool   // and exposes its document
    var size: Dimensions
    var composed: string          // `fullIframeContent` of the latest render
    var frameDocument: string     // what the off-screen document holds
    var ready: bool
    var onloadArmed: bool
    var pendingTimers: nat

    ghost predicate Valid()
      reads this
    {
      && HasContainer(composed)
      && (framePresent && documentPresent ==> frameDocument == composed)
      && (!framePresent ==> !ready && !onloadArmed && pendingTimers == 0)
    }

    /** The first render and the effect that runs after it. */
    constructor(framePresent: bool, documentPresent: bool, html: string, a: Assets, f: CanvasFormat)
      ensures Valid()
      ensures this.framePresent == framePresent && this.documentPresent == documentPresent
      ensures size == PreviewDimensions(f) && composed == DocumentFor(html, a, f)
      ensures frameDocument == (if framePresent && documentPresent then composed else "")
      ensures !ready && onloadArmed == framePresent && pendingTimers == 0
    {
      this.framePresent := framePresent;
      this.documentPresent := documentPresent;
      var first := DocumentFor(html, a, f);
      DocumentForHasContainer(html, a, f);
      size := PreviewDimensions(f);
      composed := first;
      ready := false;
      pendingTimers := 0;
      onloadArmed := framePresent;
      frameDocument := if framePresent && documentPresent then first else "";
    }

    /** A later render with new inputs. The effect runs only when the composed document
        changed: it clears `ready`, installs `onload` and rewrites the off-screen document. */
    method Render(html: string, a: Assets, f: CanvasFormat)
      requires Valid()
      modifies this
      ensures Valid()
      ensures size == PreviewDimensions(f) && composed == DocumentFor(html, a, f)
      ensures composed != old(composed) && framePresent ==> !ready && onloadArmed
      ensures composed == old(composed) ==>
                ready == old(ready) && onloadArmed == old(onloadArmed) && frameDocument == old(frameDocument)
      ensures ready ==> old(ready)
      ensures pendingTimers == old(pendingTimers)
    {
      var next := DocumentFor(html, a, f);
      DocumentForHasContainer(html, a, f);
      size := PreviewDimensions(f);
      Rebuild(next);
    }

    /** The effect keyed on the composed document. */
    method Rebuild(next: string)
      requires Valid() && HasContainer(next)
      modifies this`composed, this`ready, this`onloadArmed, this`frameDocument
      ensures Valid()
      ensures composed == next
      ensures next != old(composed) && framePresent ==> !ready && onloadArmed
      ensures next == old(composed) ==>
                ready == old(ready) && onloadArmed == old(onloadArmed) && frameDocument == old(frameDocument)
      ensures ready ==> old(ready)
    {
      if next != composed {
        composed := next;
        if framePresent {
          ready := false;
          onloadArmed := true;
          if documentPresent {
            frameDocument := composed;
          }
        }
      }
    }

    /** The off-screen frame finished loading: the installed handler starts a timer. */
    method FrameLoaded()
      requires Valid()
      modifies this
      ensures Valid()
      ensures pendingTimers == old(pendingTimers) + (if onloadArmed then 1 else 0)
      ensures ready == old(ready) && onloadArmed == old(onloadArmed)
      ensures composed == old(composed) && frameDocument == old(frameDocument) && size == old(size)
    {
      if onloadArmed {
        pendingTimers := pendingTimers + 1;
      }
    }

    /** One of the started timers fires: the only place `ready` becomes true. */
    method TimerFired()
      requires Valid() && pendingTimers > 0
      modifies this
      ensures Valid()
      ensures ready && pendingTimers == old(pendingTimers) - 1
      ensures onloadArmed == old(onloadArmed)
      ensures composed == old(composed) && frameDocument == old(frameDocument) && size == old(size)
    {
      pendingTimers := pendingTimers - 1;
      ready := true;
    }

    /** `handleDownload`: the two guards, then one rasteriser call with the canvas size
        and quality 0.98; success clicks a link named `flyer-design.<format>`, failure
        alerts. A valid preview never meets the missing-container guard. */
    method HandleDownload(format: ImageFormat, raster: RasterRequest -> Option<string>)
      returns (outcome: DownloadOutcome)
      ensures !(framePresent && documentPresent) <==> outcome == SourceMissing
      ensures outcome == ContainerMissing <==> framePresent && documentPresent && !HasContainer(frameDocument)
      ensures Valid() ==> outcome != ContainerMissing
      ensures outcome.Saved? || outcome == Alerted ==>
                var request := RasterRequest(format, RasterOptions(size.width, size.height, DownloadQuality, size.width, size.height));
                if raster(request).Some?
                then outcome == Saved("flyer-design." + Extension(format), raster(request).value)
                else outcome == Alerted
    {
      if !(framePresent && documentPresent) {
        return SourceMissing;
      }
      if !HasContainer(frameDocument) {
        return ContainerMissing;
      }
      var options := RasterOptions(size.width, size.height, DownloadQuality, size.width, size.height);
      var dataUrl := raster(RasterRequest(format, options));
      if dataUrl.None? {
        return Alerted;
      }
      outcome := Saved("flyer-design." + Extension(format), dataUrl.value);
    }

    /** A press of the PNG or JPEG button: both are disabled until the source is ready. */
    method ClickDownload(format: ImageFormat, raster: RasterRequest -> Option<string>)
      returns (outcome: Option<DownloadOutcome>)
      requires Valid()
      ensures !ready <==> outcome.None?
      ensures outcome.Some? && documentPresent ==> outcome.value.Saved? || outcome.value == Alerted
      ensures outcome.Some? ==> (outcome.value == SourceMissing <==> !(framePresent && documentPresent))
      ensures outcome.Some? ==> outcome.value != ContainerMissing
      ensures outcome.Some? && (outcome.value.Saved? || outcome.value == Alerted) ==>
                var request := RasterRequest(format, RasterOptions(size.width, size.height, DownloadQuality, size.width, size.height));
                if raster(request).Some?
                then outcome.value == Saved("flyer-design." + Extension(format), raster(request).value)
                else outcome.value == Alerted
    {
      if !ready {
        return None;
      }
      var result := HandleDownload(format, raster);
      outcome := Some(result);
    }
  }
}
