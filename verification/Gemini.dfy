/** The deterministic part of the generative-model service (services/geminiService.ts):
    the canvas size table, the theme descriptions, parsing of the primary text and the
    details block, clean-up of the model's reply, and the three calls with the remote
    model given as a parameter (`model`) that answers a request with a reply or a failure. */
module Gemini {

  import opened Wrappers
  import opened Text
  import opened Types

  /** Pixel size of a canvas. */
  datatype Dimensions = Dimensions(width: nat, height: nat)

  /** The canvas-format table. The source's `default` branch is unreachable: the
      match below is exhaustive over the five formats. */
  function CanvasDimensions(f: CanvasFormat): (d: Dimensions)
    ensures d.width > 0 && d.height > 0
  {
    match f
    case SquarePost => Dimensions(1080, 1080)
    case PortraitPost => Dimensions(1080, 1350)
    case Story => Dimensions(1080, 1920)
    case Landscape => Dimensions(1920, 1080)
    case A4Document => Dimensions(2480, 3508)
  }

  /** `WxH`, as the labels of the canvas formats write a size. */
  function DimensionText(d: Dimensions): string {
    NatToString(d.width) + "x" + NatToString(d.height)
  }

  lemma Decimal1080() ensures NatToString(1080) == "1080" {
    assert NatToString(10) == "10";
    assert NatToString(108) == "108";
  }

  lemma Decimal1350() ensures NatToString(1350) == "1350" {
    assert NatToString(13) == "13";
    assert NatToString(135) == "135";
  }

  lemma Decimal1920() ensures NatToString(1920) == "1920" {
    assert NatToString(19) == "19";
    assert NatToString(192) == "192";
  }

  lemma Decimal2480() ensures NatToString(2480) == "2480" {
    assert NatToString(24) == "24";
    assert NatToString(248) == "248";
  }

  lemma Decimal3508() ensures NatToString(3508) == "3508" {
    assert NatToString(35) == "35";
    assert NatToString(350) == "350";
  }

  /** The label is `before + text + after`. */
  lemma LabelWrites(f: CanvasFormat, before: string, text: string, after: string)
    requires CanvasFormatLabel(f) == before + text + after
    ensures Contains(CanvasFormatLabel(f), text)
  {
    var caption := before + text + after;
    assert caption[|before|..|before| + |text|] == text;
    assert OccursAt(caption, text, |before|);
  }

  lemma SquareLabel() ensures Contains(CanvasFormatLabel(SquarePost), DimensionText(CanvasDimensions(SquarePost))) {
    Decimal1080();
    assert DimensionText(CanvasDimensions(SquarePost)) == "1080x1080";
    LabelWrites(SquarePost, "Instagram Post (Square ", "1080x1080", ")");
  }

  lemma PortraitLabel() ensures Contains(CanvasFormatLabel(PortraitPost), DimensionText(CanvasDimensions(PortraitPost))) {
    Decimal1080();
    Decimal1350();
    assert DimensionText(CanvasDimensions(PortraitPost)) == "1080x1350";
    LabelWrites(PortraitPost, "Instagram Post (Portrait ", "1080x1350", ")");
  }

  lemma StoryLabel() ensures Contains(CanvasFormatLabel(Story), DimensionText(CanvasDimensions(Story))) {
    Decimal1080();
    Decimal1920();
    assert DimensionText(CanvasDimensions(Story)) == "1080x1920";
    LabelWrites(Story, "Instagram Story (", "1080x1920", ")");
  }

  lemma LandscapeLabel() ensures Contains(CanvasFormatLabel(Landscape), DimensionText(CanvasDimensions(Landscape))) {
    Decimal1080();
    Decimal1920();
    assert DimensionText(CanvasDimensions(Landscape)) == "1920x1080";
    LabelWrites(Landscape, "Landscape (", "1920x1080", ")");
  }

  lemma A4Label() ensures Contains(CanvasFormatLabel(A4Document), DimensionText(CanvasDimensions(A4Document))) {
    Decimal2480();
    Decimal3508();
    assert DimensionText(CanvasDimensions(A4Document)) == "2480x3508";
    LabelWrites(A4Document, "A4 Document (", "2480x3508", ")");
  }

  /** The size written in each format's label is the size the table gives it. */
  lemma LabelStatesDimensions(f: CanvasFormat)
    ensures Contains(CanvasFormatLabel(f), DimensionText(CanvasDimensions(f)))
  {
    match f
    case SquarePost => SquareLabel();
    case PortraitPost => PortraitLabel();
    case Story => StoryLabel();
    case Landscape => LandscapeLabel();
    case A4Document => A4Label();
  }

  /** No two formats share a size. */
  lemma DimensionsIdentifyFormat(f: CanvasFormat, g: CanvasFormat)
    ensures CanvasDimensions(f) == CanvasDimensions(g) ==> f == g
  {
  }

  const MinimalistDescription: string :=
    "Prioritize ample whitespace, a simple grid-based layout, sans-serif fonts (like Inter, Helvetica), and a limited color palette. Use thin lines and avoid heavy shadows, gradients, or complex shapes."
  const BoldDescription: string :=
    "Use strong, bold typography (heavy weights), vibrant colors from the palette, geometric shapes, and a dynamic, asymmetrical layout. High contrast is key. Feel free to use large font sizes."
  const ElegantDescription: string :=
    "Employ a sophisticated and formal design. Use classic serif or clean sans-serif fonts, a structured and balanced layout, and use the provided colors in a refined, understated way. Aim for professionalism and clarity."
  const FunDescription: string :=
    "Create a friendly and energetic design. Use rounded fonts, playful icons or shapes, bright colors, and a more informal or organic layout. The design should feel approachable and cheerful."
  /** Used for `AiChoice` and for the switch's `default` branch. */
  const DefaultThemeDescription: string :=
    "You have creative freedom to choose the most appropriate and effective design style based on the flyer's content (type, topic, text) and purpose."

  /** The art-direction sentence sent for each theme. */
  function StyleThemeDescription(t: StyleTheme): string {
    match t
    case Minimalist => MinimalistDescription
    case Bold => BoldDescription
    case Elegant => ElegantDescription
    case Fun => FunDescription
    case AiChoice => DefaultThemeDescription
  }

  /** Every theme has a description, only `AiChoice` gets the default one, and no two
      themes share one. */
  lemma StyleThemeDescriptionsDistinct(s: StyleTheme, t: StyleTheme)
    ensures StyleThemeDescription(s) != []
    ensures StyleThemeDescription(s) == DefaultThemeDescription <==> s == AiChoice
    ensures StyleThemeDescription(s) == StyleThemeDescription(t) ==> s == t
  {
  }

  // ---- Primary text: "Title;Subtitle;Support Line 1;Support Line 2" ----

  datatype PrimaryText = PrimaryText(title: string, subtitle: string, support1: string, support2: string)

  /** The `i`-th segment, trimmed, or the empty text when there is none
      (`${subtitle || ''}` for a missing segment). */
  function Segment(segments: seq<string>, i: nat): string {
    if i < |segments| then Trim(segments[i]) else ""
  }

  /** Destructuring `primaryText.split(';').map(s => s.trim())`. */
  function ParsePrimaryText(s: string): (p: PrimaryText)
    ensures IsTrimmed(p.title) && IsTrimmed(p.subtitle) && IsTrimmed(p.support1) && IsTrimmed(p.support2)
    ensures ';' !in p.title && ';' !in p.subtitle && ';' !in p.support1 && ';' !in p.support2
  {
    var segments := Split(s, ";");
    SplitPiecesAvoidSeparator(s, ";");
    SegmentAvoids(segments, 0);
    SegmentAvoids(segments, 1);
    SegmentAvoids(segments, 2);
    SegmentAvoids(segments, 3);
    PrimaryText(Segment(segments, 0), Segment(segments, 1), Segment(segments, 2), Segment(segments, 3))
  }

  lemma SegmentAvoids(segments: seq<string>, i: nat)
    requires forall j :: 0 <= j < |segments| ==> !Contains(segments[j], ";")
    ensures ';' !in Segment(segments, i)
  {
    if i < |segments| {
      if ';' in Trim(segments[i]) {
        ContainsChar(Trim(segments[i]), ';');
        TrimContains(segments[i], ";");
      }
    }
  }

  /** Parsing text written as `;`-separated segments: the title is the first segment,
      the next three fill subtitle and support lines, a missing one is empty and any
      segment after the fourth is ignored. Each is trimmed. */
  lemma {:induction false} ParsePrimaryTextOfSegments(segments: seq<string>)
    requires |segments| >= 1
    requires forall i :: 0 <= i < |segments| ==> ';' !in segments[i]
    ensures ParsePrimaryText(Join(segments, ";")) ==
      PrimaryText(Trim(segments[0]), Segment(segments, 1), Segment(segments, 2), Segment(segments, 3))
  {
    SplitJoin(segments, ";");
  }

  lemma JoinFour(a: string, b: string, c: string, d: string, sep: string)
    ensures Join([a, b, c, d], sep) == a + sep + b + sep + c + sep + d
  {
    assert [a, b, c, d][1..] == [b, c, d];
    assert [b, c, d][1..] == [c, d];
    assert [c, d][1..] == [d];
    assert Join([c, d], sep) == c + sep + d;
    assert Join([b, c, d], sep) == b + sep + (c + sep + d);
    assert Join([a, b, c, d], sep) == a + sep + (b + sep + (c + sep + d));
  }

  /** Four clean segments come back exactly. */
  lemma ParsePrimaryTextRoundTrip(a: string, b: string, c: string, d: string)
    requires IsTrimmed(a) && IsTrimmed(b) && IsTrimmed(c) && IsTrimmed(d)
    requires ';' !in a && ';' !in b && ';' !in c && ';' !in d
    ensures ParsePrimaryText(a + ";" + b + ";" + c + ";" + d) == PrimaryText(a, b, c, d)
  {
    ParsePrimaryTextOfFour(a, b, c, d);
    TrimIdempotent(a);
    TrimIdempotent(b);
    TrimIdempotent(c);
    TrimIdempotent(d);
  }

  lemma ParsePrimaryTextOfFour(a: string, b: string, c: string, d: string)
    requires ';' !in a && ';' !in b && ';' !in c && ';' !in d
    ensures ParsePrimaryText(a + ";" + b + ";" + c + ";" + d) == PrimaryText(Trim(a), Trim(b), Trim(c), Trim(d))
  {
    var segments := [a, b, c, d];
    JoinFour(a, b, c, d, ";");
    assert forall i :: 0 <= i < |segments| ==> ';' !in segments[i] by {
      forall i | 0 <= i < |segments| ensures ';' !in segments[i] {
        assert segments[i] in {a, b, c, d};
      }
    }
    ParsePrimaryTextOfSegments(segments);
    assert Segment(segments, 1) == Trim(b) && Segment(segments, 2) == Trim(c) && Segment(segments, 3) == Trim(d);
  }

  /** Text without a `;` is all title. */
  lemma ParsePrimaryTextTitleOnly(s: string)
    requires ';' !in s
    ensures ParsePrimaryText(s) == PrimaryText(Trim(s), "", "", "")
  {
    ParsePrimaryTextOfSegments([s]);
  }

  // ---- Details block: "Date: ... | Time: ... | ..." ----

  /** `.map(s => s.trim()).filter(s => s)`: trimmed pieces, empty ones dropped, order kept. */
  function CleanPieces(pieces: seq<string>): (items: seq<string>)
    ensures |items| <= |pieces|
    ensures forall i :: 0 <= i < |items| ==> items[i] != [] && IsTrimmed(items[i])
  {
    if pieces == [] then []
    else
      var rest := CleanPieces(pieces[1..]);
      var t := Trim(pieces[0]);
      if t == [] then rest else [t] + rest
  }

  /** Cleaning distributes over concatenation: the kept items keep their order. */
  lemma {:induction false} CleanPiecesAppend(a: seq<string>, b: seq<string>)
    ensures CleanPieces(a + b) == CleanPieces(a) + CleanPieces(b)
  {
    if a == [] {
      assert a + b == b;
    } else {
      assert (a + b)[1..] == a[1..] + b;
      CleanPiecesAppend(a[1..], b);
    }
  }

  /** Items that are already clean are kept as they are. */
  lemma {:induction false} CleanPiecesOfCleanItems(items: seq<string>)
    requires forall i :: 0 <= i < |items| ==> items[i] != [] && IsTrimmed(items[i])
    ensures CleanPieces(items) == items
  {
    if items != [] {
      var head, rest := items[0], items[1..];
      assert Trim(head) == head by {
        assert head != [] && IsTrimmed(head);
        TrimIdempotent(head);
      }
      assert CleanPieces(rest) == rest by {
        CleanPiecesOfCleanItems(rest);
      }
      assert items == [head] + rest;
    }
  }

  /** A text no piece contains is contained in no item. */
  lemma {:induction false} CleanPiecesAvoid(pieces: seq<string>, t: string)
    requires forall j :: 0 <= j < |pieces| ==> !Contains(pieces[j], t)
    ensures forall i :: 0 <= i < |CleanPieces(pieces)| ==> !Contains(CleanPieces(pieces)[i], t)
  {
    if pieces != [] {
      CleanPiecesAvoid(pieces[1..], t);
      if Contains(Trim(pieces[0]), t) {
        TrimContains(pieces[0], t);
      }
    }
  }

  /** `detailsBlock.split('|').map(s => s.trim()).filter(s => s)` */
  function ParseDetails(block: string): (items: seq<string>)
    ensures forall i :: 0 <= i < |items| ==> items[i] != [] && IsTrimmed(items[i]) && '|' !in items[i]
  {
    var pieces := Split(block, "|");
    SplitPiecesAvoidSeparator(block, "|");
    CleanPiecesAvoid(pieces, "|");
    var items := CleanPieces(pieces);
    assert forall i :: 0 <= i < |items| ==> '|' !in items[i] by {
      forall i | 0 <= i < |items| ensures '|' !in items[i] { ContainsChar(items[i], '|'); }
    }
    items
  }

  /** Clean items joined with `|` parse back to the same list. */
  lemma ParseDetailsRoundTrip(items: seq<string>)
    requires forall i :: 0 <= i < |items| ==> items[i] != [] && IsTrimmed(items[i]) && '|' !in items[i]
    ensures ParseDetails(Join(items, "|")) == items
  {
    if items == [] {
      assert Split("", "|") == [""];
    } else {
      SplitJoin(items, "|");
      CleanPiecesOfCleanItems(items);
    }
  }

  // ---- Clean-up of the model's reply ----

  const HtmlFence: string := "```html"
  const Fence: string := "```"

  /** The text without a leading "```html", if it has one. */
  function DropHtmlFence(t: string): string {
    if StartsWith(t, HtmlFence) then t[|HtmlFence|..] else t
  }

  /** The text without a trailing "```", if it has one. */
  function DropFence(u: string): string {
    if EndsWith(u, Fence) then u[..|u| - |Fence|] else u
  }

  /** The reply trimmed, then stripped of a leading "```html" and a trailing "```",
      then trimmed again. */
  function CleanFences(text: string): (r: string)
    ensures IsTrimmed(r)
  {
    Trim(DropFence(DropHtmlFence(Trim(text))))
  }

  /** The step-by-step reassignment of `htmlContent`. */
  method StripFences(text: string) returns (html: string)
    ensures html == CleanFences(text)
  {
    html := Trim(text);
    if StartsWith(html, HtmlFence) {
      html := html[7..];
    }
    assert html == DropHtmlFence(Trim(text));
    if EndsWith(html, Fence) {
      html := html[..|html| - 3];
    }
    assert html == DropFence(DropHtmlFence(Trim(text)));
    html := Trim(html);
  }

  /** Markup wrapped in an html fence, with any whitespace around, comes out unwrapped
      and trimmed (the usual reply has a newline inside each fence). */
  lemma CleanFencesUnwraps(lead: string, body: string, trail: string)
    requires AllWhitespace(lead) && AllWhitespace(trail)
    ensures CleanFences(lead + HtmlFence + body + Fence + trail) == Trim(body)
  {
    TrimFenced(lead, body, trail);
    DropHtmlFenceOf(body);
    DropFenceOf(body);
  }

  lemma TrimFenced(lead: string, body: string, trail: string)
    requires AllWhitespace(lead) && AllWhitespace(trail)
    ensures Trim(lead + HtmlFence + body + Fence + trail) == HtmlFence + body + Fence
  {
    var x := HtmlFence + body + Fence;
    assert x[0] == HtmlFence[0] == '`';
    assert x[|x| - 1] == Fence[2] == '`';
    assert lead + HtmlFence + body + Fence + trail == lead + x + trail;
    TrimPadded(lead, x, trail);
  }

  lemma DropHtmlFenceOf(body: string)
    ensures DropHtmlFence(HtmlFence + body + Fence) == body + Fence
  {
    var x := HtmlFence + body + Fence;
    assert x[..|HtmlFence|] == HtmlFence;
    assert x[|HtmlFence|..] == body + Fence;
  }

  lemma DropFenceOf(body: string)
    ensures DropFence(body + Fence) == body
  {
    var u := body + Fence;
    assert u[|u| - |Fence|..] == Fence;
    assert u[..|u| - |Fence|] == body;
  }

  /** A reply with neither fence is only trimmed. */
  lemma CleanFencesPlain(text: string)
    requires !StartsWith(Trim(text), HtmlFence) && !EndsWith(Trim(text), Fence)
    ensures CleanFences(text) == Trim(text)
  {
    TrimIdempotent(text);
  }

  // ---- generateFlyerHtml ----

  /** The fragment shown instead of a flyer when generation fails. */
  const ErrorFragment: string :=
    "<div class=\"p-8 text-red-500 flex items-center justify-center h-full\">Sorry, an error occurred while generating the flyer. Please check the console for details.</div>"

  /** Which image slots the caller will fill. */
  datatype AssetFlags = AssetFlags(hasLogo: bool, hasSpeakerImage: bool, hasBackgroundImage: bool, hasQrCode: bool)

  /** The data a flyer prompt carries (its fixed prose is not modelled). The prompt writes
      the flyer type and the theme by their labels, and the theme's description
      (`StyleThemeDescription`) beside it. */
  datatype FlyerRequest = FlyerRequest(
    flyerType: FlyerType, topic: string, styleTheme: StyleTheme,
    primaryColor: string, accentColor: string, brandName: string, assets: AssetFlags,
    width: nat, height: nat, text: PrimaryText, details: seq<string>, ctaText: string,
    variation: Option<string>)

  /** What the remote model answers a text request with: its text, or a failure
      (a rejected call or a reply without text). */
  datatype TextReply = TextReply(text: string) | TextFailure

  /** The data fields embedded in the flyer prompt. */
  function FlyerPrompt(o: FlyerOptions, assets: AssetFlags, variation: string): (r: FlyerRequest)
    ensures Dimensions(r.width, r.height) == CanvasDimensions(o.canvasFormat)
    ensures r.brandName == (if o.brandName == "" then "Not provided" else o.brandName)
    ensures r.variation.Some? <==> variation != ""
    ensures r.variation == (if variation == "" then None else Some(variation))
    ensures r.text == ParsePrimaryText(o.primaryText)
    ensures r.details == ParseDetails(o.detailsBlock)
    ensures r.flyerType == o.flyerType && r.topic == o.topic && r.styleTheme == o.styleTheme
    ensures r.primaryColor == o.primaryColor && r.accentColor == o.accentColor
    ensures r.ctaText == o.ctaText && r.assets == assets
  {
    var d := CanvasDimensions(o.canvasFormat);
    FlyerRequest(
      o.flyerType, o.topic, o.styleTheme,
      o.primaryColor, o.accentColor, if o.brandName == "" then "Not provided" else o.brandName, assets,
      d.width, d.height, ParsePrimaryText(o.primaryText), ParseDetails(o.detailsBlock), o.ctaText,
      if variation == "" then None else Some(variation))
  }

  /** `generateFlyerHtml`: it never rejects. A missing key (the empty `apiKey`) or a
      failed call resolves to the error fragment; otherwise to the reply with its
      fences and surrounding whitespace removed. */
  function GenerateFlyerHtml(apiKey: string, o: FlyerOptions, assets: AssetFlags, variation: string,
                             model: FlyerRequest -> TextReply): (html: string)
    ensures apiKey == "" ==> html == ErrorFragment
    ensures model(FlyerPrompt(o, assets, variation)).TextFailure? ==> html == ErrorFragment
    ensures apiKey != "" && model(FlyerPrompt(o, assets, variation)).TextReply? ==>
              IsTrimmed(html) && html == CleanFences(model(FlyerPrompt(o, assets, variation)).text)
  {
    if apiKey == "" then ErrorFragment
    else FlyerHtmlOfReply(model(FlyerPrompt(o, assets, variation)))
  }

  /** What the service makes of the model's reply once the key check has passed: the
      cleaned text, or the error fragment when the call failed. */
  function FlyerHtmlOfReply(reply: TextReply): (html: string)
    ensures reply.TextFailure? ==> html == ErrorFragment
    ensures reply.TextReply? ==> IsTrimmed(html) && html == CleanFences(reply.text)
  {
    match reply
    case TextFailure => ErrorFragment
    case TextReply(text) => CleanFences(text)
  }

  /** A reply that wraps markup in an html fence yields that markup, trimmed. */
  lemma GenerateFlyerHtmlUnwraps(apiKey: string, o: FlyerOptions, assets: AssetFlags, variation: string,
                                 model: FlyerRequest -> TextReply, lead: string, body: string, trail: string)
    requires apiKey != ""
    requires model(FlyerPrompt(o, assets, variation)) == TextReply(lead + HtmlFence + body + Fence + trail)
    requires AllWhitespace(lead) && AllWhitespace(trail)
    ensures GenerateFlyerHtml(apiKey, o, assets, variation, model) == Trim(body)
  {
    CleanFencesUnwraps(lead, body, trail);
  }

  // ---- generateCopySuggestions ----

  /** The errors the service's calls reject with. */
  datatype ServiceError = MissingApiKey | BlankTopic | RemoteFailure | MalformedResponse | NoImageData

  datatype CopyRequest = CopyRequest(flyerType: FlyerType, topic: string)

  const SuggestionSeparator: string := "---"

  /** `text.trim().split('---').map(s => s.trim()).filter(s => s)` */
  function SplitSuggestions(text: string): (items: seq<string>)
    ensures forall i :: 0 <= i < |items| ==> items[i] != [] && IsTrimmed(items[i])
    ensures forall i :: 0 <= i < |items| ==> !Contains(items[i], SuggestionSeparator)
  {
    var pieces := Split(Trim(text), SuggestionSeparator);
    SplitPiecesAvoidSeparator(Trim(text), SuggestionSeparator);
    CleanPiecesAvoid(pieces, SuggestionSeparator);
    CleanPieces(pieces)
  }

  /** A piece without `---` that does not end in `-` is cut right after it: the `---`
      that follows is the first one in `piece + "---"`. */
  lemma PieceBeforeSeparator(p: string)
    requires !Contains(p, SuggestionSeparator) && !EndsWith(p, "-")
    ensures SeparatorFollows(p, SuggestionSeparator)
  {
    var sep := SuggestionSeparator;
    forall k | 0 <= k < |p| ensures !OccursAt(p + sep, sep, k) {
      if k + |sep| <= |p| {
        assert !OccursAt(p, sep, k);
        assert (p + sep)[k..k + |sep|] == p[k..k + |sep|];
      } else {
        assert p[|p| - 1..] == [p[|p| - 1]];
        assert (p + sep)[|p| - 1] == p[|p| - 1] != '-';
      }
    }
  }

  /** A reply made of pieces separated by `---`, without surrounding whitespace, yields
      the pieces, trimmed, empty ones dropped, in order; a piece may hold single or
      double hyphens, and only a piece followed by `---` must not end in `-`. */
  lemma SplitSuggestionsOfJoin(pieces: seq<string>)
    requires |pieces| >= 1
    requires forall i :: 0 <= i < |pieces| ==> !Contains(pieces[i], SuggestionSeparator)
    requires forall i :: 0 <= i < |pieces| - 1 ==> !EndsWith(pieces[i], "-")
    requires IsTrimmed(Join(pieces, SuggestionSeparator))
    ensures SplitSuggestions(Join(pieces, SuggestionSeparator)) == CleanPieces(pieces)
  {
    TrimIdempotent(Join(pieces, SuggestionSeparator));
    forall i | 0 <= i < |pieces| - 1 ensures SeparatorFollows(pieces[i], SuggestionSeparator) {
      PieceBeforeSeparator(pieces[i]);
    }
    SplitJoinFollowing(pieces, SuggestionSeparator);
  }

  /** Clean suggestions without `---`, each but the last not ending in `-`, joined by
      `---`, come back exactly. */
  lemma SplitSuggestionsRoundTrip(items: seq<string>)
    requires forall i :: 0 <= i < |items| ==> items[i] != [] && IsTrimmed(items[i])
    requires forall i :: 0 <= i < |items| ==> !Contains(items[i], SuggestionSeparator)
    requires forall i :: 0 <= i < |items| - 1 ==> !EndsWith(items[i], "-")
    ensures SplitSuggestions(Join(items, SuggestionSeparator)) == items
  {
    if items == [] {
      SplitSuggestionsOfEmpty();
    } else {
      JoinTrimmed(items, SuggestionSeparator);
      SplitSuggestionsOfJoin(items);
      CleanPiecesOfCleanItems(items);
    }
  }

  /** An empty reply has no suggestions. */
  lemma SplitSuggestionsOfEmpty()
    ensures SplitSuggestions("") == []
  {
    assert Split("", SuggestionSeparator) == [""];
  }

  /** Why the round trip asks that a suggestion followed by `---` not end in `-`: the
      split cuts at the first `---`, one character early. */
  lemma SplitSuggestionsHyphenBeforeSeparator()
    ensures SplitSuggestions(Join(["a-", "b"], SuggestionSeparator)) == ["a", "-b"]
  {
    var text := HyphenBeforeSeparatorText();
    SplitSuggestionsOfTrimmed(text);
    HyphenBeforeSeparatorPieces();
    CleanPiecesOfCleanItems(["a", "-b"]);
  }

  /** The joined reply reads `a----b`, with no surrounding whitespace. */
  lemma HyphenBeforeSeparatorText() returns (text: string)
    ensures text == "a" + SuggestionSeparator + "-b"
    ensures Join(["a-", "b"], SuggestionSeparator) == text && IsTrimmed(text)
  {
    text := "a" + SuggestionSeparator + "-b";
    assert ["a-", "b"][1..] == ["b"];
    assert "a-" + SuggestionSeparator + "b" == text;
    assert text[0] == 'a' && text[|text| - 1] == 'b';
  }

  /** The leftmost `---` of `a----b` is the one right after `a`. */
  lemma HyphenBeforeSeparatorPieces()
    ensures Split("a" + SuggestionSeparator + "-b", SuggestionSeparator) == ["a", "-b"]
  {
    var sep := SuggestionSeparator;
    assert SeparatorFollows("a", sep) by {
      assert ("a" + sep)[0..|sep|][0] == 'a';
    }
    SplitAtFollowingSeparator("a", sep, "-b");
    assert Split("-b", sep) == ["-b"];
  }

  /** A reply without surrounding whitespace is split as it stands. */
  lemma SplitSuggestionsOfTrimmed(text: string)
    requires IsTrimmed(text)
    ensures SplitSuggestions(text) == CleanPieces(Split(text, SuggestionSeparator))
  {
    TrimIdempotent(text);
  }

  /** Joining non-empty trimmed texts with any separator gives a trimmed text. */
  lemma {:induction false} JoinTrimmed(items: seq<string>, sep: string)
    requires |items| >= 1
    requires forall i :: 0 <= i < |items| ==> items[i] != [] && IsTrimmed(items[i])
    ensures Join(items, sep) != [] && IsTrimmed(Join(items, sep))
  {
    if |items| > 1 {
      var rest := Join(items[1..], sep);
      JoinTrimmed(items[1..], sep);
      var j := items[0] + sep + rest;
      assert j[0] == items[0][0];
      assert j[|j| - 1] == rest[|rest| - 1];
    }
  }

  /** `generateCopySuggestions`: the key is checked first, then the topic, both before
      the model is asked; a failure of the model is passed on. */
  function GenerateCopySuggestions(apiKey: string, flyerType: FlyerType, topic: string,
                                   model: CopyRequest -> TextReply): (r: Result<seq<string>, ServiceError>)
    ensures apiKey == "" ==> r == Failure(MissingApiKey)
    ensures apiKey != "" && Trim(topic) == [] ==> r == Failure(BlankTopic)
    ensures r.Failure? ==> r.error in {MissingApiKey, BlankTopic, RemoteFailure}
    ensures r.Success? ==> forall i :: 0 <= i < |r.value| ==> r.value[i] != [] && IsTrimmed(r.value[i])
    ensures r.Success? <==> apiKey != "" && Trim(topic) != [] && model(CopyRequest(flyerType, topic)).TextReply?
    ensures r.Success? ==> r.value == SplitSuggestions(model(CopyRequest(flyerType, topic)).text)
    ensures apiKey != "" && Trim(topic) != [] && model(CopyRequest(flyerType, topic)).TextFailure? ==>
              r == Failure(RemoteFailure)
  {
    if apiKey == "" then Failure(MissingApiKey)
    else if Trim(topic) == [] then Failure(BlankTopic)
    else match model(CopyRequest(flyerType, topic))
      case TextFailure => Failure(RemoteFailure)
      case TextReply(text) => Success(SplitSuggestions(text))
  }

  // ---- generateBackgroundImage ----

  /** An inline image payload: its media type and its base64 text. */
  datatype InlineData = InlineData(mimeType: string, data: string)

  /** A part of a reply: text, an inline image, both or neither. */
  datatype Part = Part(text: Option<string>, inlineData: Option<InlineData>)

  /** The model's answer to an image request: the parts of each candidate, or a failure. */
  datatype ImageReply = ImageReply(candidates: seq<seq<Part>>) | ImageFailure

  /** `data:<mediatype>;base64,<data>`, the form of section 3 of RFC 2397. */
  function DataUrl(d: InlineData): string {
    "data:" + d.mimeType + ";base64," + d.data
  }

  /** Reads a base64 data URL back into its media type and data. */
  function ParseDataUrl(s: string): (r: Option<InlineData>)
    ensures r.Some? ==> DataUrl(r.value) == s && ';' !in r.value.mimeType
  {
    if !StartsWith(s, "data:") then None
    else
      var r := ParseDataUrlBody(s[5..]);
      if r.Some? then
        DataUrlParts(r.value);
        assert s == "data:" + s[5..] by { assert s[..5] == "data:"; }
        r
      else None
  }

  lemma DataUrlParts(d: InlineData)
    ensures DataUrl(d) == "data:" + (d.mimeType + ";base64," + d.data)
  {
  }

  /** What follows `data:`: a media type, `;base64,` and the data. */
  function ParseDataUrlBody(rest: string): (r: Option<InlineData>)
    ensures r.Some? ==> rest == r.value.mimeType + ";base64," + r.value.data && ';' !in r.value.mimeType
  {
    match IndexOf(rest, ';')
    case None => None
    case Some(i) =>
      if StartsWith(rest[i..], ";base64,") then
        assert rest == rest[..i] + rest[i..][..8] + rest[i + 8..];
        Some(InlineData(rest[..i], rest[i + 8..]))
      else None
  }

  /** A media type without `;` makes the data URL readable back. */
  lemma ParseDataUrlRoundTrip(d: InlineData)
    requires ';' !in d.mimeType
    ensures ParseDataUrl(DataUrl(d)) == Some(d)
  {
    var s := DataUrl(d);
    assert StartsWith(s, "data:") && s[5..] == d.mimeType + ";base64," + d.data by {
      assert s == "data:" + (d.mimeType + ";base64," + d.data);
    }
    ParseDataUrlBodyOf(d);
  }

  lemma ParseDataUrlBodyOf(d: InlineData)
    requires ';' !in d.mimeType
    ensures ParseDataUrlBody(d.mimeType + ";base64," + d.data) == Some(d)
  {
    var m, t := d.mimeType, ";base64," + d.data;
    assert m + ";base64," + d.data == m + t;
    assert StartsWith(t, ";base64,") && t[8..] == d.data by {
      assert t[..8] == ";base64,";
    }
    assert IndexOf(m + t, ';') == Some(|m|) by {
      assert m + t == m + [';'] + t[1..];
      IndexOfFirst(m, ';', t[1..]);
    }
    var rest := m + t;
    assert rest[|m|..] == t && rest[..|m|] == m && rest[|m| + 8..] == t[8..];
  }

  /** The first `c` after a prefix free of `c`. */
  lemma {:induction false} IndexOfFirst(x: string, c: char, rest: string)
    requires c !in x
    ensures IndexOf(x + [c] + rest, c) == Some(|x|)
  {
    if x != [] {
      assert (x + [c] + rest)[1..] == x[1..] + [c] + rest;
      IndexOfFirst(x[1..], c, rest);
    }
  }

  /** The `for` loop over the parts: the first part carrying inline data, as a data URL. */
  method FirstInlineImage(parts: seq<Part>) returns (url: Option<string>)
    ensures url.None? <==> forall i :: 0 <= i < |parts| ==> parts[i].inlineData.None?
    ensures url.Some? ==> exists k :: 0 <= k < |parts| && parts[k].inlineData.Some?
                                   && (forall j :: 0 <= j < k ==> parts[j].inlineData.None?)
                                   && url.value == DataUrl(parts[k].inlineData.value)
  {
    var i := 0;
    while i < |parts|
      invariant 0 <= i <= |parts|
      invariant forall j :: 0 <= j < i ==> parts[j].inlineData.None?
    {
      if parts[i].inlineData.Some? {
        return Some(DataUrl(parts[i].inlineData.value));
      }
      i := i + 1;
    }
    return None;
  }

  /** `generateBackgroundImage`: a missing key, a failed call, a reply without candidates
      and a candidate without inline data are errors; otherwise the first image part. */
  method GenerateBackgroundImage(apiKey: string, prompt: string, model: string -> ImageReply)
    returns (r: Result<string, ServiceError>)
    ensures apiKey == "" ==> r == Failure(MissingApiKey)
    ensures apiKey != "" && model(prompt).ImageFailure? ==> r == Failure(RemoteFailure)
    ensures apiKey != "" && model(prompt) == ImageReply([]) ==> r == Failure(MalformedResponse)
    ensures r == Failure(NoImageData) <==>
              apiKey != "" && model(prompt).ImageReply? && |model(prompt).candidates| > 0
              && forall i :: 0 <= i < |model(prompt).candidates[0]| ==> model(prompt).candidates[0][i].inlineData.None?
    ensures r.Success? <==>
              apiKey != "" && model(prompt).ImageReply? && |model(prompt).candidates| > 0
              && exists i :: 0 <= i < |model(prompt).candidates[0]| && model(prompt).candidates[0][i].inlineData.Some?
    ensures r.Success? ==>
              apiKey != "" && model(prompt).ImageReply? && |model(prompt).candidates| > 0
              && var parts := model(prompt).candidates[0];
                 exists k :: 0 <= k < |parts| && parts[k].inlineData.Some?
                           && (forall j :: 0 <= j < k ==> parts[j].inlineData.None?)
                           && r.value == DataUrl(parts[k].inlineData.value)
  {
    if apiKey == "" {
      return Failure(MissingApiKey);
    }
    var reply := model(prompt);
    if reply.ImageFailure? {
      return Failure(RemoteFailure);
    }
    if |reply.candidates| == 0 {
      return Failure(MalformedResponse);
    }
    var url := FirstInlineImage(reply.candidates[0]);
    if url.None? {
      return Failure(NoImageData);
    }
    return Success(url.value);
  }
}
