/** The application shell (App.tsx): the session's state slots, the single-field option
    updates, the generate / copy-suggestion / QR flows as transitions over the loading
    flags, the content string and the suggestion list, and the enable conditions of the
    buttons. The remote model and the QR encoder are parameters. */
module FlyerApp {
  import opened Wrappers
  import opened Text
  import opened Types
  import opened Gemini
  import Preview
  import Palette

  // ---- Option records ----

  /** The ten fields of the option record, by name. */
  datatype OptionField =
    | FlyerTypeField | TopicField | PrimaryTextField | DetailsBlockField | CtaTextField
    | BrandNameField | CanvasFormatField | StyleThemeField | PrimaryColorField | AccentColorField

  /** `updateOption(key, value)`: one field and its new value. */
  datatype OptionUpdate =
    | SetFlyerType(flyerType: FlyerType)
    | SetTopic(topic: string)
    | SetPrimaryText(primaryText: string)
    | SetDetailsBlock(detailsBlock: string)
    | SetCtaText(ctaText: string)
    | SetBrandName(brandName: string)
    | SetCanvasFormat(canvasFormat: CanvasFormat)
    | SetStyleTheme(styleTheme: StyleTheme)
    | SetPrimaryColor(primaryColor: string)
    | SetAccentColor(accentColor: string)

  function FieldOf(u: OptionUpdate): OptionField {
    match u
    case SetFlyerType(_) => FlyerTypeField
    case SetTopic(_) => TopicField
    case SetPrimaryText(_) => PrimaryTextField
    case SetDetailsBlock(_) => DetailsBlockField
    case SetCtaText(_) => CtaTextField
    case SetBrandName(_) => BrandNameField
    case SetCanvasFormat(_) => CanvasFormatField
    case SetStyleTheme(_) => StyleThemeField
    case SetPrimaryColor(_) => PrimaryColorField
    case SetAccentColor(_) => AccentColorField
  }

  /** Field `f` is the same in both records. */
  predicate FieldAgrees(o: FlyerOptions, r: FlyerOptions, f: OptionField) {
    match f
    case FlyerTypeField => o.flyerType == r.flyerType
    case TopicField => o.topic == r.topic
    case PrimaryTextField => o.primaryText == r.primaryText
    case DetailsBlockField => o.detailsBlock == r.detailsBlock
    case CtaTextField => o.ctaText == r.ctaText
    case BrandNameField => o.brandName == r.brandName
    case CanvasFormatField => o.canvasFormat == r.canvasFormat
    case StyleThemeField => o.styleTheme == r.styleTheme
    case PrimaryColorField => o.primaryColor == r.primaryColor
    case AccentColorField => o.accentColor == r.accentColor
  }

  /** The record holds the update's value in the update's field. */
  predicate Written(r: FlyerOptions, u: OptionUpdate) {
    match u
    case SetFlyerType(v) => r.flyerType == v
    case SetTopic(v) => r.topic == v
    case SetPrimaryText(v) => r.primaryText == v
    case SetDetailsBlock(v) => r.detailsBlock == v
    case SetCtaText(v) => r.ctaText == v
    case SetBrandName(v) => r.brandName == v
    case SetCanvasFormat(v) => r.canvasFormat == v
    case SetStyleTheme(v) => r.styleTheme == v
    case SetPrimaryColor(v) => r.primaryColor == v
    case SetAccentColor(v) => r.accentColor == v
  }

  /** `{ ...prev, [key]: value }`: the named field takes the value, every other field
      keeps its old one. */
  function ApplyUpdate(o: FlyerOptions, u: OptionUpdate): (r: FlyerOptions)
    ensures Written(r, u)
    ensures forall f :: f != FieldOf(u) ==> FieldAgrees(o, r, f)
  {
    match u
    case SetFlyerType(v) => o.(flyerType := v)
    case SetTopic(v) => o.(topic := v)
    case SetPrimaryText(v) => o.(primaryText := v)
    case SetDetailsBlock(v) => o.(detailsBlock := v)
    case SetCtaText(v) => o.(ctaText := v)
    case SetBrandName(v) => o.(brandName := v)
    case SetCanvasFormat(v) => o.(canvasFormat := v)
    case SetStyleTheme(v) => o.(styleTheme := v)
    case SetPrimaryColor(v) => o.(primaryColor := v)
    case SetAccentColor(v) => o.(accentColor := v)
  }

  /** The palette's `onColorChange`: both colours replaced together, nothing else. */
  function SetColors(o: FlyerOptions, pair: Palette.ColorPair): (r: FlyerOptions)
    ensures r.primaryColor == pair.primary && r.accentColor == pair.accent
    ensures forall f :: f != PrimaryColorField && f != AccentColorField ==> FieldAgrees(o, r, f)
  {
    o.(primaryColor := pair.primary, accentColor := pair.accent)
  }

  /** A colour-pair change is the two single-field updates one after the other. */
  lemma SetColorsIsTwoUpdates(o: FlyerOptions, pair: Palette.ColorPair)
    ensures SetColors(o, pair) == ApplyUpdate(ApplyUpdate(o, SetPrimaryColor(pair.primary)), SetAccentColor(pair.accent))
  {
  }

  // ---- Select lists ----

  const FlyerTypes: seq<FlyerType> := [EventAnnouncement, ProductPromotion, GrandOpening, WorkshopOrSeminar, HiringAd]
  const CanvasFormats: seq<CanvasFormat> := [SquarePost, PortraitPost, Story, Landscape, A4Document]
  const StyleThemes: seq<StyleTheme> := [Minimalist, Bold, Elegant, Fun, AiChoice]

  /** Each select list offers every value of its enumeration exactly once. */
  lemma SelectListsEnumerate()
    ensures forall t: FlyerType :: t in FlyerTypes
    ensures forall i, j :: 0 <= i < j < |FlyerTypes| ==> FlyerTypes[i] != FlyerTypes[j]
    ensures forall f: CanvasFormat :: f in CanvasFormats
    ensures forall i, j :: 0 <= i < j < |CanvasFormats| ==> CanvasFormats[i] != CanvasFormats[j]
    ensures forall s: StyleTheme :: s in StyleThemes
    ensures forall i, j :: 0 <= i < j < |StyleThemes| ==> StyleThemes[i] != StyleThemes[j]
  {
    forall t: FlyerType ensures t in FlyerTypes {
      match t
      case EventAnnouncement => assert FlyerTypes[0] == t;
      case ProductPromotion => assert FlyerTypes[1] == t;
      case GrandOpening => assert FlyerTypes[2] == t;
      case WorkshopOrSeminar => assert FlyerTypes[3] == t;
      case HiringAd => assert FlyerTypes[4] == t;
    }
    forall f: CanvasFormat ensures f in CanvasFormats {
      match f
      case SquarePost => assert CanvasFormats[0] == f;
      case PortraitPost => assert CanvasFormats[1] == f;
      case Story => assert CanvasFormats[2] == f;
      case Landscape => assert CanvasFormats[3] == f;
      case A4Document => assert CanvasFormats[4] == f;
    }
    forall s: StyleTheme ensures s in StyleThemes {
      match s
      case Minimalist => assert StyleThemes[0] == s;
      case Bold => assert StyleThemes[1] == s;
      case Elegant => assert StyleThemes[2] == s;
      case Fun => assert StyleThemes[3] == s;
      case AiChoice => assert StyleThemes[4] == s;
    }
  }

  // ---- Constants of the session ----

  const DefaultOptions: FlyerOptions := FlyerOptions(
    EventAnnouncement,
    "AI & The Future of Design",
    "Innovate & Create;A Seminar on AI-Powered Design;Featuring John Doe, CEO of TechCorp;July 20th, 2024",
    "Date: July 20, 2024 | Time: 10:00 AM - 4:00 PM | Location: Grand Tech Hall | RSVP: yourwebsite.com",
    "Register Now",
    "",
    SquarePost,
    Bold,
    "#6366F1",
    "#F472B6")

  /** The placeholder shown before the first flyer arrives. */
  const InitialContent: string :=
    "<div class=\"flex items-center justify-center h-full bg-gray-100\"><p>Click \"Generate Flyer\" to start!</p></div>"

  /** What the content becomes when the generator rejects. */
  const GenerateFailedContent: string :=
    "<div class=\"p-4 text-red-500\">Failed to generate flyer. See console for details.</div>"

  /** The instruction the "Generate Variation" button passes. */
  const VariationInstruction: string := "Try a completely different layout and style."

  // ---- Derived values ----

  /** The four presence flags handed to the generator: `!!slot`. An image record is
      always truthy; the QR data URL is truthy only when it is a non-empty text. */
  function GeneratorFlags(logo: Option<ImageFile>, speakerImage: Option<ImageFile>,
                          backgroundImage: Option<ImageFile>, qrCodeDataUrl: Option<string>): AssetFlags {
    AssetFlags(logo.Some?, speakerImage.Some?, backgroundImage.Some?,
               qrCodeDataUrl.Some? && qrCodeDataUrl.value != "")
  }

  /** The generator is told about a slot whenever the preview will fill its token; for
      the QR code the two agree exactly, for an image slot they differ only when the
      image's data URL is empty. */
  lemma FlagsCoverFilledTokens(logo: Option<ImageFile>, speakerImage: Option<ImageFile>,
                               backgroundImage: Option<ImageFile>, qrCodeDataUrl: Option<string>)
    ensures var flags := GeneratorFlags(logo, speakerImage, backgroundImage, qrCodeDataUrl);
            var a := Preview.Assets(logo, speakerImage, backgroundImage, qrCodeDataUrl);
            && (Preview.SlotValue(a, Preview.LogoSlot) != "" ==> flags.hasLogo)
            && (Preview.SlotValue(a, Preview.SpeakerSlot) != "" ==> flags.hasSpeakerImage)
            && (Preview.SlotValue(a, Preview.BackgroundSlot) != "" ==> flags.hasBackgroundImage)
            && (Preview.SlotValue(a, Preview.QrSlot) != "" <==> flags.hasQrCode)
            && (flags.hasLogo && logo.value.dataUrl != "" ==> Preview.SlotValue(a, Preview.LogoSlot) != "")
  {
  }

  /** The QR effect: a blank URL clears the data URL; otherwise the encoder's result,
      with an encoder error read as no data URL. */
  function QrDataUrl(encoder: string -> Option<string>, url: string): Option<string> {
    if Trim(url) == [] then None else encoder(url)
  }

  /** The label of a suggestion button: `s.split(';')[0]`. It is the text up to the
      first `;`, so trimmed it is the title the primary-text parser reads. */
  function SuggestionLabel(s: string): (caption: string)
    ensures StartsWith(s, caption) && !Contains(caption, ";")
    ensures |caption| < |s| ==> s[|caption|] == ';'
    ensures Trim(caption) == ParsePrimaryText(s).title
  {
    SplitPiecesAvoidSeparator(s, ";");
    JoinSplit(s, ";");
    var parts := Split(s, ";");
    assert |parts| > 1 ==> s == parts[0] + ";" + Join(parts[1..], ";");
    parts[0]
  }

  /** The suggestion button is enabled only when no request is running and the topic is
      not blank, so a press never meets the service's blank-topic guard. */
  function SuggestionsEnabled(isCopyLoading: bool, topic: string): (enabled: bool)
    ensures enabled ==> !isCopyLoading
    ensures enabled ==> forall key, t, model :: GenerateCopySuggestions(key, t, topic, model) != Failure(BlankTopic)
    ensures !enabled && !isCopyLoading ==> forall key, t, model :: key != "" ==> GenerateCopySuggestions(key, t, topic, model) == Failure(BlankTopic)
  {
    !isCopyLoading && Trim(topic) != []
  }

  /** The request the service sends to the model, if it gets that far. */
  function ServiceRequest(apiKey: string, o: FlyerOptions, assets: AssetFlags, variation: string): (r: Option<FlyerRequest>)
    ensures r.None? <==> apiKey == ""
    ensures r.Some? ==> r.value == FlyerPrompt(o, assets, variation)
  {
    if apiKey == "" then None else Some(FlyerPrompt(o, assets, variation))
  }

  /** What the service resolves to, given the model's reply to its request; the same
      as `GenerateFlyerHtml` for a model that gives that reply. */
  function ServiceHtml(apiKey: string, reply: TextReply): (html: string)
    ensures forall o, assets, variation, model: FlyerRequest -> TextReply ::
              model(FlyerPrompt(o, assets, variation)) == reply ==>
              GenerateFlyerHtml(apiKey, o, assets, variation, model) == html
  {
    if apiKey == "" then ErrorFragment else FlyerHtmlOfReply(reply)
  }

  /** A request the generator is started with. */
  datatype FlyerCall = FlyerCall(options: FlyerOptions, assets: AssetFlags, variation: string)

  /** The session state of the app component. `apiKey` is the build-time key and
      `encoder` stands for `QRCode.toDataURL` (None for an error). */
  class Session {
    const apiKey: string
    const encoder: string -> Option<string>
    var options: FlyerOptions
    var logo: Option<ImageFile>
    var speakerImage: Option<ImageFile>
    var backgroundImage: Option<ImageFile>
    var qrCodeUrl: string
    var qrCodeDataUrl: Option<string>
    var htmlContent: string
    var isLoading: bool
    var isCopyLoading: bool
    var copySuggestions: seq<string>

    /** The QR data URL always follows the URL, and the suggestion list is empty while
        a suggestion request is running. */
    ghost predicate Valid()
      reads this
    {
      && qrCodeDataUrl == QrDataUrl(encoder, qrCodeUrl)
      && (isCopyLoading ==> copySuggestions == [])
    }

    /** The initial state slots, with the QR effect's first run applied. */
    constructor(apiKey: string, encoder: string -> Option<string>)
      ensures Valid()
      ensures this.apiKey == apiKey && this.encoder == encoder
      ensures options == DefaultOptions
      ensures logo.None? && speakerImage.None? && backgroundImage.None?
      ensures qrCodeUrl == "" && qrCodeDataUrl.None?
      ensures htmlContent == InitialContent && !isLoading && !isCopyLoading && copySuggestions == []
    {
      this.apiKey := apiKey;
      this.encoder := encoder;
      options := DefaultOptions;
      logo, speakerImage, backgroundImage := None, None, None;
      qrCodeUrl := "";
      qrCodeDataUrl := None;
      htmlContent := InitialContent;
      isLoading, isCopyLoading := false, false;
      copySuggestions := [];
    }

    function Flags(): AssetFlags
      reads this
    {
      GeneratorFlags(logo, speakerImage, backgroundImage, qrCodeDataUrl)
    }

    /** The large spinner replaces the preview while generating with no content. */
    predicate ShowsSpinner()
      reads this
    {
      isLoading && htmlContent == ""
    }

    /** `updateOption`. */
    method UpdateOption(u: OptionUpdate)
      requires Valid()
      modifies this
      ensures Valid()
      ensures options == ApplyUpdate(old(options), u)
      ensures unchanged(this`logo, this`speakerImage, this`backgroundImage, this`qrCodeUrl, this`qrCodeDataUrl)
      ensures unchanged(this`htmlContent, this`isLoading, this`isCopyLoading, this`copySuggestions)
    {
      options := ApplyUpdate(options, u);
    }

    /** The colour-pair handler passed to the palette picker. */
    method ChangeColors(pair: Palette.ColorPair)
      requires Valid()
      modifies this
      ensures Valid()
      ensures options == SetColors(old(options), pair)
      ensures unchanged(this`logo, this`speakerImage, this`backgroundImage, this`qrCodeUrl, this`qrCodeDataUrl)
      ensures unchanged(this`htmlContent, this`isLoading, this`isCopyLoading, this`copySuggestions)
    {
      options := SetColors(options, pair);
    }

    /** The three image slots' setters; a cleared file input passes None. */
    method SetLogo(image: Option<ImageFile>)
      requires Valid()
      modifies this`logo
      ensures Valid() && logo == image
    {
      logo := image;
    }

    method SetSpeakerImage(image: Option<ImageFile>)
      requires Valid()
      modifies this`speakerImage
      ensures Valid() && speakerImage == image
    {
      speakerImage := image;
    }

    method SetBackgroundImage(image: Option<ImageFile>)
      requires Valid()
      modifies this`backgroundImage
      ensures Valid() && backgroundImage == image
    {
      backgroundImage := image;
    }

    /** Typing a QR URL, followed by the effect it triggers. */
    method SetQrCodeUrl(url: string)
      requires Valid()
      modifies this`qrCodeUrl, this`qrCodeDataUrl
      ensures Valid()
      ensures qrCodeUrl == url
      ensures Trim(url) == [] ==> qrCodeDataUrl.None?
      ensures Trim(url) != [] ==> qrCodeDataUrl == encoder(url)
    {
      qrCodeUrl := url;
      if Trim(url) != [] {
        qrCodeDataUrl := encoder(url);
      } else {
        qrCodeDataUrl := None;
      }
    }

    /** The synchronous start of `handleGenerateFlyer`: loading on, content cleared (so
        the spinner shows), and the call the generator receives. */
    method BeginGenerateFlyer(variation: string) returns (call: FlyerCall)
      requires Valid()
      modifies this`isLoading, this`htmlContent
      ensures Valid()
      ensures isLoading && htmlContent == "" && ShowsSpinner()
      ensures call == FlyerCall(options, Flags(), variation)
    {
      isLoading := true;
      htmlContent := "";
      call := FlyerCall(options, Flags(), variation);
    }

    /** The end of `handleGenerateFlyer`: the generator's text, or the failure fragment
        when it rejects (None); loading off either way. */
    method FinishGenerateFlyer(outcome: Option<string>)
      requires Valid()
      modifies this`isLoading, this`htmlContent
      ensures Valid()
      ensures !isLoading
      ensures htmlContent == if outcome.Some? then outcome.value else GenerateFailedContent
    {
      if outcome.Some? {
        htmlContent := outcome.value;
      } else {
        htmlContent := GenerateFailedContent;
      }
      isLoading := false;
    }

    /** The whole flow against the service, which never rejects. `reply` is what the
        model answers to the request the service builds (returned, None when the key
        check fails first); the content ends as the service's result. */
    method GenerateFlyer(variation: string, reply: TextReply) returns (request: Option<FlyerRequest>)
      requires Valid()
      modifies this`isLoading, this`htmlContent
      ensures Valid()
      ensures !isLoading
      ensures request == ServiceRequest(apiKey, options, Flags(), variation)
      ensures htmlContent == ServiceHtml(apiKey, reply)
    {
      var call := BeginGenerateFlyer(variation);
      request := ServiceRequest(apiKey, call.options, call.assets, call.variation);
      FinishGenerateFlyer(Some(ServiceHtml(apiKey, reply)));
    }

    /** A press of "Generate Flyer" (variation "") or "Generate Variation": ignored while
        a flyer is generating, since both buttons are disabled then. */
    method PressGenerate(variation: string) returns (call: Option<FlyerCall>)
      requires Valid()
      modifies this`isLoading, this`htmlContent
      ensures Valid()
      ensures old(isLoading) <==> call.None?
      ensures old(isLoading) ==> htmlContent == old(htmlContent) && isLoading
      ensures call.Some? ==> call.value == FlyerCall(options, Flags(), variation) && ShowsSpinner()
    {
      if isLoading {
        return None;
      }
      var started := BeginGenerateFlyer(variation);
      call := Some(started);
    }

    /** The "Generate Variation" button: the same flow, carrying the fixed instruction
        that asks for a different layout and style. */
    method PressVariation() returns (call: Option<FlyerCall>)
      requires Valid()
      modifies this`isLoading, this`htmlContent
      ensures Valid()
      ensures old(isLoading) <==> call.None?
      ensures old(isLoading) ==> htmlContent == old(htmlContent) && isLoading
      ensures call.Some? ==> call.value.variation == VariationInstruction && call.value.variation != ""
      ensures call.Some? ==> call.value == FlyerCall(options, Flags(), VariationInstruction) && ShowsSpinner()
    {
      call := PressGenerate(VariationInstruction);
    }

    /** The synchronous start of `handleGetCopySuggestions`. */
    method BeginCopySuggestions() returns (request: CopyRequest)
      requires Valid()
      modifies this`isCopyLoading, this`copySuggestions
      ensures Valid()
      ensures isCopyLoading && copySuggestions == []
      ensures request == CopyRequest(options.flyerType, options.topic)
    {
      isCopyLoading := true;
      copySuggestions := [];
      request := CopyRequest(options.flyerType, options.topic);
    }

    /** The end of `handleGetCopySuggestions`: the list on success, the list left as it
        was on failure (empty, when a request was running); loading off either way. */
    method FinishCopySuggestions(result: Result<seq<string>, ServiceError>)
      requires Valid()
      modifies this`isCopyLoading, this`copySuggestions
      ensures Valid()
      ensures !isCopyLoading
      ensures result.Success? ==> copySuggestions == result.value
      ensures result.Failure? ==> copySuggestions == old(copySuggestions)
      ensures result.Failure? && old(isCopyLoading) ==> copySuggestions == []
    {
      if result.Success? {
        copySuggestions := result.value;
      }
      isCopyLoading := false;
    }

    /** The whole suggestion flow against the service. */
    method GetCopySuggestions(model: CopyRequest -> TextReply)
      requires Valid()
      modifies this`isCopyLoading, this`copySuggestions
      ensures Valid()
      ensures !isCopyLoading
      ensures var r := GenerateCopySuggestions(apiKey, options.flyerType, options.topic, model);
              copySuggestions == if r.Success? then r.value else []
    {
      var request := BeginCopySuggestions();
      var r := GenerateCopySuggestions(apiKey, request.flyerType, request.topic, model);
      FinishCopySuggestions(r);
    }

    /** A press of "Get AI Suggestions": ignored while disabled. */
    method PressSuggestions() returns (request: Option<CopyRequest>)
      requires Valid()
      modifies this`isCopyLoading, this`copySuggestions
      ensures Valid()
      ensures request.Some? <==> SuggestionsEnabled(old(isCopyLoading), options.topic)
      ensures request.None? ==> isCopyLoading == old(isCopyLoading) && copySuggestions == old(copySuggestions)
      ensures request.Some? ==> isCopyLoading && copySuggestions == [] && request.value == CopyRequest(options.flyerType, options.topic)
    {
      if !SuggestionsEnabled(isCopyLoading, options.topic) {
        return None;
      }
      var started := BeginCopySuggestions();
      request := Some(started);
    }

    /** Choosing suggestion `i` makes it the whole primary text; its button's label,
        trimmed, is then the parsed title. */
    method ChooseSuggestion(i: nat)
      requires Valid() && i < |copySuggestions|
      modifies this`options
      ensures Valid()
      ensures options == ApplyUpdate(old(options), SetPrimaryText(copySuggestions[i]))
      ensures ParsePrimaryText(options.primaryText).title == Trim(SuggestionLabel(copySuggestions[i]))
    {
      options := ApplyUpdate(options, SetPrimaryText(copySuggestions[i]));
    }
  }
}
