/** The application's data model (types.ts): three closed enumerations whose
    values are their display labels, the flyer option record and an image slot. */
module Types {

  /** The five canvas presets. */
  datatype CanvasFormat = SquarePost | PortraitPost | Story | Landscape | A4Document

  /** The five art-direction themes; `AiChoice` lets the model decide. */
  datatype StyleTheme = Minimalist | Bold | Elegant | Fun | AiChoice

  /** The five flyer categories. */
  datatype FlyerType = EventAnnouncement | ProductPromotion | GrandOpening | WorkshopOrSeminar | HiringAd

  /** The string each canvas format is in the source (a string-literal union). */
  function CanvasFormatLabel(f: CanvasFormat): string {
    match f
    case SquarePost => "Instagram Post (Square 1080x1080)"
    case PortraitPost => "Instagram Post (Portrait 1080x1350)"
    case Story => "Instagram Story (1080x1920)"
    case Landscape => "Landscape (1920x1080)"
    case A4Document => "A4 Document (2480x3508)"
  }

  function StyleThemeLabel(t: StyleTheme): string {
    match t
    case Minimalist => "Minimalist & Clean"
    case Bold => "Bold & Modern"
    case Elegant => "Elegant & Corporate"
    case Fun => "Fun & Playful"
    case AiChoice => "AI Choice"
  }

  function FlyerTypeLabel(t: FlyerType): string {
    match t
    case EventAnnouncement => "Event Announcement"
    case ProductPromotion => "Product Promotion"
    case GrandOpening => "Grand Opening"
    case WorkshopOrSeminar => "Workshop or Seminar"
    case HiringAd => "Hiring Ad"
  }

  /** Distinct values have distinct labels, so a label (what a `<select>` hands back)
      names exactly one value. */
  lemma LabelsIdentifyValues()
    ensures forall f, g :: CanvasFormatLabel(f) == CanvasFormatLabel(g) ==> f == g
    ensures forall s, t :: StyleThemeLabel(s) == StyleThemeLabel(t) ==> s == t
    ensures forall a, b :: FlyerTypeLabel(a) == FlyerTypeLabel(b) ==> a == b
  {
  }

  /** The flyer configuration: ten fields, all replaced wholesale by the UI. */
  datatype FlyerOptions = FlyerOptions(
    flyerType: FlyerType,
    topic: string,
    primaryText: string,   // "Title;Subtitle;Support Line 1;Support Line 2"
    detailsBlock: string,  // items separated by '|'
    ctaText: string,
    brandName: string,
    canvasFormat: CanvasFormat,
    styleTheme: StyleTheme,
    primaryColor: string,
    accentColor: string)

  /** An image slot's content: a display name and the text used as the image source
      (an inline `data:` URL read from a file, or a stock photo's URL). */
  datatype ImageFile = ImageFile(name: string, dataUrl: string)
}
