# AI Flyer Generator — a verified model of its deterministic core

The AI Flyer Generator is a browser app. It asks a hosted language model for the
HTML of a flyer, then fills four image placeholders in that HTML with the user's
logo, speaker photo, background and QR code. It shows the result in an iframe and
exports it as PNG or JPEG. This project models, in Dafny, the logic around the
remote calls. It proves what that logic promises:

- **Types** (`types.ts`): the three closed enumerations (canvas format, style theme,
  flyer type) with their display labels, the ten-field `FlyerOptions` record and
  the `ImageFile` slot.
- **Gemini** (`services/geminiService.ts`):
  - the canvas-size table;
  - the theme descriptions;
  - parsing of the `;`-separated primary text and the `|`-separated details block;
  - the data fields of the flyer prompt;
  - removal of the `` ```html `` / `` ``` `` fences;
  - the never-rejecting `generateFlyerHtml` with its error fragment;
  - the guards and `---` split of `generateCopySuggestions`;
  - the part search and data URL (`data:<type>;base64,<data>`, the form of section 3
    of RFC 2397) of `generateBackgroundImage`.
- **Preview** (`components/FlyerPreview.tsx`):
  - the placeholder substitution, as the same four conditional steps;
  - the composed document with its `flyer-container` of exactly the canvas size;
  - the readiness state machine of the off-screen frame (a class whose methods
    are the render effect, the frame's `onload` and the timer);
  - the download handler's guards and outcome.
- **Palette** (`components/ColorPaletteSelector.tsx`): the eight presets, the
  case-insensitive selection test and the three colour handlers.
- **FlyerApp** (`App.tsx`):
  - single-field option updates and the two-field colour update;
  - the select lists;
  - the app's session state as a class, whose methods are the generate, suggestion
    and QR flows, the button-enable conditions and the suggestion labels.
- **Text** and **Wrappers**: the JavaScript string operations the source relies on
  (ECMAScript `trim`, `split`, `join`, global `replace` with a literal pattern, ASCII
  `toLowerCase`, decimal printing), with their round trips, plus `Option` and `Result`.

The model replaces I/O with parameters:

- The remote model calls are function-typed parameters returning a reply or a
  failure.
- The QR encoder (`QRCode.toDataURL`) is the session's `encoder` function, with
  `None` for an error.
- The rasteriser (`htmlToImage.toPng` / `toJpeg`) is a parameter of the download
  handler.
- The build-time key `process.env.API_KEY` is a string, where the empty string
  means unset (falsy).
- An `async` handler is split into a method that runs up to the `await` and a
  method that runs after it. A composite method runs both in order.

## Model

| member | source | states |
|---|---|---|
| Types.LabelsIdentifyValues | types.ts:1-20 | distinct values of each of the three enumerations have distinct labels, so a select's label names exactly one value |
| Gemini.CanvasDimensions | services/geminiService.ts:4-13 | both dimensions of every format are positive |
| Gemini.LabelStatesDimensions | types.ts:1-6 | the `WxH` text inside each canvas-format label is exactly the width and height the table gives it |
| Gemini.DimensionsIdentifyFormat | services/geminiService.ts:4-13 | the table is injective: two formats with the same size are the same format |
| Gemini.StyleThemeDescription | services/geminiService.ts:15-29 | definition of the art-direction sentence per theme, the default for AI Choice; properties in Gemini.StyleThemeDescriptionsDistinct |
| Gemini.StyleThemeDescriptionsDistinct | services/geminiService.ts:15-29 | every theme has a non-empty description, only `AI Choice` gets the default text, and distinct themes get distinct descriptions |
| Gemini.ParsePrimaryText | services/geminiService.ts:46 | the four parts are trimmed and free of `;` |
| Gemini.ParsePrimaryTextOfFour | services/geminiService.ts:46 | four `;`-joined segments parse to the four segments, each trimmed |
| Gemini.ParsePrimaryTextRoundTrip | services/geminiService.ts:46 | joining four trimmed, `;`-free parts with `;` and parsing gives them back |
| Gemini.ParsePrimaryTextTitleOnly | services/geminiService.ts:46 | text without `;` is the trimmed title, and the missing subtitle and support lines are empty |
| Gemini.ParsePrimaryTextOfSegments | services/geminiService.ts:46 | for any number of segments the first four are kept (trimmed), missing ones read as empty and later ones are ignored |
| Gemini.CleanPieces | services/geminiService.ts:47 | the kept items are non-empty and trimmed, and there are no more of them than pieces |
| Gemini.CleanPiecesAppend | services/geminiService.ts:47 | trimming and dropping empties distributes over concatenation, so the items keep their order |
| Gemini.CleanPiecesOfCleanItems | services/geminiService.ts:47 | items that are already non-empty and trimmed pass through unchanged |
| Gemini.ParseDetails | services/geminiService.ts:47 | every details item is non-empty, trimmed and free of the bar separator |
| Gemini.ParseDetailsRoundTrip | services/geminiService.ts:47 | joining clean items with the bar separator and parsing gives the same items in the same order |
| Gemini.CleanFences | services/geminiService.ts:112-120 | the cleaned reply is always trimmed |
| Gemini.StripFences | services/geminiService.ts:112-120 | the step-by-step reassignment of the reply text computes the cleaned reply |
| Gemini.CleanFencesUnwraps | services/geminiService.ts:112-120 | a body wrapped in the html fence and the closing fence, with blank surroundings, comes back trimmed (newlines inside the fences included) |
| Gemini.CleanFencesPlain | services/geminiService.ts:112-120 | a reply whose trim has neither fence is returned as its plain trim |
| Gemini.FlyerPrompt | services/geminiService.ts:45-102 | the prompt data carries the format's width and height, `Not provided` for an empty brand name, a variation line exactly when the instruction is non-empty and then that instruction, the parsed primary text and detail lines, and the form's other fields unchanged |
| Gemini.GenerateFlyerHtml | services/geminiService.ts:38-125 | a missing key or a failed call yields the fixed error fragment, otherwise the fence-cleaned, trimmed reply |
| Gemini.FlyerHtmlOfReply | services/geminiService.ts:107-124 | a failed call yields the error fragment and a reply yields its cleaned, trimmed text |
| Gemini.GenerateFlyerHtmlUnwraps | services/geminiService.ts:112-120 | with a key set, a fenced reply around any body resolves to that body trimmed |
| Gemini.SplitSuggestions | services/geminiService.ts:163-164 | every suggestion is non-empty, trimmed and free of `---` |
| Gemini.SplitSuggestionsOfJoin | services/geminiService.ts:163-164 | a trimmed reply joined from pieces free of `---`, each but the last not ending in `-`, yields those pieces, trimmed, empties dropped, in order |
| Gemini.SplitSuggestionsRoundTrip | services/geminiService.ts:163-164 | joining non-empty trimmed suggestions free of `---`, each but the last not ending in `-`, and splitting gives them back |
| Gemini.PieceBeforeSeparator | services/geminiService.ts:164 | a piece free of `---` that does not end in `-` cannot hold the start of the `---` that follows it |
| Gemini.SplitSuggestionsHyphenBeforeSeparator | services/geminiService.ts:164 | a suggestion ending in `-` does not survive the round trip: `a-` and `b` come back as `a` and `-b` |
| Gemini.GenerateCopySuggestions | services/geminiService.ts:127-170 | the key is checked first and then the blank topic, both before any call; a failed call is passed on; success happens exactly when both guards pass and the call answers, and its value is the split reply |
| Gemini.DataUrl | services/geminiService.ts:189 | definition of the `data:<type>;base64,<data>` text; properties in Gemini.ParseDataUrl, Gemini.ParseDataUrlRoundTrip and Gemini.GenerateBackgroundImage |
| Gemini.ParseDataUrl | services/geminiService.ts:189 | a parsed data URL prints back to the same text |
| Gemini.ParseDataUrlRoundTrip | services/geminiService.ts:189 | a payload whose media type has no `;` is read back from its data URL |
| Gemini.FirstInlineImage | services/geminiService.ts:187-191 | the loop finds no image exactly when no part carries inline data, and otherwise returns the data URL of the first part that does |
| Gemini.GenerateBackgroundImage | services/geminiService.ts:172-193 | a missing key, a failed call and a reply without candidates are errors; `no image data` exactly when no part of the first candidate carries inline data; success exactly when the key is set, the call answers with candidates and some part of the first carries inline data, and then the first image part's data URL |
| Preview.PreviewDimensions | components/FlyerPreview.tsx:18-27 | the preview's own size table agrees with the service's table for every format |
| Preview.TokensAreDistinctBracketTokens | components/FlyerPreview.tsx:57-66 | the four placeholders are distinct `[`…`]` tokens of upper-case letters and underscores |
| Preview.Substitute | components/FlyerPreview.tsx:54-69 | definition of the four conditional placeholder replacements in order; properties in Preview.ProcessHtml, Preview.SubstituteSingle, Preview.SubstituteKeepsUnset, Preview.SubstituteRemovesSet, Preview.SubstituteWithoutTokens and Preview.SubstituteIdempotent |
| Preview.ProcessHtml | components/FlyerPreview.tsx:54-69 | the four conditional reassignments of `finalHtml` compute the substitution |
| Preview.SubstituteSingle | components/FlyerPreview.tsx:54-69 | with one value set, every occurrence of its placeholder, left to right, is replaced and the text between occurrences is kept |
| Preview.SubstituteKeepsUnset | components/FlyerPreview.tsx:54-69 | a placeholder whose value is absent or empty survives substitution |
| Preview.SubstituteRemovesSet | components/FlyerPreview.tsx:54-69 | with safe values, no occurrence of a placeholder whose value is set remains |
| Preview.SubstituteWithoutTokens | components/FlyerPreview.tsx:54-69 | markup with none of the four placeholders passes through unchanged |
| Preview.SubstituteIdempotent | components/FlyerPreview.tsx:54-69 | with safe values, substituting twice gives the same as substituting once |
| Preview.SubstituteTwiceDiffersForNameLikeValue | components/FlyerPreview.tsx:57 | a value made only of placeholder-name characters can complete a placeholder around it, so a second pass changes the text again |
| Preview.MarkupOf | components/FlyerPreview.tsx:71-83 | markup read out of a document composes back to that document |
| Preview.ComposeDocument | components/FlyerPreview.tsx:71-83 | definition of the iframe document around the substituted markup; properties in Preview.MarkupOf, Preview.ComposeDocumentRoundTrip and Preview.ComposedDocumentHasContainer |
| Preview.ComposeDocumentRoundTrip | components/FlyerPreview.tsx:71-83 | the composed document holds the substituted markup verbatim inside a container of the given size |
| Preview.ComposedDocumentHasContainer | components/FlyerPreview.tsx:78 | every composed document has the `flyer-container` element |
| Preview.FlyerPreview.constructor | components/FlyerPreview.tsx:29-102 | the first render composes the document, writes it into the off-screen frame when there is one, and arms `onload` while not ready |
| Preview.FlyerPreview.Render | components/FlyerPreview.tsx:36-102 | a render sets the canvas size and the composed document; a changed document clears readiness and re-arms `onload`; an unchanged one leaves the effect's state alone; readiness never becomes true here |
| Preview.FlyerPreview.Rebuild | components/FlyerPreview.tsx:86-102 | the effect keyed on the document: a new document resets readiness before the frame is rewritten |
| Preview.FlyerPreview.FrameLoaded | components/FlyerPreview.tsx:90-94 | the frame's load starts one timer if `onload` is armed and changes nothing else |
| Preview.FlyerPreview.TimerFired | components/FlyerPreview.tsx:91-93 | a pending timer firing is the one transition that sets readiness |
| Preview.FlyerPreview.HandleDownload | components/FlyerPreview.tsx:104-148 | a missing document or container is a no-op, and a valid preview never lacks the container; otherwise one rasteriser call with the canvas size and quality 0.98 either saves `flyer-design.<format>` or alerts |
| Preview.FlyerPreview.ClickDownload | components/FlyerPreview.tsx:186-203 | a button press does nothing exactly while the source is not ready; a press on a ready source reports a missing source exactly when the frame or document is absent, never a missing container, and otherwise saves `flyer-design.<ext>` rasterised at quality 0.98 or alerts when the rasteriser fails |
| Palette.PrimariesDistinct | components/ColorPaletteSelector.tsx:4-13 | the eight presets have pairwise distinct primary colours, even ignoring case |
| Palette.IsSelected | components/ColorPaletteSelector.tsx:39 | definition of the case-insensitive match of both colours; properties in Palette.AtMostOneSelected and Palette.OnPresetClick |
| Palette.AtMostOneSelected | components/ColorPaletteSelector.tsx:4-39 | at most one preset is marked selected for any current pair |
| Palette.OnPresetClick | components/ColorPaletteSelector.tsx:44 | a preset click emits exactly its pair, after which that preset and no other is selected |
| Palette.OnPrimaryChange | components/ColorPaletteSelector.tsx:23-25 | a custom primary colour keeps the current accent |
| Palette.OnAccentChange | components/ColorPaletteSelector.tsx:27-29 | a custom accent colour keeps the current primary |
| FlyerApp.ApplyUpdate | App.tsx:41-43 | an update writes its value into its field and leaves the other nine fields as they were |
| FlyerApp.SetColors | App.tsx:156 | the colour callback replaces both colours and nothing else |
| FlyerApp.SetColorsIsTwoUpdates | App.tsx:156 | the colour callback equals a primary-colour update followed by an accent-colour update |
| FlyerApp.SelectListsEnumerate | App.tsx:14-16 | each select list names every value of its enumeration exactly once |
| FlyerApp.GeneratorFlags | App.tsx:51-54 | definition of the four `!!slot` presence flags; properties in FlyerApp.FlagsCoverFilledTokens |
| FlyerApp.FlagsCoverFilledTokens | App.tsx:51-54 | the generator is told about every slot whose placeholder the preview will fill, and the QR flag agrees exactly with a filled QR placeholder |
| FlyerApp.SuggestionLabel | App.tsx:130 | a label is the suggestion's text before its first `;`, and trimmed it is the title the primary-text parser reads |
| FlyerApp.SuggestionsEnabled | App.tsx:122 | an enabled button is never loading and never meets the service's blank-topic guard; a disabled, idle button has a blank topic |
| FlyerApp.ServiceRequest | services/geminiService.ts:40-49 | the service sends a request exactly when the key is set, and it is the flyer prompt of the current options and flags |
| FlyerApp.ServiceHtml | App.tsx:49-57 | what the service resolves to for a given reply, equal to `generateFlyerHtml` with a model giving that reply |
| FlyerApp.Session.constructor | App.tsx:19-39 | the initial options, empty slots, no QR data, the start-up placeholder and idle flags |
| FlyerApp.Session.UpdateOption | App.tsx:41-43 | only the options change, by exactly one field |
| FlyerApp.Session.ChangeColors | App.tsx:156 | only the two colours of the options change |
| FlyerApp.Session.SetLogo | App.tsx:144 | the logo slot takes the chosen image |
| FlyerApp.Session.SetSpeakerImage | App.tsx:146 | the speaker slot takes the chosen image |
| FlyerApp.Session.SetBackgroundImage | App.tsx:157 | the background slot takes the chosen image |
| FlyerApp.QrDataUrl | App.tsx:79-92 | definition of the QR effect (blank URL clears, encoder error reads as none); properties in FlyerApp.Session.SetQrCodeUrl |
| FlyerApp.Session.SetQrCodeUrl | App.tsx:79-92 | a blank URL clears the QR data URL; otherwise it becomes the encoder's output, with an error read as none |
| FlyerApp.Session.BeginGenerateFlyer | App.tsx:45-56 | loading is set and the content cleared (so the spinner shows) before the generator is called with the current options and the `!!slot` flags |
| FlyerApp.Session.FinishGenerateFlyer | App.tsx:57-63 | loading ends false, with the generator's result as content, or the fixed failure fragment on a rejection |
| FlyerApp.Session.GenerateFlyer | App.tsx:45-64 | the whole flow: the request sent exactly when the key is set, and the content the service's answer for the model's reply |
| FlyerApp.Session.PressGenerate | App.tsx:167-182 | the Generate and Variation buttons do nothing while a flyer is generating, and otherwise start the flow |
| FlyerApp.Session.PressVariation | App.tsx:175-181 | the Variation button starts the flow with the fixed different-layout instruction, or does nothing while a flyer is generating |
| FlyerApp.Session.BeginCopySuggestions | App.tsx:66-70 | the flag is set and the list cleared before the service is called with the flyer type and topic |
| FlyerApp.Session.FinishCopySuggestions | App.tsx:71-76 | the flag ends false; success replaces the list, failure leaves the list cleared at the start |
| FlyerApp.Session.GetCopySuggestions | App.tsx:66-77 | the whole flow: the list is the service's suggestions on success and empty on failure, and loading ends false |
| FlyerApp.Session.PressSuggestions | App.tsx:122 | a press starts the flow exactly when the button is enabled |
| FlyerApp.Session.ChooseSuggestion | App.tsx:128-130 | choosing a suggestion sets the whole primary text to it, and the parsed title is its trimmed label |
| Text.Trim | services/geminiService.ts:46 | `trim` gives a trimmed text, empty exactly when the input is all whitespace |
| Text.TrimPadded | services/geminiService.ts:112 | trimming removes exactly the blank surroundings of a trimmed text |
| Text.TrimIdempotent | services/geminiService.ts:120 | trimming twice is trimming once |
| Text.JoinSplit | services/geminiService.ts:46 | joining the pieces of a split with the same separator restores the text |
| Text.SplitJoin | services/geminiService.ts:46 | splitting a join of pieces free of the separator's first character (for a one-character separator, separator-free pieces) gives back the pieces |
| Text.SplitJoinFollowing | services/geminiService.ts:164 | splitting a join gives back the pieces when none contains the separator and no non-last piece, followed by the separator, lets an earlier occurrence start inside it |
| Text.SplitPiecesAvoidSeparator | services/geminiService.ts:46 | no piece of a split contains the separator, and the first piece is a prefix of the text |
| Text.ReplaceAllIsSplitJoin | components/FlyerPreview.tsx:57 | global replacement of a literal token equals splitting on it and joining with the value |
| Text.ReplaceAllAbsent | components/FlyerPreview.tsx:57 | text without the token is unchanged by replacement |
| Text.ReplaceAllLeavesNoToken | components/FlyerPreview.tsx:57-66 | a safe value never creates a placeholder, and no occurrence of the replaced one remains |
| Text.ReplaceAllKeepsOtherToken | components/FlyerPreview.tsx:57-66 | replacing one placeholder keeps an occurrence of another: a text containing the other placeholder still contains it afterwards |
| Text.ToLower | components/ColorPaletteSelector.tsx:39 | lower-casing keeps the length and lower-cases each character |
| Text.ParseNatToString | components/FlyerPreview.tsx:78 | the decimal text of a size reads back as that size |

## Left out

- The remote calls (`ai.models.generateContent`) and the prose of every prompt are
  left out. A call is a parameter returning a reply or a failure, and a flyer prompt
  is the record of the data fields it embeds (the labels of type and theme are
  represented by the enumeration values).
- `generateImagePromptSuggestion` is not part of this model. It is one remote call
  whose reply is trimmed, and nothing in the app calls it.
- The rasteriser and the QR encoder are foreign libraries. Each is a function
  parameter, and `fetchRequestInit` is not represented in the rasteriser options.
- Layout maths (the preview's scale factor and padding percentage) is floating
  point driven by `ResizeObserver`, and is left out.
- JSX rendering, the preview iframe and its `sandbox`, the anchor element, and
  `console` and `alert` are left out. The download outcome only names whether a link
  was saved or an alert raised.
- `getElementById('flyer-container')` is approximated by "the document text contains
  `id="flyer-container"`".
- Preview.FlyerPreview.Render: it does not prove that readiness stays false while a
  newer document is loading. The effect reassigns `onload` without cancelling a timer
  already started, so a stale timer can set readiness early. The model keeps the
  count of pending timers and proves only the reset and the set-on-timer transitions.
- JavaScript replacement patterns (`$&`, `$1`, …) in image values are not modelled.
  A value is inserted literally.
- Preview.SubstituteIdempotent: it is proved for safe values (no brackets, and at
  least one character outside `A`–`Z` and `_`, as every data URL and web address
  has), not for every value free of the four placeholders. The stronger claim is
  false: `Preview.SubstituteTwiceDiffersForNameLikeValue` shows the markup
  `[[LOGO_IMAGE_URL]_IMAGE_URL]` with the logo `LOGO`, where the first pass builds a
  new placeholder.
- Text.ToLower: ASCII only. The colours compared are hex codes, and full Unicode case
  mapping is not modelled.
- `async` interleavings are not modelled. A handler's start and finish are separate
  methods, and what the user may do between them is not constrained beyond the
  disabled buttons.
- The start-up effect (App.tsx:95-98) is `BeginGenerateFlyer("")` on the initial
  session and is not a separate member.
- FlyerApp.Session.FinishGenerateFlyer: its rejection branch is unreachable in the
  app, because `generateFlyerHtml` catches every error. It is kept because App.tsx
  handles it.
- FlyerApp.Session.GenerateFlyer: it takes the model's reply rather than the model,
  and ties its content to `generateFlyerHtml` through `FlyerApp.ServiceHtml`.
- components/BrandKitManager.tsx and components/BackgroundSelector.tsx are not part
  of this model. They read files asynchronously and reset DOM inputs. Their effect on
  the session is a slot setter (`SetLogo`, `SetSpeakerImage`, `SetBackgroundImage`):
  a missing file passes `None`, and a stock picture passes an `ImageFile` whose name
  and data URL are both its web address.
