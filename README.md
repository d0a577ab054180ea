# StyleMatch session and request helpers in Dafny

This project models the two pieces of the StyleMatch front-end that have
behaviour of their own:

- the session state of the top-level component (`App.tsx`) and the event
  handlers that move it. The state is three upload slots, the analysis, the
  two selection indices (-1 for "none"), the newest-first generation
  history, the active-view id (`"original"` or a history id), the compare
  flag and the display language;
- the request and response helpers of `services/gemini.ts`. These strip the
  data-URL header from an upload (`cleanBase64`), build the analysis and
  generation prompts and the two-line makeover instruction, read the first
  inline image out of a generation reply, and reject an analysis reply with
  empty text.

Layout:

- `wrappers.dfy` (`Wrappers`): `Option`, `Result` (string errors) and `Reply`.
  A `Reply` is what an awaited call to the hosted model produced: `Rejected(error)`
  for a thrown error, `Answered(value)` for a response.
- `types.dfy` (`Types`): the records of `types.ts`.
- `gemini.dfy` (`Gemini`): the helpers. The instruction builder
  (`BuildMakeoverInstructions`, appending with `+=`) and the extraction loop
  (`ExtractImage`, a `for` loop with an early return) are methods proved
  against the functions `MakeoverInstructions` and `ImageOf`. The rest are
  functions, and lemmas state what they promise.
- `app.dfy` (`App`): the class `Session`, one field per piece of state and
  one method per handler. `Valid()` is the invariant every handler keeps:
  each selection index is -1 or an index into the current analysis' list,
  and the active view is `"original"` or the id of a history item.
  `PrependKeepsNewestFirst`, `HistoryAfter` and `HistoryAfterIsNewestFirst` state the newest-first
  order. `AnalyzedSession` and `SingleLookScenario` are a client that walks
  through one upload–analyze–select–generate round.

Inputs that come from outside the code are parameters:

- the reply of the hosted model, and what `JSON.parse` made of the analysis
  text;
- the id and timestamp that `Date.now()` supplies;
- the user's answer to the reset confirmation.

Two consequences of the code worth knowing:

- A confirmed reset does not touch the language, and it does not clear the
  compare flag (`App.tsx:117-126`).
- A failed analysis leaves the previous analysis, history, active view and
  selections cleared, because the clearing happens before the request is
  sent (`App.tsx:53-57`).

An upload slot is tested as JavaScript does (`if (!images.front)`): `null`
and the empty string both count as missing (`Types.Truthy`).

## Model

| member | source | states |
|---|---|---|
| Gemini.CleanBase64 | services/gemini.ts:6-8 | `None` exactly when there is no comma (`split(',')[1]` is `undefined`); otherwise a comma-free text that stands right after the first comma and runs to the next comma or the end |
| Gemini.CleanBase64OfSplit | services/gemini.ts:6-8 | for `header + "," + payload + tail`, with no comma in header or payload and tail empty or starting with a comma, the result is exactly `payload` |
| Gemini.CleanBase64OfPngDataUrl | services/gemini.ts:131 | cleaning a generated `data:image/png;base64,` URL gives back its comma-free data |
| Gemini.AnalysisRequest | services/gemini.ts:26-32 | the analysis request is four parts: the cleaned front, left and right images as `image/jpeg`, in that order, then the language's prompt |
| Gemini.AnalysisRequestCarriesPayloads | services/gemini.ts:27-31 | uploads of the form `header,payload` send exactly their three payloads, in front, left, right order |
| Gemini.BuildMakeoverInstructions | services/gemini.ts:85-104 | appending to an empty string yields instruction 1 (hair) followed by instruction 2 (glasses), each a newline-prefixed numbered item |
| Gemini.HairInstructionNamesSelection | services/gemini.ts:86-89 | with a hairstyle, its name and its description both occur in instruction 1 and in the whole instruction block |
| Gemini.GlassesInstructionNamesSelection | services/gemini.ts:96-99 | with glasses, their style and their description both occur in instruction 2 and in the whole instruction block |
| Gemini.HairItemHead | services/gemini.ts:86-94 | the first character of instruction 1's text is one of four distinct characters, one for each case of hairstyle present or absent and EN or CN |
| Gemini.GlassesItemEndsDescribed | services/gemini.ts:97-99 | with glasses selected, instruction 2 ends in ` (description)` and the language's full stop |
| Gemini.GlassesItemEnd | services/gemini.ts:96-104 | the second-to-last character of instruction 2 is `)` when glasses are selected, and a different one (`l` in EN, `样` in CN) for the keep-original text |
| Gemini.InstructionsDependOnLanguage | services/gemini.ts:85-104 | the same selection never gives the same instructions in EN and in CN: the language flag alone picks the wording |
| Gemini.InstructionsRevealHairSelection | services/gemini.ts:86-94 | instructions with a hairstyle never equal instructions without one (change versus keep the original hairstyle), whatever the glasses |
| Gemini.InstructionsRevealGlassesSelection | services/gemini.ts:96-104 | for the same hairstyle choice, instructions with glasses never equal instructions without them |
| Gemini.GenerationRequestCarriesInstructions | services/gemini.ts:106-121 | the generation request is the cleaned front image followed by a text prompt that contains the makeover instructions verbatim |
| Gemini.ResponseParts | services/gemini.ts:129 | the first candidate's parts when candidates, the first candidate, its content and its parts are all present; the empty list (the `[]` fallback) when any of them is absent |
| Gemini.MissingPartsYieldNoImage | services/gemini.ts:129-135 | a reply missing candidates, the first candidate, its content or its parts fails with "No image generated" |
| Gemini.FirstInlinePart | services/gemini.ts:129-133 | the index of the first part that carries `inlineData`: every earlier part carries none, and `None` exactly when no part does |
| Gemini.ImageOf | services/gemini.ts:129-135 | extraction fails exactly when no part carries `inlineData`, and then with "No image generated" |
| Gemini.ImageOfSkipsTextParts | services/gemini.ts:129-133 | after parts without inline data, the first inline part gives `data:image/png;base64,` + its data, whatever follows |
| Gemini.ImageOfIgnoresLaterParts | services/gemini.ts:129-133 | once some part carries inline data, appending further parts never changes the result |
| Gemini.ExtractImage | services/gemini.ts:129-135 | the loop with its early return computes `ImageOf` of the reply's parts |
| Gemini.GenerateMakeoverImage | services/gemini.ts:75-136 | sends the generation request for the front image and selection; a rejected call fails with its error, an answered one yields the extracted image |
| Gemini.AnalysisText | services/gemini.ts:68-70 | absent or empty response text fails with "Failed to analyze images"; any other text is passed on unchanged |
| Gemini.AnalysisOutcome | services/gemini.ts:68-72 | analysis succeeds exactly when the call answered with non-empty text that parsed, and then returns the parsed result; a rejected call keeps its error, and empty text gives "Failed to analyze images" |
| App.FindIndexById | App.tsx:142 | the first history position with the given id, or `None` exactly when no item has it |
| App.OptionsOf | App.tsx:101-104 | the recorded options hold the hairstyle's `name` and the glasses' `style`, each absent exactly when nothing was selected |
| App.Toggle | App.tsx:130 | the language toggle always changes the language |
| App.ToggleTwice | App.tsx:130 | toggling the language twice is the identity |
| App.PrependKeepsNewestFirst | App.tsx:107 | putting an item no older than any other in front of a newest-first history keeps it newest first |
| App.HistoryAfterIsNewestFirst | App.tsx:107 | prepending items whose timestamps never decrease gives a history that holds them all, last one first, with timestamps non-increasing |
| App.Session.constructor | App.tsx:11-26 | the initial state: language CN, no images, no analysis, both selections -1, empty history, `"original"` active, not comparing |
| App.Session.SelectedHair | App.tsx:85 | the hairstyle at `selectedHairIdx`, or none exactly when the index is -1 |
| App.Session.SelectedGlasses | App.tsx:86 | the glasses at `selectedGlassesIdx`, or none exactly when the index is -1 |
| App.Session.GetDisplayImage | App.tsx:138-144 | the front image while comparing or when `"original"` is active; otherwise the image of the first history item with the active id; the front image when no item has that id |
| App.Session.Upload | App.tsx:194-211 | an upload sets its own slot to the new data URL and leaves the other two slots and all other state unchanged |
| App.Session.Analyze | App.tsx:45-71 | refused exactly when a slot is `null` or empty, and then no request and no state change. Otherwise analysis, history, active view and both selections are cleared, the request carries the three images, the analysis is set only on success, and images, language and compare flag are kept |
| App.Session.Generate | App.tsx:73-115 | no request without an analysis and a non-empty front image, or without any selection, and then no change. Otherwise the request carries the front image and the selected styles. Success prepends exactly one item (given id, image, timestamp, selected hair `name`/glasses `style`) before the unchanged old history, makes it active, and keeps a newest-first history newest first when no old item is newer than the timestamp; failure changes nothing |
| App.Session.ToggleHair | App.tsx:258-261 | choosing the selected hairstyle clears it to -1, choosing another replaces it; the glasses index and everything else are untouched |
| App.Session.ToggleGlasses | App.tsx:291-294 | choosing the selected glasses clears them to -1, choosing others replaces them; the hair index and everything else are untouched |
| App.Session.SelectOriginal | App.tsx:409-410 | the original thumbnail makes `"original"` the active view and changes nothing else |
| App.Session.SelectHistoryItem | App.tsx:423-426 | a history thumbnail makes its id active, and the display then shows the first item with that id |
| App.Session.PressCompare | App.tsx:340-343 | pressing compare sets only the compare flag; the display is then the front image |
| App.Session.ReleaseCompare | App.tsx:341-344 | releasing compare clears only the compare flag; the active view is as before the press |
| App.Session.Reset | App.tsx:117-126 | confirmed: images, analysis, history, active view and both selections return to their initial values; unconfirmed: nothing changes; the language is never touched |
| App.Session.ToggleLanguage | App.tsx:128-130 | the language button flips EN and CN and changes nothing else |

## Left out

- The `GoogleGenAI` client, `process.env.API_KEY`, the model names, the response schema and the image aspect ratio are left out. These are the foreign network service; its reply is an input.
- `JSON.parse` of the analysis text is not modelled: what it produced is part of the input, and a parse that throws is reported as "Malformed analysis JSON". The engine's own `SyntaxError` text is not modelled.
- `constants.ts` (the `TEXTS` table) is not part of this model. The alerts it words appear as the `Refusal` values `MissingImages` and `NoSelection`, and `console.error`, `alert` and the localized alert texts are left out.
- `confirm` is a boolean input of `Reset`, and `Date.now()` becomes the `id` and `timestamp` parameters of `Generate`. The source takes the id and the timestamp from two separate clock reads, so the model relates neither to the other.
- The `loading` flag, the loading message and the overlay are left out. So is the interleaving of overlapping requests, for which the code has no mutual exclusion: each handler runs to completion, so a reply that arrives after a newer analysis or a reset is not modelled.
- The `window.aistudio` key probe, `hasApiKey` and the key-selection screen are left out as host-capability I/O. `ImageUpload` (`FileReader`), `LoadingOverlay`, all JSX and CSS, `document.title`, the `Look n` thumbnail text and the download link are rendering.
- The handlers are modelled as callable in any state, and the layout's conditions on them are left out. Uploads are shown only before an analysis, reset only with one, and compare only when a history item is active. The `disabled` attributes of the analyze and generate buttons are left out too; the handlers' own checks, which are modelled, cover the same cases.
- App.Session.ToggleHair, App.Session.ToggleGlasses and App.Session.SelectHistoryItem require their index to lie within the rendered list. The UI creates these callbacks only from `map` over that list, and the lists are rendered only while an analysis exists.
- `inlineData.mimeType` of a generated part is ignored, as in the source, which always labels the result as PNG. A missing `data` renders as the text `undefined`, as a template literal does.
