# VisionQuest workbench: a Dafny model of its deterministic core

The VisionQuest workbench uploads an image to a hosted vision model. It gets
back labelled boxes with confidence scores and draws them over the image.
Detection itself happens remotely. This project models the application logic
around that call:

- **Data contract** (`types.dfy`, module `Types`): `Detection` holds a
  label, a confidence and the `box_2d` tuple `(ymin, xmin, ymax, xmax)` on
  the 0..1000 grid. `BoundingBox` is the named-field form of that tuple.
  `AppState` has four fields; `image` and `error` are optional.
- **Overlay projection** (`overlay.dfy`, module `Overlay`): each box
  becomes a pixel `top/left/width/height` for the displayed container.
  Colours cycle through a six-entry palette by index. The badge reads
  `label (NN%)`.
- **Display arithmetic** (`jsmath.dfy`, module `JsMath`): `Math.round`,
  the percentage `Math.round(confidence * 100)`, and the decimal text an
  integer renders as.
- **Results order** (`sort.dfy`, module `ConfidenceSort`): the stable sort
  by descending confidence used by the results list.
- **Data-URL payload** (`textsplit.dfy`, module `TextSplit`):
  `split(',')[1]` on the upload. Per section 3 of RFC 2397 the upload is
  `data:[<mediatype>][;base64],<data>`.
- **Detection client** (`client.dfy`, module `DetectionClient`): builds the
  fixed request shape and response schema. Blank replies become errors, and
  every failure reaches the caller.
- **View state** (`app.dfy`, module `App`): upload, run start, success,
  failure and clear as pure updates. Also the guards for the overlay and the
  Analyze and Export buttons, and the sorted results list.

The model uses these abstractions:

- Pixel values are exact `real`s. Container width and height are naturals.
- The remote service is a parameter `service: Request -> Reply`, and
  `JSON.parse` is a parameter `parse`. So nothing touches the network.
- JavaScript truthiness is written out. `!state.image` and `!response.text`
  also hold for the empty string, so `HasImage` and `IsBlank` treat `""`
  like an absent value.

Behaviour of the code at its edges:

- The overlay has no guard for a zero-sized container. Every frame is
  still drawn and collapses to the origin (`Overlay.ZeroContainerCollapses`).
- Inverted boxes give negative extents. The code does not clamp them
  (`Overlay.InvertedBoxNegativeExtent`).
- The overlay sits inside the branch that shows an image (App.tsx:108), so
  `OverlayShown` also needs an image.
- Pressing Analyze and the awaited call settling are two separate steps
  (`App.RunStart`, `App.Finish`), so the states with a run in flight are
  among the reachable ones.
- The code applies a settling reply to whatever state is current
  (App.tsx:55-65), and Clear is never disabled (App.tsx:167-173). So
  upload, Analyze, Clear and then a reply with detections leaves detections
  with no image: Export is enabled and the overlay is hidden though nothing
  is loading (`App.SettleAsWritten`, `App.LateReplyAfterClear`). The model's
  step `App.Finish` drops such a late reply (see "## Findings").
- Only in the states reachable under that step does the overlay condition
  reduce to "not loading and detections non-empty", a run in flight
  included (`App.ReachableGuards`).

## Model

| member | source | states |
|---|---|---|
| Types.ToBoundingBox | types.ts:2-12 | the record's fields ymin, xmin, ymax, xmax, written back in that order, give the `box_2d` tuple |
| Types.ToBox2d | types.ts:2-12 | reading the written tuple back gives the same record: record → tuple → record is the identity |
| Types.TupleRecordRoundTrip | types.ts:2-12 | tuple → record → tuple is the identity, so the two shapes carry the same information |
| JsMath.Round | components/BoundingBoxOverlay.tsx:51 | `Math.round(x)` is the integer n with n − ½ ≤ x < n + ½ (halves round up) |
| JsMath.RoundMonotone | components/BoundingBoxOverlay.tsx:51 | rounding never reverses the order of two inputs |
| JsMath.Percent | components/BoundingBoxOverlay.tsx:51 | the shown percentage is within ½ of confidence·100, and lies in [0, 100] when confidence is in [0, 1] |
| JsMath.PercentMonotone | App.tsx:219 | a higher confidence never shows a lower percentage |
| JsMath.NatToDecimal | components/BoundingBoxOverlay.tsx:51 | a natural renders as at least one decimal digit in canonical form: zero is exactly "0" and no other number starts with a zero |
| JsMath.NatDecimalRoundTrip | components/BoundingBoxOverlay.tsx:51 | reading the rendered digits gives back the number |
| JsMath.IntToDecimal | components/BoundingBoxOverlay.tsx:51 | an integer renders as digits with a leading minus exactly when it is negative, and the digits carry no leading zero |
| JsMath.IntDecimalRoundTrip | components/BoundingBoxOverlay.tsx:51 | the rendered text of an integer parses back to that integer |
| Overlay.Project | components/BoundingBoxOverlay.tsx:24-30 | top = ymin·H/1000, left = xmin·W/1000, width = (xmax−xmin)·W/1000, height = (ymax−ymin)·H/1000; the right and bottom edges sit at xmax·W/1000 and ymax·H/1000 |
| Overlay.FullBoxFillsContainer | components/BoundingBoxOverlay.tsx:27-30 | the box [0,0,1000,1000] projects to {0, 0, W, H} |
| Overlay.QuarterBoxExample | components/BoundingBoxOverlay.tsx:27-30 | [500,500,1000,1000] on a 200×200 container projects to {100, 100, 100, 100} |
| Overlay.WellFormedStaysInside | components/BoundingBoxOverlay.tsx:27-30 | a well-formed grid box gives 0 ≤ top, 0 ≤ height, top+height ≤ H and the same on the horizontal axis |
| Overlay.InvertedBoxNegativeExtent | components/BoundingBoxOverlay.tsx:29-30 | height is negative iff H > 0 and ymax < ymin, and zero when ymax = ymin; likewise for width; nothing is clamped |
| Overlay.ZeroContainerCollapses | components/BoundingBoxOverlay.tsx:27-30 | a zero-sized container gives an all-zero frame; there is no division by the size and no error case |
| Overlay.ProjectInjective | components/BoundingBoxOverlay.tsx:27-30 | on a container of positive size, equal frames come from equal boxes |
| Overlay.ColorAt | components/BoundingBoxOverlay.tsx:32 | the colour at any index is a palette entry |
| Overlay.ColorPeriodic | components/BoundingBoxOverlay.tsx:32 | detections i and i+6 get the same colour |
| Overlay.SameColorIffSameResidue | components/BoundingBoxOverlay.tsx:12-19 | two indices share a colour iff they agree modulo six, so the six palette entries are distinct |
| Overlay.Badge | components/BoundingBoxOverlay.tsx:51 | the badge is the label, then " (", then the rendered percentage, then "%)" |
| Overlay.BadgeShowsPercent | components/BoundingBoxOverlay.tsx:51 | for every confidence the number in the badge reads back as the percentage; for a confidence in [0, 1] it lies within [0, 100] |
| Overlay.Render | components/BoundingBoxOverlay.tsx:23-32 | exactly one frame per detection, in input order; frame i has exactly the rectangle `Project` gives for box i on the container (top, left, width and height), the badge of detection i and colour `palette[i mod 6]` |
| Overlay.RenderPrefix | components/BoundingBoxOverlay.tsx:23 | each frame depends only on its own detection and index: rendering a prefix gives a prefix of the frames |
| ConfidenceSort.Insert | App.tsx:204 | inserting into a non-increasing list keeps it non-increasing and adds exactly the one element |
| ConfidenceSort.SortByConfidence | App.tsx:204 | the listed order is a permutation of the stored detections, ordered by non-increasing confidence |
| ConfidenceSort.InsertKeepsRuns | App.tsx:204 | an insertion puts the element at the front of its own confidence run and changes no other run |
| ConfidenceSort.SortIsStable | App.tsx:204 | for every confidence value, the detections with that value keep their stored relative order |
| ConfidenceSort.RunsDetermineSorted | App.tsx:204 | two non-increasing lists with the same run for every confidence value are equal |
| ConfidenceSort.SortCharacterized | App.tsx:204 | any non-increasing, stable reordering of the detections equals the sort's result |
| ConfidenceSort.TieExample | App.tsx:204 | [a 0.5, b 0.5, c 0.9] is listed as [c, a, b] |
| TextSplit.Split | services/geminiService.ts:9 | `split` gives at least one piece and no piece holds the separator; joining restores the input; there is one piece iff the separator is absent |
| TextSplit.SplitAfterFirst | services/geminiService.ts:9 | text up to the first separator is the first piece, and the rest is split the same way |
| TextSplit.FirstPiece | services/geminiService.ts:9 | a separator-free prefix that ends at a separator or at the end of the input is the first piece |
| TextSplit.JoinSplitRoundTrip | services/geminiService.ts:9 | splitting the join of separator-free pieces gives the pieces back |
| TextSplit.SecondPiece | services/geminiService.ts:9 | the payload is `undefined` iff the input has no comma, and it never contains a comma |
| TextSplit.SecondPieceIsAfterFirstComma | services/geminiService.ts:9 | the payload is the text after the first comma, up to the next comma or the end |
| TextSplit.Base64DataUrl | services/geminiService.ts:8 | a base64 data URL starts with "data:" and ends with its encoded body |
| TextSplit.DataUrlPayload | services/geminiService.ts:8-9 | for a base64 data URL whose media type holds no comma, the payload is the whole encoded body |
| DetectionClient.ResponseSchemaMatchesDetection | services/geminiService.ts:33-53 | the reply schema is an array of objects that declares exactly label, confidence and box_2d and requires all three |
| DetectionClient.BuildRequest | services/geminiService.ts:16-55 | each request names gemini-3-flash-preview and sends the prompt and then the inline image as image/jpeg; it asks for JSON under the fixed schema; the image data is exactly `split(',')[1]` of the upload, absent iff the upload has no comma |
| DetectionClient.RequestIgnoresMediaType | services/geminiService.ts:17-25 | uploads of the same bytes under different media types build the same request, with the image declared as image/jpeg |
| DetectionClient.IsBlank | services/geminiService.ts:58 | `!response.text` holds for an absent text and for the empty string, and for no other text |
| DetectionClient.Detect | services/geminiService.ts:58-67 | success iff the service answers with non-blank text that parses, and the parsed array is then returned unchanged; a thrown error is passed on as is; a blank reply gives the empty-response error; a parse failure gives its own error |
| DetectionClient.BlankReplyMessage | services/geminiService.ts:58-60 | an absent or empty reply text fails with "No response from AI" |
| App.HasImage | App.tsx:50 | `state.image` is truthy exactly when an image is present and is not the empty string |
| App.Upload | App.tsx:27-42 | choosing a file sets the image and clears detections, loading and error; with no file chosen the state is unchanged; a non-empty data URL leaves Analyze enabled |
| App.UploadForgetsPriorState | App.tsx:33-38 | the state after an upload does not depend on the state before it |
| App.RunStart | App.tsx:50-52 | with no image nothing changes; otherwise loading is raised and the error cleared, and image and detections stay |
| App.RunSucceeded | App.tsx:55-59 | success replaces the detections wholesale and clears loading; image and error stay |
| App.RunFailed | App.tsx:61-65 | failure clears loading and sets the fixed message; image and previous detections stay |
| App.Finish | App.tsx:53-66 | when the awaited call settles on a run in flight, loading drops and the image stays; success stores the client's results and keeps the error, failure keeps the detections and shows the fixed message; a state with no run in flight is left alone |
| App.SettleAsWritten | App.tsx:54-65 | the code's settle step: the call made with the captured image, its outcome applied to any current state; loading drops and the image stays; success stores the results, failure keeps the detections and shows the fixed message |
| App.FinishAgreesInFlight | App.tsx:54-65 | while the run is still in flight, `Finish` is exactly the code's settle step |
| App.LateReplyAfterClear | App.tsx:55-59 | upload, Analyze, Clear, then a reply with detections: the code's settle step leaves detections with no image, Export enabled, the overlay hidden and the state not coherent; `Finish` leaves the initial state |
| App.LateFailureAfterClear | App.tsx:61-65 | upload, Analyze, Clear, then a failed reply: the code's settle step shows the failure message with no image; `Finish` leaves the initial state |
| App.Run | App.tsx:49-67 | a run never changes the image; with no image nothing changes; otherwise it ends not loading, with the client's detections and no error, or with the old detections and the failure message |
| App.RunIsStartThenFinish | App.tsx:49-67 | a whole run equals the start followed by the call settling |
| App.Reset | App.tsx:69-77 | clearing gives no image, no detections, not loading, no error |
| App.ResetIdempotent | App.tsx:16-21 | clearing yields exactly the initial state, and clearing twice is clearing once |
| App.OverlayShown | App.tsx:108-135 | whenever the overlay is drawn, Analyze and Export are both enabled |
| App.AnalyzeEnabled | App.tsx:150-152 | Analyze is enabled only with an image and no run in flight, and then pressing it starts a run |
| App.ExportEnabled | App.tsx:250-252 | Export is enabled exactly when the results list has rows |
| App.InFlightGuards | App.tsx:127-152 | once a run starts, Analyze is disabled and the overlay hidden; Export stays as it was |
| App.StepCoherent | App.tsx:27-77 | each model step (choose, start, settle while in flight, clear) keeps the invariant: a run in flight only with an image and no error, detections only with an image, an error only as the failure message with an image |
| App.ReplayCoherent | App.tsx:27-77 | every sequence of model steps from a coherent state ends coherent |
| App.ReachableGuards | App.tsx:108-252 | in every state reachable when a reply settles only while its run is in flight, in flight or not, the overlay shows iff no run is in flight and there are detections, Analyze is enabled iff an image is present and no run is in flight (its definition), a run is in flight only with an image, Export is enabled only with an image, and a shown error is the failure message with no run in flight |
| App.ListedDetections | App.tsx:204 | the listed detections are a permutation of the stored ones, by non-increasing confidence, with ties in stored order |
| App.ResultsList | App.tsx:204-219 | one row per stored detection, in listed order; row i shows the label and `Math.round(confidence·100)` of listed detection i, and the percentages never increase down the list |

## Findings

| source | as written | input that shows it | evidently intended | confidence | as-written member | corrected member |
|---|---|---|---|---|---|---|
| App.tsx:55-65 | the settle updates apply to whatever state is current when the reply arrives; Clear (App.tsx:167-173) stays enabled while a run is in flight | upload a file, press Analyze, press Clear before the reply, and let the reply carry one detection | a reply for a run the user cleared is dropped, so detections and errors only appear with their image | medium, not executed | App.LateReplyAfterClear | App.Finish |

## Left out

- The service call itself (`generateContent`), the API key and the network are not modelled. The reply is the `service` parameter, so one request goes out per run.
- `JSON.parse` internals are not modelled; the parser is the `parse` parameter. The code casts the parsed value to `Detection[]` without checking it. A reply of the wrong shape is not representable here, for example a non-array or a `box_2d` with other than four numbers. The schema sets no length for `box_2d`.
- `console.error` logging on failure is left out; it is I/O.
- `FileReader`, the `onLoad` size measurement (`handleImageLoad`), React hooks and refs, and the file-input reset on Clear (App.tsx:76) are DOM I/O. Container size is a given pair of naturals.
- The Export button (JSON.stringify, Blob and download link) is library code and browser I/O. The export round-trip is therefore not modelled.
- `label.toLowerCase()` in the results list is left out, because it needs Unicode case mapping; so are the JSX markup, CSS and static text.
- IntToDecimal: renders every integer as plain digits. JavaScript switches to exponent notation at 1e21 and above; shown percentages never get near that.
- IEEE-754 rounding of the pixel and percentage arithmetic is left out. Exact reals are used, so a score like 0.285 shows 29 here, while double arithmetic can show 28.
- StepCoherent: holds for the settle step `Finish`, not for the code's `SettleAsWritten`. Upload, Analyze, Clear and then a reply leaves a state that is not coherent (`LateReplyAfterClear`).
- ReplayCoherent: holds for sequences of model steps only. With the code's settle step, the sequence upload, Analyze, Clear, reply ends in a state that is not coherent.
- ReachableGuards: holds only in states reachable when a late reply is dropped. After upload, Analyze, Clear and a reply with detections, the code enables Export with no image and hides the overlay though nothing is loading.
- Finish: a completion applies only while its run is still in flight. In the program a reply that arrives after a Clear or a new upload still writes its results into the current state, and overlapping runs can race; the model leaves that concurrency out.
- Run: the start and the completion taken as one step; the step-by-step form is `RunStart` followed by `Finish` (`App.RunIsStartThenFinish`).
- ListedDetections: `sort` at App.tsx:204 reorders the stored array in place. The model returns a sorted copy and leaves `AppState.detections` unchanged. So the aliasing effect on the stored order, and on the overlay's colour indices, is not modelled.
