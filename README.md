# Violence-detection front end: the detection workflow, in Dafny

This project models the logic of a React front end that lets a user pick videos, submit them to a
(mock) violence detector and see the verdicts. The logic comes from three files:

- **The index page** (`src/pages/Index.tsx`). It holds five state cells: `selectedVideos`,
  `previewUrls`, `detectionStatus`, `detectionResult` and `activeTab`. Its handlers drive the
  status IDLE → UPLOADING → DETECTING → COMPLETED | ERROR. Here it is the class `IndexPage.Index`.
  The async `handleCheckVideo` is split at its `await`:
  - `HandleCheckVideo` runs the synchronous part and records the call to `detectViolence`.
  - `ResumeCheckVideo(outcome)` runs the continuation once the call resolves with verdicts or
    rejects.
  - `CheckVideo` is the two run back to back.
  A ghost counter of suspended checks lets the invariant `Valid()` state three things:
  - At most one check is in flight, and only while the status is DETECTING.
  - Every status the page has held forms a walk of the workflow (`IsStatusWalk`).
  - No handler ever starts in UPLOADING.
- **The video uploader** (`src/components/VideoUploader.tsx`). `Uploader.ValidateFile` models the
  type and size validation. The class `Uploader.VideoUploader` models the component's
  `dragActive`, `selectedVideo` and `previewUrl` state and its event handlers. Calls to the
  `onVideoSelected` prop and the toasts are recorded as sequences. `URL.createObjectURL` yields an
  opaque token numbered by a counter, so each preview URL is fresh.
- **The mock detection service** (`src/services/MockViolenceDetectionService.ts`). It provides the
  `DetectionStatus` enum, the verdict record and `MockService.DetectViolence`. The random draws are
  passed in as parameters, so the verdict is a pure function of them.

Toasts are modelled as an appended event kind (`Notice`, `FileError`); their copy is not modelled.
A JavaScript `null` state cell is `Nullable.Option`.

## Source inconsistencies, modelled as written

- `Index.tsx` treats the awaited detection value as an array of verdicts (`results.some`). The
  service declares and returns a single verdict. The page model takes a sequence of verdicts; the
  service model returns one. They are not reconciled.
- `VideoUploader.tsx` declares `onVideoSelected(file: File)` and reports one file. `Index.tsx`
  passes a handler that takes a `File[]`. Each side is modelled with its own type.
- `Index.tsx` passes `selectedVideos`, `previewUrls` and `setPreviewUrls` to the uploader, which
  ignores them. So `previewUrls` on the page is only ever set to `null` (by reset).
- Read together, the two files do this on every check. The service resolves with one object
  (`src/services/MockViolenceDetectionService.ts:25-31`). `Index.tsx` stores it, sets COMPLETED and
  shows the results tab (lines 74-76). Then `results.some` (line 78) throws, because an object has
  no `some`. The `catch` (lines 90-92) sets ERROR. So every check ends in ERROR, with the object
  stored, the results tab shown and no completion toast. This is a reading of the source text,
  not an observed run.
- `Index.tsx` imports `resultsToastMessages` (line 9), but the service file does not export it.
  A strict module loader refuses that import, and the page does not load at all. A lenient
  bundler binds it to `undefined`. Then reading `.violent` or `.unviolent` (lines 82 and 87)
  throws while the completion toast is built. Even with an array of verdicts, the `catch` then
  sets ERROR and shows the failure toast.

## Behaviour of the code worth knowing

- An empty selection list is truthy in JavaScript. So `handleCheckVideo` starts a check for `[]`
  and refuses only `null`. A refused check only shows a toast; the status stays as it was.
- A valid file replaces the uploader's single selection, and removal clears that one selection.
- The confidence is `0.7 + r·0.25`, where `r` is a random draw independent of the violence draw.
- Selecting videos while IDLE is allowed, so IDLE does not imply an empty selection. Selecting
  after COMPLETED clears the verdicts and leaves the status COMPLETED.
- Preview URLs are never revoked, neither on removal nor on reset.
- Both status writes before the `await` happen in one synchronous run. A batched React render
  therefore only ever shows DETECTING. The model records both writes in `statusHistory`.

## Model

| member | source | states |
|---|---|---|
| `MockService.StatusValuesDistinct` | src/services/MockViolenceDetectionService.ts:8-14 | the five statuses carry five different string values |
| `MockService.DetectViolence` | src/services/MockViolenceDetectionService.ts:17-34 | the verdict is violent exactly when the first verdict draw exceeds 0.5; for a draw in [0,1) the confidence lies in [0.7, 0.95); the message is the violent text exactly when the verdict is violent, and the non-violent text otherwise; it always yields one verdict |
| `MockService.HalfDrawIsNotViolent` | src/services/MockViolenceDetectionService.ts:22 | a violence draw of exactly 0.5 gives a non-violent verdict |
| `MockService.DetectViolenceIgnoresFiles` | src/services/MockViolenceDetectionService.ts:17-34 | the verdict is the same whatever files (and however many) are passed |
| `Uploader.Includes` | src/components/VideoUploader.tsx:33 | the list scan answers true exactly when the value is in the list |
| `Uploader.ValidateFile` | src/components/VideoUploader.tsx:32-50 | a file is accepted exactly when its type is one of the four accepted types and its size is at most 1 GiB; an unaccepted type is reported as such whatever the size; an oversize file of an accepted type is reported as too large |
| `Uploader.CeilingIsInclusive` | src/components/VideoUploader.tsx:41-48 | a file of exactly 1073741824 bytes with an accepted type is accepted |
| `Uploader.OversizeRejected` | src/components/VideoUploader.tsx:41-48 | any file over 1073741824 bytes is refused, whatever its type |
| `Uploader.TypeCheckedBeforeSize` | src/components/VideoUploader.tsx:33-48 | an unsupported and oversize file reports only the unsupported-type error |
| `Uploader.VideoUploader.constructor` | src/components/VideoUploader.tsx:16-18 | no drag highlight, no selection, no preview URL, nothing reported yet |
| `Uploader.VideoUploader.HandleDrag` | src/components/VideoUploader.tsx:22-30 | dragenter and dragover switch the highlight on, dragleave switches it off, any other event leaves it unchanged |
| `Uploader.VideoUploader.HandleVideoSelection` | src/components/VideoUploader.tsx:52-60 | an invalid file adds only its error toast: selection, preview and reports are unchanged; a valid file becomes the selection, is reported to the parent exactly once and gets a preview URL never issued before; the selected video is always valid and is the last one reported |
| `Uploader.VideoUploader.HandleDrop` | src/components/VideoUploader.tsx:62-69 | clears the highlight; only the first dropped file is considered; an empty drop changes nothing else |
| `Uploader.VideoUploader.HandleChange` | src/components/VideoUploader.tsx:71-76 | only the first chosen file is considered; an empty choice changes nothing |
| `Uploader.VideoUploader.RemoveSelectedVideo` | src/components/VideoUploader.tsx:82-86 | clears the selection and the preview URL, keeping the invariant |
| `IndexPage.OutcomeFollowsDetection` | src/pages/Index.tsx:45-92 | in any status history the handlers can produce, COMPLETED or ERROR comes directly after DETECTING, which comes directly after UPLOADING |
| `IndexPage.AnyViolent` | src/pages/Index.tsx:78 | true exactly when some verdict in the list is violent |
| `IndexPage.CompletionNotice` | src/pages/Index.tsx:77-89 | the completion toast is the violent variant exactly when some verdict is violent, and the non-violent one otherwise |
| `IndexPage.IsProcessing` | src/pages/Index.tsx:110-112 | the definition of `isProcessing`: the status is UPLOADING or DETECTING (a definition with no contract; the two button rows state what follows from it) |
| `IndexPage.Index.CheckButtonEnabled` | src/pages/Index.tsx:158-162 | on a valid page the check button is enabled exactly when a selection exists and no check is pending. So a click meets `HandleCheckVideo`'s precondition, takes its awaiting branch and starts one detection call, never a second one beside a pending call |
| `IndexPage.Index.ResetButtonEnabled` | src/pages/Index.tsx:166-170 | on a valid page the reset button is enabled exactly when no check is pending, which is `HandleReset`'s precondition |
| `IndexPage.Index.constructor` | src/pages/Index.tsx:19-27 | the page starts on the upload tab with no selection, previews or verdicts, in IDLE |
| `IndexPage.Index.HandleVideoSelected` | src/pages/Index.tsx:30-33 | replaces the selection and clears the verdicts; status and tab are unchanged |
| `IndexPage.Index.ChangeTab` | src/pages/Index.tsx:132 | the tab the user picks becomes the active tab |
| `IndexPage.Index.HandleCheckVideo` | src/pages/Index.tsx:35-72 | without a selection: one "no video" toast, no status change and no detection call; with one: the status is written UPLOADING and then DETECTING, it is DETECTING when the call is awaited, and the selection is recorded as that call's argument |
| `IndexPage.Index.ResumeCheckVideo` | src/pages/Index.tsx:70-99 | on success the verdicts are stored, the status is COMPLETED, the results tab is shown and the completion toast follows the verdicts; on failure the status is ERROR and the verdicts, the selection and the tab are unchanged |
| `IndexPage.Index.HandleReset` | src/pages/Index.tsx:102-108 | every cell returns to its initial value (upload tab, nothing selected, no previews or verdicts, IDLE); the result does not depend on the state before, so a second reset changes nothing |
| `IndexPage.Index.CheckVideo` | src/pages/Index.tsx:35-100 | a whole check with nothing happening during the await: never changes the selection; makes no call without a selection; otherwise ends in COMPLETED with the verdicts on the results tab, or in ERROR with verdicts and tab kept |

## Left out

- Rendering, CSS classes, the tab, button and icon components, and animation: presentation only.
- The text of the toasts and of the verdict copy on screen. Toasts are recorded as event kinds only.
- `console.error` on a failed check: logging only.
- The axios instance and the commented-out upload request: network code that is not live.
- `setTimeout` and the processing-time draw (`2000 + Math.random() * 2000`): timing only. The two verdict draws are parameters.
- `MockService.DetectViolence`: JavaScript numbers are modelled as exact reals, so float rounding of `0.7 + r * 0.25` is not captured.
- `URL.createObjectURL` is modelled as a fresh counter-numbered token. Browser-side URL lifetime is not modelled.
- `fileInputRef` (clicking the hidden input, clearing its `value` on removal) and the `disabled` flags of the uploader's input and button: DOM plumbing.
- `VideoUploader.handleUpload`: it forwards to the mock and shows a toast.
- Percentage formatting with `toFixed` and `Math.round`: display of floats.
- `src/components/ResultDisplay.tsx`, `src/pages/UploadPage.js`, `src/components/VideoResults.js`, `src/App.js`: presentational or router code. ResultDisplay is used only for one fact: its reset button appears only when not loading. As the props are written it never appears at all: the page passes `results` (Index.tsx:178), but the panel reads `result` (ResultDisplay.tsx:8, 13, 27) and renders nothing outside loading.
- `IndexPage.Index.ResumeCheckVideo`: the Resolved branch models lines 74-89 as if `resultsToastMessages` supplied the two completion strings. The import it relies on has no matching export, so the code as written throws there and ends in ERROR (see "Source inconsistencies").
- `IndexPage.Index.CheckVideo`: its success case rests on the same assumption as `ResumeCheckVideo`.
- `IndexPage.Index.HandleCheckVideo` and `IndexPage.Index.HandleReset` require that the page is not processing. Their only callers are buttons that are disabled while processing.
