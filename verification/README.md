# FrameLab client core, modelled in Dafny

FrameLab is a web client for generating product videos with AI. Most of the
client is animated markup. This project models its five pieces of plain,
sequential logic as immutable Dafny values and pure functions, and proves
what each one promises:

- **Builder** (`builder.dfy`) is the brief builder's storyboard. It is an
  ordered list of scenes with add, duplicate, remove and field-update
  operations, the total-duration read, and the reference box that turns
  URL lines into links.
- **VideoGeneration** (`video_generation.dfy`) is the video-job client:
  - the three proxy-call helpers and their error wrapping,
  - the multipart form sent to create a job,
  - the completion poller, run over a finite trace of status answers.
- **ImageProcessing** (`image_processing.dfy`) is the crop-to-fill ("cover")
  rectangle that draws a w×h image onto a 1280×720 canvas, in exact
  rational arithmetic, plus the three ways a resize can fail.
- **Storyboard** (`storyboard.dfy`) is the scene-image editor:
  - the dialog state and its handlers,
  - the generate-button enable rule,
  - the choice of request body,
  - the update that replaces only the selected tile.

  It also has a step function over user actions and an invariant that
  every reachable state keeps.
- **Rendering** (`rendering.dfy`) is the render queue's status badges and
  its empty-list default.
- **Text** (`text.dfy`) holds the JavaScript string operations these
  modules use: `startsWith`, `trim` (with ECMAScript's white-space set)
  and `split` on one character, plus a `Join` that exists only as the
  inverse for the split round trip (the source never joins). **Outcomes** (`outcomes.dfy`) holds
  `Option` and `Result`.

Parameters stand in for everything the source gets from outside:
- fresh scene ids (`crypto.randomUUID`),
- the answers of `supabase.functions.invoke`,
- what `fetch`/`FileReader` produce,
- whether a canvas context exists,
- what the image decoder and `toBlob` report,
- the bundled scene pictures.

Time is a counter of milliseconds waited.

## Model

| member | source | states |
|---|---|---|
| Text.StartsWith | src/pages/Storyboard.tsx:97 | `startsWith`: the string is at least as long as the prefix and begins with it |
| Text.Trim | src/pages/Storyboard.tsx:327 | `trim()` drops only the white space at both ends; the result is empty exactly when every character is white space, and otherwise starts and ends with a non-space |
| Text.IsBlank | src/pages/Storyboard.tsx:127 | `!s.trim()`: nothing is left once the ECMAScript white space is trimmed |
| Text.Split | src/components/Builder.tsx:115 | `split('\n')` gives at least one piece, no piece contains the separator, and joining the pieces with it gives back the input |
| Text.SplitJoin | src/components/Builder.tsx:115 | the converse round trip: splitting a join of separator-free pieces returns those pieces |
| Builder.FirstIndex | src/components/Builder.tsx:88 | `find` stops at the first scene with the id, every earlier scene has another id, and it runs off the end exactly when the id is absent |
| Builder.TotalDuration | src/components/Builder.tsx:105 | the sum of the scene durations, taken from the front; the reference the `reduce` loop is proved against |
| Builder.CountId | src/components/Builder.tsx:98 | the number of scenes that `filter` drops is zero exactly when the id is absent |
| Builder.InitialScenes | src/components/Builder.tsx:29-44 | the builder starts with two scenes, "Hook" and "Problem", totalling 7 seconds, whose ids are unique exactly when the two generated ids differ |
| Builder.AddScene | src/components/Builder.tsx:74-85 | one scene is appended with the fresh id, title "New Scene", empty direction and text, and duration 3; the earlier scenes are kept as a prefix |
| Builder.DuplicateScene | src/components/Builder.tsx:87-95 | for a present id, a copy of the first match is appended that differs only in its fresh id and a title with " (alt)" added; for an absent id the list is unchanged |
| Builder.RemoveScene | src/components/Builder.tsx:97-99 | no scene with the removed id is left, and the list never grows |
| Builder.RemoveSceneMembers | src/components/Builder.tsx:98 | a scene survives exactly when its id differs from the removed one |
| Builder.RemoveSceneLength | src/components/Builder.tsx:97-99 | the length drops by the number of scenes with the id; an absent id leaves the list unchanged |
| Builder.RemoveAbsent | src/components/Builder.tsx:98 | when no position holds the id, removal returns the list unchanged |
| Builder.RemoveUniqueCutsOut | src/components/Builder.tsx:98 | with unique ids, removing the id of the scene at k cuts out exactly that scene and keeps the others in order |
| Builder.RemoveAppend | src/components/Builder.tsx:98 | removal works piecewise over any split of the list, so the survivors keep their relative order |
| Builder.ApplyEdit | src/components/Builder.tsx:102 | the edit changes only the named field (title, visual direction, text or duration) and keeps the id |
| Builder.UpdateScene | src/components/Builder.tsx:101-103 | length and order are kept; every scene with another id is unchanged; each scene with the id gets exactly that field edit |
| Builder.StoryboardDuration | src/components/Builder.tsx:105 | the left-to-right `reduce` with accumulator 0 gives the sum of all scene durations |
| Builder.TotalAppend | src/components/Builder.tsx:105 | the total of two lists placed one after the other is the sum of their totals |
| Builder.AddSceneTotal | src/components/Builder.tsx:74-85 | adding a scene raises the total by 3 |
| Builder.DuplicateSceneTotal | src/components/Builder.tsx:87-95 | duplicating raises the total by the duration of the copied scene |
| Builder.RemoveSceneTotal | src/components/Builder.tsx:97-99 | in a list whose ids are all unique, removing the id of the scene at position k lowers the total by that scene's duration |
| Builder.UpdateSceneTotal | src/components/Builder.tsx:101-105 | only a duration edit changes the total, by new minus old for a unique id; an absent id leaves it alone |
| Builder.AddSceneUnique | src/components/Builder.tsx:78 | with a fresh id, ids stay unique after adding, and the fresh id joins the id set |
| Builder.DuplicateSceneUnique | src/components/Builder.tsx:92 | with a fresh id, ids stay unique after duplicating |
| Builder.RemoveSceneIds | src/components/Builder.tsx:98 | after removal the id set is the old one minus the removed id |
| Builder.RemoveSceneUnique | src/components/Builder.tsx:98 | removal keeps ids unique |
| Builder.UpdateSceneIds | src/components/Builder.tsx:102 | an update never changes any scene's id, so uniqueness is kept |
| Builder.UpdateSceneIdempotent | src/components/Builder.tsx:101-103 | applying the same update twice equals applying it once |
| Builder.IsUrlLine | src/components/Builder.tsx:117 | a line counts as a link when it begins with "http://" or "https://", which is what `/^https?:\/\//` matches |
| Builder.LinkifyReferences | src/components/Builder.tsx:114-133 | one item per newline-separated line, in order, holding that line; an item is a link exactly when its line starts with "http://" or "https://" |
| Builder.LinkifyKeepsText | src/components/Builder.tsx:114-133 | joining the rendered items' texts with newlines gives back the reference text, and no item spans two lines |
| VideoGeneration.Wrap | src/utils/videoGeneration.ts:54-56 | invoke data passes through unchanged; an invoke error becomes an error message that starts with the call's prefix, and the proxy's message can be read back from what follows it |
| VideoGeneration.CreateVideoJobResult | src/utils/videoGeneration.ts:35-43 | job creation returns the proxy's job, or fails with "Failed to create video: " plus the proxy's message |
| VideoGeneration.CheckVideoStatus | src/utils/videoGeneration.ts:49-59 | a status check returns the snapshot, or fails with "Failed to check video status: " plus the proxy's message |
| VideoGeneration.DownloadAndStoreVideo | src/utils/videoGeneration.ts:64-74 | the download step returns the stored result, or fails with "Failed to download video: " plus the proxy's message |
| VideoGeneration.CallErrorsDistinct | src/utils/videoGeneration.ts:39-71 | the three helpers' errors have different prefixes, and each one's original message can be recovered |
| VideoGeneration.CreateVideoForm | src/utils/videoGeneration.ts:28-33 | the form always has the prompt first, and has an `image` file named "reference.jpg" as its second entry exactly when an image is given |
| VideoGeneration.CreateVideoFormImage | src/utils/videoGeneration.ts:31-33 | the form holds a file exactly when an image is supplied, and any file in it is that image under "reference.jpg" |
| VideoGeneration.IsTerminal | src/utils/videoGeneration.ts:90-96 | a status ends the poll exactly when it is `completed` or `failed` |
| VideoGeneration.Poll | src/utils/videoGeneration.ts:79-104 | the poller never makes more checks than there are answers; it waits one interval after each check that does not stop it; it is still polling exactly when every answer was used and none stopped it |
| VideoGeneration.PollStopsAtFirstStop | src/utils/videoGeneration.ts:83-100 | the first stopping answer, at position k, decides the run. There are k+1 checks and 10000·k ms of waiting. It resolves with the first completed snapshot, or rejects with "Video generation failed" or with the status-check error. The callback gets every snapshot checked, in order, including the terminal one |
| VideoGeneration.PollWithoutTerminal | src/utils/videoGeneration.ts:83-103 | with no terminal answer there is no attempt bound: the run never settles, and it checks, waits and reports once per answer |
| VideoGeneration.PollIgnoresLaterAnswers | src/utils/videoGeneration.ts:90-96 | answers after the one that stops the poll are never consulted |
| ImageProcessing.CoverRect | src/utils/imageProcessing.ts:16-38 | the rectangle keeps the source's aspect ratio and covers 1280×720. It is centred, with both offsets ≤ 0. The height fits exactly in the wider branch and the width otherwise, with the fitted axis not shifted |
| ImageProcessing.WiderThanTarget | src/utils/imageProcessing.ts:18-26 | the branch test: the source's width-to-height ratio exceeds 1280/720 |
| ImageProcessing.WiderIsIntegerTest | src/utils/imageProcessing.ts:18-26 | the ratio test `w/h > 1280/720` is the integer test 720·w > 1280·h |
| ImageProcessing.SixteenByNine | src/utils/imageProcessing.ts:26-38 | an exact 16:9 source takes the second branch and is drawn at (0, 0, 1280, 720) |
| ImageProcessing.CoverRectUnique | src/utils/imageProcessing.ts:26-38 | the cover rectangle is the only one that keeps the ratio, covers the canvas, is centred and fits one side exactly |
| ImageProcessing.ErrorMessage | src/utils/imageProcessing.ts:11-57 | the reject texts: "Could not get canvas context" (line 11), "Failed to create blob" (line 48) and "Failed to load image" (line 57) |
| ImageProcessing.ErrorMessagesDistinct | src/utils/imageProcessing.ts:10-58 | the three failure messages are pairwise different |
| ImageProcessing.ResizeImageTo1280x720 | src/utils/imageProcessing.ts:4-62 | a missing context, an undecodable image and a failed encode each give their own error, checked in that order; otherwise the canvas is 1280×720 with the cover rectangle drawn, and the encoded blob is returned |
| Storyboard.InitialTiles | src/pages/Storyboard.tsx:32-73 | the board starts with 8 tiles with ids 1 to 8, each 12 seconds long, showing the bundled pictures in order |
| Storyboard.InitialEditor | src/pages/Storyboard.tsx:32-82 | the board is the eight initial tiles; nothing is selected, the dialog is closed, nothing is generating and change mode is off; the edited name, prompt and instruction are empty and the edited duration is 12 |
| Storyboard.OpenScene | src/pages/Storyboard.tsx:84-92 | opening a tile copies its name, seconds and prompt into the editor. It also clears the instruction, leaves change mode and opens the dialog, without touching the board |
| Storyboard.ToggleChangeMode | src/pages/Storyboard.tsx:303-308 | the toggle flips change mode and touches nothing else. Leaving change mode clears the instruction; entering it keeps the instruction |
| Storyboard.ToggleTwice | src/pages/Storyboard.tsx:303-308 | toggling twice restores the mode with the instruction cleared |
| Storyboard.Cancel | src/pages/Storyboard.tsx:316-320 | cancel closes the dialog with change mode off and an empty instruction, and leaves every other part of the state as it was |
| Storyboard.EditsExistingImage | src/pages/Storyboard.tsx:127 | a generation edits the current picture exactly when change mode is on and the trimmed instruction is non-empty |
| Storyboard.RequestFor | src/pages/Storyboard.tsx:122-134 | the body always has the prompt. It also has the untrimmed instruction and the existing image exactly when change mode is on and the trimmed instruction is non-empty |
| Storyboard.CanGenerate | src/pages/Storyboard.tsx:327 | the generate button is enabled when nothing is generating, the trimmed prompt is non-empty or change mode is on, and change mode is not on with a blank trimmed instruction |
| Storyboard.EnabledRequest | src/pages/Storyboard.tsx:327 | when the button is enabled, the request carries an instruction exactly in change mode, and otherwise its trimmed prompt is non-empty |
| Storyboard.ConvertImageToBase64 | src/pages/Storyboard.tsx:94-115 | a `data:` URL is returned unchanged; any other URL yields the fetch-and-read outcome |
| Storyboard.ConvertDataUrlFixedPoint | src/pages/Storyboard.tsx:97-99 | converting the converted data URL again gives the same URL |
| Storyboard.ReportsError | src/pages/Storyboard.tsx:142 | the service's payload reports an error exactly when its `error` field is present and non-empty, as JavaScript's truthiness test on a string decides |
| Storyboard.Regenerated | src/pages/Storyboard.tsx:151-157 | the regenerated tile keeps its id, height and content and takes the new image, name, seconds and prompt |
| Storyboard.ReplaceTile | src/pages/Storyboard.tsx:148-160 | length, order and all ids are kept, and every other tile is unchanged. The tile with the selected id keeps its height and content and takes the new image, name, seconds and prompt |
| Storyboard.ReplaceTileIdempotent | src/pages/Storyboard.tsx:148-160 | replacing twice equals replacing once, and an unknown id changes nothing |
| Storyboard.GenerateImage | src/pages/Storyboard.tsx:117-179 | with no selection nothing happens; otherwise generating ends false. A request that is sent is the prompt alone, or, exactly when change mode is on with a non-blank instruction, the prompt, the untrimmed instruction and the selected tile's picture as converted. Any failure (image read, invoke error, truthy `data.error`) changes nothing else, and success replaces only the selected tile and its selection, keeps the edited name, duration and prompt and the dialog's visibility, and leaves change mode off with an empty instruction |
| Storyboard.Step | src/pages/Storyboard.tsx:232-327 | one user action on the page: a tile click opens the editor; the name and duration inputs always write; the prompt box writes only outside change mode and the instruction box only in it; the mode, cancel and generate buttons do nothing while generating, and generate also needs `CanGenerate`; dismissing the dialog only hides it |
| Storyboard.StepConsistent | src/pages/Storyboard.tsx:251-327 | every handler the dialog wires up keeps the tile ids and leaves nothing generating. Outside change mode no instruction is pending |
| Storyboard.RunConsistent | src/pages/Storyboard.tsx:84-179 | any sequence of user actions keeps that invariant |
| Storyboard.InitialConsistent | src/pages/Storyboard.tsx:32-92 | from the initial page, every reachable state still has tile ids 1 to 8, nothing generating, and no instruction outside change mode |
| Rendering.StatusAt | src/pages/Rendering.tsx:53-67 | index 0 gets Processing, indices 1 and 2 get Queued, and every index from 3 on gets Pending, each as an if-and-only-if |
| Rendering.ScenesToRender | src/pages/Rendering.tsx:20 | missing navigation state gives the empty list; otherwise the list passed in is used |
| Rendering.ShowsPlaceholder | src/pages/Rendering.tsx:90 | the placeholder is shown exactly when the scene list is empty |
| Rendering.NoStateShowsPlaceholder | src/pages/Rendering.tsx:90-96 | without navigation state the "No scenes to render" placeholder is shown |
| Rendering.Badges | src/pages/Rendering.tsx:37 | there is one badge per scene, in list order, each decided by the scene's position |
| Rendering.BadgeCounts | src/pages/Rendering.tsx:53-67 | a non-empty list has exactly one Processing badge. There are at most two Queued badges, and Pending covers the rest |
| Rendering.FirstIsProcessing | src/pages/Rendering.tsx:53-57 | the first badge of a non-empty list is Processing, and no other badge is |

## Left out

- Network and platform calls become parameters and are not modelled:
  - `supabase.functions.invoke` and the four edge functions it calls (`create-video`, `check-video-status` and `download-video` from videoGeneration.ts, and `generate-scene-image` from Storyboard.tsx:136),
  - `fetch` and `FileReader`,
  - canvas `drawImage` and `toBlob`, and JPEG encoding,
  - `URL.createObjectURL`, `setTimeout` and `crypto.randomUUID`.
- Toasts, console logging, `scrollIntoView` and every animation and presentational component carry no logic worth stating.
- `src/utils/elevenLabsTTS.ts` is a pass-through to a speech gateway and is not part of this model.
- The builder's other form fields and `handleSubmit` only hold text or scroll the page.
- Builder.UpdateScene: the field and its value are one `Edit` value. The source's `keyof Scene` would also accept `id` or a value of the wrong type, but the editor never passes either.
- Builder.Scene: `duration` is an integer. `Number(e.target.value)` can also produce fractions and NaN.
- VideoGeneration.VideoJob: `progress` is an optional integer, while the source declares `progress?: number` (videoGeneration.ts:11) and the status proxy passes the engine's value through unparsed, so a snapshot with a fractional progress cannot be represented. The poller never inspects `progress`, so no modelled decision depends on it.
- Rendering.RenderScene: `seconds` is an integer, while the source declares `seconds: number` (Rendering.tsx:14). The page only displays it.
- Storyboard.Tile: `seconds`, and the editor's `editedSeconds`, are integers. `Number(e.target.value)` at Storyboard.tsx:265 can also produce fractions and NaN.
- Text: a `string` is a sequence of Unicode scalar values, while JavaScript's `trim`, `split` and `startsWith` work on UTF-16 code units. Strings holding lone surrogates cannot be represented.
- VideoGeneration.Poll: the real loop has no attempt bound. A finite trace of answers stands in for the status source, and `StillPolling` means the answers ran out before a terminal state. A callback that throws is not modelled. The proxy's data is taken to be a well-formed `VideoJob`, since the source casts it without checking.
- ImageProcessing.CoverRect: the geometry is exact rational arithmetic, not IEEE doubles. For a source whose ratio is within rounding of 16:9, the two can pick different branches. A decoded image of zero width or height is excluded: the source then computes NaN or infinity.
- Storyboard.GenerateImage: a generation is one atomic step, so the in-flight `generating = true` window is not modelled. During that window only the three dialog buttons are disabled (Storyboard.tsx:309, 321, 327). The name, duration and instruction inputs (251-268, 286-292) and dismissal through `onOpenChange` (232) stay live, and the model does not interleave them with a request.
- Storyboard.GenerateImage: the reply of `generate-scene-image` is taken to be `{ error?: string, imageUrl: string }`, while the source reads an untyped `data` (Storyboard.tsx:142-164). A null `data` throws at line 142 and ends like a failed call, which `InvokeFailed` covers. A truthy `error` that is not a string cannot be represented, and neither can a missing `imageUrl`, which would set the tile's image to undefined.
- Observation about the source, not modelled: suppose the user dismisses the dialog during a request and opens another tile B. On success, `setTiles` still updates the tile the request was made for, because the handler captured that tile's id (Storyboard.tsx:150). But `setSelectedScene(prev => …)` (162-168) writes that tile's new image, name, duration and prompt onto B, and lines 171-172 leave change mode for B. A later change-mode edit of B then sends the other tile's picture (line 128).
- The "Add New Scene" card on the storyboard page has no handler, so there is nothing to model.
- The progress callback receives every checked snapshot, the terminal one included, because it runs before the terminal test (videoGeneration.ts:86-92).
- The resize rejects with three distinct messages (imageProcessing.ts:10-13, 43-50, 56-58).
- The storyboard page's tiles have no `originalImage` field and the page has no revert operation, so revert is not modelled.
