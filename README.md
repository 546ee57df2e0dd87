# Watermark service: placement, dispatch and batch status

A Dafny model of the core of the desktop watermarker's processing service
(`services/watermarkService.js`). The model covers three parts:

- **Placement** (`placement.dfy`, module `Placement`). `calculatePosition`
  gives the pixel offset of the watermark on an image for one of seven named
  anchors. `getVideoPosition` gives the overlay expression (over the
  transcoder's symbolic sizes `W`, `H`, `w`, `h`) for a video. Both fall
  back to bottom-right for an unknown anchor. Both are proved to agree with an
  independent per-axis account: each anchor sits in a near, middle or far
  band on each axis. The two are also related to each other: the video
  expression evaluates to the image offset, exactly at the edges and within
  half a pixel when centred.
- **Per-file dispatch** (`media.dfy`, module `Media`). The file's extension
  as Node's `path.extname` finds it is lower-cased and looked up in the
  image list and the video list. The file then goes to the image compositor
  or the video compositor, or fails with `Unsupported file format: <ext>`.
  This module also defines the error list that a sequence of files
  produces, with lemmas on its order, soundness, completeness and length.
- **Status map** (`status_store.dfy`, module `StatusTracker`). The
  process-wide `processingStatus` map is the field `statuses` of the class
  `StatusStore`. `ProcessFiles` creates a batch's record, runs the per-file
  loop, advances `processed` once per file and appends the errors. It then
  marks the record completed after the archive is written. `GetStatus`
  reads the map. `Cleanup` removes a record only when deleting the batch's
  archive succeeded.

The image and video compositors (`processImage`, `processVideo`) are not
modelled. The model sees them as a pair of functions from an uploaded file
to an outcome (done, or failed with a message), bundled in `Compositors`.
The outcome of each file-system step that can reject a batch is an input.
These inputs are grouped in `Environment`:

- creating the output directory;
- reading the watermark;
- writing the archive.

The outcome of the archive deletion in `cleanup` is a boolean parameter.
`StatusStore.ProcessFiles` takes the per-file step as a parameter
`attempt`. The service's step is `Dispatch(c)`, which is `ProcessOne` curried over its
compositors `c`, and
`FinishedBatch` states the finished batch for that step.

Three details of the code that the model follows:

- `cleanup` drops the status record only when `fs.unlink` of the archive
  succeeds. A failed deletion leaves the record in place; the
  failure is logged (line 265) and not retried.
- The not-found reply of `getStatus` carries the message `Upload not found`.
- A batch whose watermark cannot be read leaves its record at
  `processed = 0` and `completed = false`. A batch whose archive cannot be
  written leaves `processed = total` and `completed = false`. Both reject.

## Model

| member | source | states |
|---|---|---|
| Placement.CalculatePosition | services/watermarkService.js:176-198 | the offset's top is the vertical band's offset and its left the horizontal band's offset of the anchor the position string selects, any unknown string selecting bottom-right |
| Placement.ParseAnchor | services/watermarkService.js:197 | a known anchor name selects that anchor; every other string selects bottom-right |
| Placement.AnchorNameRoundTrip | services/watermarkService.js:178-195 | parsing an anchor's name gives back the anchor |
| Placement.HalfRounded | services/watermarkService.js:180 | Math.round of n/2 for an integer n is the r with n <= 2r <= n+1 |
| Placement.TopLeftIgnoresSizes | services/watermarkService.js:179 | top-left is (20, 20) whatever the image and watermark sizes |
| Placement.UnknownPositionIsBottomRight | services/watermarkService.js:191-197 | an unknown position gives exactly the bottom-right offset (H-h-20, W-w-20), unclamped |
| Placement.AnchorBands | services/watermarkService.js:176-195 | every top-* anchor is 20 from the top, every bottom-* anchor is 20 from the bottom, center is vertically centred, *-left is 20 from the left, *-right is 20 from the right, and center and *-center are horizontally centred with rounding |
| Placement.CenteredGaps | services/watermarkService.js:180-189 | a centred watermark leaves equal gaps, or a near-side gap one pixel wider when the slack is odd |
| Placement.RenderWidthTerm | services/watermarkService.js:206-212 | the x expressions are "20", "(W-w)/2" and "W-w-20" for the near, middle and far bands |
| Placement.RenderHeightTerm | services/watermarkService.js:206-212 | the y expressions are "20", "(H-h)/2" and "H-h-20" for the near, middle and far bands |
| Placement.TopRowOverlay | services/watermarkService.js:206-208 | the table entries of the three top anchors are their x term, a colon and the near y term |
| Placement.MiddleRowOverlay | services/watermarkService.js:209 | the table entry of center is its x term, a colon and the middle y term |
| Placement.BottomRowOverlay | services/watermarkService.js:210-212 | the table entries of the three bottom anchors are their x term, a colon and the far y term |
| Placement.GetVideoPosition | services/watermarkService.js:200-216 | every position string, unknown ones included, gets the overlay assembled from the bands of the anchor it selects: the x term of its horizontal band, a colon, and the y term of its vertical band |
| Placement.VideoKeysAreAnchors | services/watermarkService.js:205-215 | a string is a key of the overlay table exactly when it is one of the seven anchor names |
| Placement.VideoTableByAxes | services/watermarkService.js:205-213 | each of the seven anchor names is in the table, with the overlay assembled from its two bands |
| Placement.VideoPositionIgnoresSizes | services/watermarkService.js:200-216 | the overlay does not depend on the video's width, height or the scale |
| Placement.VideoExamples | services/watermarkService.js:205-215 | top-center gives "(W-w)/2:20" and an unknown position gives "W-w-20:H-h-20" |
| Placement.VideoTermMatchesImageOffset | services/watermarkService.js:176-215 | evaluated, the video term of a band equals the image offset at the near and far bands and lies within half a pixel below it in the middle band |
| Media.ToLower | services/watermarkService.js:27 | lower-casing keeps the length and lower-cases each character |
| Media.LastDot | services/watermarkService.js:27 | the index found holds a '.' with no '.' after it, and no index means no '.' at all |
| Media.Extname | services/watermarkService.js:27 | a non-empty extension is a suffix shorter than the name, starts with its only '.', and it is empty exactly when there is no dot, the only relevant dot leads the name, or the name is ".." |
| Media.ExtnameOfLower | services/watermarkService.js:27 | taking the extension commutes with lower-casing |
| Media.KindIgnoresCase | services/watermarkService.js:27-34 | names equal once lower-cased get the same extension and the same compositor |
| Media.ProcessOne | services/watermarkService.js:27-37 | a file whose lower-cased extension is an image extension gets the image compositor's outcome, a video extension the video compositor's, and any other fails with "Unsupported file format: " and its lower-cased extension |
| Media.ImageExample | services/watermarkService.js:27-31 | "photo.JPG" is an image |
| Media.VideoExample | services/watermarkService.js:27-33 | "clip.final.MKV" is a video (the last dot counts) |
| Media.UnsupportedExample | services/watermarkService.js:27-36 | "notes.txt" is unsupported, with extension ".txt" |
| Media.DotfileExample | services/watermarkService.js:27-36 | ".mp4" has no extension and is unsupported |
| Media.Failures | services/watermarkService.js:25-47 | the loop's error list has at most one entry per file |
| Media.FailuresAppend | services/watermarkService.js:25-47 | the error list of two runs of files is the two lists in turn |
| Media.FailuresStep | services/watermarkService.js:39-45 | one more iteration appends exactly that file's entry |
| Media.FailuresInOrder | services/watermarkService.js:25-47 | the entry of file j comes after those of earlier files and before those of later ones |
| Media.FailuresSound | services/watermarkService.js:40-44 | every error entry names a failing file and carries its message |
| Media.FailuresComplete | services/watermarkService.js:40-44 | every failing file has its entry in the errors |
| Media.FailingIndicesStep | services/watermarkService.js:25-47 | the failing indices of a batch are those of all but its last file, plus the last index when that file fails |
| Media.FailuresCount | services/watermarkService.js:25-47 | a batch with K failing files has exactly K error entries |
| StatusTracker.FinalStatusConsistent | services/watermarkService.js:12-57 | a batch leaves a record exactly when its output directory was created; the record is consistent and completed exactly when the batch finished |
| StatusTracker.FinishedBatch | services/watermarkService.js:12-57 | a finished batch of N files leaves total = processed = N, completed, and exactly the batch's error list: one entry per failing file, and every failing file's name and message among the errors |
| StatusTracker.StatusStore.constructor | services/watermarkService.js:10 | the map starts empty |
| StatusTracker.StatusStore.ProcessFiles | services/watermarkService.js:12-57 | settles as the environment dictates, leaves other uploads' records unchanged, and leaves this upload's record as FinalStatus describes: none, initial, or all processed with the loop's errors and completed only after the archive |
| StatusTracker.StatusStore.RunFiles | services/watermarkService.js:25-47 | after the loop the record has processed = total, is not completed, and holds the error list of the whole sequence |
| StatusTracker.StatusStore.RecordOutcome | services/watermarkService.js:39-45 | a file counts once as processed whether it succeeded or failed, and a failure appends its name and message |
| StatusTracker.StatusStore.GetStatus | services/watermarkService.js:269-275 | not found exactly when the id has no record, with message "Upload not found"; otherwise the record |
| StatusTracker.StatusStore.Cleanup | services/watermarkService.js:259-267 | removes exactly this id's record when the archive deletion succeeds, and changes nothing when it fails |

## Left out

- `processImage` and `processVideo`, including the ffprobe step inside `processVideo`: image decoding, sharp's compositing, opacity blending, ffmpeg/ffprobe subprocesses and floating-point scaling are foreign code and I/O. Each compositor is an arbitrary function from a file to an outcome.
- A compositor that never settles (a hung ffprobe or ffmpeg; `processFiles` awaits each file with no timeout) stalls the batch with `processed < total` and `completed = false`, and `processFiles` never settles. The model's compositors always return, so every batch settles.
- `createZip`, `cleanupUpload`, `fs.mkdir`, `fs.readFile`: file-system effects are not modelled. Their success or failure is an input (`Environment`). `cleanupUpload` swallows its own errors, so it cannot change the batch's result and has no input.
- The timers and retries inside `cleanupUpload` are not modelled, because they only affect the file system.
- `server.js` and `main.js` (HTTP routes, upload parsing, the desktop window) are outside this model.
- Media.ToLower: lower-cases ASCII `A`–`Z` only, not the full Unicode case mapping of `toLowerCase`.
- Media.Extname: follows POSIX `path.extname` for names without a path separator. A name containing `/` or `\` is not split into directory and base name first, and the drive prefix that the Windows variant skips (as in `a:.png`) is not treated specially.
- Placement.CalculatePosition: `positions[position] || …` on a JavaScript object also finds inherited keys such as `constructor`. The model treats every string other than the seven anchor names as unknown.
- The watermark sizes that `getVideoPosition` computes from `scale` are unused by the source, and the model leaves them out.
- Placement.VideoTermMatchesImageOffset: evaluates overlay terms on exact reals. ffmpeg's own expression evaluation and its rounding of overlay coordinates are not modelled.
- StatusTracker.StatusStore.GetStatus: returns the record as a value. In the source the caller receives the live object, which later updates of the batch change under it. That aliasing is not modelled.
- StatusTracker.StatusStore.ProcessFiles: the batch runs to completion within one call. The asynchronous interleaving of a running batch with `getStatus` or `cleanup` calls for the same id is not modelled. During the file loop the archive does not exist yet, so a `cleanup` there fails its unlink and leaves the record. A `cleanup` whose unlink succeeds once `createZip` has created the archive (line 220) but before line 53 deletes the record; the `processingStatus.get(uploadId)` at line 53 then throws, and the batch rejects with `completed` never set.
