# Turbo Batch Logo Adder — verified model of its core

The tool is a web form for batch watermarking. The user picks a logo from a
small on-disk library or uploads a new one, then chooses where the logo goes
and how big it is. The user then uploads a batch of videos. The tool runs
`ffmpeg` on every video in a thread pool, collects the outputs and offers
them as a zip archive. There are two variants of the tool. `Version2.py`
offers preset anchors with an adjustable margin, manual X/Y coordinates and
a preview frame. `version.py` offers preset anchors only, with a fixed
margin and a fixed logo size.

This project models the logic the tool owns under the form and proves
properties about it:

- **Overlay coordinates** (`PresetOverlay`, `FixedOverlay`). These build the
  `x:y` argument of ffmpeg's `overlay` filter. `Version2.py` builds it from
  a mode, two anchors and a margin. `version.py` builds it from one
  `"{v}_{h}"` string, using substring tests and the margin 15. A small
  expression module (`FfmpegExpr`) gives the coordinate strings a meaning.
  It renders each expression tree as text and evaluates it over a frame, so
  the model can state where each anchor puts the logo.
- **Filter graph** (`FilterGraph`). These are the two `-filter_complex`
  templates: first scale the logo, then overlay it. They are proved against
  a parser that reads the width, the height and the coordinates back.
- **Batch fan-in** (`Batch`, `Jobs`). This is the loop that collects the
  per-video outcomes into `processed_paths`. It also advances the
  completion counter that drives the progress bar. `Version2.py` sees the
  outcomes in submission order (`executor.map`). `version.py` sees them in
  completion order (`as_completed`). A job's outcome is its output path in
  the temporary directory, or `None` when the conversion failed.
- **Logo library names** (`LogoLibrary`). These are the alphanumeric
  clean-up of a saved logo's name and the extension filter of the library
  listing.
- **Helpers** (`Decimal`, `Strings`, `Sequences`, `Wrappers`). Python's
  `f"{n}"` for ints, with a parser as its inverse. Python's `w in s`,
  `endswith` and splitting at a character. Order-preserving filtering. An
  `Option` type standing for `None`.

The two variants collect in different orders. `Version2.py` collects
through `executor.map`, in submission order; `version.py` collects through
`as_completed`, in completion order. `Batch.FanIn` is the loop;
`Batch.FanInAsCompleted` is proved to collect the same paths up to order.

## Model

| member | source | states |
|---|---|---|
| Decimal.IntToString | Version2.py:30 | `f"{n}"` of an int: non-empty, digits only apart from a leading '-', and all digits exactly when n >= 0 (so no ':' can appear in it) |
| Decimal.IntToStringRoundTrip | Version2.py:25 | reading the rendered integer back gives the same integer, so the rendering is one-to-one |
| Strings.OccursContains | version.py:25 | Python's `w in s`, modelled recursively, holds whenever `w` occurs at some position of `s` |
| Strings.ContainsOccurs | version.py:33 | conversely, when `w in s` holds there is a position where `w` occurs |
| Strings.SplitOnceJoin | version.py:40 | splitting `a + ":" + b` at its first colon gives back `a` and `b` when `a` has no colon |
| PresetOverlay.XCoord | Version2.py:29-34 | the x part never contains ':', and for "left" it reads back as exactly the margin |
| PresetOverlay.YCoord | Version2.py:37-42 | the y part never contains ':', and for "top" it reads back as exactly the margin |
| PresetOverlay.PresetCmd | Version2.py:44 | the preset result splits at its single colon into exactly the x part and the y part |
| PresetOverlay.PositionCmd | Version2.py:22-44 | in "Custom (Manual X/Y)" mode the result splits into the decimal X and Y; in any other mode it splits into the x part for `pos_h` and the y part for `pos_v` |
| PresetOverlay.CustomModeIsXYPair | Version2.py:24-25 | in manual mode the result reads back as exactly (custom_x, custom_y), and it is the same whatever `pos_v`, `pos_h` and margin are |
| PresetOverlay.PresetPartsIndependent | Version2.py:27-44 | in preset mode changing `pos_v` or the manual X/Y leaves the x part unchanged, and changing `pos_h` or the manual X/Y leaves the y part unchanged |
| PresetOverlay.XCoordPlacement | Version2.py:29-34 | the x string is the rendering of an expression that leaves `margin` px on the left for "left", `margin` px on the right for "right", and equal gaps on both sides otherwise, whatever the margin |
| PresetOverlay.YCoordPlacement | Version2.py:37-42 | the y string is the rendering of an expression that leaves `margin` px above for "top", `margin` px below for "bottom", and equal gaps above and below otherwise, whatever the margin |
| PresetOverlay.DefaultPresetExample | Version2.py:151 | the form's defaults (bottom, left, margin 20) give "20:main_h-overlay_h-20" |
| PresetOverlay.TopRightExample | Version2.py:31-38 | top/right with margin 15 gives "main_w-overlay_w-15:15" |
| PresetOverlay.CenterExample | Version2.py:33-42 | center/center gives "(main_w-overlay_w)/2:(main_h-overlay_h)/2" for every margin |
| PresetOverlay.ManualExample | Version2.py:25 | manual X=10, Y=25 gives "10:25" for any anchors and margin |
| FixedOverlay.XCoordFixed | version.py:24-30 | the x part equals Version2's x part, with margin 15, for the anchor the tests pick: "left" if the string contains `left`, else "right" if it contains `right`, else the centre |
| FixedOverlay.YCoordFixed | version.py:32-38 | the y part equals Version2's y part, with margin 15, for the anchor the tests pick: "top" if the string contains `top`, else "bottom" if it contains `bottom`, else the centre |
| FixedOverlay.OverlayCmd | version.py:20-40 | the result is Version2's preset result for the anchors picked from the string with margin 15, and splitting it at its single colon recovers the x part and the y part |
| FixedOverlay.OverlayCmdCases | version.py:25-38 | `left` gives "15" even if `right` is also present; `right` without `left` gives "main_w-overlay_w-15"; neither gives "(main_w-overlay_w)/2"; likewise "15", "main_h-overlay_h-15" or "(main_h-overlay_h)/2" for `top` before `bottom` |
| FixedOverlay.HorizontalAnchorOfFormString | version.py:121-125 | for every pair of form choices, the tests on `f"{pos_v}_{pos_h}"` pick exactly `pos_h`: no vertical word contains `left` or `right` |
| FixedOverlay.VerticalAnchorOfFormString | version.py:121-125 | for every pair of form choices, the tests on `f"{pos_v}_{pos_h}"` pick exactly `pos_v`: no horizontal word contains `top` or `bottom` |
| FixedOverlay.FormPositionsAgree | version.py:125 | for every `pos_v` in {bottom, top, center} and `pos_h` in {left, right, center}, version.py's result on `f"{pos_v}_{pos_h}"` equals Version2's preset result with margin 15 |
| FilterGraph.FilterRoundTrip | Version2.py:56 | a graph "[1:v]scale=W:H[logo];[0:v][logo]overlay=C" reads back as width W, height H and coordinates C |
| FilterGraph.ScaledFilterParams | Version2.py:56 | Version2's graph (one function, used for the preview here and for the batch at line 74) scales the logo to `size_w` wide with height -1 (aspect kept) and overlays it at exactly the given coordinates |
| FilterGraph.FixedFilterParams | version.py:56 | version.py's graph always scales the logo to 250x250 (LOGO_SIZE) and overlays it at exactly the given coordinates; its text is the scale head, "250", ":", "250", the overlay tail, then the coordinates |
| Batch.Successes | Version2.py:238-240 | the collected paths number at most the outcomes and none of them is empty (a falsy path is never collected) |
| Batch.SuccessesAppend | Version2.py:238-240 | collection follows the order of the outcomes: collecting a + b is collecting a, then b |
| Batch.SuccessesCount | version.py:184-185 | every non-empty path is collected exactly as often as it occurs among the outcomes |
| Batch.SuccessesPermutation | version.py:182-185 | outcomes that are a rearrangement of each other yield collected paths that are a rearrangement of each other |
| Batch.FanIn | Version2.py:237-242 | after the loop `processed_paths` is exactly the truthy outcomes in order and `completed` equals the number of jobs; the progress counter goes 1, 2, …, N, rising by one per job and never above the total |
| Batch.FanInAsCompleted | version.py:179-188 | with outcomes seen in any order of completion, `processed_paths` is the truthy outcomes in that order and, as a multiset, the same as in submission order; `completed_count` ends at the number of jobs and the progress counter rises by one per job |
| Batch.FailsIffNothingConverted | Version2.py:245-255 | the "Processing failed." branch is taken exactly when no outcome is a (non-empty) path |
| Jobs.JoinPathInjective | Version2.py:222 | `os.path.join` of one directory with relative names is one-to-one in the name: two different names never join to the same path |
| Jobs.InputPathsDistinct | Version2.py:222 | different job indices write their uploads to different `in_{idx}.mp4` files |
| Jobs.WorkerOutcome | Version2.py:220-230 | one job (`process_single`, the same as `prep_and_run` at version.py:161-172): its result is truthy exactly when the conversion succeeded, it is then the job's output path, and with indexed output names that path reads back as the job's index |
| Jobs.DuplicateUploadNamesCollide | Version2.py:226 | as written: for any file name, two successful jobs whose uploads share it have different inputs, yet the batch built from those jobs collects two paths that are the same |
| Jobs.OutputIndexRoundTrip | Version2.py:226 | corrected output path `branded_{idx}_{name}`: the job index reads back from the path |
| Jobs.UniqueOutputPathsDistinct | Version2.py:226 | corrected output paths of different jobs differ, whatever their file names |
| Jobs.BatchCollectsEachSuccessOnce | version.py:198 | with the corrected output names `branded_{idx}_{name}` (see Findings), the loop over a whole batch collects one path per successful conversion, so the reported count is the number of successes, each path names a job of the batch, and no path is collected twice |
| LogoLibrary.CleanName | Version2.py:133 | the clean name (the same comprehension as version.py:109) has only alphanumeric characters, is a subsequence of the typed name, and keeps every alphanumeric character as often as it occurs |
| LogoLibrary.CleanNameIdempotent | Version2.py:133 | a name that is already alphanumeric is kept unchanged, so cleaning twice is the same as cleaning once |
| LogoLibrary.SavedFileName | Version2.py:134 | the saved file (the same name as version.py:110) is the clean name followed by ".png", and the stem has no '/' or '.', so it stays inside the logo directory |
| LogoLibrary.LibraryListing | Version2.py:105 | the listing (the same filter as version.py:92) holds only names ending in .png, .jpg or .jpeg, keeps the directory's order, and keeps every such name as often as it occurs |
| LogoLibrary.SavedLogoIsListed | Version2.py:134 | a logo saved under any typed name appears in the library listing once its file is in the directory |

## Left out

- The Streamlit form is not modelled: widgets, tabs, columns, CSS, session state, `st.rerun` and the messages shown. It has no logic beyond choosing the inputs.
- The empty-batch guard (Version2.py:209, version.py:143) is part of the form and is not modelled. `Batch.FanIn` on no outcomes returns empty results.
- Running ffmpeg is not modelled (Version2.py:46-84, version.py:42-70). Nor are the argument lists passed to it, the preview-frame extraction, or the handling of `CalledProcessError` and `FileNotFoundError`. Whether a conversion succeeded is a parameter of `Jobs.WorkerOutcome`. The outcome sequence is an input of `Batch.FanIn`.
- The moviepy lookup of the ffmpeg binary (Version2.py:17-20) is not modelled. It is a call into a foreign library.
- File I/O is not modelled: writing uploads and logos, `os.listdir`, `os.remove`, `os.makedirs`, the temporary directory, the zip archive and the download button. The listing takes the directory's names as a given sequence.
- `ThreadPoolExecutor` scheduling and the worker-count slider are not modelled. Only the sequential collection loop is, over a given order of outcomes. For `as_completed`, that order is any rearrangement of the submitted outcomes.
- The progress bar's float fraction `completed / len(...)` is not modelled. `Batch.FanIn` records the integer counter passed at each update instead.
- LogoLibrary.CleanName: treats only ASCII letters and digits as alphanumeric. Python's `str.isalnum` also keeps other Unicode letters and digits, and ASCII has no counterpart for them here.
- PresetOverlay.XCoordPlacement: evaluates the expression over the reals. ffmpeg evaluates it in floating point and rounds the position to whole pixels. Nor is it proved that ffmpeg parses the text into the same tree; the renderer follows conventional precedence. The same holds for PresetOverlay.YCoordPlacement.
- Jobs.BatchCollectsEachSuccessOnce: is stated for the corrected output names only. With the names as written at Version2.py:226 and version.py:168, two uploads of one name are collected as the same path twice (see Findings and `Jobs.DuplicateUploadNamesCollide`), so the "no path twice" half does not hold of the code as written.
- Batch.FanIn: models only runs in which no job raises. Version2.py:80-84 catches only `CalledProcessError`, so a missing ffmpeg binary (`FileNotFoundError`), or an `OSError` while writing `in_{idx}.mp4` (Version2.py:223-224, version.py:164-165), propagates out of the job; `executor.map` at Version2.py:238 and `future.result()` at version.py:183 re-raise it, the loop stops before `completed` reaches the number of jobs, and neither the archive nor "Processing failed." is shown. An `Option<string>` outcome cannot express this, so `completed == |outcomes|`, `Batch.FanInAsCompleted` and `Batch.FailsIffNothingConverted` describe only runs without such an exception.

## Findings

| source | as written | input that shows it | evidently intended | confidence | as-written member | corrected member |
|---|---|---|---|---|---|---|
| Version2.py:226 | each job's output is `os.path.join(temp_dir, f"branded_{vid_file.name}")`, named after the upload only (the same at version.py:168) | two uploaded videos both named `clip.mp4`, both converted: inputs `in_0.mp4` and `in_1.mp4` differ, but both write `branded_clip.mp4`, and `processed_paths` holds that path twice, so the archive gets two entries of one name and one conversion is lost | one output file per job, as the input files already have (`in_{idx}.mp4`) | medium; not executed | Jobs.DuplicateUploadNamesCollide | Jobs.UniqueOutputPathsDistinct |
