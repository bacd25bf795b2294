# fresnel-frft: the data handling around the propagation kernel

This project models the exact, non-numerical part of fresnel-frft. That
application propagates an image (grayscale, or three colour channels) to a
list of distances `z` with a fractional Fresnel transform. It normalizes
every propagated pattern, and shows, exports and zips the results. The
transform itself is a parameter of the model. What is modelled and proved:

- **Normalization and channel stacking** (`src/image_utils.py`).
  `normalize_result` takes magnitudes and maps `[min, max]` onto `[0, 1]`.
  It returns zeros when the spread is below `1e-12`. A zero-size array makes
  numpy raise. `recombine_rgb_channels` stacks three planes into an
  `h x w x 3` image.
- **UI helpers** (`app/ui_helpers.py`).
  - Centred square crop.
  - The title splitter of `render_image_section`: split at the first `(`
    and strip whitespace with Python's `str.strip` character set.
  - `clear_previous_results`, modelled as a `Session` class whose method
    removes the result keys from its `state` map in a loop.
- **Batch processing** (`app/processing_flows.py`).
  - The index-tagged gather. Tasks are submitted in order as `Future`
    objects tagged with their index. They complete in an arbitrary order
    `order` (a permutation). Each completed future's index is found by
    linear search and its result is written into a preallocated array of
    `Option` slots.
  - The colour stacking, scaled by 255 and truncated to bytes.
  - The wavelength of each channel.
  - The headings and index guards of the display, single-image export and
    zip export.

Python exceptions are values: `Result` is `Success(value)` or
`Failure(error)`, with the `Error` cases `EmptyArray`, `ShapeMismatch`,
`IndexOutOfRange` and `WorkerError`.

Arrays are `seq<seq<real>>`, and reals are exact.

`Propagator` is an arbitrary function `(field, z, D, wavelength) -> Result<Matrix>`.
It stands for `fresnel_frft_square_input`. By convention a kernel exception is reported as a
`WorkerError`, whose code stands for the exception. The type does not
enforce this: a propagator may return any `Error`, and the task passes it on
unchanged, so it cannot be told apart from `normalize_result`'s own error.

## Model

| member | source | states |
|---|---|---|
| ImageUtils.AbsAll | src/image_utils.py:28 | same shape as the input; each element is the magnitude of the input element |
| ImageUtils.Low | src/image_utils.py:29 | np.min of a non-empty array: a lower bound of every element, attained at some position |
| ImageUtils.High | src/image_utils.py:30 | np.max of a non-empty array: an upper bound of every element, attained at some position |
| ImageUtils.Normalize | src/image_utils.py:27-33 | fails with EmptyArray exactly when the array has no element; otherwise the result has the input's shape and every element lies in [0, 1] |
| ImageUtils.NormalizeFlat | src/image_utils.py:31-32 | a magnitude spread below 1e-12 gives an all-zero array |
| ImageUtils.NormalizeMinToZero | src/image_utils.py:29-33 | otherwise every position holding the smallest magnitude maps to 0 |
| ImageUtils.NormalizeMaxToOne | src/image_utils.py:29-33 | otherwise every position holding the largest magnitude maps to 1 |
| ImageUtils.NormalizeMonotone | src/image_utils.py:28-33 | a smaller-or-equal magnitude never maps to a larger value |
| ImageUtils.NormalizeMagnitudeOnly | src/image_utils.py:28 | normalizing the magnitudes gives the same result as normalizing the array |
| ImageUtils.NormalizeIdempotent | src/image_utils.py:31-33 | normalizing a normalized array returns it unchanged, in both branches |
| ImageUtils.Recombine | src/image_utils.py:23-25 | succeeds exactly when the three planes have one shape (else ShapeMismatch); the result has that shape and three channels per pixel |
| ImageUtils.Channel | src/image_utils.py:24 | plane c of a colour image: same shape, pixel (x, y) is channel c of the image's pixel |
| ImageUtils.RecombineChannels | src/image_utils.py:23-25 | planes 0, 1 and 2 of the stacked image are r, g and b |
| ImageUtils.ChannelsRecombine | src/image_utils.py:23-25 | stacking the three planes of a 3-channel image rebuilds it |
| UiHelpers.CropCenterSquare | app/ui_helpers.py:12-17 | a k x k block with k = min(h, w), whose element (i, j) is img[top+i][left+j]; pixel contents are untouched |
| UiHelpers.CropInBounds | app/ui_helpers.py:15-17 | top + k <= h and left + k <= w |
| UiHelpers.CropCentered | app/ui_helpers.py:15-16 | on each axis the margin before is at most the margin after, which is at most the margin before plus 1 |
| UiHelpers.CropSquareUnchanged | app/ui_helpers.py:13-17 | a square image is returned unchanged |
| UiHelpers.CropIdempotent | app/ui_helpers.py:13-17 | cropping a crop changes nothing |
| UiHelpers.CropSameShape | app/ui_helpers.py:12-17 | equal-shape inputs give equal-shape crops |
| UiHelpers.Leading | app/ui_helpers.py:100 | the length of the whitespace run that opens the string: all spaces, and followed by a non-space or the end |
| UiHelpers.Trailing | app/ui_helpers.py:100 | the length of the whitespace run that closes the string: all spaces, and preceded by a non-space or the start |
| UiHelpers.Strip | app/ui_helpers.py:100-101 | the infix of the input that starts after the leading whitespace; neither end is a space, and only spaces follow it |
| UiHelpers.StripUnique | app/ui_helpers.py:100-101 | any infix with only whitespace around it that is empty or has non-space ends is the strip |
| UiHelpers.StripTrimmed | app/ui_helpers.py:100-101 | a string without whitespace at its ends strips to itself |
| UiHelpers.StripIdempotent | app/ui_helpers.py:100-101 | stripping twice is stripping once |
| UiHelpers.UnspacedStrip | app/ui_helpers.py:100-101 | stripping removes only whitespace: the non-space characters are kept in order |
| UiHelpers.FirstIndexOf | app/ui_helpers.py:99 | the first position of a character, or None exactly when it is absent |
| UiHelpers.SplitTitle | app/ui_helpers.py:102-104 | without both "(" and ")" the title is line 1 as is and line 2 is empty |
| UiHelpers.SplitTitleAtFirstParen | app/ui_helpers.py:98-101 | with both "(" and ")" (any order), line 1 is the stripped text before the first "(" and line 2 is "(" plus the stripped remainder |
| UiHelpers.SplitTitleKeepsText | app/ui_helpers.py:98-101 | after the split, line 1 holds no "(", line 2 starts with "(", and the non-space text of the title is kept in order |
| UiHelpers.SplitTitleAt | app/ui_helpers.py:98-101 | a title prefix + "(" + rest with no "(" in the prefix splits into Strip(prefix) and "(" + Strip(rest) |
| UiHelpers.WithoutResults | app/ui_helpers.py:8-10 | a key is kept exactly when it was present and is not one of the six result keys; kept keys keep their values |
| UiHelpers.WithoutResultsIdempotent | app/ui_helpers.py:8-10 | a second clear changes nothing |
| UiHelpers.Session.ClearPreviousResults | app/ui_helpers.py:8-10 | the new session state is the old one without the result keys; the loop invariant says the keys handled so far are gone and nothing else changed |
| ProcessingFlows.Wavelength | app/processing_flows.py:68-70 | red 560e-9, green 530e-9, blue 430e-9, gray 530e-9; all in [430e-9, 560e-9] |
| ProcessingFlows.WavelengthChoice | app/processing_flows.py:12-16 | grayscale uses the green wavelength 530e-9; blue < green < red |
| ProcessingFlows.RunTask | app/processing_flows.py:12-16 | succeeds exactly when the kernel succeeds on a non-empty array; the result has the kernel output's shape and lies in [0, 1] |
| ProcessingFlows.FindSubmissionIndex | app/processing_flows.py:32 | the tag of the first pair holding the completed future |
| ProcessingFlows.CollectBySubmissionIndex | app/processing_flows.py:27-37 | for every permutation of completions: success exactly when every task succeeds, n slots, slot i holds task i's result, no slot left empty; otherwise the error of a task that raised; the reported ratios are completed/total |
| ProcessingFlows.GatherByIndex | app/processing_flows.py:18-37 | submission tags each future with its index; the gathered list is the batch of worker results for z_vals in order, for any completion order |
| ProcessingFlows.ProgressInRangeIncreasing | app/processing_flows.py:34-35 | the reported progress lies in (0, 1] and strictly increases |
| ProcessingFlows.ProgressReachesOne | app/processing_flows.py:28-35 | when all tasks complete the counter reaches total, so the bar shows 1 |
| ProcessingFlows.BatchInUnitRange | app/processing_flows.py:12-16 | every gathered result lies in [0, 1] |
| ProcessingFlows.BatchOrderIrrelevant | app/processing_flows.py:31-33 | two gathers over the same tasks agree, whatever their completion orders |
| ProcessingFlows.ComputeGrayscaleOutputs | app/processing_flows.py:18-37 | the batch of the image at the grayscale wavelength, with its progress ratios |
| ProcessingFlows.Trunc | app/processing_flows.py:73 | the cast of a real to an integer rounds toward zero: the largest integer not above a non-negative value, the smallest not below a negative one |
| ProcessingFlows.ScaleToByte | app/processing_flows.py:73 | for v >= 0 the byte is the integer part of v * 255 (byte <= v * 255 < byte + 1), and a value in [0, 1] gives a byte in 0..255 |
| ProcessingFlows.ScaleToByteProperties | app/processing_flows.py:73 | 0 maps to 0, 1 maps to 255, and the map is monotone on [0, 1] |
| ProcessingFlows.ToBytes | app/processing_flows.py:73 | same shape and channel count; each channel value is its byte conversion |
| ProcessingFlows.StackRgbOutputs | app/processing_flows.py:72-75 | succeeds exactly when every index has three equal-shape frames (else ShapeMismatch); one frame per distance, each 3-channel and shaped like the red frame |
| ProcessingFlows.StackRgbPixel | app/processing_flows.py:72-75 | pixel (x, y) of frame i is the byte triple of r_outs[i], g_outs[i], b_outs[i] there |
| ProcessingFlows.StackRgbInByteRange | app/processing_flows.py:72-75 | frames stacked from [0, 1] channels hold only values in 0..255 |
| ProcessingFlows.Values | app/processing_flows.py:12-16 | the results of an all-successful batch, index by index |
| ProcessingFlows.BatchValues | app/processing_flows.py:12-16 | a successful gather means every task of the batch succeeded, and its list is exactly their results in submission order |
| ProcessingFlows.ComputeRgbOutputs | app/processing_flows.py:46-82 | succeeds exactly when the red, green and blue batches (560e-9, 530e-9, 430e-9) all succeed and their results stack; then the three lists are those batches and rgb_outs their per-index stacking, all in 0..255; otherwise the error is one raised by the first failing batch (red, then green, then blue), or ShapeMismatch when only the stacking fails |
| ProcessingFlows.ProcessGrayscaleMode | app/processing_flows.py:114-117 | results exist exactly when apply is pressed, and they are the batch of the uncropped image |
| ProcessingFlows.OriginalBytes | app/processing_flows.py:122-134 | the original shown has the shape of the centred crop and three channels; pixel (x, y) is the byte of each channel's value at that offset inside the crop |
| ProcessingFlows.ProcessRgbMode | app/processing_flows.py:122-134 | fails exactly when apply is pressed and compute_rgb_outputs on the centred crops of r, g and b fails, and then with the error compute_rgb_outputs raises (the first failing batch, red, green, blue, else ShapeMismatch); otherwise outputs are present iff apply was pressed and are the batches over the crops, and the original shown is the byte stacking of the three crops |
| ProcessingFlows.PairName | app/processing_flows.py:88-93 | the name is the caption itself or "Canal " + caption, and it is the caption exactly when the caption starts with "Imagen" or "Escala"; so it always ends with the caption and starts with "Imagen", "Escala" or "Canal " |
| ProcessingFlows.PairTitles | app/processing_flows.py:88-93 | both headings start with the pair name; the left one ends with " (original)", the right one with " (z = " + the distance text + " m)" |
| ProcessingFlows.DisplayImagePairAtZ | app/processing_flows.py:85-109 | IndexError exactly when idx is past z_vals; the result is shown exactly when outs is not None and idx < len(outs), and it is outs[idx] |
| ProcessingFlows.HeadingSplit | app/ui_helpers.py:98-101 | "<name> (<rest>" with no "(" in the name splits into the stripped name and "(" plus the stripped rest |
| ProcessingFlows.TrimmedHeadingSplit | app/ui_helpers.py:98-101 | the same, when the rest has no whitespace at its ends: line 2 is "(" plus the rest as is |
| ProcessingFlows.StripBlankSuffix | app/ui_helpers.py:100 | appending a blank does not change the strip |
| ProcessingFlows.OriginalTitleSplit | app/processing_flows.py:88-97 | the left heading is shown as the name over "(original)" |
| ProcessingFlows.ResultTitleSplit | app/processing_flows.py:88-106 | the right heading is shown as the name over "(z = ... m)" |
| ProcessingFlows.IndexOf | app/processing_flows.py:159 | z_vals.index(z): the first position holding z |
| ProcessingFlows.SelectExportImage | app/processing_flows.py:164-167 | an image is selected exactly when outs is non-empty and idx < len(outs), and it is outs[idx] |
| ProcessingFlows.ProcessImageExport | app/processing_flows.py:151-167 | nothing without distances; otherwise an image is selected exactly when outputs exist and the first position of z in z_vals is below their count, and it is the output at that position |
| ProcessingFlows.ExportGuardMatchesDisplay | app/processing_flows.py:102 | the export guard and the display guard select the same result |
| ProcessingFlows.ChannelKey | app/processing_flows.py:142-148 | each export channel's session key is one of the result keys clear_previous_results removes, never "z_vals" |
| ProcessingFlows.ChannelKeyInjective | app/processing_flows.py:142-148 | two export channels share a session key exactly when they are the same channel |
| ProcessingFlows.ClearedSessionExportsNothing | app/ui_helpers.py:8-10 | after a clear, no export channel's key is in the session |
| ProcessingFlows.ReplaceChar | app/processing_flows.py:222 | same length; every occurrence of one character replaced, others kept |
| ProcessingFlows.ZipName | app/processing_flows.py:222-223 | "z_" + the distance text with every "." replaced by "-", character by character, + ".png"; no "." is left in the middle part |
| ProcessingFlows.CreateChannelZip | app/processing_flows.py:212-227 | None exactly when outs is missing or empty or z_vals is empty; IndexError exactly when the results outnumber the distances; otherwise one entry per result, in order, named after the distance at its index |

## Left out

- The Fresnel transform (`src/fresnel_transform.py`): complex floating point, trigonometry and FFTs. It is the abstract `Propagator` parameter, which may succeed or fail.
- Concurrency: the process pool and `as_completed` become a completion-order permutation parameter, and each future's outcome is fixed when it is submitted. Waiting for running tasks when the pool closes is not modelled.
- Streamlit widgets: progress bars, columns, markdown, download buttons and `st.rerun`. The progress bar is the sequence of ratios it would be given.
- Session state beyond the key-removal rule: what the modes store in `st.session_state` and later read back. Here the result lists are passed in as `Option` values.
- `process_video_export` and `src/video_utils.py`: MP4 writing and text drawing.
- PIL loading and `array_to_image_bytes`: the encoder is a parameter of `CreateChannelZip`. `str(float)` and the `:.3f` formatting are parameters too (`zText`).
- Download file names in `display_image_pair_at_z` and `process_image_export`: only the guards, headings and selected image are modelled.
- `app/main.py` (construction of `z_vals`, parameter-change detection) and `app/ui_texts.py`.
- Floating point: reals are exact, and `1e-12` is an exact real.
- ImageUtils.Recombine: the width of a zero-row channel is not kept, since a row sequence cannot record the width of an empty matrix.
- ProcessingFlows.StackRgbOutputs: the width of zero-row outputs is not kept, for the same reason.
- UiHelpers.CropCenterSquare: a zero-row image crops to a zero-row image whatever its width, for the same reason.
- ProcessingFlows.ScaleToByte: does not model the uint8 wrap-around of values outside [0, 1]. `StackRgbInByteRange` proves that normalized channels never produce such values.
- ProcessingFlows.ProcessImageExport: the selection widget gives a `z` taken from `z_vals`, and the model requires exactly that. Channel selection is the caller's choice of `outs`.
- Unicode: `str.strip` is modelled with Python's whitespace set, listed code point by code point. Case and normalisation play no part.
