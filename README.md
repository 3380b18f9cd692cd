# Neural style transfer: the verifiable skeleton

This project is a Dafny model of the discrete and exact parts of a neural style
transfer service. The service has a FastAPI back end (`app/backend/main.py`)
and a Flask front end (`app/frontend/app.py`). The back end optimises a target
image with Adam through a frozen VGG19 network. The model keeps the exact
structure around that optimisation:

- `schedule.dfy`: the progress-checkpoint schedule of the optimisation loop,
  `step % (steps // 10) == 0 or step == steps`, and the `steps` range check of
  the transfer endpoint.
- `transfer.dfy`: the optimisation loop itself, `perform_style_transfer`, as a
  method over an abstract image type and optimiser state. Feature extraction
  and one optimiser update are capabilities the run is given. The loop
  computes the losses of every iteration exactly and records progress at the
  checkpoints. The endpoint's part, `transfer_style`, rejects out-of-range
  `steps` and then runs the loop with its five style weights.
- `loss.dfy`: the Gram matrix F·Fᵀ, the content loss (a mean squared
  difference at `conv4_2`), and the style loss. The style loss is a weighted
  sum, over the style-weight entries in order, of mean squared Gram
  differences, each divided by d·h·w. It is written as the accumulation loop
  of the source and specified by a recursive function. The numbers are
  mathematical reals. An activation tensor of shape (1, d, h, w) is its d×(h·w)
  view.
- `features.dfy`: `get_features`, a loop over the network's layers that
  records the running tensor after the six tapped module indices 0, 5, 10, 19,
  21 and 28. The dict holds the tensor itself, not a copy. A layer that works
  in place, such as the `ReLU(inplace=True)` after each tapped convolution in
  torchvision's VGG19 (main.py:41), therefore changes the recorded value. The
  model tracks which entries share the running tensor. On the VGG19 layout
  every entry ends up holding the output of the ReLU after its convolution.
- `resize.dfy`: the size arithmetic of `load_image`, over integer
  (width, height). It covers the aspect-preserving downsize to `max_size`,
  the optional forced resize, and how the transfer endpoint chains the two for
  the style image.
- `upload.dfy`: the front end's upload filter, `allowed_file`, and the checks
  `upload_files` makes before it forwards the two files.
- `wrappers.dfy` and `arith.dfy`: `Option`/`Result` and integer
  division facts.

Python's exceptions are modelled as `Failure` values: a missing dict key, a
tensor shape mismatch, or the modulo by zero of a run of 1 to 9 steps.
Each error arises at the point where the code would raise it.

Some consequences of the code are easy to miss:

- The progress test `step % (steps // 10) == 0 or step == steps`
  (main.py:168) records 10 to 12 entries in an accepted run, not at most 11.
  For example, steps = 59 gives 5, 10, …, 55 and 59, which is 12 entries. The shortest accepted run, steps = 50, records 10 entries: every
  fifth step.
- The endpoint accepts `steps` in [50, 100000], although its error message
  says "between 50 and 1000".
- A run of 1 to 9 steps is not rejected by the loop. It computes the losses
  and the update of its first iteration, then divides by zero in the progress
  test. A run with steps ≤ 0 does nothing and records nothing.

## Model

| member | source | states |
|---|---|---|
| Schedule.CheckpointMembership | app/backend/main.py:142-175 | for steps ≥ 10, step s gets a progress entry iff 1 ≤ s ≤ steps and (s % (steps // 10) == 0 or s == steps) |
| Schedule.CheckpointsUpToMembership | app/backend/main.py:142-175 | after the first n iterations, s has been recorded iff 1 ≤ s ≤ n and s passes the progress test |
| Schedule.CheckpointsBelowLast | app/backend/main.py:168 | before the last step, the recorded steps are exactly the first n // k positive multiples of the interval k |
| Schedule.CheckpointsShape | app/backend/main.py:168 | the whole schedule is the multiples of steps // 10 up to steps, then steps itself when it is not one of them |
| Schedule.CheckpointCount | app/backend/main.py:142-175 | the number of entries is steps / (steps // 10), plus 1 when steps is not a multiple of the interval |
| Schedule.CheckpointsOrdered | app/backend/main.py:142-175 | the recorded steps are strictly increasing, and the last entry is at step == steps |
| Schedule.MultiplesIncreasing | app/backend/main.py:168 | the multiples of a positive interval are strictly increasing, and the m-th is k·m |
| Schedule.ValidatedRunSchedule | app/backend/main.py:245-246 | every steps the range check lets through has an interval of at least 5, so it never divides by zero, and it records between 10 and 12 entries |
| Schedule.ShortestRunSchedule | app/backend/main.py:168 | a 50-step run records steps 5, 10, …, 50 |
| Schedule.TwelveEntries | app/backend/main.py:168 | a 59-step run records 12 entries |
| Transfer.PerformStyleTransfer | app/backend/main.py:114-179 | the run succeeds exactly when steps ≤ 0, or when steps ≥ 10 and the losses of every iteration can be computed. On success the final target is the content image after exactly Iterations(steps) updates, with no early exit, and each progress entry is (step, the losses of that iteration) at exactly the checkpoints. A run of 1 to 9 steps whose first losses compute fails with a division by zero, and any other failure is the first iteration whose losses fail |
| Transfer.TransferStyle | app/backend/main.py:244-269 | steps outside [50, 100000] are rejected, and only they are. An accepted run never divides by zero. Under the five request weights conv1_1 … conv5_1 and the two loss weights, an accepted run succeeds exactly when every iteration's losses can be computed. It then returns the target after steps updates, and its progress entries are (step, that iteration's losses) at exactly the checkpoints: 10 to 12 entries, strictly increasing, ending at steps. A failure is the error of the first iteration whose losses fail |
| Transfer.LossesAtOnlyShapeErrors | app/backend/main.py:147-155 | with an extractor that always yields the six tapped layers and style weights only on tapped layers, an iteration can fail only on a shape, never on a missing key |
| Transfer.EndpointLayersTapped | app/backend/main.py:252-258 | the endpoint's five style-weight layers are all tapped layers |
| Transfer.EndpointOnlyShapeErrors | app/backend/main.py:252-268 | with an extractor that always yields the six tapped layers, no iteration of a run the endpoint starts fails with a KeyError: only a shape mismatch can stop it |
| Transfer.FirstContentLossZero | app/backend/main.py:134 | the target starts as the content image, so the first iteration's content loss is 0 |
| Features.GetFeatures | app/backend/main.py:88-104 | the keys are exactly the names of the tapped indices below the number of layers. Each entry holds the running value after the in-place layers that directly follow its tap: its own layer's output when the next layer makes a new tensor |
| Features.ExtractKeys | app/backend/main.py:99-102 | after n layers the dict's keys are the names of the tapped indices below n |
| Features.ExtractEntry | app/backend/main.py:99-102 | after n layers an entry still shared with the running tensor holds the running value, and only in-place layers followed its tap; any other entry holds the value after its in-place run |
| Features.SettleRun | app/backend/main.py:100 | the layers from j up to i all work in place iff i is at most the first layer from j that makes a new tensor |
| Features.NoInPlaceSettle | app/backend/main.py:100-102 | with no in-place layer, an entry is frozen right after its own layer |
| Features.VggTapsHoldReLUOutput | app/backend/main.py:41 | on torchvision's 37-module VGG19 feature stack, every tapped entry holds the value after the in-place ReLU that follows its convolution |
| Features.TapsBeforeStep | app/backend/main.py:99-102 | one more layer adds its name iff its index is tapped |
| Features.AllTapsPresent | app/backend/main.py:90-95 | a network of at least 29 modules yields exactly the six names conv1_1 … conv5_1 |
| Features.ShortNetworkMissesLastTap | app/backend/main.py:90-95 | a network of at most 28 modules yields no conv5_1 |
| Loss.Gram | app/backend/main.py:106-111 | the Gram matrix of a d×n feature matrix is d×d |
| Loss.GramEntries | app/backend/main.py:106-111 | Gram entry (i, j) is Σ_k F[i][k]·F[j][k], and the Gram matrix is symmetric |
| Loss.DotSymmetric | app/backend/main.py:110 | the dot product is symmetric |
| Loss.Transpose | app/backend/main.py:110 | the transpose is n×d and swaps the indices |
| Loss.MatMul | app/backend/main.py:110 | the product of an r×n and an n×c matrix is r×c |
| Loss.SumSqZero | app/backend/main.py:147 | a sum of squared differences is ≥ 0 and is 0 exactly on equal matrices |
| Loss.MeanSqZero | app/backend/main.py:147 | the mean squared difference is ≥ 0 and is 0 exactly on equal matrices |
| Loss.ContentLossZero | app/backend/main.py:147 | the content loss is ≥ 0 and is 0 exactly when the conv4_2 features of target and content agree |
| Loss.LayerStyleLossZero | app/backend/main.py:153-157 | a style term is ≥ 0 for a weight ≥ 0, and 0 when the target's Gram equals the style Gram. For a weight > 0 it is 0 only then |
| Loss.LayerTermOf | app/backend/main.py:152-157 | one layer's iteration fails on a missing target layer, then on a missing style Gram, then on a shape mismatch, and otherwise yields its term |
| Loss.StyleLoss | app/backend/main.py:150-157 | the accumulation loop returns the style loss over the weight entries in order, or the first lookup error |
| Loss.StyleLossStep | app/backend/main.py:151-157 | one more weight entry adds its layer's term, or fails with that layer's error |
| Loss.StyleLossFailurePersists | app/backend/main.py:151-155 | once an entry fails, the whole style loss fails with that error |
| Loss.StyleLossNonNegative | app/backend/main.py:150-157 | with non-negative weights the style loss is ≥ 0 |
| Loss.StyleLossZeroOnEqualGrams | app/backend/main.py:150-157 | when every weighted layer is present and non-empty in the target and its style Gram equals the target's Gram, the style loss is 0; no other layer matters |
| Loss.StyleGram | app/backend/main.py:106-111 | the Gram matrix of any d×n feature matrix, n = 0 included, is d×d with entry (i, j) the dot product of rows i and j |
| Loss.StyleGrams | app/backend/main.py:131 | the style Grams are keyed by exactly the extracted layers, each holding that layer's Gram matrix |
| Loss.ComputeLosses | app/backend/main.py:144-160 | one iteration's losses: content first, then style, then content_weight·content + style_weight·style |
| Loss.TotalLossNonNegative | app/backend/main.py:160 | the weighted sum of non-negative losses with non-negative weights is ≥ 0 |
| Loss.EvaluateLossesBounds | app/backend/main.py:147-160 | with non-negative weights the content, style and total losses are all ≥ 0 |
| Loss.StyleLossOnlyShapeErrors | app/backend/main.py:151-155 | when every weighted layer is present in both maps, the style loss can fail only on a shape |
| Loss.EvaluateLossesOnlyShapeErrors | app/backend/main.py:147-155 | when conv4_2 and every weighted layer are present, an iteration's losses can fail only on a shape |
| Loss.EvaluateLossesZero | app/backend/main.py:144-160 | a target with the content image's conv4_2 features and the style Grams on every weighted layer has content, style and total loss 0, whatever the weights |
| Resize.ScaleSideSpec | app/backend/main.py:59-61 | a scaled side is the floor of side·max_size/longest: it does not grow, it is ≤ max_size, and the longest side becomes exactly max_size |
| Resize.ScaleToFitSpec | app/backend/main.py:59-62 | the downsized image's longer side is max_size, and neither side grows |
| Resize.DownsizedSpec | app/backend/main.py:59-62 | the longer side becomes min(longest, max_size), neither side grows, and an image that fits is unchanged |
| Resize.ThinImageVanishes | app/backend/main.py:60-61 | a 1025×1 image downsizes to 512×0 |
| Resize.LoadImage | app/backend/main.py:51-65 | with a shape, the final size is exactly (shape[0], shape[1]) read as (width, height). Without one, it is the downsized size, whose longer side is min(longest, max_size) and whose sides do not grow |
| Resize.PrepareImagesAsWritten | app/backend/main.py:249-250 | the style tensor's (height, width) is the content tensor's (width, height), so the two agree iff the content image is square |
| Resize.TransposedExample | app/backend/main.py:249-250 | a 300×200 content image gives a (200, 300) content tensor and a (300, 200) style tensor |
| Resize.PrepareImages | app/backend/main.py:249-250 | with the shape passed as (width, height), the style tensor has the content tensor's shape |
| Upload.LastDot | app/frontend/app.py:22 | there is no position iff the name has no '.'; a position holds a '.' with no '.' after it |
| Upload.ExtensionAfterLastDot | app/frontend/app.py:22 | the extension of stem + "." + ext, ext without a '.', is ext |
| Upload.NoDotRejected | app/frontend/app.py:22 | a name without a '.' is rejected |
| Upload.AllowedFileIff | app/frontend/app.py:14-22 | a name is accepted iff some '.' has no '.' after it and the text after it, lower-cased, is png, jpg or jpeg |
| Upload.AcceptedSplit | app/frontend/app.py:14-22 | stem + "." + ext, ext without a '.', is accepted iff ext lower-cased is allowed |
| Upload.LowerKeepsDots | app/frontend/app.py:22 | lower-casing keeps the last '.' and lower-cases the extension |
| Upload.CaseInsensitive | app/frontend/app.py:22 | names with the same lower-case form are accepted alike |
| Upload.DoubleExtensionAccepted | app/frontend/app.py:22 | "a.tar.png" is accepted |
| Upload.InnerExtensionIgnored | app/frontend/app.py:22 | "a.png.gif" is rejected |
| Upload.UpperCaseAccepted | app/frontend/app.py:22 | "IMG.JPG" is accepted: the extension is lower-cased before the test |
| Upload.EmptyExtensionRejected | app/frontend/app.py:22 | "a." is rejected |
| Upload.OtherExtensionRejected | app/frontend/app.py:14-22 | "a.gif" is rejected |
| Upload.EmptyStemAccepted | app/frontend/app.py:14-22 | ".png" is accepted |
| Upload.UploadFiles | app/frontend/app.py:30-58 | the files are forwarded iff both fields are present and both names pass the filter, and then both names are non-empty. Otherwise the handler redirects and sends nothing |

## Left out

- The loss values are mathematical reals, not float32. Rounding, overflow and NaN are not modelled.
- An empty target activation (d·h·w = 0) makes torch's mean NaN or its division by d·h·w infinite, with no exception. The model reports such a layer as a shape error, `BadShape`. An empty content-layer activation is reported the same way. An empty style activation, however, gives a zero Gram as in torch.
- Torch broadcasts singleton dimensions in `target - content` (main.py:147) and `target_gram - style_gram` (main.py:156). The model requires equal shapes and reports any other pair as `BadShape`. Within one run neither case arises: the target starts as a clone of the content image and keeps its shape, and a layer's Gram matrix is d×d whatever the image size.
- A file that PIL cannot decode makes `Image.open` (main.py:53-56) raise. The model starts from an image's size, so it has no decode step and no decode failure.
- Transfer.Hyper: a style-weight sequence may repeat a layer name, which a Python dict cannot. Every run the endpoint builds, and the default weights, list distinct names.
- Features.GetFeatures: a layer either makes a new tensor or overwrites its input tensor and returns it. A layer that returns another existing tensor is not modelled. The VGG19 module layout behind Features.VggTapsHoldReLUOutput comes from torchvision's definition of `vgg19().features`, which is not part of this repository.
- The Adam update, autodiff (`zero_grad`, `backward`, `step`) and the VGG19 convolutions are abstract functions that a run is given (`Engine`), as is the learning rate.
- The model does not state that the losses decrease. That is a property of the optimiser, which is abstract here.
- `load_vgg_model` and device selection (main.py:38-48) are library calls and process state.
- The normalisation transform and `im_convert` (main.py:68-86) are float tensor operations.
- LANCZOS resampling, JPEG and base64 encoding are PIL internals; only the resulting sizes are modelled.
- Resize.ThinImageVanishes: shows that a side can round down to 0. What PIL's `resize` and the tensor transform then do with such an image is not modelled.
- Resize.ScaleSide: uses exact floor division `side * max_size / longest`. The source computes `int(side * (max_size / longest))` in floating point, which can be one less when the quotient is not exact.
- The HTTP routes are I/O and network plumbing: `/upload/`, `/download/`, `/health`, CORS, file writes, uuid generation, the `requests` calls and the Flask proxy handlers other than the checks of `upload_files`.
- Transfer.TransferStyle: does not model the existence check of the uploaded files (main.py:241-242), which is file-system I/O. It also does not model HTTP status codes. The 400 raised for out-of-range steps is caught by the handler's own `except Exception` and reported as a 500.
- Transfer.PerformStyleTransfer: does not model a direct caller passing an empty style-weight dict. Then `style_loss` stays the integer 0 and `.item()` fails at the first checkpoint. The endpoint always passes five weights.
- Upload.Lower: lower-cases ASCII letters only. Python's `str.lower` also maps other Unicode letters.
- Upload.UploadFiles: the response after forwarding, which depends on the back end, is not modelled.
- `app/frontend/static/js/script.js` is user-interface code and is not part of this model.

## Findings

| source | as written | input that shows it | evidently intended | confidence | as-written member | corrected member |
|---|---|---|---|---|---|---|
| app/backend/main.py:250 | `shape=content_img.shape[-2:]` passes the content tensor's (height, width) to PIL's `resize`, which reads it as (width, height) | a 300×200 content image: content tensor (200, 300), style tensor (300, 200) | the style image resized to the content image's size, so the two tensors have the same shape | not executed | Resize.PrepareImagesAsWritten, Resize.TransposedExample | Resize.PrepareImages |
