# StyleGAN2 resample and fused activation operators in Dafny

This project models the two custom operators of the StyleGAN2 generator
(`encoder4editing/models/stylegan2/op/`). It proves properties of both.

- **upfirdn2d** resamples each (batch, channel) plane of an image in four stages:
  - upsample by inserting zeros;
  - pad, where negative entries crop;
  - FIR-filter with the flipped kernel (`F.conv2d`);
  - downsample by strided slicing.

  Two implementations are modelled, each on a single plane (`Planes.Plane`, with explicit height and width):
  - the CPU fallback branch of `upfirdn2d`: one `up` and one `down` factor, and a `pad` argument that is an int or a tuple;
  - `upfirdn2d_native`: separate x/y factors and four signed pads.

  Channels never mix in either implementation. Each plane is filtered on its own, so a per-plane model is the whole computation.
- **fused_act** adds a per-channel bias, applies the leaky rectifier and multiplies by a scale. The model covers:
  - the CPU fallback of `fused_leaky_relu`, with torch broadcasting of the bias view `(1, C, 1, …, 1)`;
  - the `FusedLeakyReLU` module, a class whose fields hold the bias, slope and scale;
  - the bookkeeping of the autograd function `FusedLeakyReLUFunction`, as a context class: what `forward` records and saves, what `backward` recovers, and which gradients it returns.

  The compiled kernels `fused_bias_act` and `fused_bias_act_backward` are not available as code. They become function-valued parameters.

Errors are values (`Outcome.Result`). Each error the code can raise is its own `Outcome.Error` case:
- a bad resampling factor;
- `view(-1, …)` of an empty plane;
- the IndexError of a pad tuple of the wrong length;
- F.pad cropping past an edge, or producing a non-positive size (the fallback's upsampling is itself an F.pad, so it refuses an empty plane);
- a non-positive reshape;
- a kernel larger than its input;
- a bias that does not broadcast.

The two resample paths mostly agree. `UpFirDn2d.FallbackAgreesWithNative` proves that they agree on every non-empty plane, except where a negative pad crops past the end of its axis:
- The fallback hands signed pads to `F.pad`. F.pad first narrows each axis by the negative entries, so it refuses such a pad.
- The native path pads by the positive parts first and slices afterwards, so it accepts the same pad.

`UpFirDn2d.OverCropDivergence` exhibits one such input. The output size is `(H' - kh) / down + 1` in both paths, where `H'` is the upsampled and padded height.

Files:
- `outcome.dfy`: Option, Result and the error cases.
- `plane.dfy`: the plane datatype, finite sums, and integer division facts.
- `upfirdn2d.dfy`: the stages, both paths, and their properties.
- `fused_act.dfy`: tensors and broadcasting, the activation, the module class and the autograd context class.

## Model

| member | source | states |
|---|---|---|
| UpFirDn2d.Upsample | encoder4editing/models/stylegan2/op/upfirdn2d.py:27-30 | the upsampled plane is well formed and has H·upY rows and W·upX columns |
| UpFirDn2d.Pad | encoder4editing/models/stylegan2/op/upfirdn2d.py:36 | F.pad by signed amounts gives H + top + bottom rows and W + left + right columns |
| UpFirDn2d.PadInside | encoder4editing/models/stylegan2/op/upfirdn2d.py:36 | input sample (i, j) sits at (i + top, j + left) of the non-negatively padded plane |
| UpFirDn2d.Crop | encoder4editing/models/stylegan2/op/upfirdn2d.py:61-66 | slicing off top/bottom rows and left/right columns leaves H - top - bottom rows and W - left - right columns |
| UpFirDn2d.Flip | encoder4editing/models/stylegan2/op/upfirdn2d.py:39 | kernel.flip([0, 1]) keeps the kernel's size |
| UpFirDn2d.FlipTwice | encoder4editing/models/stylegan2/op/upfirdn2d.py:39 | flipping both axes twice gives the kernel back |
| UpFirDn2d.Conv2d | encoder4editing/models/stylegan2/op/upfirdn2d.py:41 | F.conv2d with no padding and stride 1 leaves H - kh + 1 rows and W - kw + 1 columns |
| UpFirDn2d.Filter | encoder4editing/models/stylegan2/op/upfirdn2d.py:39-41 | filtering leaves H - kh + 1 rows and W - kw + 1 columns |
| UpFirDn2d.Downsample | encoder4editing/models/stylegan2/op/upfirdn2d.py:43-44 | the strided slice [::downY, ::downX] has ⌈H/downY⌉ rows and ⌈W/downX⌉ columns |
| UpFirDn2d.Effective | encoder4editing/models/stylegan2/op/upfirdn2d.py:27-44 | is at least 1; a factor ≥ 1 is kept and a factor ≤ 1 acts as 1, because its stage is skipped |
| UpFirDn2d.UpsampleAt | encoder4editing/models/stylegan2/op/upfirdn2d.py:54-56 | input sample (i, j) lands at (i·upY, j·upX) of the upsampled plane, inside its bounds |
| UpFirDn2d.UpsampleZeroAt | encoder4editing/models/stylegan2/op/upfirdn2d.py:27-30 | every upsampled position whose row or column is not a multiple of the factor holds zero |
| UpFirDn2d.NormalizePad | encoder4editing/models/stylegan2/op/upfirdn2d.py:32-35 | an int p becomes (p, p, p, p); a pair (a, b) becomes (a, b, a, b); a tuple of at least four entries gives its first four; any other length is the PadIndex error |
| UpFirDn2d.PadThenCrop | encoder4editing/models/stylegan2/op/upfirdn2d.py:58-66 | padding by the positive parts and then slicing off the negative parts gives exactly the signed padding, so each negative pad removes that many samples from its own edge |
| UpFirDn2d.FilterIsConvolution | encoder4editing/models/stylegan2/op/upfirdn2d.py:72-73 | cross-correlating with the flipped kernel is the true 2-D convolution: output (y, x) = Σ k[u][v]·q[y+kh-1-u][x+kw-1-v] |
| UpFirDn2d.FilterDelta | encoder4editing/models/stylegan2/op/upfirdn2d.py:38-41 | filtering with the (top+1+ca) × (left+1+cb) kernel that is one at (ca, cb) and zero elsewhere shifts the plane: output (y, x) is input (y+top, x+left) |
| UpFirDn2d.FilterUnit | encoder4editing/models/stylegan2/op/upfirdn2d.py:38-41 | filtering with the 1×1 kernel [[1]] returns the plane unchanged |
| UpFirDn2d.DownsampleAt | encoder4editing/models/stylegan2/op/upfirdn2d.py:82 | downsampled (i, j) is input (i·downY, j·downX), and that position lies inside the input |
| UpFirDn2d.DownsampleHits | encoder4editing/models/stylegan2/op/upfirdn2d.py:43-44 | every input sample whose row and column are multiples of the factor survives, at (y/down, x/down) |
| UpFirDn2d.UpThenDown | encoder4editing/models/stylegan2/op/upfirdn2d.py:27-44 | downsampling by the upsampling factors gives back the original plane |
| UpFirDn2d.UpsampleOne | encoder4editing/models/stylegan2/op/upfirdn2d.py:27 | upsampling by 1 changes nothing, which is why skipping the stage for up ≤ 1 is harmless |
| UpFirDn2d.DownsampleOne | encoder4editing/models/stylegan2/op/upfirdn2d.py:43 | downsampling by 1 changes nothing, which is why skipping the stage for down ≤ 1 is harmless |
| UpFirDn2d.PadZero | encoder4editing/models/stylegan2/op/upfirdn2d.py:36 | padding by zeros changes nothing |
| UpFirDn2d.Fallback | encoder4editing/models/stylegan2/op/upfirdn2d.py:24-45 | the fallback's errors follow its statement order: an empty plane with up > 1 is PadSize from the upsampling pad; then a bad pad tuple is PadIndex; then F.pad's own error; any success is a well-formed plane |
| UpFirDn2d.Native | encoder4editing/models/stylegan2/op/upfirdn2d.py:48-82 | native's errors follow its statement order: an empty plane is EmptyView; then a factor up < 1 is BadFactor; then a non-positive net padded size is BadReshape; then a net size below the kernel is KernelTooLarge; only then is a factor down < 1 BadFactor; any success is a well-formed plane |
| UpFirDn2d.NativeOutcome | encoder4editing/models/stylegan2/op/upfirdn2d.py:48-82 | native succeeds iff every factor is ≥ 1, the plane is non-empty and the net padded size covers the kernel; the output is ((H'-kh)/downY+1) × ((W'-kw)/downX+1) |
| UpFirDn2d.UpsampleStage | encoder4editing/models/stylegan2/op/upfirdn2d.py:27-30 | the fallback's upsampling succeeds iff up ≤ 1 or the plane is non-empty, failing with PadSize otherwise; it yields H·up × W·up, with a factor ≤ 1 counting as 1 |
| UpFirDn2d.CheckedPad | encoder4editing/models/stylegan2/op/upfirdn2d.py:36 | F.pad fails with PadCrop when a negative pad removes more than its axis holds; it succeeds iff nothing over-crops and either the result is non-empty or no entry is positive; any other failure is PadSize; the result is (H + top + bottom) × (W + left + right) |
| UpFirDn2d.FilterDownSize | encoder4editing/models/stylegan2/op/upfirdn2d.py:41-44 | filtering and then downsampling yields ((H-kh)/down+1) × ((W-kw)/down+1), with a factor ≤ 1 counting as 1 |
| UpFirDn2d.FallbackOutcome | encoder4editing/models/stylegan2/op/upfirdn2d.py:24-45 | a bad pad tuple gives PadSize when up > 1 on an empty plane and PadIndex otherwise; with a usable pad the fallback succeeds iff (up ≤ 1 or the plane is non-empty), no negative pad crops past its axis and the padded plane covers the kernel. A factor ≤ 1 counts as 1, and the output is ((H'-kh)/down+1) × ((W'-kw)/down+1) |
| UpFirDn2d.FallbackAgreesWithNative | encoder4editing/models/stylegan2/op/upfirdn2d.py:21-82 | on non-empty planes, with no over-crop, the fallback with (up, down, (p0, p1, p2, p3)) and native with equal x/y factors and pads (p0, p1, p2, p3) both fail or return the same plane |
| UpFirDn2d.AgreeOnSuccess | encoder4editing/models/stylegan2/op/upfirdn2d.py:21-82 | when the padded plane covers the kernel and nothing over-crops, the two paths return the same plane |
| UpFirDn2d.FallbackOnSuccess | encoder4editing/models/stylegan2/op/upfirdn2d.py:24-45 | under those conditions the fallback returns the downsampled filter of the signed padding of the upsampled plane |
| UpFirDn2d.NativeOnSuccess | encoder4editing/models/stylegan2/op/upfirdn2d.py:48-82 | under those conditions native returns that same plane, because its pad-then-slice equals the signed padding |
| UpFirDn2d.OverCropDivergence | encoder4editing/models/stylegan2/op/upfirdn2d.py:36 | a 1×1 plane with pads (-2, 3, 0, 0): the fallback's F.pad fails with PadCrop, while native returns the two zeros [[0, 0]] |
| UpFirDn2d.OverCropNative | encoder4editing/models/stylegan2/op/upfirdn2d.py:58-82 | native on the 1×1 plane [[5]] with pads (-2, 3, 0, 0) and kernel [[1]] returns [[0, 0]] |
| UpFirDn2d.NativeIdentity | encoder4editing/models/stylegan2/op/upfirdn2d.py:48-82 | factors 1, zero pads and kernel [[1]] return the input plane |
| UpFirDn2d.FallbackIdentity | encoder4editing/models/stylegan2/op/upfirdn2d.py:21-45 | the default arguments up=1, down=1, pad=(0, 0) with kernel [[1]] return the input plane |
| UpFirDn2d.NegativePadsCrop | encoder4editing/models/stylegan2/op/upfirdn2d.py:58-66 | with non-positive pads, factors 1 and kernel [[1]], both paths return the slice that removes -p samples from each edge |
| UpFirDn2d.NegativePadsCropNative | encoder4editing/models/stylegan2/op/upfirdn2d.py:58-66 | native with non-positive pads, factors 1 and kernel [[1]] returns the crop that removes -p samples from each edge |
| UpFirDn2d.CropExample | encoder4editing/models/stylegan2/op/upfirdn2d.py:58-66 | a 4×4 plane with width pads (-1, -1) gives its middle 4×2 columns, in both paths |
| UpFirDn2d.FilterDeltaIsCrop | encoder4editing/models/stylegan2/op/upfirdn2d.py:39-41 | filtering with the delta kernel of shift (top, left) and one at (ca, cb) is the crop of top/ca rows and left/cb columns |
| UpFirDn2d.CropUndoesPad | encoder4editing/models/stylegan2/op/upfirdn2d.py:58-66 | slicing off exactly what was padded gives the plane back |
| UpFirDn2d.DeltaUndoesPad | encoder4editing/models/stylegan2/op/upfirdn2d.py:58-73 | padding by top/ca rows and left/cb columns and then filtering with that delta kernel gives the plane back |
| UpFirDn2d.DeltaRoundTrip | encoder4editing/models/stylegan2/op/upfirdn2d.py:48-82 | native with up = down = k, the delta kernel of shift (top, left) and pads (left, cb, top, ca) reproduces its input exactly |
| FusedAct.BroadcastShapesAxiswise | encoder4editing/models/stylegan2/op/fused_act.py:44 | two shapes broadcast iff every axis broadcasts, and the result is the axis-wise broadcast |
| FusedAct.BiasBroadcast | encoder4editing/models/stylegan2/op/fused_act.py:43-44 | the bias view (1, C, 1, …, 1) broadcasts against an input iff the channel axis does, and keeps the input shape except on axis 1 |
| FusedAct.BiasViewShape | encoder4editing/models/stylegan2/op/fused_act.py:43-44 | bias.view(1, C, 1, …, 1) has the input's rank, C on axis 1 and 1 everywhere else |
| FusedAct.AddBias | encoder4editing/models/stylegan2/op/fused_act.py:42-44 | adding the bias view succeeds iff \|bias\| = C or one of them is 1; the result is shaped like the input, with axis 1 widened when C = 1 |
| FusedAct.AddBiasAt | encoder4editing/models/stylegan2/op/fused_act.py:44 | with one bias per channel, element (n, c, i) of the sum is x[n][c][i] + bias[c] |
| FusedAct.Activate | encoder4editing/models/stylegan2/op/fused_act.py:45 | leaky_relu(·) · scale keeps the input's shape |
| FusedAct.FusedLeakyRelu | encoder4editing/models/stylegan2/op/fused_act.py:41-45 | the fallback fails, with BroadcastShape, exactly on a bias that does not broadcast; otherwise the output is shaped like the input, except that a one-channel input takes the bias length |
| FusedAct.FusedLeakyReluAt | encoder4editing/models/stylegan2/op/fused_act.py:41-45 | with no bias or one bias per channel the fallback succeeds with the input's shape, and element (n, c, i) is leaky_relu(x[n][c][i] + bias[c]) · scale |
| FusedAct.BiasedAt | encoder4editing/models/stylegan2/op/fused_act.py:42-45 | with one bias per channel, element (n, c, i) of the output is leaky_relu(x[n][c][i] + bias[c]) · scale |
| FusedAct.Leaky | encoder4editing/models/stylegan2/op/fused_act.py:45 | for a slope of at most one, leaky_relu(v) is the larger of v and slope·v |
| FusedAct.ActivateAt | encoder4editing/models/stylegan2/op/fused_act.py:45 | element (n, c, i) of the activation is leaky_relu(t[n][c][i]) · scale |
| FusedAct.LeakyScaledCases | encoder4editing/models/stylegan2/op/fused_act.py:45 | leaky_relu(v) · scale is scale·v for v ≥ 0 and scale·slope·v otherwise, so zero maps to zero |
| FusedAct.LeakyKeepsSign | encoder4editing/models/stylegan2/op/fused_act.py:45 | with positive slope and scale the activation is positive, zero or negative exactly when its input is |
| FusedAct.AddZeroBias | encoder4editing/models/stylegan2/op/fused_act.py:44 | adding an all-zero bias returns the input unchanged |
| FusedAct.AbsentBiasIsZeroBias | encoder4editing/models/stylegan2/op/fused_act.py:42-45 | no bias and an all-zero bias give the same result |
| FusedAct.FusedLeakyReLU.constructor | encoder4editing/models/stylegan2/op/fused_act.py:23-30 | the module stores a bias of `channel` zeros when asked for one (none otherwise), plus the given slope and scale |
| FusedAct.FusedLeakyReLU.Forward | encoder4editing/models/stylegan2/op/fused_act.py:32-33 | the module's forward succeeds iff its stored bias is absent or broadcasts against the input's channel axis, and then returns a tensor of the input's rank |
| FusedAct.FreshModuleForward | encoder4editing/models/stylegan2/op/fused_act.py:32-33 | a module whose bias is absent or still all zeros computes scale · leaky_relu(x) |
| FusedAct.SaveArgs | encoder4editing/models/stylegan2/op/fused_act.py:50-59 | the saved tensors are [input, bias, empty] with a bias and [input, empty] without one |
| FusedAct.RecoverSaved | encoder4editing/models/stylegan2/op/fused_act.py:64-65 | backward's unpacking of what forward saved recovers the input, the bias exactly when one was given, and the placeholder |
| FusedAct.FusedLeakyReLUContext.Forward | encoder4editing/models/stylegan2/op/fused_act.py:49-60 | records whether a bias was given, the slope and the scale; saves the tensors so that the context's input and bias are the arguments; returns the kernel's output |
| FusedAct.FusedLeakyReLUContext.Backward | encoder4editing/models/stylegan2/op/fused_act.py:63-74 | grad_input is present iff needs_input_grad[0] and is shaped like the saved input; grad_bias is present iff a bias was saved and needs_input_grad[1], and has the bias length; both hold the kernel's values; the slope and scale gradients are None |

## Left out

- Loading the compiled extensions and choosing the accelerated branch (`upfirdn2d.py` lines 5-23, `fused_act.py` lines 6-20 and 36-39) are not modelled. The choice depends on the device and on the build, and the accelerated `upfirdn2d_op.upfirdn2d` kernel is not available as code.
- The compiled kernels `fused_bias_act` and `fused_bias_act_backward` are function-valued parameters. Their values, and the gradient formula they implement, are not modelled.
- No backward of the resample operator exists in these files, so none is modelled.
- Floating point is modelled as exact `real` arithmetic, with no rounding and no NaN.
- Layout mechanics are not modelled: the reshape/permute between NCHW and channel-last, and the batch and minor axes. Each plane is modelled separately. Consequently, batch or channel axes of size zero are not covered.
- The two paths diverge on empty planes: native fails on `view(-1, …)` of zero elements, while the fallback with up ≤ 1 can still succeed when padding makes the plane non-empty. With up > 1 the fallback's upsampling pad fails on an empty plane.
- Kernels with a zero dimension are not modelled: a kernel is a non-empty 2-D array.
- Activation inputs with fewer than two axes, and bias tensors of rank above one, are not modelled.
- The default arguments (slope 0.2, scale √2) are not modelled. Slope and scale are parameters, because √2 is not a rational constant.
- FallbackAgreesWithNative: holds only on non-empty planes and when no negative pad crops past the end of its axis. Outside that, the paths differ (see OverCropDivergence).
- The scripts under `scripts/` are callers of these operators and are not modelled.
