/** The resample operator upfirdn2d: zero-insertion upsampling, padding
    (negative entries crop), FIR filtering with the flipped kernel, and
    strided downsampling. Every stage acts on one (batch, channel) plane:
    the fallback convolves each channel with its own copy of the kernel
    (a grouped convolution with one group per channel), and the native
    path folds the batch and channel axes into a stack of one-channel
    planes before its convolution, so in neither do channels mix.

    Two entry points are modelled: the CPU fallback of `upfirdn2d`
    (scalar factors, a pad argument that is normalised first, F.pad with
    signed entries) and `upfirdn2d_native` (separate x/y factors, padding
    by the positive parts followed by a slice that removes the negative
    parts). */
module UpFirDn2d {
  import opened Outcome
  import opened Planes

  // ---------------------------------------------------------------------
  // Stages
  // ---------------------------------------------------------------------

  /** Zero insertion: each sample is followed by upX - 1 zero columns and
      upY - 1 zero rows. Both paths build it as a reshape to
      (h, 1, w, 1), a pad of the singleton axes to (h, upY, w, upX) and a
      view as (h * upY, w * upX), so output (y, x) reads the sample at
      (y / upY, x / upX) exactly when both remainders are zero. */
  function Upsample(p: Plane, upY: nat, upX: nat): (r: Plane)
    requires p.Valid() && upY >= 1 && upX >= 1
    ensures r.Valid() && r.h == p.h * upY && r.w == p.w * upX
  {
    Plane(p.h * upY, p.w * upX,
      seq(p.h * upY, y requires 0 <= y < p.h * upY =>
        seq(p.w * upX, x requires 0 <= x < p.w * upX =>
          if y % upY == 0 && x % upX == 0 then
            DivBelow(y, p.h, upY);
            DivBelow(x, p.w, upX);
            p.rows[y / upY][x / upX]
          else 0.0)))
  }

  /** Constant (zero) padding as F.pad does it on the last two axes, in
      F.pad's argument order: left, right (width), top, bottom (height).
      A negative entry removes that many samples from its own edge. The
      value semantics only; CheckedPad adds the errors F.pad raises. */
  function Pad(p: Plane, left: int, right: int, top: int, bottom: int): (r: Plane)
    requires p.Valid() && p.h + top + bottom >= 0 && p.w + left + right >= 0
    ensures r.Valid() && r.h == p.h + top + bottom && r.w == p.w + left + right
  {
    Plane(p.h + top + bottom, p.w + left + right,
      seq(p.h + top + bottom, i requires 0 <= i < p.h + top + bottom =>
        seq(p.w + left + right, j requires 0 <= j < p.w + left + right =>
          if 0 <= i - top < p.h && 0 <= j - left < p.w then p.rows[i - top][j - left] else 0.0)))
  }

  /** Padding by non-negative amounts moves input (i, j) to
      (i + top, j + left). */
  lemma PadInside(p: Plane, left: nat, right: nat, top: nat, bottom: nat, i: nat, j: nat)
    requires p.Valid() && i < p.h && j < p.w
    ensures i + top < Pad(p, left, right, top, bottom).h && j + left < Pad(p, left, right, top, bottom).w
    ensures Pad(p, left, right, top, bottom).rows[i + top][j + left] == p.rows[i][j]
  {
  }

  /** Python slicing rows[top : h - bottom] and columns [left : w - right]. */
  function Crop(p: Plane, left: nat, right: nat, top: nat, bottom: nat): (r: Plane)
    requires p.Valid() && top + bottom <= p.h && left + right <= p.w
    ensures r.Valid() && r.h == p.h - top - bottom && r.w == p.w - left - right
  {
    Plane(p.h - top - bottom, p.w - left - right,
      seq(p.h - top - bottom, i requires 0 <= i < p.h - top - bottom => p.rows[top + i][left .. p.w - right]))
  }

  /** The pad argument of the fallback: an int or a tuple. */
  datatype PadArg = PadInt(n: int) | PadTuple(items: seq<int>)

  /** Four F.pad entries: left, right, top, bottom. */
  datatype Pad4 = Pad4(left: int, right: int, top: int, bottom: int)

  /** The fallback's pad normalisation: an int p becomes (p, p, p, p), a
      pair (a, b) becomes (a, b, a, b), a longer tuple contributes its first
      four entries, and any other length fails on the missing index. */
  function NormalizePad(pad: PadArg): (r: Result<Pad4>)
    ensures pad.PadInt? ==> r == Ok(Pad4(pad.n, pad.n, pad.n, pad.n))
    ensures pad.PadTuple? && |pad.items| == 2 ==>
              r == Ok(Pad4(pad.items[0], pad.items[1], pad.items[0], pad.items[1]))
    ensures pad.PadTuple? && |pad.items| >= 4 ==>
              r == Ok(Pad4(pad.items[0], pad.items[1], pad.items[2], pad.items[3]))
    ensures pad.PadTuple? && |pad.items| != 2 && |pad.items| < 4 ==> r == Err(PadIndex)
  {
    match pad
    case PadInt(n) => Ok(Pad4(n, n, n, n))
    case PadTuple(items) =>
      if |items| == 2 then Ok(Pad4(items[0], items[1], items[0], items[1]))
      else if |items| < 4 then Err(PadIndex)
      else Ok(Pad4(items[0], items[1], items[2], items[3]))
  }

  /** F.pad in constant mode on a plane, with the errors torch raises: each
      negative entry first narrows its axis (failing when the crop passes
      the end of the axis), and when any entry is positive every padded
      axis must come out with positive length. */
  function CheckedPad(p: Plane, pd: Pad4): (r: Result<Plane>)
    requires p.Valid()
    ensures var h, w := p.h + pd.top + pd.bottom, p.w + pd.left + pd.right;
            var crops := p.h - Pos(-pd.top) - Pos(-pd.bottom) >= 0 && p.w - Pos(-pd.left) - Pos(-pd.right) >= 0;
            (!crops ==> r == Err(PadCrop))
            && (r.Ok? <==> crops && ((h > 0 && w > 0) || (pd.left <= 0 && pd.right <= 0 && pd.top <= 0 && pd.bottom <= 0)))
            && (r.Ok? ==> r.value.Valid() && r.value.h == h && r.value.w == w)
            && (r.Err? ==> r.error == PadCrop || r.error == PadSize)
  {
    if p.h - Pos(-pd.top) - Pos(-pd.bottom) < 0 || p.w - Pos(-pd.left) - Pos(-pd.right) < 0 then
      Err(PadCrop)
    else if (pd.left > 0 || pd.right > 0 || pd.top > 0 || pd.bottom > 0)
         && (p.h + pd.top + pd.bottom <= 0 || p.w + pd.left + pd.right <= 0) then
      Err(PadSize)
    else
      Ok(Pad(p, pd.left, pd.right, pd.top, pd.bottom))
  }

  /** kernel.flip([0, 1]): both axes reversed. */
  function Flip(k: Plane): (r: Plane)
    requires k.Valid()
    ensures r.Valid() && r.h == k.h && r.w == k.w
  {
    Plane(k.h, k.w,
      seq(k.h, a requires 0 <= a < k.h =>
        seq(k.w, b requires 0 <= b < k.w => k.rows[k.h - 1 - a][k.w - 1 - b])))
  }

  /** Flipping a kernel twice gives the kernel back. */
  lemma FlipTwice(k: Plane)
    requires k.Valid()
    ensures Flip(Flip(k)) == k
  {
    var f := Flip(k);
    PlaneExt(Flip(f), k);
  }

  /** One term of a filter sum: a sample times the weight laid on it. */
  function Tap(sample: real, weight: real): real
  {
    sample * weight
  }

  /** The products of row `a` of the window whose top-left corner is
      (y, x) with row `a` of the weights. */
  function RowTerms(q: Plane, wt: Plane, y: nat, x: nat, a: nat): nat -> real
    requires q.Valid() && wt.Valid() && y + wt.h <= q.h && x + wt.w <= q.w && a < wt.h
  {
    (b: nat) => if b < wt.w then Tap(q.rows[y + a][x + b], wt.rows[a][b]) else 0.0
  }

  /** The per-row sums of the window whose top-left corner is (y, x). */
  function WindowTerms(q: Plane, wt: Plane, y: nat, x: nat): nat -> real
    requires q.Valid() && wt.Valid() && y + wt.h <= q.h && x + wt.w <= q.w
  {
    (a: nat) => if a < wt.h then Sum(wt.w, RowTerms(q, wt, y, x, a)) else 0.0
  }

  /** One output sample of conv2d (a cross-correlation): the weights laid
      over the window whose top-left corner is (y, x). */
  function WindowSum(q: Plane, wt: Plane, y: nat, x: nat): real
    requires q.Valid() && wt.Valid() && y + wt.h <= q.h && x + wt.w <= q.w
  {
    Sum(wt.h, WindowTerms(q, wt, y, x))
  }

  /** F.conv2d of one plane with one weight plane, no padding, stride 1. */
  function Conv2d(q: Plane, wt: Plane): (r: Plane)
    requires q.Valid() && wt.Valid() && wt.h <= q.h && wt.w <= q.w
    ensures r.Valid() && r.h == q.h - wt.h + 1 && r.w == q.w - wt.w + 1
  {
    Plane(q.h - wt.h + 1, q.w - wt.w + 1,
      seq(q.h - wt.h + 1, y requires 0 <= y < q.h - wt.h + 1 =>
        seq(q.w - wt.w + 1, x requires 0 <= x < q.w - wt.w + 1 => WindowSum(q, wt, y, x))))
  }

  /** The FIR stage of both paths: conv2d with the flipped kernel. */
  function Filter(q: Plane, k: Plane): (r: Plane)
    requires q.Valid() && k.Valid() && k.h <= q.h && k.w <= q.w
    ensures r.Valid() && r.h == q.h - k.h + 1 && r.w == q.w - k.w + 1
  {
    Conv2d(q, Flip(k))
  }

  /** Strided slicing [::downY, ::downX]: keeps rows 0, downY, 2 downY, ...
      and columns 0, downX, 2 downX, ... */
  function Downsample(p: Plane, downY: nat, downX: nat): (r: Plane)
    requires p.Valid() && downY >= 1 && downX >= 1
    ensures r.Valid() && r.h == (p.h + downY - 1) / downY && r.w == (p.w + downX - 1) / downX
  {
    var oh, ow := (p.h + downY - 1) / downY, (p.w + downX - 1) / downX;
    Plane(oh, ow,
      seq(oh, i requires 0 <= i < oh =>
        seq(ow, j requires 0 <= j < ow =>
          StrideBelow(i, p.h, downY);
          StrideBelow(j, p.w, downX);
          p.rows[i * downY][j * downX])))
  }

  // ---------------------------------------------------------------------
  // The two implementations
  // ---------------------------------------------------------------------

  /** A kernel is a non-empty 2-D coefficient array. */
  predicate IsKernel(k: Plane)
  {
    k.Valid() && k.h >= 1 && k.w >= 1
  }

  /** The factor the fallback actually applies: it skips the step when the
      requested factor is at most one. */
  function Effective(f: int): (r: nat)
    ensures r >= 1 && (f >= 1 ==> r == f) && (f <= 1 ==> r == 1)
  {
    if f > 1 then f else 1
  }

  /** The fallback's upsampling stage: nothing when the factor is at most
      one; otherwise zero insertion through F.pad on a 6-D view, whose
      positive entries make torch demand a positive length on every padded
      axis, so an empty plane is refused. */
  function UpsampleStage(p: Plane, up: int): (r: Result<Plane>)
    requires p.Valid()
    ensures r.Ok? <==> up <= 1 || (p.h >= 1 && p.w >= 1)
    ensures r.Err? ==> r.error == PadSize
    ensures r.Ok? ==> r.value.Valid() && r.value.h == p.h * Effective(up) && r.value.w == p.w * Effective(up)
  {
    if up <= 1 then Ok(p)
    else if p.h == 0 || p.w == 0 then Err(PadSize)
    else Ok(Upsample(p, up, up))
  }

  /** The CPU fallback branch of upfirdn2d on one NCHW plane. Its errors
      come in the order of its statements: the upsampling pad, the pad
      index, the signed pad, and the convolution. */
  function Fallback(p: Plane, k: Plane, up: int, down: int, pad: PadArg): (r: Result<Plane>)
    requires p.Valid() && IsKernel(k)
    ensures UpsampleStage(p, up).Err? ==> r == Err(PadSize)
    ensures UpsampleStage(p, up).Ok? && NormalizePad(pad).Err? ==> r == Err(PadIndex)
    ensures UpsampleStage(p, up).Ok? && NormalizePad(pad).Ok? && CheckedPad(UpsampleStage(p, up).value, NormalizePad(pad).value).Err? ==>
              r == CheckedPad(UpsampleStage(p, up).value, NormalizePad(pad).value)
    ensures r.Ok? ==> r.value.Valid()
  {
    match UpsampleStage(p, up)
    case Err(e) => Err(e)
    case Ok(u) =>
      match NormalizePad(pad)
      case Err(e) => Err(e)
      case Ok(pd) =>
        match CheckedPad(u, pd)
        case Err(e) => Err(e)
        case Ok(q) =>
          if q.h < k.h || q.w < k.w then Err(KernelTooLarge)
          else
            var f := Filter(q, k);
            Ok(if down > 1 then Downsample(f, down, down) else f)
  }

  /** upfirdn2d_native on one channel-last plane. Its errors come in the
      order of its statements: the first view, the upsampling factors, the
      reshape to the net padded size, the convolution, and last the
      downsampling slice. */
  function Native(p: Plane, k: Plane, upX: int, upY: int, downX: int, downY: int,
                  padX0: int, padX1: int, padY0: int, padY1: int): (r: Result<Plane>)
    requires p.Valid() && IsKernel(k)
    ensures var outH, outW := p.h * upY + padY0 + padY1, p.w * upX + padX0 + padX1;
            ((p.h == 0 || p.w == 0) ==> r == Err(EmptyView))
            && (p.h >= 1 && p.w >= 1 && (upX < 1 || upY < 1) ==> r == Err(BadFactor))
            && (p.h >= 1 && p.w >= 1 && upX >= 1 && upY >= 1 && (outH <= 0 || outW <= 0) ==> r == Err(BadReshape))
            && (p.h >= 1 && p.w >= 1 && upX >= 1 && upY >= 1 && outH >= 1 && outW >= 1 && (outH < k.h || outW < k.w) ==>
                  r == Err(KernelTooLarge))
            && (p.h >= 1 && p.w >= 1 && upX >= 1 && upY >= 1 && outH >= k.h && outW >= k.w && (downX < 1 || downY < 1) ==>
                  r == Err(BadFactor))
    ensures r.Ok? ==> r.value.Valid()
  {
    if p.h == 0 || p.w == 0 then Err(EmptyView)
    else if upX < 1 || upY < 1 then Err(BadFactor)
    else
      var outH, outW := p.h * upY + padY0 + padY1, p.w * upX + padX0 + padX1;
      if outH <= 0 || outW <= 0 then Err(BadReshape)
      else if outH < k.h || outW < k.w then Err(KernelTooLarge)
      else if downX < 1 || downY < 1 then Err(BadFactor)
      else
        var u := Upsample(p, upY, upX);
        var padded := Pad(u, Pos(padX0), Pos(padX1), Pos(padY0), Pos(padY1));
        var cropped := Crop(padded, Pos(-padX0), Pos(-padX1), Pos(-padY0), Pos(-padY1));
        Ok(Downsample(Filter(cropped, k), downY, downX))
  }

  // ---------------------------------------------------------------------
  // Stage properties
  // ---------------------------------------------------------------------

  /** Upsampling places input (i, j) at (i * upY, j * upX). */
  lemma UpsampleAt(p: Plane, upY: nat, upX: nat, i: nat, j: nat)
    requires p.Valid() && upY >= 1 && upX >= 1 && i < p.h && j < p.w
    ensures i * upY < p.h * upY && j * upX < p.w * upX
    ensures Upsample(p, upY, upX).rows[i * upY][j * upX] == p.rows[i][j]
  {
    MulDivCancel(i, upY);
    MulDivCancel(j, upX);
    MulMono(i + 1, p.h, upY);
    MulMono(j + 1, p.w, upX);
    assert (i + 1) * upY == i * upY + upY;
    assert (j + 1) * upX == j * upX + upX;
  }

  /** Every position of the upsampled plane that is not a multiple of the
      factors holds zero. */
  lemma UpsampleZeroAt(p: Plane, upY: nat, upX: nat, y: nat, x: nat)
    requires p.Valid() && upY >= 1 && upX >= 1
    requires y < p.h * upY && x < p.w * upX && (y % upY != 0 || x % upX != 0)
    ensures Upsample(p, upY, upX).rows[y][x] == 0.0
  {
  }

  /** Downsampled (i, j) is input (i * downY, j * downX). */
  lemma DownsampleAt(p: Plane, downY: nat, downX: nat, i: nat, j: nat)
    requires p.Valid() && downY >= 1 && downX >= 1
    requires i < Downsample(p, downY, downX).h && j < Downsample(p, downY, downX).w
    ensures i * downY < p.h && j * downX < p.w
    ensures Downsample(p, downY, downX).rows[i][j] == p.rows[i * downY][j * downX]
  {
    StrideBelow(i, p.h, downY);
    StrideBelow(j, p.w, downX);
  }

  /** Every sample whose row and column are multiples of the factors
      survives downsampling, at (y / downY, x / downX). */
  lemma DownsampleHits(p: Plane, downY: nat, downX: nat, y: nat, x: nat)
    requires p.Valid() && downY >= 1 && downX >= 1
    requires y < p.h && x < p.w && y % downY == 0 && x % downX == 0
    ensures y / downY < Downsample(p, downY, downX).h && x / downX < Downsample(p, downY, downX).w
    ensures Downsample(p, downY, downX).rows[y / downY][x / downX] == p.rows[y][x]
  {
    var i, j := y / downY, x / downX;
    assert i * downY == y by { DivUnique(y, downY, i, 0); }
    assert j * downX == x by { DivUnique(x, downX, j, 0); }
    StrideBelow(i, p.h, downY);
    StrideBelow(j, p.w, downX);
    DownsampleAt(p, downY, downX, i, j);
  }

  /** Downsampling by the upsampling factors undoes the upsampling. */
  lemma UpThenDown(p: Plane, upY: nat, upX: nat)
    requires p.Valid() && upY >= 1 && upX >= 1
    ensures Downsample(Upsample(p, upY, upX), upY, upX) == p
  {
    var u := Upsample(p, upY, upX);
    var r := Downsample(u, upY, upX);
    DivUnique(p.h * upY + upY - 1, upY, p.h, upY - 1);
    DivUnique(p.w * upX + upX - 1, upX, p.w, upX - 1);
    forall i, j | 0 <= i < r.h && 0 <= j < r.w
      ensures r.rows[i][j] == p.rows[i][j]
    {
      DownsampleAt(u, upY, upX, i, j);
      UpsampleAt(p, upY, upX, i, j);
    }
    PlaneExt(r, p);
  }

  lemma UpsampleOne(p: Plane)
    requires p.Valid()
    ensures Upsample(p, 1, 1) == p
  {
    PlaneExt(Upsample(p, 1, 1), p);
  }

  lemma DownsampleOne(p: Plane)
    requires p.Valid()
    ensures Downsample(p, 1, 1) == p
  {
    PlaneExt(Downsample(p, 1, 1), p);
  }

  lemma PadZero(p: Plane)
    requires p.Valid()
    ensures Pad(p, 0, 0, 0, 0) == p
  {
    PlaneExt(Pad(p, 0, 0, 0, 0), p);
  }

  /** The native path's padding: padding by the positive parts and then
      slicing off the negative parts has net size h + top + bottom by
      w + left + right and equals the signed padding F.pad computes, so each
      negative entry removes exactly that many samples from its own edge. */
  lemma PadThenCrop(u: Plane, left: int, right: int, top: int, bottom: int)
    requires u.Valid() && u.h + top + bottom >= 0 && u.w + left + right >= 0
    ensures Pos(-top) + Pos(-bottom) <= u.h + Pos(top) + Pos(bottom)
    ensures Pos(-left) + Pos(-right) <= u.w + Pos(left) + Pos(right)
    ensures Crop(Pad(u, Pos(left), Pos(right), Pos(top), Pos(bottom)), Pos(-left), Pos(-right), Pos(-top), Pos(-bottom))
            == Pad(u, left, right, top, bottom)
  {
    var padded := Pad(u, Pos(left), Pos(right), Pos(top), Pos(bottom));
    var c := Crop(padded, Pos(-left), Pos(-right), Pos(-top), Pos(-bottom));
    var s := Pad(u, left, right, top, bottom);
    forall i, j | 0 <= i < c.h && 0 <= j < c.w
      ensures c.rows[i][j] == s.rows[i][j]
    {
      var y, x := Pos(-top) + i, Pos(-left) + j;
      assert c.rows[i][j] == padded.rows[y][x];
      assert y - Pos(top) == i - top && x - Pos(left) == j - left;
    }
    PlaneExt(c, s);
  }

  // ---------------------------------------------------------------------
  // The filter is a true convolution
  // ---------------------------------------------------------------------

  /** Row u of the convolution sum: kernel (u, v) times the input sample
      it is laid against when the kernel is not flipped by hand. */
  function ConvRowTerms(q: Plane, k: Plane, y: nat, x: nat, u: nat): nat -> real
    requires q.Valid() && k.Valid() && y + k.h <= q.h && x + k.w <= q.w && u < k.h
  {
    (v: nat) => if v < k.w then Tap(q.rows[y + k.h - 1 - u][x + k.w - 1 - v], k.rows[u][v]) else 0.0
  }

  /** The per-row sums of the convolution at (y, x). */
  function ConvTerms(q: Plane, k: Plane, y: nat, x: nat): nat -> real
    requires q.Valid() && k.Valid() && y + k.h <= q.h && x + k.w <= q.w
  {
    (u: nat) => if u < k.h then Sum(k.w, ConvRowTerms(q, k, y, x, u)) else 0.0
  }

  /** The textbook 2-D convolution at (y, x) of the valid region:
      sum over (u, v) of k[u][v] * q[y + kh - 1 - u][x + kw - 1 - v]. */
  function ConvolutionAt(q: Plane, k: Plane, y: nat, x: nat): real
    requires q.Valid() && k.Valid() && y + k.h <= q.h && x + k.w <= q.w
  {
    Sum(k.h, ConvTerms(q, k, y, x))
  }

  /** Correlating with the flipped kernel is convolving with the kernel:
      filtered (y, x) = sum of q[y + a][x + b] * k[kh-1-a][kw-1-b]
      = sum of k[u][v] * q[y + kh-1-u][x + kw-1-v]. */
  lemma FilterIsConvolution(q: Plane, k: Plane, y: nat, x: nat)
    requires q.Valid() && k.Valid() && y + k.h <= q.h && x + k.w <= q.w
    ensures Filter(q, k).rows[y][x] == ConvolutionAt(q, k, y, x)
  {
    var fk := Flip(k);
    forall a: nat | a < k.h
      ensures WindowTerms(q, fk, y, x)(a) == ConvTerms(q, k, y, x)(k.h - 1 - a)
    {
      var g := RowTerms(q, fk, y, x, a);
      var f := ConvRowTerms(q, k, y, x, k.h - 1 - a);
      forall b: nat | b < k.w
        ensures g(b) == f(k.w - 1 - b)
      {
        assert fk.rows[a][b] == k.rows[k.h - 1 - a][k.w - 1 - b];
      }
      SumReverse(k.w, f, g);
    }
    SumReverse(k.h, ConvTerms(q, k, y, x), WindowTerms(q, fk, y, x));
  }

  /** The kernel of top + 1 + ca rows and left + 1 + cb columns that is one
      at (ca, cb) and zero elsewhere. Filtering with it shifts the plane by
      top rows and left columns. */
  function Delta(top: nat, left: nat, ca: nat, cb: nat): (k: Plane)
    ensures IsKernel(k) && k.h == top + 1 + ca && k.w == left + 1 + cb
  {
    Plane(top + 1 + ca, left + 1 + cb,
      seq(top + 1 + ca, a requires 0 <= a < top + 1 + ca =>
        seq(left + 1 + cb, b requires 0 <= b < left + 1 + cb => if a == ca && b == cb then 1.0 else 0.0)))
  }

  /** The 1x1 kernel [[1]]. */
  function Unit(): (k: Plane)
    ensures IsKernel(k) && k.h == 1 && k.w == 1
  {
    Delta(0, 0, 0, 0)
  }

  /** Filtering with a delta kernel shifts the plane: output (y, x) is
      input (y + top, x + left). */
  lemma FilterDelta(q: Plane, top: nat, left: nat, ca: nat, cb: nat, y: nat, x: nat)
    requires q.Valid() && y + top + 1 + ca <= q.h && x + left + 1 + cb <= q.w
    ensures Filter(q, Delta(top, left, ca, cb)).rows[y][x] == q.rows[y + top][x + left]
  {
    var k := Delta(top, left, ca, cb);
    FilterIsConvolution(q, k, y, x);
    forall u: nat | u < k.h
      ensures ConvTerms(q, k, y, x)(u) == if u == ca then q.rows[y + top][x + left] else 0.0
    {
      DeltaRow(q, top, left, ca, cb, y, x, u);
    }
    SumSingle(k.h, ConvTerms(q, k, y, x), ca);
  }

  /** Row u of the convolution sum with a delta kernel: the one sample
      under the kernel's one when u is its row, zero otherwise. */
  lemma DeltaRow(q: Plane, top: nat, left: nat, ca: nat, cb: nat, y: nat, x: nat, u: nat)
    requires q.Valid() && y + top + 1 + ca <= q.h && x + left + 1 + cb <= q.w && u < top + 1 + ca
    ensures ConvTerms(q, Delta(top, left, ca, cb), y, x)(u)
            == if u == ca then q.rows[y + top][x + left] else 0.0
  {
    var k := Delta(top, left, ca, cb);
    var f := ConvRowTerms(q, k, y, x, u);
    assert ConvTerms(q, k, y, x)(u) == Sum(k.w, f);
    if u == ca {
      forall v: nat | v < k.w && v != cb
        ensures f(v) == 0.0
      {
        assert k.rows[u][v] == 0.0;
      }
      SumSingle(k.w, f, cb);
      assert y + k.h - 1 - u == y + top && x + k.w - 1 - cb == x + left;
      assert f(cb) == q.rows[y + top][x + left];
    } else {
      forall v: nat | v < k.w
        ensures f(v) == 0.0
      {
        assert k.rows[u][v] == 0.0;
      }
      SumZero(k.w, f);
    }
  }

  /** Filtering with [[1]] returns the plane unchanged. */
  lemma FilterUnit(q: Plane)
    requires q.Valid() && q.h >= 1 && q.w >= 1
    ensures Filter(q, Unit()) == q
  {
    var r := Filter(q, Unit());
    forall i, j | 0 <= i < r.h && 0 <= j < r.w
      ensures r.rows[i][j] == q.rows[i][j]
    {
      FilterDelta(q, 0, 0, 0, 0, i, j);
    }
    PlaneExt(r, q);
  }

  // ---------------------------------------------------------------------
  // Properties of the two implementations
  // ---------------------------------------------------------------------

  /** The native path succeeds exactly when every factor is at least one,
      the plane is non-empty and the net padded size is at least the
      kernel; its output is ((H' - kh) / downY + 1) by ((W' - kw) / downX + 1)
      with H' = h * upY + padY0 + padY1 and W' = w * upX + padX0 + padX1. */
  lemma NativeOutcome(p: Plane, k: Plane, upX: int, upY: int, downX: int, downY: int,
                      padX0: int, padX1: int, padY0: int, padY1: int)
    requires p.Valid() && IsKernel(k)
    ensures var r := Native(p, k, upX, upY, downX, downY, padX0, padX1, padY0, padY1);
            var outH, outW := p.h * upY + padY0 + padY1, p.w * upX + padX0 + padX1;
            (r.Ok? <==> upX >= 1 && upY >= 1 && downX >= 1 && downY >= 1 && p.h >= 1 && p.w >= 1
                        && outH >= k.h && outW >= k.w)
            && (r.Ok? ==> r.value.Valid() && r.value.h == (outH - k.h) / downY + 1
                                          && r.value.w == (outW - k.w) / downX + 1)
  {
    if upX >= 1 && upY >= 1 && downX >= 1 && downY >= 1 {
      DivAddOne(p.h * upY + padY0 + padY1 - k.h, downY);
      DivAddOne(p.w * upX + padX0 + padX1 - k.w, downX);
    }
  }

  /** Filtering and then downsampling by the fallback's factor gives
      ((h - kh) / down + 1) by ((w - kw) / down + 1). */
  lemma FilterDownSize(q: Plane, k: Plane, down: int)
    requires q.Valid() && IsKernel(k) && k.h <= q.h && k.w <= q.w
    ensures var f := Filter(q, k);
            var r := if down > 1 then Downsample(f, down, down) else f;
            r.Valid() && r.h == (q.h - k.h) / Effective(down) + 1 && r.w == (q.w - k.w) / Effective(down) + 1
  {
    var d := Effective(down);
    DivAddOne(q.h - k.h, d);
    DivAddOne(q.w - k.w, d);
    assert (q.h - k.h + 1 + d - 1) / d == (q.h - k.h + d) / d;
    assert (q.w - k.w + 1 + d - 1) / d == (q.w - k.w + d) / d;
  }

  /** The fallback fails when it upsamples an empty plane, on a pad tuple
      of unusable length, on a negative pad that crops past the end of its
      axis, and when the padded plane is smaller than the kernel; otherwise
      its output is ((H' - kh) / down + 1) by ((W' - kw) / down + 1), where
      a factor of at most one counts as one. */
  lemma FallbackOutcome(p: Plane, k: Plane, up: int, down: int, pad: PadArg)
    requires p.Valid() && IsKernel(k)
    ensures var r := Fallback(p, k, up, down, pad);
            NormalizePad(pad).Err? ==> r.Err? && r.error == (if up > 1 && (p.h == 0 || p.w == 0) then PadSize else PadIndex)
    ensures var r := Fallback(p, k, up, down, pad);
            NormalizePad(pad).Ok? ==>
              var pd, u, d := NormalizePad(pad).value, Effective(up), Effective(down);
              var outH, outW := p.h * u + pd.top + pd.bottom, p.w * u + pd.left + pd.right;
              (r.Ok? <==> (up <= 1 || (p.h >= 1 && p.w >= 1))
                          && p.h * u - Pos(-pd.top) - Pos(-pd.bottom) >= 0
                          && p.w * u - Pos(-pd.left) - Pos(-pd.right) >= 0
                          && outH >= k.h && outW >= k.w)
              && (r.Ok? ==> r.value.Valid() && r.value.h == (outH - k.h) / d + 1
                                            && r.value.w == (outW - k.w) / d + 1)
  {
    var r := Fallback(p, k, up, down, pad);
    if NormalizePad(pad).Ok? && UpsampleStage(p, up).Ok? {
      var pd := NormalizePad(pad).value;
      var u := UpsampleStage(p, up).value;
      if CheckedPad(u, pd).Ok? {
        var q := CheckedPad(u, pd).value;
        if q.h >= k.h && q.w >= k.w {
          FilterDownSize(q, k, down);
        }
      }
    }
  }

  /** On planes with samples, and unless a negative pad crops past the end
      of its axis (which the fallback's F.pad refuses), the fallback with
      (up, down, (p0, p1, p2, p3)) and the native path with
      up_x = up_y = up, down_x = down_y = down, pad_x0 = p0, pad_x1 = p1,
      pad_y0 = p2, pad_y1 = p3 both fail or both return the same plane;
      a fallback factor of at most one acts as one. */
  lemma FallbackAgreesWithNative(p: Plane, k: Plane, up: int, down: int,
                                 p0: int, p1: int, p2: int, p3: int)
    requires p.Valid() && IsKernel(k) && p.h >= 1 && p.w >= 1
    requires p.h * Effective(up) - Pos(-p2) - Pos(-p3) >= 0
    requires p.w * Effective(up) - Pos(-p0) - Pos(-p1) >= 0
    ensures var f := Fallback(p, k, up, down, PadTuple([p0, p1, p2, p3]));
            var n := Native(p, k, Effective(up), Effective(up), Effective(down), Effective(down), p0, p1, p2, p3);
            f.Ok? == n.Ok? && (f.Ok? ==> f == n)
  {
    var U, D := Effective(up), Effective(down);
    assert NormalizePad(PadTuple([p0, p1, p2, p3])) == Ok(Pad4(p0, p1, p2, p3));
    FallbackOutcome(p, k, up, down, PadTuple([p0, p1, p2, p3]));
    NativeOutcome(p, k, U, U, D, D, p0, p1, p2, p3);
    if p.h * U + p2 + p3 >= k.h && p.w * U + p0 + p1 >= k.w {
      AgreeOnSuccess(p, k, up, down, p0, p1, p2, p3);
    }
  }

  /** The successful case of FallbackAgreesWithNative: both paths filter
      the same signed padding of the same upsampled plane. */
  lemma AgreeOnSuccess(p: Plane, k: Plane, up: int, down: int, p0: int, p1: int, p2: int, p3: int)
    requires p.Valid() && IsKernel(k) && p.h >= 1 && p.w >= 1
    requires p.h * Effective(up) - Pos(-p2) - Pos(-p3) >= 0
    requires p.w * Effective(up) - Pos(-p0) - Pos(-p1) >= 0
    requires p.h * Effective(up) + p2 + p3 >= k.h && p.w * Effective(up) + p0 + p1 >= k.w
    ensures Fallback(p, k, up, down, PadTuple([p0, p1, p2, p3]))
            == Native(p, k, Effective(up), Effective(up), Effective(down), Effective(down), p0, p1, p2, p3)
  {
    FallbackOnSuccess(p, k, up, down, p0, p1, p2, p3);
    NativeOnSuccess(p, k, up, down, p0, p1, p2, p3);
  }

  /** The fallback's result when every stage succeeds: upsample, pad by
      the signed amounts, filter, downsample. */
  lemma FallbackOnSuccess(p: Plane, k: Plane, up: int, down: int, p0: int, p1: int, p2: int, p3: int)
    requires p.Valid() && IsKernel(k) && p.h >= 1 && p.w >= 1
    requires p.h * Effective(up) - Pos(-p2) - Pos(-p3) >= 0
    requires p.w * Effective(up) - Pos(-p0) - Pos(-p1) >= 0
    requires p.h * Effective(up) + p2 + p3 >= k.h && p.w * Effective(up) + p0 + p1 >= k.w
    ensures var u := Upsample(p, Effective(up), Effective(up));
            u.h + p2 + p3 >= k.h && u.w + p0 + p1 >= k.w &&
            Fallback(p, k, up, down, PadTuple([p0, p1, p2, p3]))
            == Ok(Downsample(Filter(Pad(u, p0, p1, p2, p3), k), Effective(down), Effective(down)))
  {
    var U, D := Effective(up), Effective(down);
    var pd := Pad4(p0, p1, p2, p3);
    assert NormalizePad(PadTuple([p0, p1, p2, p3])) == Ok(pd);
    var u := Upsample(p, U, U);
    assert UpsampleStage(p, up) == Ok(u) by {
      if up <= 1 {
        UpsampleOne(p);
      }
    }
    var q := Pad(u, p0, p1, p2, p3);
    assert CheckedPad(u, pd) == Ok(q);
    var fl := Filter(q, k);
    var r := Downsample(fl, D, D);
    assert (if down > 1 then Downsample(fl, down, down) else fl) == r by {
      if down <= 1 {
        DownsampleOne(fl);
      }
    }
  }

  /** The native path's result under the same conditions is the same
      plane: its pad-then-slice equals the signed padding. */
  lemma NativeOnSuccess(p: Plane, k: Plane, up: int, down: int, p0: int, p1: int, p2: int, p3: int)
    requires p.Valid() && IsKernel(k) && p.h >= 1 && p.w >= 1
    requires p.h * Effective(up) - Pos(-p2) - Pos(-p3) >= 0
    requires p.w * Effective(up) - Pos(-p0) - Pos(-p1) >= 0
    requires p.h * Effective(up) + p2 + p3 >= k.h && p.w * Effective(up) + p0 + p1 >= k.w
    ensures var u := Upsample(p, Effective(up), Effective(up));
            u.h + p2 + p3 >= k.h && u.w + p0 + p1 >= k.w &&
            Native(p, k, Effective(up), Effective(up), Effective(down), Effective(down), p0, p1, p2, p3)
            == Ok(Downsample(Filter(Pad(u, p0, p1, p2, p3), k), Effective(down), Effective(down)))
  {
    var U, D := Effective(up), Effective(down);
    var u := Upsample(p, U, U);
    var cropped := Crop(Pad(u, Pos(p0), Pos(p1), Pos(p2), Pos(p3)), Pos(-p0), Pos(-p1), Pos(-p2), Pos(-p3));
    assert cropped == Pad(u, p0, p1, p2, p3) by {
      PadThenCrop(u, p0, p1, p2, p3);
    }
    assert Native(p, k, U, U, D, D, p0, p1, p2, p3) == Ok(Downsample(Filter(cropped, k), D, D));
  }

  /** The divergence the agreement above excludes: a 1x1 plane padded by
      -2 on the left and 3 on the right. The fallback's F.pad first narrows
      the width by 2 and fails; the native path pads to width 4, slices
      off the first 2 columns and returns two zero samples. */
  lemma OverCropDivergence()
    ensures Fallback(Plane(1, 1, [[5.0]]), Unit(), 1, 1, PadTuple([-2, 3, 0, 0])) == Err(PadCrop)
    ensures Native(Plane(1, 1, [[5.0]]), Unit(), 1, 1, 1, 1, -2, 3, 0, 0) == Ok(Plane(1, 2, [[0.0, 0.0]]))
  {
    var p := Plane(1, 1, [[5.0]]);
    assert NormalizePad(PadTuple([-2, 3, 0, 0])) == Ok(Pad4(-2, 3, 0, 0));
    assert CheckedPad(p, Pad4(-2, 3, 0, 0)) == Err(PadCrop);
    OverCropNative(p);
  }

  /** The native half of OverCropDivergence, stage by stage. */
  lemma OverCropNative(p: Plane)
    requires p == Plane(1, 1, [[5.0]])
    ensures Native(p, Unit(), 1, 1, 1, 1, -2, 3, 0, 0) == Ok(Plane(1, 2, [[0.0, 0.0]]))
  {
    UpsampleOne(p);
    var padded := Pad(p, 0, 3, 0, 0);
    assert padded.rows[0][2] == 0.0 && padded.rows[0][3] == 0.0;
    var c := Crop(padded, 2, 0, 0, 0);
    assert c.rows[0][0] == 0.0 && c.rows[0][1] == 0.0;
    PlaneExt(c, Plane(1, 2, [[0.0, 0.0]]));
    FilterUnit(c);
    DownsampleOne(c);
  }

  /** With up = down = 1, zero padding and the kernel [[1]], the native
      path returns its input unchanged. */
  lemma NativeIdentity(p: Plane)
    requires p.Valid() && p.h >= 1 && p.w >= 1
    ensures Native(p, Unit(), 1, 1, 1, 1, 0, 0, 0, 0) == Ok(p)
  {
    UpsampleOne(p);
    PadZero(p);
    assert Crop(p, 0, 0, 0, 0) == p by { PlaneExt(Crop(p, 0, 0, 0, 0), p); }
    FilterUnit(p);
    DownsampleOne(p);
  }

  /** With the default arguments up = 1, down = 1, pad = (0, 0) and the
      kernel [[1]], the fallback returns its input unchanged. */
  lemma FallbackIdentity(p: Plane)
    requires p.Valid() && p.h >= 1 && p.w >= 1
    ensures Fallback(p, Unit(), 1, 1, PadTuple([0, 0])) == Ok(p)
  {
    PadZero(p);
    FilterUnit(p);
  }

  /** Non-positive pads with up = down = 1 and the kernel [[1]] crop: each
      negative entry removes that many columns or rows from its own edge,
      in both implementations. */
  lemma NegativePadsCrop(p: Plane, p0: int, p1: int, p2: int, p3: int)
    requires p.Valid() && p0 <= 0 && p1 <= 0 && p2 <= 0 && p3 <= 0
    requires p.h + p2 + p3 >= 1 && p.w + p0 + p1 >= 1
    ensures Native(p, Unit(), 1, 1, 1, 1, p0, p1, p2, p3) == Ok(Crop(p, -p0, -p1, -p2, -p3))
    ensures Fallback(p, Unit(), 1, 1, PadTuple([p0, p1, p2, p3])) == Ok(Crop(p, -p0, -p1, -p2, -p3))
  {
    NegativePadsCropNative(p, p0, p1, p2, p3);
    FallbackAgreesWithNative(p, Unit(), 1, 1, p0, p1, p2, p3);
  }

  /** The native half of NegativePadsCrop. */
  lemma NegativePadsCropNative(p: Plane, p0: int, p1: int, p2: int, p3: int)
    requires p.Valid() && p0 <= 0 && p1 <= 0 && p2 <= 0 && p3 <= 0
    requires p.h + p2 + p3 >= 1 && p.w + p0 + p1 >= 1
    ensures Native(p, Unit(), 1, 1, 1, 1, p0, p1, p2, p3) == Ok(Crop(p, -p0, -p1, -p2, -p3))
  {
    var c := Crop(p, -p0, -p1, -p2, -p3);
    UpsampleOne(p);
    PadZero(p);
    assert Crop(Pad(p, 0, 0, 0, 0), -p0, -p1, -p2, -p3) == c;
    FilterUnit(c);
    DownsampleOne(c);
  }

  /** The crop example: a 4x4 plane with width pads -1 and -1 and a 1x1
      kernel gives its middle 4x2 slice. */
  lemma CropExample(p: Plane)
    requires p.Valid() && p.h == 4 && p.w == 4
    ensures var mid := Plane(4, 2, seq(4, i requires 0 <= i < 4 => p.rows[i][1..3]));
            Native(p, Unit(), 1, 1, 1, 1, -1, -1, 0, 0) == Ok(mid)
            && Fallback(p, Unit(), 1, 1, PadTuple([-1, -1, 0, 0])) == Ok(mid)
  {
    NegativePadsCrop(p, -1, -1, 0, 0);
    var mid := Plane(4, 2, seq(4, i requires 0 <= i < 4 => p.rows[i][1..3]));
    PlaneExt(Crop(p, 1, 1, 0, 0), mid);
  }

  /** Filtering with the delta kernel of shift (top, left) and one at
      (ca, cb) crops top rows from the top, ca from the bottom, left
      columns from the left and cb from the right. */
  lemma FilterDeltaIsCrop(q: Plane, top: nat, left: nat, ca: nat, cb: nat)
    requires q.Valid() && top + 1 + ca <= q.h && left + 1 + cb <= q.w
    ensures Filter(q, Delta(top, left, ca, cb)) == Crop(q, left, cb, top, ca)
  {
    var f := Filter(q, Delta(top, left, ca, cb));
    var c := Crop(q, left, cb, top, ca);
    forall i, j | 0 <= i < f.h && 0 <= j < f.w
      ensures f.rows[i][j] == c.rows[i][j]
    {
      FilterDelta(q, top, left, ca, cb, i, j);
      assert c.rows[i][j] == q.rows[top + i][left + j];
      assert i + top == top + i && j + left == left + j;
    }
    PlaneExt(f, c);
  }

  /** Cropping what was padded gives the plane back. */
  lemma CropUndoesPad(u: Plane, left: nat, right: nat, top: nat, bottom: nat)
    requires u.Valid()
    ensures Crop(Pad(u, left, right, top, bottom), left, right, top, bottom) == u
  {
    var c := Crop(Pad(u, left, right, top, bottom), left, right, top, bottom);
    forall i, j | 0 <= i < u.h && 0 <= j < u.w
      ensures c.rows[i][j] == u.rows[i][j]
    {
      PadInside(u, left, right, top, bottom, i, j);
    }
    PlaneExt(c, u);
  }

  /** Padding by top / ca rows and left / cb columns and filtering with
      the delta kernel of shift (top, left) and one at (ca, cb) gives the
      plane back. */
  lemma DeltaUndoesPad(u: Plane, top: nat, left: nat, ca: nat, cb: nat)
    requires u.Valid() && u.h >= 1 && u.w >= 1
    ensures Filter(Pad(u, left, cb, top, ca), Delta(top, left, ca, cb)) == u
  {
    FilterDeltaIsCrop(Pad(u, left, cb, top, ca), top, left, ca, cb);
    CropUndoesPad(u, left, cb, top, ca);
  }

  /** Upsampling by k, padding by top / ca rows and left / cb columns,
      filtering with the delta kernel of shift (top, left) and one at
      (ca, cb) and downsampling by k reproduces the input. */
  lemma DeltaRoundTrip(p: Plane, up: nat, top: nat, left: nat, ca: nat, cb: nat)
    requires p.Valid() && p.h >= 1 && p.w >= 1 && up >= 1
    ensures Native(p, Delta(top, left, ca, cb), up, up, up, up, left, cb, top, ca) == Ok(p)
  {
    var k := Delta(top, left, ca, cb);
    var u := Upsample(p, up, up);
    MulMono(1, p.h, up);
    MulMono(1, p.w, up);
    var padded := Pad(u, left, cb, top, ca);
    assert Pad(u, Pos(left), Pos(cb), Pos(top), Pos(ca)) == padded;
    var cropped := Crop(padded, Pos(-(left as int)), Pos(-(cb as int)), Pos(-(top as int)), Pos(-(ca as int)));
    assert cropped == padded by {
      PlaneExt(cropped, padded);
    }
    assert Filter(padded, k) == u by {
      DeltaUndoesPad(u, top, left, ca, cb);
    }
    assert Downsample(u, up, up) == p by {
      UpThenDown(p, up, up);
    }
    assert Native(p, k, up, up, up, up, left, cb, top, ca) == Ok(Downsample(Filter(cropped, k), up, up));
  }
}
