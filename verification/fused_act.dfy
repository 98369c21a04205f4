/** The fused activation: add a per-channel bias, apply the leaky
    rectifier, multiply by a scale. Modelled are the CPU fallback of
    `fused_leaky_relu` (an exact elementwise rule with torch broadcasting
    of the bias), the `FusedLeakyReLU` module that stores the bias, slope
    and scale, and the bookkeeping of the autograd function
    `FusedLeakyReLUFunction`: what forward records on its context, what
    backward recovers from it and which gradients come back empty. The
    compiled kernels that compute the accelerated values are parameters. */
module FusedAct {
  import opened Outcome

  // ---------------------------------------------------------------------
  // Tensors
  // ---------------------------------------------------------------------

  function Product(s: seq<nat>): nat
  {
    if s == [] then 1 else s[0] * Product(s[1..])
  }

  /** A tensor of rank at least two. Its elements are stored per
      (batch, channel) pair, the trailing axes flattened in row-major
      order: the activation never looks at their positions. */
  datatype Tensor = Tensor(shape: seq<nat>, data: seq<seq<seq<real>>>)
  {
    /** The number of elements per (batch, channel) pair. */
    function Inner(): nat
      requires |shape| >= 2
    {
      Product(shape[2..])
    }

    predicate Valid()
    {
      |shape| >= 2 && |data| == shape[0] &&
      forall n :: 0 <= n < shape[0] ==>
        |data[n]| == shape[1] && forall c :: 0 <= c < shape[1] ==> |data[n][c]| == Inner()
    }
  }

  /** A tensor of the given shape whose element (n, c, r) is f(n, c, r). */
  function Tabulate(shape: seq<nat>, f: (nat, nat, nat) -> real): (t: Tensor)
    requires |shape| >= 2
    ensures t.Valid() && t.shape == shape
    ensures forall n, c, i :: 0 <= n < shape[0] && 0 <= c < shape[1] && 0 <= i < Product(shape[2..]) ==>
              t.data[n][c][i] == f(n, c, i)
  {
    Tensor(shape,
      seq(shape[0], n requires 0 <= n < shape[0] =>
        seq(shape[1], c requires 0 <= c < shape[1] =>
          seq(Product(shape[2..]), r requires 0 <= r < Product(shape[2..]) => f(n, c, r)))))
  }

  // ---------------------------------------------------------------------
  // Broadcasting the bias
  // ---------------------------------------------------------------------

  /** torch's rule for one axis: equal sizes, or a size one that stretches. */
  function BroadcastDim(a: nat, b: nat): Option<nat>
  {
    if a == b then Some(a)
    else if a == 1 then Some(b)
    else if b == 1 then Some(a)
    else None
  }

  /** Broadcasting two shapes of the same rank, axis by axis. */
  function BroadcastShapes(s: seq<nat>, t: seq<nat>): Option<seq<nat>>
    requires |s| == |t|
  {
    if s == [] then Some([])
    else
      match (BroadcastDim(s[0], t[0]), BroadcastShapes(s[1..], t[1..]))
      case (Some(d), Some(rest)) => Some([d] + rest)
      case _ => None
  }

  /** The bias view (1, C, 1, ..., 1): the bias on axis 1 and
      input.ndim - bias.ndim - 1 trailing ones for a 1-D bias. */
  function BiasViewShape(ndim: nat, channels: nat): (s: seq<nat>)
    requires ndim >= 2
    ensures |s| == ndim && s[1] == channels
    ensures forall i :: 0 <= i < ndim && i != 1 ==> s[i] == 1
  {
    [1, channels] + seq(ndim - 2, _ => 1)
  }

  /** Two shapes broadcast exactly when every axis does, to the axis-wise
      results. */
  lemma {:induction false} BroadcastShapesAxiswise(s: seq<nat>, t: seq<nat>)
    requires |s| == |t|
    ensures BroadcastShapes(s, t).Some? <==> forall i :: 0 <= i < |s| ==> BroadcastDim(s[i], t[i]).Some?
    ensures BroadcastShapes(s, t).Some? ==>
              |BroadcastShapes(s, t).value| == |s| &&
              forall i :: 0 <= i < |s| ==> BroadcastShapes(s, t).value[i] == BroadcastDim(s[i], t[i]).value
  {
    if s != [] {
      BroadcastShapesAxiswise(s[1..], t[1..]);
      assert forall i :: 1 <= i < |s| ==> s[1..][i - 1] == s[i] && t[1..][i - 1] == t[i];
    }
  }

  /** The bias view stretches along every axis but axis 1, so broadcasting
      fails only on a channel mismatch, and otherwise keeps the input's
      shape except on axis 1. */
  lemma BiasBroadcast(shape: seq<nat>, channels: nat)
    requires |shape| >= 2
    ensures var r := BroadcastShapes(shape, BiasViewShape(|shape|, channels));
            (r.Some? <==> BroadcastDim(shape[1], channels).Some?)
            && (r.Some? ==> r.value == shape[1 := BroadcastDim(shape[1], channels).value])
  {
    var v := BiasViewShape(|shape|, channels);
    BroadcastShapesAxiswise(shape, v);
    if BroadcastDim(shape[1], channels).Some? {
      var target := shape[1 := BroadcastDim(shape[1], channels).value];
      forall i | 0 <= i < |shape|
        ensures BroadcastDim(shape[i], v[i]) == Some(target[i])
      {
        if i != 1 {
          assert v[i] == 1;
        }
      }
      assert BroadcastShapes(shape, v).value == target;
    } else {
      assert BroadcastDim(shape[1], v[1]).None?;
    }
  }

  // ---------------------------------------------------------------------
  // The elementwise rule
  // ---------------------------------------------------------------------

  /** F.leaky_relu on one value. For a slope of at most one it is the
      larger of v and negativeSlope * v. */
  function Leaky(v: real, negativeSlope: real): (r: real)
    ensures negativeSlope <= 1.0 ==> r >= v && r >= negativeSlope * v && (r == v || r == negativeSlope * v)
  {
    if v > 0.0 then v else v * negativeSlope
  }

  /** One element of F.leaky_relu(input, negativeSlope) * scale. */
  function LeakyScaled(v: real, negativeSlope: real, scale: real): real
  {
    Leaky(v, negativeSlope) * scale
  }

  /** input + bias.view(1, C, 1, ..., 1) under torch broadcasting: a
      channel axis of size one in the input stretches to the bias length, a
      bias of length one stretches to every channel, and any other mismatch
      fails. */
  function AddBias(x: Tensor, b: seq<real>): (r: Result<Tensor>)
    requires x.Valid()
    ensures r.Ok? <==> |b| == x.shape[1] || |b| == 1 || x.shape[1] == 1
    ensures r.Ok? ==> r.value.Valid() && r.value.shape == x.shape[1 := if x.shape[1] == 1 then |b| else x.shape[1]]
    ensures var s := BroadcastShapes(x.shape, BiasViewShape(|x.shape|, |b|));
            (r.Ok? <==> s.Some?) && (r.Ok? ==> r.value.shape == s.value)
  {
    BiasBroadcast(x.shape, |b|);
    if BroadcastDim(x.shape[1], |b|).None? then Err(BroadcastShape)
    else
      var shape := x.shape[1 := BroadcastDim(x.shape[1], |b|).value];
      Ok(Tabulate(shape, (n: nat, c: nat, i: nat) =>
        if n < x.shape[0] && c < shape[1] && i < x.Inner() then
          x.data[n][if x.shape[1] == 1 then 0 else c][i] + b[if |b| == 1 then 0 else c]
        else 0.0))
  }

  /** F.leaky_relu(t, negativeSlope) * scale, element by element. */
  function Activate(t: Tensor, negativeSlope: real, scale: real): (r: Tensor)
    requires t.Valid()
    ensures r.Valid() && r.shape == t.shape
  {
    Tabulate(t.shape, (n: nat, c: nat, i: nat) =>
      if n < t.shape[0] && c < t.shape[1] && i < t.Inner() then LeakyScaled(t.data[n][c][i], negativeSlope, scale)
      else 0.0)
  }

  /** The CPU fallback of fused_leaky_relu: add the bias when there is one,
      then the leaky rectifier, then the scale. */
  function FusedLeakyRelu(x: Tensor, bias: Option<seq<real>>, negativeSlope: real, scale: real): (r: Result<Tensor>)
    requires x.Valid()
    ensures r.Ok? <==> bias.None? || |bias.value| == x.shape[1] || |bias.value| == 1 || x.shape[1] == 1
    ensures r.Err? ==> r.error == BroadcastShape
    ensures r.Ok? ==> r.value.Valid() &&
                      r.value.shape == x.shape[1 := if bias.Some? && x.shape[1] == 1 then |bias.value| else x.shape[1]]
  {
    match bias
    case None => Ok(Activate(x, negativeSlope, scale))
    case Some(b) =>
      match AddBias(x, b)
      case Err(e) => Err(e)
      case Ok(pre) => Ok(Activate(pre, negativeSlope, scale))
  }

  /** Two well-formed tensors of the same shape that agree everywhere are equal. */
  lemma TensorExt(s: Tensor, t: Tensor)
    requires s.Valid() && t.Valid() && s.shape == t.shape
    requires forall n, c, i :: 0 <= n < s.shape[0] && 0 <= c < s.shape[1] && 0 <= i < s.Inner() ==>
               s.data[n][c][i] == t.data[n][c][i]
    ensures s == t
  {
    forall n | 0 <= n < s.shape[0]
      ensures s.data[n] == t.data[n]
    {
      forall c | 0 <= c < s.shape[1]
        ensures s.data[n][c] == t.data[n][c]
      {
        assert forall i :: 0 <= i < s.Inner() ==> s.data[n][c][i] == t.data[n][c][i];
      }
    }
  }

  /** The leaky rectifier followed by the scale, by cases on the sign. */
  lemma LeakyScaledCases(v: real, negativeSlope: real, scale: real)
    ensures LeakyScaled(v, negativeSlope, scale) == (if v >= 0.0 then scale * v else scale * negativeSlope * v)
    ensures v == 0.0 ==> LeakyScaled(v, negativeSlope, scale) == 0.0
  {
    if v == 0.0 {
      assert v * negativeSlope == 0.0;
    }
  }

  /** With one bias value per channel, element (n, c, i) of the sum is
      input (n, c, i) plus bias[c]. */
  lemma AddBiasAt(x: Tensor, b: seq<real>, n: nat, c: nat, i: nat)
    requires x.Valid() && |b| == x.shape[1]
    requires n < x.shape[0] && c < x.shape[1] && i < x.Inner()
    ensures AddBias(x, b).Ok? && AddBias(x, b).value.shape == x.shape
    ensures AddBias(x, b).value.data[n][c][i] == x.data[n][c][i] + b[c]
  {
    assert x.shape[1 := x.shape[1]] == x.shape;
  }

  /** The pre-activation of element (n, c, i): the input element plus the
      bias of its channel, when there is a bias. */
  function PreActivation(x: Tensor, bias: Option<seq<real>>, n: nat, c: nat, i: nat): real
    requires x.Valid() && (bias.None? || |bias.value| == x.shape[1])
    requires n < x.shape[0] && c < x.shape[1] && i < x.Inner()
  {
    match bias
    case None => x.data[n][c][i]
    case Some(b) => x.data[n][c][i] + b[c]
  }

  /** With no bias, or one bias value per channel, the output has the
      input's shape and element (n, c, i) is F.leaky_relu(v) * scale for
      the pre-activation v = x[n][c][i] + bias[c]; LeakyScaledCases gives
      that value by the sign of v. */
  lemma FusedLeakyReluAt(x: Tensor, bias: Option<seq<real>>, negativeSlope: real, scale: real,
                         n: nat, c: nat, i: nat)
    requires x.Valid() && (bias.None? || |bias.value| == x.shape[1])
    requires n < x.shape[0] && c < x.shape[1] && i < x.Inner()
    ensures var r := FusedLeakyRelu(x, bias, negativeSlope, scale);
            r.Ok? && r.value.Valid() && r.value.shape == x.shape
            && r.value.data[n][c][i] == LeakyScaled(PreActivation(x, bias, n, c, i), negativeSlope, scale)
  {
    match bias
    case None =>
      assert PreActivation(x, bias, n, c, i) == x.data[n][c][i];
      ActivateAt(x, negativeSlope, scale, n, c, i);
    case Some(b) =>
      assert PreActivation(x, bias, n, c, i) == x.data[n][c][i] + b[c];
      BiasedAt(x, b, negativeSlope, scale, n, c, i);
  }

  /** The biased case of FusedLeakyReluAt. */
  lemma BiasedAt(x: Tensor, b: seq<real>, negativeSlope: real, scale: real, n: nat, c: nat, i: nat)
    requires x.Valid() && |b| == x.shape[1]
    requires n < x.shape[0] && c < x.shape[1] && i < x.Inner()
    ensures FusedLeakyRelu(x, Some(b), negativeSlope, scale).Ok?
    ensures FusedLeakyRelu(x, Some(b), negativeSlope, scale).value.shape == x.shape
    ensures FusedLeakyRelu(x, Some(b), negativeSlope, scale).value.Valid()
    ensures FusedLeakyRelu(x, Some(b), negativeSlope, scale).value.data[n][c][i]
            == LeakyScaled(x.data[n][c][i] + b[c], negativeSlope, scale)
  {
    AddBiasAt(x, b, n, c, i);
    var pre := AddBias(x, b).value;
    ActivateAt(pre, negativeSlope, scale, n, c, i);
  }

  /** Element (n, c, i) of the activation is the scaled leaky rectifier of
      the same element of its input. */
  lemma ActivateAt(t: Tensor, negativeSlope: real, scale: real, n: nat, c: nat, i: nat)
    requires t.Valid() && n < t.shape[0] && c < t.shape[1] && i < t.Inner()
    ensures Activate(t, negativeSlope, scale).data[n][c][i] == LeakyScaled(t.data[n][c][i], negativeSlope, scale)
  {
  }

  /** The zero vector of length n: the bias a fresh module starts with. */
  function Zeros(n: nat): (z: seq<real>)
    ensures |z| == n && forall i :: 0 <= i < n ==> z[i] == 0.0
  {
    seq(n, _ => 0.0)
  }

  /** Adding an all-zero bias leaves the input unchanged. */
  lemma AddZeroBias(x: Tensor)
    requires x.Valid()
    ensures AddBias(x, Zeros(x.shape[1])) == Ok(x)
  {
    var z := Zeros(x.shape[1]);
    assert x.shape[1 := x.shape[1]] == x.shape;
    var s := AddBias(x, z).value;
    forall n, c, i | 0 <= n < x.shape[0] && 0 <= c < x.shape[1] && 0 <= i < x.Inner()
      ensures s.data[n][c][i] == x.data[n][c][i]
    {
      AddBiasAt(x, z, n, c, i);
    }
    TensorExt(s, x);
  }

  /** An absent bias and an all-zero bias give the same result. */
  lemma AbsentBiasIsZeroBias(x: Tensor, negativeSlope: real, scale: real)
    requires x.Valid()
    ensures FusedLeakyRelu(x, None, negativeSlope, scale)
            == FusedLeakyRelu(x, Some(Zeros(x.shape[1])), negativeSlope, scale)
  {
    AddZeroBias(x);
  }

  /** With a positive slope and scale the activation keeps the sign of the
      pre-activation: positive stays positive, zero stays zero, negative
      stays negative. */
  lemma LeakyKeepsSign(v: real, negativeSlope: real, scale: real)
    requires negativeSlope > 0.0 && scale > 0.0
    ensures LeakyScaled(v, negativeSlope, scale) > 0.0 <==> v > 0.0
    ensures LeakyScaled(v, negativeSlope, scale) == 0.0 <==> v == 0.0
  {
    if v < 0.0 {
      assert v * negativeSlope < 0.0;
      assert v * negativeSlope * scale < 0.0;
    }
  }

  // ---------------------------------------------------------------------
  // The module
  // ---------------------------------------------------------------------

  /** The nn.Module: a learnable bias of `channel` zeros (or none), and the
      slope and scale it was built with. */
  class FusedLeakyReLU {
    var bias: Option<seq<real>>
    var negativeSlope: real
    var scale: real

    constructor (channel: nat, hasBias: bool, negativeSlope: real, scale: real)
      ensures bias == (if hasBias then Some(Zeros(channel)) else None)
      ensures this.negativeSlope == negativeSlope && this.scale == scale
    {
      bias := if hasBias then Some(Zeros(channel)) else None;
      this.negativeSlope := negativeSlope;
      this.scale := scale;
    }

    /** forward: fused_leaky_relu with the stored bias, slope and scale. */
    function Forward(input: Tensor): (r: Result<Tensor>)
      requires input.Valid()
      reads this
      ensures r.Ok? <==> bias.None? || |bias.value| == input.shape[1] || |bias.value| == 1 || input.shape[1] == 1
      ensures r.Ok? ==> r.value.Valid() && |r.value.shape| == |input.shape|
    {
      FusedLeakyRelu(input, bias, negativeSlope, scale)
    }
  }

  /** A module whose bias is still the zeros it was built with (or that has
      no bias) computes scale * leaky(x) on inputs with that many channels. */
  lemma FreshModuleForward(m: FusedLeakyReLU, x: Tensor)
    requires x.Valid() && (m.bias.None? || m.bias == Some(Zeros(x.shape[1])))
    ensures m.Forward(x) == Ok(Activate(x, m.negativeSlope, m.scale))
  {
    AddZeroBias(x);
  }

  // ---------------------------------------------------------------------
  // The autograd function
  // ---------------------------------------------------------------------

  /** A tensor kept by save_for_backward: the input, the bias, or the empty
      placeholder input.new_empty(0). */
  datatype Saved = SavedInput(input: Tensor) | SavedBias(bias: seq<real>) | SavedEmpty

  /** What forward saves: [input, bias, empty] with a bias, [input, empty]
      without one. */
  function SaveArgs(input: Tensor, bias: Option<seq<real>>): (args: seq<Saved>)
    ensures |args| == (if bias.Some? then 3 else 2)
    ensures args[0] == SavedInput(input) && args[|args| - 1] == SavedEmpty
    ensures bias.Some? ==> args[1] == SavedBias(bias.value)
  {
    [SavedInput(input)] + (if bias.Some? then [SavedBias(bias.value)] else []) + [SavedEmpty]
  }

  /** What backward reads back: args[0], args[1] only when ctx.bias says a
      bias was given, and args[-1]. */
  function RecoverArgs(hasBias: bool, args: seq<Saved>): (Saved, Option<Saved>, Saved)
    requires |args| >= (if hasBias then 2 else 1)
  {
    (args[0], if hasBias then Some(args[1]) else None, args[|args| - 1])
  }

  /** Backward recovers the input, the bias exactly when one was given, and
      the placeholder. */
  lemma RecoverSaved(input: Tensor, bias: Option<seq<real>>)
    ensures RecoverArgs(bias.Some?, SaveArgs(input, bias))
            == (SavedInput(input), if bias.Some? then Some(SavedBias(bias.value)) else None, SavedEmpty)
  {
  }

  /** fused.fused_bias_act: the compiled forward kernel, outside the model. */
  type ForwardKernel = (Tensor, Option<seq<real>>, real, real) -> Tensor

  /** fused.fused_bias_act_backward, outside the model: the value it writes
      at each position of the grad_input buffer (an index (n, c, i) of the
      input) and of the grad_bias buffer (a channel), given grad_output, the
      input, the bias, the slope and the scale. */
  datatype BackwardKernel = BackwardKernel(
    inputGrad: (Tensor, Tensor, Option<seq<real>>, real, real, nat, nat, nat) -> real,
    biasGrad: (Tensor, Tensor, Option<seq<real>>, real, real, nat) -> real)

  /** The autograd context: ctx.bias, ctx.negative_slope, ctx.scale and the
      saved tensors. */
  class FusedLeakyReLUContext {
    var hasBias: bool
    var negativeSlope: real
    var scale: real
    var saved: seq<Saved>

    /** A context before forward has run: nothing saved. */
    constructor ()
      ensures saved == [] && !hasBias
    {
      hasBias := false;
      negativeSlope := 0.0;
      scale := 0.0;
      saved := [];
    }

    /** The state forward leaves for backward: saved tensors laid out as
        SaveArgs lays them out, for a bias exactly when ctx.bias is set. */
    predicate Ready()
      reads this
    {
      |saved| == (if hasBias then 3 else 2)
      && saved[0].SavedInput? && saved[0].input.Valid()
      && (hasBias ==> saved[1].SavedBias?)
      && saved[|saved| - 1] == SavedEmpty
    }

    /** The input that forward saved. */
    function Input(): Tensor
      requires Ready()
      reads this
    {
      saved[0].input
    }

    /** The bias that forward saved, if it was given one. */
    function Bias(): Option<seq<real>>
      requires Ready()
      reads this
    {
      if hasBias then Some(saved[1].bias) else None
    }

    /** FusedLeakyReLUFunction.forward: records whether a bias was given,
        the slope and the scale, saves [input, bias, empty] or
        [input, empty], and returns what the compiled kernel computes. */
    method Forward(input: Tensor, bias: Option<seq<real>>, negativeSlope: real, scale: real,
                   kernel: ForwardKernel) returns (out: Tensor)
      requires input.Valid()
      modifies this
      ensures hasBias == bias.Some? && this.negativeSlope == negativeSlope && this.scale == scale
      ensures saved == SaveArgs(input, bias)
      ensures Ready() && Input() == input && Bias() == bias
      ensures out == kernel(input, bias, negativeSlope, scale)
    {
      hasBias := bias.Some?;
      this.negativeSlope := negativeSlope;
      this.scale := scale;
      saved := SaveArgs(input, bias);
      out := kernel(input, bias, negativeSlope, scale);
    }

    /** FusedLeakyReLUFunction.backward: always four results. grad_input is
        present exactly when needs_input_grad[0], shaped like the saved
        input; grad_bias is present exactly when a bias was saved and
        needs_input_grad[1], shaped like that bias; the gradients for the
        slope and the scale are always None. The values come from the
        compiled kernel. */
    method Backward(gradOutput: Tensor, needsInputGrad: seq<bool>, kernel: BackwardKernel)
      returns (gradInput: Option<Tensor>, gradBias: Option<seq<real>>,
               gradSlope: Option<real>, gradScale: Option<real>)
      requires Ready() && |needsInputGrad| == 4
      ensures gradInput.Some? <==> needsInputGrad[0]
      ensures gradInput.Some? ==>
                gradInput.value.Valid() && gradInput.value.shape == Input().shape
                && forall n, c, i :: 0 <= n < Input().shape[0] && 0 <= c < Input().shape[1] && 0 <= i < Input().Inner() ==>
                     gradInput.value.data[n][c][i]
                     == kernel.inputGrad(gradOutput, Input(), Bias(), negativeSlope, scale, n, c, i)
      ensures gradBias.Some? <==> hasBias && needsInputGrad[1]
      ensures gradBias.Some? ==>
                |gradBias.value| == |Bias().value|
                && forall c :: 0 <= c < |gradBias.value| ==>
                     gradBias.value[c] == kernel.biasGrad(gradOutput, Input(), Bias(), negativeSlope, scale, c)
      ensures gradSlope.None? && gradScale.None?
    {
      var (inputArg, biasArg, _) := RecoverArgs(hasBias, saved);
      var input := inputArg.input;
      var bias := if biasArg.Some? then Some(biasArg.value.bias) else None;
      var slope, sc := negativeSlope, scale;
      assert input == Input() && bias == Bias();
      gradInput, gradBias := None, None;
      if needsInputGrad[0] {
        gradInput := Some(Tabulate(input.shape, (n: nat, c: nat, i: nat) =>
          kernel.inputGrad(gradOutput, input, bias, slope, sc, n, c, i)));
      }
      if hasBias && needsInputGrad[1] {
        var b := bias.value;
        gradBias := Some(seq(|b|, c requires 0 <= c < |b| =>
          kernel.biasGrad(gradOutput, input, bias, slope, sc, c)));
      }
      gradSlope, gradScale := None, None;
    }
  }
}
