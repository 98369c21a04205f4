/** Optional values and the error outcomes of the two tensor operators. */
module Outcome {

  datatype Option<+T> = None | Some(value: T)

  /** The ways a call into the operators can fail, each named after the
      tensor primitive that raises it. */
  datatype Error =
    | BadFactor        // an up/down factor the native path cannot use (negative pad, zero-element view, zero slice step)
    | EmptyView        // view(-1, ...) of a tensor with no elements: the -1 is ambiguous
    | PadIndex         // a pad sequence that is neither a pair nor at least four long
    | PadCrop          // F.pad: a negative pad narrows an axis past its length
    | PadSize          // F.pad: with some positive pad, an output axis of size <= 0
    | BadReshape       // reshape to a non-positive height or width
    | KernelTooLarge   // conv2d: the input plane is smaller than the kernel
    | BroadcastShape   // the bias view cannot be broadcast against the input

  datatype Result<+T> = Ok(value: T) | Err(error: Error)
}
