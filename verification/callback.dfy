/** Node-style completion callbacks: every stage of the pipeline reports through
    `next(err, result)`, where a non-null first argument signals failure. */
module Callback {

  datatype Option<+T> = None | Some(value: T)

  /** One invocation of `next`. `err` is None for `next(null, …)`; `result` is None
      when `next` was called with the error argument alone. */
  datatype Call = Call(err: Option<string>, result: Option<string>)
}
