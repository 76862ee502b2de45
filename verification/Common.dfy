/** Small vocabulary shared by every component of the model. */
module Common {

  datatype Option<+T> = None | Some(value: T)

  datatype Result<+T, +E> = Ok(value: T) | Err(error: E)

  /** The errors of rsmpv/src/error.rs that the modelled code can produce itself, and a
      libmpv status code for the rest. */
  datatype Error = InteriorNul | InvalidParameter | Status(code: int)

  const MPV_ERROR_INVALID_PARAMETER: int := -4

  /** What a negative status code of libmpv becomes: the error documented for a protocol that
      is already registered has a name, every other code is kept. */
  function FromStatus(status: int): (e: Error)
    ensures e == InvalidParameter <==> status == -4
    ensures status != -4 ==> e == Status(status)
  {
    if status == MPV_ERROR_INVALID_PARAMETER then InvalidParameter else Status(status)
  }

  /** 1 for true, 0 for false: lets a claim be counted inside a sum. */
  function Bit(b: bool): (n: int)
    ensures 0 <= n <= 1
  {
    if b then 1 else 0
  }
}
