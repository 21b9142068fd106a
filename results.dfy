/** Outcomes of the modelled operations: a value, or the Python exception the original raises. */
module Results {

  datatype Option<+T> = None | Some(value: T)

  /** The exceptions the modelled Python code can raise on bad input. */
  datatype Error =
    | IndexError         // a list or matrix row index out of range
    | ValueError         // random.sample asked for more items than there are, or a negative number
    | ZeroDivisionError  // a division by k == 0
    | RuntimeError       // torch.stack of an empty list

  datatype Result<+T> = Ok(value: T) | Err(error: Error)
}
