/** What several modules share. */
module Common {

  datatype Option<+T> = None | Some(value: T)

  datatype Result<+T> = Ok(value: T) | Err(error: string)

  /** The largest 32-bit timestamp; reservation stops there. */
  const MAX_TS: nat := 0xffff_ffff

  function Max(a: nat, b: nat): nat { if a < b then b else a }
}
