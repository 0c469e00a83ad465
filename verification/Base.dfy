// Types shared by every module: optional values, results, bytes and the errors
// that the modelled operations return.
module Base {
  import opened Tables

  type byte = b: int | 0 <= b < 256

  datatype Result<+T, +E> = Ok(value: T) | Err(error: E)

  // The error values of the program. `Coded` is an entry of the shared error
  // table received from the peer. `Panicked` is not an error value: it stands
  // for the run-time panic that ends the calling goroutine.
  datatype Failure =
    | EOF
    | UnexpectedEOF
    | SizeOverflow
    | EmptyFileName
    | Coded(entry: Error)
    | WriteFailed
    | CloseFailed
    | RenameFailed
    | RemoveFailed
    | EncryptionFailed
    | DecryptionFailed
    | BadSignature
    | OpenFailed
    | ChunkIncorrectOrder
    | IncompleteFile
    | Panicked

  function Min(a: nat, b: nat): nat {
    if a <= b then a else b
  }
}
