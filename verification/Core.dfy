/** Result types, error kinds and constants shared by every part of the model. */
module Core {
  datatype Option<+T> = None | Some(value: T)

  /** An operation that may fail with one of the error kinds of fs0. */
  datatype Result<+T> = Ok(value: T) | Err(error: Fs0Error)

  /** The error kinds the modelled code returns. Message texts are dropped. */
  datatype Fs0Error =
    | InvalidData
    | HashMismatch(volumeOffset: nat)
    | CapacityExceeded(requiredEnd: nat, maxBytes: nat)
    | IntegerConversion
    | ChunkNotFound(chunkId: HashId)
    | BundleNotFound(bundleId: HashId)
    | InvalidPath(path: string)
    | NotFound
    | AlreadyExists(existing: string)
    | InvalidRequest
    | VersionConflict
    | ChunkNotReady
    | Internal
    | Sqlite
    | Io

  /** A 32-byte hash, read as a big-endian number: numeric order is byte order. */
  type HashId = nat

  const I64_MAX: nat := 0x7FFF_FFFF_FFFF_FFFF
  const U64_MAX: nat := 0xFFFF_FFFF_FFFF_FFFF
}
