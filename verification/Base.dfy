/** Values the components share. */
module Base {
  datatype Option<T> = None | Some(value: T)

  newtype Byte = x: int | 0 <= x < 256
  type Bytes = seq<Byte>

  /** A row of local truth: what we hold under a path. */
  datatype FileRow = FileRow(size: nat, mtime: int)

  datatype FileOnDisk = FileOnDisk(bytes: Bytes, mtime: int)
}
