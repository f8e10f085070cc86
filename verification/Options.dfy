/** The types that several modules share. */
module Options {

  datatype Option<+T> = None | Some(value: T)

  type byte = x: int | 0 <= x < 256

  /** The name of a directory entry, and a path of such names. */
  type Name = string
  type Path = seq<Name>

  /** A SHA-256 digest read as a number: checksums are only ever compared. */
  type Checksum = nat
}
