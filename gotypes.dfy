/** Go's value types as the session layer uses them. */
module GoTypes {

  /** A Go string is a sequence of bytes; each character here stands for one byte. */
  type GoByte = c: char | c as int < 256 witness 'a'
  type GoString = seq<GoByte>

  /** An element of a Go []byte. */
  type Octet = x: int | 0 <= x < 256

  /** Go's int64, the type of Manager.maxLifeTime. */
  type Int64 = x: int | -0x8000_0000_0000_0000 <= x < 0x8000_0000_0000_0000

  datatype Option<+T> = None | Some(value: T)

  datatype Result<+T, +E> = Ok(value: T) | Err(error: E)
}
