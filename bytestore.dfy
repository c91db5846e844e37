/** The address space the three chip dumps are merged into: a dictionary from
    absolute address to the (normally two-character) hex text of the byte. */
module ByteStore {

  import opened Results
  import opened HexText

  type Store = map<int, string>

  /** m[a]: the text at a, or the KeyError of an absent address. */
  function Lookup(m: Store, a: int): Result<string>
  {
    if a in m then Ok(m[a]) else Err(KeyMissing(a))
  }

  /** int(m[a], 16): the KeyError comes first, then the ValueError. */
  function ReadHex(m: Store, a: int): Result<nat>
  {
    if a !in m then Err(KeyMissing(a))
    else match ParseHex(m[a])
      case None => Err(NotHex(a))
      case Some(v) => Ok(v)
  }
}
