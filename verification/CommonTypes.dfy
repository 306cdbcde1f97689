/** Types and numbers the models share. */
module CommonTypes {
  type byte = x: int | 0 <= x < 0x100
  type uint16 = x: int | 0 <= x < 0x1_0000

  const TWO_TO_THE_64 := 0x1_0000_0000_0000_0000

  /** M2MResourceInstance::ResourceType */
  datatype DataType = STRING | INTEGER | FLOAT | OPAQUE | BOOLEAN | TIME | OBJLINK
}
