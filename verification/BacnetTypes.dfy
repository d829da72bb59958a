/** The machine integers and the value types that every part of the stack shares. */
module BacnetTypes {

  type uint8 = x: int | 0 <= x < 0x100
  type uint16 = x: int | 0 <= x < 0x1_0000
  type uint32 = x: int | 0 <= x < 0x1_0000_0000
  type int32 = x: int | -0x8000_0000 <= x < 0x8000_0000

  type Bytes = seq<uint8>

  datatype Option<+T> = None | Some(value: T)

  /** An object type and instance; on the wire they share one 32-bit word (10 + 22 bits). */
  datatype ObjectId = ObjectId(kind: uint16, instance: uint32)

  /** The object type of a device. */
  const DEVICE: uint16 := 8

  const MAX_OBJECT_KIND: uint16 := 1023
  const MAX_INSTANCE: uint32 := 0x3F_FFFF

  const NO_ARRAY_INDEX: uint32 := 0xFFFF_FFFF

  const DEVICE_ADDRESS_BINDING: uint32 := 30
  const DESCRIPTION: uint32 := 28
  const OBJECT_LIST: uint32 := 76
  const OBJECT_NAME: uint32 := 77
  const OUT_OF_SERVICE: uint32 := 81
  const PRESENT_VALUE: uint32 := 85
  const PRIORITY_ARRAY: uint32 := 87
  const STATUS_FLAGS: uint32 := 111
  const PROPERTY_LIST: uint32 := 371

  /**
   A property value. `R` is the representation of a REAL: the 32-bit pattern in the codec, a
   number in the engines that compare values.
   */
  datatype Value<+R> =
    | Empty
    | Null
    | Boolean(on: bool)
    | Unsigned(number: uint32)
    | Signed(signed: int32)
    | Real(measure: R)
    | BitString(bits: uint32, bitCount: uint8)
    | Enumerated(number: uint32)
    | CharacterString(text: Bytes)
    | ObjectIdentifier(objectId: ObjectId)
    | ObjectIdentifierList(text: Bytes)
    | PropertyIdentifierList(text: Bytes)
    | Unsupported(tag: uint8)

  /** One (property, index, value) triple of a COV notification. */
  datatype PropertyValue<+R> = PropertyValue(property: uint32, arrayIndex: uint32, value: Value<R>)

  /** An IPv4 address and port. */
  datatype Endpoint = Endpoint(a: uint8, b: uint8, c: uint8, d: uint8, port: uint16)

  /** What a ReadProperty or WriteProperty names. */
  datatype PropertyRequest = PropertyRequest(objectId: ObjectId, property: uint32, arrayIndex: uint32)
}
