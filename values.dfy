/** The collaborators a memory-backed value object works with: the tagged
    location (`Value`), the symbolic `Address`, the execution context, the
    error value and the data buffer.  Address resolution and data extraction
    are left uninterpreted: they are passed in as functions. */
module Values {

  datatype Option<+T> = None | Some(value: T)

  /** lldb::addr_t, an unsigned 64-bit address. */
  type Addr = x: int | 0 <= x < 0x1_0000_0000_0000_0000

  /** LLDB_INVALID_ADDRESS: the all-ones 64-bit address. */
  const INVALID_ADDRESS: Addr := 0xFFFF_FFFF_FFFF_FFFF

  /** Value::ValueType: where a value currently lives. */
  datatype ValueType = Scalar | FileAddress | LoadAddress | HostAddress

  /** The location part of an lldb Value: its tag and its scalar payload
      (an immediate value, or an address in the space the tag names). */
  datatype Value = Value(valueType: ValueType, scalar: Addr)

  /** A section-relative address, seen through the answers it gives to
      Address::IsValid, Address::GetFileAddress and Address::GetOffset.
      Its load address depends on a target and is asked of a LoadResolver. */
  datatype Address = Address(isValid: bool, fileAddress: Addr, offset: Addr)

  /** Address::GetLoadAddress(target): the load address under the target's
      current image map, or INVALID_ADDRESS when the address does not resolve. */
  type LoadResolver = (Address, Option<Target>) -> Addr

  /** lldb::ByteOrder. */
  datatype ByteOrder = ByteOrderInvalid | ByteOrderBig | ByteOrderPDP | ByteOrderLittle

  /** What the value object asks of a target: its architecture's byte order
      and address size. */
  datatype Target = Target(byteOrder: ByteOrder, addressByteSize: nat)

  /** The execution context built from the object's scope: a target, if any,
      and whether a live process is attached to it. */
  datatype ExecutionContext = ExecutionContext(target: Option<Target>, hasProcess: bool)

  /** lldb_private::Error: success, or a failure with its message. */
  datatype Error = Success | Failure(message: string)

  /** The object's data extractor (m_data): byte order, address size, bytes. */
  datatype DataBuffer = DataBuffer(byteOrder: ByteOrder, addressByteSize: nat, bytes: seq<bv8>)

  /** The outcome of Value::GetValueAsData: the error it reports and the bytes
      it leaves in the buffer. */
  datatype Extraction = Extraction(error: Error, bytes: seq<bv8>)

  /** Value::GetValueAsData for a given value and buffer layout. */
  type DataReader = (Value, ByteOrder, nat) -> Extraction
}
