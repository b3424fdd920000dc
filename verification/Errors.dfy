/** The exceptions of src/pymod/errors.py, plus Python's own ValueError. */
module Errors {
  import opened Basics

  datatype Error =
    | ValueError                         // programming error in the caller's arguments
    | ModbusError                        // closed transport, exhausted ids, failed decode
    | TimeoutError
    | ConnectionError
    | CrcError
    | ProtocolError
    | ExceptionResponse(code: byte)      // the slave answered FC | 0x80

  const ILLEGAL_FUNCTION: byte := 0x01
  const ILLEGAL_DATA_ADDRESS: byte := 0x02
  const ILLEGAL_DATA_VALUE: byte := 0x03
  const SLAVE_DEVICE_FAILURE: byte := 0x04
  const GATEWAY_TARGET_FAILED: byte := 0x0B
}
