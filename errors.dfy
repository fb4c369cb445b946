/** The error types of src/error.rs, and the answer a BLE call gives. */
module Errors {

  /** `BluetoothError`; `InternalError` wraps an error of the BLE stack,
      represented here by an opaque code. */
  datatype BluetoothError =
    | InvalidBluetoothAdapter
    | InvalidPeripheralReference
    | InvalidPeriperipheralProperty
    | NotFoundTargetCharacteristic
    | InternalError(code: int)
    | InvalidCharacteristic

  /** `CapabilityError`: its only variant. */
  datatype CapabilityError = Error

  /** What one asynchronous call into the BLE stack answered: success, or
      a stack error with its code. */
  datatype Link = Accepted | Rejected(code: int)

  /** The `?` conversion of a stack error into `BluetoothError`
      (`#[from] btleplug::Error`). */
  function FromLink(l: Link): BluetoothError
    requires l.Rejected?
  {
    InternalError(l.code)
  }
}
