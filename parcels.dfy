/** Parcel records and the values the parcel store reports back to its callers. */
module Parcels {

  /** A shipment record: one row of the parcel table. */
  datatype Parcel = Parcel(number: int, client: int, status: string, address: string, createdAt: string)

  /** The status that permits address changes and deletion. */
  const REGISTERED: string := "registered"

  /** The status of a parcel that has been dispatched. */
  const SENT: string := "sent"

  /** The domain errors of the store; storage failures are not modelled. */
  datatype Error = NotFound | AddressNotAllowed | DeleteNotAllowed

  /** The text each error carries. */
  function Message(e: Error): string {
    match e
    case NotFound => "parcel not found"
    case AddressNotAllowed => "can only change address for registered parcels"
    case DeleteNotAllowed => "can only delete registered parcels"
  }

  /** A value, or the error that replaced it. */
  datatype Result<+T> = Ok(value: T) | Err(error: Error)

  /** Success, or the error that prevented it. */
  datatype Outcome = Pass | Fail(error: Error)

  /** The fields that no operation rewrites once a row exists. */
  predicate SameIdentity(a: Parcel, b: Parcel) {
    a.number == b.number && a.client == b.client && a.createdAt == b.createdAt
  }
}
