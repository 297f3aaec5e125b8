/** A row of the `payments` table and the result type of every database
    call (`Result<T, sqlx::Error>`). */
module Payments {

  /** UUIDs are opaque identities; naturals give them equality and an
      unbounded supply of fresh values. */
  type Uuid = nat

  newtype i32 = x: int | -0x8000_0000 <= x < 0x8000_0000

  /** Timestamps (`NaiveDateTime`) as opaque instants. */
  type Timestamp = int

  /** Amounts of BTC are `f64` in the source; here they are exact reals. */
  datatype Payment = Payment(
    id: Uuid,
    accountId: Uuid,
    address: string,
    amount: real,
    received: real,
    confirmations: i32,
    initiated: bool,
    completed: bool,
    createdAt: Timestamp,
    updatedAt: Timestamp
  )

  /** Any `sqlx::Error`: its details are never inspected by this code. */
  datatype DbError = DbError

  datatype DbResult<T> = Ok(value: T) | Err(error: DbError)

  datatype Option<T> = None | Some(value: T)
}
