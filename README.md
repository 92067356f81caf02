# Parcel store

A model of `ParcelStore`, the access layer over the `parcel` table of a shipment
tracker. The table holds parcels (number, client, status, address, creation time).
The store can add a parcel, fetch one by number, list a client's parcels, and
overwrite a parcel's status. It can also overwrite the address or delete the
parcel, but only while the status is `registered`.

The SQL table is modelled as a value `Table(rows, next)`. `rows` is a
`map<int, Parcel>` keyed by parcel number. `next` is the number that the
`INTEGER PRIMARY KEY AUTOINCREMENT` column hands out on the next insert. It starts
at 1 and never goes down, so a deleted number is never given out again.

- `parcels.dfy`, module `Parcels`: the `Parcel` record, the two status constants,
  and the domain errors with the texts the store uses. The Go struct fields
  `Number`, `Client`, `Status`, `Address` and `CreatedAt` become `number`,
  `client`, `status`, `address` and `createdAt`.
- `parcel_table.dfy`, module `ParcelTable`: the invariant `Valid` (each row sits
  under its own number, and every number lies below `next`). It also gives each
  operation as a function from the old table to the new table and the result.
  Their contracts state the source's promises: the three outcomes of the guarded
  operations, that a failure changes nothing, that only one row and one field are
  touched, and the Add/Get round trip.
- `parcel_history.dfy`, module `ParcelHistory`: arbitrary sequences of mutating
  calls. Across them, the numbers that Add returns strictly increase and are never
  reused. A number that is gone stays gone. No surviving row has its number,
  client or creation time rewritten.
- `parcel_store.dfy`, module `ParcelStore`: the class `ParcelStore`. It keeps the
  map and the counter as fields. Its methods update them in place and are
  specified by the `ParcelTable` functions. `SetAddress` and `Delete` call `Get`
  first, as the source does. `GetByClient` builds its result in a loop over the
  keys that picks them in no fixed order.
- `parcel_scenarios.dfy`, module `ParcelScenarios`: client methods that repeat the
  repository's tests (`parcel_test.go`) and the add / re-address / send / refuse
  lifecycle against a fresh store. The verifier confirms each expected value from
  the method contracts alone.

The values of `ParcelStatusRegistered` and `ParcelStatusSent` are defined in a
file that is not part of this model. They are modelled as the distinct strings
`"registered"` and `"sent"`. Only their equality matters.

## Model

| member | source | states |
|---|---|---|
| ParcelTable.Insert | parcel.go:29-45 | the returned number is at least 1, was not in the table, and is at or above the counter, which moves past it; Get of that number then yields the argument's client, status, address and creation time under the new number; every other number looks up as before; the invariant is kept |
| ParcelTable.SetStatus | parcel.go:88-95 | an existing row gets the new status whatever it had, with all its other fields kept; every other row is unchanged; a missing number leaves the table exactly as it was (no error); the set of numbers and the counter are unchanged |
| ParcelTable.SetAddress | parcel.go:97-112 | not-found exactly when the row is absent; the address guard error exactly when the row is present and not registered; success exactly when it is registered; every failure leaves the table unchanged; on success only that row's address becomes the new one; other rows, the set of numbers and the counter are untouched |
| ParcelTable.Delete | parcel.go:114-128 | not-found exactly when the row is absent; the delete guard error exactly when the row is present and not registered; success exactly when it is registered; every failure leaves the table unchanged; on success exactly that number is removed and then looks up as not-found; every other number looks up as before |
| ParcelTable.InsertClientRows | parcel.go:29-45 | an insert adds its new row to its own client's rows and leaves the rows of every other client as they were, so listing by client is unaffected by interleaved inserts for other clients |
| ParcelHistory.Step | parcel.go:29-128 | every mutating call keeps the invariant, never lowers the counter, and never rewrites a surviving row's number, client or creation time |
| ParcelHistory.Run | parcel.go:29-128 | any sequence of mutating calls keeps the invariant and never lowers the counter |
| ParcelHistory.IssuedIncreasing | parcel.go:14-22 | the numbers that successive Add calls return strictly increase, lie at or above the counter at the start and below the counter at the end |
| ParcelHistory.IssuedFresh | parcel.go:39-44 | no number an Add returns was in use when the sequence began, and no two Add calls of the sequence return the same number |
| ParcelHistory.GoneStaysGone | parcel.go:14-22 | a number below the counter that has no row never gets a row again, whatever calls follow |
| ParcelHistory.DeletedStaysNotFound | parcel.go:114-128 | after a successful Delete of a number, Get of that number is not-found after any later calls |
| ParcelHistory.RunKeepsIdentity | parcel.go:88-128 | across any sequence of calls, a row present at the start and at the end has the same number, client and creation time |
| ParcelStore.ParcelStore.constructor | parcel.go:12-27 | a new store holds an empty table with the counter at 1, and the invariant holds |
| ParcelStore.ParcelStore.Add | parcel.go:29-45 | the new table and the returned number are those of `ParcelTable.Insert` on the old table; the invariant is kept |
| ParcelStore.ParcelStore.Get | parcel.go:47-63 | returns the stored row when the number is present, and the not-found error exactly when it is absent, which is the lookup the table contracts use; changes nothing |
| ParcelStore.ParcelStore.GetByClient | parcel.go:65-86 | the result holds every row whose client matches, each exactly once, and nothing else (as a multiset, in no promised order); it is empty, not an error, when no row matches |
| ParcelStore.ParcelStore.SetStatus | parcel.go:88-95 | always succeeds; the new table is that of `ParcelTable.SetStatus` on the old one |
| ParcelStore.ParcelStore.SetAddress | parcel.go:97-112 | the new table and the outcome are those of `ParcelTable.SetAddress` on the old table |
| ParcelStore.ParcelStore.Delete | parcel.go:114-128 | the new table and the outcome are those of `ParcelTable.Delete` on the old table |

## Left out

- The SQL text, `database/sql`, the sqlite driver, row scanning and `LastInsertId`: these are library calls; the table is the abstract map plus counter above.
- Storage failures (the plain `return err` paths in Add, Get and GetByClient, and the error returned by the update and delete statements): not modelled, so every operation either succeeds or reports a domain error. SetStatus therefore always succeeds in the model.
- The panic when the schema cannot be created: construction always yields an empty store.
- ParcelStore.ParcelStore.constructor: covers a fresh database only. `CREATE TABLE IF NOT EXISTS` over a database that already holds a `parcel` table keeps its rows and its counter; reopening such a table is not modelled.
- The `int64` to `int` conversion of the new id: numbers are unbounded integers.
- Concurrency: SetAddress and Delete read and then write in two statements, so another caller could change the status in between. Each operation is modelled as atomic.
- Row order of GetByClient: the query imposes none, so the result is specified as a multiset.
- Get and GetByClient are not part of the call sequences in `ParcelHistory`, because they change nothing.
- The test harness's random client number and current time become parameters of the scenario methods.
