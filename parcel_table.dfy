/**
 * The parcel table as a value, and what each store operation does to it.
 * `rows` maps a parcel number to its row; `next` is the number the
 * auto-incrementing primary key hands out on the next insert.
 */
module ParcelTable {
  import opened Parcels

  datatype Table = Table(rows: map<int, Parcel>, next: int)

  /** Every row sits under its own number, and every number is below the counter. */
  ghost predicate Valid(t: Table) {
    && 1 <= t.next
    && forall n :: n in t.rows ==> 1 <= n < t.next && t.rows[n].number == n
  }

  /** The table right after schema creation. */
  const EMPTY: Table := Table(map[], 1)

  /** What Get reports for number `n`. */
  function Lookup(t: Table, n: int): Result<Parcel> {
    if n in t.rows then Ok(t.rows[n]) else Err(NotFound)
  }

  /** No row that survives from `before` to `after` had its number, client or creation time changed. */
  ghost predicate KeepsIdentity(before: Table, after: Table) {
    forall n :: n in before.rows && n in after.rows ==> SameIdentity(before.rows[n], after.rows[n])
  }

  /** The rows that belong to client `c`. */
  ghost function ClientRows(t: Table, c: int): set<Parcel> {
    set n | n in t.rows && t.rows[n].client == c :: t.rows[n]
  }

  /** Add: insert a row with the caller's fields and a store-assigned number. */
  function Insert(t: Table, p: Parcel): (r: (Table, int))
    requires Valid(t)
    ensures Valid(r.0)
    ensures 1 <= r.1 && r.1 !in t.rows
    ensures t.next <= r.1 < r.0.next
    ensures Lookup(r.0, r.1) == Ok(p.(number := r.1))
    ensures forall n :: n != r.1 ==> Lookup(r.0, n) == Lookup(t, n)
    ensures KeepsIdentity(t, r.0)
  {
    var id := t.next;
    (Table(t.rows[id := p.(number := id)], id + 1), id)
  }

  /** SetStatus: overwrite the status of row `n`, if there is one; a missing row is not an error. */
  function SetStatus(t: Table, n: int, s: string): (r: Table)
    ensures r.next == t.next && r.rows.Keys == t.rows.Keys
    ensures n in t.rows ==> Lookup(r, n) == Ok(t.rows[n].(status := s))
    ensures forall m :: m != n ==> Lookup(r, m) == Lookup(t, m)
    ensures n !in t.rows ==> r == t
    ensures KeepsIdentity(t, r)
    ensures Valid(t) ==> Valid(r)
  {
    if n in t.rows then t.(rows := t.rows[n := t.rows[n].(status := s)]) else t
  }

  /** SetAddress: look the row up, refuse unless it is registered, then overwrite its address. */
  function SetAddress(t: Table, n: int, a: string): (r: (Table, Outcome))
    ensures r.1 == Fail(NotFound) <==> n !in t.rows
    ensures r.1 == Fail(AddressNotAllowed) <==> n in t.rows && t.rows[n].status != REGISTERED
    ensures r.1 == Pass <==> n in t.rows && t.rows[n].status == REGISTERED
    ensures r.1.Fail? ==> r.0 == t
    ensures r.0.next == t.next && r.0.rows.Keys == t.rows.Keys
    ensures r.1 == Pass ==> Lookup(r.0, n) == Ok(t.rows[n].(address := a))
    ensures forall m :: m != n ==> Lookup(r.0, m) == Lookup(t, m)
    ensures KeepsIdentity(t, r.0)
    ensures Valid(t) ==> Valid(r.0)
  {
    match Lookup(t, n)
    case Err(e) => (t, Fail(e))
    case Ok(p) =>
      if p.status != REGISTERED then (t, Fail(AddressNotAllowed))
      else (t.(rows := t.rows[n := p.(address := a)]), Pass)
  }

  /** Delete: look the row up, refuse unless it is registered, then remove it. */
  function Delete(t: Table, n: int): (r: (Table, Outcome))
    ensures r.1 == Fail(NotFound) <==> n !in t.rows
    ensures r.1 == Fail(DeleteNotAllowed) <==> n in t.rows && t.rows[n].status != REGISTERED
    ensures r.1 == Pass <==> n in t.rows && t.rows[n].status == REGISTERED
    ensures r.1.Fail? ==> r.0 == t
    ensures r.0.next == t.next
    ensures r.1 == Pass ==> r.0.rows.Keys == t.rows.Keys - {n} && Lookup(r.0, n) == Err(NotFound)
    ensures forall m :: m != n ==> Lookup(r.0, m) == Lookup(t, m)
    ensures KeepsIdentity(t, r.0)
    ensures Valid(t) ==> Valid(r.0)
  {
    match Lookup(t, n)
    case Err(e) => (t, Fail(e))
    case Ok(p) =>
      if p.status != REGISTERED then (t, Fail(DeleteNotAllowed))
      else (t.(rows := t.rows - {n}), Pass)
  }

  /** An insert adds its new row to its own client's rows and leaves every other client's rows alone. */
  lemma InsertClientRows(t: Table, p: Parcel, c: int)
    requires Valid(t)
    ensures ClientRows(Insert(t, p).0, c)
         == if p.client == c then ClientRows(t, c) + {p.(number := Insert(t, p).1)} else ClientRows(t, c)
  {
  }
}
