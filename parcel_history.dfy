/**
 * Sequences of mutating store calls, and what holds across all of them:
 * numbers handed out by Add only grow, a number that is gone never comes
 * back, and no row's number, client or creation time is ever rewritten.
 * Get and GetByClient change nothing, so a history needs only the four
 * mutating calls.
 */
module ParcelHistory {
  import opened Parcels
  import opened ParcelTable

  datatype Call =
    | AddCall(parcel: Parcel)
    | SetStatusCall(number: int, status: string)
    | SetAddressCall(number: int, address: string)
    | DeleteCall(number: int)

  /** The table after one call. */
  function Step(t: Table, c: Call): (r: Table)
    requires Valid(t)
    ensures Valid(r)
    ensures t.next <= r.next
    ensures KeepsIdentity(t, r)
  {
    match c
    case AddCall(p) => Insert(t, p).0
    case SetStatusCall(n, s) => SetStatus(t, n, s)
    case SetAddressCall(n, a) => SetAddress(t, n, a).0
    case DeleteCall(n) => Delete(t, n).0
  }

  /** The table after a sequence of calls. */
  function Run(t: Table, calls: seq<Call>): (r: Table)
    requires Valid(t)
    ensures Valid(r)
    ensures t.next <= r.next
    decreases |calls|
  {
    if calls == [] then t else Run(Step(t, calls[0]), calls[1..])
  }

  /** The numbers the Add calls of a sequence return, in call order. */
  function Issued(t: Table, calls: seq<Call>): seq<int>
    requires Valid(t)
    decreases |calls|
  {
    if calls == [] then []
    else
      var rest := Issued(Step(t, calls[0]), calls[1..]);
      if calls[0].AddCall? then [Insert(t, calls[0].parcel).1] + rest else rest
  }

  /** Successive Add calls return strictly increasing numbers, all at or above the counter at the start. */
  lemma {:induction false} IssuedIncreasing(t: Table, calls: seq<Call>)
    requires Valid(t)
    ensures forall i :: 0 <= i < |Issued(t, calls)| ==> t.next <= Issued(t, calls)[i] < Run(t, calls).next
    ensures forall i, j :: 0 <= i < j < |Issued(t, calls)| ==> Issued(t, calls)[i] < Issued(t, calls)[j]
    decreases |calls|
  {
    if calls != [] {
      var u := Step(t, calls[0]);
      IssuedIncreasing(u, calls[1..]);
      if calls[0].AddCall? {
        assert t.next < u.next;
      }
    }
  }

  /** No number an Add returns was in use before the sequence began, nor handed out earlier. */
  lemma IssuedFresh(t: Table, calls: seq<Call>)
    requires Valid(t)
    ensures forall i :: 0 <= i < |Issued(t, calls)| ==> 1 <= Issued(t, calls)[i] && Issued(t, calls)[i] !in t.rows
    ensures forall i, j :: 0 <= i < j < |Issued(t, calls)| ==> Issued(t, calls)[i] != Issued(t, calls)[j]
  {
    IssuedIncreasing(t, calls);
  }

  /** A number below the counter with no row never gets a row again. */
  lemma {:induction false} GoneStaysGone(t: Table, calls: seq<Call>, n: int)
    requires Valid(t) && n < t.next && n !in t.rows
    ensures n !in Run(t, calls).rows
    decreases |calls|
  {
    if calls != [] {
      var u := Step(t, calls[0]);
      assert n !in u.rows;
      GoneStaysGone(u, calls[1..], n);
    }
  }

  /** After a successful Delete of `n`, Get(n) is not-found whatever calls follow. */
  lemma DeletedStaysNotFound(t: Table, n: int, calls: seq<Call>)
    requires Valid(t) && Delete(t, n).1 == Pass
    ensures Lookup(Run(Delete(t, n).0, calls), n) == Err(NotFound)
  {
    GoneStaysGone(Delete(t, n).0, calls, n);
  }

  /** Across any sequence of calls, a row that is there at both ends kept its number, client and creation time. */
  lemma {:induction false} RunKeepsIdentity(t: Table, calls: seq<Call>)
    requires Valid(t)
    ensures KeepsIdentity(t, Run(t, calls))
    decreases |calls|
  {
    if calls != [] {
      var u := Step(t, calls[0]);
      RunKeepsIdentity(u, calls[1..]);
      forall n | n in t.rows && n in Run(t, calls).rows
        ensures SameIdentity(t.rows[n], Run(t, calls).rows[n])
      {
        if n !in u.rows {
          GoneStaysGone(u, calls[1..], n);
        }
      }
    }
  }
}
