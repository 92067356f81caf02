/**
 * The parcel store: the table held as mutable state, its rows in a map
 * keyed by number and the auto-increment counter beside it. Each method
 * performs one operation atomically and is specified by the ParcelTable
 * function that describes that operation.
 */
module ParcelStore {
  import opened Parcels
  import T = ParcelTable

  /** A set other than the empty one has a member to pick. */
  lemma HasElement(s: set<int>)
    ensures s == {} || exists x :: x in s
  {
    if forall x :: x !in s {
      assert s == {};
    }
  }

  class ParcelStore {
    var rows: map<int, Parcel>
    var next: int

    /** The current contents, as a value. */
    function State(): T.Table
      reads this
    {
      T.Table(rows, next)
    }

    ghost predicate Valid()
      reads this
    {
      T.Valid(State())
    }

    /** A store over a freshly created, empty table. */
    constructor ()
      ensures Valid()
      ensures State() == T.EMPTY
    {
      rows := map[];
      next := 1;
    }

    /** Insert a row with `p`'s client, status, address and creation time; return its new number. */
    method Add(p: Parcel) returns (id: int)
      requires Valid()
      modifies this
      ensures Valid()
      ensures (State(), id) == T.Insert(old(State()), p)
    {
      id := next;
      rows := rows[id := p.(number := id)];
      next := next + 1;
    }

    /** The row numbered `number`, or the not-found error. */
    method Get(number: int) returns (r: Result<Parcel>)
      ensures r.Ok? <==> number in rows
      ensures r.Ok? ==> r.value == rows[number]
      ensures r.Err? ==> r.error == NotFound
      ensures r == T.Lookup(State(), number)
    {
      if number in rows {
        r := Ok(rows[number]);
      } else {
        r := Err(NotFound);
      }
    }

    /**
     * Every row of client `client`, each once and nothing else, in no promised order;
     * an empty sequence when the client has none.
     */
    method GetByClient(client: int) returns (res: seq<Parcel>)
      requires Valid()
      ensures multiset(res) == multiset(T.ClientRows(State(), client))
    {
      res := [];
      var todo := rows.Keys;
      ghost var done: set<int> := {};
      while todo != {}
        invariant todo + done == rows.Keys && todo !! done
        invariant forall n :: n in done ==> n in rows
        invariant multiset(res) == multiset(set n | n in done && rows[n].client == client :: rows[n])
        decreases todo
      {
        HasElement(todo);
        var k :| k in todo;
        if rows[k].client == client {
          res := res + [rows[k]];
        }
        todo := todo - {k};
        done := done + {k};
      }
      assert done == rows.Keys;
    }

    /** Overwrite the status of row `number`; succeeds, changing nothing, when there is no such row. */
    method SetStatus(number: int, status: string) returns (o: Outcome)
      requires Valid()
      modifies this
      ensures Valid()
      ensures o == Pass
      ensures State() == T.SetStatus(old(State()), number, status)
    {
      if number in rows {
        rows := rows[number := rows[number].(status := status)];
      }
      o := Pass;
    }

    /** Overwrite the address of row `number`, which must exist and be registered. */
    method SetAddress(number: int, address: string) returns (o: Outcome)
      requires Valid()
      modifies this
      ensures Valid()
      ensures (State(), o) == T.SetAddress(old(State()), number, address)
    {
      var r := Get(number);
      if r.Err? {
        return Fail(r.error);
      }
      if r.value.status != REGISTERED {
        return Fail(AddressNotAllowed);
      }
      rows := rows[number := rows[number].(address := address)];
      o := Pass;
    }

    /** Remove row `number`, which must exist and be registered. */
    method Delete(number: int) returns (o: Outcome)
      requires Valid()
      modifies this
      ensures Valid()
      ensures (State(), o) == T.Delete(old(State()), number)
    {
      var r := Get(number);
      if r.Err? {
        return Fail(r.error);
      }
      if r.value.status != REGISTERED {
        return Fail(DeleteNotAllowed);
      }
      rows := rows - {number};
      o := Pass;
    }
  }
}
