/**
 * Client code that drives a fresh store the way the repository's tests do,
 * and has the verifier confirm each expectation from the method contracts alone.
 * Timestamps and the random client number become parameters.
 */
module ParcelScenarios {
  import opened Parcels
  import S = ParcelStore

  /** The parcel the tests start from. */
  function TestParcel(createdAt: string): Parcel {
    Parcel(0, 1000, REGISTERED, "test", createdAt)
  }

  /** Add, read back every field, delete, and find the number gone. */
  method AddGetDelete(createdAt: string) {
    var store := new S.ParcelStore();
    var p := TestParcel(createdAt);
    var id := store.Add(p);
    assert id != 0;
    var got := store.Get(id);
    assert got.Ok? && got.value.number == id;
    assert got.value.client == p.client && got.value.status == p.status;
    assert got.value.address == p.address && got.value.createdAt == p.createdAt;
    var o := store.Delete(id);
    assert o == Pass;
    got := store.Get(id);
    assert got == Err(NotFound) && Message(got.error) == "parcel not found";
  }

  /** A registered parcel takes a new address. */
  method ChangeAddress(createdAt: string) {
    var store := new S.ParcelStore();
    var id := store.Add(TestParcel(createdAt));
    var o := store.SetAddress(id, "new test address");
    assert o == Pass;
    var got := store.Get(id);
    assert got.Ok? && got.value.address == "new test address";
  }

  /** A status change is read back. */
  method ChangeStatus(createdAt: string) {
    var store := new S.ParcelStore();
    var id := store.Add(TestParcel(createdAt));
    var o := store.SetStatus(id, SENT);
    assert o == Pass;
    var got := store.Get(id);
    assert got.Ok? && got.value.status == SENT;
  }

  /** Three parcels of one client come back, each with the fields it was added with. */
  method ListByClient(client: int, createdAt: string) {
    var store := new S.ParcelStore();
    var p := TestParcel(createdAt).(client := client);
    var a := store.Add(p);
    var b := store.Add(p);
    var c := store.Add(p);
    assert a < b < c;
    var found := store.GetByClient(client);
    assert store.rows.Keys == {a, b, c};
    assert multiset(found) == multiset{p.(number := a), p.(number := b), p.(number := c)} by {
      assert (set n | n in store.rows && store.rows[n].client == client :: store.rows[n])
          == {p.(number := a), p.(number := b), p.(number := c)};
    }
    assert |found| == 3;
  }

  /** Once sent, a parcel can be neither redirected nor deleted; its row stays as it was. */
  method SentParcelIsFrozen(createdAt: string) {
    var store := new S.ParcelStore();
    var id := store.Add(Parcel(0, 1000, REGISTERED, "test", createdAt));
    assert id == 1;
    var o := store.SetAddress(id, "new address");
    assert o == Pass;
    o := store.SetStatus(id, SENT);
    assert o == Pass;
    o := store.Delete(id);
    assert o == Fail(DeleteNotAllowed);
    o := store.SetAddress(id, "x");
    assert o == Fail(AddressNotAllowed);
    var got := store.Get(id);
    assert got == Ok(Parcel(1, 1000, SENT, "new address", createdAt));
  }

  /** A number freed by Delete is not handed out again. */
  method NumbersNotReused(createdAt: string) {
    var store := new S.ParcelStore();
    var first := store.Add(TestParcel(createdAt));
    var o := store.Delete(first);
    assert o == Pass;
    var second := store.Add(TestParcel(createdAt));
    assert second != first;
    o := store.SetStatus(first, SENT);
    assert o == Pass;
    var got := store.Get(first);
    assert got == Err(NotFound);
  }
}
