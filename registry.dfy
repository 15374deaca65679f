/**
 * The process-wide driver registry: a map from driver name to driver,
 * filled by `register_driver` and emptied by `unregister_driver`.
 */
module Registry {
  import opened Wrappers

  /** A `std::shared_ptr<Driver>`, known only by its identity. */
  datatype Driver = Driver(id: nat)

  /** The message of the `runtime_error` a duplicate registration throws, spelled as in the source. */
  function DuplicateMessage(name: string): string {
    "sql driver: " + name + " alreay register"
  }

  /**
   * Registering `name`: refused when the name is taken, otherwise the name
   * maps to `d` and every other entry stays as it was.
   */
  function Registered(m: map<string, Driver>, name: string, d: Driver): (r: Result<map<string, Driver>, string>)
    ensures r.Failure? <==> name in m
    ensures r.Failure? ==> r.error == DuplicateMessage(name)
    ensures r.Success? ==> name in r.value && r.value[name] == d
    ensures r.Success? ==> forall k :: k != name ==> (k in r.value <==> k in m)
    ensures r.Success? ==> forall k :: k != name && k in m ==> r.value[k] == m[k]
  {
    if name in m then Failure(DuplicateMessage(name)) else Success(m[name := d])
  }

  /**
   * Unregistering `name`: whether it was present, and the map without it;
   * every other entry stays as it was.
   */
  function Unregistered(m: map<string, Driver>, name: string): (r: (bool, map<string, Driver>))
    ensures r.0 <==> name in m
    ensures name !in r.1
    ensures forall k :: k != name ==> (k in r.1 <==> k in m)
    ensures forall k :: k != name && k in m ==> r.1[k] == m[k]
  {
    (name in m, m - {name})
  }

  /** The static `driver_map` and the two functions that change it. */
  class DriverRegistry {
    var drivers: map<string, Driver>

    constructor ()
      ensures drivers == map[]
    {
      drivers := map[];
    }

    /** `register_driver`: a duplicate name throws and keeps the original driver. */
    method Register(name: string, d: Driver) returns (r: Outcome<string>)
      modifies this
      ensures Registered(old(drivers), name, d).Success? ==> r == Pass && drivers == Registered(old(drivers), name, d).value
      ensures Registered(old(drivers), name, d).Failure? ==> r == Fail(Registered(old(drivers), name, d).error) && drivers == old(drivers)
    {
      if name in drivers {
        return Fail(DuplicateMessage(name));
      }
      drivers := drivers[name := d];
      return Pass;
    }

    /** `unregister_driver`: returns whether the name was registered, and removes it. */
    method Unregister(name: string) returns (removed: bool)
      modifies this
      ensures (removed, drivers) == Unregistered(old(drivers), name)
    {
      if name !in drivers {
        UnregisterAbsent(drivers, name);
        return false;
      }
      drivers := drivers - {name};
      return true;
    }
  }

  /** A failed registration leaves the map exactly as it was, original driver included. */
  lemma DuplicateKeepsOriginal(m: map<string, Driver>, name: string, d: Driver)
    requires name in m
    ensures Registered(m, name, d) == Failure(DuplicateMessage(name))
    ensures Unregistered(m, name).1[name := m[name]] == m
  {
    var back := Unregistered(m, name).1[name := m[name]];
    assert forall k :: k in back <==> k in m;
  }

  /**
   * Registering a fresh name and unregistering it again restores the map,
   * and the name can then be registered anew.
   */
  lemma RegisterThenUnregister(m: map<string, Driver>, name: string, d: Driver, e: Driver)
    requires name !in m
    ensures Registered(m, name, d).Success?
    ensures Unregistered(Registered(m, name, d).value, name) == (true, m)
    ensures Registered(Unregistered(Registered(m, name, d).value, name).1, name, e).Success?
  {
    var after := Unregistered(Registered(m, name, d).value, name).1;
    assert forall k :: k in after <==> k in m;
    assert forall k :: k in after ==> after[k] == m[k];
    assert after == m;
  }

  /** Unregistering an absent name reports false and changes nothing. */
  lemma UnregisterAbsent(m: map<string, Driver>, name: string)
    requires name !in m
    ensures Unregistered(m, name) == (false, m)
  {
    var rest := m - {name};
    assert forall k :: k in rest <==> k in m;
    assert forall k :: k in rest ==> rest[k] == m[k];
    assert rest == m;
  }
}
