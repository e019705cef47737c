/** instance/service_impl.go: Create and the convergent Delete, over a
    provider that may fail at any call. */
module Instances {
  import opened Common
  import opened Text
  import opened ReleaseChain
  import opened Stores

  ghost predicate SlugTaken(f: Fleet, slug: string) {
    exists i :: i in f.instances && f.instances[i].slug == slug
  }

  /** The store's unique index on slugs, and ids below the mint. */
  ghost predicate DistinctSlugs(f: Fleet) {
    forall i, j :: i in f.instances && j in f.instances && i != j ==> f.instances[i].slug != f.instances[j].slug
  }

  ghost predicate Minted(f: Fleet) {
    forall i :: i in f.instances ==> i < f.nextInstance
  }

  function NewRow(f: Fleet, name: string, services: seq<Service>, labels: Labels, state: InstanceState): Instance {
    Instance(InstanceSlug(name), services, labels, state, f.now)
  }

  /** The row inserted before Provision ran, now carrying the outcome. */
  function Inserted(f: Fleet, name: string, services: seq<Service>, labels: Labels, state: InstanceState, running: map<string, Payload>): Fleet {
    f.(instances := f.instances[f.nextInstance := NewRow(f, name, services, labels, state)],
        chains := f.chains[f.nextInstance := EMPTY.(running := running)],
        nextInstance := f.nextInstance + 1)
  }

  /** Refused before the insert, failed with the row kept, or created. */
  ghost predicate CreateEffect(f: Fleet, name: string, services: seq<Service>, labels: Labels, f': Fleet, r: Result<InstanceId>) {
    match r
    case Ok(i) =>
      && services != [] && !SlugTaken(f, InstanceSlug(name))
      && i == f.nextInstance
      && f' == Inserted(f, name, services, labels, InstanceRunning, AsMap(Items(services)))
    case Err =>
      || f' == f
      || (&& services != [] && !SlugTaken(f, InstanceSlug(name))
          && f' == Inserted(f, name, services, labels, InstanceFailed, ChainOf(f', f.nextInstance).running))
  }

  method Create(st: Store, name: string, services: seq<Service>, labels: Labels) returns (r: Result<InstanceId>)
    modifies st`fleet
    ensures CreateEffect(old(st.fleet), name, services, labels, st.fleet, r)
    ensures st.reliable && services != [] && !SlugTaken(old(st.fleet), InstanceSlug(name)) ==> r.Ok?
  {
    var answers: bool := *;
    var providerFound := st.reliable || answers;
    if !providerFound || services == [] {
      return Err;
    }
    var taken := exists i :: i in st.fleet.instances && st.fleet.instances[i].slug == InstanceSlug(name);
    if taken {
      return Err;
    }
    var i := st.fleet.nextInstance;
    var row := NewRow(st.fleet, name, services, labels, InstanceProvisioning);
    st.fleet := st.fleet.(instances := st.fleet.instances[i := row], nextInstance := i + 1);
    var accepted: bool := *;
    var provisioned := st.reliable || accepted;
    if !provisioned {
      var left: map<string, Payload> := *;
      st.fleet := st.fleet.(instances := st.fleet.instances[i := row.(state := InstanceFailed)],
                      chains := st.fleet.chains[i := EMPTY.(running := left)]);
      assert st.fleet.instances == old(st.fleet).instances[i := row.(state := InstanceFailed)];
      return Err;
    }
    st.fleet := st.fleet.(instances := st.fleet.instances[i := row.(state := InstanceRunning)],
                    chains := st.fleet.chains[i := EMPTY.(running := AsMap(Items(services)))]);
    assert st.fleet.instances == old(st.fleet).instances[i := row.(state := InstanceRunning)];
    return Ok(i);
  }

  /** Either the row is gone, or Deprovision failed and it is kept as failed;
      a row already marked destroyed always goes. */
  ghost predicate DeleteEffect(f: Fleet, i: InstanceId, f': Fleet, ok: bool) {
    if i !in f.instances then !ok && f' == f
    else if ok then f' == f.(instances := f.instances - {i})
    else
      && f.instances[i].state != InstanceDestroyed
      && f' == f.(instances := f.instances[i := f.instances[i].(state := InstanceFailed)])
  }

  method Delete(st: Store, i: InstanceId) returns (ok: bool)
    modifies st`fleet
    ensures DeleteEffect(old(st.fleet), i, st.fleet, ok)
    ensures st.reliable && i in old(st.fleet).instances ==> ok
  {
    if i !in st.fleet.instances {
      return false;
    }
    var row := st.fleet.instances[i];
    var before := st.fleet.instances;
    var wasDestroyed := row.state == InstanceDestroyed;
    if !wasDestroyed {
      st.fleet := st.fleet.(instances := st.fleet.instances[i := row.(state := InstanceDestroying)]);
      var providerFound: bool := *;
      if !providerFound {
        st.fleet := st.fleet.(instances := st.fleet.instances - {i});
        assert st.fleet.instances == before - {i};
        return true;
      }
      var released: bool := *;
      var deprovisioned := st.reliable || released;
      if !deprovisioned {
        st.fleet := st.fleet.(instances := st.fleet.instances[i := row.(state := InstanceFailed)]);
        assert st.fleet.instances == before[i := row.(state := InstanceFailed)];
        return false;
      }
    }
    st.fleet := st.fleet.(instances := st.fleet.instances - {i});
    assert st.fleet.instances == before - {i};
    return true;
  }
}
