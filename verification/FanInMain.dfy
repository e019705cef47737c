/** workload/streaming.go and workload/metrics_streaming.go: the main
    goroutine's critical sections, proved against the steps of FanIn. */
module FanInMain {
  import opened Common
  import opened FanIn

  lemma CancelOneMore(cs: seq<Child>, at: set<nat>, i: nat)
    requires i < |cs|
    ensures CancelAt(cs, at)[i := CancelAt(cs, at)[i].(cancelled := true)] == CancelAt(cs, at + {i})
  {
    var one, more := CancelAt(cs, at)[i := CancelAt(cs, at)[i].(cancelled := true)], CancelAt(cs, at + {i});
    assert forall j :: 0 <= j < |cs| ==> one[j] == more[j];
  }

  /** The listed replicas that end up subscribed. */
  ghost function Wanted(subs: map<Key, nat>, listing: seq<Key>, ok: Key -> bool): set<Key> {
    set k | k in listing && (k in subs || ok(k))
  }

  lemma WantedSnoc(subs: map<Key, nat>, listing: seq<Key>, ok: Key -> bool, i: nat)
    requires i < |listing|
    ensures Wanted(subs, listing[..i + 1], ok) ==
      Wanted(subs, listing[..i], ok) + if listing[i] in subs || ok(listing[i]) then {listing[i]} else {}
  {
    assert listing[..i + 1] == listing[..i] + [listing[i]];
  }

  function Restrict(m: map<Key, nat>, keep: set<Key>): map<Key, nat> { map k | k in m && k in keep :: m[k] }

  lemma RestrictAll(m: map<Key, nat>, seen: set<Key>, stale: set<Key>)
    requires stale == m.Keys - seen
    ensures Restrict(m, seen + stale) == m
  {}

  lemma RestrictLess(m: map<Key, nat>, seen: set<Key>, stale: set<Key>, k: Key)
    requires k in stale && k !in seen
    ensures Restrict(m, seen + stale) - {k} == Restrict(m, seen + (stale - {k}))
  {}

  class Hub {
    var main: Main
    var subs: map<Key, nat>
    var children: seq<Child>
    var wg: int
    var outOpen: bool
    var closes: nat

    /** The protocol state; the out buffer and the caller's context are not
        touched by these sections. */
    ghost function View(): State
      reads this
    {
      State(main, true, false, false, subs, children, wg, outOpen, 0, 0, closes, false)
    }

    ghost predicate Valid()
      reads this
    {
      Sound(View())
    }

    constructor ()
      ensures Valid() && Initial(View()) && main.Idle?
    {
      main, subs, children, wg, outOpen, closes := Idle, map[], [], 0, true, 0;
    }

    method AddReplica(k: Key, watchOk: bool)
      requires Valid() && main.Idle?
      modifies this
      ensures Valid() && View() == Add(old(View()), k, watchOk)
    {
      AddKeeps(View(), k, watchOk);
      if k in subs {
        return;
      }
      if !watchOk {
        return;
      }
      subs := subs[k := |children|];
      wg := wg + 1;
      children := children + [NewChild(k)];
    }

    method RemoveReplica(k: Key)
      requires Valid() && main.Idle?
      modifies this
      ensures Valid() && View() == Remove(old(View()), k)
    {
      if k in subs {
        RemoveKeeps(View(), k);
        children := children[subs[k] := children[subs[k]].(cancelled := true)];
        subs := subs - {k};
      }
    }

    /** The adding half of resync. */
    method AddListed(listing: seq<Key>, ok: Key -> bool)
      requires Valid() && main.Idle?
      modifies this
      ensures Valid() && main.Idle?
      ensures subs.Keys == old(subs).Keys + Wanted(old(subs), listing, ok)
      ensures Extends(old(subs), subs) && old(children) <= children
    {
      for i := 0 to |listing|
        invariant Valid() && main.Idle?
        invariant subs.Keys == old(subs).Keys + Wanted(old(subs), listing[..i], ok)
        invariant Extends(old(subs), subs) && old(children) <= children
      {
        WantedSnoc(old(subs), listing, ok, i);
        AddReplica(listing[i], ok(listing[i]));
      }
      assert listing[..|listing|] == listing;
    }

    /** The stale half of resync. */
    method DropStale(seen: set<Key>)
      requires Valid() && main.Idle?
      modifies this
      ensures Valid() && main.Idle?
      ensures subs == Restrict(old(subs), seen)
      ensures |children| == |old(children)|
      ensures forall k :: k in old(subs) && k !in seen ==> children[old(subs)[k]].cancelled
    {
      var stale := subs.Keys - seen;
      RestrictAll(subs, seen, stale);
      while stale != {}
        invariant Valid() && main.Idle? && |children| == |old(children)|
        invariant stale == subs.Keys - seen && subs == Restrict(old(subs), seen + stale)
        invariant forall k :: k in old(subs) && k !in seen && k !in stale ==> children[old(subs)[k]].cancelled
        decreases stale
      {
        var k :| k in stale;
        RestrictLess(old(subs), seen, stale, k);
        RemoveReplica(k);
        stale := stale - {k};
      }
      assert seen + stale == seen;
    }

    /** Afterwards exactly the listed replicas whose stream could be opened
        are subscribed, those subscribed before keep their reader, and the
        readers of replicas no longer listed are cancelled. */
    method Resync(listing: Option<seq<Key>>, ok: Key -> bool)
      requires Valid() && main.Idle?
      modifies this
      ensures Valid() && main.Idle?
      ensures listing.None? ==> View() == old(View())
      ensures listing.Some? ==> subs.Keys == Wanted(old(subs), listing.value, ok)
      ensures listing.Some? ==> forall k :: k in old(subs) && k in listing.value ==> subs[k] == old(subs)[k]
      ensures |old(children)| <= |children|
      ensures listing.Some? ==> forall k :: k in old(subs) && k !in listing.value ==> children[old(subs)[k]].cancelled
    {
      if listing.None? {
        return;
      }
      var seen := set k | k in listing.value;
      AddListed(listing.value, ok);
      DropStale(seen);
    }

    /** The deferred teardown up to the wait: cancels every subscription and
        forgets them, so that none can be added behind the barrier. */
    method CancelAll()
      requires Valid() && main.Idle?
      modifies this
      ensures Valid() && View() == Teardown(old(View()))
      ensures forall i :: 0 <= i < |children| && Live(children[i]) ==> children[i].cancelled
    {
      TeardownKeeps(View());
      ghost var done: set<nat> := {};
      var rest := subs.Keys;
      assert CancelAt(children, {}) == children;
      while rest != {}
        invariant rest <= subs.Keys && subs == old(subs) && main == old(main) && wg == old(wg)
        invariant outOpen == old(outOpen) && closes == old(closes)
        invariant done == set k | k in subs && k !in rest :: subs[k]
        invariant children == CancelAt(old(children), done)
        decreases rest
      {
        var k :| k in rest;
        CancelOneMore(old(children), done, subs[k]);
        children := children[subs[k] := children[subs[k]].(cancelled := true)];
        done := done + {subs[k]};
        rest := rest - {k};
      }
      assert done == subs.Values;
      subs := map[];
      main := Draining;
    }

    /** After the wait. */
    method CloseOutput()
      requires Valid() && main.Draining? && wg == 0
      modifies this
      ensures Valid() && View() == Apply(old(View()), CloseOut)
    {
      StepKeepsSound(View(), CloseOut);
      main, outOpen, closes := Closed, false, closes + 1;
    }
  }
}
