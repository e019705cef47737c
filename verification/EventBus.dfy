/** event/inmemory.go: the in-process bus and its bounded history. */
module EventBus {
  import opened Common

  const CAPACITY: nat := 1000
  const DEFAULT_LIMIT: nat := 50

  datatype Event = Event(kind: string, payload: int)

  /** A handler is known by a number; `types` empty means every type. */
  datatype Sub = Sub(id: nat, handler: nat, types: seq<string>)

  predicate Matches(types: seq<string>, kind: string) { types == [] || kind in types }

  // ----- what RecentEvents returns -----

  function Filter(h: seq<Event>, types: seq<string>): seq<Event> {
    if h == [] then []
    else
      var init, last := Filter(h[..|h| - 1], types), h[|h| - 1];
      if Matches(types, last.kind) then init + [last] else init
  }

  function Reversed(s: seq<Event>): seq<Event> { if s == [] then [] else [s[|s| - 1]] + Reversed(s[..|s| - 1]) }

  function Take(s: seq<Event>, n: nat): seq<Event> { if |s| <= n then s else s[..n] }

  lemma FilterSnoc(h: seq<Event>, i: nat, types: seq<string>)
    requires i < |h|
    ensures Filter(h[..i + 1], types) == if Matches(types, h[i].kind) then Filter(h[..i], types) + [h[i]] else Filter(h[..i], types)
  {
    assert h[..i + 1][..i] == h[..i];
  }

  lemma ReversedSnoc(s: seq<Event>, x: Event)
    ensures Reversed(s + [x]) == [x] + Reversed(s)
  {
    assert (s + [x])[..|s|] == s;
  }

  lemma {:induction false} ReversedAt(s: seq<Event>, k: nat)
    ensures |Reversed(s)| == |s|
    ensures k < |s| ==> Reversed(s)[k] == s[|s| - 1 - k]
  {
    if s != [] {
      var init := s[..|s| - 1];
      ReversedAt(init, if k > 0 then k - 1 else 0);
    }
  }

  /** An event is kept exactly when no type was asked for or its own was. */
  lemma {:induction false} FilterMembers(h: seq<Event>, types: seq<string>, e: Event)
    ensures e in Filter(h, types) <==> e in h && (|types| == 0 || e.kind in types)
  {
    if h != [] {
      var n := |h| - 1;
      FilterMembers(h[..n], types, e);
      assert h == h[..n] + [h[n]];
    }
  }

  /** Kept events keep their order: the k-th one sits at a position of the
      history that grows with k. */
  lemma {:induction false} FilterOrder(h: seq<Event>, types: seq<string>) returns (at: seq<nat>)
    ensures |at| == |Filter(h, types)|
    ensures forall k :: 0 <= k < |at| ==> at[k] < |h| && h[at[k]] == Filter(h, types)[k]
    ensures forall k, l :: 0 <= k < l < |at| ==> at[k] < at[l]
  {
    at := [];
    if h != [] {
      var n := |h| - 1;
      at := FilterOrder(h[..n], types);
      if Matches(types, h[n].kind) {
        at := at + [n];
      }
    }
  }

  // ----- whom Publish calls -----

  /** A handler's answer to an event: true when it returns an error. */
  type Outcome = (nat, Event) -> bool

  function Interested(subs: seq<Sub>, kind: string): seq<nat> {
    if subs == [] then []
    else
      var init, last := Interested(subs[..|subs| - 1], kind), subs[|subs| - 1];
      if Matches(last.types, kind) then init + [last.handler] else init
  }

  /** Called are exactly the handlers of subscribers that named no type or
      named this one. */
  lemma {:induction false} InterestedExactly(subs: seq<Sub>, kind: string, h: nat)
    ensures h in Interested(subs, kind) <==>
      exists i :: 0 <= i < |subs| && subs[i].handler == h && (|subs[i].types| == 0 || kind in subs[i].types)
  {
    if subs != [] {
      var n := |subs| - 1;
      InterestedExactly(subs[..n], kind, h);
      assert forall i :: 0 <= i < n ==> subs[..n][i] == subs[i];
      if i :| 0 <= i < n && subs[..n][i].handler == h && (|subs[..n][i].types| == 0 || kind in subs[..n][i].types) {
        assert subs[i].handler == h;
      }
    }
  }

  lemma {:induction false} InterestedPrefix(subs: seq<Sub>, i: nat, kind: string)
    requires i <= |subs|
    ensures Interested(subs[..i], kind) <= Interested(subs, kind)
  {
    if i < |subs| {
      var n := |subs| - 1;
      InterestedPrefix(subs[..n], i, kind);
      assert subs[..n][..i] == subs[..i];
    } else {
      assert subs[..i] == subs;
    }
  }

  class Bus {
    var subs: seq<Sub>
    const history: array<Event>
    var len: nat
    /** Everything ever published. */
    ghost var published: seq<Event>

    ghost predicate Valid()
      reads this, history
    {
      && history.Length == CAPACITY && len <= CAPACITY
      && history[..len] == Newest(published, CAPACITY)
    }

    constructor ()
      ensures Valid() && published == [] && subs == [] && fresh(history)
    {
      history := new Event[CAPACITY];
      len, subs, published := 0, [], [];
    }

    method AppendHistory(e: Event)
      requires Valid()
      modifies this`len, this`published, history
      ensures Valid() && published == old(published) + [e]
    {
      published := published + [e];
      if len >= CAPACITY {
        forall i | 0 <= i < len - 1 {
          history[i] := history[i + 1];
        }
        history[len - 1] := e;
        assert history[..len] == old(history[..len])[1..] + [e];
      } else {
        history[len] := e;
        len := len + 1;
        assert history[..len] == old(history[..len]) + [e];
      }
    }

    /** Records the event, then calls the interested handlers in
        subscription order up to the first that fails. */
    method Publish(e: Event, fails: Outcome) returns (called: seq<nat>, ok: bool)
      requires Valid()
      modifies this`len, this`published, history
      ensures Valid() && published == old(published) + [e]
      ensures called <= Interested(subs, e.kind)
      ensures ok ==> called == Interested(subs, e.kind) && forall i :: 0 <= i < |called| ==> !fails(called[i], e)
      ensures !ok ==> |called| > 0 && fails(called[|called| - 1], e) && forall i :: 0 <= i < |called| - 1 ==> !fails(called[i], e)
    {
      AppendHistory(e);
      called := [];
      for i := 0 to |subs|
        invariant Valid() && published == old(published) + [e]
        invariant called == Interested(subs[..i], e.kind)
        invariant forall j :: 0 <= j < |called| ==> !fails(called[j], e)
      {
        assert subs[..i + 1][..i] == subs[..i];
        InterestedPrefix(subs, i + 1, e.kind);
        if !Matches(subs[i].types, e.kind) {
          continue;
        }
        called := called + [subs[i].handler];
        if fails(subs[i].handler, e) {
          return called, false;
        }
      }
      assert subs[..|subs|] == subs;
      ok := true;
    }

    method RecentEvents(limit: int, types: seq<string>) returns (result: seq<Event>)
      requires Valid()
      ensures result == Take(Reversed(Filter(Newest(published, 1000), types)), if limit <= 0 then 50 else limit)
    {
      ghost var h := Newest(published, CAPACITY);
      var max := if limit <= 0 then DEFAULT_LIMIT else limit;
      result := [];
      var i := len - 1;
      assert h[..len] == h;
      while i >= 0 && |result| < max
        invariant -1 <= i < len && |result| <= max
        invariant result + Reversed(Filter(h[..i + 1], types)) == Reversed(Filter(h, types))
      {
        var e := history[i];
        assert e == h[i];
        FilterSnoc(h, i, types);
        i := i - 1;
        if types != [] && e.kind !in types {
          continue;
        }
        ReversedSnoc(Filter(h[..i + 1], types), e);
        assert result + ([e] + Reversed(Filter(h[..i + 1], types))) == (result + [e]) + Reversed(Filter(h[..i + 1], types));
        result := result + [e];
      }
    }

    method Subscribe(handler: nat, types: seq<string>) returns (subID: nat)
      modifies this`subs
      ensures subID == |old(subs)| && subs == old(subs) + [Sub(subID, handler, types)]
    {
      subID := |subs|;
      subs := subs + [Sub(subID, handler, types)];
    }

    /** Removes by position; out of range panics, shown as !ok. */
    method Unsubscribe(subID: nat) returns (ok: bool)
      modifies this`subs
      ensures ok <==> subID < |old(subs)|
      ensures subs == Apply(old(subs), Leave(subID))
    {
      ok := subID < |subs|;
      if ok {
        subs := subs[..subID] + subs[subID + 1..];
      }
    }
  }

  // ----- whom Unsubscribe removes -----

  datatype Change = Join(sub: Sub) | Leave(subID: nat)

  function Apply(subs: seq<Sub>, c: Change): seq<Sub> {
    match c
    case Join(s) => subs + [s]
    case Leave(p) => if p < |subs| then subs[..p] + subs[p + 1..] else subs
  }

  function ApplyAll(subs: seq<Sub>, cs: seq<Change>): seq<Sub> {
    if cs == [] then subs else Apply(ApplyAll(subs, cs[..|cs| - 1]), cs[|cs| - 1])
  }

  /** Where the entry that started at `pos` is after some changes. */
  function Where(pos: nat, cs: seq<Change>): Option<nat> {
    if cs == [] then Some(pos)
    else match (Where(pos, cs[..|cs| - 1]), cs[|cs| - 1])
      case (Some(q), Leave(p)) => if p < q then Some(q - 1) else if p == q then None else Some(q)
      case (at, _) => at
  }

  lemma {:induction false} WhereFinds(subs: seq<Sub>, pos: nat, cs: seq<Change>)
    requires pos < |subs|
    ensures var at := Where(pos, cs); at.Some? ==> at.value <= pos && at.value < |ApplyAll(subs, cs)| && ApplyAll(subs, cs)[at.value] == subs[pos]
  {
    if cs != [] {
      WhereFinds(subs, pos, cs[..|cs| - 1]);
    }
  }

  /** An entry still present sits where its handle says exactly when no
      handle with a smaller number was used since it joined. */
  lemma {:induction false} HandleHolds(pos: nat, cs: seq<Change>)
    requires Where(pos, cs).Some?
    ensures Where(pos, cs).value <= pos
    ensures Where(pos, cs) == Some(pos) <==> forall i :: 0 <= i < |cs| && cs[i].Leave? ==> cs[i].subID >= pos
  {
    if cs != [] {
      var n := |cs| - 1;
      HandleHolds(pos, cs[..n]);
      assert cs == cs[..n] + [cs[n]];
    }
  }

  /** So using a handle removes its own entry exactly in that case. */
  lemma OwnHandle(pos: nat, cs: seq<Change>)
    requires Where(pos, cs).Some?
    ensures Where(pos, cs + [Leave(pos)]).None? <==> forall i :: 0 <= i < |cs| && cs[i].Leave? ==> cs[i].subID >= pos
  {
    HandleHolds(pos, cs);
    assert (cs + [Leave(pos)])[..|cs|] == cs;
  }

  /** Three subscribers, two handles used in turn: the second use removes the
      third subscriber and leaves its own entry in place. */
  lemma SecondLeaveMisses(a: Sub, b: Sub, c: Sub)
    ensures ApplyAll([a, b, c], [Leave(0), Leave(1)]) == [b]
    ensures Where(1, [Leave(0)]) == Some(0)
  {
    var cs := [Leave(0), Leave(1)];
    assert cs[..1] == [Leave(0)] && cs[..1][..0] == [];
    assert ApplyAll([a, b, c], []) == [a, b, c];
    assert ApplyAll([a, b, c], [Leave(0)]) == [b, c];
    assert [Leave(0)][..0] == [];
  }
}
