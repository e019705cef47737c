/** metrics/service_impl.go: Track, Untrack, Watch, context cancel and push.
    Each method is one critical section of the source, so an interleaving of
    goroutines is a sequence of calls. Channels live in a table; sending on or
    closing a closed channel panics in the source and is a precondition here. */
module Subscriptions {
  import opened Common
  import opened Samples

  type Key = nat

  /** `sent` is everything the channel accepted, `taken` how much of it the
      consumer received; the difference is buffered. */
  datatype Chan = Chan(key: Key, open: bool, sent: seq<Sample>, taken: nat)

  /** `rings` names the ring of each key, `logs` what was ever pushed to a
      ring, those no key names any more included. */
  datatype State = State(chans: map<nat, Chan>, subs: map<Key, seq<nat>>, rings: map<Key, nat>, logs: map<nat, seq<Sample>>, pollers: set<Key>)

  function Listed(subs: map<Key, seq<nat>>, k: Key): seq<nat> { if k in subs then subs[k] else [] }

  /** Every key's list names distinct channels of that key, and a channel is
      listed exactly while it is open. */
  ghost predicate ChansSound(chans: map<nat, Chan>, subs: map<Key, seq<nat>>, cap: nat) {
    && (forall k :: k in subs ==> Distinct(subs[k]))
    && (forall k, c :: k in subs && c in subs[k] ==> c in chans && chans[c].key == k)
    && (forall c :: c in chans ==> (chans[c].open <==> c in Listed(subs, chans[c].key)))
    && (forall c :: c in chans ==> chans[c].taken <= |chans[c].sent| <= chans[c].taken + cap)
  }

  /** Exactly the polled keys have a ring, each its own. */
  ghost predicate RingsSound(rings: map<Key, nat>, logs: map<nat, seq<Sample>>, pollers: set<Key>) {
    && pollers == rings.Keys && rings.Values <= logs.Keys
    && forall k, l :: k in rings && l in rings && k != l ==> rings[k] != rings[l]
  }

  ghost predicate Sound(st: State, cap: nat) { ChansSound(st.chans, st.subs, cap) && RingsSound(st.rings, st.logs, st.pollers) }

  // ----- steps on values -----

  function CloseAll(chans: map<nat, Chan>, list: seq<nat>): map<nat, Chan> {
    map c | c in chans :: if c in list then chans[c].(open := false) else chans[c]
  }

  /** A non-blocking send: a full buffer drops the sample. */
  function Offer(ch: Chan, x: Sample, cap: nat): Chan {
    if |ch.sent| < ch.taken + cap then ch.(sent := ch.sent + [x]) else ch
  }

  function OfferAll(chans: map<nat, Chan>, list: seq<nat>, x: Sample, cap: nat): map<nat, Chan> {
    map c | c in chans :: if c in list then Offer(chans[c], x, cap) else chans[c]
  }

  function Without(list: seq<nat>, c: nat): seq<nat> {
    if list == [] then [] else if list[0] == c then list[1..] else [list[0]] + Without(list[1..], c)
  }

  datatype Step = Track(key: Key, ring: nat) | DropRing(key: Key) | DropSubs(key: Key) | Watch(key: Key, id: nat) | Cancel(chan: nat)
                | PushRing(ring: nat, x: Sample) | PushSubs(key: Key, x: Sample) | Receive(chan: nat)

  function Apply(st: State, s: Step, cap: nat): State {
    match s
    case Track(k, r) => if k in st.pollers || k in st.rings || r in st.logs then st else
      st.(rings := st.rings[k := r], logs := st.logs[r := []], pollers := st.pollers + {k})
    case DropRing(k) => st.(rings := st.rings - {k}, pollers := st.pollers - {k})
    case DropSubs(k) => st.(chans := CloseAll(st.chans, Listed(st.subs, k)), subs := st.subs - {k})
    case Watch(k, c) => if c in st.chans then st else
      st.(chans := st.chans[c := Chan(k, true, [], 0)], subs := st.subs[k := Listed(st.subs, k) + [c]])
    case Cancel(c) => if c !in st.chans then st else
      var k := st.chans[c].key;
      if c !in Listed(st.subs, k) then st else
      st.(chans := st.chans[c := st.chans[c].(open := false)], subs := st.subs[k := Without(st.subs[k], c)])
    case PushRing(r, x) => if r in st.logs then st.(logs := st.logs[r := st.logs[r] + [x]]) else st
    case PushSubs(k, x) => st.(chans := OfferAll(st.chans, Listed(st.subs, k), x, cap))
    case Receive(c) => if c in st.chans && st.chans[c].taken < |st.chans[c].sent|
      then st.(chans := st.chans[c := st.chans[c].(taken := st.chans[c].taken + 1)]) else st
  }

  function Run(st: State, steps: seq<Step>, cap: nat): State {
    if steps == [] then st else Apply(Run(st, steps[..|steps| - 1], cap), steps[|steps| - 1], cap)
  }

  // ----- the code -----

  class Service {
    const cap: nat
    var chans: map<nat, Chan>
    var subs: map<Key, seq<nat>>
    var rings: map<Key, nat>
    var logs: map<nat, seq<Sample>>
    var pollers: set<Key>

    ghost function View(): State
      reads this
    {
      State(chans, subs, rings, logs, pollers)
    }

    ghost predicate Valid()
      reads this
    {
      Sound(View(), cap)
    }

    constructor (cap: nat)
      ensures Valid() && View() == State(map[], map[], map[], map[], {}) && this.cap == cap
    {
      this.cap := cap;
      chans, subs, rings, logs, pollers := map[], map[], map[], map[], {};
    }

    method Close(c: nat)
      requires c in chans && chans[c].open
      modifies this`chans
      ensures chans == old(chans)[c := old(chans)[c].(open := false)]
    {
      chans := chans[c := chans[c].(open := false)];
    }

    method TrySend(c: nat, x: Sample)
      requires c in chans && chans[c].open
      modifies this`chans
      ensures chans == old(chans)[c := Offer(old(chans)[c], x, cap)]
    {
      var ch := chans[c];
      if |ch.sent| < ch.taken + cap {
        chans := chans[c := ch.(sent := ch.sent + [x])];
      }
    }

    /** Reports whether a poller must be started; `ring` names a ring just
        made, which starts empty. */
    method TrackKey(k: Key, ring: nat) returns (started: bool)
      requires Valid() && ring !in logs
      modifies this
      ensures Valid() && View() == Apply(old(View()), Track(k, ring), cap) && started == (k !in old(pollers))
      ensures started ==> rings[k] == ring && logs[ring] == []
    {
      ApplyKeepsSound(View(), Track(k, ring), cap);
      if k in pollers {
        return false;
      }
      if k !in rings {
        rings := rings[k := ring];
        logs := logs[ring := []];
      }
      pollers := pollers + {k};
      started := true;
    }

    /** Untrack, first half. */
    method UntrackRing(k: Key)
      requires Valid()
      modifies this
      ensures Valid() && View() == Apply(old(View()), DropRing(k), cap)
    {
      ApplyKeepsSound(View(), DropRing(k), cap);
      if k in pollers {
        pollers := pollers - {k};
      }
      rings := rings - {k};
    }

    /** Untrack, second half: closes every listed channel, then forgets the
        list. */
    method UntrackSubs(k: Key)
      requires Valid()
      modifies this
      ensures Valid() && View() == Apply(old(View()), DropSubs(k), cap)
    {
      ApplyKeepsSound(View(), DropSubs(k), cap);
      CloseEach(if k in subs then subs[k] else []);
      subs := subs - {k};
    }

    method CloseEach(list: seq<nat>)
      requires Distinct(list) && forall c :: c in list ==> c in chans && chans[c].open
      modifies this`chans
      ensures chans == CloseAll(old(chans), list)
    {
      for i := 0 to |list|
        invariant chans == CloseAll(old(chans), list[..i])
      {
        assert list[..i + 1] == list[..i] + [list[i]];
        assert list[i] !in list[..i];
        CloseOne(old(chans), list[..i], list[i]);
        Close(list[i]);
      }
      assert list[..|list|] == list;
    }

    /** `id` names the channel just made. */
    method WatchKey(k: Key, id: nat)
      requires Valid() && id !in chans
      modifies this
      ensures Valid() && View() == Apply(old(View()), Watch(k, id), cap)
      ensures chans[id].open
    {
      ApplyKeepsSound(View(), Watch(k, id), cap);
      chans := chans[id := Chan(k, true, [], 0)];
      subs := subs[k := (if k in subs then subs[k] else []) + [id]];
    }

    /** The goroutine a watcher's context wakes: it closes the channel only
        where it still finds it listed. */
    method CancelWatch(k: Key, c: nat)
      requires Valid() && c in chans && chans[c].key == k
      modifies this
      ensures Valid() && View() == Apply(old(View()), Cancel(c), cap)
      ensures !chans[c].open
    {
      ApplyKeepsSound(View(), Cancel(c), cap);
      var list := if k in subs then subs[k] else [];
      for i := 0 to |list|
        invariant View() == old(View())
        invariant c !in list[..i]
      {
        if list[i] == c {
          WithoutAt(list, i);
          subs := subs[k := list[..i] + list[i + 1..]];
          Close(c);
          return;
        }
        assert list[..i + 1] == list[..i] + [list[i]];
      }
      assert list[..|list|] == list;
    }

    /** push, looking the ring up; None when Untrack got there first. */
    method FindRing(k: Key) returns (r: Option<nat>)
      requires Valid()
      ensures r == if k in rings then Some(rings[k]) else None
      ensures r.Some? ==> r.value in logs
    {
      assert k in rings ==> rings[k] in rings.Values;
      r := if k in rings then Some(rings[k]) else None;
    }

    /** push, storing into the ring found before, dropped since or not. */
    method PushToRing(ring: nat, x: Sample)
      requires Valid() && ring in logs
      modifies this
      ensures Valid() && View() == Apply(old(View()), PushRing(ring, x), cap)
    {
      ApplyKeepsSound(View(), PushRing(ring, x), cap);
      logs := logs[ring := logs[ring] + [x]];
    }

    /** push, last part: offers the sample to every listed channel. */
    method PushToSubs(k: Key, x: Sample)
      requires Valid()
      modifies this
      ensures Valid() && View() == Apply(old(View()), PushSubs(k, x), cap)
    {
      ApplyKeepsSound(View(), PushSubs(k, x), cap);
      OfferEach(if k in subs then subs[k] else [], x);
    }

    method OfferEach(list: seq<nat>, x: Sample)
      requires Distinct(list) && forall c :: c in list ==> c in chans && chans[c].open
      modifies this`chans
      ensures chans == OfferAll(old(chans), list, x, cap)
    {
      for i := 0 to |list|
        invariant chans == OfferAll(old(chans), list[..i], x, cap)
      {
        assert list[..i + 1] == list[..i] + [list[i]];
        assert list[i] !in list[..i];
        OfferOne(old(chans), list[..i], list[i], x, cap);
        TrySend(list[i], x);
      }
      assert list[..|list|] == list;
    }
  }

  lemma CloseOne(chans: map<nat, Chan>, done: seq<nat>, c: nat)
    requires c in chans && c !in done
    ensures CloseAll(chans, done)[c] == chans[c]
    ensures CloseAll(chans, done + [c]) == CloseAll(chans, done)[c := chans[c].(open := false)]
  {}

  lemma OfferOne(chans: map<nat, Chan>, done: seq<nat>, c: nat, x: Sample, cap: nat)
    requires c in chans && c !in done
    ensures OfferAll(chans, done, x, cap)[c] == chans[c]
    ensures OfferAll(chans, done + [c], x, cap) == OfferAll(chans, done, x, cap)[c := Offer(chans[c], x, cap)]
  {}

  lemma {:induction false} WithoutAt(list: seq<nat>, i: nat)
    requires i < |list| && list[i] !in list[..i]
    ensures Without(list, list[i]) == list[..i] + list[i + 1..]
  {
    if i > 0 {
      assert list[0] == list[..i][0];
      assert list[1..][..i - 1] == list[..i][1..];
      WithoutAt(list[1..], i - 1);
      assert [list[0]] + (list[1..][..i - 1] + list[1..][i..]) == list[..i] + list[i + 1..];
    }
  }

  lemma ConsDistinct(x: nat, s: seq<nat>)
    ensures Distinct(s) && x !in s ==> Distinct([x] + s)
  {}

  lemma {:induction false} WithoutMembers(list: seq<nat>, c: nat)
    requires Distinct(list)
    ensures Distinct(Without(list, c)) && forall d :: d in Without(list, c) <==> d in list && d != c
  {
    if list != [] {
      assert list == [list[0]] + list[1..];
      WithoutMembers(list[1..], c);
      assert list[0] !in list[1..];
      ConsDistinct(list[0], Without(list[1..], c));
    }
  }

  // ----- every interleaving -----

  lemma CancelKeepsSound(st: State, c: nat, cap: nat)
    requires ChansSound(st.chans, st.subs, cap)
    ensures var next := Apply(st, Cancel(c), cap); ChansSound(next.chans, next.subs, cap)
  {
    if c in st.chans && c in Listed(st.subs, st.chans[c].key) {
      WithoutMembers(st.subs[st.chans[c].key], c);
    }
  }

  lemma DropSubsKeepsSound(st: State, k: Key, cap: nat)
    requires ChansSound(st.chans, st.subs, cap)
    ensures var next := Apply(st, DropSubs(k), cap); ChansSound(next.chans, next.subs, cap)
  {}

  lemma WatchKeepsSound(st: State, k: Key, c: nat, cap: nat)
    requires ChansSound(st.chans, st.subs, cap)
    ensures var next := Apply(st, Watch(k, c), cap); ChansSound(next.chans, next.subs, cap)
  {}

  lemma PushSubsKeepsSound(st: State, k: Key, x: Sample, cap: nat)
    requires ChansSound(st.chans, st.subs, cap)
    ensures var next := Apply(st, PushSubs(k, x), cap); ChansSound(next.chans, next.subs, cap)
  {}

  lemma ReceiveKeepsSound(st: State, c: nat, cap: nat)
    requires ChansSound(st.chans, st.subs, cap)
    ensures var next := Apply(st, Receive(c), cap); ChansSound(next.chans, next.subs, cap)
  {}

  lemma ApplyKeepsChans(st: State, s: Step, cap: nat)
    requires ChansSound(st.chans, st.subs, cap)
    ensures var next := Apply(st, s, cap); ChansSound(next.chans, next.subs, cap)
  {
    match s
    case Cancel(c) => CancelKeepsSound(st, c, cap);
    case DropSubs(k) => DropSubsKeepsSound(st, k, cap);
    case Watch(k, c) => WatchKeepsSound(st, k, c, cap);
    case PushSubs(k, x) => PushSubsKeepsSound(st, k, x, cap);
    case Receive(c) => ReceiveKeepsSound(st, c, cap);
    case _ =>
  }

  lemma ApplyKeepsRings(st: State, s: Step, cap: nat)
    requires RingsSound(st.rings, st.logs, st.pollers)
    ensures var next := Apply(st, s, cap); RingsSound(next.rings, next.logs, next.pollers)
  {
    assert forall k :: k in st.rings ==> st.rings[k] in st.rings.Values;
  }

  lemma ApplyKeepsSound(st: State, s: Step, cap: nat)
    requires Sound(st, cap)
    ensures Sound(Apply(st, s, cap), cap)
  {
    ApplyKeepsChans(st, s, cap);
    ApplyKeepsRings(st, s, cap);
  }

  /** Whatever the order of critical sections, a channel is listed exactly
      while it is open. */
  lemma {:induction false} RunKeepsSound(st: State, steps: seq<Step>, cap: nat)
    requires Sound(st, cap)
    ensures Sound(Run(st, steps, cap), cap)
  {
    if steps != [] {
      var n := |steps| - 1;
      RunKeepsSound(st, steps[..n], cap);
      ApplyKeepsSound(Run(st, steps[..n], cap), steps[n], cap);
    }
  }

  lemma ClosedStep(st: State, s: Step, cap: nat, c: nat)
    requires Sound(st, cap) && c in st.chans && !st.chans[c].open
    ensures var after := Apply(st, s, cap).chans; c in after && !after[c].open && after[c].sent == st.chans[c].sent
  {
    assert forall k :: c in Listed(st.subs, k) ==> k in st.subs && st.chans[c].key == k;
  }

  /** A closed channel is never reopened, closed again or sent to. */
  lemma {:induction false} ClosedForever(st: State, steps: seq<Step>, cap: nat, c: nat)
    requires Sound(st, cap) && c in st.chans && !st.chans[c].open
    ensures var after := Run(st, steps, cap).chans; c in after && !after[c].open && after[c].sent == st.chans[c].sent
  {
    if steps != [] {
      var n := |steps| - 1;
      ClosedForever(st, steps[..n], cap, c);
      RunKeepsSound(st, steps[..n], cap);
      ClosedStep(Run(st, steps[..n], cap), steps[n], cap, c);
    }
  }

  /** After an Untrack, with anything interleaved between its halves and
      after it, every channel that was watching is closed. */
  lemma UntrackClosesWatchers(st: State, between: seq<Step>, later: seq<Step>, k: Key, cap: nat, c: nat)
    requires Sound(st, cap) && c in st.chans && st.chans[c].key == k
    ensures var mid := Apply(Run(Apply(st, DropRing(k), cap), between, cap), DropSubs(k), cap);
      var after := Run(mid, later, cap).chans; c in after && !after[c].open
  {
    ApplyKeepsSound(st, DropRing(k), cap);
    var a := Apply(st, DropRing(k), cap);
    var b := Run(a, between, cap);
    RunKeepsSound(a, between, cap);
    ChannelsStay(a, between, cap, c);
    ApplyKeepsSound(b, DropSubs(k), cap);
    ClosedForever(Apply(b, DropSubs(k), cap), later, cap, c);
  }

  lemma ChannelStays(st: State, s: Step, cap: nat, c: nat)
    requires c in st.chans
    ensures var after := Apply(st, s, cap).chans; c in after && after[c].key == st.chans[c].key
  {}

  lemma {:induction false} ChannelsStay(st: State, steps: seq<Step>, cap: nat, c: nat)
    requires c in st.chans
    ensures var after := Run(st, steps, cap).chans; c in after && after[c].key == st.chans[c].key
  {
    if steps != [] {
      var n := |steps| - 1;
      ChannelsStay(st, steps[..n], cap, c);
      ChannelStays(Run(st, steps[..n], cap), steps[n], cap, c);
    }
  }

  /** Tracking again an instance already polled changes nothing: its ring and
      all it holds stay. */
  lemma TrackAgain(st: State, k: Key, ring: nat, cap: nat)
    requires Sound(st, cap) && k in st.rings
    ensures Apply(st, Track(k, ring), cap) == st
  {}

  /** A first Track polls the instance with a new, empty ring, and touches no
      other. */
  lemma TrackStarts(st: State, k: Key, ring: nat, cap: nat)
    requires Sound(st, cap) && k !in st.rings && ring !in st.logs
    ensures var next := Apply(st, Track(k, ring), cap);
      && k in next.pollers && k in next.rings && next.rings[k] == ring && next.logs[ring] == []
      && (forall l :: l in st.rings ==> l in next.rings && next.rings[l] == st.rings[l])
      && (forall r :: r in st.logs ==> r in next.logs && next.logs[r] == st.logs[r]) && next.subs == st.subs && next.chans == st.chans
  {}

  /** A watcher receives what its channel accepted, in order, one at a time. */
  lemma ReceivesNext(st: State, c: nat, cap: nat)
    requires c in st.chans && st.chans[c].taken < |st.chans[c].sent|
    ensures var next := Apply(st, Receive(c), cap).chans[c];
      next.taken == st.chans[c].taken + 1 && next.sent == st.chans[c].sent && next.open == st.chans[c].open
  {}

  /** A ring that no key names. */
  ghost predicate Dropped(st: State, ring: nat) { ring in st.logs && forall k :: k in st.rings ==> st.rings[k] != ring }

  lemma DroppedStep(st: State, s: Step, cap: nat, ring: nat)
    requires Dropped(st, ring)
    ensures Dropped(Apply(st, s, cap), ring)
  {}

  /** Untrack drops the ring for good: whatever runs later, no key gets it
      back, so a push that still holds it is seen by nobody. */
  lemma {:induction false} DroppedForever(st: State, steps: seq<Step>, cap: nat, ring: nat)
    requires Dropped(st, ring)
    ensures Dropped(Run(st, steps, cap), ring)
  {
    if steps != [] {
      var n := |steps| - 1;
      DroppedForever(st, steps[..n], cap, ring);
      DroppedStep(Run(st, steps[..n], cap), steps[n], cap, ring);
    }
  }

  lemma UntrackDropsRing(st: State, steps: seq<Step>, cap: nat, k: Key)
    requires Sound(st, cap) && k in st.rings
    ensures Dropped(Run(Apply(st, DropRing(k), cap), steps, cap), st.rings[k])
  {
    assert st.rings[k] in st.rings.Values;
    DroppedForever(Apply(st, DropRing(k), cap), steps, cap, st.rings[k]);
  }

  // ----- what a watcher receives -----

  predicate Subseq(a: seq<Sample>, b: seq<Sample>) {
    || a == []
    || (b != [] && ((a[|a| - 1] == b[|b| - 1] && Subseq(a[..|a| - 1], b[..|b| - 1])) || Subseq(a, b[..|b| - 1])))
  }

  lemma SubseqSnoc(a: seq<Sample>, b: seq<Sample>, x: Sample)
    requires Subseq(a, b)
    ensures Subseq(a, b + [x]) && Subseq(a + [x], b + [x])
  {
    assert (b + [x])[..|b|] == b && (a + [x])[..|a|] == a;
  }

  function PushedTo(steps: seq<Step>, k: Key): seq<Sample> {
    if steps == [] then []
    else
      var init, last := PushedTo(steps[..|steps| - 1], k), steps[|steps| - 1];
      if last.PushSubs? && last.key == k then init + [last.x] else init
  }

  /** What one step adds to a channel. */
  function Gains(ch: Chan, s: Step, cap: nat): seq<Sample> {
    if s.PushSubs? && s.key == ch.key && ch.open && |ch.sent| < ch.taken + cap then [s.x] else []
  }

  lemma StepDelivers(st: State, s: Step, cap: nat, c: nat)
    requires ChansSound(st.chans, st.subs, cap) && c in st.chans
    ensures c in Apply(st, s, cap).chans
    ensures var ch, next := st.chans[c], Apply(st, s, cap).chans[c];
      && next.key == ch.key && next.taken >= ch.taken && (next.open ==> ch.open) && next.sent == ch.sent + Gains(ch, s, cap)
  {
    assert forall k :: c in Listed(st.subs, k) ==> k in st.subs && st.chans[c].key == k;
  }

  /** What a channel may have gained since it was `from`, `pushed` having
      been pushed to its key. */
  ghost predicate Delivered(from: Chan, after: Chan, gained: seq<Sample>, pushed: seq<Sample>, cap: nat) {
    && after.key == from.key && after.taken >= from.taken && after.sent == from.sent + gained && (after.open ==> from.open)
    && Subseq(gained, pushed)
    && (after.open && |from.sent| + |pushed| <= from.taken + cap ==> gained == pushed)
  }

  function PushedBy(s: Step, k: Key): seq<Sample> { if s.PushSubs? && s.key == k then [s.x] else [] }

  lemma AppendNothing(s: seq<Sample>)
    ensures s + [] == s
  {}

  lemma AppendMore(s: seq<Sample>, d: seq<Sample>, x: Sample)
    ensures (s + d) + [x] == s + (d + [x])
  {}

  lemma DeliveredIdle(from: Chan, mid: Chan, after: Chan, gained: seq<Sample>, pushed: seq<Sample>, cap: nat)
    requires Delivered(from, mid, gained, pushed, cap)
    requires after.key == mid.key && after.taken >= mid.taken && (after.open ==> mid.open) && after.sent == mid.sent
    ensures Delivered(from, after, gained, pushed, cap)
  {}

  lemma DeliveredPush(from: Chan, mid: Chan, x: Sample, after: Chan, gained: seq<Sample>, pushed: seq<Sample>, cap: nat)
    requires Delivered(from, mid, gained, pushed, cap)
    requires after.key == mid.key && after.taken >= mid.taken && (after.open ==> mid.open) && after.sent == mid.sent + [x]
    ensures Delivered(from, after, gained + [x], pushed + [x], cap)
  {
    SubseqSnoc(gained, pushed, x);
    AppendMore(from.sent, gained, x);
  }

  lemma DeliveredDrop(from: Chan, mid: Chan, x: Sample, after: Chan, gained: seq<Sample>, pushed: seq<Sample>, cap: nat)
    requires Delivered(from, mid, gained, pushed, cap) && !(mid.open && |mid.sent| < mid.taken + cap)
    requires after.key == mid.key && after.taken >= mid.taken && (after.open ==> mid.open) && after.sent == mid.sent
    ensures Delivered(from, after, gained, pushed + [x], cap)
  {
    SubseqSnoc(gained, pushed, x);
  }

  lemma DeliveredStep(from: Chan, mid: Chan, s: Step, after: Chan, gained: seq<Sample>, pushed: seq<Sample>, cap: nat)
    requires Delivered(from, mid, gained, pushed, cap)
    requires after.key == mid.key && after.taken >= mid.taken && (after.open ==> mid.open) && after.sent == mid.sent + Gains(mid, s, cap)
    ensures Delivered(from, after, gained + Gains(mid, s, cap), pushed + PushedBy(s, from.key), cap)
  {
    AppendNothing(mid.sent);
    AppendNothing(gained);
    AppendNothing(pushed);
    if !(s.PushSubs? && s.key == from.key) {
      DeliveredIdle(from, mid, after, gained, pushed, cap);
    } else if mid.open && |mid.sent| < mid.taken + cap {
      DeliveredPush(from, mid, s.x, after, gained, pushed, cap);
    } else {
      DeliveredDrop(from, mid, s.x, after, gained, pushed, cap);
    }
  }

  lemma PushedToLast(steps: seq<Step>, k: Key)
    requires steps != []
    ensures PushedTo(steps, k) == PushedTo(steps[..|steps| - 1], k) + PushedBy(steps[|steps| - 1], k)
  {}

  /** A channel gains samples pushed to its key, in push order and none
      twice; while it stays open and the buffer has room for all of them,
      none is dropped. */
  lemma {:induction false} RunDelivers(st: State, steps: seq<Step>, cap: nat, c: nat) returns (gained: seq<Sample>)
    requires Sound(st, cap) && c in st.chans
    ensures c in Run(st, steps, cap).chans
    ensures Delivered(st.chans[c], Run(st, steps, cap).chans[c], gained, PushedTo(steps, st.chans[c].key), cap)
  {
    if steps == [] {
      gained := [];
    } else {
      var n := |steps| - 1;
      var before := RunDelivers(st, steps[..n], cap, c);
      var mid := Run(st, steps[..n], cap);
      RunKeepsSound(st, steps[..n], cap);
      StepDelivers(mid, steps[n], cap, c);
      PushedToLast(steps, st.chans[c].key);
      DeliveredStep(st.chans[c], mid.chans[c], steps[n], Apply(mid, steps[n], cap).chans[c], before, PushedTo(steps[..n], st.chans[c].key), cap);
      gained := before + Gains(mid.chans[c], steps[n], cap);
    }
  }
}
