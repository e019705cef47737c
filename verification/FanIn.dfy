/** workload/streaming.go and workload/metrics_streaming.go: the fan-in of
    replica streams into one channel, as steps of its goroutines. fanInHealth
    and fanInMetrics are the protocol with `follow`; fanInLogs also without. */
module FanIn {
  import opened Common

  type Key = nat

  const BUFFER: nat := 64

  /** Receiving: blocked in the range or Scan. Holding: in the select that
      sends or gives up. */
  datatype Stage = Receiving | Holding | Exited

  /** A reader goroutine. `pending` items wait upstream; `upstream` is false
      once the stream has ended. `got` and `sent` count the items its stream
      produced and those it put into out. */
  datatype Child = Child(key: Key, cancelled: bool, stage: Stage, pending: nat, upstream: bool, got: nat, sent: nat)

  function NewChild(k: Key): Child { Child(k, false, Receiving, 0, true, 0, 0) }

  /** Where the main goroutine is. Draining: deferred teardown, waiting for
      the children. */
  datatype Main = Idle | Adding(rest: seq<Key>, seen: set<Key>) | Pruning(stale: set<Key>) | Draining | Closed

  /** `subs` gives each subscribed replica its reader; `panicked` records a
      send on, or close of, a closed channel. */
  datatype State = State(main: Main, follow: bool, ctxDone: bool, expired: bool, subs: map<Key, nat>, children: seq<Child>,
                         wg: int, outOpen: bool, buffer: nat, consumed: nat, closes: nat, panicked: bool)

  datatype Step =
    | Tick(listing: seq<Key>) | AddNext(ok: bool) | EndAdding | RemoveNext(key: Key) | EndPruning | Leave | CloseOut
    | Receive(i: nat) | Send(i: nat) | Abort(i: nat) | Finish(i: nat) | UpstreamEnd(i: nat)
    | Produce(i: nat) | Consume | CancelCtx | Timeout

  predicate Initial(st: State) {
    && (st.main.Idle? || (st.main.Adding? && st.main.seen == Elems(st.main.rest)))
    && !st.expired && st.subs == map[] && st.children == [] && st.wg == 0 && st.outOpen && st.buffer == 0 && st.consumed == 0 && st.closes == 0 && !st.panicked
  }

  predicate Live(c: Child) { c.stage != Exited }

  /** A reader's context ends with its own cancel or with the caller's. */
  predicate Cancelled(st: State, c: Child) { st.ctxDone || c.cancelled }

  predicate Enabled(st: State, s: Step) {
    match s
    case Tick(_) => st.main.Idle? && st.follow
    case AddNext(_) => st.main.Adding? && st.main.rest != []
    case EndAdding => st.main.Adding? && st.main.rest == []
    case RemoveNext(k) => st.main.Pruning? && k in st.main.stale
    case EndPruning => st.main.Pruning? && st.main.stale == {}
    case Leave => st.main.Idle? && (st.ctxDone || st.expired)
    case CloseOut => st.main.Draining? && st.wg == 0
    case Receive(i) => i < |st.children| && st.children[i].stage == Receiving && st.children[i].pending > 0
    case Send(i) => i < |st.children| && st.children[i].stage == Holding && st.buffer < BUFFER
    case Abort(i) => i < |st.children| && st.children[i].stage == Holding && Cancelled(st, st.children[i])
    case Finish(i) => i < |st.children| && st.children[i].stage == Receiving && st.children[i].pending == 0 && !st.children[i].upstream
    case UpstreamEnd(i) => i < |st.children| && Live(st.children[i]) && st.children[i].upstream
    case Produce(i) => i < |st.children| && Live(st.children[i]) && st.children[i].upstream
    case Consume => st.buffer > 0
    case CancelCtx => !st.ctxDone
    case Timeout => !st.follow && !st.expired
  }

  function CancelAt(children: seq<Child>, at: set<nat>): seq<Child> {
    seq(|children|, i requires 0 <= i < |children| => if i in at then children[i].(cancelled := true) else children[i])
  }

  function Exit(st: State, i: nat): State
    requires i < |st.children|
  {
    st.(children := st.children[i := st.children[i].(stage := Exited)], wg := st.wg - 1)
  }

  function Add(st: State, k: Key, ok: bool): State {
    if k in st.subs || !ok then st
    else st.(subs := st.subs[k := |st.children|], children := st.children + [NewChild(k)], wg := st.wg + 1)
  }

  function Remove(st: State, k: Key): State {
    if k in st.subs && st.subs[k] < |st.children|
    then st.(children := st.children[st.subs[k] := st.children[st.subs[k]].(cancelled := true)], subs := st.subs - {k})
    else st.(subs := st.subs - {k})
  }

  function Teardown(st: State): State { st.(main := Draining, children := CancelAt(st.children, st.subs.Values), subs := map[]) }

  function Apply(st: State, s: Step): State
    requires Enabled(st, s)
  {
    match s
    case Tick(l) => st.(main := Adding(l, Elems(l)))
    case AddNext(ok) => Add(st, st.main.rest[0], ok).(main := Adding(st.main.rest[1..], st.main.seen))
    case EndAdding => st.(main := Pruning(st.subs.Keys - st.main.seen))
    case RemoveNext(k) => Remove(st, k).(main := Pruning(st.main.stale - {k}))
    case EndPruning => st.(main := Idle)
    case Leave => Teardown(st)
    case CloseOut => st.(main := Closed, outOpen := false, closes := st.closes + 1, panicked := st.panicked || !st.outOpen)
    case Receive(i) => st.(children := st.children[i := st.children[i].(stage := Holding, pending := st.children[i].pending - 1)])
    case Send(i) => st.(children := st.children[i := st.children[i].(stage := Receiving, sent := st.children[i].sent + 1)], buffer := st.buffer + 1, panicked := st.panicked || !st.outOpen)
    case Abort(i) => Exit(st, i)
    case Finish(i) => Exit(st, i)
    case UpstreamEnd(i) => st.(children := st.children[i := st.children[i].(upstream := false)])
    case Produce(i) => st.(children := st.children[i := st.children[i].(pending := st.children[i].pending + 1, got := st.children[i].got + 1)])
    case Consume => st.(buffer := st.buffer - 1, consumed := st.consumed + 1)
    case CancelCtx => st.(ctxDone := true)
    case Timeout => st.(expired := true)
  }

  // ----- sums over the children -----

  /** How many readers run, and how much they may still do on their own. */
  function Running(cs: seq<Child>): nat {
    if cs == [] then 0 else Running(cs[..|cs| - 1]) + if Live(cs[|cs| - 1]) then 1 else 0
  }

  function Weight(c: Child): nat {
    if !Live(c) then 0 else 2 * c.pending + (if c.stage == Holding then 2 else 1) + (if c.upstream then 1 else 0)
  }

  function Weights(cs: seq<Child>): nat { if cs == [] then 0 else Weights(cs[..|cs| - 1]) + Weight(cs[|cs| - 1]) }

  lemma {:induction false} SumsUpdate(cs: seq<Child>, i: nat, c: Child)
    requires i < |cs|
    ensures Running(cs[i := c]) == Running(cs) - (if Live(cs[i]) then 1 else 0) + (if Live(c) then 1 else 0)
    ensures Weights(cs[i := c]) == Weights(cs) - Weight(cs[i]) + Weight(c)
  {
    var n := |cs| - 1;
    if i < n {
      SumsUpdate(cs[..n], i, c);
      assert cs[i := c][..n] == cs[..n][i := c];
    } else {
      assert cs[i := c][..n] == cs[..n];
    }
  }

  lemma SumsAppend(cs: seq<Child>, c: Child)
    ensures Running(cs + [c]) == Running(cs) + if Live(c) then 1 else 0
    ensures Weights(cs + [c]) == Weights(cs) + Weight(c)
  {
    assert (cs + [c])[..|cs|] == cs;
  }

  lemma {:induction false} SumsCancel(cs: seq<Child>, at: set<nat>)
    ensures Running(CancelAt(cs, at)) == Running(cs) && Weights(CancelAt(cs, at)) == Weights(cs)
  {
    if cs != [] {
      var n := |cs| - 1;
      SumsCancel(cs[..n], at);
      assert CancelAt(cs, at)[..n] == CancelAt(cs[..n], at);
    }
  }

  lemma {:induction false} SomeoneRuns(cs: seq<Child>)
    ensures Running(cs) == 0 <==> forall i :: 0 <= i < |cs| ==> !Live(cs[i])
  {
    if cs != [] {
      var n := |cs| - 1;
      SomeoneRuns(cs[..n]);
      assert cs == cs[..n] + [cs[n]];
    }
  }

  // ----- the invariant -----

  ghost predicate Subscribed(st: State) {
    && (forall k :: k in st.subs ==> st.subs[k] < |st.children| && st.children[st.subs[k]].key == k && !st.children[st.subs[k]].cancelled)
    && forall i :: 0 <= i < |st.children| && Live(st.children[i]) && !st.children[i].cancelled ==>
         st.children[i].key in st.subs && st.subs[st.children[i].key] == i
  }

  /** A running reader is cancelled unless it is its replica's subscription;
      the wait group counts the running readers; out is open until the one
      close, which finds none running. */
  ghost predicate Sound(st: State) {
    && Subscribed(st)
    && st.wg == Running(st.children)
    && !st.panicked && st.buffer <= BUFFER
    && (st.outOpen <==> !st.main.Closed?) && st.closes == (if st.outOpen then 0 else 1)
    && (st.main.Draining? || st.main.Closed? ==> st.subs == map[])
    && (st.main.Closed? ==> st.wg == 0)
    && (st.main.Pruning? ==> st.main.stale <= st.subs.Keys)
  }

  lemma InitialSound(st: State)
    requires Initial(st)
    ensures Sound(st)
  {}

  lemma AddKeeps(st: State, k: Key, ok: bool)
    requires Subscribed(st) && st.wg == Running(st.children)
    ensures var n := Add(st, k, ok); Subscribed(n) && n.wg == Running(n.children)
  {
    SumsAppend(st.children, NewChild(k));
  }

  lemma RemoveKeeps(st: State, k: Key)
    requires Subscribed(st) && st.wg == Running(st.children) && k in st.subs
    ensures var n := Remove(st, k); Subscribed(n) && n.wg == Running(n.children)
  {
    var i := st.subs[k];
    SumsUpdate(st.children, i, st.children[i].(cancelled := true));
  }

  lemma TeardownKeeps(st: State)
    requires Subscribed(st) && st.wg == Running(st.children)
    ensures var n := Teardown(st); Subscribed(n) && n.wg == Running(n.children)
    ensures forall i :: 0 <= i < |st.children| && Live(st.children[i]) ==> Teardown(st).children[i].cancelled
  {
    SumsCancel(st.children, st.subs.Values);
    assert forall k :: k in st.subs ==> st.subs[k] in st.subs.Values;
  }

  lemma ChildKeeps(st: State, i: nat, c: Child)
    requires Subscribed(st) && i < |st.children|
    requires c.key == st.children[i].key && c.cancelled == st.children[i].cancelled && (Live(c) ==> Live(st.children[i]))
    ensures Subscribed(st.(children := st.children[i := c]))
    ensures Running(st.children[i := c]) == Running(st.children) - (if Live(st.children[i]) then 1 else 0) + (if Live(c) then 1 else 0)
  {
    SumsUpdate(st.children, i, c);
  }

  /** While a reader runs, out has not been closed. */
  lemma RunningMeansOpen(st: State, i: nat)
    requires Sound(st) && i < |st.children| && Live(st.children[i])
    ensures st.wg > 0 && st.outOpen
  {
    SomeoneRuns(st.children);
  }

  lemma ChildStepKeepsSound(st: State, s: Step)
    requires Sound(st) && Enabled(st, s)
    requires s.Receive? || s.Send? || s.Abort? || s.Finish? || s.UpstreamEnd? || s.Produce?
    ensures Sound(Apply(st, s))
  {
    RunningMeansOpen(st, s.i);
    var next := Apply(st, s);
    ChildKeeps(st, s.i, next.children[s.i]);
  }

  lemma AddNextKeepsSound(st: State, ok: bool)
    requires Sound(st) && Enabled(st, AddNext(ok))
    ensures Sound(Apply(st, AddNext(ok)))
  {
    AddKeeps(st, st.main.rest[0], ok);
  }

  lemma RemoveNextKeepsSound(st: State, k: Key)
    requires Sound(st) && Enabled(st, RemoveNext(k))
    ensures Sound(Apply(st, RemoveNext(k)))
  {
    RemoveKeeps(st, k);
  }

  lemma LeaveKeepsSound(st: State)
    requires Sound(st) && Enabled(st, Leave)
    ensures Sound(Apply(st, Leave))
  {
    TeardownKeeps(st);
  }

  lemma PhaseKeepsSound(st: State, s: Step)
    requires Sound(st) && Enabled(st, s)
    requires s.Tick? || s.EndAdding? || s.EndPruning? || s.CloseOut? || s.Consume? || s.CancelCtx? || s.Timeout?
    ensures Sound(Apply(st, s))
  {}

  predicate ByChild(s: Step) { s.Receive? || s.Send? || s.Abort? || s.Finish? || s.UpstreamEnd? || s.Produce? }

  /** Every step of every goroutine keeps the protocol. */
  lemma StepKeepsSound(st: State, s: Step)
    requires Sound(st) && Enabled(st, s)
    ensures Sound(Apply(st, s))
  {
    if ByChild(s) {
      ChildStepKeepsSound(st, s);
    } else if s.AddNext? {
      AddNextKeepsSound(st, s.ok);
    } else if s.RemoveNext? {
      RemoveNextKeepsSound(st, s.key);
    } else if s.Leave? {
      LeaveKeepsSound(st);
    } else {
      PhaseKeepsSound(st, s);
    }
  }

  // ----- every interleaving -----

  ghost predicate IsRun(st: State, steps: seq<Step>)
    decreases |steps|
  {
    steps == [] || (Enabled(st, steps[0]) && IsRun(Apply(st, steps[0]), steps[1..]))
  }

  function Run(st: State, steps: seq<Step>): State
    requires IsRun(st, steps)
    decreases |steps|
  {
    if steps == [] then st else Run(Apply(st, steps[0]), steps[1..])
  }

  /** In every interleaving: no send on the closed channel, no second close,
      and closed only once no reader runs. */
  lemma {:induction false} RunKeepsSound(st: State, steps: seq<Step>)
    requires Sound(st) && IsRun(st, steps)
    ensures Sound(Run(st, steps))
    decreases |steps|
  {
    if steps != [] {
      StepKeepsSound(st, steps[0]);
      RunKeepsSound(Apply(st, steps[0]), steps[1..]);
    }
  }

  lemma NeverPanics(st: State, steps: seq<Step>)
    requires Initial(st) && IsRun(st, steps)
    ensures var end := Run(st, steps);
      && !end.panicked && end.closes <= 1 && end.buffer <= 64
      && (end.closes == 1 ==> forall i :: 0 <= i < |end.children| ==> !Live(end.children[i]))
      && forall i, j :: 0 <= i < j < |end.children| && Live(end.children[i]) && Live(end.children[j]) && end.children[i].key == end.children[j].key
           ==> end.children[i].cancelled || end.children[j].cancelled
  {
    InitialSound(st);
    RunKeepsSound(st, steps);
    SomeoneRuns(Run(st, steps).children);
  }

  // ----- no item is lost -----

  /** A reader's items: waiting, in hand, or sent. One that ended without
      being cancelled sent them all. */
  ghost predicate Accounted(ctxDone: bool, c: Child) {
    match c.stage
    case Receiving => c.got == c.pending + c.sent
    case Holding => c.got == c.pending + 1 + c.sent
    case Exited => c.got >= c.pending + c.sent && (!ctxDone && !c.cancelled ==> c.pending == 0 && c.got == c.sent)
  }

  function Sent(cs: seq<Child>): nat { if cs == [] then 0 else Sent(cs[..|cs| - 1]) + cs[|cs| - 1].sent }

  lemma {:induction false} SentUpdate(cs: seq<Child>, i: nat, c: Child)
    requires i < |cs|
    ensures Sent(cs[i := c]) == Sent(cs) - cs[i].sent + c.sent
  {
    var n := |cs| - 1;
    if i < n {
      SentUpdate(cs[..n], i, c);
      assert cs[i := c][..n] == cs[..n][i := c];
    } else {
      assert cs[i := c][..n] == cs[..n];
    }
  }

  lemma SentAppend(cs: seq<Child>, c: Child)
    ensures Sent(cs + [c]) == Sent(cs) + c.sent
  {
    assert (cs + [c])[..|cs|] == cs;
  }

  lemma {:induction false} SentCancel(cs: seq<Child>, at: set<nat>)
    ensures Sent(CancelAt(cs, at)) == Sent(cs)
  {
    if cs != [] {
      var n := |cs| - 1;
      SentCancel(cs[..n], at);
      assert CancelAt(cs, at)[..n] == CancelAt(cs[..n], at);
    }
  }

  /** What the readers sent is what the caller took and what waits in out. */
  ghost predicate Balanced(st: State) {
    && (forall i :: 0 <= i < |st.children| ==> Accounted(st.ctxDone, st.children[i]))
    && Sent(st.children) == st.buffer + st.consumed
  }

  /** A step of reader i changes nothing else but what it put into out. */
  lemma ChildStepShape(st: State, s: Step)
    requires Enabled(st, s) && ByChild(s)
    ensures var next, c := Apply(st, s), Apply(st, s).children[s.i];
      && next.children == st.children[s.i := c] && next.ctxDone == st.ctxDone
      && next.buffer + next.consumed == st.buffer + st.consumed - st.children[s.i].sent + c.sent
  {
    match s
    case Receive(_) =>
    case Send(_) =>
    case Abort(i) => ExitShape(st, i);
    case Finish(i) => ExitShape(st, i);
    case UpstreamEnd(_) =>
    case Produce(_) =>
  }

  lemma ExitShape(st: State, i: nat)
    requires i < |st.children|
    ensures var next, c := Exit(st, i), Exit(st, i).children[i];
      && next.children == st.children[i := c] && c.sent == st.children[i].sent
      && next.ctxDone == st.ctxDone && next.buffer == st.buffer && next.consumed == st.consumed
  {}

  lemma ChildStepAccounts(st: State, s: Step)
    requires Enabled(st, s) && ByChild(s) && Accounted(st.ctxDone, st.children[s.i])
    ensures Accounted(st.ctxDone, Apply(st, s).children[s.i])
  {}

  lemma ChildStepBalances(st: State, s: Step)
    requires Balanced(st) && Enabled(st, s) && ByChild(s)
    ensures Balanced(Apply(st, s))
  {
    ChildStepShape(st, s);
    ChildStepAccounts(st, s);
    SentUpdate(st.children, s.i, Apply(st, s).children[s.i]);
  }

  lemma AddBalances(st: State, k: Key, ok: bool)
    requires Balanced(st)
    ensures Balanced(Add(st, k, ok))
  {
    SentAppend(st.children, NewChild(k));
  }

  lemma RemoveBalances(st: State, k: Key)
    requires Balanced(st)
    ensures Balanced(Remove(st, k))
  {
    if k in st.subs && st.subs[k] < |st.children| {
      SentUpdate(st.children, st.subs[k], st.children[st.subs[k]].(cancelled := true));
    }
  }

  lemma TeardownBalances(st: State)
    requires Balanced(st)
    ensures Balanced(Teardown(st))
  {
    SentCancel(st.children, st.subs.Values);
  }

  lemma StepBalances(st: State, s: Step)
    requires Balanced(st) && Enabled(st, s)
    ensures Balanced(Apply(st, s))
  {
    if ByChild(s) {
      ChildStepBalances(st, s);
    } else if s.AddNext? {
      AddBalances(st, st.main.rest[0], s.ok);
    } else if s.RemoveNext? {
      RemoveBalances(st, s.key);
    } else if s.Leave? {
      TeardownBalances(st);
    }
  }

  lemma {:induction false} RunBalances(st: State, steps: seq<Step>)
    requires Balanced(st) && IsRun(st, steps)
    ensures Balanced(Run(st, steps))
    decreases |steps|
  {
    if steps != [] {
      StepBalances(st, steps[0]);
      RunBalances(Apply(st, steps[0]), steps[1..]);
    }
  }

  /** A replica just subscribed can be read: an item its stream produces next
      reaches out in three steps, tagged with the replica. */
  lemma ItemTravels(st: State, k: Key) returns (end: State, i: nat)
    requires k !in st.subs && st.buffer < BUFFER && st.outOpen
    ensures var st0 := Add(st, k, true); var steps := [Produce(i), Receive(i), Send(i)];
      && IsRun(st0, steps) && end == Run(st0, steps)
      && k in end.subs && end.subs[k] == i < |end.children| && end.children[i].key == k
      && end.buffer == st.buffer + 1 && end.children[i].sent == 1 && end.panicked == st.panicked
  {
    i := |st.children|;
    var st0 := Add(st, k, true);
    var st1 := Apply(st0, Produce(i));
    var st2 := Apply(st1, Receive(i));
    end := Apply(st2, Send(i));
    RunOfThree(st0, Produce(i), st1, Receive(i), st2, Send(i));
  }

  lemma RunOfThree(st0: State, a: Step, st1: State, b: Step, st2: State, c: Step)
    requires Enabled(st0, a) && st1 == Apply(st0, a) && Enabled(st1, b) && st2 == Apply(st1, b) && Enabled(st2, c)
    ensures IsRun(st0, [a, b, c]) && Run(st0, [a, b, c]) == Apply(st2, c)
  {
    assert [a, b, c][1..] == [b, c] && [b, c][1..] == [c] && [c][1..] == [];
    assert IsRun(Apply(st2, c), []) && Run(Apply(st2, c), []) == Apply(st2, c);
    assert IsRun(st2, [c]) && Run(st2, [c]) == Apply(st2, c);
    assert IsRun(st1, [b, c]) && Run(st1, [b, c]) == Apply(st2, c);
  }

  /** In every interleaving each item sent is taken once or waits in out, and
      a reader that is not cancelled loses none: those its stream produced
      wait, are in its hand, or were sent. */
  lemma NothingLost(st: State, steps: seq<Step>, i: nat)
    requires Initial(st) && IsRun(st, steps)
    ensures var end := Run(st, steps);
      && Sent(end.children) == end.buffer + end.consumed
      && (i < |end.children| && !Cancelled(end, end.children[i]) ==>
            var c := end.children[i]; c.got == c.pending + (if c.stage == Holding then 1 else 0) + c.sent)
  {
    RunBalances(st, steps);
  }

  // ----- teardown -----

  /** The steps the fan-in and its upstreams take on their own: neither new
      items, nor a new listing, nor the caller. */
  predicate Internal(s: Step) { !s.Tick? && !s.Produce? && !s.Consume? && !s.CancelCtx? && !s.Timeout? }

  function PhaseWeight(st: State): nat {
    match st.main
    case Closed => 0
    case Draining => 1
    case Idle => 2
    case Pruning(stale) => 3 + |stale|
    case Adding(rest, _) => 4 + |st.subs| + 4 * |rest|
  }

  function Measure(st: State): nat { PhaseWeight(st) + Weights(st.children) }

  lemma AddDescends(st: State, ok: bool)
    requires Enabled(st, AddNext(ok))
    ensures Measure(Apply(st, AddNext(ok))) < Measure(st)
  {
    SumsAppend(st.children, NewChild(st.main.rest[0]));
    AddedSize(st.subs, st.main.rest[0], |st.children|);
  }

  lemma AddedSize(m: map<Key, nat>, k: Key, v: nat)
    ensures k !in m ==> |m[k := v]| == |m| + 1
  {}

  lemma KeysSize(m: map<Key, nat>)
    ensures |m.Keys| == |m|
  {}

  lemma RemoveDescends(st: State, k: Key)
    requires Sound(st) && Enabled(st, RemoveNext(k))
    ensures Measure(Apply(st, RemoveNext(k))) < Measure(st)
  {
    var i := st.subs[k];
    SumsUpdate(st.children, i, st.children[i].(cancelled := true));
  }

  lemma ChildDescends(st: State, s: Step)
    requires Enabled(st, s) && (s.Receive? || s.Send? || s.Abort? || s.Finish? || s.UpstreamEnd?)
    ensures Measure(Apply(st, s)) < Measure(st)
  {
    SumsUpdate(st.children, s.i, Apply(st, s).children[s.i]);
  }

  lemma PhaseDescends(st: State, s: Step)
    requires Sound(st) && Enabled(st, s) && (s.EndAdding? || s.EndPruning? || s.Leave? || s.CloseOut?)
    ensures Measure(Apply(st, s)) < Measure(st)
  {
    if s.EndAdding? {
      SubsetSize(st.subs.Keys - st.main.seen, st.subs.Keys);
      KeysSize(st.subs);
    } else if s.Leave? {
      SumsCancel(st.children, st.subs.Values);
    }
  }

  lemma OutsideUnmoved(st: State, s: Step)
    requires Enabled(st, s) && (s.Consume? || s.CancelCtx? || s.Timeout?)
    ensures Measure(Apply(st, s)) == Measure(st)
  {}

  /** Every internal step brings the end closer; the rest of the quiet steps
      do not move it away. */
  lemma Descends(st: State, s: Step)
    requires Sound(st) && Enabled(st, s) && !s.Tick? && !s.Produce?
    ensures Measure(Apply(st, s)) <= Measure(st)
    ensures Internal(s) ==> Measure(Apply(st, s)) < Measure(st)
  {
    if ByChild(s) {
      ChildDescends(st, s);
    } else if s.AddNext? {
      AddDescends(st, s.ok);
    } else if s.RemoveNext? {
      RemoveDescends(st, s.key);
    } else if Internal(s) {
      PhaseDescends(st, s);
    } else {
      OutsideUnmoved(st, s);
    }
  }

  /** Once the context is done (or a log tail has expired), until out is
      closed some internal step is always enabled, whether or not anybody
      still reads out. */
  lemma AlwaysEnabled(st: State) returns (s: Step)
    requires Sound(st) && (st.ctxDone || st.expired) && !st.main.Closed?
    ensures Internal(s) && Enabled(st, s)
  {
    match st.main
    case Idle => s := Leave;
    case Adding(rest, _) => s := if rest == [] then EndAdding else AddNext(true);
    case Pruning(stale) =>
      if stale == {} {
        s := EndPruning;
      } else {
        var k :| k in stale;
        s := RemoveNext(k);
      }
    case Draining =>
      SomeoneRuns(st.children);
      if st.wg == 0 {
        s := CloseOut;
      } else {
        var i: nat :| i < |st.children| && Live(st.children[i]);
        var c := st.children[i];
        s := if c.stage == Holding then Abort(i) else if c.pending > 0 then Receive(i)
             else if c.upstream then UpstreamEnd(i) else Finish(i);
      }
  }

  function InternalSteps(steps: seq<Step>): nat {
    if steps == [] then 0 else InternalSteps(steps[1..]) + if Internal(steps[0]) then 1 else 0
  }

  /** Without new items and listings there are at most Measure internal
      steps, whatever the scheduler does. */
  lemma {:induction false} TeardownBounded(st: State, steps: seq<Step>)
    requires Sound(st) && IsRun(st, steps) && forall i :: 0 <= i < |steps| ==> !steps[i].Tick? && !steps[i].Produce?
    ensures InternalSteps(steps) + Measure(Run(st, steps)) <= Measure(st)
    decreases |steps|
  {
    if steps != [] {
      Descends(st, steps[0]);
      StepKeepsSound(st, steps[0]);
      TeardownBounded(Apply(st, steps[0]), steps[1..]);
    }
  }

  /** From every reachable state teardown can finish on internal steps alone,
      and any scheduler that keeps taking enabled internal steps gets there. */
  lemma {:induction false} TeardownFinishes(st: State) returns (steps: seq<Step>)
    requires Sound(st) && (st.ctxDone || st.expired)
    ensures IsRun(st, steps) && (forall i :: 0 <= i < |steps| ==> Internal(steps[i]))
    ensures var end := Run(st, steps); end.main.Closed? && end.closes == 1 && end.wg == 0 && !end.panicked
    decreases Measure(st)
  {
    if st.main.Closed? {
      return [];
    }
    var s := AlwaysEnabled(st);
    Descends(st, s);
    StepKeepsSound(st, s);
    var rest := TeardownFinishes(Apply(st, s));
    steps := [s] + rest;
    assert steps[1..] == rest;
  }

  // ----- what resync leaves -----

  /** Where a resync stands: `seen` is its listing, `subs0` the subscriptions
      it started from, and a listed replica outside `closed` is subscribed or
      still to be added. */
  ghost predicate Syncing(st: State, seen: set<Key>, subs0: map<Key, nat>, closed: set<Key>) {
    && (forall k :: k in seen && k in subs0 ==> k in st.subs && st.subs[k] == subs0[k])
    && match st.main
       case Adding(rest, s) => s == seen && forall k :: k in seen ==> k in st.subs || k in rest || k in closed
       case Pruning(stale) => stale == st.subs.Keys - seen && seen - closed <= st.subs.Keys
       case Idle => seen - closed <= st.subs.Keys <= seen
       case _ => false
  }

  /** No further listing, no teardown, and only streams of `closed` fail to
      open. Readers, upstreams and the caller do as they like. */
  ghost predicate SyncStep(st: State, s: Step, closed: set<Key>) {
    && Enabled(st, s) && !s.Tick? && !s.Leave?
    && (s.AddNext? && !s.ok ==> st.main.rest[0] in closed)
  }

  lemma AddNextSyncs(st: State, ok: bool, seen: set<Key>, subs0: map<Key, nat>, closed: set<Key>)
    requires Syncing(st, seen, subs0, closed) && SyncStep(st, AddNext(ok), closed)
    ensures Syncing(Apply(st, AddNext(ok)), seen, subs0, closed)
  {
    assert st.main.rest == [st.main.rest[0]] + st.main.rest[1..];
  }

  lemma RemoveNextSyncs(st: State, k: Key, seen: set<Key>, subs0: map<Key, nat>, closed: set<Key>)
    requires Syncing(st, seen, subs0, closed) && SyncStep(st, RemoveNext(k), closed)
    ensures Syncing(Apply(st, RemoveNext(k)), seen, subs0, closed)
  {}

  lemma StepSyncs(st: State, s: Step, seen: set<Key>, subs0: map<Key, nat>, closed: set<Key>)
    requires Syncing(st, seen, subs0, closed) && SyncStep(st, s, closed)
    ensures Syncing(Apply(st, s), seen, subs0, closed)
  {
    if s.AddNext? {
      AddNextSyncs(st, s.ok, seen, subs0, closed);
    } else if s.RemoveNext? {
      RemoveNextSyncs(st, s.key, seen, subs0, closed);
    } else if s.EndPruning? {
      assert forall k :: k in st.subs.Keys ==> k in seen || k in st.main.stale;
    }
  }

  ghost predicate SyncRun(st: State, steps: seq<Step>, closed: set<Key>)
    decreases |steps|
  {
    steps == [] || (SyncStep(st, steps[0], closed) && SyncRun(Apply(st, steps[0]), steps[1..], closed))
  }

  lemma {:induction false} RunSyncs(st: State, steps: seq<Step>, seen: set<Key>, subs0: map<Key, nat>, closed: set<Key>)
    requires Sound(st) && Syncing(st, seen, subs0, closed) && SyncRun(st, steps, closed)
    ensures IsRun(st, steps) && Sound(Run(st, steps)) && Syncing(Run(st, steps), seen, subs0, closed)
    decreases |steps|
  {
    if steps != [] {
      StepSyncs(st, steps[0], seen, subs0, closed);
      StepKeepsSound(st, steps[0]);
      RunSyncs(Apply(st, steps[0]), steps[1..], seen, subs0, closed);
    }
  }

  /** A resync with readers, upstreams and the caller stepping in between:
      once it is back at rest exactly the listed replicas are subscribed, less
      those whose stream did not open; old subscriptions of listed replicas
      are kept; and every reader of another replica has been cancelled. */
  lemma ResyncSettles(st: State, listing: seq<Key>, steps: seq<Step>, closed: set<Key>)
    requires Sound(st) && Enabled(st, Tick(listing)) && SyncRun(Apply(st, Tick(listing)), steps, closed)
    ensures IsRun(Apply(st, Tick(listing)), steps)
    ensures var end := Run(Apply(st, Tick(listing)), steps);
      end.main.Idle? ==>
        && Elems(listing) - closed <= end.subs.Keys <= Elems(listing)
        && (forall k :: k in st.subs && k in listing ==> k in end.subs && end.subs[k] == st.subs[k])
        && forall i :: 0 <= i < |end.children| && Live(end.children[i]) && !end.children[i].cancelled ==> end.children[i].key in listing
  {
    StepKeepsSound(st, Tick(listing));
    RunSyncs(Apply(st, Tick(listing)), steps, Elems(listing), st.subs, closed);
  }

  /** Reader i of replica k has ended, replica k stays wanted, and no reader
      beyond the first `born` reads it. */
  ghost predicate Orphaned(st: State, k: Key, i: nat, born: nat) {
    && k in st.subs && st.subs[k] == i < |st.children| && st.children[i].stage == Exited
    && born <= |st.children| && (forall j :: born <= j < |st.children| ==> st.children[j].key != k)
    && match st.main
       case Adding(_, seen) => k in seen
       case Pruning(stale) => k !in stale
       case Idle => true
       case _ => false
  }

  /** Any step but the teardown, every listing naming k. */
  ghost predicate Wanting(s: Step, k: Key) { !s.Leave? && (s.Tick? ==> k in s.listing) }

  lemma AddNextOrphaned(st: State, ok: bool, k: Key, i: nat, born: nat)
    requires Orphaned(st, k, i, born) && Enabled(st, AddNext(ok))
    ensures Orphaned(Apply(st, AddNext(ok)), k, i, born)
  {}

  lemma RemoveNextOrphaned(st: State, r: Key, k: Key, i: nat, born: nat)
    requires Sound(st) && Orphaned(st, k, i, born) && Enabled(st, RemoveNext(r))
    ensures Orphaned(Apply(st, RemoveNext(r)), k, i, born)
  {}

  lemma StepOrphaned(st: State, s: Step, k: Key, i: nat, born: nat)
    requires Sound(st) && Orphaned(st, k, i, born) && Enabled(st, s) && Wanting(s, k)
    ensures Orphaned(Apply(st, s), k, i, born)
  {
    if s.AddNext? {
      AddNextOrphaned(st, s.ok, k, i, born);
    } else if s.RemoveNext? {
      RemoveNextOrphaned(st, s.key, k, i, born);
    }
  }

  lemma {:induction false} RunOrphaned(st: State, steps: seq<Step>, k: Key, i: nat, born: nat)
    requires Sound(st) && Orphaned(st, k, i, born) && IsRun(st, steps) && forall j :: 0 <= j < |steps| ==> Wanting(steps[j], k)
    ensures Orphaned(Run(st, steps), k, i, born)
    decreases |steps|
  {
    if steps != [] {
      StepOrphaned(st, steps[0], k, i, born);
      StepKeepsSound(st, steps[0]);
      RunOrphaned(Apply(st, steps[0]), steps[1..], k, i, born);
    }
  }

  /** A replica whose stream ended by itself is never read again: along every
      run without teardown whose listings all name it, the ended reader stays
      its subscription and no other reader is started for it. */
  lemma EndedStreamStaysListed(st: State, steps: seq<Step>, k: Key)
    requires Sound(st) && k in st.subs && st.children[st.subs[k]].stage == Exited
    requires (st.main.Adding? ==> k in st.main.seen) && (st.main.Pruning? ==> k !in st.main.stale)
    requires IsRun(st, steps) && forall j :: 0 <= j < |steps| ==> Wanting(steps[j], k)
    ensures var end := Run(st, steps);
      && k in end.subs && end.subs[k] == st.subs[k] && |st.children| <= |end.children|
      && end.children[end.subs[k]].stage == Exited
      && forall j :: |st.children| <= j < |end.children| ==> end.children[j].key != k
  {
    RunOrphaned(st, steps, k, st.subs[k], |st.children|);
  }
}
