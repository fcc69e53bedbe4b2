/** Message passing between processes, as seen from outside: what sends, receives and
    interrupt notices do to the processes, their queues and their message buffers, and
    what that guarantees over every run. */
module Ipc {

  datatype Msg = Msg(source: int, kind: int, body: int)

  /** Message buffers by linear address. */
  type Buffers = map<int, Msg>

  function Load(m: Buffers, at: int): Msg { if at in m then m[at] else Msg(0, 0, 0) }

  const INTERRUPT := -10
  const HARD_INT := 1

  /** A process can run, or it is blocked until process `to` takes the message at `at`,
      or until a message from `from` arrives for the buffer at `at`. */
  datatype Status = Ready | Sending(to: int, at: int) | Waiting(from: int, at: int)

  /** `queues[d]` are the processes blocked on sending to `d`, first come first, and
      `ints[p]` says that an interrupt has been noted for `p`. */
  datatype State = State(status: seq<Status>, queues: seq<seq<int>>, ints: seq<bool>, mem: Buffers) {
    function Any(): int { |status| + 10 }
    predicate Pid(p: int) { 0 <= p < |status| }
    predicate SendsTo(s: int, d: int) { Pid(s) && status[s].Sending? && status[s].to == d }
  }

  // ---------------------------------------------------------------------------
  // Operations

  /** Is `d` waiting for a message of `s`? */
  predicate Awaits(a: State, d: int, s: int)
    requires a.Pid(d)
  {
    a.status[d].Waiting? && (a.status[d].from == s || a.status[d].from == a.Any())
  }

  /** sys_sendrec writes the caller's number into its message. */
  function Stamp(a: State, p: int, at: int): State {
    a.(mem := a.mem[at := Load(a.mem, at).(source := p)])
  }

  /** A stamped message goes to a process that awaits it, or the sender queues up. */
  function Post(a: State, s: int, d: int, at: int): State
    requires a.Pid(s) && a.Pid(d) && |a.queues| == |a.status|
  {
    if Awaits(a, d, s) then
      a.(status := a.status[d := Ready], mem := a.mem[a.status[d].at := Load(a.mem, at)])
    else
      a.(status := a.status[s := Sending(d, at)], queues := a.queues[d := a.queues[d] + [s]])
  }

  function Send(a: State, s: int, d: int, at: int): State
    requires a.Pid(s) && a.Pid(d) && |a.queues| == |a.status|
  {
    Post(Stamp(a, s, at), s, d, at)
  }

  function Without(q: seq<int>, s: int): seq<int> {
    if q == [] then [] else if q[0] == s then q[1..] else [q[0]] + Without(q[1..], s)
  }

  /** `r` gets the message of `s`, which can go on. */
  function Take(a: State, r: int, s: int, at: int): State
    requires a.Pid(r) && a.Pid(s) && a.status[s].Sending? && |a.queues| == |a.status|
  {
    a.(status := a.status[s := Ready],
       queues := a.queues[r := Without(a.queues[r], s)],
       mem := a.mem[at := Load(a.mem, a.status[s].at)])
  }

  /** Does a noted interrupt answer this receive? */
  predicate Notified(a: State, r: int, src: int)
    requires a.Pid(r) && |a.ints| == |a.status|
  {
    a.ints[r] && (src == a.Any() || src == INTERRUPT)
  }

  /** The process whose message is taken, if any: the oldest sender, or the one asked
      for. */
  function Chosen(a: State, r: int, src: int): int
    requires a.Pid(r) && |a.queues| == |a.status|
  {
    if src == a.Any() && a.queues[r] != [] then a.queues[r][0] else src
  }

  function Fetch(a: State, r: int, src: int, at: int): State
    requires a.Pid(r) && |a.queues| == |a.status| && |a.ints| == |a.status|
  {
    var s := Chosen(a, r, src);
    if Notified(a, r, src) then
      a.(ints := a.ints[r := false], mem := a.mem[at := Msg(INTERRUPT, HARD_INT, 0)])
    else if a.SendsTo(s, r) then Take(a, r, s, at)
    else a.(status := a.status[r := Waiting(src, at)])
  }

  function Receive(a: State, r: int, src: int, at: int): State
    requires a.Pid(r) && |a.queues| == |a.status| && |a.ints| == |a.status|
  {
    Fetch(Stamp(a, r, at), r, src, at)
  }

  /** inform_int: an interrupt handler has something for task `t`. */
  function Inform(a: State, t: int): State
    requires a.Pid(t) && |a.ints| == |a.status|
  {
    if a.status[t].Waiting? && (a.status[t].from == INTERRUPT || a.status[t].from == a.Any()) then
      var at := a.status[t].at;
      a.(status := a.status[t := Ready], ints := a.ints[t := false],
         mem := a.mem[at := Load(a.mem, at).(source := INTERRUPT, kind := HARD_INT)])
    else a.(ints := a.ints[t := true])
  }

  // ---------------------------------------------------------------------------
  // Who waits for whom

  /** `p` waits for `q` through `k` senders in a row. */
  predicate ReachesIn(a: State, p: int, q: int, k: nat)
    decreases k
  {
    if k == 0 then p == q
    else a.Pid(p) && a.status[p].Sending? && ReachesIn(a, a.status[p].to, q, k - 1)
  }

  ghost predicate Reaches(a: State, p: int, q: int) {
    exists k: nat :: ReachesIn(a, p, q, k)
  }

  lemma ReachesUnfold(a: State, p: int, q: int)
    ensures Reaches(a, p, q) <==>
              p == q || (a.Pid(p) && a.status[p].Sending? && Reaches(a, a.status[p].to, q))
  {
    if p == q {
      assert ReachesIn(a, p, q, 0);
    } else if Reaches(a, p, q) {
      var k: nat :| ReachesIn(a, p, q, k);
      assert ReachesIn(a, a.status[p].to, q, k - 1);
    } else if a.Pid(p) && a.status[p].Sending? && Reaches(a, a.status[p].to, q) {
      var k: nat :| ReachesIn(a, a.status[p].to, q, k);
      assert ReachesIn(a, p, q, k + 1);
    }
  }

  /** Numbers that fall along every send: there are no cycles. */
  ghost predicate Ranked(a: State, rank: seq<nat>) {
    && |rank| == |a.status|
    && forall p | a.Pid(p) && a.status[p].Sending? :: a.Pid(a.status[p].to) && rank[a.status[p].to] < rank[p]
  }

  ghost predicate Acyclic(a: State) {
    exists rank :: Ranked(a, rank)
  }

  lemma {:induction false} RankFalls(a: State, rank: seq<nat>, p: int, q: int, k: nat)
    requires Ranked(a, rank) && a.Pid(p) && ReachesIn(a, p, q, k)
    ensures a.Pid(q) && rank[q] + k <= rank[p]
    decreases k
  {
    if k > 0 {
      RankFalls(a, rank, a.status[p].to, q, k - 1);
    }
  }

  /** Nobody waits for itself. */
  lemma NoSelfWait(a: State, p: int, k: nat)
    requires Acyclic(a) && a.Pid(p) && ReachesIn(a, p, p, k)
    ensures k == 0
  {
    var rank :| Ranked(a, rank);
    RankFalls(a, rank, p, p, k);
  }

  /** Every chain of senders ends in a process that is not sending. */
  lemma {:induction false} ChainEnds(a: State, rank: seq<nat>, p: int) returns (q: int)
    requires Ranked(a, rank) && a.Pid(p)
    ensures a.Pid(q) && !a.status[q].Sending? && Reaches(a, p, q)
    decreases rank[p]
  {
    if a.status[p].Sending? {
      q := ChainEnds(a, rank, a.status[p].to);
    } else {
      q := p;
    }
    ReachesUnfold(a, p, q);
  }

  /** The state after `s` has queued up behind `d`, as far as sends go. */
  ghost predicate NowSends(a: State, a': State, s: int, d: int) {
    && a.Pid(s) && a.Pid(d) && !a.status[s].Sending?
    && exists at :: a'.status == a.status[s := Sending(d, at)]
  }

  /** Raise the ranks of all that wait for `s` above that of `d`. */
  lemma Reranked(a: State, a': State, rank: seq<nat>, s: int, d: int) returns (rank': seq<nat>)
    requires Ranked(a, rank) && NowSends(a, a', s, d) && !Reaches(a, d, s)
    ensures Ranked(a', rank')
  {
    var up := rank[d] + 1;
    rank' := seq(|rank|, p requires 0 <= p < |rank| => rank[p] + if Reaches(a, p, s) then up else 0);
    ReachesUnfold(a, s, s);
    forall p | a'.Pid(p) && a'.status[p].Sending?
      ensures a'.Pid(a'.status[p].to) && rank'[a'.status[p].to] < rank'[p]
    {
      ReachesUnfold(a, p, s);
    }
  }

  /** deadlock() is exact: queueing `s` behind `d` would close a cycle of senders if and
      only if `d` already waits for `s`. */
  lemma DeadlockExactly(a: State, a': State, s: int, d: int)
    requires Acyclic(a) && NowSends(a, a', s, d)
    ensures Acyclic(a') <==> !Reaches(a, d, s)
  {
    if Reaches(a, d, s) {
      var k: nat :| ReachesIn(a, d, s, k);
      SurvivesNewSend(a, a', s, d, d, k);
      assert ReachesIn(a', s, s, k + 1);
      if Acyclic(a') {
        NoSelfWait(a', s, k + 1);
      }
    } else {
      var rank :| Ranked(a, rank);
      var rank' := Reranked(a, a', rank, s, d);
    }
  }

  lemma {:induction false} SurvivesNewSend(a: State, a': State, s: int, d: int, p: int, k: nat)
    requires NowSends(a, a', s, d) && ReachesIn(a, p, s, k)
    ensures ReachesIn(a', p, s, k)
    decreases k
  {
    if k > 0 {
      SurvivesNewSend(a, a', s, d, a.status[p].to, k - 1);
    }
  }

  // ---------------------------------------------------------------------------
  // The invariant

  /** Nothing that `r` would take from `src` is there. */
  predicate Unanswered(a: State, r: int, src: int)
    requires a.Pid(r) && |a.queues| == |a.status| && |a.ints| == |a.status|
  {
    !Notified(a, r, src) && !a.SendsTo(Chosen(a, r, src), r)
  }

  predicate ValidSource(a: State, r: int, src: int) {
    src != r && (a.Pid(src) || src == a.Any() || src == INTERRUPT)
  }

  /** A blocked sender has a message that bears its number for another process; a
      waiting process has not been overlooked. */
  predicate StatusOk(a: State, p: int)
    requires a.Pid(p) && |a.queues| == |a.status| && |a.ints| == |a.status|
  {
    match a.status[p]
    case Ready => true
    case Sending(d, at) => a.Pid(d) && d != p && at != 0 && Load(a.mem, at).source == p
    case Waiting(src, at) => ValidSource(a, p, src) && at != 0 && Unanswered(a, p, src)
  }

  predicate NoRepeats(q: seq<int>) {
    forall i, j | 0 <= i < j < |q| :: q[i] != q[j]
  }

  /** The queue of `d` holds exactly the processes blocked on sending to it, once. */
  ghost predicate QueueOk(a: State, d: int)
    requires a.Pid(d) && |a.queues| == |a.status|
  {
    NoRepeats(a.queues[d]) && forall s :: s in a.queues[d] <==> a.SendsTo(s, d)
  }

  /** Blocked processes have buffers of their own. */
  ghost predicate Apart(a: State) {
    forall p, q | a.Pid(p) && a.Pid(q) && p != q && !a.status[p].Ready? && !a.status[q].Ready? ::
      a.status[p].at != a.status[q].at
  }

  ghost predicate Good(a: State) {
    && |a.queues| == |a.status| && |a.ints| == |a.status|
    && (forall p | a.Pid(p) :: StatusOk(a, p))
    && (forall d | a.Pid(d) :: QueueOk(a, d))
    && Apart(a)
    && Acyclic(a)
  }

  /** `at` is a buffer that no blocked process uses. */
  ghost predicate Private(a: State, at: int) {
    at != 0 && forall p | a.Pid(p) && !a.status[p].Ready? :: a.status[p].at != at
  }

  // ---------------------------------------------------------------------------
  // Runs

  datatype Event =
    | DoSend(from: int, to: int, at: int)
    | DoReceive(who: int, src: int, at: int)
    | Notice(task: int)
    | Compute(mem: Buffers)       // processes write their memory

  ghost predicate SendAllowed(a: State, s: int, d: int, at: int) {
    a.Pid(s) && a.Pid(d) && s != d && a.status[s].Ready? && Private(a, at)
  }

  ghost predicate ReceiveAllowed(a: State, r: int, src: int, at: int) {
    a.Pid(r) && ValidSource(a, r, src) && a.status[r].Ready? && Private(a, at)
  }

  /** A receive from one process that must block while an interrupt is noted for the
      receiver: the assertion that ends msg_receive fails. */
  predicate ReceivePanics(a: State, r: int, src: int)
    requires a.Pid(r) && |a.ints| == |a.status|
  {
    a.ints[r] && a.Pid(src) && !a.SendsTo(src, r)
  }

  /** Events that do not end in a panic. */
  ghost predicate Step(a: State, e: Event, a': State)
    requires |a.queues| == |a.status| && |a.ints| == |a.status|
  {
    match e
    case DoSend(s, d, at) =>
      SendAllowed(a, s, d, at) && !Reaches(a, d, s) && a' == Send(a, s, d, at)
    case DoReceive(r, src, at) =>
      ReceiveAllowed(a, r, src, at) && !ReceivePanics(a, r, src) && a' == Receive(a, r, src, at)
    case Notice(t) => a.Pid(t) && a' == Inform(a, t)
    case Compute(m) =>
      && a' == a.(mem := m)
      && forall p | a.Pid(p) && !a.status[p].Ready? :: Load(m, a.status[p].at) == Load(a.mem, a.status[p].at)
  }

  lemma SameSendsAcyclic(a: State, a': State)
    requires Acyclic(a) && |a'.status| == |a.status|
    requires forall p | a.Pid(p) && a'.status[p].Sending? :: a'.status[p] == a.status[p]
    ensures Acyclic(a')
  {
    var rank :| Ranked(a, rank);
    assert Ranked(a', rank);
  }

  /** Writing a private buffer changes nothing that matters. */
  lemma StampGood(a: State, p: int, at: int)
    requires Good(a) && a.Pid(p) && a.status[p].Ready? && Private(a, at)
    ensures Good(Stamp(a, p, at))
  {
    var a' := Stamp(a, p, at);
    SameSendsAcyclic(a, a');
    forall q | a'.Pid(q) ensures StatusOk(a', q) {
      assert StatusOk(a, q);
    }
    forall d | a'.Pid(d) ensures QueueOk(a', d) {
      assert QueueOk(a, d);
    }
  }

  lemma PostReadyGood(a: State, s: int, d: int, at: int)
    requires Good(a) && SendAllowed(a, s, d, at) && Load(a.mem, at).source == s && Awaits(a, d, s)
    ensures Good(Post(a, s, d, at))
  {
    var a' := Post(a, s, d, at);
    SameSendsAcyclic(a, a');
    forall q | a'.Pid(q) ensures StatusOk(a', q) {
      assert StatusOk(a, q) && StatusOk(a, d);
    }
    forall q | a'.Pid(q) ensures QueueOk(a', q) {
      assert QueueOk(a, q);
    }
  }

  lemma PostQueuedGood(a: State, s: int, d: int, at: int)
    requires Good(a) && SendAllowed(a, s, d, at) && Load(a.mem, at).source == s && !Awaits(a, d, s)
    requires !Reaches(a, d, s)
    ensures Good(Post(a, s, d, at))
  {
    var a' := Post(a, s, d, at);
    DeadlockExactly(a, a', s, d);
    assert QueueOk(a, d);
    assert s !in a.queues[d];
    forall q | a'.Pid(q) ensures QueueOk(a', q) {
      assert QueueOk(a, q);
    }
    forall q | a'.Pid(q) ensures StatusOk(a', q) {
      assert StatusOk(a, q) && QueueOk(a, q) && QueueOk(a', q);
    }
  }

  lemma {:induction false} WithoutElements(q: seq<int>, s: int)
    requires NoRepeats(q)
    ensures NoRepeats(Without(q, s)) && forall x :: x in Without(q, s) <==> x in q && x != s
  {
    if q != [] {
      assert q == [q[0]] + q[1..];
      WithoutElements(q[1..], s);
      if q[0] != s {
        var w := Without(q[1..], s);
        assert Without(q, s) == [q[0]] + w;
        forall i | 0 <= i < |w| ensures w[i] != q[0] {
          assert w[i] in w;
        }
      }
    }
  }

  lemma TakeGood(a: State, r: int, s: int, at: int)
    requires Good(a) && a.Pid(r) && a.status[r].Ready? && Private(a, at) && a.SendsTo(s, r)
    ensures Good(Take(a, r, s, at))
  {
    var a' := Take(a, r, s, at);
    SameSendsAcyclic(a, a');
    assert QueueOk(a, r);
    WithoutElements(a.queues[r], s);
    forall q | a'.Pid(q) ensures QueueOk(a', q) {
      assert QueueOk(a, q);
    }
    forall q | a'.Pid(q) ensures StatusOk(a', q) {
      assert StatusOk(a, q);
    }
  }

  lemma WaitGood(a: State, r: int, src: int, at: int)
    requires Good(a) && ReceiveAllowed(a, r, src, at) && Unanswered(a, r, src)
    ensures Good(a.(status := a.status[r := Waiting(src, at)]))
  {
    var a' := a.(status := a.status[r := Waiting(src, at)]);
    SameSendsAcyclic(a, a');
    forall q | a'.Pid(q) ensures QueueOk(a', q) {
      assert QueueOk(a, q);
    }
    forall q | a'.Pid(q) ensures StatusOk(a', q) {
      assert StatusOk(a, q);
    }
  }

  lemma NoticedGood(a: State, r: int, at: int)
    requires Good(a) && a.Pid(r) && a.status[r].Ready? && Private(a, at)
    ensures Good(a.(ints := a.ints[r := false], mem := a.mem[at := Msg(INTERRUPT, HARD_INT, 0)]))
  {
    var a' := a.(ints := a.ints[r := false], mem := a.mem[at := Msg(INTERRUPT, HARD_INT, 0)]);
    SameSendsAcyclic(a, a');
    forall q | a'.Pid(q) ensures QueueOk(a', q) {
      assert QueueOk(a, q);
    }
    forall q | a'.Pid(q) ensures StatusOk(a', q) {
      assert StatusOk(a, q);
    }
  }

  lemma InformGood(a: State, t: int)
    requires Good(a) && a.Pid(t)
    ensures Good(Inform(a, t))
  {
    var a' := Inform(a, t);
    SameSendsAcyclic(a, a');
    assert StatusOk(a, t);
    forall q | a'.Pid(q) ensures QueueOk(a', q) {
      assert QueueOk(a, q);
    }
    forall q | a'.Pid(q) ensures StatusOk(a', q) {
      assert StatusOk(a, q);
    }
  }

  lemma ComputeGood(a: State, m: Buffers, a': State)
    requires Good(a) && Step(a, Compute(m), a')
    ensures Good(a')
  {
    SameSendsAcyclic(a, a');
    forall q | a'.Pid(q) ensures QueueOk(a', q) {
      assert QueueOk(a, q);
    }
    forall q | a'.Pid(q) ensures StatusOk(a', q) {
      assert StatusOk(a, q);
    }
  }

  /** Every event keeps the invariant: queues hold exactly the blocked senders, there is
      no cycle of senders, and no process waits for something that is already there. */
  lemma StepGood(a: State, e: Event, a': State)
    requires Good(a) && Step(a, e, a')
    ensures Good(a')
  {
    hide Good, Reaches;
    GoodShape(a);
    match e
    case DoSend(s, d, at) =>
      StampGood(a, s, at);
      StampReaches(a, s, at, d, s);
      if Awaits(a, d, s) {
        PostReadyGood(Stamp(a, s, at), s, d, at);
      } else {
        PostQueuedGood(Stamp(a, s, at), s, d, at);
      }
    case DoReceive(r, src, at) =>
      var b := Stamp(a, r, at);
      StampGood(a, r, at);
      if Notified(b, r, src) {
        NoticedGood(b, r, at);
      } else if b.SendsTo(Chosen(b, r, src), r) {
        TakeGood(b, r, Chosen(b, r, src), at);
      } else {
        WaitGood(b, r, src, at);
      }
    case Notice(t) => InformGood(a, t);
    case Compute(m) => ComputeGood(a, m, a');
  }

  lemma GoodShape(a: State)
    requires Good(a)
    ensures |a.queues| == |a.status| && |a.ints| == |a.status|
  {
  }

  lemma StampReaches(a: State, p: int, at: int, q: int, r: int)
    ensures Reaches(Stamp(a, p, at), q, r) <==> Reaches(a, q, r)
  {
    forall k: nat ensures ReachesIn(Stamp(a, p, at), q, r, k) <==> ReachesIn(a, q, r, k) {
      SameReaches(a, Stamp(a, p, at), q, r, k);
    }
  }

  lemma {:induction false} SameReaches(a: State, a': State, p: int, q: int, k: nat)
    requires a'.status == a.status
    ensures ReachesIn(a', p, q, k) <==> ReachesIn(a, p, q, k)
    decreases k
  {
    if k > 0 && a.Pid(p) && a.status[p].Sending? {
      SameReaches(a, a', a.status[p].to, q, k - 1);
    }
  }

  ghost predicate Run(cs: seq<State>, es: seq<Event>) {
    && |cs| == |es| + 1
    && (forall p | cs[0].Pid(p) :: cs[0].status[p].Ready?)
    && |cs[0].queues| == |cs[0].status| && |cs[0].ints| == |cs[0].status|
    && (forall d | cs[0].Pid(d) :: cs[0].queues[d] == [])
    && forall i: nat {:trigger es[i]} | i < |es| ::
         |cs[i].queues| == |cs[i].status| && |cs[i].ints| == |cs[i].status| && Step(cs[i], es[i], cs[i + 1])
  }

  lemma StartGood(a: State)
    requires forall p | a.Pid(p) :: a.status[p].Ready?
    requires |a.queues| == |a.status| && |a.ints| == |a.status| && forall d | a.Pid(d) :: a.queues[d] == []
    ensures Good(a)
  {
    assert Ranked(a, seq(|a.status|, i => 0));
  }

  lemma {:induction false} RunGood(cs: seq<State>, es: seq<Event>, k: nat)
    requires Run(cs, es) && k < |cs|
    ensures Good(cs[k])
  {
    hide Good;
    if k == 0 {
      StartGood(cs[0]);
    } else {
      RunGood(cs, es, k - 1);
      assert es[k - 1] == es[k - 1];
      StepGood(cs[k - 1], es[k - 1], cs[k]);
    }
  }

  /** In every run: no cycle of senders, and no process waits for a message that is
      waiting for it, or for an interrupt that has been noted. */
  lemma NeverStuck(cs: seq<State>, es: seq<Event>, k: nat, p: int)
    requires Run(cs, es) && k < |cs| && cs[k].Pid(p)
    ensures forall n: nat | n > 0 :: !ReachesIn(cs[k], p, p, n)
    ensures exists q :: cs[k].Pid(q) && !cs[k].status[q].Sending? && Reaches(cs[k], p, q)
    ensures forall q | cs[k].Pid(q) && cs[k].SendsTo(q, p) :: !Awaits(cs[k], p, q)
    ensures cs[k].status[p].Waiting? && cs[k].status[p].from in {INTERRUPT, cs[k].Any()} ==>
              |cs[k].ints| == |cs[k].status| && !cs[k].ints[p]
  {
    var a := cs[k];
    RunGood(cs, es, k);
    forall n: nat | n > 0 ensures !ReachesIn(a, p, p, n) {
      if ReachesIn(a, p, p, n) {
        NoSelfWait(a, p, n);
      }
    }
    var rank :| Ranked(a, rank);
    var q := ChainEnds(a, rank, p);
    assert StatusOk(a, p) && QueueOk(a, p);
  }

  // ---------------------------------------------------------------------------
  // No message is lost, repeated, changed or reordered

  /** The message that `s` has ready for `d`. */
  function Pending(a: State, s: int, d: int): seq<Msg> {
    if a.SendsTo(s, d) then [Load(a.mem, a.status[s].at)] else []
  }

  /** What event `e` sends from `s` to `d`. */
  function SentNow(a: State, e: Event, s: int, d: int): seq<Msg> {
    if e.DoSend? && e.from == s && e.to == d then [Load(a.mem, e.at).(source := s)] else []
  }

  /** Does event `e` hand a message of `s` to `d`? */
  predicate Delivers(a: State, e: Event, s: int, d: int)
    requires |a.queues| == |a.status| && |a.ints| == |a.status|
  {
    || (e.DoSend? && e.from == s && e.to == d && a.Pid(d) && Awaits(a, d, s))
    || (e.DoReceive? && e.who == d && a.Pid(d) && !Notified(a, d, e.src) && Chosen(a, d, e.src) == s && a.SendsTo(s, d))
  }

  /** What is then in the buffer of `d`. */
  function GotNow(a: State, e: Event, a': State, s: int, d: int): seq<Msg>
    requires |a.queues| == |a.status| && |a.ints| == |a.status|
  {
    if !Delivers(a, e, s, d) then []
    else if e.DoSend? then [Load(a'.mem, a.status[d].at)]
    else [Load(a'.mem, e.at)]
  }

  /** Messages sent from `s` to `d` in the first `k` events, and messages got. */
  function Sent(cs: seq<State>, es: seq<Event>, s: int, d: int, k: nat): seq<Msg>
    requires k <= |es| < |cs|
  {
    if k == 0 then [] else Sent(cs, es, s, d, k - 1) + SentNow(cs[k - 1], es[k - 1], s, d)
  }

  ghost function Got(cs: seq<State>, es: seq<Event>, s: int, d: int, k: nat): seq<Msg>
    requires Run(cs, es) && k <= |es|
  {
    if k == 0 then []
    else
      assert es[k - 1] == es[k - 1];
      Got(cs, es, s, d, k - 1) + GotNow(cs[k - 1], es[k - 1], cs[k], s, d)
  }

  lemma SendConserves(a: State, e: Event, a': State, s: int, d: int)
    requires Good(a) && Step(a, e, a') && e.DoSend?
    ensures Pending(a, s, d) + SentNow(a, e, s, d) == GotNow(a, e, a', s, d) + Pending(a', s, d)
    ensures forall m <- GotNow(a, e, a', s, d) :: m.source == s
  {
    hide Acyclic, Reaches, QueueOk, StatusOk;
  }

  lemma ReceiveConserves(a: State, e: Event, a': State, s: int, d: int)
    requires Good(a) && Step(a, e, a') && e.DoReceive?
    ensures Pending(a, s, d) + SentNow(a, e, s, d) == GotNow(a, e, a', s, d) + Pending(a', s, d)
    ensures forall m <- GotNow(a, e, a', s, d) :: m.source == s
  {
    hide Acyclic, Reaches, QueueOk, Unanswered;
    if a.Pid(s) {
      assert StatusOk(a, s);
    }
  }

  lemma StepConserves(a: State, e: Event, a': State, s: int, d: int)
    requires Good(a) && Step(a, e, a')
    ensures Pending(a, s, d) + SentNow(a, e, s, d) == GotNow(a, e, a', s, d) + Pending(a', s, d)
    ensures forall m <- GotNow(a, e, a', s, d) :: m.source == s
  {
    hide Acyclic, Reaches, QueueOk, StatusOk, Send, Receive;
    if e.DoSend? {
      SendConserves(a, e, a', s, d);
    } else if e.DoReceive? {
      ReceiveConserves(a, e, a', s, d);
    }
  }

  /** In every run and for every pair of processes, what the receiver has got from the
      sender is what the sender has sent it, in order, but for at most one message that
      the sender is still blocked on; and every message got bears its sender's number. */
  lemma {:induction false} Conservation(cs: seq<State>, es: seq<Event>, s: int, d: int, k: nat)
    requires Run(cs, es) && k <= |es|
    ensures Sent(cs, es, s, d, k) == Got(cs, es, s, d, k) + Pending(cs[k], s, d)
    ensures forall m <- Got(cs, es, s, d, k) :: m.source == s
  {
    hide Good, Step, GotNow, SentNow, Pending;
    if k == 0 {
      StartPending(cs[0], s, d);
    } else {
      Conservation(cs, es, s, d, k - 1);
      RunGood(cs, es, k - 1);
      assert es[k - 1] == es[k - 1];
      StepConserves(cs[k - 1], es[k - 1], cs[k], s, d);
      var got, now := Got(cs, es, s, d, k - 1), GotNow(cs[k - 1], es[k - 1], cs[k], s, d);
      assert Got(cs, es, s, d, k) == got + now;
      assert got + (now + Pending(cs[k], s, d)) == got + now + Pending(cs[k], s, d);
      assert got + Pending(cs[k - 1], s, d) + SentNow(cs[k - 1], es[k - 1], s, d)
          == got + (Pending(cs[k - 1], s, d) + SentNow(cs[k - 1], es[k - 1], s, d));
    }
  }

  lemma StartPending(a: State, s: int, d: int)
    requires forall p | a.Pid(p) :: a.status[p].Ready?
    ensures Pending(a, s, d) == []
  {
  }

  // ---------------------------------------------------------------------------
  // Senders are served in order

  ghost predicate Before(q: seq<int>, x: int, y: int) {
    exists i, j :: 0 <= i < j < |q| && q[i] == x && q[j] == y
  }

  lemma {:induction false} WithoutKeepsOrder(q: seq<int>, s: int, x: int, y: int)
    requires Before(q, x, y) && s != x && s != y
    ensures Before(Without(q, s), x, y)
  {
    var i, j :| 0 <= i < j < |q| && q[i] == x && q[j] == y;
    var w := Without(q[1..], s);
    if q[0] == s {
      assert q[1..][i - 1] == x && q[1..][j - 1] == y;
    } else if i == 0 {
      WithoutKeeps(q[1..], s, y);
      var k :| 0 <= k < |w| && w[k] == y;
      assert Without(q, s)[0] == x && Without(q, s)[k + 1] == y;
    } else {
      assert q[1..][i - 1] == x && q[1..][j - 1] == y;
      WithoutKeepsOrder(q[1..], s, x, y);
      var k, l :| 0 <= k < l < |w| && w[k] == x && w[l] == y;
      assert Without(q, s)[k + 1] == x && Without(q, s)[l + 1] == y;
    }
  }

  lemma {:induction false} WithoutKeeps(q: seq<int>, s: int, y: int)
    requires y in q && y != s
    ensures y in Without(q, s)
  {
    if q[0] != y {
      assert y in q[1..];
      if q[0] != s {
        WithoutKeeps(q[1..], s, y);
      }
    }
  }

  lemma StepKeepsOrder(a: State, e: Event, a': State, d: int, x: int, y: int)
    requires Good(a) && Step(a, e, a') && a.Pid(d) && Before(a.queues[d], x, y)
    requires a'.SendsTo(x, d) && a'.SendsTo(y, d)
    ensures |a'.queues| == |a.queues| && Before(a'.queues[d], x, y)
  {
    hide Acyclic, Reaches, StatusOk;
    var i, j :| 0 <= i < j < |a.queues[d]| && a.queues[d][i] == x && a.queues[d][j] == y;
    if e.DoReceive? && e.who == d && a'.queues[d] != a.queues[d] {
      var s := Chosen(a, d, e.src);
      assert a'.queues[d] == Without(a.queues[d], s) && !a'.SendsTo(s, d);
      WithoutKeepsOrder(a.queues[d], s, x, y);
    } else {
      assert a'.queues[d][i] == x && a'.queues[d][j] == y;
    }
  }

  /** A process that has been waiting longer to send to `d` is not overtaken: while `x`
      and `y` both wait, in this order, no receive from anyone takes the message of `y`. */
  lemma {:induction false} NoOvertaking(cs: seq<State>, es: seq<Event>, d: int, x: int, y: int, i: nat, j: nat)
    requires Run(cs, es) && i <= j < |es|
    requires |cs[i].queues| == |cs[i].status| && cs[i].Pid(d) && Before(cs[i].queues[d], x, y)
    requires forall k: nat {:trigger cs[k]} | i <= k <= j :: cs[k].SendsTo(x, d) && cs[k].SendsTo(y, d)
    ensures cs[j].Pid(d) && |cs[j].queues| == |cs[j].status| == |cs[j].ints| && Before(cs[j].queues[d], x, y)
    ensures es[j].DoReceive? && es[j].src == cs[j].Any() ==> !Delivers(cs[j], es[j], y, d)
  {
    hide Step, Acyclic, StatusOk;
    assert es[j] == es[j];
    if i < j {
      NoOvertaking(cs, es, d, x, y, i, j - 1);
      assert es[j - 1] == es[j - 1];
      RunGood(cs, es, j - 1);
      StepKeepsOrder(cs[j - 1], es[j - 1], cs[j], d, x, y);
      SameProcesses(cs[j - 1], es[j - 1], cs[j]);
    }
    RunGood(cs, es, j);
    assert QueueOk(cs[j], d);
  }

  lemma SameProcesses(a: State, e: Event, a': State)
    requires Good(a) && Step(a, e, a')
    ensures |a'.status| == |a.status|
  {
    hide Acyclic, Reaches, StatusOk, QueueOk;
  }

  lemma JustQueued(a: State, e: Event, a': State, d: int, x: int, y: int)
    requires Good(a) && Step(a, e, a') && a.SendsTo(x, d) && !a.SendsTo(y, d) && a'.SendsTo(y, d)
    ensures a'.Pid(d) && |a'.queues| == |a'.status| && Before(a'.queues[d], x, y)
  {
    hide Acyclic, Reaches, Unanswered;
    assert StatusOk(a, x) && QueueOk(a, d);
    var i :| 0 <= i < |a.queues[d]| && a.queues[d][i] == x;
    var q := a'.queues[d];
    assert q == a.queues[d] + [y];
    assert q[i] == x && q[|q| - 1] == y;
  }

  /** First come, first served: a process that begins to wait at step `i` while `x` is
      already waiting to send to `d` is not served before `x` by a receive from anyone. */
  lemma FirstComeFirstServed(cs: seq<State>, es: seq<Event>, d: int, x: int, y: int, i: nat, j: nat)
    requires Run(cs, es) && i < j < |es| && cs[i].SendsTo(x, d) && !cs[i].SendsTo(y, d)
    requires forall k: nat {:trigger cs[k]} | i < k <= j :: cs[k].SendsTo(x, d) && cs[k].SendsTo(y, d)
    ensures cs[j].Pid(d) && |cs[j].queues| == |cs[j].status| == |cs[j].ints|
    ensures es[j].DoReceive? && es[j].src == cs[j].Any() ==> !Delivers(cs[j], es[j], y, d)
  {
    hide Step, Good;
    RunGood(cs, es, i);
    assert es[i] == es[i];
    JustQueued(cs[i], es[i], cs[i + 1], d, x, y);
    NoOvertaking(cs, es, d, x, y, i + 1, j);
  }

  // ---------------------------------------------------------------------------
  // Receivers get what they asked for

  /** A message that answers a receive from `src`: one of that process, or the notice of
      an interrupt, which says source -10 and type 1; for anyone either will do. */
  predicate Answers(a: State, src: int, m: Msg) {
    var notice := m.source == -10 && m.kind == 1;
    if src == a.Any() then notice || a.Pid(m.source)
    else if a.Pid(src) then m.source == src
    else notice
  }

  /** The event leaves process `p`, which asked for a message from `src` in the buffer at
      `at`, ready to run. */
  predicate Satisfied(a: State, e: Event, a': State, p: int, src: int, at: int) {
    && a.Pid(p) && a'.Pid(p) && a'.status[p].Ready?
    && (a.status[p] == Waiting(src, at) || (e == DoReceive(p, src, at) && a.status[p].Ready?))
  }

  /** Whenever a receive is satisfied, at once or later, the message in its buffer is from
      the one it asked for. */
  lemma ReceiversAnswered(a: State, e: Event, a': State, p: int, src: int, at: int)
    requires Good(a) && Step(a, e, a') && Satisfied(a, e, a', p, src, at)
    ensures Answers(a, src, Load(a'.mem, at))
    ensures e.DoReceive? && e.who == p && Notified(a, p, src) ==> Load(a'.mem, at) == Msg(-10, 1, 0) && !a'.ints[p]
  {
    hide Acyclic, Reaches, QueueOk, Unanswered;
    assert StatusOk(a, p);
    if e.DoReceive? && e.who == p && !Notified(a, p, src) {
      assert StatusOk(a, Chosen(a, p, src));
    }
  }

  // ---------------------------------------------------------------------------
  // What is not guaranteed

  /** Two processes with nothing going on. */
  function Quiet(): State { State([Ready, Ready], [[], []], [false, false], map[]) }

  /** An interrupt noted for a process that then has to wait for another process: the
      receive fails an assertion. */
  lemma NoticeThenReceive()
    ensures Run([Quiet(), Inform(Quiet(), 0)], [Notice(0)])
    ensures ReceiveAllowed(Inform(Quiet(), 0), 0, 1, 8) && ReceivePanics(Inform(Quiet(), 0), 0, 1)
  {
  }

  // ---------------------------------------------------------------------------
  // Deadlocks through senders and receivers

  /** Whom a blocked process waits for; no process if it waits for anyone. */
  function Target(a: State, p: int): int
    requires a.Pid(p)
  {
    match a.status[p]
    case Ready => -1
    case Sending(d, _) => d
    case Waiting(src, _) => src
  }

  /** `p` waits for `q` through `k` blocked processes in a row. */
  predicate WaitsIn(a: State, p: int, q: int, k: nat)
    decreases k
  {
    if k == 0 then p == q
    else a.Pid(p) && !a.status[p].Ready? && a.Pid(Target(a, p)) && WaitsIn(a, Target(a, p), q, k - 1)
  }

  ghost predicate WaitsFor(a: State, p: int, q: int) {
    exists k: nat :: WaitsIn(a, p, q, k)
  }

  /** `p` waits for itself. */
  ghost predicate CycleAt(a: State, p: int) {
    exists k: nat :: k > 0 && WaitsIn(a, p, p, k)
  }

  /** `s`, which could run, is now blocked on `d`, as a sender or as a receiver. */
  ghost predicate NowBlocked(a: State, a': State, s: int, d: int) {
    && a.Pid(s) && a.Pid(d) && a.status[s].Ready?
    && exists st: Status :: !st.Ready? && (if st.Sending? then st.to == d else st.from == d)
        && a'.status == a.status[s := st]
  }

  lemma {:induction false} WaitsSame(a: State, a': State, s: int, d: int, p: int, k: nat)
    requires NowBlocked(a, a', s, d) && WaitsIn(a, p, s, k)
    ensures WaitsIn(a', p, s, k)
    decreases k
  {
    if k > 0 {
      WaitsSame(a, a', s, d, Target(a, p), k - 1);
    }
  }

  lemma {:induction false} WaitedBefore(a: State, a': State, s: int, d: int, p: int, k: nat)
    requires NowBlocked(a, a', s, d) && WaitsIn(a', p, s, k)
    ensures WaitsFor(a, p, s)
    decreases k
  {
    if p == s {
      assert WaitsIn(a, p, s, 0);
    } else {
      WaitedBefore(a, a', s, d, Target(a', p), k - 1);
      var j: nat :| WaitsIn(a, Target(a, p), s, j);
      assert WaitsIn(a, p, s, j + 1);
    }
  }

  /** A process that blocks on `d`, sending or receiving, closes a cycle if and only if
      `d` already waits for it. */
  lemma BlockingClosesCycle(a: State, a': State, s: int, d: int)
    requires NowBlocked(a, a', s, d)
    ensures CycleAt(a', s) <==> WaitsFor(a, d, s)
  {
    if WaitsFor(a, d, s) {
      var k: nat :| WaitsIn(a, d, s, k);
      WaitsSame(a, a', s, d, d, k);
      assert WaitsIn(a', s, s, k + 1);
    }
    if CycleAt(a', s) {
      var k: nat :| k > 0 && WaitsIn(a', s, s, k);
      WaitedBefore(a, a', s, d, d, k - 1);
    }
  }

  /** The processes in between are all senders. */
  ghost predicate AllSending(a: State, p: int, k: nat) {
    forall q, i: nat {:trigger WaitsIn(a, p, q, i)} | i < k && WaitsIn(a, p, q, i) && a.Pid(q) :: a.status[q].Sending?
  }

  lemma {:induction false} SendersOnly(a: State, p: int, s: int, j: nat, k: nat)
    requires a.Pid(p) && a.Pid(s) && a.status[s].Ready? && ReachesIn(a, p, s, j) && WaitsIn(a, p, s, k)
    ensures AllSending(a, p, k)
    decreases k
  {
    if k > 0 {
      SendersOnly(a, Target(a, p), s, j - 1, k - 1);
      forall q, i: nat | i < k && WaitsIn(a, p, q, i) && a.Pid(q) ensures a.status[q].Sending? {
        if i > 0 {
          assert WaitsIn(a, Target(a, p), q, i - 1);
        }
      }
    }
  }

  lemma {:induction false} SendersReach(a: State, p: int, q: int, k: nat)
    requires a.Pid(p) && WaitsIn(a, p, q, k) && AllSending(a, p, k)
    ensures ReachesIn(a, p, q, k)
    decreases k
  {
    if k > 0 {
      assert WaitsIn(a, p, p, 0);
      var t := Target(a, p);
      forall x, i: nat | i < k - 1 && WaitsIn(a, t, x, i) && a.Pid(x) ensures a.status[x].Sending? {
        assert WaitsIn(a, p, x, i + 1);
      }
      SendersReach(a, t, q, k - 1);
    }
  }

  /** When a send of `s` to `d` would close a cycle, deadlock() finds it if and only if
      all on the way from `d` to `s` are senders: it misses exactly the cycles on which a
      receiver lies. */
  lemma DeadlockMisses(a: State, s: int, d: int, k: nat)
    requires a.Pid(s) && a.Pid(d) && a.status[s].Ready? && WaitsIn(a, d, s, k)
    ensures Reaches(a, d, s) <==> AllSending(a, d, k)
  {
    if Reaches(a, d, s) {
      var j: nat :| ReachesIn(a, d, s, j);
      SendersOnly(a, d, s, j, k);
    }
    if AllSending(a, d, k) {
      SendersReach(a, d, s, k);
    }
  }

  /** On every cycle of a good state lies a receiver. */
  lemma CycleHasReceiver(a: State, p: int, k: nat)
    requires Good(a) && a.Pid(p) && k > 0 && WaitsIn(a, p, p, k)
    ensures exists q, i: nat :: i < k && WaitsIn(a, p, q, i) && a.Pid(q) && a.status[q].Waiting?
  {
    if AllSending(a, p, k) {
      SendersReach(a, p, p, k);
      NoSelfWait(a, p, k);
    } else {
      var q, i: nat :| i < k && WaitsIn(a, p, q, i) && a.Pid(q) && !a.status[q].Sending?;
      BlockedOnTheWay(a, p, p, q, i, k);
    }
  }

  lemma {:induction false} BlockedOnTheWay(a: State, p: int, r: int, q: int, i: nat, k: nat)
    requires i < k && WaitsIn(a, p, q, i) && WaitsIn(a, p, r, k)
    ensures a.Pid(q) && !a.status[q].Ready?
    decreases i
  {
    if i > 0 {
      BlockedOnTheWay(a, Target(a, p), r, q, i - 1, k - 1);
    }
  }

  /** A set of blocked processes each of which waits for a member of the set. */
  predicate Knot(a: State, ps: set<int>) {
    forall p <- ps :: a.Pid(p) && !a.status[p].Ready? && Target(a, p) in ps
  }

  /** No event changes the status of any of them. */
  lemma KnotStays(a: State, e: Event, a': State, ps: set<int>)
    requires Good(a) && Step(a, e, a') && Knot(a, ps)
    ensures Knot(a', ps) && forall p <- ps :: a.Pid(p) && a'.Pid(p) && a'.status[p] == a.status[p]
  {
    hide QueueOk, Acyclic, StatusOk, Reaches, Private;
    forall p | p in ps ensures a'.Pid(p) && a'.status[p] == a.status[p] && Target(a', p) in ps {
      assert a.Pid(p) && Target(a, p) in ps && a.Pid(Target(a, p)) && !a.status[Target(a, p)].Ready?;
    }
  }

  lemma {:induction false} KnotForever(cs: seq<State>, es: seq<Event>, i: nat, j: nat, ps: set<int>)
    requires Run(cs, es) && i <= j < |cs| && Knot(cs[i], ps)
    ensures Knot(cs[j], ps)
    ensures forall p <- ps :: cs[i].Pid(p) && cs[j].Pid(p) && cs[j].status[p] == cs[i].status[p]
  {
    hide Step, Good;
    if i < j {
      KnotForever(cs, es, i, j - 1, ps);
      RunGood(cs, es, j - 1);
      assert es[j - 1] == es[j - 1];
      KnotStays(cs[j - 1], es[j - 1], cs[j], ps);
    }
  }

  /** The processes that wait for a process on a cycle are a knot. */
  lemma CycleIsKnot(a: State, p: int) returns (ps: set<int>)
    requires a.Pid(p) && CycleAt(a, p)
    ensures Knot(a, ps) && forall q :: q in ps <==> a.Pid(q) && WaitsFor(a, q, p)
  {
    ps := set q | 0 <= q < |a.status| && WaitsFor(a, q, p);
    var k: nat :| k > 0 && WaitsIn(a, p, p, k);
    forall q | q in ps ensures !a.status[q].Ready? && Target(a, q) in ps {
      var j: nat :| WaitsIn(a, q, p, j);
      if j == 0 {
        assert WaitsIn(a, Target(a, p), p, k - 1);
      } else {
        assert WaitsIn(a, Target(a, q), p, j - 1);
      }
    }
  }

  /** A process that waits for a process on a cycle, or is on it, waits for ever. */
  lemma StuckForever(cs: seq<State>, es: seq<Event>, i: nat, j: nat, p: int, q: int)
    requires Run(cs, es) && i <= j < |cs| && cs[i].Pid(p) && CycleAt(cs[i], p) && cs[i].Pid(q) && WaitsFor(cs[i], q, p)
    ensures cs[j].Pid(q) && cs[j].status[q] == cs[i].status[q] && !cs[j].status[q].Ready?
  {
    hide Step, CycleAt, WaitsFor;
    var ps := CycleIsKnot(cs[i], p);
    KnotForever(cs, es, i, j, ps);
    assert q in ps;
  }

  /** A cycle that is missed: 1 waits for 2, 0 sends to 1, 2 sends to 0. */
  lemma MissedCycle() returns (cs: seq<State>, es: seq<Event>)
    ensures Run(cs, es) && es == [DoReceive(1, 2, 8), DoSend(0, 1, 16), DoSend(2, 0, 24)]
    ensures CycleAt(cs[3], 0) && cs[3].status == [Sending(1, 16), Waiting(2, 8), Sending(0, 24)]
  {
    var a := State([Ready, Ready, Ready], [[], [], []], [false, false, false], map[]);
    var b := Receive(a, 1, 2, 8);
    var c := Send(b, 0, 1, 16);
    var d := Send(c, 2, 0, 24);
    assert b.status == [Ready, Waiting(2, 8), Ready];
    ReachesUnfold(b, 1, 0);
    assert c.status == [Sending(1, 16), Waiting(2, 8), Ready];
    ReachesUnfold(c, 0, 2);
    ReachesUnfold(c, 1, 2);
    assert d.status == [Sending(1, 16), Waiting(2, 8), Sending(0, 24)];
    assert WaitsIn(d, 0, 0, 0) && WaitsIn(d, 2, 0, 1) && WaitsIn(d, 1, 0, 2) && WaitsIn(d, 0, 0, 3);
    cs, es := [a, b, c, d], [DoReceive(1, 2, 8), DoSend(0, 1, 16), DoSend(2, 0, 24)];
  }
}
