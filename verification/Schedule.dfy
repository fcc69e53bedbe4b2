/** schedule: the process with the most ticks left runs next; when none of the runnable
    processes has any, all of them get as many as their priority says. */
module Schedule {

  /** The fields that matter; a process is runnable when its p_flags is 0. */
  datatype Task = Task(runnable: bool, ticks: int, priority: int)

  /** Entry `p` is the first of the runnable processes with the most ticks. */
  ghost predicate Best(ts: seq<Task>, p: int) {
    && 0 <= p < |ts| && ts[p].runnable && ts[p].ticks > 0
    && (forall q | 0 <= q < |ts| && ts[q].runnable :: ts[q].ticks <= ts[p].ticks)
    && (forall q | 0 <= q < p && ts[q].runnable :: ts[q].ticks < ts[p].ticks)
  }

  /** Some runnable process has ticks left. */
  ghost predicate Finds(ts: seq<Task>) {
    exists p :: 0 <= p < |ts| && ts[p].runnable && ts[p].ticks > 0
  }

  function Refill(t: Task): Task { if t.runnable then t.(ticks := t.priority) else t }

  function Refilled(ts: seq<Task>): (r: seq<Task>)
    ensures |r| == |ts| && forall p | 0 <= p < |ts| :: r[p] == Refill(ts[p])
  {
    seq(|ts|, p requires 0 <= p < |ts| => Refill(ts[p]))
  }

  /** The table after `k` rounds that found nobody. */
  function After(ts: seq<Task>, k: nat): seq<Task> {
    if k == 0 then ts else Refilled(After(ts, k - 1))
  }

  /** Some runnable process has ticks or a positive priority. */
  ghost predicate Hopeful(ts: seq<Task>) {
    exists p :: 0 <= p < |ts| && ts[p].runnable && (ts[p].ticks > 0 || ts[p].priority > 0)
  }

  lemma {:induction false} LaterRounds(ts: seq<Task>, k: nat)
    requires k > 0
    ensures After(ts, k) == Refilled(ts)
  {
    if k > 1 {
      LaterRounds(ts, k - 1);
      var r := Refilled(ts);
      assert Refilled(r) == r by {
        assert forall p | 0 <= p < |ts| :: Refilled(r)[p] == r[p];
      }
    } else {
      assert After(ts, 0) == ts;
    }
  }

  lemma RefillFinds(ts: seq<Task>)
    ensures Finds(Refilled(ts)) <==> exists p :: 0 <= p < |ts| && ts[p].runnable && ts[p].priority > 0
  {
    var r := Refilled(ts);
    if Finds(r) {
      var p :| 0 <= p < |r| && r[p].runnable && r[p].ticks > 0;
      assert r[p] == Refill(ts[p]) && ts[p].runnable && ts[p].priority > 0;
    }
    if p :| 0 <= p < |ts| && ts[p].runnable && ts[p].priority > 0 {
      assert r[p] == Refill(ts[p]) && r[p].runnable && r[p].ticks > 0;
    }
  }

  /** Some round finds a process if and only if a runnable one has ticks or a positive
      priority, and then it is the first or the second. */
  lemma ReturnsExactly(ts: seq<Task>)
    ensures (exists k: nat :: Finds(After(ts, k))) <==> Hopeful(ts)
    ensures Hopeful(ts) <==> Finds(ts) || Finds(Refilled(ts))
  {
    hide Refilled;
    RefillFinds(ts);
    LaterRounds(ts, 1);
    assert After(ts, 0) == ts;
    assert Finds(After(ts, 0)) || Finds(After(ts, 1)) <==> Hopeful(ts);
    forall k: nat | Finds(After(ts, k)) ensures Hopeful(ts) {
      if k > 0 {
        LaterRounds(ts, k);
      }
    }
  }

  /** One pass over the table. */
  method Scan(ts: array<Task>) returns (greatest: int, ready: int)
    ensures greatest == 0 <==> !Finds(ts[..])
    ensures greatest != 0 ==> Best(ts[..], ready)
  {
    greatest, ready := 0, -1;
    var p := 0;
    while p < ts.Length
      invariant 0 <= p <= ts.Length && greatest >= 0
      invariant forall q | 0 <= q < p && ts[q].runnable :: ts[q].ticks <= greatest
      invariant greatest > 0 ==> 0 <= ready < p && ts[ready].runnable && ts[ready].ticks == greatest
      invariant greatest > 0 ==> forall q | 0 <= q < ready && ts[q].runnable :: ts[q].ticks < greatest
    {
      if ts[p].runnable && ts[p].ticks > greatest {
        greatest := ts[p].ticks;
        ready := p;
      }
      p := p + 1;
    }
    if greatest > 0 {
      assert ts[..][ready].ticks > 0;
    }
  }

  /** schedule.  It is called with somebody to find: otherwise its loop goes on until an
      interrupt makes some process runnable (`ReturnsExactly`). */
  method ScheduleNext(ts: array<Task>) returns (ready: int)
    requires Hopeful(ts[..])
    modifies ts
    ensures Best(ts[..], ready)
    ensures Finds(old(ts[..])) ==> ts[..] == old(ts[..])
    ensures !Finds(old(ts[..])) ==>
              forall p | 0 <= p < ts.Length ::
                && ts[p].runnable == old(ts[p].runnable) && ts[p].priority == old(ts[p].priority)
                && ts[p].ticks == if old(ts[p].runnable) then old(ts[p].priority) else old(ts[p].ticks)
    ensures !Finds(old(ts[..])) ==>
              && 0 <= ready < ts.Length && old(ts[ready].runnable) && old(ts[ready].priority) > 0
              && (forall q | 0 <= q < ts.Length && old(ts[q].runnable) ::
                    old(ts[q].priority) <= old(ts[ready].priority))
              && (forall q | 0 <= q < ready && old(ts[q].runnable) :: old(ts[q].priority) < old(ts[ready].priority))
  {
    ghost var was := ts[..];
    ReturnsExactly(was);
    var greatest;
    greatest, ready := Scan(ts);
    while greatest == 0
      invariant ts[..] == was || (!Finds(was) && ts[..] == Refilled(was))
      invariant greatest == 0 <==> !Finds(ts[..])
      invariant greatest != 0 ==> Best(ts[..], ready) && (ts[..] == was || !Finds(was))
      decreases !Finds(ts[..])
    {
      Refresh(ts);
      greatest, ready := Scan(ts);
    }
  }

  /** The second loop of a round. */
  method Refresh(ts: array<Task>)
    modifies ts
    ensures ts[..] == Refilled(old(ts[..]))
  {
    var p := 0;
    while p < ts.Length
      invariant 0 <= p <= ts.Length
      invariant forall q | 0 <= q < p :: ts[q] == Refill(old(ts[q]))
      invariant forall q | p <= q < ts.Length :: ts[q] == old(ts[q])
    {
      if ts[p].runnable {
        ts[p] := ts[p].(ticks := ts[p].priority);
      }
      p := p + 1;
    }
  }
}
