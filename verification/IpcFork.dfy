/** do_fork copies a whole process table entry, the head of its queue included. */
module IpcFork {
  import opened Ipc
  import opened IpcTable

  /** The table after the copy.  `at` is the message buffer in the child's own memory. */
  function Forked(procs: seq<Proc>, parent: int, child: int, at: int): seq<Proc>
    requires 0 <= parent < |procs| && 0 <= child < |procs|
  {
    procs[child := procs[parent].(msg := if procs[parent].msg == 0 then 0 else at)]
  }

  /** A free entry, and a parent whose own message has been taken. */
  ghost predicate CanFork(a: State, procs: seq<Proc>, parent: int, child: int, at: int) {
    && Good(a) && Tied(procs, a)
    && a.Pid(parent) && a.Pid(child) && parent != child
    && !a.status[parent].Sending? && (a.status[parent].Waiting? ==> a.status[parent].from != child)
    && a.status[child].Ready? && a.queues[child] == []
    && Private(a, at)
  }

  /** What a table that is in order must be like after the copy. */
  function ForkedState(a: State, parent: int, child: int, at: int): State
    requires a.Pid(parent) && a.Pid(child) && |a.ints| == |a.status|
  {
    var st := if a.status[parent].Waiting? then Waiting(a.status[parent].from, at) else a.status[parent];
    a.(status := a.status[child := st], ints := a.ints[child := a.ints[parent]])
  }

  lemma ForkedGood(a: State, procs: seq<Proc>, parent: int, child: int, at: int)
    requires CanFork(a, procs, parent, child, at)
    ensures |a.ints| == |a.status| && Good(ForkedState(a, parent, child, at))
  {
    hide Tied, Acyclic;
    var a' := ForkedState(a, parent, child, at);
    SameSendsAcyclic(a, a');
    assert QueueOk(a, child);
    forall p | a'.Pid(p) ensures QueueOk(a', p) {
      assert QueueOk(a, p);
    }
    forall p | a'.Pid(p) ensures StatusOk(a', p) {
      assert StatusOk(a, p) && StatusOk(a, parent);
    }
  }

  lemma ForkedTied(a: State, procs: seq<Proc>, parent: int, child: int, at: int)
    requires CanFork(a, procs, parent, child, at) && |a.ints| == |a.status| && |a.queues| == |a.status|
    requires a.queues[parent] == []
    ensures Tied(Forked(procs, parent, child, at), ForkedState(a, parent, child, at))
  {
    hide QueueOk, Acyclic, Unanswered;
    var procs', a' := Forked(procs, parent, child, at), ForkedState(a, parent, child, at);
    assert StatusOk(a, parent);
    forall p | 0 <= p < |procs'|
      ensures Shows(procs'[p], a'.status[p], |procs'|) && procs'[p].hasInt == a'.ints[p]
              && Linked(procs', p, a'.queues[p])
    {
      if p != child {
        ForkedLinks(a, procs, parent, child, at, p);
      }
    }
  }

  /** The lists of others do not contain the child. */
  lemma ForkedLinks(a: State, procs: seq<Proc>, parent: int, child: int, at: int, p: int)
    requires CanFork(a, procs, parent, child, at) && |a.queues| == |a.status| && a.Pid(p) && p != child
    ensures Linked(Forked(procs, parent, child, at), p, a.queues[p])
  {
    hide Acyclic, StatusOk, Shows;
    assert QueueOk(a, p) && child !in a.queues[p];
    OtherList(procs, Forked(procs, parent, child, at), p, a.queues[p]);
  }

  /** After the copy the senders queued at the parent are in the child's list as well; the
      table is in order if and only if there are none. */
  lemma ForkCopyExactly(a: State, procs: seq<Proc>, parent: int, child: int, at: int)
    requires CanFork(a, procs, parent, child, at) && |a.queues| == |a.status|
    ensures Linked(Forked(procs, parent, child, at), parent, a.queues[parent])
    ensures Linked(Forked(procs, parent, child, at), child, a.queues[parent])
    ensures (exists a' :: Good(a') && Tied(Forked(procs, parent, child, at), a')) <==> a.queues[parent] == []
  {
    hide Acyclic, StatusOk, Unanswered;
    var procs' := Forked(procs, parent, child, at);
    ForkedLinks(a, procs, parent, child, at, parent);
    if a.queues[parent] == [] {
      ForkedGood(a, procs, parent, child, at);
      ForkedTied(a, procs, parent, child, at);
    } else {
      forall a' | Tied(procs', a') ensures !Good(a') {
        TwoLists(a, procs, parent, child, at, a');
      }
    }
  }

  /** A sender queued at the parent would have to send to the child. */
  lemma TwoLists(a: State, procs: seq<Proc>, parent: int, child: int, at: int, a': State)
    requires CanFork(a, procs, parent, child, at) && |a.queues| == |a.status| && a.queues[parent] != []
    requires Tied(Forked(procs, parent, child, at), a')
    ensures !Good(a')
  {
    hide Acyclic, StatusOk, Unanswered;
    var procs' := Forked(procs, parent, child, at);
    var s := a.queues[parent][0];
    assert QueueOk(a, parent) && s in a.queues[parent] && a.SendsTo(s, parent);
    assert Linked(procs, parent, a.queues[parent]) && procs[parent].head == s;
    assert Linked(procs', child, a'.queues[child]);
    assert At(a'.queues[child], 0) == s;
    assert s in a'.queues[child];
    assert Shows(procs'[s], a'.status[s], |procs'|) && !a'.SendsTo(s, child);
    assert !QueueOk(a', child);
  }
}
