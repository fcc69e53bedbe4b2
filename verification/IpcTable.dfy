/** The process table fields that message passing works on, and the code of proc.c that
    changes them: blocked senders are linked through their own table entries. */
module IpcTable {
  import opened Ipc

  /** The fields of struct proc used here.  `sending` and `receiving` are bits of
      p_flags; pointers to entries are indexes, and NIL is the null pointer. */
  datatype Proc = Proc(sending: bool, receiving: bool, msg: int, recvFrom: int, sendTo: int,
                       hasInt: bool, head: int, next: int)

  const NIL := -1

  /** Entry `i` of a queue, or the null pointer behind its end. */
  function At(q: seq<int>, i: nat): int { if i < |q| then q[i] else NIL }

  /** The fields of an entry say what the status of its process is. */
  predicate Shows(p: Proc, st: Status, n: nat) {
    match st
    case Ready =>
      !p.sending && !p.receiving && p.msg == 0 && p.recvFrom == n + 20 && p.sendTo == n + 20 && p.next == NIL
    case Sending(d, at) =>
      p.sending && !p.receiving && p.msg == at && p.recvFrom == n + 20 && p.sendTo == d
    case Waiting(src, at) =>
      !p.sending && p.receiving && p.msg == at && p.recvFrom == src && p.sendTo == n + 20 && p.next == NIL
  }

  /** The list that starts at the entry of `d` is `q`. */
  ghost predicate Linked(procs: seq<Proc>, d: int, q: seq<int>)
    requires 0 <= d < |procs|
  {
    && procs[d].head == At(q, 0)
    && forall i: nat {:trigger q[i]} | i < |q| :: 0 <= q[i] < |procs| && procs[q[i]].next == At(q, i + 1)
  }

  /** Only the end of a list is the null pointer. */
  lemma EndsWithNil(procs: seq<Proc>, d: int, q: seq<int>, i: nat)
    requires 0 <= d < |procs| && Linked(procs, d, q) && i <= |q|
    ensures At(q, i) == NIL <==> i == |q|
  {
    if i < |q| {
      assert 0 <= q[i];
    }
  }

  ghost predicate Tied(procs: seq<Proc>, a: State) {
    && |procs| == |a.status| == |a.queues| == |a.ints|
    && forall p | 0 <= p < |procs| ::
         Shows(procs[p], a.status[p], |procs|) && procs[p].hasInt == a.ints[p] && Linked(procs, p, a.queues[p])
  }

  // ---------------------------------------------------------------------------
  // Changing one list leaves the others alone

  /** The table after `s` has been put at the end of the list `q` of `d`. */
  function Appended(procs: seq<Proc>, d: int, q: seq<int>, s: int): seq<Proc>
    requires 0 <= d < |procs| && 0 <= s < |procs| && forall i: nat | i < |q| :: 0 <= q[i] < |procs|
  {
    var mid := if q == [] then procs[d := procs[d].(head := s)]
               else procs[q[|q| - 1] := procs[q[|q| - 1]].(next := s)];
    mid[s := mid[s].(next := NIL)]
  }

  lemma AppendLinks(procs: seq<Proc>, d: int, q: seq<int>, s: int)
    requires 0 <= d < |procs| && 0 <= s < |procs| && Linked(procs, d, q) && NoRepeats(q) && s !in q
    ensures Linked(Appended(procs, d, q, s), d, q + [s])
  {
    var procs', q' := Appended(procs, d, q, s), q + [s];
    forall i: nat | i < |q'| ensures 0 <= q'[i] < |procs'| && procs'[q'[i]].next == At(q', i + 1) {
      if i < |q| {
        assert q[i] in q && q'[i] == q[i];
      }
    }
  }

  /** A list that shares no entry with what changes stays. */
  lemma OtherList(procs: seq<Proc>, procs': seq<Proc>, x: int, q: seq<int>)
    requires 0 <= x < |procs| == |procs'| && Linked(procs, x, q)
    requires procs'[x].head == procs[x].head
    requires forall i: nat | i < |q| && 0 <= q[i] < |procs| :: procs'[q[i]].next == procs[q[i]].next
    ensures Linked(procs', x, q)
  {
    forall i: nat | i < |q| ensures 0 <= q[i] < |procs'| && procs'[q[i]].next == At(q, i + 1) {
      assert procs'[q[i]].next == procs[q[i]].next;
    }
  }

  /** A sender is in one list only. */
  lemma OneList(a: State, d: int, x: int, s: int)
    requires Good(a) && a.Pid(d) && a.Pid(x) && d != x && s in a.queues[d]
    ensures s !in a.queues[x]
  {
    assert QueueOk(a, d) && QueueOk(a, x);
  }

  /** The table after the `i`-th entry has been taken out of the list `q` of `d`. */
  function Removed(procs: seq<Proc>, d: int, q: seq<int>, i: nat): seq<Proc>
    requires 0 <= d < |procs| && i < |q| && forall i: nat | i < |q| :: 0 <= q[i] < |procs|
  {
    var after := procs[q[i]].next;
    var mid := if i == 0 then procs[d := procs[d].(head := after)]
               else procs[q[i - 1] := procs[q[i - 1]].(next := after)];
    mid[q[i] := mid[q[i]].(next := NIL)]
  }

  lemma {:induction false} WithoutAt(q: seq<int>, i: nat)
    requires NoRepeats(q) && i < |q|
    ensures Without(q, q[i]) == Cut(q, i)
  {
    if i == 0 {
      assert Cut(q, 0) == q[1..];
    } else {
      var rest := q[1..];
      assert q[0] != q[i] && rest[i - 1] == q[i];
      WithoutAt(rest, i - 1);
      assert [q[0]] + Cut(rest, i - 1) == Cut(q, i);
    }
  }

  /** What the entries of the list point to then. */
  lemma RemovedNext(procs: seq<Proc>, d: int, q: seq<int>, i: nat, k: nat)
    requires 0 <= d < |procs| && Linked(procs, d, q) && NoRepeats(q) && i < |q| && k < |q| && k != i
    ensures 0 <= q[k] < |procs|
    ensures Removed(procs, d, q, i)[q[k]].next == At(q, if k + 1 == i then i + 1 else k + 1)
  {
    assert procs[q[i]].next == At(q, i + 1);
    assert procs[q[k]].next == At(q, k + 1);
    assert q[k] != q[i];
    if i > 0 && k != i - 1 {
      assert q[k] != q[i - 1];
    }
  }

  /** The list without its `i`-th entry. */
  function Cut(q: seq<int>, i: nat): seq<int>
    requires i < |q|
  {
    q[..i] + q[i + 1..]
  }

  lemma CutAt(q: seq<int>, i: nat, j: nat)
    requires i < |q|
    ensures |Cut(q, i)| == |q| - 1 && At(Cut(q, i), j) == At(q, if j < i then j else j + 1)
  {
  }

  lemma RemovedLink(procs: seq<Proc>, d: int, q: seq<int>, i: nat, j: nat)
    requires 0 <= d < |procs| && Linked(procs, d, q) && NoRepeats(q) && i < |q| && j < |Cut(q, i)|
    ensures 0 <= Cut(q, i)[j] < |procs|
    ensures Removed(procs, d, q, i)[Cut(q, i)[j]].next == At(Cut(q, i), j + 1)
  {
    hide NoRepeats, Cut, Removed, Linked;
    CutAt(q, i, j);
    CutAt(q, i, j + 1);
    RemovedNext(procs, d, q, i, if j < i then j else j + 1);
  }

  lemma RemoveLinks(procs: seq<Proc>, d: int, q: seq<int>, i: nat)
    requires 0 <= d < |procs| && Linked(procs, d, q) && NoRepeats(q) && i < |q|
    ensures |Removed(procs, d, q, i)| == |procs| && Linked(Removed(procs, d, q, i), d, Cut(q, i))
  {
    hide NoRepeats, Cut, Removed;
    RemovedHead(procs, d, q, i);
    CutAt(q, i, 0);
    forall j: nat | j < |Cut(q, i)|
      ensures 0 <= Cut(q, i)[j] < |procs| && Removed(procs, d, q, i)[Cut(q, i)[j]].next == At(Cut(q, i), j + 1)
    {
      RemovedLink(procs, d, q, i, j);
    }
  }

  lemma RemovedHead(procs: seq<Proc>, d: int, q: seq<int>, i: nat)
    requires 0 <= d < |procs| && Linked(procs, d, q) && i < |q|
    ensures |Removed(procs, d, q, i)| == |procs|
    ensures Removed(procs, d, q, i)[d].head == At(q, if i == 0 then 1 else 0)
  {
    assert procs[q[i]].next == At(q, i + 1);
  }

  // ---------------------------------------------------------------------------
  // The table after each operation

  /** A change of one entry's own fields. */
  lemma TiedUpdate(procs: seq<Proc>, a: State, p: int, e: Proc, a': State)
    requires Tied(procs, a) && a.Pid(p) && e.head == procs[p].head && e.next == procs[p].next
    requires |a'.status| == |a'.queues| == |a'.ints| == |a.status| && a'.queues == a.queues
    requires forall q | a.Pid(q) && q != p :: a'.status[q] == a.status[q] && a'.ints[q] == a.ints[q]
    requires Shows(e, a'.status[p], |procs|) && e.hasInt == a'.ints[p]
    ensures Tied(procs[p := e], a')
  {
    var procs' := procs[p := e];
    forall q | 0 <= q < |procs'|
      ensures Shows(procs'[q], a'.status[q], |procs'|) && procs'[q].hasInt == a'.ints[q]
              && Linked(procs', q, a'.queues[q])
    {
      OtherList(procs, procs', q, a.queues[q]);
    }
  }

  /** `s` marked as sending. */
  function Marked(procs: seq<Proc>, s: int, d: int, at: int): seq<Proc>
    requires 0 <= s < |procs|
  {
    procs[s := procs[s].(sending := true, sendTo := d, msg := at)]
  }

  lemma ListInside(procs: seq<Proc>, a: State, d: int)
    requires Tied(procs, a) && a.Pid(d)
    ensures Linked(procs, d, a.queues[d])
    ensures forall i: nat | i < |a.queues[d]| :: 0 <= a.queues[d][i] < |procs|
  {
  }

  lemma QueuedOther(procs: seq<Proc>, a: State, s: int, d: int, at: int, x: int)
    requires Good(a) && Tied(procs, a) && SendAllowed(a, s, d, at) && a.Pid(x) && x != d
    ensures forall i: nat | i < |a.queues[d]| :: 0 <= a.queues[d][i] < |procs|
    ensures Linked(Appended(Marked(procs, s, d, at), d, a.queues[d], s), x, a.queues[x])
  {
    hide Acyclic, StatusOk, Shows, NoRepeats;
    var q := a.queues[d];
    ListInside(procs, a, d);
    ListInside(procs, a, x);
    assert QueueOk(a, x) && s !in a.queues[x];
    if q != [] {
      assert q[|q| - 1] in q;
      OneList(a, d, x, q[|q| - 1]);
    }
    OtherList(procs, Appended(Marked(procs, s, d, at), d, q, s), x, a.queues[x]);
  }

  lemma QueuedShows(procs: seq<Proc>, a: State, s: int, d: int, at: int, x: int)
    requires Good(a) && Tied(procs, a) && SendAllowed(a, s, d, at) && a.Pid(x)
    ensures forall i: nat | i < |a.queues[d]| :: 0 <= a.queues[d][i] < |procs|
    ensures var p := Appended(Marked(procs, s, d, at), d, a.queues[d], s)[x];
            Shows(p, if x == s then Sending(d, at) else a.status[x], |procs|) && p.hasInt == a.ints[x]
  {
    hide Acyclic, StatusOk, NoRepeats;
    ListInside(procs, a, d);
    assert QueueOk(a, d);
    var q := a.queues[d];
    if q != [] {
      assert q[|q| - 1] in q;
    }
  }

  /** `s` marked as sending and put at the end of the list of `d`. */
  lemma TiedQueued(procs: seq<Proc>, a: State, s: int, d: int, at: int)
    requires Good(a) && Tied(procs, a) && SendAllowed(a, s, d, at) && !Awaits(a, d, s)
    ensures forall i: nat | i < |a.queues[d]| :: 0 <= a.queues[d][i] < |procs|
    ensures Tied(Appended(Marked(procs, s, d, at), d, a.queues[d], s), Post(a, s, d, at))
  {
    hide Acyclic, StatusOk, Shows, Linked;
    var q := a.queues[d];
    ListInside(procs, a, d);
    assert QueueOk(a, d) && s !in q;
    OtherList(procs, Marked(procs, s, d, at), d, q);
    AppendLinks(Marked(procs, s, d, at), d, q, s);
    var procs', a' := Appended(Marked(procs, s, d, at), d, q, s), Post(a, s, d, at);
    forall x | 0 <= x < |procs'|
      ensures Shows(procs'[x], a'.status[x], |procs'|) && procs'[x].hasInt == a'.ints[x]
              && Linked(procs', x, a'.queues[x])
    {
      QueuedShows(procs, a, s, d, at, x);
      if x != d {
        QueuedOther(procs, a, s, d, at, x);
      }
    }
  }

  /** `s` made ready. */
  function Unmarked(procs: seq<Proc>, s: int): seq<Proc>
    requires 0 <= s < |procs|
  {
    procs[s := procs[s].(msg := 0, sendTo := |procs| + 20, sending := false)]
  }

  lemma TakenOther(procs: seq<Proc>, a: State, r: int, i: nat, x: int)
    requires Good(a) && Tied(procs, a) && a.Pid(r) && i < |a.queues[r]| && a.Pid(x) && x != r
    ensures forall j: nat | j < |a.queues[r]| :: 0 <= a.queues[r][j] < |procs|
    ensures Linked(Unmarked(Removed(procs, r, a.queues[r], i), a.queues[r][i]), x, a.queues[x])
  {
    hide Acyclic, StatusOk, Shows, NoRepeats, QueueOk;
    var q := a.queues[r];
    ListInside(procs, a, r);
    ListInside(procs, a, x);
    OneList(a, r, x, q[i]);
    if i > 0 {
      OneList(a, r, x, q[i - 1]);
    }
    OtherList(procs, Unmarked(Removed(procs, r, q, i), q[i]), x, a.queues[x]);
  }

  lemma TakenShows(procs: seq<Proc>, a: State, r: int, i: nat, x: int)
    requires Good(a) && Tied(procs, a) && a.Pid(r) && i < |a.queues[r]| && a.Pid(x)
    ensures forall j: nat | j < |a.queues[r]| :: 0 <= a.queues[r][j] < |procs|
    ensures var p := Unmarked(Removed(procs, r, a.queues[r], i), a.queues[r][i])[x];
            Shows(p, if x == a.queues[r][i] then Ready else a.status[x], |procs|) && p.hasInt == a.ints[x]
  {
    hide Acyclic, StatusOk, NoRepeats;
    var q := a.queues[r];
    ListInside(procs, a, r);
    assert QueueOk(a, r) && q[i] in q;
    if i > 0 {
      assert q[i - 1] in q;
    }
  }

  /** `s` taken out of the list of `r` and made ready. */
  lemma TiedTaken(procs: seq<Proc>, a: State, r: int, i: nat, at: int)
    requires Good(a) && Tied(procs, a) && a.Pid(r) && i < |a.queues[r]|
    ensures forall j: nat | j < |a.queues[r]| :: 0 <= a.queues[r][j] < |procs|
    ensures var s := a.queues[r][i];
            a.SendsTo(s, r) && Tied(Unmarked(Removed(procs, r, a.queues[r], i), s), Take(a, r, s, at))
  {
    hide Acyclic, StatusOk, Shows, Linked, Removed;
    var q := a.queues[r];
    var s := q[i];
    ListInside(procs, a, r);
    assert QueueOk(a, r) && s in q;
    RemoveLinks(procs, r, q, i);
    WithoutAt(q, i);
    var cut := Removed(procs, r, q, i);
    var procs', a' := Unmarked(cut, s), Take(a, r, s, at);
    OtherList(cut, procs', r, Cut(q, i));
    forall x | 0 <= x < |procs'|
      ensures Shows(procs'[x], a'.status[x], |procs'|) && procs'[x].hasInt == a'.ints[x]
              && Linked(procs', x, a'.queues[x])
    {
      TakenShows(procs, a, r, i, x);
      if x != r {
        TakenOther(procs, a, r, i, x);
      }
    }
  }
}
