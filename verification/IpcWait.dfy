/** msg_receive when there is nothing to take: three assignments that block the receiver
    and six assertions, with interrupts at any point. */
module IpcWait {
  import opened Ipc
  import opened IpcTable
  import opened IpcCode
  import opened IpcPaths
  import opened IpcReceive

  lemma WaitActs(r: int, src: int, m: int, n: nat)
    ensures var code := WaitCode(r, src, m, n);
            && |code| == 9
            && code[0] == Put(r, FlagReceiving, RECEIVING) && code[1] == Put(r, MsgPtr, m)
                && code[2] == Put(r, RecvFrom, src)
            && code[3] == Check(r, Flags, 0, false) && code[4] == Check(r, Flags, RECEIVING, true)
            && code[5] == Check(r, MsgPtr, 0, false) && code[6] == Check(r, RecvFrom, n + 20, false)
            && code[7] == Check(r, SendTo, n + 20, true) && code[8] == Check(r, HasInt, 0, true)
  {
  }

  lemma WaitSafe(a: State, c: Core, r: int, src: int, m: int)
    requires Stands(a, c) && ReceiveAllowed(a, r, src, m)
    ensures AllSafe(WaitCode(r, src, m, |c.procs|), 0, c, r)
  {
    hide Tied, Good;
    var code := WaitCode(r, src, m, |c.procs|);
    forall t | t != r ensures Safe(code, 0, c, t) {
      if c.Has(t) {
        AlertWaits(a, c, t);
        if Alert(c.procs[t], |c.procs|) {
          OwnsBuffer(a, c, t);
          assert forall j | 0 <= j < |code| :: Aside(code[j], t, c.procs[t].msg);
        } else {
          assert forall j | 0 <= j < |code| :: Calm(code[j], t, |c.procs|);
        }
      }
    }
  }

  /** The receiver blocked, with an interrupt noted for it or not. */
  function Blocked(c: Core, r: int, src: int, m: int, h: bool): Core
    requires c.Has(r)
  {
    c.(procs := c.procs[r := c.procs[r].(receiving := true, msg := m, recvFrom := src, hasInt := h)])
  }

  /** A receiver about to block. */
  predicate AboutToWait(c: Core, r: int, src: int, m: int) {
    c.ok && c.Has(r) && Shows(c.procs[r], Ready, |c.procs|) && m != 0 && src != |c.procs| + 20
  }

  predicate ForInterrupts(src: int, n: nat) { src == INTERRUPT || src == n + 10 }

  /** All but the last assertion hold of a blocked receiver. */
  lemma WaitChecks(c: Core, r: int, src: int, m: int, h: bool, i: nat, k: nat)
    requires AboutToWait(c, r, src, m) && 3 <= i <= k <= 8
    ensures RunCode(WaitCode(r, src, m, |c.procs|), i, k, Blocked(c, r, src, m, h)) == Blocked(c, r, src, m, h)
  {
    hide RunCode;
    var code := WaitCode(r, src, m, |c.procs|);
    var b := Blocked(c, r, src, m, h);
    forall j | 3 <= j < 8 ensures Passes(code[j], b) {
    }
    ChecksPass(code, i, k, b);
  }

  lemma LastAssertion(c: Core, r: int, src: int, m: int)
    requires c.Has(r) && c.ok
    ensures Exec(WaitCode(r, src, m, |c.procs|)[8], c) == c.(ok := !c.procs[r].hasInt)
  {
    hide WaitCode;
    WaitActs(r, src, m, |c.procs|);
  }

  /** The assignments, with interrupts before and between them: they are noted. */
  lemma WaitPrefix(c: Core, r: int, src: int, m: int, own: seq<seq<int>>)
    requires AboutToWait(c, r, src, m) && |own| == 10 && forall j | 0 <= j < |own| :: AllAre(own[j], r)
    ensures var code := WaitCode(r, src, m, |c.procs|);
            var h := c.procs[r].hasInt || own[0] != [] || own[1] != [] || own[2] != [];
            Play(code, own, 0, 3, NotifyAll(own[0], c)) == NotifyAll(own[3], Blocked(c, r, src, m, h))
  {
    hide WaitCode, NotifyAll, Exec, Set;
    var n, e := |c.procs|, c.procs[r];
    var code := WaitCode(r, src, m, n);
    WaitActs(r, src, m, n);
    var h0 := e.hasInt || own[0] != [];
    var h1 := h0 || own[1] != [];
    var h2 := h1 || own[2] != [];
    NotifyCalmTask(own[0], c, r);
    var c0, c1, c2 := Stage(c, r, false, 0, h0), Stage(c, r, true, 0, h1), Stage(c, r, true, m, h2);
    StageOne(c, r, h0, own[1]);
    StageTwo(c, r, h1, m, own[2]);
    StageThree(c, r, h2, m, src);
    assert Play(code, own, 0, 0, c0) == c0;
    assert Play(code, own, 0, 1, c0) == c1;
    assert Play(code, own, 0, 2, c0) == c2;
  }

  /** The entry of the receiver on its way. */
  function Stage(c: Core, r: int, receiving: bool, m: int, h: bool): Core
    requires c.Has(r)
  {
    c.(procs := c.procs[r := c.procs[r].(receiving := receiving, msg := m, hasInt := h)])
  }

  lemma StageOne(c: Core, r: int, h: bool, ts: seq<int>)
    requires c.ok && c.Has(r) && AllAre(ts, r) && c.procs[r].recvFrom == |c.procs| + 20
    ensures NotifyAll(ts, Exec(Put(r, FlagReceiving, RECEIVING), Stage(c, r, false, 0, h)))
            == Stage(c, r, true, 0, h || ts != [])
  {
    PutAndNotices(Stage(c, r, false, 0, h), r, FlagReceiving, RECEIVING, ts);
  }

  lemma StageTwo(c: Core, r: int, h: bool, m: int, ts: seq<int>)
    requires c.ok && c.Has(r) && AllAre(ts, r) && c.procs[r].recvFrom == |c.procs| + 20
    ensures NotifyAll(ts, Exec(Put(r, MsgPtr, m), Stage(c, r, true, 0, h))) == Stage(c, r, true, m, h || ts != [])
  {
    PutAndNotices(Stage(c, r, true, 0, h), r, MsgPtr, m, ts);
  }

  lemma StageThree(c: Core, r: int, h: bool, m: int, src: int)
    requires c.ok && c.Has(r)
    ensures Exec(Put(r, RecvFrom, src), Stage(c, r, true, m, h)) == Blocked(c, r, src, m, h)
  {
    ExecPut(Stage(c, r, true, m, h), r, RecvFrom, src);
  }

  lemma ExecPut(c: Core, r: int, f: Field, v: int)
    requires c.ok && c.Has(r)
    ensures Exec(Put(r, f, v), c) == c.(procs := c.procs[r := Set(c.procs[r], f, v)])
  {
  }

  /** An assignment, and interrupts that are noted. */
  lemma PutAndNotices(c: Core, r: int, f: Field, v: int, ts: seq<int>)
    requires c.ok && c.Has(r) && AllAre(ts, r) && (f == FlagReceiving || f == MsgPtr)
    requires c.procs[r].recvFrom == |c.procs| + 20
    ensures NotifyAll(ts, Exec(Put(r, f, v), c))
         == c.(procs := c.procs[r := Set(c.procs[r], f, v).(hasInt := c.procs[r].hasInt || ts != [])])
  {
    hide NotifyAll;
    NotifyCalmTask(ts, Exec(Put(r, f, v), c), r);
  }

  /** Left alone. */
  lemma WaitEffect(c: Core, r: int, src: int, m: int)
    requires AboutToWait(c, r, src, m)
    ensures RunAll(WaitCode(r, src, m, |c.procs|), c)
            == Blocked(c, r, src, m, c.procs[r].hasInt).(ok := !c.procs[r].hasInt)
  {
    hide RunCode, WaitCode;
    var n, h := |c.procs|, c.procs[r].hasInt;
    var code := WaitCode(r, src, m, n);
    WaitActs(r, src, m, n);
    PutThree(code, 0, c, r, FlagReceiving, RECEIVING, MsgPtr, m, RecvFrom, src);
    var b := Blocked(c, r, src, m, h);
    WaitChecks(c, r, src, m, h, 3, 8);
    RunJoin(code, 0, 3, 8, c);
    RunOne(code, 8, b);
    LastAssertion(b, r, src, m);
    RunJoin(code, 0, 8, 9, c);
  }

  // ---------------------------------------------------------------------------
  // From the third assignment on

  /** Quiet up to position `k`. */
  lemma QuietPart(c: Core, r: int, src: int, m: int, h: bool, own: seq<seq<int>>, k: nat)
    requires AboutToWait(c, r, src, m) && |own| == 10 && 3 <= k <= 8 && forall j | 3 <= j < k :: own[j] == []
    ensures var b := Blocked(c, r, src, m, h);
            Play(WaitCode(r, src, m, |c.procs|), own, 3, k, NotifyAll(own[3], b)) == NotifyAll(own[k], b)
  {
    hide WaitCode, RunCode, NotifyAll;
    var code := WaitCode(r, src, m, |c.procs|);
    WaitActs(r, src, m, |c.procs|);
    var b := Blocked(c, r, src, m, h);
    if k > 3 {
      assert NotifyAll(own[3], b) == b by {
        NotifyNone(b);
      }
      PlayQuiet(code, own, 3, k - 1, b);
      WaitChecks(c, r, src, m, h, 3, k - 1);
      WaitChecks(c, r, src, m, h, k - 1, k);
      RunOne(code, k - 1, b);
    }
  }

  lemma NotifyNone(c: Core)
    ensures NotifyAll([], c) == c
  {
  }

  /** A receiver that waits for an interrupt and gets one before its state has been
      asserted fails the next assertion. */
  lemma WokenTooSoon(c: Core, r: int, src: int, m: int, h: bool, own: seq<seq<int>>, k: nat)
    requires AboutToWait(c, r, src, m) && ForInterrupts(src, |c.procs|)
    requires |own| == 10 && forall j | 0 <= j < |own| :: AllAre(own[j], r)
    requires 3 <= k < 7 && own[k] != [] && forall j | 3 <= j < k :: own[j] == []
    ensures !Play(WaitCode(r, src, m, |c.procs|), own, 3, 9, NotifyAll(own[3], Blocked(c, r, src, m, h))).ok
  {
    hide WaitCode, NotifyAll;
    var n := |c.procs|;
    var code := WaitCode(r, src, m, n);
    WaitActs(r, src, m, n);
    var b := Blocked(c, r, src, m, h);
    QuietPart(c, r, src, m, h, own, k);
    NotifyAlertTask(own[k], b, r);
    var y := NotifyAll(own[k], b);
    assert !Exec(code[k], y).ok;
    var start := NotifyAll(own[3], b);
    NotifyAllOk(own[k + 1], Exec(code[k], y));
    PlayJoin(code, own, 3, k, k + 1, start);
    PlayStopped(code, own, k + 1, 9, Play(code, own, 3, k + 1, start));
    PlayJoin(code, own, 3, k + 1, 9, start);
  }

  /** Interrupts before the last two assertions: the first wakes the receiver, another
      is noted and fails the last assertion. */
  lemma LastTwo(c: Core, r: int, src: int, m: int, h: bool, own: seq<seq<int>>)
    requires AboutToWait(c, r, src, m) && ForInterrupts(src, |c.procs|)
    requires |own| == 10 && forall j | 0 <= j < |own| :: AllAre(own[j], r)
    ensures var code := WaitCode(r, src, m, |c.procs|);
            var late := |own[7]| + |own[8]|;
            var b := Blocked(c, r, src, m, h);
            var f := Play(code, own, 7, 9, NotifyAll(own[7], b));
            && (f.ok <==> if late == 0 then !h else late == 1)
            && (f.ok ==> f == NotifyAll(own[9], if late == 0 then b else Notify(b, r)))
  {
    hide WaitCode, NotifyAll;
    var n := |c.procs|;
    var code := WaitCode(r, src, m, n);
    WaitActs(r, src, m, n);
    var b := Blocked(c, r, src, m, h);
    var c7 := NotifyAll(own[7], b);
    if own[7] == [] {
      NotifyNone(b);
    } else {
      NotifyAlertTask(own[7], b, r);
    }
    assert Exec(code[7], c7) == c7;
    var c8 := NotifyAll(own[8], c7);
    assert Play(code, own, 7, 8, c7) == c8;
    if own[8] == [] {
      NotifyNone(c7);
    } else if own[7] == [] {
      NotifyAlertTask(own[8], b, r);
    } else {
      NotifyCalmTask(own[8], c7, r);
    }
    LastAssertion(c8, r, src, m);
    NotifyAllOk(own[9], Exec(code[8], c8));
    if |own[7]| + |own[8]| == 1 {
      SingleNotice(own[7], own[8], b, r);
    }
  }

  lemma SingleNotice(ts: seq<int>, us: seq<int>, c: Core, r: int)
    requires |ts| + |us| == 1 && AllAre(ts, r) && AllAre(us, r)
    ensures NotifyAll(us, NotifyAll(ts, c)) == Notify(c, r)
  {
    NotifyAppend(ts, us, c);
    assert ts + us == [r];
    NotifyOne(c, r);
  }

  /** A receiver that waits for one process fails the last assertion if an interrupt has
      been noted for it by then. */
  lemma WaitForProcess(c: Core, r: int, src: int, m: int, h: bool, own: seq<seq<int>>)
    requires AboutToWait(c, r, src, m) && !ForInterrupts(src, |c.procs|)
    requires |own| == 10 && forall j | 0 <= j < |own| :: AllAre(own[j], r)
    ensures var b := Blocked(c, r, src, m, h);
            var f := Play(WaitCode(r, src, m, |c.procs|), own, 3, 9, NotifyAll(own[3], b));
            && (f.ok <==> !h && forall j | 3 <= j < 9 :: own[j] == [])
            && (f.ok ==> f == NotifyAll(own[9], b))
  {
    hide WaitCode, NotifyAll;
    var n := |c.procs|;
    var code := WaitCode(r, src, m, n);
    WaitActs(r, src, m, n);
    var b := Blocked(c, r, src, m, h);
    if h || exists j | 3 <= j < 9 :: own[j] != [] {
      var k := 3;
      if !h {
        k := FirstNonEmpty(own, 3, 9);
      }
      QuietPart(c, r, src, m, h, own, k);
      NotifyCalmTask(own[k], b, r);
      var y, start := NotifyAll(own[k], b), NotifyAll(own[3], b);
      PlayJoin(code, own, 3, k, 8, start);
      ChecksAndNotices(code, own, k, 8, y, r);
      NotedFails(code, own, r, Play(code, own, 3, 8, start));
    } else {
      QuietPart(c, r, src, m, h, own, 8);
      NotifyNone(b);
      LastAssertion(b, r, src, m);
      NotifyAllOk(own[9], b);
    }
  }

  lemma NotedFails(code: seq<Instr>, own: seq<seq<int>>, r: int, c: Core)
    requires |code| == 9 && code[8] == Check(r, HasInt, 0, true) && |own| == 10 && c.Has(r) && c.procs[r].hasInt
    ensures !NotifyAll(own[9], Exec(code[8], c)).ok
  {
    NotifyAllOk(own[9], Exec(code[8], c));
  }

  /** The whole tail for a receiver that waits for interrupts. */
  lemma WaitForInterrupt(c: Core, r: int, src: int, m: int, h: bool, own: seq<seq<int>>)
    requires AboutToWait(c, r, src, m) && ForInterrupts(src, |c.procs|)
    requires |own| == 10 && forall j | 0 <= j < |own| :: AllAre(own[j], r)
    ensures var b := Blocked(c, r, src, m, h);
            var late := |own[7]| + |own[8]|;
            var f := Play(WaitCode(r, src, m, |c.procs|), own, 3, 9, NotifyAll(own[3], b));
            && (f.ok <==> (forall j | 3 <= j < 7 :: own[j] == []) && if late == 0 then !h else late == 1)
            && (f.ok ==> f == NotifyAll(own[9], if late == 0 then b else Notify(b, r)))
  {
    hide WaitCode, NotifyAll, Play;
    var code := WaitCode(r, src, m, |c.procs|);
    WaitActs(r, src, m, |c.procs|);
    var b := Blocked(c, r, src, m, h);
    if exists j | 3 <= j < 7 :: own[j] != [] {
      var k := FirstNonEmpty(own, 3, 7);
      WokenTooSoon(c, r, src, m, h, own, k);
    } else {
      QuietPart(c, r, src, m, h, own, 7);
      LastTwo(c, r, src, m, h, own);
      PlayJoin(code, own, 3, 7, 9, NotifyAll(own[3], b));
    }
  }

  /** The interrupts under which blocking ends well, for a receiver with `noted` set or
      not.  Waiting for a process: none up to the last assertion.  Waiting for an
      interrupt or anyone: none from the third assignment up to the assertion on
      p_recvfrom, and then exactly one up to the last assertion, or none and none before
      the third assignment either. */
  predicate Survives(irq: seq<seq<int>>, r: int, noted: bool, interrupts: bool)
    requires |irq| == 10
  {
    var late := |OnlyOf(irq[7], r)| + |OnlyOf(irq[8], r)|;
    if !interrupts then !noted && forall j | 0 <= j < 9 :: r !in irq[j]
    else (forall j | 3 <= j < 7 :: r !in irq[j])
         && if late == 0 then !noted && forall j | 0 <= j < 3 :: r !in irq[j] else late == 1
  }

  lemma WaitOwn(c: Core, r: int, src: int, m: int, irq: seq<seq<int>>)
    requires AboutToWait(c, r, src, m) && |irq| == 10
    ensures var code := WaitCode(r, src, m, |c.procs|);
            var own := Only(irq, r);
            var late := |own[7]| + |own[8]|;
            var f := PlayAll(code, own, c);
            && (f.ok <==> Survives(irq, r, c.procs[r].hasInt, ForInterrupts(src, |c.procs|)))
            && (f.ok && !c.procs[r].hasInt ==>
                  f == NotifyAll(own[9], if late == 0 then RunAll(code, c) else Notify(RunAll(code, c), r)))
  {
    hide WaitCode, NotifyAll, Play, RunAll, Notify, Shows, AllAre;
    var n, noted := |c.procs|, c.procs[r].hasInt;
    var code, own := WaitCode(r, src, m, n), Only(irq, r);
    WaitActs(r, src, m, n);
    OwnAreAll(irq, r);
    WaitPrefix(c, r, src, m, own);
    WaitEffect(c, r, src, m);
    var h := noted || own[0] != [] || own[1] != [] || own[2] != [];
    var start := NotifyAll(own[0], c);
    PlayJoin(code, own, 0, 3, 9, start);
    assert h <==> noted || exists j | 0 <= j < 3 :: r in irq[j];
    if ForInterrupts(src, n) {
      WaitForInterrupt(c, r, src, m, h, own);
      SameWoken(c, r, src, m, h);
    } else {
      WaitForProcess(c, r, src, m, h, own);
    }
  }

  lemma SameWoken(c: Core, r: int, src: int, m: int, h: bool)
    requires c.Has(r) && ForInterrupts(src, |c.procs|)
    ensures Notify(Blocked(c, r, src, m, h), r) == Notify(Blocked(c, r, src, m, false), r)
  {
  }

  /** Blocking ends well if and only if `Survives` says so, and then interrupts might as
      well come at the end. */
  lemma WaitExactly(a: State, c: Core, r: int, src: int, m: int, irq: seq<seq<int>>) returns (rest: seq<int>)
    requires Stands(a, c) && ReceiveAllowed(a, r, src, m) && |a.ints| == |a.status| && |a.queues| == |a.status|
    requires Unanswered(a, r, src) && |irq| == 10 && InTable(irq, |c.procs|)
    ensures var code := WaitCode(r, src, m, |c.procs|);
            && (PlayAll(code, irq, c).ok <==> Survives(irq, r, a.ints[r], !a.Pid(src)))
            && (PlayAll(code, irq, c).ok ==>
                  RunAll(code, c).ok && PlayAll(code, irq, c) == NotifyAll(rest, RunAll(code, c)))
            && forall t <- rest :: c.Has(t)
  {
    hide WaitCode, Stands, Play, NotifyAll, AllSafe, Survives, RunAll, PlayAll;
    var n := |c.procs|;
    var code, own := WaitCode(r, src, m, n), Only(irq, r);
    WaitActs(r, src, m, n);
    ReadyEntry(a, c, r);
    WaitSafe(a, c, r, src, m);
    var others := OnlyXMatters(code, irq, c, r);
    WaitOwn(c, r, src, m, irq);
    WaitEffect(c, r, src, m);
    NotifyAllOk(others, PlayAll(code, own, c));
    var late := |own[7]| + |own[8]|;
    rest := (if late == 0 then [] else [r]) + own[9] + others;
    OwnAreAll(irq, r);
    if PlayAll(code, irq, c).ok {
      SurvivesNotNoted(irq, r, a.ints[r], !a.Pid(src), a, src);
      RestOf(late, r, own[9], others, RunAll(code, c));
    }
    OnlyInTable(irq, r, n);
  }

  lemma SurvivesNotNoted(irq: seq<seq<int>>, r: int, noted: bool, interrupts: bool, a: State, src: int)
    requires |irq| == 10 && Survives(irq, r, noted, interrupts)
    requires a.Pid(r) && |a.ints| == |a.status| && |a.queues| == |a.status| && noted == a.ints[r]
             && interrupts == !a.Pid(src)
    requires ValidSource(a, r, src) && Unanswered(a, r, src)
    ensures !noted
  {
  }

  lemma RestOf(late: nat, r: int, ts: seq<int>, us: seq<int>, c: Core)
    ensures NotifyAll(us, NotifyAll(ts, if late == 0 then c else Notify(c, r)))
         == NotifyAll((if late == 0 then [] else [r]) + ts + us, c)
  {
    var first := if late == 0 then [] else [r];
    NotifyOne(c, r);
    NotifyAppend(first, ts, c);
    NotifyAppend(first + ts, us, c);
  }

  lemma WaitStands(a: State, c: Core, r: int, src: int, m: int)
    requires Stands(a, c) && ReceiveAllowed(a, r, src, m) && |a.ints| == |a.status| && |a.queues| == |a.status|
    requires Unanswered(a, r, src) && !a.ints[r]
    ensures Stands(Fetch(a, r, src, m), RunAll(WaitCode(r, src, m, |c.procs|), c))
  {
    hide WaitCode, RunAll, QueueOk, Acyclic, StatusOk, Linked;
    ReadyEntry(a, c, r);
    WaitEffect(c, r, src, m);
    WaitGood(a, r, src, m);
    TiedUpdate(c.procs, a, r, Blocked(c, r, src, m, false).procs[r], Fetch(a, r, src, m));
  }
}
