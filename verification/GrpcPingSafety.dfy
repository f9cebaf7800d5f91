/** What every run of the ping server keeps, whatever the events report. */
module GrpcPingSafety {
  import opened GrpcPing

  // ---- what every run keeps ----

  /** The operation that a call waits for is determined by its status. */
  function OpFor(status: Status): Op {
    match status
    case Process => AcceptOp
    case Read => WriteOp
    case Write => ReadOp
    case Finish => FinishOp
  }

  ghost predicate CallOk(cfg: Config, s: Server, id: nat) {
    id in s.calls ==>
      && id < s.next
      && s.calls[id].cq < cfg.queues
      && (s.calls[id].kind == Unary ==> s.calls[id].status == Process || s.calls[id].status == Finish)
  }

  ghost predicate TicketOk(s: Server, n: nat) {
    n in s.pending ==>
      && n < s.next
      && s.pending[n].id in s.calls
      && s.pending[n].cq == s.calls[s.pending[n].id].cq
      && s.pending[n].op == OpFor(s.calls[s.pending[n].id].status)
  }

  ghost predicate WorkerOk(cfg: Config, s: Server, w: Worker) {
    && (w in s.workers <==> IsWorker(cfg, w))
    && (w in s.workers && !s.workers[w].Idle? ==>
          && s.workers[w].id in s.calls
          && var c := s.calls[s.workers[w].id];
             && c.cq == w.queue
             && (s.workers[w].Holding? ==> s.workers[w].op == OpFor(c.status))
             && (s.workers[w].Spawned? ==> c.status == Process)
             && (s.workers[w].Switched? ==> s.workers[w].op == OpFor(c.status) && c.status != Process))
  }

  predicate Holds(s: Server, w: Worker, id: nat) {
    w in s.workers && !s.workers[w].Idle? && s.workers[w].id == id
  }

  predicate Awaits(s: Server, n: nat, id: nat) {
    n in s.pending && s.pending[n].id == id
  }

  /** At most one operation is outstanding for a call, at most one worker is inside it, never both. */
  ghost predicate Exclusive(s: Server, id: nat) {
    && (forall n1, n2 :: Awaits(s, n1, id) && Awaits(s, n2, id) ==> n1 == n2)
    && (forall w1, w2 :: Holds(s, w1, id) && Holds(s, w2, id) ==> w1 == w2)
    && (forall n, w :: !(Awaits(s, n, id) && Holds(s, w, id)))
  }

  /** The worker has taken an ok read of the call and not yet issued its write. */
  predicate Owes(s: Server, w: Worker, id: nat) {
    && Holds(s, w, id)
    && ((s.workers[w].Holding? && s.workers[w].op == ReadOp && s.workers[w].ok)
        || (s.workers[w].Switched? && s.workers[w].op == WriteOp))
  }

  /** Every read that came back ok was answered by a write, except one that a worker has in hand. */
  ghost predicate Answered(s: Server, id: nat) {
    id in s.calls ==>
      s.calls[id].readsOk == s.calls[id].writesIssued + if exists w :: Owes(s, w, id) then 1 else 0
  }

  ghost predicate Safe(cfg: Config, s: Server) {
    && (forall id :: CallOk(cfg, s, id))
    && (forall n :: TicketOk(s, n))
    && (forall w :: WorkerOk(cfg, s, w))
    && (forall id :: Exclusive(s, id))
    && (forall id :: Answered(s, id))
  }

  // ---- every move keeps it ----

  lemma {:induction false} SameOwed(s: Server, s1: Server, id: nat)
    requires Answered(s, id)
    requires id in s1.calls ==> id in s.calls && s1.calls[id].readsOk == s.calls[id].readsOk
                                && s1.calls[id].writesIssued == s.calls[id].writesIssued
    requires forall w :: Owes(s1, w, id) <==> Owes(s, w, id)
    ensures Answered(s1, id)
  {
  }

  lemma {:induction false} StartupMoves(cfg: Config, s: Server, s1: Server)
    requires Safe(cfg, s) && s1 == s.(startup := s1.startup)
    ensures Safe(cfg, s1)
  {
    forall id ensures CallOk(cfg, s1, id) && Exclusive(s1, id) && Answered(s1, id) {
      assert CallOk(cfg, s, id) && Exclusive(s, id);
      assert forall n :: Awaits(s1, n, id) <==> Awaits(s, n, id);
      assert forall w :: Holds(s1, w, id) <==> Holds(s, w, id);
      SameOwed(s, s1, id);
    }
    forall n ensures TicketOk(s1, n) {
      assert TicketOk(s, n);
    }
    forall w ensures WorkerOk(cfg, s1, w) {
      assert WorkerOk(cfg, s, w);
    }
  }

  lemma {:induction false} CreateSafe(cfg: Config, s: Server, kind: Kind, cq: nat)
    requires Safe(cfg, s) && cq < cfg.queues
    ensures Safe(cfg, Create(s, kind, cq))
  {
    var s1 := Create(s, kind, cq);
    forall n ensures TicketOk(s1, n) {
      assert TicketOk(s, n);
      if n in s.pending {
        assert CallOk(cfg, s, s.pending[n].id);
      }
    }
    forall w ensures WorkerOk(cfg, s1, w) {
      assert WorkerOk(cfg, s, w);
      if w in s.workers && !s.workers[w].Idle? {
        assert CallOk(cfg, s, s.workers[w].id);
      }
    }
    forall id ensures CallOk(cfg, s1, id) && Exclusive(s1, id) && Answered(s1, id) {
      assert CallOk(cfg, s, id) && Exclusive(s, id);
      forall w ensures Holds(s1, w, id) <==> Holds(s, w, id) {}
      forall w | Holds(s, w, id) ensures id in s.calls {
        assert WorkerOk(cfg, s, w);
      }
      forall n | Awaits(s1, n, id) ensures if id == s.next then n == s.next + 1 else Awaits(s, n, id) {
        assert TicketOk(s, n);
        assert CallOk(cfg, s, id);
      }
      if id != s.next {
        SameOwed(s, s1, id);
      }
    }
  }

  lemma {:induction false} TakeSafe(cfg: Config, s: Server, w0: Worker, n0: nat, ok: bool)
    requires Safe(cfg, s) && DeliverOne(s, w0, n0, ok).To?
    ensures Safe(cfg, Take(s, w0, n0, ok))
  {
    var s1 := Take(s, w0, n0, ok);
    var id0 := s.pending[n0].id;
    assert TicketOk(s, n0) && WorkerOk(cfg, s, w0) && Exclusive(s, id0) && Awaits(s, n0, id0);
    forall n ensures TicketOk(s1, n) {
      assert TicketOk(s, n);
    }
    forall w ensures WorkerOk(cfg, s1, w) {
      assert WorkerOk(cfg, s, w);
    }
    forall id ensures CallOk(cfg, s1, id) && Exclusive(s1, id) {
      assert CallOk(cfg, s, id) && Exclusive(s, id);
      assert forall n :: Awaits(s1, n, id) ==> Awaits(s, n, id) && n != n0;
      assert forall w :: Holds(s1, w, id) ==> Holds(s, w, id) || (w == w0 && id == id0);
    }
    forall id ensures Answered(s1, id) {
      assert Answered(s, id);
      if id == id0 {
        forall w ensures !Owes(s, w, id) {
          assert !(Awaits(s, n0, id) && Holds(s, w, id));
        }
        if s.pending[n0].op == ReadOp && ok {
          assert Owes(s1, w0, id);
        } else {
          forall w ensures !Owes(s1, w, id) {
            assert !Owes(s, w, id);
          }
        }
      } else {
        SameOwed(s, s1, id);
      }
    }
  }

  /** The worker sets the next status; it owes a write before exactly when it goes on to issue one. */
  lemma {:induction false} SwitchSafe(cfg: Config, s: Server, w0: Worker, id0: nat, status: Status, op: Op)
    requires Safe(cfg, s) && Holds(s, w0, id0) && id0 in s.calls
    requires op == OpFor(status) && status != Process
    requires s.calls[id0].kind == Unary ==> status == Finish
    requires Owes(s, w0, id0) <==> op == WriteOp
    ensures Safe(cfg, Switch(s, w0, id0, status, op))
  {
    var s1 := Switch(s, w0, id0, status, op);
    assert WorkerOk(cfg, s, w0) && Exclusive(s, id0);
    forall n ensures TicketOk(s1, n) {
      assert TicketOk(s, n);
      assert !(Awaits(s, n, id0) && Holds(s, w0, id0));
    }
    forall w ensures WorkerOk(cfg, s1, w) {
      assert WorkerOk(cfg, s, w);
      assert Holds(s, w, id0) && Holds(s, w0, id0) ==> w == w0;
    }
    forall id ensures CallOk(cfg, s1, id) && Exclusive(s1, id) && Answered(s1, id) {
      assert CallOk(cfg, s, id) && Exclusive(s, id) && Answered(s, id);
      assert forall n :: Awaits(s1, n, id) <==> Awaits(s, n, id);
      forall w ensures Holds(s1, w, id) <==> Holds(s, w, id) {}
      forall w ensures Owes(s1, w, id) <==> Owes(s, w, id) {}
      SameOwed(s, s1, id);
    }
  }

  lemma {:induction false} IssueSafe(cfg: Config, s: Server, w0: Worker, id0: nat, op: Op)
    requires Safe(cfg, s) && w0 in s.workers && s.workers[w0] == Switched(id0, op) && id0 in s.calls
    ensures Safe(cfg, Issue(s, w0, id0, op))
  {
    var s1 := Issue(s, w0, id0, op);
    assert WorkerOk(cfg, s, w0) && Exclusive(s, id0) && CallOk(cfg, s, id0) && Holds(s, w0, id0);
    assert TicketOk(s, s.next);
    forall n ensures TicketOk(s1, n) {
      assert TicketOk(s, n);
    }
    forall w ensures WorkerOk(cfg, s1, w) {
      assert WorkerOk(cfg, s, w);
    }
    forall id ensures CallOk(cfg, s1, id) && Exclusive(s1, id) {
      assert CallOk(cfg, s, id) && Exclusive(s, id);
      assert forall n :: Awaits(s1, n, id) ==> Awaits(s, n, id) || (n == s.next && id == id0);
      assert forall w :: Holds(s1, w, id) ==> Holds(s, w, id) && w != w0;
      if id == id0 {
        forall n ensures !Awaits(s, n, id) {
          assert !(Awaits(s, n, id) && Holds(s, w0, id));
        }
      }
    }
    forall id ensures Answered(s1, id) {
      assert Answered(s, id);
      if id == id0 {
        forall w ensures !Owes(s1, w, id) {
          assert Holds(s, w, id) && Holds(s, w0, id) ==> w == w0;
        }
        assert op == WriteOp ==> Owes(s, w0, id);
        forall w | Owes(s, w, id) ensures op == WriteOp {
          assert Holds(s, w, id) && Holds(s, w0, id) ==> w == w0;
        }
      } else {
        SameOwed(s, s1, id);
      }
    }
  }

  /** The worker leaves the call, or moves to the point after its successor was created. */
  lemma {:induction false} LeaveSafe(cfg: Config, s: Server, w0: Worker, id0: nat, phase: Phase)
    requires Safe(cfg, s) && Holds(s, w0, id0) && id0 in s.calls && !Owes(s, w0, id0)
    requires phase == Idle || (phase == Spawned(id0) && s.calls[id0].status == Process)
    ensures Safe(cfg, At(s, w0, phase))
  {
    var s1 := At(s, w0, phase);
    forall n ensures TicketOk(s1, n) {
      assert TicketOk(s, n);
    }
    forall w ensures WorkerOk(cfg, s1, w) {
      assert WorkerOk(cfg, s, w) && WorkerOk(cfg, s, w0);
    }
    forall id ensures CallOk(cfg, s1, id) && Exclusive(s1, id) && Answered(s1, id) {
      assert CallOk(cfg, s, id) && Exclusive(s, id) && Answered(s, id);
      assert forall n :: Awaits(s1, n, id) <==> Awaits(s, n, id);
      assert forall w :: Holds(s1, w, id) ==> Holds(s, w, id);
      SameOwed(s, s1, id);
    }
  }

  lemma {:induction false} DeleteSafe(cfg: Config, s: Server, w0: Worker, id0: nat)
    requires Safe(cfg, s) && Holds(s, w0, id0)
    ensures Safe(cfg, Delete(s, w0, id0))
  {
    var s1 := Delete(s, w0, id0);
    assert Exclusive(s, id0);
    forall n ensures TicketOk(s1, n) {
      assert TicketOk(s, n);
      assert !(Awaits(s, n, id0) && Holds(s, w0, id0));
    }
    forall w ensures WorkerOk(cfg, s1, w) {
      assert WorkerOk(cfg, s, w);
      assert Holds(s, w, id0) && Holds(s, w0, id0) ==> w == w0;
    }
    forall id ensures CallOk(cfg, s1, id) && Exclusive(s1, id) && Answered(s1, id) {
      assert CallOk(cfg, s, id) && Exclusive(s, id) && Answered(s, id);
      assert forall n :: Awaits(s1, n, id) <==> Awaits(s, n, id);
      assert forall w :: Holds(s1, w, id) ==> Holds(s, w, id);
      if id != id0 {
        SameOwed(s, s1, id);
      }
    }
  }

  lemma {:induction false} ProceedSafe(cfg: Config, s: Server, w: Worker)
    requires Safe(cfg, s) && ProceedOne(s, w) != Disabled
    ensures ProceedOne(s, w).To?
    ensures Safe(cfg, ProceedOne(s, w).s)
  {
    assert WorkerOk(cfg, s, w);
    var id := s.workers[w].id;
    assert CallOk(cfg, s, id) && Holds(s, w, id);
    var c := s.calls[id];
    match s.workers[w]
    case Switched(_, op) => IssueSafe(cfg, s, w, id, op);
    case Spawned(_) =>
      if c.kind == Unary {
        SwitchSafe(cfg, s, w, id, Finish, FinishOp);
      } else {
        SwitchSafe(cfg, s, w, id, Write, ReadOp);
      }
    case Holding(_, _, ok) =>
      if c.kind == Streaming && !ok {
        if c.status == Read || c.status == Write {
          SwitchSafe(cfg, s, w, id, Finish, FinishOp);
        } else {
          LeaveSafe(cfg, s, w, id, Idle);
        }
      } else {
        match c.status
        case Process =>
          CreateSafe(cfg, s, c.kind, c.cq);
          LeaveSafe(cfg, Create(s, c.kind, c.cq), w, id, Spawned(id));
        case Read => SwitchSafe(cfg, s, w, id, Write, ReadOp);
        case Write => SwitchSafe(cfg, s, w, id, Read, WriteOp);
        case Finish => DeleteSafe(cfg, s, w, id);
      }
  }

  /** Whatever the events say, no worker runs a deleted call and the safety properties are kept. */
  lemma {:induction false} StepSafe(cfg: Config, s: Server, a: Action)
    requires Safe(cfg, s)
    ensures Step(cfg, s, a) != Fault
    ensures Step(cfg, s, a).To? ==> Safe(cfg, Step(cfg, s, a).s)
  {
    match a
    case Start =>
      if StartOne(cfg, s).To? {
        CreateSafe(cfg, s, s.startup.kind, s.startup.queue);
        StartupMoves(cfg, Create(s, s.startup.kind, s.startup.queue), StartOne(cfg, s).s);
      }
    case Deliver(w, n, ok) =>
      if DeliverOne(s, w, n, ok).To? {
        TakeSafe(cfg, s, w, n, ok);
      }
    case Proceed(w) =>
      if ProceedOne(s, w) != Disabled {
        ProceedSafe(cfg, s, w);
      }
  }

  lemma {:induction false} RunSafe(cfg: Config, actions: seq<Action>)
    ensures Run(cfg, actions) != Fault
    ensures Run(cfg, actions).To? ==> Safe(cfg, Run(cfg, actions).s)
  {
    if actions == [] {
    } else {
      RunSafe(cfg, actions[..|actions| - 1]);
      var before := Run(cfg, actions[..|actions| - 1]);
      if before.To? {
        StepSafe(cfg, before.s, actions[|actions| - 1]);
      }
    }
  }

  /** In every run, on every streaming call that no worker is inside, writes issued equal reads that came back ok. */
  lemma {:induction false} WritesAnswerReads(cfg: Config, actions: seq<Action>, id: nat)
    requires Run(cfg, actions).To? && id in Run(cfg, actions).s.calls
    requires forall w :: !Holds(Run(cfg, actions).s, w, id)
    ensures Run(cfg, actions).s.calls[id].writesIssued == Run(cfg, actions).s.calls[id].readsOk
  {
    RunSafe(cfg, actions);
    assert Answered(Run(cfg, actions).s, id);
  }
}
