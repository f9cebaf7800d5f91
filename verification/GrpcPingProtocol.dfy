/** What the ping server does about each event: which operation follows which, when a call is finished or deleted, and
    that a stream whose events are ok goes on reading and answering. */
module GrpcPingProtocol {
  import opened GrpcPing
  import opened GrpcPingSafety

  // ---- what follows an event ----

  /** The worker is inside the call, with this event in hand. */
  predicate Has(s: Server, w: Worker, id: nat, op: Op, ok: bool) {
    w in s.workers && s.workers[w] == Holding(id, op, ok) && id in s.calls
  }

  predicate IsStream(s: Server, id: nat) { id in s.calls && s.calls[id].kind == Streaming }

  predicate IsUnary(s: Server, id: nat) { id in s.calls && s.calls[id].kind == Unary }

  /** A read is answered by a write, and after the write the stream reads again; a read or write that failed ends it. */
  lemma {:induction false} StreamGoesOn(cfg: Config, s: Server, w: Worker, id: nat, op: Op, ok: bool)
    requires Safe(cfg, s) && Has(s, w, id, op, ok) && (op == ReadOp || op == WriteOp)
    ensures IsStream(s, id) && ProceedOne(s, w).To?
    ensures ProceedOne(s, w).s.workers[w]
         == Switched(id, if !ok then FinishOp else if op == ReadOp then WriteOp else ReadOp)
  {
    assert WorkerOk(cfg, s, w) && CallOk(cfg, s, id);
  }

  /** An accepted call is replaced by a new one of its kind, which waits for its own accept on the same queue; a unary
      call is replaced and answered even where its accept failed. */
  lemma {:induction false} AcceptedIsReplaced(cfg: Config, s: Server, w: Worker, id: nat, ok: bool)
    requires Safe(cfg, s) && Has(s, w, id, AcceptOp, ok) && (IsUnary(s, id) || ok)
    ensures ProceedOne(s, w).To?
    ensures var s1 := ProceedOne(s, w).s;
            && s1.workers[w] == Spawned(id)
            && s.next !in s.calls && s.next in s1.calls
            && s1.calls[s.next].kind == s.calls[id].kind
            && s1.calls[s.next].cq == s.calls[id].cq
            && s1.calls[s.next].status == Process
            && exists n :: n in s1.pending && s1.pending[n] == Ticket(s.next, s.calls[id].cq, AcceptOp)
  {
    assert WorkerOk(cfg, s, w) && CallOk(cfg, s, s.next);
    assert s.next + 1 in ProceedOne(s, w).s.pending;
  }

  /** Then a unary call is answered at once, and a stream reads. */
  lemma {:induction false} AcceptedGoesOn(cfg: Config, s: Server, w: Worker, id: nat)
    requires Safe(cfg, s) && w in s.workers && s.workers[w] == Spawned(id)
    ensures ProceedOne(s, w).To? && id in s.calls
    ensures ProceedOne(s, w).s.workers[w] == Switched(id, if s.calls[id].kind == Unary then FinishOp else ReadOp)
  {
    assert WorkerOk(cfg, s, w);
  }

  /** The operation that the worker has come to is issued for its call, on the queue of that call. */
  lemma {:induction false} OperationIssued(cfg: Config, s: Server, w: Worker, id: nat, op: Op)
    requires Safe(cfg, s) && w in s.workers && s.workers[w] == Switched(id, op)
    ensures ProceedOne(s, w).To? && id in s.calls
    ensures var s1 := ProceedOne(s, w).s;
            && s1.workers[w] == Idle
            && s.next !in s.pending && s.next in s1.pending
            && s1.pending[s.next] == Ticket(id, s.calls[id].cq, op)
  {
    assert WorkerOk(cfg, s, w) && TicketOk(s, s.next);
  }

  /** A call is deleted when its finish has come back, for a stream only if ok, and at no other time. */
  lemma {:induction false} DeletedExactly(cfg: Config, s: Server, a: Action, id: nat)
    requires Safe(cfg, s) && Step(cfg, s, a).To? && id in s.calls
    ensures id !in Step(cfg, s, a).s.calls
       <==> a.Proceed? && exists ok :: Has(s, a.w, id, FinishOp, ok) && (IsUnary(s, id) || ok)
  {
    assert CallOk(cfg, s, id) && CallOk(cfg, s, s.next);
    if a.Proceed? {
      assert WorkerOk(cfg, s, a.w);
      if a.w in s.workers && s.workers[a.w].Holding? {
        assert Has(s, a.w, s.workers[a.w].id, s.workers[a.w].op, s.workers[a.w].ok);
      }
    }
  }

  /** A worker comes to finish a stream only from a read or write of it that failed. */
  lemma {:induction false} FinishOnlyAfterFailure(cfg: Config, s: Server, a: Action, w: Worker, id: nat)
    requires Safe(cfg, s) && Step(cfg, s, a).To? && IsStream(s, id)
    requires w in s.workers && w in Step(cfg, s, a).s.workers
    requires s.workers[w] != Switched(id, FinishOp)
    ensures Step(cfg, s, a).s.workers[w] == Switched(id, FinishOp)
       <==> a == Proceed(w) && (Has(s, w, id, ReadOp, false) || Has(s, w, id, WriteOp, false))
  {
    assert WorkerOk(cfg, s, w);
  }

  // ---- a stream whose events are ok ----

  /** No read, write, accept or finish of call `id` that was delivered in the run came back not ok. */
  ghost predicate OkFor(cfg: Config, actions: seq<Action>, id: nat) {
    actions == [] ||
    (var prefix, a := actions[..|actions| - 1], actions[|actions| - 1];
     && OkFor(cfg, prefix, id)
     && (Run(cfg, prefix).To? && a.Deliver? && Awaits(Run(cfg, prefix).s, a.n, id) ==> a.ok))
  }

  /** The stream is not being finished, and no worker has a failure of it in hand. */
  ghost predicate GoesOn(s: Server, id: nat) {
    IsStream(s, id) ==>
      s.calls[id].status != Finish && forall w :: Holds(s, w, id) && s.workers[w].Holding? ==> s.workers[w].ok
  }

  lemma {:induction false} StepGoesOn(cfg: Config, s: Server, a: Action, id: nat)
    requires Safe(cfg, s) && GoesOn(s, id) && Step(cfg, s, a).To?
    requires a.Deliver? && Awaits(s, a.n, id) ==> a.ok
    ensures GoesOn(Step(cfg, s, a).s, id)
    ensures IsStream(s, id) ==> IsStream(Step(cfg, s, a).s, id)
  {
    var s1 := Step(cfg, s, a).s;
    assert CallOk(cfg, s, id);
    if a.Deliver? {
      assert TicketOk(s, a.n);
    }
    if a.Proceed? {
      assert WorkerOk(cfg, s, a.w);
    }
    forall w ensures !Holds(s, w, s.next) {
      assert WorkerOk(cfg, s, w) && CallOk(cfg, s, s.next);
    }
    forall w | Holds(s1, w, id) && s1.workers[w].Holding? && IsStream(s1, id) ensures s1.workers[w].ok {
      assert Holds(s, w, id) || (a.Deliver? && a.w == w && Awaits(s, a.n, id));
    }
  }

  /** A stream none of whose events failed is never finished: in every run it waits for an accept, a read or a write. */
  lemma {:induction false} OkStreamGoesOn(cfg: Config, actions: seq<Action>, id: nat)
    requires Run(cfg, actions).To? && OkFor(cfg, actions, id)
    ensures GoesOn(Run(cfg, actions).s, id)
    ensures forall n :: Awaits(Run(cfg, actions).s, n, id) && IsStream(Run(cfg, actions).s, id) ==>
              Run(cfg, actions).s.pending[n].op != FinishOp
  {
    if actions != [] {
      var prefix := actions[..|actions| - 1];
      OkStreamGoesOn(cfg, prefix, id);
      RunSafe(cfg, prefix);
      StepGoesOn(cfg, Run(cfg, prefix).s, actions[|actions| - 1], id);
    }
    RunSafe(cfg, actions);
    forall n | Awaits(Run(cfg, actions).s, n, id) && IsStream(Run(cfg, actions).s, id)
      ensures Run(cfg, actions).s.pending[n].op != FinishOp
    {
      assert TicketOk(Run(cfg, actions).s, n);
    }
  }

  /** And never deleted: once there it stays. */
  lemma {:induction false} OkStreamStays(cfg: Config, actions: seq<Action>, k: nat, id: nat)
    requires k <= |actions| && Run(cfg, actions).To? && OkFor(cfg, actions, id)
    ensures Run(cfg, actions[..k]).To?
    ensures IsStream(Run(cfg, actions[..k]).s, id) ==> IsStream(Run(cfg, actions).s, id)
    decreases |actions|
  {
    if k == |actions| {
      assert actions[..k] == actions;
    } else {
      var prefix := actions[..|actions| - 1];
      assert prefix[..k] == actions[..k];
      OkStreamStays(cfg, prefix, k, id);
      OkStreamGoesOn(cfg, prefix, id);
      RunSafe(cfg, prefix);
      StepGoesOn(cfg, Run(cfg, prefix).s, actions[|actions| - 1], id);
    }
  }
}
