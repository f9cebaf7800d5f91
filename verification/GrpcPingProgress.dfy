/** The ping server while it serves: which calls can be left without an operation, and how many accepts stay pending. */
module GrpcPingProgress {
  import opened GrpcPing
  import opened GrpcPingSafety

  // ---- no call is left without an operation ----

  ghost predicate Attended(s: Server, id: nat) {
    id in s.calls ==> (exists n :: Awaits(s, n, id)) || (exists w :: Holds(s, w, id))
  }

  ghost predicate AllAttended(s: Server) { forall id :: Attended(s, id) }

  /** A streaming call's accept or finish came back not ok: `SetStreamClosed` does nothing. */
  predicate Strands(s: Server, a: Action) {
    && a.Proceed? && a.w in s.workers && s.workers[a.w].Holding? && !s.workers[a.w].ok
    && (s.workers[a.w].op == AcceptOp || s.workers[a.w].op == FinishOp)
    && s.workers[a.w].id in s.calls && s.calls[s.workers[a.w].id].kind == Streaming
  }

  lemma {:induction false} StepAttends(cfg: Config, s: Server, a: Action)
    requires Safe(cfg, s) && AllAttended(s) && Step(cfg, s, a).To? && !Strands(s, a)
    ensures AllAttended(Step(cfg, s, a).s)
  {
    var s1 := Step(cfg, s, a).s;
    forall id ensures Attended(s1, id) {
      assert Attended(s, id) && CallOk(cfg, s, id);
      if id in s.calls {
        if n :| Awaits(s, n, id) {
          assert TicketOk(s, n);
          if a.Deliver? && a.n == n {
            assert Holds(s1, a.w, id);
          } else {
            assert Awaits(s1, n, id);
          }
        } else {
          var w :| Holds(s, w, id);
          assert WorkerOk(cfg, s, w);
          if a == Proceed(w) && s.workers[w].Switched? {
            assert Awaits(s1, s.next, id);
          } else if id in s1.calls {
            assert Holds(s1, w, id);
          }
        }
      } else if id in s1.calls {
        assert Awaits(s1, s.next + 1, id);
      }
    }
  }

  /** A step leaves a call without any operation exactly when it strands one. */
  lemma {:induction false} StrandsExactly(cfg: Config, s: Server, a: Action)
    requires Safe(cfg, s) && AllAttended(s) && Step(cfg, s, a).To?
    ensures AllAttended(Step(cfg, s, a).s) <==> !Strands(s, a)
  {
    if Strands(s, a) {
      var s1, w0 := Step(cfg, s, a).s, a.w;
      var id := s.workers[w0].id;
      assert WorkerOk(cfg, s, w0) && Exclusive(s, id) && Holds(s, w0, id);
      forall n ensures !Awaits(s1, n, id) {
        assert !(Awaits(s, n, id) && Holds(s, w0, id));
      }
      forall w ensures !Holds(s1, w, id) {
        assert Holds(s, w, id) && Holds(s, w0, id) ==> w == w0;
      }
      assert !Attended(s1, id);
    } else {
      StepAttends(cfg, s, a);
    }
  }

  /** No prefix of the run leaves a live call without operation and worker. */
  ghost predicate AlwaysAttended(cfg: Config, actions: seq<Action>) {
    && (actions == [] || AlwaysAttended(cfg, actions[..|actions| - 1]))
    && (Run(cfg, actions).To? ==> AllAttended(Run(cfg, actions).s))
  }

  ghost predicate NeverStrands(cfg: Config, actions: seq<Action>) {
    actions == [] ||
    (var prefix := actions[..|actions| - 1];
     NeverStrands(cfg, prefix) && (Run(cfg, prefix).To? ==> !Strands(Run(cfg, prefix).s, actions[|actions| - 1])))
  }

  /** A run leaves no call behind at any time exactly when it takes no stranding action. */
  lemma {:induction false} AttendedExactly(cfg: Config, actions: seq<Action>)
    requires Run(cfg, actions).To?
    ensures AlwaysAttended(cfg, actions) <==> NeverStrands(cfg, actions)
  {
    if actions == [] {
      assert forall id :: Attended(Init(cfg), id);
    } else {
      var prefix := actions[..|actions| - 1];
      AttendedExactly(cfg, prefix);
      RunSafe(cfg, prefix);
      if AlwaysAttended(cfg, prefix) {
        StrandsExactly(cfg, Run(cfg, prefix).s, actions[|actions| - 1]);
      }
    }
  }

  /** Before shutdown: accepts and finishes of streaming calls come back ok. */
  predicate Healthy(s: Server, a: Action) {
    (&& a.Deliver? && a.n in s.pending && s.pending[a.n].id in s.calls
     && s.calls[s.pending[a.n].id].kind == Streaming
     && (s.pending[a.n].op == AcceptOp || s.pending[a.n].op == FinishOp))
    ==> a.ok
  }

  ghost predicate HealthyRun(cfg: Config, actions: seq<Action>) {
    actions == [] ||
    (var prefix := actions[..|actions| - 1];
     HealthyRun(cfg, prefix) && (Run(cfg, prefix).To? ==> Healthy(Run(cfg, prefix).s, actions[|actions| - 1])))
  }

  ghost predicate NoneStrands(s: Server) { forall w :: !Strands(s, Proceed(w)) }

  lemma {:induction false} WorkerHealthy(cfg: Config, s: Server, a: Action, w: Worker)
    requires Safe(cfg, s) && !Strands(s, Proceed(w)) && Healthy(s, a) && Step(cfg, s, a).To?
    ensures !Strands(Step(cfg, s, a).s, Proceed(w))
  {
    assert WorkerOk(cfg, s, w);
    if w in s.workers && !s.workers[w].Idle? {
      assert CallOk(cfg, s, s.workers[w].id);
    }
    if a.Deliver? {
      assert TicketOk(s, a.n);
    }
  }

  lemma {:induction false} StepHealthy(cfg: Config, s: Server, a: Action)
    requires Safe(cfg, s) && NoneStrands(s) && Healthy(s, a) && Step(cfg, s, a).To?
    ensures NoneStrands(Step(cfg, s, a).s)
  {
    forall w ensures !Strands(Step(cfg, s, a).s, Proceed(w)) {
      assert !Strands(s, Proceed(w));
      WorkerHealthy(cfg, s, a, w);
    }
  }

  /** In every healthy run each call has exactly one operation outstanding or exactly one worker inside. */
  lemma {:induction false} RunAttended(cfg: Config, actions: seq<Action>)
    requires HealthyRun(cfg, actions) && Run(cfg, actions).To?
    ensures Safe(cfg, Run(cfg, actions).s)
    ensures AllAttended(Run(cfg, actions).s) && NoneStrands(Run(cfg, actions).s)
  {
    RunSafe(cfg, actions);
    if actions != [] {
      var prefix, a := actions[..|actions| - 1], actions[|actions| - 1];
      RunAttended(cfg, prefix);
      assert a.Proceed? ==> !Strands(Run(cfg, prefix).s, Proceed(a.w));
      StepAttends(cfg, Run(cfg, prefix).s, a);
      StepHealthy(cfg, Run(cfg, prefix).s, a);
    }
  }

  // ---- accept capacity ----

  /** A call of this kind on this queue that has not been accepted and replaced. */
  ghost predicate IsOpen(s: Server, cq: nat, kind: Kind, id: nat) {
    && id in s.calls && s.calls[id].cq == cq && s.calls[id].kind == kind && s.calls[id].status == Process
    && forall w :: Holds(s, w, id) ==> !s.workers[w].Spawned?
  }

  ghost function Open(s: Server, cq: nat, kind: Kind): set<nat> {
    set id | id in s.calls && IsOpen(s, cq, kind, id)
  }

  /** How many calls of this kind start-up has created on this queue. */
  function Created(cfg: Config, at: Startup, cq: nat, kind: Kind): nat {
    if cq < at.queue then cfg.callbacksPerQueue
    else if cq == at.queue then at.callback + (if kind == Unary && at.kind == Streaming then 1 else 0)
    else 0
  }

  ghost predicate OpenCount(cfg: Config, s: Server) {
    && s.startup.callback <= cfg.callbacksPerQueue
    && (s.startup.kind == Streaming ==> s.startup.callback < cfg.callbacksPerQueue)
    && forall cq: nat, kind: Kind :: |Open(s, cq, kind)| == Created(cfg, s.startup, cq, kind)
  }

  /** One call replaces another among the open ones. */
  lemma {:induction false} Replaced(a: set<nat>, b: set<nat>, gone: nat, new_: nat)
    requires gone in a && new_ !in a && b == a - {gone} + {new_}
    ensures |b| == |a|
  {
    assert |a - {gone}| == |a| - 1;
  }

  lemma {:induction false} CreatedIsOpen(cfg: Config, s: Server, kind0: Kind, cq0: nat, cq: nat, kind: Kind)
    requires Safe(cfg, s)
    ensures s.next !in Open(s, cq, kind)
    ensures Open(Create(s, kind0, cq0), cq, kind)
         == Open(s, cq, kind) + if cq == cq0 && kind == kind0 then {s.next} else {}
  {
    var s1 := Create(s, kind0, cq0);
    assert CallOk(cfg, s, s.next);
    forall id ensures IsOpen(s1, cq, kind, id)
                <==> IsOpen(s, cq, kind, id) || (id == s.next && cq == cq0 && kind == kind0)
    {
      assert forall w :: Holds(s1, w, id) <==> Holds(s, w, id);
      forall w ensures !Holds(s, w, s.next) {
        assert WorkerOk(cfg, s, w);
      }
    }
  }

  /** The worker that creates a successor closes its own call and opens another. */
  lemma {:induction false} SpawnOpen(cfg: Config, s: Server, w0: Worker, cq: nat, kind: Kind)
    requires Safe(cfg, s) && w0 in s.workers && s.workers[w0].Holding?
    requires s.workers[w0].id in s.calls && s.calls[s.workers[w0].id].status == Process
    ensures var c := s.calls[s.workers[w0].id];
            |Open(At(Create(s, c.kind, c.cq), w0, Spawned(s.workers[w0].id)), cq, kind)| == |Open(s, cq, kind)|
  {
    var id0 := s.workers[w0].id;
    var c := s.calls[id0];
    var mid := Create(s, c.kind, c.cq);
    var s1 := At(mid, w0, Spawned(id0));
    assert Exclusive(s, id0) && Holds(s, w0, id0) && CallOk(cfg, s, id0);
    CreatedIsOpen(cfg, s, c.kind, c.cq, cq, kind);
    forall id ensures IsOpen(s1, cq, kind, id) <==> IsOpen(mid, cq, kind, id) && id != id0 {
      assert forall w :: Holds(s1, w, id) <==> Holds(mid, w, id);
      assert Holds(s1, w0, id0);
    }
    assert Open(s1, cq, kind) == Open(mid, cq, kind) - {id0};
    if cq == c.cq && kind == c.kind {
      forall w | Holds(s, w, id0) ensures !s.workers[w].Spawned? {
        assert w == w0;
      }
      Replaced(Open(s, cq, kind), Open(s1, cq, kind), id0, s.next);
    }
  }

  /** Going on inside a call closes it only where its successor is created. */
  lemma {:induction false} ProceedOpen(cfg: Config, s: Server, w0: Worker, cq: nat, kind: Kind)
    requires Safe(cfg, s) && ProceedOne(s, w0).To?
    ensures |Open(ProceedOne(s, w0).s, cq, kind)| == |Open(s, cq, kind)|
  {
    var s1 := ProceedOne(s, w0).s;
    var id0 := s.workers[w0].id;
    assert WorkerOk(cfg, s, w0) && Exclusive(s, id0) && Holds(s, w0, id0);
    var c := s.calls[id0];
    if s.workers[w0].Holding? && c.status == Process && !(c.kind == Streaming && !s.workers[w0].ok) {
      SpawnOpen(cfg, s, w0, cq, kind);
    } else {
      forall id ensures IsOpen(s1, cq, kind, id) <==> IsOpen(s, cq, kind, id) {
        assert forall w :: w != w0 ==> (Holds(s1, w, id) <==> Holds(s, w, id));
        assert Holds(s1, w0, id) ==> Holds(s, w0, id);
      }
      assert Open(s1, cq, kind) == Open(s, cq, kind);
    }
  }

  lemma {:induction false} StartOpen(cfg: Config, s: Server, cq: nat, kind: Kind)
    requires Safe(cfg, s) && StartOne(cfg, s).To?
    ensures |Open(StartOne(cfg, s).s, cq, kind)| == |Open(s, cq, kind)|
              + if s.startup.queue == cq && s.startup.kind == kind then 1 else 0
  {
    var s1, mid := StartOne(cfg, s).s, Create(s, s.startup.kind, s.startup.queue);
    CreatedIsOpen(cfg, s, s.startup.kind, s.startup.queue, cq, kind);
    forall id ensures IsOpen(s1, cq, kind, id) <==> IsOpen(mid, cq, kind, id) {
      assert forall w :: Holds(s1, w, id) <==> Holds(mid, w, id);
    }
    assert Open(s1, cq, kind) == Open(mid, cq, kind);
  }

  lemma {:induction false} DeliverOpen(cfg: Config, s: Server, w0: Worker, n: nat, ok: bool, cq: nat, kind: Kind)
    requires Safe(cfg, s) && DeliverOne(s, w0, n, ok).To?
    ensures Open(DeliverOne(s, w0, n, ok).s, cq, kind) == Open(s, cq, kind)
  {
    var s1 := DeliverOne(s, w0, n, ok).s;
    assert WorkerOk(cfg, s, w0);
    forall id ensures IsOpen(s1, cq, kind, id) <==> IsOpen(s, cq, kind, id) {
      assert forall w :: w != w0 ==> (Holds(s1, w, id) <==> Holds(s, w, id));
    }
  }

  lemma {:induction false} StepOpen(cfg: Config, s: Server, a: Action, cq: nat, kind: Kind)
    requires Safe(cfg, s) && Step(cfg, s, a).To?
    ensures |Open(Step(cfg, s, a).s, cq, kind)| == |Open(s, cq, kind)|
              + if a == Start && s.startup.queue == cq && s.startup.kind == kind then 1 else 0
  {
    match a
    case Start => StartOpen(cfg, s, cq, kind);
    case Deliver(w0, n, ok) => DeliverOpen(cfg, s, w0, n, ok, cq, kind);
    case Proceed(w0) => ProceedOpen(cfg, s, w0, cq, kind);
  }

  lemma {:induction false} RunOpen(cfg: Config, actions: seq<Action>)
    requires Run(cfg, actions).To?
    ensures OpenCount(cfg, Run(cfg, actions).s)
  {
    RunSafe(cfg, actions);
    var s1 := Run(cfg, actions).s;
    if actions == [] {
      assert forall cq: nat, kind: Kind :: Open(s1, cq, kind) == {};
    } else {
      var prefix, a := actions[..|actions| - 1], actions[|actions| - 1];
      RunOpen(cfg, prefix);
      RunSafe(cfg, prefix);
      var s := Run(cfg, prefix).s;
      forall cq: nat, kind: Kind ensures |Open(s1, cq, kind)| == Created(cfg, s1.startup, cq, kind) {
        StepOpen(cfg, s, a, cq, kind);
      }
    }
  }

  /** The calls of this kind with an accept pending on this queue. */
  ghost function Accepting(s: Server, cq: nat, kind: Kind): set<nat> {
    set id | id in s.calls && s.calls[id].cq == cq && s.calls[id].kind == kind
             && exists n :: Awaits(s, n, id) && s.pending[n].op == AcceptOp
  }

  /** The calls that the first `m` workers of a queue are inside. */
  ghost function Held(s: Server, cq: nat, m: nat): (r: set<nat>)
    ensures |r| <= m
    ensures forall i: nat, id :: i < m && Holds(s, Worker(cq, i), id) ==> id in r
  {
    if m == 0 then {}
    else
      var w := Worker(cq, m - 1);
      var rest := Held(s, cq, m - 1);
      if w in s.workers && !s.workers[w].Idle? then rest + {s.workers[w].id} else rest
  }

  /** An open call is waiting for its accept or a worker of its queue is inside it. */
  lemma {:induction false} OpenOrHeld(cfg: Config, s: Server, cq: nat, kind: Kind)
    requires Safe(cfg, s) && AllAttended(s)
    ensures Accepting(s, cq, kind) <= Open(s, cq, kind)
    ensures Open(s, cq, kind) - Accepting(s, cq, kind) <= Held(s, cq, cfg.workersPerQueue)
    ensures forall id :: id in Open(s, cq, kind) - Accepting(s, cq, kind) ==>
              exists w: Worker :: w.queue == cq && Holds(s, w, id)
  {
    var open, accepting, held := Open(s, cq, kind), Accepting(s, cq, kind), Held(s, cq, cfg.workersPerQueue);
    forall id | id in accepting ensures id in open {
      var n :| Awaits(s, n, id) && s.pending[n].op == AcceptOp;
      assert TicketOk(s, n) && Exclusive(s, id);
    }
    forall id | id in open - accepting ensures id in held && exists w: Worker :: w.queue == cq && Holds(s, w, id) {
      assert Attended(s, id);
      forall n ensures !Awaits(s, n, id) {
        assert TicketOk(s, n);
      }
      var w :| Holds(s, w, id);
      assert WorkerOk(cfg, s, w);
      assert w == Worker(cq, w.slot);
    }
  }

  /** In a healthy run each queue keeps, of each kind, a pending accept for all but the calls its workers are inside. */
  lemma {:induction false} AcceptCapacity(cfg: Config, actions: seq<Action>, cq: nat, kind: Kind)
    requires HealthyRun(cfg, actions) && Run(cfg, actions).To?
    ensures var s := Run(cfg, actions).s;
            var created := Created(cfg, s.startup, cq, kind);
            && created - cfg.workersPerQueue <= |Accepting(s, cq, kind)| <= created
            && ((forall w :: w in s.workers && w.queue == cq ==> s.workers[w] == Idle) ==>
                  |Accepting(s, cq, kind)| == created)
  {
    RunAttended(cfg, actions);
    RunOpen(cfg, actions);
    var s := Run(cfg, actions).s;
    var open, accepting := Open(s, cq, kind), Accepting(s, cq, kind);
    OpenOrHeld(cfg, s, cq, kind);
    Subset(open - accepting, Held(s, cq, cfg.workersPerQueue));
    assert open == accepting + (open - accepting);
    if forall w :: w in s.workers && w.queue == cq ==> s.workers[w] == Idle {
      assert open - accepting == {};
    }
  }

  lemma {:induction false} Subset(a: set<nat>, b: set<nat>)
    requires a <= b
    ensures |a| <= |b|
  {
    assert b == a + (b - a);
  }

  /** Once start-up is over every queue has created as many calls of each kind as configured. */
  lemma {:induction false} AfterStartup(cfg: Config, actions: seq<Action>, cq: nat, kind: Kind)
    requires Run(cfg, actions).To? && Step(cfg, Run(cfg, actions).s, Start) == Disabled
    requires cq < cfg.queues
    ensures Created(cfg, Run(cfg, actions).s.startup, cq, kind) == cfg.callbacksPerQueue
  {
    StartupInRange(cfg, actions);
  }

  lemma {:induction false} StartupInRange(cfg: Config, actions: seq<Action>)
    requires Run(cfg, actions).To?
    ensures var at := Run(cfg, actions).s.startup;
            if cfg.callbacksPerQueue == 0 then at == Startup(0, 0, Unary)
            else at.callback < cfg.callbacksPerQueue
                 && (at.queue < cfg.queues || at == Startup(cfg.queues, 0, Unary))
  {
    if actions != [] {
      StartupInRange(cfg, actions[..|actions| - 1]);
    }
  }

  /** The hypothesis is needed: with one worker, a streaming accept that comes back not ok loses its call. */
  lemma {:induction false} RejectedAcceptIsLost()
    ensures var cfg := Config(1, 1, 1);
            var actions := [Start] + [Start] + [Deliver(Worker(0, 0), 3, false)] + [Proceed(Worker(0, 0))];
            && Run(cfg, actions).To?
            && 2 in Run(cfg, actions).s.calls
            && !Attended(Run(cfg, actions).s, 2)
  {
    var cfg, w := Config(1, 1, 1), Worker(0, 0);
    RunOneMore(cfg, [], Start);
    assert [] + [Start] == [Start];
    RunOneMore(cfg, [Start], Start);
    RunOneMore(cfg, [Start] + [Start], Deliver(w, 3, false));
    var before := [Start] + [Start] + [Deliver(w, 3, false)];
    RunOneMore(cfg, before, Proceed(w));
    assert IsWorker(cfg, w);
    var s := Run(cfg, before).s;
    assert Strands(s, Proceed(w));
    forall w1 ensures !Holds(Run(cfg, before + [Proceed(w)]).s, w1, 2) {
      assert w1 in s.workers ==> w1 == w;
    }
  }
}
