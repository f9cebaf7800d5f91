/** The ping server's objects: call data whose status changes in place, the operations they issue, the worker
    loop and the start-up loops. Each method is tied to the steps of `GrpcPing`. */
module GrpcPingCalls {
  import opened GrpcPing
  import opened GrpcPingSafety
  import opened GrpcPingProgress
  import opened GrpcPingProtocol

  // ---- one worker, uninterrupted ----

  function Rank(p: Phase): nat {
    match p
    case Idle => 0
    case Switched(_, _) => 1
    case Spawned(_) => 2
    case Holding(_, _, _) => 3
  }

  /** The worker goes on until it waits in `Next` again. */
  ghost function Serve(s: Server, w: Worker): Result
    decreases if w in s.workers then Rank(s.workers[w]) else 0
  {
    match ProceedOne(s, w)
    case To(s1) => if s1.workers[w] == Idle then To(s1) else Serve(s1, w)
    case other => other
  }

  /** The worker serves these events, each to its end. */
  ghost function ServeAll(s: Server, w: Worker, events: seq<(nat, bool)>): Result {
    if events == [] then To(s)
    else match ServeAll(s, w, events[..|events| - 1])
      case To(s1) =>
        (match DeliverOne(s1, w, events[|events| - 1].0, events[|events| - 1].1)
         case To(s2) => Serve(s2, w)
         case other => other)
      case other => other
  }

  lemma {:induction false} ServeOneMore(s: Server, w: Worker, events: seq<(nat, bool)>, n: nat, ok: bool)
    requires ServeAll(s, w, events).To? && DeliverOne(ServeAll(s, w, events).s, w, n, ok).To?
    ensures ServeAll(s, w, events + [(n, ok)]) == Serve(DeliverOne(ServeAll(s, w, events).s, w, n, ok).s, w)
  {
    assert (events + [(n, ok)])[..|events|] == events;
  }

  ghost predicate Reached(cfg: Config, s: Server) {
    exists actions :: Run(cfg, actions) == To(s)
  }

  lemma {:induction false} ReachedSafe(cfg: Config, s: Server)
    requires Reached(cfg, s)
    ensures Safe(cfg, s)
  {
    var actions :| Run(cfg, actions) == To(s);
    RunSafe(cfg, actions);
  }

  lemma {:induction false} ReachedStep(cfg: Config, s: Server, a: Action)
    requires Reached(cfg, s) && Step(cfg, s, a).To?
    ensures Reached(cfg, Step(cfg, s, a).s)
  {
    var actions :| Run(cfg, actions) == To(s);
    RunOneMore(cfg, actions, a);
    assert Run(cfg, actions + [a]) == To(Step(cfg, s, a).s);
  }

  lemma {:induction false} OthersStay(s: Server, w: Worker)
    requires ProceedOne(s, w).To?
    ensures w in s.workers && w in ProceedOne(s, w).s.workers
    ensures Rank(ProceedOne(s, w).s.workers[w]) < Rank(s.workers[w])
    ensures ProceedOne(s, w).s.workers == s.workers[w := ProceedOne(s, w).s.workers[w]]
  {
  }

  lemma {:induction false} ReachedProceeds(cfg: Config, s: Server, w: Worker)
    requires Reached(cfg, s) && w in s.workers && s.workers[w] != Idle
    ensures ProceedOne(s, w).To? && Reached(cfg, ProceedOne(s, w).s)
  {
    ReachedSafe(cfg, s);
    StepSafe(cfg, s, Proceed(w));
    assert Step(cfg, s, Proceed(w)) == ProceedOne(s, w) != Disabled;
    ReachedStep(cfg, s, Proceed(w));
  }

  lemma {:induction false} ServeFirst(s: Server, w: Worker)
    requires ProceedOne(s, w).To?
    ensures w in ProceedOne(s, w).s.workers
    ensures Serve(s, w)
         == if ProceedOne(s, w).s.workers[w] == Idle then ProceedOne(s, w) else Serve(ProceedOne(s, w).s, w)
  {
  }

  /** What one worker does without interruption is a run of the steps, and it ends. */
  lemma {:induction false} ReachedServe(cfg: Config, s: Server, w: Worker)
    requires Reached(cfg, s) && w in s.workers && s.workers[w] != Idle
    ensures Serve(s, w).To? && Reached(cfg, Serve(s, w).s) && Serve(s, w).s.workers == s.workers[w := Idle]
    decreases Rank(s.workers[w])
  {
    ReachedProceeds(cfg, s, w);
    OthersStay(s, w);
    ServeFirst(s, w);
    var s1 := ProceedOne(s, w).s;
    if s1.workers[w] != Idle {
      ReachedServe(cfg, s1, w);
    }
  }

  /** Start-up alone. */
  ghost function Starts(k: nat): seq<Action> {
    if k == 0 then [] else Starts(k - 1) + [Start]
  }

  lemma {:induction false} StartsOneMore(cfg: Config, k: nat, s: Server)
    requires Run(cfg, Starts(k)) == To(s) && StartOne(cfg, s).To?
    ensures Run(cfg, Starts(k + 1)) == StartOne(cfg, s)
  {
    RunOneMore(cfg, Starts(k), Start);
  }

  lemma {:induction false} StartsStay(cfg: Config, k: nat)
    requires Run(cfg, Starts(k)).To?
    ensures HealthyRun(cfg, Starts(k)) && Run(cfg, Starts(k)).s.workers == Init(cfg).workers
  {
    if k > 0 {
      assert Starts(k)[..k - 1] == Starts(k - 1) by {
        StartsLength(k - 1);
      }
      StartsLength(k - 1);
      StartsStay(cfg, k - 1);
    }
  }

  lemma {:induction false} StartsLength(k: nat)
    ensures |Starts(k)| == k
  {
    if k > 0 {
      StartsLength(k - 1);
    }
  }

  /** When start-up is over each queue waits for as many calls of each kind as configured. */
  lemma {:induction false} StartedUp(cfg: Config, k: nat, s: Server, cq: nat, kind: Kind)
    requires Run(cfg, Starts(k)) == To(s) && StartOne(cfg, s) == Disabled && cq < cfg.queues
    ensures |Accepting(s, cq, kind)| == cfg.callbacksPerQueue
  {
    StartsStay(cfg, k);
    AcceptCapacity(cfg, Starts(k), cq, kind);
    AfterStartup(cfg, Starts(k), cq, kind);
    assert forall w :: w in s.workers && w.queue == cq ==> s.workers[w] == Idle;
  }

  /** The worker sets the next status and issues the next operation. */
  ghost function Passed(s: Server, w: Worker, id: nat, status: Status, op: Op): Server
    requires w in s.workers && id in s.calls
  {
    Issue(Switch(s, w, id, status, op), w, id, op)
  }

  lemma {:induction false} ServePassed(s: Server, w: Worker, id: nat, status: Status, op: Op)
    requires w in s.workers && id in s.calls && ProceedOne(s, w) == To(Switch(s, w, id, status, op))
    ensures Serve(s, w) == To(Passed(s, w, id, status, op))
  {
    ServeFirst(s, w);
    var s1 := Switch(s, w, id, status, op);
    assert ProceedOne(s1, w) == To(Issue(s1, w, id, op));
    ServeFirst(s1, w);
  }

  /** A worker that took a read or write of a stream answers it before it is back in the queue: a read that came back ok
      by a write, a write by a read, a failure by the finish of the stream. Nothing else changes on the queues. */
  lemma {:induction false} StreamAnswered(cfg: Config, s: Server, w: Worker, id: nat, op: Op, ok: bool)
    requires Safe(cfg, s) && Has(s, w, id, op, ok) && (op == ReadOp || op == WriteOp)
    ensures Serve(s, w).To?
    ensures var next := if !ok then FinishOp else if op == ReadOp then WriteOp else ReadOp;
            Serve(s, w).s.pending == s.pending[s.next := Ticket(id, s.calls[id].cq, next)]
  {
    assert WorkerOk(cfg, s, w) && CallOk(cfg, s, id);
    if !ok {
      ServePassed(s, w, id, Finish, FinishOp);
    } else if op == ReadOp {
      ServePassed(s, w, id, Read, WriteOp);
    } else {
      ServePassed(s, w, id, Write, ReadOp);
    }
  }

  /** An accepted call is replaced before it goes on. */
  lemma {:induction false} ServeAccepted(s: Server, w: Worker, id: nat)
    requires w in s.workers && s.workers[w].Holding? && s.workers[w].id == id
    requires id in s.calls && id < s.next && s.calls[id].status == Process
    requires s.calls[id].kind == Unary || s.workers[w].ok
    ensures var s1 := At(Create(s, s.calls[id].kind, s.calls[id].cq), w, Spawned(id));
            && id in s1.calls && w in s1.workers
            && Serve(s, w) == To(if s.calls[id].kind == Unary then Passed(s1, w, id, Finish, FinishOp)
                                 else Passed(s1, w, id, Write, ReadOp))
  {
    ServeFirst(s, w);
    var c := s.calls[id];
    var s1 := At(Create(s, c.kind, c.cq), w, Spawned(id));
    if c.kind == Unary {
      ServePassed(s1, w, id, Finish, FinishOp);
    } else {
      ServePassed(s1, w, id, Write, ReadOp);
    }
  }

  // ---- the objects ----

  datatype CallStatus = CallCreate | CallProcess | CallFinish {
    function Shown(): Status { if CallFinish? then Finish else Process }
  }

  datatype StreamStatus = StreamCreate | StreamProcess | StreamRead | StreamWrite | StreamFinish {
    function Shown(): Status {
      match this
      case StreamCreate => Process
      case StreamProcess => Process
      case StreamRead => Read
      case StreamWrite => Write
      case StreamFinish => Finish
    }
  }

  /** A tag: either kind of call data. */
  datatype Callback = UnaryCall(unary: CallData) | StreamCall(stream: StreamCallData) {
    function Object(): object { if UnaryCall? then unary else stream }

    /** The object is constructed and shows what the step system says of its call. */
    ghost predicate Agrees(id: nat, c: Call)
      reads Object()
    {
      match this
      case UnaryCall(u) =>
        u.id == id && u.cq == c.cq && c.kind == Unary && u.status != CallCreate && u.status.Shown() == c.status
      case StreamCall(x) =>
        x.id == id && x.cq == c.cq && c.kind == Streaming && x.status != StreamCreate && x.status.Shown() == c.status
    }
  }

  class CallData {
    const id: nat
    const cq: nat
    var status: CallStatus

    constructor (server: PingServer, cq: nat)
      requires server.Valid()
      modifies server
      ensures server.Valid()
      ensures server.calls == old(server.calls)[old(server.next) := UnaryCall(this)]
      ensures server.objects == old(server.objects) + {this}
      ensures server.State() == Create(old(server.State()), Unary, cq)
      decreases 1
    {
      this.id := server.next;
      this.cq := cq;
      status := CallCreate;
      new;
      Proceed(server, Worker(0, 0));
    }

    method Proceed(server: PingServer, ghost w: Worker)
      requires server.Valid()
      requires if status == CallCreate then id == server.next && this !in server.objects
               else server.Inside(id, UnaryCall(this), w)
      modifies this, server
      ensures server.Valid()
      ensures old(status) == CallCreate ==>
                && server.calls == old(server.calls)[id := UnaryCall(this)]
                && server.objects == old(server.objects) + {this}
                && server.State() == Create(old(server.State()), Unary, cq)
      ensures old(status) != CallCreate ==> Serve(old(server.State()), w) == To(server.State())
      ensures fresh(server.objects - old(server.objects) - {this})
      decreases if status == CallCreate then 0 else 2
    {
      assert server.Live(id);
      match status {
        case CallCreate =>
          status := CallProcess;
          server.RequestAccept(UnaryCall(this), id, Unary, cq);
        case CallProcess =>
          ServeAccepted(server.State(), w, id);
          var successor := new CallData(server, cq);
          server.Move(w, Spawned(id));
          Reply(server, w);
        case CallFinish =>
          server.DeleteCall(w, id);
      }
    }

    method Reply(server: PingServer, ghost w: Worker)
      requires server.Valid() && w in server.workers && id in server.calls && server.calls[id] == UnaryCall(this)
      modifies this, server
      ensures server.Valid() && server.objects == old(server.objects) && server.calls == old(server.calls)
      ensures server.State() == Passed(old(server.State()), w, id, Finish, FinishOp)
    {
      assert server.Live(id);
      status := CallFinish;
      forall x ensures x == id || server.Live(x) {
        assert old(server.Live(x)) && old(server.Live(id));
      }
      server.SetStatus(w, id, Finish, FinishOp);
      server.IssueOp(w, id, cq, FinishOp);
    }
  }

  class StreamCallData {
    const id: nat
    const cq: nat
    var status: StreamStatus

    constructor (server: PingServer, cq: nat)
      requires server.Valid()
      modifies server
      ensures server.Valid()
      ensures server.calls == old(server.calls)[old(server.next) := StreamCall(this)]
      ensures server.objects == old(server.objects) + {this}
      ensures server.State() == Create(old(server.State()), Streaming, cq)
      decreases 1
    {
      this.id := server.next;
      this.cq := cq;
      status := StreamCreate;
      new;
      Proceed(server, Worker(0, 0));
    }

    method Proceed(server: PingServer, ghost w: Worker)
      requires server.Valid()
      requires if status == StreamCreate then id == server.next && this !in server.objects
               else server.Inside(id, StreamCall(this), w) && server.workers[w].ok
      modifies this, server
      ensures server.Valid()
      ensures old(status) == StreamCreate ==>
                && server.calls == old(server.calls)[id := StreamCall(this)]
                && server.objects == old(server.objects) + {this}
                && server.State() == Create(old(server.State()), Streaming, cq)
      ensures old(status) != StreamCreate ==> Serve(old(server.State()), w) == To(server.State())
      ensures fresh(server.objects - old(server.objects) - {this})
      decreases if status == StreamCreate then 0 else 3
    {
      assert server.Live(id);
      match status {
        case StreamCreate =>
          status := StreamProcess;
          server.RequestAccept(StreamCall(this), id, Streaming, cq);
        case StreamProcess =>
          ServeAccepted(server.State(), w, id);
          Replace(server, w);
          GoOn(server, w, StreamWrite, ReadOp);
        case StreamRead =>
          ServePassed(server.State(), w, id, Write, ReadOp);
          GoOn(server, w, StreamWrite, ReadOp);
        case StreamWrite =>
          ServePassed(server.State(), w, id, Read, WriteOp);
          GoOn(server, w, StreamRead, WriteOp);
        case StreamFinish =>
          server.DeleteCall(w, id);
      }
    }

    /** A new call takes the place of this one. */
    method Replace(server: PingServer, ghost w: Worker)
      requires server.Valid() && server.Inside(id, StreamCall(this), w)
      modifies server
      ensures server.Valid() && id in server.calls && server.calls[id] == StreamCall(this)
      ensures server.State() == At(Create(old(server.State()), Streaming, cq), w, Spawned(id))
      ensures fresh(server.objects - old(server.objects))
      decreases 2
    {
      assert server.Live(id);
      var successor := new StreamCallData(server, cq);
      server.Move(w, Spawned(id));
    }

    /** Set the next status and issue the next operation. */
    method GoOn(server: PingServer, ghost w: Worker, to: StreamStatus, op: Op)
      requires server.Valid() && w in server.workers && id in server.calls && server.calls[id] == StreamCall(this)
      requires to != StreamCreate
      modifies this, server
      ensures server.Valid() && server.objects == old(server.objects) && server.calls == old(server.calls)
      ensures server.State() == Passed(old(server.State()), w, id, to.Shown(), op)
    {
      assert server.Live(id);
      status := to;
      forall x ensures x == id || server.Live(x) {
        assert old(server.Live(x)) && old(server.Live(id));
      }
      server.SetStatus(w, id, to.Shown(), op);
      server.IssueOp(w, id, cq, op);
    }

    /** Only a stream that is reading or writing is finished. */
    method SetStreamClosed(server: PingServer, ghost w: Worker)
      requires server.Valid() && server.Inside(id, StreamCall(this), w) && !server.workers[w].ok
      modifies this, server
      ensures server.Valid() && server.objects == old(server.objects) && server.calls == old(server.calls)
      ensures Serve(old(server.State()), w) == To(server.State())
    {
      assert server.Live(id);
      if status == StreamRead || status == StreamWrite {
        ServePassed(server.State(), w, id, Finish, FinishOp);
        GoOn(server, w, StreamFinish, FinishOp);
      } else {
        server.Move(w, Idle);
      }
    }
  }

  /** The live call data and the operations pending on the queues; where the workers are is ghost. */
  class PingServer {
    const cfg: Config
    var calls: map<nat, Callback>
    var pending: map<nat, Ticket>
    var next: nat
    /** All call data ever constructed. */
    ghost var objects: set<object>
    ghost var view: map<nat, Call>
    ghost var workers: map<Worker, Phase>
    ghost var startup: Startup

    ghost function State(): Server
      reads this
    {
      Server(view, pending, workers, startup, next)
    }

    ghost predicate Live(id: nat)
      reads this, objects
    {
      id in calls ==>
        id in view && id < next && calls[id].Object() in objects && calls[id].Agrees(id, view[id])
    }

    ghost predicate Valid()
      reads this, objects
    {
      view.Keys == calls.Keys && forall id :: Live(id)
    }

    /** The worker is inside this live call, with the event it took. */
    ghost predicate Inside(id: nat, c: Callback, w: Worker)
      reads this
    {
      id in calls && calls[id] == c && w in workers && workers[w].Holding? && workers[w].id == id
    }

    constructor (cfg: Config)
      ensures Valid() && this.cfg == cfg && State() == Init(cfg) && calls == map[]
    {
      this.cfg := cfg;
      calls, pending, next := map[], map[], 0;
      objects := {};
      view, workers, startup := map[], Init(cfg).workers, Startup(0, 0, Unary);
    }

    // ---- start-up ----

    /** A unary and a streaming call for each queue and each callback. */
    method StartUp()
      requires Valid() && State() == Init(cfg)
      modifies this
      ensures Valid() && Reached(cfg, State()) && StartOne(cfg, State()) == Disabled
      ensures forall cq: nat, kind: Kind :: cq < cfg.queues ==>
                |Accepting(State(), cq, kind)| == cfg.callbacksPerQueue
    {
      var i := 0;
      ghost var k := 0;
      while i < cfg.queues
        invariant 0 <= i <= cfg.queues
        invariant Valid() && Run(cfg, Starts(k)) == To(State())
        invariant startup == Startup(if cfg.callbacksPerQueue == 0 then 0 else i, 0, Unary)
      {
        k := StartQueue(i, k);
        i := i + 1;
      }
      forall cq: nat, kind: Kind | cq < cfg.queues ensures |Accepting(State(), cq, kind)| == cfg.callbacksPerQueue {
        StartedUp(cfg, k, State(), cq, kind);
      }
    }

    /** The inner loop. */
    method StartQueue(cq: nat, ghost k0: nat) returns (ghost k: nat)
      requires Valid() && Run(cfg, Starts(k0)) == To(State()) && cq < cfg.queues
      requires startup == Startup(if cfg.callbacksPerQueue == 0 then 0 else cq, 0, Unary)
      modifies this
      ensures Valid() && Run(cfg, Starts(k)) == To(State())
      ensures startup == Startup(if cfg.callbacksPerQueue == 0 then 0 else cq + 1, 0, Unary)
    {
      k := k0;
      var j := 0;
      while j < cfg.callbacksPerQueue
        invariant 0 <= j <= cfg.callbacksPerQueue
        invariant Valid() && Run(cfg, Starts(k)) == To(State())
        invariant startup == if cfg.callbacksPerQueue == 0 then Startup(0, 0, Unary)
                             else if j < cfg.callbacksPerQueue then Startup(cq, j, Unary)
                             else Startup(cq + 1, 0, Unary)
      {
        StartPair(cq, k);
        k := k + 2;
        j := j + 1;
      }
    }

    /** The body of the inner loop. */
    method StartPair(cq: nat, ghost k: nat)
      requires Valid() && Run(cfg, Starts(k)) == To(State())
      requires startup.queue == cq < cfg.queues && startup.callback < cfg.callbacksPerQueue && startup.kind == Unary
      modifies this
      ensures Valid() && Run(cfg, Starts(k + 2)) == To(State())
      ensures startup == old(startup).Advance(cfg.callbacksPerQueue).Advance(cfg.callbacksPerQueue)
    {
      StartsOneMore(cfg, k, State());
      var unary := new CallData(this, cq);
      Advance();
      StartsOneMore(cfg, k + 1, State());
      var stream := new StreamCallData(this, cq);
      Advance();
    }

    ghost method Advance()
      requires Valid()
      modifies this`startup
      ensures Valid() && startup == old(startup).Advance(cfg.callbacksPerQueue)
    {
      startup := startup.Advance(cfg.callbacksPerQueue);
      forall x ensures Live(x) {
        assert old(Live(x));
      }
    }

    // ---- what call data asks of its queue ----

    method RequestAccept(c: Callback, id: nat, kind: Kind, cq: nat)
      requires Valid() && id == next && c.Agrees(id, Call(kind, cq, Process, 0, 0))
      modifies this
      ensures Valid() && calls == old(calls)[id := c] && objects == old(objects) + {c.Object()}
      ensures State() == Create(old(State()), kind, cq)
    {
      calls := calls[id := c];
      objects := objects + {c.Object()};
      view := view[id := Call(kind, cq, Process, 0, 0)];
      pending := pending[id + 1 := Ticket(id, cq, AcceptOp)];
      next := next + 2;
      forall x ensures Live(x) {
        assert old(Live(x));
      }
    }

    method IssueOp(ghost w: Worker, id: nat, cq: nat, op: Op)
      requires Valid() && w in workers && id in calls && view[id].cq == cq
      modifies this
      ensures Valid() && objects == old(objects) && calls == old(calls) && State() == Issue(old(State()), w, id, op)
    {
      pending := pending[next := Ticket(id, cq, op)];
      next := next + 1;
      view := Issue(old(State()), w, id, op).calls;
      workers := workers[w := Idle];
      forall x ensures Live(x) {
        assert old(Live(x));
      }
    }

    method DeleteCall(ghost w: Worker, id: nat)
      requires Valid() && w in workers
      modifies this
      ensures Valid() && objects == old(objects) && calls == old(calls) - {id} && State() == Delete(old(State()), w, id)
    {
      calls := calls - {id};
      view := view - {id};
      workers := workers[w := Idle];
      forall x ensures Live(x) {
        assert old(Live(x));
      }
    }

    ghost method Move(w: Worker, phase: Phase)
      requires Valid() && w in workers
      modifies this
      ensures Valid() && objects == old(objects) && calls == old(calls) && State() == At(old(State()), w, phase)
    {
      workers := workers[w := phase];
      forall x ensures Live(x) {
        assert old(Live(x));
      }
    }

    /** The object has been given its next status. */
    ghost method SetStatus(w: Worker, id: nat, status: Status, op: Op)
      requires view.Keys == calls.Keys && w in workers && id in calls && id < next
      requires calls[id].Object() in objects && calls[id].Agrees(id, view[id].(status := status))
      requires forall x :: x == id || Live(x)
      modifies this
      ensures Valid() && objects == old(objects) && calls == old(calls)
      ensures State() == Switch(old(State()), w, id, status, op)
    {
      view := view[id := view[id].(status := status)];
      workers := workers[w := Switched(id, op)];
      forall x ensures Live(x) {
        assert x == id || old(Live(x));
      }
    }

    // ---- the worker loop ----

    /** `Next` has returned operation `n` with `ok`; the worker runs its call data until it is back in `Next`. */
    method HandleEvent(ghost w: Worker, n: nat, ok: bool)
      requires Valid() && Reached(cfg, State()) && DeliverOne(State(), w, n, ok).To?
      modifies this, objects
      ensures Valid() && Reached(cfg, State())
      ensures fresh(objects - old(objects)) && workers == old(workers)
      ensures Serve(DeliverOne(old(State()), w, n, ok).s, w) == To(State())
    {
      TicketLive(n);
      var tag := pending[n].id;
      ReachedStep(cfg, State(), Deliver(w, n, ok));
      Take(w, n, ok);
      ReachedServe(cfg, State(), w);
      RunTag(tag, ok, w);
    }

    lemma {:induction false} TicketLive(n: nat)
      requires Valid() && Reached(cfg, State()) && n in pending
      ensures pending[n].id in calls
    {
      ReachedSafe(cfg, State());
      assert TicketOk(State(), n);
    }

    /** A closed stream is told so; everything else proceeds. */
    method RunTag(tag: nat, ok: bool, ghost w: Worker)
      requires Valid() && tag in calls && Inside(tag, calls[tag], w) && workers[w].ok == ok
      modifies this, objects
      ensures Valid() && fresh(objects - old(objects))
      ensures Serve(old(State()), w) == To(State())
    {
      assert Live(tag);
      match calls[tag] {
        case UnaryCall(u) =>
          u.Proceed(this, w);
        case StreamCall(x) =>
          if !ok {
            x.SetStreamClosed(this, w);
          } else {
            x.Proceed(this, w);
          }
      }
    }

    method Take(ghost w: Worker, n: nat, ok: bool)
      requires Valid() && w in workers && n in pending && pending[n].id in calls
      modifies this
      ensures Valid() && objects == old(objects) && calls == old(calls)
      ensures State() == GrpcPing.Take(old(State()), w, n, ok)
    {
      view := GrpcPing.Take(State(), w, n, ok).calls;
      workers := workers[w := Holding(pending[n].id, pending[n].op, ok)];
      pending := pending - {n};
      forall x ensures Live(x) {
        assert old(Live(x));
      }
    }

    /** `turns` passes of the loop; in each `Next` returns any operation pending on the queue, with any flag, and an
        empty queue ends the loop. What was served is exactly what was returned, one event after the other. */
    method HandleRpcs(cq: nat, turns: nat, ghost w: Worker) returns (ghost served: seq<(nat, bool)>)
      requires Valid() && Reached(cfg, State()) && w.queue == cq && w in workers && workers[w] == Idle
      modifies this, objects
      ensures Valid() && Reached(cfg, State()) && workers == old(workers)
      ensures ServeAll(old(State()), w, served) == To(State())
      ensures |served| <= turns
      ensures |served| < turns ==> forall n :: n in pending ==> pending[n].cq != cq
    {
      served := [];
      var i := 0;
      while i < turns
        invariant 0 <= i <= turns && |served| == i
        invariant Valid() && Reached(cfg, State()) && workers == old(workers)
        invariant fresh(objects - old(objects))
        invariant ServeAll(old(State()), w, served) == To(State())
      {
        if !exists n :: n in pending && pending[n].cq == cq {
          break;
        }
        var n :| n in pending && pending[n].cq == cq;
        var ok := *;
        ServeOneMore(old(State()), w, served, n, ok);
        served := served + [(n, ok)];
        HandleEvent(w, n, ok);
        i := i + 1;
      }
    }
  }
}
