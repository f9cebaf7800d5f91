/** The ping server as a state machine: call objects, operations pending on completion queues,
    and workers that take a tag from their queue and run its object. One step is one action of one
    thread, so every interleaving of the workers and of start-up is a run. Shutdown is not modelled. */
module GrpcPing {
  datatype Kind = Unary | Streaming

  /** CREATE is over when a constructor returns. READ means that a write is out, WRITE that a read is. */
  datatype Status = Process | Read | Write | Finish

  datatype Op = AcceptOp | ReadOp | WriteOp | FinishOp

  datatype Call = Call(kind: Kind, cq: nat, status: Status, readsOk: nat, writesIssued: nat)

  /** An operation pending on queue `cq`, tagged with call `id`. */
  datatype Ticket = Ticket(id: nat, cq: nat, op: Op)

  /** Where a worker is: waiting in `Next`; inside call `id` with the event it took; after it has created the
      successor of `id`; or after it has set the next status and before it issues the next operation. */
  datatype Phase = Idle | Holding(id: nat, op: Op, ok: bool) | Spawned(id: nat) | Switched(id: nat, op: Op)

  datatype Config = Config(queues: nat, workersPerQueue: nat, callbacksPerQueue: nat)

  /** A worker serves one queue. */
  datatype Worker = Worker(queue: nat, slot: nat)

  /** The next call that start-up creates: for each queue and each callback, a unary one, then a streaming one. */
  datatype Startup = Startup(queue: nat, callback: nat, kind: Kind) {
    function Advance(callbacks: nat): Startup {
      if kind == Unary then Startup(queue, callback, Streaming)
      else if callback + 1 < callbacks then Startup(queue, callback + 1, Unary)
      else Startup(queue + 1, 0, Unary)
    }
  }

  /** `next` numbers calls and operations. */
  datatype Server = Server(
    calls: map<nat, Call>,
    pending: map<nat, Ticket>,
    workers: map<Worker, Phase>,
    startup: Startup,
    next: nat)

  datatype Action = Start | Deliver(w: Worker, n: nat, ok: bool) | Proceed(w: Worker)

  /** `Fault`: a worker ran a deleted call. */
  datatype Result = To(s: Server) | Disabled | Fault

  predicate IsWorker(cfg: Config, w: Worker) { w.queue < cfg.queues && w.slot < cfg.workersPerQueue }

  function Init(cfg: Config): (s: Server)
    ensures forall w :: w in s.workers <==> IsWorker(cfg, w)
    ensures forall w :: w in s.workers ==> s.workers[w] == Idle
  {
    var workers := map q: nat, i: nat | 0 <= q < cfg.queues && 0 <= i < cfg.workersPerQueue :: Worker(q, i) := Idle;
    assert forall w: Worker :: IsWorker(cfg, w) ==> w == Worker(w.queue, w.slot) && w in workers;
    Server(map[], map[], workers, Startup(0, 0, Unary), 0)
  }

  // ---- the moves ----

  /** Constructing a call issues its accept. */
  function Create(s: Server, kind: Kind, cq: nat): Server {
    s.(calls := s.calls[s.next := Call(kind, cq, Process, 0, 0)],
       pending := s.pending[s.next + 1 := Ticket(s.next, cq, AcceptOp)],
       next := s.next + 2)
  }

  function At(s: Server, w: Worker, phase: Phase): Server
    requires w in s.workers
  {
    s.(workers := s.workers[w := phase])
  }

  function Switch(s: Server, w: Worker, id: nat, status: Status, op: Op): Server
    requires w in s.workers && id in s.calls
  {
    At(s, w, Switched(id, op)).(calls := s.calls[id := s.calls[id].(status := status)])
  }

  function Issue(s: Server, w: Worker, id: nat, op: Op): Server
    requires w in s.workers && id in s.calls
  {
    var c := s.calls[id];
    At(s, w, Idle).(
      calls := s.calls[id := if op == WriteOp then c.(writesIssued := c.writesIssued + 1) else c],
      pending := s.pending[s.next := Ticket(id, c.cq, op)],
      next := s.next + 1)
  }

  function Delete(s: Server, w: Worker, id: nat): Server
    requires w in s.workers
  {
    At(s, w, Idle).(calls := s.calls - {id})
  }

  function Take(s: Server, w: Worker, n: nat, ok: bool): Server
    requires w in s.workers && n in s.pending
  {
    var t := s.pending[n];
    At(s, w, Holding(t.id, t.op, ok)).(
      pending := s.pending - {n},
      calls := if t.id in s.calls && t.op == ReadOp && ok
               then s.calls[t.id := s.calls[t.id].(readsOk := s.calls[t.id].readsOk + 1)]
               else s.calls)
  }

  // ---- the actions ----

  function StartOne(cfg: Config, s: Server): Result {
    if s.startup.queue < cfg.queues && s.startup.callback < cfg.callbacksPerQueue then
      To(Create(s, s.startup.kind, s.startup.queue).(startup := s.startup.Advance(cfg.callbacksPerQueue)))
    else Disabled
  }

  /** A tag is taken from the queue by one of its idle workers. */
  function DeliverOne(s: Server, w: Worker, n: nat, ok: bool): Result {
    if w in s.workers && s.workers[w] == Idle && n in s.pending && s.pending[n].cq == w.queue
    then To(Take(s, w, n, ok))
    else Disabled
  }

  /** The worker goes on inside the call it holds: `Proceed`, or `SetStreamClosed` for a streaming call whose
      event was not ok. */
  function ProceedOne(s: Server, w: Worker): Result {
    if w !in s.workers || s.workers[w].Idle? then Disabled
    else
      var id := s.workers[w].id;
      if id !in s.calls then Fault
      else
        var c := s.calls[id];
        match s.workers[w]
        case Switched(_, op) => To(Issue(s, w, id, op))
        case Spawned(_) =>
          if c.kind == Unary then To(Switch(s, w, id, Finish, FinishOp))
          else To(Switch(s, w, id, Write, ReadOp))
        case Holding(_, _, ok) =>
          if c.kind == Streaming && !ok then
            if c.status == Read || c.status == Write then To(Switch(s, w, id, Finish, FinishOp))
            else To(At(s, w, Idle))
          else match c.status
            case Process => To(At(Create(s, c.kind, c.cq), w, Spawned(id)))
            case Read => To(Switch(s, w, id, Write, ReadOp))
            case Write => To(Switch(s, w, id, Read, WriteOp))
            case Finish => To(Delete(s, w, id))
  }

  function Step(cfg: Config, s: Server, a: Action): Result {
    match a
    case Start => StartOne(cfg, s)
    case Deliver(w, n, ok) => DeliverOne(s, w, n, ok)
    case Proceed(w) => ProceedOne(s, w)
  }

  ghost function Run(cfg: Config, actions: seq<Action>): Result {
    if actions == [] then To(Init(cfg))
    else match Run(cfg, actions[..|actions| - 1])
      case To(s) => Step(cfg, s, actions[|actions| - 1])
      case other => other
  }

  lemma {:induction false} RunOneMore(cfg: Config, actions: seq<Action>, a: Action)
    ensures Run(cfg, actions + [a])
         == if Run(cfg, actions).To? then Step(cfg, Run(cfg, actions).s, a) else Run(cfg, actions)
  {
    assert (actions + [a])[..|actions|] == actions;
  }
}
