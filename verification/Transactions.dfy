/** Stream identities, unsigned 64-bit time and one captured transaction: its value,
    the operations on that value, and the object that is updated in place. */
module Transactions {

  const TWO63: int := 0x8000_0000_0000_0000
  const TWO64: int := 0x1_0000_0000_0000_0000

  type U64 = x: int | 0 <= x < 0x1_0000_0000_0000_0000

  /** Unsigned 64-bit arithmetic wraps around. */
  function Wrap(x: int): U64 { x % TWO64 }

  type Byte = x: int | 0 <= x < 256
  type Address = a: seq<Byte> | |a| == 16 witness [0, 0, 0, 0, 0, 0, 0, 0, 0, 0, 0, 0, 0, 0, 0, 0]

  const NoAddress: Address := [0, 0, 0, 0, 0, 0, 0, 0, 0, 0, 0, 0, 0, 0, 0, 0]

  datatype Endpoint = Endpoint(ip: Address, port: nat) {
    /** Only the first address byte is looked at. */
    predicate Empty() { ip[0] == 0 && port == 0 }
  }

  datatype StreamId = StreamId(source: Endpoint, number: nat) {
    predicate Empty() { source.Empty() && number == 0 }
  }

  /** What clearing a stream id leaves. */
  const NoStream: StreamId := StreamId(Endpoint(NoAddress, 0), 0)

  datatype Error =
    | SessionIdMismatch
    | RequestAlreadyExists
    | NoRequestToFinish
    | FinishWithoutStart
    | TransactionIdAlreadySet
    | FinishedWithoutOpening
    | EmptySession
    | TransactionNotFoundForSession

  datatype Outcome<+T> = Ok(value: T) | Throws(error: Error)

  datatype Txn = Txn(
    session: string,
    startTs: U64,
    endTs: U64,
    serverUs: U64,
    current: StreamId,
    currentStart: U64,
    committing: bool,
    txId: string,
    latencies: seq<U64>)
  {
    predicate InProgress() { !current.Empty() }

    function SetTransactionId(id: string): Outcome<Txn> {
      if txId != "" && txId != id then Throws(TransactionIdAlreadySet)
      else Ok(this.(txId := id))
    }

    function StartRequest(stream: StreamId, requestSession: string, ts: U64): Outcome<Txn> {
      if session != requestSession then Throws(SessionIdMismatch)
      else if InProgress() then Throws(RequestAlreadyExists)
      else Ok(this.(current := stream, currentStart := ts))
    }

    function StartCommit(stream: StreamId, requestSession: string, ts: U64): Outcome<Txn> {
      match StartRequest(stream, requestSession, ts)
      case Ok(t) => Ok(t.(committing := true))
      case Throws(e) => Throws(e)
    }

    function FinishRequest(stream: StreamId, ts: U64): Outcome<Txn> {
      if current.Empty() || current != stream then Throws(NoRequestToFinish)
      else if currentStart == 0 then Throws(FinishWithoutStart)
      else Ok(this.(latencies := latencies + [Elapsed(currentStart, ts)], current := NoStream, currentStart := 0))
    }

    function FinishTransaction(stream: StreamId, ts: U64): Outcome<Txn> {
      if startTs == 0 then Throws(FinishedWithoutOpening)
      else match FinishRequest(stream, ts)
        case Ok(t) => Ok(t.(endTs := ts, serverUs := AddAll(serverUs, t.latencies)))
        case Throws(e) => Throws(e)
    }

    function TotalTime(): U64 { Wrap(endTs - startTs) }

    function ClientTime(): U64 { Wrap(TotalTime() - serverUs) }
  }

  /** A clock that went back counts as no time at all. */
  function Elapsed(start: U64, ts: U64): U64 {
    if ts >= start then ts - start else 0
  }

  /** The loop `ServerUs += latency`, with its wrap-around. */
  function AddAll(acc: U64, latencies: seq<U64>): U64 {
    if latencies == [] then acc
    else Wrap(AddAll(acc, latencies[..|latencies| - 1]) + latencies[|latencies| - 1])
  }

  function NewTxn(stream: StreamId, session: string, ts: U64): Outcome<Txn> {
    Txn(session, ts, 0, 0, NoStream, 0, false, "", []).StartRequest(stream, session, ts)
  }

  // ---- the laws of one transaction ----

  /** One request at a time, of the session's own, on a real stream; which exception says why not. */
  lemma {:induction false} StartsExactly(t: Txn, stream: StreamId, session: string, ts: U64)
    ensures var r := t.StartRequest(stream, session, ts); var m := t.StartCommit(stream, session, ts);
            && (r.Ok? <==> session == t.session && !t.InProgress())
            && (r == Throws(SessionIdMismatch) <==> session != t.session)
            && (r == Throws(RequestAlreadyExists) <==> session == t.session && t.InProgress())
            && (m.Ok? <==> r.Ok?)
            && (m.Ok? ==> m.value == r.value.(committing := true))
            && (m.Throws? ==> m == r)
  {
  }

  /** A started request can be finished on its own stream and no other, if that is a real one and the time positive;
      then the transaction is as before, with one more latency. */
  lemma {:induction false} StartThenFinish(t: Txn, stream: StreamId, session: string, ts: U64, k: StreamId, end: U64)
    requires t.StartRequest(stream, session, ts).Ok?
    ensures var r := t.StartRequest(stream, session, ts).value.FinishRequest(k, end);
            && (r.Ok? <==> k == stream && !stream.Empty() && ts > 0)
            && (r == Throws(NoRequestToFinish) <==> k != stream || stream.Empty())
            && (r == Throws(FinishWithoutStart) <==> k == stream && !stream.Empty() && ts == 0)
            && (r.Ok? ==> !r.value.InProgress()
                          && r.value.latencies == t.latencies + [if end < ts then 0 else end - ts]
                          && r.value == t.(current := NoStream, currentStart := 0, latencies := r.value.latencies))
  {
  }

  /** A transaction keeps its first id. */
  lemma {:induction false} FirstIdKept(t: Txn, a: string, b: string)
    requires t.txId == "" && a != ""
    ensures t.SetTransactionId(a).Ok? && t.SetTransactionId(a).value == t.(txId := a)
    ensures var r := t.SetTransactionId(a).value.SetTransactionId(b);
            if a == b then r == t.SetTransactionId(a) else r == Throws(TransactionIdAlreadySet)
  {
  }

  /** Only a transaction that was opened can be finished; finishing it finishes its request. */
  lemma {:induction false} FinishesExactly(t: Txn, stream: StreamId, ts: U64)
    ensures var r := t.FinishTransaction(stream, ts);
            && (r == Throws(FinishedWithoutOpening) <==> t.startTs == 0)
            && (r.Ok? <==> t.startTs != 0 && t.FinishRequest(stream, ts).Ok?)
            && (r.Ok? ==> r.value.endTs == ts && r.value.latencies == t.FinishRequest(stream, ts).value.latencies)
  {
  }

  /** A stream id counts as none when port, number and the first address byte are zero, whatever the other bytes. */
  lemma {:induction false} EmptyExactly(k: StreamId)
    ensures k.Empty() <==> k.source.ip[0] == 0 && k.source.port == 0 && k.number == 0
    ensures NoStream.Empty()
  {
  }

  /** How a method ended: normally or by an exception. */
  datatype Status = Done | Thrown(error: Error)

  /** The method did what the value operation says; one that throws changes nothing. */
  ghost predicate Follows(spec: Outcome<Txn>, r: Status, before: Txn, after: Txn) {
    match spec
    case Ok(t) => r == Done && after == t
    case Throws(e) => r == Thrown(e) && after == before
  }

  /** One transaction as the capture tool keeps it. */
  class TransactionState {
    const sessionId: string
    const startTs: U64
    var endTs: U64
    var serverUs: U64
    var currentRequestStreamId: StreamId
    var currentRequestStartTs: U64
    var isCommitting: bool
    var transactionId: string
    var requestLatencies: seq<U64>

    ghost function Value(): Txn
      reads this
    {
      Txn(sessionId, startTs, endTs, serverUs, currentRequestStreamId, currentRequestStartTs,
          isCommitting, transactionId, requestLatencies)
    }

    constructor (stream: StreamId, session: string, ts: U64)
      ensures Ok(Value()) == NewTxn(stream, session, ts)
    {
      sessionId := session;
      startTs := ts;
      endTs, serverUs := 0, 0;
      currentRequestStreamId, currentRequestStartTs := NoStream, 0;
      isCommitting := false;
      transactionId := "";
      requestLatencies := [];
      new;
      var r := StartRequest(stream, session, ts);
    }

    /** The unsigned time that leads from start to end, around the clock if need be. */
    function TotalTimeUs(): (r: U64)
      reads this
      ensures Wrap(startTs + r) == endTs
      ensures r == Value().TotalTime()
    {
      Wrap(endTs - startTs)
    }

    /** The unsigned time that together with the server time leads from start to end. */
    function ClientTimeUs(): (r: U64)
      reads this
      ensures Wrap(startTs + r + serverUs) == endTs
      ensures r == Value().ClientTime()
    {
      Wrap(TotalTimeUs() - serverUs)
    }

    method SetTransactionId(id: string) returns (r: Status)
      modifies this
      ensures Follows(old(Value()).SetTransactionId(id), r, old(Value()), Value())
    {
      if transactionId != "" && transactionId != id {
        return Thrown(TransactionIdAlreadySet);
      }
      transactionId := id;
      return Done;
    }

    method StartRequest(stream: StreamId, session: string, ts: U64) returns (r: Status)
      modifies this
      ensures Follows(old(Value()).StartRequest(stream, session, ts), r, old(Value()), Value())
    {
      if sessionId != session {
        return Thrown(SessionIdMismatch);
      }
      if !currentRequestStreamId.Empty() {
        return Thrown(RequestAlreadyExists);
      }
      currentRequestStreamId := stream;
      currentRequestStartTs := ts;
      return Done;
    }

    method StartCommit(stream: StreamId, session: string, ts: U64) returns (r: Status)
      modifies this
      ensures Follows(old(Value()).StartCommit(stream, session, ts), r, old(Value()), Value())
    {
      r := StartRequest(stream, session, ts);
      if r != Done {
        return;
      }
      isCommitting := true;
    }

    method FinishRequest(stream: StreamId, ts: U64) returns (r: Status)
      modifies this
      ensures Follows(old(Value()).FinishRequest(stream, ts), r, old(Value()), Value())
    {
      if currentRequestStreamId.Empty() || currentRequestStreamId != stream {
        return Thrown(NoRequestToFinish);
      }
      if currentRequestStartTs == 0 {
        return Thrown(FinishWithoutStart);
      }
      var delta: U64 := 0;
      if ts >= currentRequestStartTs {
        delta := ts - currentRequestStartTs;
      }
      requestLatencies := requestLatencies + [delta];
      currentRequestStreamId := NoStream;
      currentRequestStartTs := 0;
      return Done;
    }

    method FinishTransaction(stream: StreamId, ts: U64) returns (r: Status)
      modifies this
      ensures Follows(old(Value()).FinishTransaction(stream, ts), r, old(Value()), Value())
    {
      if startTs == 0 {
        return Thrown(FinishedWithoutOpening);
      }
      r := FinishRequest(stream, ts);
      if r != Done {
        return;
      }
      endTs := ts;
      ghost var finished := Value();
      var i := 0;
      while i < |requestLatencies|
        invariant 0 <= i <= |requestLatencies|
        invariant Value() == finished.(serverUs := AddAll(finished.serverUs, requestLatencies[..i]))
      {
        assert requestLatencies[..i + 1][..i] == requestLatencies[..i];
        serverUs := Wrap(serverUs + requestLatencies[i]);
        i := i + 1;
      }
      assert requestLatencies[..i] == requestLatencies;
    }
  }
}
