/** HTTP/2 framing of a TCP payload (section 4.1 of RFC 7540) as the capture tool reads it. */
module Http2Framing {
  import opened Ordering
  import opened Transactions

  const HTTP2_FRAME_HEADER_SIZE := 9
  const GRPC_HEADER_SIZE := 5
  const DATA: Byte := 0

  datatype Frame = Frame(kind: Byte, flags: Byte, reserved: bool, stream: nat, payload: seq<Byte>) {
    /** A 24-bit length and a 31-bit stream identifier. */
    predicate Valid() { |payload| < 0x100_0000 && stream < 0x8000_0000 }
  }

  /** What the message decoder is given: the stream and the payload after the gRPC prefix. */
  datatype Delivery = Delivery(stream: nat, message: seq<Byte>)

  /** The deliveries made, and whether the last one read past the end of the TCP payload. */
  datatype Parsed = Parsed(deliveries: seq<Delivery>, overread: bool)

  // ---- the wire format ----

  /** Three bytes in network order; or-ing shifted bytes is adding them. */
  function Joined(hi: int, mid: int, lo: int): int { hi * 0x1_0000 + mid * 0x100 + lo }

  function U24(n: nat): (r: seq<Byte>)
    requires n < 0x100_0000
    ensures |r| == 3 && Joined(r[0], r[1], r[2]) == n
  {
    var high := n / 0x100;
    [high / 0x100, high % 0x100, n % 0x100]
  }

  /** The reserved bit and 31 bits. */
  function U31(reserved: bool, n: nat): (r: seq<Byte>)
    requires n < 0x8000_0000
    ensures |r| == 4 && Masked(r[0], r[1], r[2], r[3]) == n && (r[0] >= 0x80 <==> reserved)
  {
    var top, low := n / 0x100_0000, n % 0x100_0000;
    var bytes := U24(low);
    [(if reserved then 0x80 + top else top), bytes[0], bytes[1], bytes[2]]
  }

  /** Four bytes in network order with the top bit masked out. */
  function Masked(top: Byte, hi: int, mid: int, lo: int): int {
    (if top >= 0x80 then top - 0x80 else top) * 0x100_0000 + Joined(hi, mid, lo)
  }

  lemma {:induction false} U24Of(hi: Byte, mid: Byte, lo: Byte)
    ensures 0 <= Joined(hi, mid, lo) < 0x100_0000
    ensures U24(Joined(hi, mid, lo)) == [hi, mid, lo]
  {
    assert Joined(hi, mid, lo) / 0x100 == hi * 0x100 + mid;
  }

  lemma {:induction false} U31Of(top: Byte, hi: Byte, mid: Byte, lo: Byte)
    ensures 0 <= Masked(top, hi, mid, lo) < 0x8000_0000
    ensures U31(top >= 0x80, Masked(top, hi, mid, lo)) == [top, hi, mid, lo]
  {
    U24Of(hi, mid, lo);
    U31Parts(top >= 0x80, if top >= 0x80 then top - 0x80 else top, Joined(hi, mid, lo));
  }

  lemma {:induction false} U31Parts(reserved: bool, top: nat, low: nat)
    requires top < 0x80 && low < 0x100_0000
    ensures top * 0x100_0000 + low < 0x8000_0000
    ensures U31(reserved, top * 0x100_0000 + low) == [if reserved then 0x80 + top else top] + U24(low)
  {
    TopAndLow(top, low);
  }

  lemma {:induction false} TopAndLow(top: int, low: int)
    requires 0 <= low < 0x100_0000
    ensures (top * 0x100_0000 + low) / 0x100_0000 == top && (top * 0x100_0000 + low) % 0x100_0000 == low
  {
  }

  function Header(length: nat, kind: Byte, flags: Byte, reserved: bool, stream: nat): (r: seq<Byte>)
    requires length < 0x100_0000 && stream < 0x8000_0000
    ensures |r| == HTTP2_FRAME_HEADER_SIZE
  {
    U24(length) + [kind, flags] + U31(reserved, stream)
  }

  function Serialize(f: Frame): (r: seq<Byte>)
    requires f.Valid()
    ensures |r| == HTTP2_FRAME_HEADER_SIZE + |f.payload|
  {
    Header(|f.payload|, f.kind, f.flags, f.reserved, f.stream) + f.payload
  }

  ghost predicate AllValid(fs: seq<Frame>) { forall i :: 0 <= i < |fs| ==> fs[i].Valid() }

  function SerializeAll(fs: seq<Frame>): seq<Byte>
    requires AllValid(fs)
  {
    if fs == [] then [] else Serialize(fs[0]) + SerializeAll(fs[1..])
  }

  // ---- reading a header ----

  function LengthOf(b: seq<Byte>): (r: nat)
    requires |b| >= HTTP2_FRAME_HEADER_SIZE
    ensures r < 0x100_0000
  {
    Joined(b[0], b[1], b[2])
  }

  /** The reserved bit is masked out. */
  function StreamOf(b: seq<Byte>): (r: nat)
    requires |b| >= HTTP2_FRAME_HEADER_SIZE
    ensures r < 0x8000_0000
  {
    Masked(b[5], b[6], b[7], b[8])
  }

  /** The frame at the front of `b`. */
  function FrontFrame(b: seq<Byte>): (f: Frame)
    requires |b| >= HTTP2_FRAME_HEADER_SIZE && |b| >= HTTP2_FRAME_HEADER_SIZE + LengthOf(b)
    ensures f.Valid()
  {
    Frame(b[3], b[4], b[5] >= 0x80, StreamOf(b), b[HTTP2_FRAME_HEADER_SIZE..HTTP2_FRAME_HEADER_SIZE + LengthOf(b)])
  }

  /** The bytes of a header, in network order: three of length, one each of type and flags, four of stream, of which the
      first bit is reserved. */
  lemma {:induction false} HeaderBytes(b: seq<Byte>)
    requires |b| >= 9
    ensures LengthOf(b) == b[0] as int * 0x1_0000 + b[1] as int * 0x100 + b[2]
    ensures StreamOf(b) == (b[5] as int % 0x80) * 0x100_0000 + b[6] as int * 0x1_0000 + b[7] as int * 0x100 + b[8]
  {
  }

  lemma {:induction false} HeaderDecodes(length: nat, kind: Byte, flags: Byte, reserved: bool, stream: nat,
                                          rest: seq<Byte>)
    requires length < 0x100_0000 && stream < 0x8000_0000
    ensures var b := Header(length, kind, flags, reserved, stream) + rest;
            && LengthOf(b) == length
            && StreamOf(b) == stream
            && b[3] == kind && b[4] == flags
            && (b[5] >= 0x80 <==> reserved)
  {
    var b := Header(length, kind, flags, reserved, stream) + rest;
    var l, n := U24(length), U31(reserved, stream);
    assert b[0] == l[0] && b[1] == l[1] && b[2] == l[2] && b[3] == kind && b[4] == flags;
    assert b[5] == n[0] && b[6] == n[1] && b[7] == n[2] && b[8] == n[3];
  }

  lemma {:induction false} HeaderEncodes(b: seq<Byte>)
    requires |b| >= HTTP2_FRAME_HEADER_SIZE
    ensures Header(LengthOf(b), b[3], b[4], b[5] >= 0x80, StreamOf(b)) == b[..HTTP2_FRAME_HEADER_SIZE]
  {
    U24Of(b[0], b[1], b[2]);
    U31Of(b[5], b[6], b[7], b[8]);
  }

  // ---- the parser ----

  /** One DATA frame handed on: nothing when shorter than the gRPC prefix. */
  function Deliver(f: Frame): seq<Delivery> {
    if f.kind == DATA && |f.payload| >= GRPC_HEADER_SIZE then
      [Delivery(f.stream, f.payload[GRPC_HEADER_SIZE..])]
    else []
  }

  function DeliverAll(fs: seq<Frame>): seq<Delivery> {
    if fs == [] then [] else Deliver(fs[0]) + DeliverAll(fs[1..])
  }

  /** The loop from the front of `b`: its bound is strict, so nine bytes or fewer end it. */
  function Parse(b: seq<Byte>): Parsed {
    if |b| <= HTTP2_FRAME_HEADER_SIZE then Parsed([], false)
    else
      var end := HTTP2_FRAME_HEADER_SIZE + LengthOf(b);
      if end <= |b| then
        var rest := Parse(b[end..]);
        Parsed(Deliver(FrontFrame(b)) + rest.deliveries, rest.overread)
      else
        Parsed([], b[3] == DATA && LengthOf(b) >= GRPC_HEADER_SIZE)
  }

  /** The pieces of the frame at offset `pos`. */
  lemma {:induction false} SliceAt(b: seq<Byte>, pos: nat, length: nat)
    requires pos + HTTP2_FRAME_HEADER_SIZE + length <= |b|
    ensures b[pos..][HTTP2_FRAME_HEADER_SIZE + length..] == b[pos + HTTP2_FRAME_HEADER_SIZE + length..]
    ensures b[pos..][HTTP2_FRAME_HEADER_SIZE..HTTP2_FRAME_HEADER_SIZE + length]
         == b[pos + HTTP2_FRAME_HEADER_SIZE..][..length]
  {
  }

  /** What one turn of the loop at the front of `b` comes to. */
  lemma {:induction false} ParseFront(b: seq<Byte>)
    requires |b| > HTTP2_FRAME_HEADER_SIZE
    ensures var end := HTTP2_FRAME_HEADER_SIZE + LengthOf(b);
            Parse(b) == if end <= |b| then
                          Parsed(Deliver(FrontFrame(b)) + Parse(b[end..]).deliveries, Parse(b[end..]).overread)
                        else Parsed([], b[3] == DATA && LengthOf(b) >= GRPC_HEADER_SIZE)
  {
  }

  /** One turn of the loop at offset `pos`. */
  lemma {:induction false} ParseAt(b: seq<Byte>, pos: nat)
    requires pos + HTTP2_FRAME_HEADER_SIZE < |b|
    ensures var front := b[pos..]; var end := pos + HTTP2_FRAME_HEADER_SIZE + LengthOf(front);
            if end <= |b| then
              && FrontFrame(front).payload == b[pos + HTTP2_FRAME_HEADER_SIZE..][..LengthOf(front)]
              && Parse(front)
                 == Parsed(Deliver(FrontFrame(front)) + Parse(b[end..]).deliveries, Parse(b[end..]).overread)
            else
              Parse(front) == Parsed([], front[3] == DATA && LengthOf(front) >= GRPC_HEADER_SIZE)
  {
    ParseFront(b[pos..]);
    if pos + HTTP2_FRAME_HEADER_SIZE + LengthOf(b[pos..]) <= |b| {
      SliceAt(b, pos, LengthOf(b[pos..]));
    }
  }

  /** Hand on a DATA payload of `length` bytes, of which only `available` were captured. */
  method HandleGrpc(available: seq<Byte>, length: nat, stream: nat) returns (delivered: seq<Delivery>, overread: bool)
    ensures overread <==> length >= 5 && length > |available|
    ensures delivered == if 5 <= length <= |available| then [Delivery(stream, available[5..length])] else []
    ensures length <= |available| ==>
              forall f: Frame :: f.kind == DATA && f.stream == stream && f.payload == available[..length] ==>
                delivered == Deliver(f)
    ensures length > |available| ==> delivered == []
  {
    if length < GRPC_HEADER_SIZE {
      return [], false;
    }
    if length > |available| {
      return [], true;
    }
    assert available[..length][GRPC_HEADER_SIZE..] == available[5..length];
    return [Delivery(stream, available[..length][GRPC_HEADER_SIZE..])], false;
  }

  /** The body of the loop: the frame at offset `pos`. */
  method ReadFrame(payload: seq<Byte>, pos: nat) returns (delivered: seq<Delivery>, overread: bool, end: nat)
    requires pos + HTTP2_FRAME_HEADER_SIZE < |payload|
    ensures end > pos
    ensures overread ==> Parse(payload[pos..]) == Parsed([], true)
    ensures !overread && end > |payload| ==> delivered == [] && Parse(payload[pos..]) == Parsed([], false)
    ensures !overread && end <= |payload| ==>
              var rest := Parse(payload[end..]);
              Parse(payload[pos..]) == Parsed(delivered + rest.deliveries, rest.overread)
  {
    var frame := payload[pos..];
    var length := LengthOf(frame);
    end := pos + HTTP2_FRAME_HEADER_SIZE + length;
    delivered, overread := [], false;
    ParseAt(payload, pos);
    if frame[3] == DATA {
      delivered, overread := HandleGrpc(payload[pos + HTTP2_FRAME_HEADER_SIZE..], length, StreamOf(frame));
    }
  }

  method HandleHttp2(payload: seq<Byte>) returns (r: Parsed)
    ensures r == Parse(payload)
  {
    var deliveries: seq<Delivery> := [];
    if |payload| < HTTP2_FRAME_HEADER_SIZE {
      return Parsed([], false);
    }
    var pos := 0;
    assert payload[0..] == payload;
    ghost var rest := Parse(payload);
    while pos + HTTP2_FRAME_HEADER_SIZE < |payload|
      invariant 0 <= pos
      invariant rest == if pos <= |payload| then Parse(payload[pos..]) else Parsed([], false)
      invariant Parse(payload) == Parsed(deliveries + rest.deliveries, rest.overread)
      decreases |payload| - pos
    {
      var delivered, overread, end := ReadFrame(payload, pos);
      if overread {
        return Parsed(deliveries, true);
      }
      pos := end;
      rest := if pos <= |payload| then Parse(payload[pos..]) else Parsed([], false);
      Associative(deliveries, delivered, rest.deliveries);
      deliveries := deliveries + delivered;
    }
    return Parsed(deliveries, false);
  }

  // ---- what it means ----

  /** A payload read as whole frames followed by a cut one. */
  function Split(b: seq<Byte>): (r: (seq<Frame>, seq<Byte>))
    ensures AllValid(r.0)
  {
    if |b| < HTTP2_FRAME_HEADER_SIZE || |b| < HTTP2_FRAME_HEADER_SIZE + LengthOf(b) then ([], b)
    else
      var rest := Split(b[HTTP2_FRAME_HEADER_SIZE + LengthOf(b)..]);
      ([FrontFrame(b)] + rest.0, rest.1)
  }

  /** More than the header of a DATA frame with a gRPC prefix, but not all of its payload. */
  predicate CutData(tail: seq<Byte>) {
    |tail| > HTTP2_FRAME_HEADER_SIZE && tail[3] == DATA && LengthOf(tail) >= GRPC_HEADER_SIZE
  }

  lemma {:induction false} FrontSerializes(b: seq<Byte>)
    requires |b| >= HTTP2_FRAME_HEADER_SIZE && |b| >= HTTP2_FRAME_HEADER_SIZE + LengthOf(b)
    ensures Serialize(FrontFrame(b)) == b[..HTTP2_FRAME_HEADER_SIZE + LengthOf(b)]
  {
    HeaderEncodes(b);
    assert b[..HTTP2_FRAME_HEADER_SIZE + LengthOf(b)]
        == b[..HTTP2_FRAME_HEADER_SIZE] + b[HTTP2_FRAME_HEADER_SIZE..HTTP2_FRAME_HEADER_SIZE + LengthOf(b)];
  }

  /** Every payload is whole frames followed by a cut one. */
  lemma {:induction false} SplitJoins(b: seq<Byte>)
    ensures SerializeAll(Split(b).0) + Split(b).1 == b
    ensures var tail := Split(b).1;
            |tail| < HTTP2_FRAME_HEADER_SIZE || |tail| < HTTP2_FRAME_HEADER_SIZE + LengthOf(tail)
  {
    if |b| >= HTTP2_FRAME_HEADER_SIZE && |b| >= HTTP2_FRAME_HEADER_SIZE + LengthOf(b) {
      var end := HTTP2_FRAME_HEADER_SIZE + LengthOf(b);
      SplitJoins(b[end..]);
      FrontSerializes(b);
      var rest := Split(b[end..]);
      assert Split(b).0[1..] == rest.0;
      Associative(b[..end], SerializeAll(rest.0), rest.1);
      assert b == b[..end] + b[end..];
    }
  }

  lemma {:induction false} SplitSerialized(f: Frame, rest: seq<Byte>)
    requires f.Valid()
    ensures Split(Serialize(f) + rest) == ([f] + Split(rest).0, Split(rest).1)
  {
    var b := Serialize(f) + rest;
    assert b == Header(|f.payload|, f.kind, f.flags, f.reserved, f.stream) + (f.payload + rest);
    HeaderDecodes(|f.payload|, f.kind, f.flags, f.reserved, f.stream, f.payload + rest);
    assert b[HTTP2_FRAME_HEADER_SIZE + |f.payload|..] == rest;
    assert b[HTTP2_FRAME_HEADER_SIZE..HTTP2_FRAME_HEADER_SIZE + |f.payload|] == f.payload;
  }

  /** Splitting undoes serializing, also when a cut frame follows. */
  lemma {:induction false} SplitUndoes(fs: seq<Frame>, tail: seq<Byte>)
    requires AllValid(fs)
    requires |tail| < HTTP2_FRAME_HEADER_SIZE || |tail| < HTTP2_FRAME_HEADER_SIZE + LengthOf(tail)
    ensures Split(SerializeAll(fs) + tail) == (fs, tail)
  {
    if fs == [] {
      assert SerializeAll(fs) + tail == tail;
    } else {
      var rest := SerializeAll(fs[1..]) + tail;
      SplitUndoes(fs[1..], tail);
      SplitSerialized(fs[0], rest);
      assert Split(rest) == (fs[1..], tail);
      assert SerializeAll(fs) + tail == Serialize(fs[0]) + rest by {
        Associative(Serialize(fs[0]), SerializeAll(fs[1..]), tail);
      }
      assert [fs[0]] + fs[1..] == fs;
    }
  }

  /** On every payload the loop delivers the DATA frames that are whole, in order, and reads past the end
      exactly when the payload was cut inside a DATA frame. */
  lemma {:induction false} ParseMeaning(b: seq<Byte>)
    ensures Parse(b) == Parsed(DeliverAll(Split(b).0), CutData(Split(b).1))
  {
    if |b| < HTTP2_FRAME_HEADER_SIZE {
    } else if |b| == HTTP2_FRAME_HEADER_SIZE {
      if LengthOf(b) == 0 {
        assert Split(b[9..]) == ([], []);
      }
    } else {
      var end := HTTP2_FRAME_HEADER_SIZE + LengthOf(b);
      if end <= |b| {
        ParseMeaning(b[end..]);
        assert Split(b).0[1..] == Split(b[end..]).0;
      }
    }
  }

  /** Parsing undoes serializing: every DATA payload of five bytes or more, in order, with its stream. */
  lemma {:induction false} RoundTrip(fs: seq<Frame>)
    requires AllValid(fs)
    ensures Parse(SerializeAll(fs)) == Parsed(DeliverAll(fs), false)
  {
    SplitUndoes(fs, []);
    assert SerializeAll(fs) + [] == SerializeAll(fs);
    ParseMeaning(SerializeAll(fs));
  }

  /** A capture cut inside one more frame: the whole frames are still delivered. */
  lemma {:induction false} CutRoundTrip(fs: seq<Frame>, f: Frame, n: nat)
    requires AllValid(fs) && f.Valid() && n < |Serialize(f)|
    ensures Parse(SerializeAll(fs) + Serialize(f)[..n])
         == Parsed(DeliverAll(fs), n > HTTP2_FRAME_HEADER_SIZE && Deliver(f) != [])
  {
    var tail := Serialize(f)[..n];
    if n >= HTTP2_FRAME_HEADER_SIZE {
      HeaderDecodes(|f.payload|, f.kind, f.flags, f.reserved, f.stream, f.payload[..n - HTTP2_FRAME_HEADER_SIZE]);
      assert tail == Header(|f.payload|, f.kind, f.flags, f.reserved, f.stream)
                  + f.payload[..n - HTTP2_FRAME_HEADER_SIZE];
    }
    SplitUndoes(fs, tail);
    ParseMeaning(SerializeAll(fs) + tail);
  }

  // ---- the messages ----

  /** What is handed on of a frame: a DATA frame is a gRPC prefix of five bytes and a message, and the message is handed
      on with its stream; nothing else is. */
  lemma {:induction false} DeliversMessage(f: Frame, prefix: seq<Byte>, message: seq<Byte>)
    ensures f.kind == 0 && |prefix| == 5 && f.payload == prefix + message ==>
              Deliver(f) == [Delivery(f.stream, message)]
    ensures f.kind != 0 || |f.payload| < 5 ==> Deliver(f) == []
  {
  }

  /** Frame i carries a message. */
  predicate Carries(fs: seq<Frame>, i: nat) { i < |fs| && fs[i].kind == 0 && |fs[i].payload| >= 5 }

  ghost predicate Carriers(fs: seq<Frame>, idx: seq<nat>) {
    && (forall k :: 0 <= k < |idx| ==> Carries(fs, idx[k]))
    && (forall j, k :: 0 <= j < k < |idx| ==> idx[j] < idx[k])
    && (forall i: nat :: Carries(fs, i) ==> i in idx)
  }

  /** Delivery k is the stream and the message of the k-th frame that carries one. */
  ghost predicate InOrder(fs: seq<Frame>, idx: seq<nat>, ds: seq<Delivery>) {
    && |ds| == |idx|
    && (forall k :: 0 <= k < |idx| ==>
          && idx[k] < |fs| && |fs[idx[k]].payload| >= 5
          && ds[k] == Delivery(fs[idx[k]].stream, fs[idx[k]].payload[5..]))
  }

  lemma {:induction false} DeliverAllFront(fs: seq<Frame>, f: Frame)
    ensures DeliverAll(fs + [f]) == DeliverAll(fs) + Deliver(f)
  {
    if fs == [] {
      assert [] + [f] == [f] && [f][1..] == [];
      assert DeliverAll([f]) == Deliver(f) + [];
    } else {
      assert (fs + [f])[1..] == fs[1..] + [f];
      DeliverAllFront(fs[1..], f);
      Associative(Deliver(fs[0]), DeliverAll(fs[1..]), Deliver(f));
    }
  }

  /** The frames that carry messages, with frame n if it does. */
  function WithFrame(idx: seq<nat>, n: nat, f: Frame): seq<nat> {
    if f.kind == 0 && |f.payload| >= 5 then idx + [n] else idx
  }

  lemma {:induction false} OneMoreCarrier(fs: seq<Frame>, f: Frame, idx: seq<nat>)
    requires Carriers(fs, idx)
    ensures Carriers(fs + [f], WithFrame(idx, |fs|, f))
  {
    forall i: nat ensures Carries(fs + [f], i) <==> Carries(fs, i) || (i == |fs| && f.kind == 0 && |f.payload| >= 5) {
    }
  }

  lemma {:induction false} OneMoreDelivery(fs: seq<Frame>, f: Frame, idx: seq<nat>, ds: seq<Delivery>)
    requires InOrder(fs, idx, ds)
    ensures InOrder(fs + [f], WithFrame(idx, |fs|, f), ds + Deliver(f))
  {
    assert ds + [] == ds;
  }

  lemma {:induction false} DeliveriesInOrder(fs: seq<Frame>) returns (idx: seq<nat>)
    ensures Carriers(fs, idx) && InOrder(fs, idx, DeliverAll(fs))
  {
    if fs == [] {
      idx := [];
    } else {
      var init, last := fs[..|fs| - 1], fs[|fs| - 1];
      var before := DeliveriesInOrder(init);
      idx := WithFrame(before, |init|, last);
      OneMoreCarrier(init, last, before);
      OneMoreDelivery(init, last, before, DeliverAll(init));
      DeliverAllFront(init, last);
      assert fs == init + [last];
    }
  }

  /** Parsing whole frames hands on exactly the messages of the DATA frames of five bytes or more, each with the stream
      of its frame, in the order of the frames. */
  lemma {:induction false} MessagesRoundTrip(fs: seq<Frame>) returns (idx: seq<nat>)
    requires AllValid(fs)
    ensures Carriers(fs, idx)
    ensures var p := Parse(SerializeAll(fs)); !p.overread && InOrder(fs, idx, p.deliveries)
  {
    RoundTrip(fs);
    idx := DeliveriesInOrder(fs);
  }
}
