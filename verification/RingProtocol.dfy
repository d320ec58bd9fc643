// The lock-free ring between one producer and one consumer, as interleaved
// steps: each loads the other's counter once, moves a message byte by byte, and
// publishes by storing its own counter. Counters wrap at 2^64.
module RingProtocol {
  import opened Common
  import opened Bytes
  import opened Bits

  type Message = seq<Byte>
  type Slot = seq<Byte>

  const MSG_HEADER_SIZE: nat := 4

  // A ring of 2^logCount slots of slotSize bytes each.
  datatype Config = Config(logCount: nat, slotSize: nat) {
    function Count(): nat {
      Pow2(logCount)
    }

    function MaxPayload(): nat {
      if slotSize >= MSG_HEADER_SIZE then slotSize - MSG_HEADER_SIZE else 0
    }

    // A slot holds its header, a length fits 32 bits, and the slots can be
    // counted in 64.
    predicate Sensible() {
      logCount < 64 && MSG_HEADER_SIZE <= slotSize < U32_LIMIT
    }

    function Index(counter: nat): nat {
      And(counter, Count() - 1)
    }
  }

  datatype Producer =
    | PIdle
    | PHasTail(data: Message, tail: nat)
    | PWriting(data: Message, tail: nat, at: nat)

  datatype Consumer =
    | CIdle
    | CHasHead(consume: bool, room: nat, head: nat)
    | CReading(consume: bool, room: nat, head: nat, got: seq<Byte>)

  // The shared memory, the two parties' local variables, and a record of what
  // was accepted, popped and peeked.
  datatype Machine = Machine(
    head: nat,
    tail: nat,
    slots: seq<Slot>,
    producer: Producer,
    consumer: Consumer,
    pushed: seq<Message>,
    popped: seq<Message>,
    peeked: Option<Message>)

  // Each step of either party, in any interleaving. A peek does not consume.
  datatype Action =
    | StartPush(data: Message)
    | LoadHead
    | WriteByte
    | Publish
    | StartPop(room: nat)
    | StartPeek(room: nat)
    | LoadTail
    | ReadByte
    | Finish

  // A message as it stands in a slot: length, then payload.
  function Frame(data: Message): (r: seq<Byte>)
    ensures |r| == MSG_HEADER_SIZE + |data|
  {
    ToLe(|data|, MSG_HEADER_SIZE) + data
  }

  // How many bytes a read takes in all, once the header is there.
  function ReadSize(cfg: Config, got: seq<Byte>, room: nat): nat
    requires |got| >= MSG_HEADER_SIZE
  {
    MSG_HEADER_SIZE + Min(Min(FromLe(got[..MSG_HEADER_SIZE]), room), cfg.MaxPayload())
  }

  predicate Shaped(cfg: Config, m: Machine) {
    |m.slots| == cfg.Count() && forall s :: s in m.slots ==> |s| == cfg.slotSize
  }

  // One step. A step that is not a party's next one does nothing.
  function Next(cfg: Config, m: Machine, a: Action): Machine
    requires Shaped(cfg, m)
  {
    match a
    case StartPush(data) => if m.producer.PIdle? then PushBegins(cfg, m, data) else m
    case LoadHead => if m.producer.PHasTail? then HeadLoaded(cfg, m) else m
    case WriteByte => if m.producer.PWriting? then ByteWritten(cfg, m) else m
    case Publish => if m.producer.PWriting? then Published(cfg, m) else m
    case StartPop(room) => if m.consumer.CIdle? then m.(consumer := CHasHead(true, room, m.head)) else m
    case StartPeek(room) => if m.consumer.CIdle? then m.(consumer := CHasHead(false, room, m.head)) else m
    case LoadTail => if m.consumer.CHasHead? then TailLoaded(m) else m
    case ReadByte => if m.consumer.CReading? then ByteRead(cfg, m) else m
    case Finish => if m.consumer.CReading? then Finished(cfg, m) else m
  }

  // A message too large is refused; otherwise the producer loads its own tail.
  function PushBegins(cfg: Config, m: Machine, data: Message): Machine {
    if |data| > cfg.MaxPayload() then m else m.(producer := PHasTail(data, m.tail))
  }

  // The full test, on the head as it is now.
  function HeadLoaded(cfg: Config, m: Machine): Machine
    requires m.producer.PHasTail?
  {
    var p := m.producer;
    if WrappingSub(p.tail, m.head) >= cfg.Count() then m.(producer := PIdle)
    else m.(producer := PWriting(p.data, p.tail, 0))
  }

  function ByteWritten(cfg: Config, m: Machine): Machine
    requires m.producer.PWriting?
  {
    var p := m.producer;
    var idx := cfg.Index(p.tail);
    if p.at < |Frame(p.data)| && idx < |m.slots| && p.at < |m.slots[idx]| then
      m.(slots := m.slots[idx := m.slots[idx][p.at := Frame(p.data)[p.at]]], producer := p.(at := p.at + 1))
    else m
  }

  function Published(cfg: Config, m: Machine): Machine
    requires m.producer.PWriting?
  {
    var p := m.producer;
    if p.at == |Frame(p.data)| then
      m.(tail := WrappingAdd(p.tail, 1), pushed := m.pushed + [p.data], producer := PIdle)
    else m
  }

  // The empty test, on the tail as it is now.
  function TailLoaded(m: Machine): Machine
    requires m.consumer.CHasHead?
  {
    var c := m.consumer;
    if c.head == m.tail then m.(consumer := CIdle) else m.(consumer := CReading(c.consume, c.room, c.head, []))
  }

  predicate ReadDone(cfg: Config, c: Consumer)
    requires c.CReading?
  {
    |c.got| >= MSG_HEADER_SIZE && |c.got| >= ReadSize(cfg, c.got, c.room)
  }

  function ByteRead(cfg: Config, m: Machine): Machine
    requires m.consumer.CReading?
  {
    var c := m.consumer;
    var idx := cfg.Index(c.head);
    if !ReadDone(cfg, c) && idx < |m.slots| && |c.got| < |m.slots[idx]| then
      m.(consumer := c.(got := c.got + [m.slots[idx][|c.got|]]))
    else m
  }

  function Finished(cfg: Config, m: Machine): Machine
    requires m.consumer.CReading?
  {
    var c := m.consumer;
    if !ReadDone(cfg, c) then m
    else
      var data := c.got[MSG_HEADER_SIZE..];
      if c.consume then m.(head := WrappingAdd(c.head, 1), popped := m.popped + [data], consumer := CIdle)
      else m.(peeked := Some(data), consumer := CIdle)
  }

  // ── The invariant ─────────────────────────────────────────────────────

  // The stored counters are the true counts, wrapped, and at most a ring apart.
  predicate Counted(cfg: Config, m: Machine) {
    && |m.popped| <= |m.pushed| <= |m.popped| + cfg.Count()
    && m.head == |m.popped| % U64_LIMIT && m.tail == |m.pushed| % U64_LIMIT
  }

  predicate Framed(cfg: Config, slot: Slot, data: Message) {
    |data| <= cfg.MaxPayload() && Frame(data) <= slot
  }

  // Every message pushed and not yet popped is whole in its slot.
  ghost predicate UnreadWhole(cfg: Config, m: Machine) {
    |m.slots| == cfg.Count()
    && forall i {:trigger m.pushed[i]} :: |m.popped| <= i < |m.pushed| ==>
         Framed(cfg, m.slots[i % cfg.Count()], m.pushed[i])
  }

  // What the producer knows while it writes: there is room, and its bytes so
  // far are in the slot of the next message.
  predicate ProducerKnows(cfg: Config, m: Machine) {
    match m.producer
    case PIdle => true
    case PHasTail(data, tail) => tail == m.tail && |data| <= cfg.MaxPayload()
    case PWriting(data, tail, at) =>
      && tail == m.tail && |data| <= cfg.MaxPayload() && at <= |Frame(data)|
      && |m.pushed| < |m.popped| + cfg.Count()
      && |m.slots| == cfg.Count()
      && at <= |m.slots[|m.pushed| % cfg.Count()]|
      && m.slots[|m.pushed| % cfg.Count()][..at] == Frame(data)[..at]
  }

  // What the consumer knows while it reads: there is a message, and what it has
  // is the beginning of that message's frame, cut at its buffer.
  predicate ConsumerKnows(cfg: Config, m: Machine) {
    match m.consumer
    case CIdle => true
    case CHasHead(_, _, head) => head == m.head
    case CReading(_, room, head, got) =>
      && head == m.head && |m.popped| < |m.pushed|
      && |got| <= MSG_HEADER_SIZE + Min(|m.pushed[|m.popped|]|, room)
      && got <= Frame(m.pushed[|m.popped|])
  }

  // What was popped is what was pushed, in order, each cut at most at the
  // buffer's end; whole, if buffers are large enough.
  ghost predicate Delivered(m: Machine, whole: bool) {
    && |m.popped| <= |m.pushed|
    && (forall i :: 0 <= i < |m.popped| ==> m.popped[i] <= m.pushed[i])
    && (whole ==> forall i :: 0 <= i < |m.popped| ==> m.popped[i] == m.pushed[i])
  }

  predicate RoomFor(cfg: Config, m: Machine) {
    match m.consumer
    case CIdle => true
    case CHasHead(consume, room, _) => consume ==> room >= cfg.MaxPayload()
    case CReading(consume, room, _, _) => consume ==> room >= cfg.MaxPayload()
  }

  ghost predicate Inv(cfg: Config, m: Machine, whole: bool) {
    && Shaped(cfg, m) && Counted(cfg, m) && UnreadWhole(cfg, m)
    && ProducerKnows(cfg, m) && ConsumerKnows(cfg, m)
    && Delivered(m, whole) && (whole ==> RoomFor(cfg, m))
  }

  // ── Steps keep it ─────────────────────────────────────────────────────

  lemma IndexIs(cfg: Config, i: nat)
    requires cfg.Sensible()
    ensures cfg.Index(i % U64_LIMIT) == i % cfg.Count()
  {
    MaskedIndex(i, cfg.logCount);
  }

  lemma {:induction false} CountIsSmall(cfg: Config)
    requires cfg.Sensible()
    ensures 0 < cfg.Count() < U64_LIMIT
  {
    Pow2Of64();
    Pow2Adds(64 - cfg.logCount, cfg.logCount);
    Pow2AtLeast(64 - cfg.logCount);
    assert Pow2(64 - cfg.logCount) * cfg.Count() >= 2 * cfg.Count();
  }

  lemma {:induction false} Pow2AtLeast(k: nat)
    requires k > 0
    ensures Pow2(k) >= 2
  {
  }

  // Within one ring's length, different message numbers have different slots.
  lemma DifferentSlots(i: nat, j: nat, n: nat)
    requires i < j < i + n
    ensures i % n != j % n
  {
    if i % n == j % n {
      var q, r := Quotient(i, n);
      var q', r' := Quotient(j, n);
      Difference(q', q, n);
      MultipleSize(q' - q, n);
    }
  }

  lemma {:induction false} WriteKeeps(cfg: Config, m: Machine, whole: bool)
    requires cfg.Sensible() && Inv(cfg, m, whole) && m.producer.PWriting?
    ensures Inv(cfg, ByteWritten(cfg, m), whole)
  {
    hide Delivered;
    var p, n := m.producer, cfg.Count();
    CountIsSmall(cfg);
    IndexIs(cfg, |m.pushed|);
    var idx := |m.pushed| % n;
    var m' := ByteWritten(cfg, m);
    DeliveredGrows(m, m', whole);
    forall i | |m'.popped| <= i < |m'.pushed| ensures Framed(cfg, m'.slots[i % n], m'.pushed[i]) {
      DifferentSlots(i, |m.pushed|, n);
      assert Framed(cfg, m.slots[i % n], m.pushed[i]);
    }
    if m' != m {
      var s, s' := m.slots[idx], m'.slots[idx];
      assert s'[..p.at + 1] == s[..p.at] + [Frame(p.data)[p.at]];
      assert Frame(p.data)[..p.at + 1] == Frame(p.data)[..p.at] + [Frame(p.data)[p.at]];
    }
  }

  lemma {:induction false} PublishKeeps(cfg: Config, m: Machine, whole: bool)
    requires cfg.Sensible() && Inv(cfg, m, whole) && m.producer.PWriting?
    ensures Inv(cfg, Published(cfg, m), whole)
  {
    hide Frame, Delivered, UnreadWhole, Framed;
    var p := m.producer;
    WrappedNext(|m.pushed|);
    var m' := Published(cfg, m);
    if m' != m {
      DeliveredGrows(m, m', whole);
      NowUnread(cfg, m, p.data);
      FewerUnread(cfg, m.(pushed := m.pushed + [p.data]), m');
    }
  }

  lemma NowUnread(cfg: Config, m: Machine, data: Message)
    requires cfg.Sensible() && UnreadWhole(cfg, m) && Shaped(cfg, m) && |data| <= cfg.MaxPayload()
    requires |Frame(data)| <= |m.slots[|m.pushed| % cfg.Count()]|
    requires m.slots[|m.pushed| % cfg.Count()][..|Frame(data)|] == Frame(data)[..|Frame(data)|]
    ensures UnreadWhole(cfg, m.(pushed := m.pushed + [data]))
  {
    hide Frame;
    var m' := m.(pushed := m.pushed + [data]);
    assert Frame(data)[..|Frame(data)|] == Frame(data);
    forall i {:trigger m'.pushed[i]} | |m'.popped| <= i < |m'.pushed|
      ensures Framed(cfg, m'.slots[i % cfg.Count()], m'.pushed[i])
    {
      if i < |m.pushed| { assert Framed(cfg, m.slots[i % cfg.Count()], m.pushed[i]); }
    }
  }

  lemma {:induction false} LoadHeadKeeps(cfg: Config, m: Machine, whole: bool)
    requires cfg.Sensible() && Inv(cfg, m, whole) && m.producer.PHasTail?
    ensures Inv(cfg, HeadLoaded(cfg, m), whole)
  {
    CountIsSmall(cfg);
    WrappedDifference(|m.pushed|, |m.popped|);
    var s := m.slots[|m.pushed| % cfg.Count()];
    assert s[..0] == [] == Frame(m.producer.data)[..0];
  }

  lemma {:induction false} LoadTailKeeps(cfg: Config, m: Machine, whole: bool)
    requires cfg.Sensible() && Inv(cfg, m, whole) && m.consumer.CHasHead?
    ensures Inv(cfg, TailLoaded(m), whole)
  {
    CountIsSmall(cfg);
    if |m.popped| == |m.pushed| {
      assert m.head == m.tail;
    }
  }

  lemma FrameHeader(data: Message, got: seq<Byte>)
    requires |data| < U32_LIMIT && got <= Frame(data) && |got| >= MSG_HEADER_SIZE
    ensures FromLe(got[..MSG_HEADER_SIZE]) == |data| && got[MSG_HEADER_SIZE..] <= data
  {
    Widths();
    LeRoundTrip(|data|, MSG_HEADER_SIZE);
    assert got[..MSG_HEADER_SIZE] == Frame(data)[..MSG_HEADER_SIZE] == ToLe(|data|, MSG_HEADER_SIZE);
    assert got[MSG_HEADER_SIZE..] == Frame(data)[MSG_HEADER_SIZE..|got|];
    assert Frame(data)[MSG_HEADER_SIZE..] == data;
  }

  // The message being read is whole in its slot, so its length is its own.
  lemma {:induction false} ReadingOne(cfg: Config, m: Machine, whole: bool)
    requires cfg.Sensible() && Inv(cfg, m, whole) && m.consumer.CReading?
    ensures var c, data := m.consumer, m.pushed[|m.popped|];
      && cfg.Index(c.head) == |m.popped| % cfg.Count()
      && Framed(cfg, m.slots[|m.popped| % cfg.Count()], data) && |data| <= cfg.MaxPayload()
      && (|c.got| >= MSG_HEADER_SIZE ==>
            ReadSize(cfg, c.got, c.room) == MSG_HEADER_SIZE + Min(|data|, c.room) && c.got[MSG_HEADER_SIZE..] <= data)
  {
    var c, data := m.consumer, m.pushed[|m.popped|];
    IndexIs(cfg, |m.popped|);
    assert Framed(cfg, m.slots[|m.popped| % cfg.Count()], data);
    if |c.got| >= MSG_HEADER_SIZE { FrameHeader(data, c.got); }
  }

  // One more byte of a framed slot is one more byte of the frame.
  lemma NextByte(cfg: Config, slot: seq<Byte>, data: Message, got: seq<Byte>)
    requires Framed(cfg, slot, data) && got <= Frame(data) && |got| < |Frame(data)|
    ensures |got| < |slot| && got + [slot[|got|]] <= Frame(data)
  {
    var n := |got|;
    assert slot[n] == Frame(data)[n];
    assert Frame(data)[..n + 1] == Frame(data)[..n] + [Frame(data)[n]];
  }

  lemma {:induction false} ReadKeeps(cfg: Config, m: Machine, whole: bool)
    requires cfg.Sensible() && Inv(cfg, m, whole) && m.consumer.CReading?
    ensures Inv(cfg, ByteRead(cfg, m), whole)
  {
    ReadingOne(cfg, m, whole);
    var m' := ByteRead(cfg, m);
    if m' != m {
      ShortOfFrame(cfg, m, whole);
      hide Frame, Framed, Delivered, UnreadWhole, ReadSize;
      var c, data := m.consumer, m.pushed[|m.popped|];
      NextByte(cfg, m.slots[|m.popped| % cfg.Count()], data, c.got);
      DeliveredGrows(m, m', whole);
      FewerUnread(cfg, m, m');
    }
  }

  lemma ShortOfFrame(cfg: Config, m: Machine, whole: bool)
    requires cfg.Sensible() && Inv(cfg, m, whole) && m.consumer.CReading? && ByteRead(cfg, m) != m
    ensures |m.consumer.got| < |Frame(m.pushed[|m.popped|])|
  {
    ReadingOne(cfg, m, whole);
  }

  // A finished read has the whole message, or as much as its buffer holds.
  lemma {:induction false} GotAll(cfg: Config, m: Machine, whole: bool)
    requires cfg.Sensible() && Inv(cfg, m, whole) && m.consumer.CReading? && ReadDone(cfg, m.consumer)
    ensures var got, data := m.consumer.got[MSG_HEADER_SIZE..], m.pushed[|m.popped|];
      got <= data && |got| == Min(|data|, m.consumer.room) && |data| <= cfg.MaxPayload()
  {
    hide Frame, Framed, ReadSize, Delivered, UnreadWhole;
    ReadingOne(cfg, m, whole);
  }

  lemma {:induction false} PopKeeps(cfg: Config, m: Machine, got: Message, whole: bool)
    requires Inv(cfg, m, whole) && |m.popped| < |m.pushed|
    requires got <= m.pushed[|m.popped|] && (whole ==> got == m.pushed[|m.popped|])
    ensures Inv(cfg, m.(head := WrappingAdd(m.head, 1), popped := m.popped + [got], consumer := CIdle), whole)
  {
    hide Frame, Framed, Delivered, UnreadWhole;
    var m' := m.(head := WrappingAdd(m.head, 1), popped := m.popped + [got], consumer := CIdle);
    WrappedNext(|m.popped|);
    PopDelivers(m, got, whole);
    DeliveredGrows(m.(popped := m.popped + [got]), m', whole);
    FewerUnread(cfg, m, m');
  }

  lemma {:induction false} PeekKeeps(cfg: Config, m: Machine, got: Message, whole: bool)
    requires Inv(cfg, m, whole)
    ensures Inv(cfg, m.(peeked := Some(got), consumer := CIdle), whole)
  {
    hide Frame, Framed, Delivered, UnreadWhole;
    var m' := m.(peeked := Some(got), consumer := CIdle);
    DeliveredGrows(m, m', whole);
    FewerUnread(cfg, m, m');
  }

  lemma {:induction false} FinishKeeps(cfg: Config, m: Machine, whole: bool)
    requires cfg.Sensible() && Inv(cfg, m, whole) && m.consumer.CReading?
    ensures Inv(cfg, Finished(cfg, m), whole)
  {
    hide Frame, ReadSize, Delivered, UnreadWhole, Counted, ProducerKnows;
    var c := m.consumer;
    if ReadDone(cfg, c) {
      GotAll(cfg, m, whole);
      KnownHead(cfg, m, whole);
      var got := c.got[MSG_HEADER_SIZE..];
      if c.consume { PopKeeps(cfg, m, got, whole); } else { PeekKeeps(cfg, m, got, whole); }
    }
  }

  lemma KnownHead(cfg: Config, m: Machine, whole: bool)
    requires Inv(cfg, m, whole) && m.consumer.CReading?
    ensures m.consumer.head == m.head && |m.popped| < |m.pushed|
  {
  }

  lemma PopDelivers(m: Machine, got: Message, whole: bool)
    requires Delivered(m, whole) && |m.popped| < |m.pushed| && got <= m.pushed[|m.popped|]
    requires whole ==> got == m.pushed[|m.popped|]
    ensures Delivered(m.(popped := m.popped + [got]), whole)
  {
  }

  // Popping leaves fewer unread messages, in the same slots.
  lemma FewerUnread(cfg: Config, m: Machine, m': Machine)
    requires UnreadWhole(cfg, m) && m'.slots == m.slots && m'.pushed == m.pushed && |m.popped| <= |m'.popped|
    ensures UnreadWhole(cfg, m')
  {
    hide Framed;
  }

  // Pushing more, or changing nothing of the record, keeps what was delivered.
  lemma DeliveredGrows(m: Machine, m': Machine, whole: bool)
    requires Delivered(m, whole) && m'.popped == m.popped && m.pushed <= m'.pushed
    ensures Delivered(m', whole)
  {
  }

  // Every step of either party keeps the invariant.
  lemma StepKeeps(cfg: Config, m: Machine, a: Action, whole: bool)
    requires cfg.Sensible() && Inv(cfg, m, whole)
    requires whole && a.StartPop? ==> a.room >= cfg.MaxPayload()
    ensures Inv(cfg, Next(cfg, m, a), whole)
  {
    hide Framed, UnreadWhole, Delivered;
    match a {
      case LoadHead => if m.producer.PHasTail? { LoadHeadKeeps(cfg, m, whole); }
      case WriteByte => if m.producer.PWriting? { WriteKeeps(cfg, m, whole); }
      case Publish => if m.producer.PWriting? { PublishKeeps(cfg, m, whole); }
      case LoadTail => if m.consumer.CHasHead? { LoadTailKeeps(cfg, m, whole); }
      case ReadByte => if m.consumer.CReading? { ReadKeeps(cfg, m, whole); }
      case Finish => if m.consumer.CReading? { FinishKeeps(cfg, m, whole); }
      case _ => OthersKeep(cfg, m, a, whole);
    }
  }

  lemma OthersKeep(cfg: Config, m: Machine, a: Action, whole: bool)
    requires cfg.Sensible() && Inv(cfg, m, whole) && (a.StartPush? || a.StartPop? || a.StartPeek?)
    requires whole && a.StartPop? ==> a.room >= cfg.MaxPayload()
    ensures Inv(cfg, Next(cfg, m, a), whole)
  {
    var m' := Next(cfg, m, a);
    assert UnreadWhole(cfg, m') by {
      forall i {:trigger m'.pushed[i]} | |m'.popped| <= i < |m'.pushed|
        ensures Framed(cfg, m'.slots[i % cfg.Count()], m'.pushed[i])
      {
        assert Framed(cfg, m.slots[i % cfg.Count()], m.pushed[i]);
      }
    }
  }

  // ── Runs ──────────────────────────────────────────────────────────────

  // A fresh ring; the slots' bytes do not matter.
  ghost predicate Fresh(cfg: Config, m: Machine) {
    && Shaped(cfg, m) && m.head == 0 && m.tail == 0
    && m.producer == PIdle && m.consumer == CIdle && m.pushed == [] && m.popped == []
  }

  function Run(cfg: Config, m: Machine, actions: seq<Action>): (r: Machine)
    requires Shaped(cfg, m)
    ensures Shaped(cfg, r)
  {
    if actions == [] then m
    else
      var m1 := Run(cfg, m, actions[..|actions| - 1]);
      StepShaped(cfg, m1, actions[|actions| - 1]);
      Next(cfg, m1, actions[|actions| - 1])
  }

  lemma StepShaped(cfg: Config, m: Machine, a: Action)
    requires Shaped(cfg, m)
    ensures Shaped(cfg, Next(cfg, m, a))
  {
  }

  // Whether every pop brings a buffer of at least the largest payload.
  predicate BigBuffers(cfg: Config, actions: seq<Action>) {
    forall a :: a in actions && a.StartPop? ==> a.room >= cfg.MaxPayload()
  }

  lemma {:induction false} RunKeeps(cfg: Config, m: Machine, actions: seq<Action>)
    requires cfg.Sensible() && Fresh(cfg, m)
    ensures Inv(cfg, Run(cfg, m, actions), BigBuffers(cfg, actions))
  {
    if actions == [] {
      CountIsSmall(cfg);
    } else {
      hide Inv, Next;
      var init, a := actions[..|actions| - 1], actions[|actions| - 1];
      RunKeeps(cfg, m, init);
      WeakerInv(cfg, Run(cfg, m, init), BigBuffers(cfg, init), BigBuffers(cfg, actions));
      StepKeeps(cfg, Run(cfg, m, init), a, BigBuffers(cfg, actions));
    }
  }

  lemma WeakerInv(cfg: Config, m: Machine, a: bool, b: bool)
    requires Inv(cfg, m, a) && (b ==> a)
    ensures Inv(cfg, m, b)
  {
  }

  // Over every interleaving: what was popped is, message by message, what was
  // pushed, each cut at most at its buffer; with buffers of the largest payload,
  // it is exactly a prefix of what was pushed.
  lemma PoppedIsPrefix(cfg: Config, m: Machine, actions: seq<Action>)
    requires cfg.Sensible() && Fresh(cfg, m)
    ensures var r := Run(cfg, m, actions);
      && |r.popped| <= |r.pushed|
      && (forall i :: 0 <= i < |r.popped| ==> r.popped[i] <= r.pushed[i])
      && (BigBuffers(cfg, actions) ==> r.popped <= r.pushed)
  {
    hide Run;
    RunKeeps(cfg, m, actions);
  }

  // The slot a producer is writing is never one that holds an unread message,
  // so nothing unread is overwritten and nothing half-written is read.
  lemma WriterAndReadersApart(cfg: Config, m: Machine, actions: seq<Action>)
    requires cfg.Sensible() && Fresh(cfg, m)
    ensures var r := Run(cfg, m, actions);
      && (r.producer.PWriting? ==>
            forall i :: |r.popped| <= i < |r.pushed| ==>
              cfg.Index(i % U64_LIMIT) != cfg.Index(r.producer.tail))
      && (r.producer.PWriting? && r.consumer.CReading? ==>
            cfg.Index(r.consumer.head) != cfg.Index(r.producer.tail))
  {
    hide Run;
    RunKeeps(cfg, m, actions);
    var r := Run(cfg, m, actions);
    if r.producer.PWriting? {
      IndexIs(cfg, |r.pushed|);
      forall i | |r.popped| <= i < |r.pushed| ensures cfg.Index(i % U64_LIMIT) != cfg.Index(r.producer.tail) {
        IndexIs(cfg, i);
        DifferentSlots(i, |r.pushed|, cfg.Count());
      }
    }
  }

  // The wrapped difference of the stored counters is always the true number of
  // unread messages, and they are equal exactly when there is none.
  lemma CountersTellOccupancy(cfg: Config, m: Machine, actions: seq<Action>)
    requires cfg.Sensible() && Fresh(cfg, m)
    ensures var r := Run(cfg, m, actions);
      && WrappingSub(r.tail, r.head) == |r.pushed| - |r.popped| <= cfg.Count()
      && (r.head == r.tail <==> |r.popped| == |r.pushed|)
  {
    hide Run;
    RunKeeps(cfg, m, actions);
    CountIsSmall(cfg);
    var r := Run(cfg, m, actions);
    WrappedDifference(|r.pushed|, |r.popped|);
  }
}
