// The ring buffer as one thread uses it: pushes, pops, peeks and batches are
// operations on a bounded queue.
module RingBuffers {
  import opened Common
  import opened Bytes
  import opened Bits
  import opened RingProtocol

  datatype RingError = InvalidSlotCount | MessageTooLarge(size: nat, slotSize: nat) | WouldBlock | Empty

  predicate IsPowerOfTwo(n: nat) {
    n == 1 || (n > 0 && n % 2 == 0 && IsPowerOfTwo(n / 2))
  }

  lemma {:induction false} PowersOfTwo(n: nat, k: nat)
    requires n == Pow2(k)
    ensures IsPowerOfTwo(n)
  {
    if k > 0 {
      PowersOfTwo(n / 2, k - 1);
    }
  }

  // How many messages of a batch go in: the longest prefix of small enough
  // ones that fits the free slots.
  function Pushable(items: seq<Message>, free: int, max: int): (n: nat)
    ensures n <= |items| && (free >= 0 ==> n <= free)
    ensures forall i :: 0 <= i < n ==> |items[i]| <= max
    ensures n < |items| && n < free ==> |items[n]| > max
    decreases |items|
  {
    if items == [] || free <= 0 || |items[0]| > max then 0 else 1 + Pushable(items[1..], free - 1, max)
  }

  class RingBuffer {
    const cfg: Config
    const slots: array2<Byte>
    var head: nat
    var tail: nat
    ghost var queue: seq<Message>
    ghost var taken: nat

    // The row of a slot holds a message's frame.
    ghost predicate Row(r: nat, data: Message)
      requires r < slots.Length0
      reads slots
    {
      && |data| <= cfg.MaxPayload() && |Frame(data)| <= slots.Length1
      && forall j :: 0 <= j < |Frame(data)| ==> slots[r, j] == Frame(data)[j]
    }

    // The ring holds the queue, starting at message number `taken`.
    ghost predicate Valid()
      reads this, slots
    {
      && cfg.Sensible() && slots.Length0 == cfg.Count() && slots.Length1 == cfg.slotSize
      && head == taken % U64_LIMIT && tail == (taken + |queue|) % U64_LIMIT && |queue| <= cfg.Count()
      && forall i :: 0 <= i < |queue| ==> Row((taken + i) % cfg.Count(), queue[i])
    }

    // The constructor's check: the slot count must be a power of two.
    static method New(slotCount: nat, slotSize: nat) returns (r: Result<RingBuffer, RingError>)
      requires slotCount < U64_LIMIT && MSG_HEADER_SIZE <= slotSize < U32_LIMIT
      ensures r.Ok? <==> exists k :: slotCount == Pow2(k)
      ensures r.Err? ==> r.error == InvalidSlotCount
      ensures r.Ok? ==> fresh(r.value) && fresh(r.value.slots) && r.value.Valid() && r.value.queue == []
      ensures r.Ok? ==> r.value.cfg.Count() == slotCount && r.value.cfg.slotSize == slotSize
    {
      if !IsPowerOfTwo(slotCount) {
        forall k ensures slotCount != Pow2(k) {
          if slotCount == Pow2(k) { PowersOfTwo(slotCount, k); }
        }
        return Err(InvalidSlotCount);
      }
      var k, n: nat := 0, slotCount;
      while n > 1
        invariant IsPowerOfTwo(n) && n * Pow2(k) == slotCount
        decreases n
      {
        assert n / 2 * 2 == n;
        assert n / 2 * Pow2(k + 1) == n * Pow2(k) by { Halve(n / 2, Pow2(k)); }
        n, k := n / 2, k + 1;
      }
      assert slotCount == Pow2(k);
      LogIsSmall(k);
      var ring := new RingBuffer(Config(k, slotSize));
      return Ok(ring);
    }

    constructor (cfg: Config)
      requires cfg.Sensible()
      ensures Valid() && queue == [] && this.cfg == cfg && fresh(slots)
    {
      this.cfg := cfg;
      slots := new Byte[cfg.Count(), cfg.slotSize]((_, _) => 0);
      head, tail, queue, taken := 0, 0, [], 0;
    }

    // Write a message to the next slot; returns its number, modulo 2^64.
    method TryPush(data: Message) returns (r: Result<nat, RingError>)
      requires Valid()
      modifies this, slots
      ensures Valid()
      ensures r == if |data| > cfg.MaxPayload() then Err(MessageTooLarge(|data|, cfg.slotSize))
                   else if old(|queue|) == cfg.Count() then Err(WouldBlock)
                   else Ok(old(tail))
      ensures queue == if r.Ok? then old(queue) + [data] else old(queue)
    {
      if |data| > cfg.MaxPayload() { return Err(MessageTooLarge(|data|, cfg.slotSize)); }
      var t, h := tail, head;
      CountIsSmall(cfg);
      WrappedDifference(taken + |queue|, taken);
      if WrappingSub(t, h) >= cfg.Count() { return Err(WouldBlock); }
      var idx := cfg.Index(t);
      IndexIs(cfg, taken + |queue|);
      WriteSlot(idx, Frame(data));
      WrappedNext(taken + |queue|);
      tail := WrappingAdd(t, 1);
      queue := queue + [data];
      return Ok(t);
    }

    // Length and payload go to one slot; the other unread slots stay.
    method WriteSlot(idx: nat, frame: seq<Byte>)
      requires Valid() && |queue| < cfg.Count() && idx == (taken + |queue|) % cfg.Count()
      requires |frame| <= cfg.slotSize
      modifies slots
      ensures Valid()
      ensures forall j :: 0 <= j < |frame| ==> slots[idx, j] == frame[j]
    {
      for i := 0 to |frame|
        invariant forall r, j :: 0 <= r < slots.Length0 && 0 <= j < slots.Length1 && r != idx ==>
                    slots[r, j] == old(slots[r, j])
        invariant forall j :: 0 <= j < i ==> slots[idx, j] == frame[j]
      {
        slots[idx, i] := frame[i];
      }
      forall i | 0 <= i < |queue| ensures Row((taken + i) % cfg.Count(), queue[i]) {
        DifferentSlots(taken + i, taken + |queue|, cfg.Count());
        assert old(Row((taken + i) % cfg.Count(), queue[i]));
      }
    }

    // Copy the next message to a buffer, as much as fits; it stays in the ring.
    method Peek(buf: array<Byte>) returns (r: Result<nat, RingError>)
      requires Valid()
      modifies buf
      ensures Valid()
      ensures queue == [] ==> r == Err(Empty)
      ensures queue != [] ==> r == Ok(Min(|queue[0]|, buf.Length)) && buf[..r.value] == queue[0][..r.value]
    {
      var h, t := head, tail;
      CountIsSmall(cfg);
      WrappedDifference(taken + |queue|, taken);
      if h == t { return Err(Empty); }
      var idx := cfg.Index(h);
      IndexIs(cfg, taken);
      assert Row((taken + 0) % cfg.Count(), queue[0]);
      var msgLen := ReadLength(idx, queue[0]);
      var copyLen := Min(Min(msgLen, buf.Length), cfg.MaxPayload());
      for i := 0 to copyLen
        invariant forall j :: 0 <= j < i ==> buf[j] == queue[0][j]
      {
        assert Frame(queue[0])[MSG_HEADER_SIZE + i] == queue[0][i];
        buf[i] := slots[idx, MSG_HEADER_SIZE + i];
      }
      return Ok(copyLen);
    }

    method ReadLength(idx: nat, ghost data: Message) returns (n: nat)
      requires idx < slots.Length0 && slots.Length1 >= MSG_HEADER_SIZE && cfg.Sensible() && Row(idx, data)
      ensures n == |data|
    {
      var header := [slots[idx, 0], slots[idx, 1], slots[idx, 2], slots[idx, 3]];
      assert header <= Frame(data);
      FrameHeader(data, header);
      assert header[..MSG_HEADER_SIZE] == header;
      n := FromLe(header);
    }

    // Read the next message and free its slot.
    method TryPop(buf: array<Byte>) returns (r: Result<nat, RingError>)
      requires Valid()
      modifies this, buf
      ensures Valid()
      ensures old(queue) == [] ==> r == Err(Empty) && queue == []
      ensures old(queue) != [] ==>
                && r == Ok(Min(|old(queue)[0]|, buf.Length)) && buf[..r.value] == old(queue)[0][..r.value]
                && queue == old(queue)[1..]
    {
      r := Peek(buf);
      if r.Ok? { Free(); }
    }

    // Advance the head past the first message.
    method Free()
      requires Valid() && queue != []
      modifies this
      ensures Valid() && queue == old(queue)[1..]
    {
      WrappedNext(taken);
      forall i | 0 <= i < |queue| - 1 ensures Row((taken + 1 + i) % cfg.Count(), queue[1..][i]) {
        assert Row((taken + (i + 1)) % cfg.Count(), queue[i + 1]);
      }
      head := WrappingAdd(head, 1);
      taken, queue := taken + 1, queue[1..];
    }

    // Push messages up to the first that is too large or finds the ring full.
    // Being too large is always an error, and so is a ring full from the start,
    // even if messages before it went in; only a ring filled on the way is not.
    method TryPushBatch(items: seq<Message>) returns (r: Result<nat, RingError>)
      requires Valid()
      modifies this, slots
      ensures Valid()
      ensures var n := Pushable(items, cfg.Count() - old(|queue|), cfg.MaxPayload());
        && queue == old(queue) + items[..n]
        && (r.Err? <==> n < |items| && (|items[n]| > cfg.MaxPayload() || n == 0))
        && (r.Ok? ==> r.value == n && (n < |items| ==> |queue| == cfg.Count()))
        && (r == Err(WouldBlock) ==> queue == old(queue) && |queue| == cfg.Count())
        && (r.Err? && r.error != WouldBlock ==>
              n < |items| && r.error == MessageTooLarge(|items[n]|, cfg.slotSize) && |items[n]| > cfg.MaxPayload())
    {
      ghost var free := cfg.Count() - |queue|;
      assert free >= 0;
      hide RingBuffer.Valid, Pow2, Pushable;
      var count: nat := 0;
      for i := 0 to |items|
        invariant Valid() && count == i && queue == old(queue) + items[..i] && i <= free
        invariant Pushable(items, free, cfg.MaxPayload()) == i + Pushable(items[i..], free - i, cfg.MaxPayload())
      {
        PushableFrom(items, i, free, cfg.MaxPayload());
        var one := TryPush(items[i]);
        match one {
          case Ok(_) =>
            PrefixGrows(old(queue), items, i);
            count := count + 1;
          case Err(WouldBlock) =>
            if count > 0 { return Ok(count); }
            return Err(WouldBlock);
          case Err(e) =>
            return Err(e);
        }
      }
      return Ok(count);
    }

    // Read up to `max` messages, each into a vector of its own size.
    method TryPopBatch(max: nat) returns (out: seq<Message>)
      requires Valid()
      modifies this
      ensures Valid()
      ensures |out| == Min(max, |old(queue)|)
      ensures out == old(queue)[..|out|] && queue == old(queue)[|out|..]
    {
      out := [];
      while |out| < max
        invariant Valid() && |out| <= max && |out| <= |old(queue)|
        invariant out == old(queue)[..|out|] && queue == old(queue)[|out|..]
      {
        CountIsSmall(cfg);
        WrappedDifference(taken + |queue|, taken);
        if head == tail { break; }
        ghost var n := |out|;
        var idx := cfg.Index(head);
        IndexIs(cfg, taken);
        assert Row((taken + 0) % cfg.Count(), queue[0]);
        var msgLen := ReadLength(idx, queue[0]);
        var copyLen := Min(msgLen, cfg.MaxPayload());
        var entry: Message := [];
        while |entry| < copyLen
          invariant |entry| <= copyLen && entry == queue[0][..|entry|]
        {
          assert Frame(queue[0])[MSG_HEADER_SIZE + |entry|] == queue[0][|entry|];
          entry := entry + [slots[idx, MSG_HEADER_SIZE + |entry|]];
        }
        assert entry == old(queue)[n];
        out := out + [entry];
        Free();
      }
    }
  }

  lemma PushableFrom(items: seq<Message>, i: nat, free: int, max: int)
    requires i < |items|
    ensures Pushable(items[i..], free - i, max)
         == if free <= i || |items[i]| > max then 0 else 1 + Pushable(items[i + 1..], free - (i + 1), max)
  {
    assert items[i..][0] == items[i] && items[i..][1..] == items[i + 1..];
  }

  lemma PrefixGrows(queue: seq<Message>, items: seq<Message>, i: nat)
    requires i < |items|
    ensures (queue + items[..i]) + [items[i]] == queue + items[..i + 1]
  {
  }

  // A batch that fails with its first message in the ring.
  method LostCount() returns (ring: RingBuffer, r: Result<nat, RingError>)
    ensures ring.queue == [[1]] && r == Err(MessageTooLarge(5, 8))
  {
    ring := new RingBuffer(Config(1, 8));
    var items: seq<Message> := [[1], [0, 0, 0, 0, 0]];
    assert ring.cfg.MaxPayload() == 4 && ring.cfg.Count() == 2 by { assert Pow2(1) == 2 * Pow2(0); }
    assert items[1..][0] == items[1] && items[..1] == [[1]];
    assert Pushable(items[1..], 1, 4) == 0;
    assert Pushable(items, 2, 4) == 1;
    r := ring.TryPushBatch(items);
  }

  lemma Halve(h: nat, p: nat)
    ensures h * (2 * p) == (h * 2) * p
  {
  }

  lemma {:induction false} LogIsSmall(k: nat)
    requires Pow2(k) < U64_LIMIT
    ensures k < 64
  {
    if k >= 64 {
      Pow2Of64();
      Pow2Adds(k - 64, 64);
      MultipleSize(Pow2(k - 64), Pow2(64));
    }
  }
}
