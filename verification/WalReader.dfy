// The log reader, and what reading gives after any crash.
module WalReader {
  import opened Common
  import opened Bytes
  import opened WalSegment
  import opened WalLog
  import opened WalFiles
  import opened WalWriters

  // The segment to start from: binary search for the last one that begins at or
  // before `start`, or the first of all.
  method FindStart(segments: seq<Segment>, start: nat) returns (i: nat)
    requires segments != [] && Ascending(segments)
    ensures StartsAt(segments, start, i)
  {
    var low, high: nat := 0, |segments|;
    while low < high
      invariant low <= high <= |segments|
      invariant forall j :: 0 <= j < low ==> segments[j].0 < start
      invariant forall j :: high <= j < |segments| ==> start < segments[j].0
    {
      var mid := (low + high) / 2;
      if segments[mid].0 == start { return mid; }
      if segments[mid].0 < start { low := mid + 1; } else { high := mid; }
    }
    return if low == 0 then 0 else low - 1;
  }

  // Deliver the records numbered `start` and above to a callback, until it
  // declines. `got` is what it was given; the count is returned. On a directory
  // that holds a log, that is exactly the log's records from `start` on.
  method ReadFrom(crc: Checksum, disk: WalDirectory, start: nat, go: Callback, ghost chunks: seq<Chunk>)
    returns (r: Result<nat, WalError>, got: seq<Record>)
    ensures r.Ok? ==> r.value == |got|
    ensures Stores(crc, disk.files, chunks) ==>
              r.Ok? && got == Deliver(NumberedFrom(0, Flat(chunks), start), go, []).got
  {
    hide Stores, Flat, NumberedFrom, Deliver, ReadSegments, ReadSegment;
    var segments := disk.ListSegments();
    got := [];
    if segments == [] {
      EmptyRead(crc, disk.files, chunks, start, go);
      return Ok(0), got;
    }
    var startIdx := FindStart(segments, start);
    StoredRead(crc, disk.files, segments, chunks, startIdx, start, go);
    r, got := ReadAll(crc, segments, startIdx, start, go);
  }

  // The two loops of reading: over segments, and over the records of each.
  method ReadAll(crc: Checksum, segments: seq<Segment>, startIdx: nat, start: nat, go: Callback)
    returns (r: Result<nat, WalError>, got: seq<Record>)
    requires startIdx <= |segments|
    ensures var state := ReadSegments(crc, segments, startIdx, start, go, []);
      got == state.got && r == if state.Failed? then Err(Corrupt(state.sequence)) else Ok(|got|)
  {
    hide Decode;
    got := [];
    for i := startIdx to |segments|
      invariant ReadSegments(crc, segments, startIdx, start, go, []) == ReadSegments(crc, segments, i, start, go, got)
    {
      var data := segments[i].1;
      if |data| == 0 { continue; }
      var offset: nat := 0;
      ghost var before := got;
      while offset < |data|
        invariant offset <= |data|
        invariant ReadSegment(crc, data, 0, start, go, before) == ReadSegment(crc, data, offset, start, go, got)
        decreases |data| - offset
      {
        match Decode(crc, data, offset) {
          case Ok(d) =>
            offset := offset + d.consumed;
            if d.sequence >= start {
              got := got + [(d.sequence, d.payload)];
              if !go(got) { return Ok(|got|), got; }
            }
          case Err(Incomplete) =>
            break;
          case Err(CrcMismatch(s)) =>
            return Err(Corrupt(s)), got;
        }
      }
      assert ReadSegment(crc, data, 0, start, go, before) == Reading(got);
    }
    return Ok(|got|), got;
  }

  lemma {:induction false} EmptyRead(crc: Checksum, files: Files, chunks: seq<Chunk>, start: nat, go: Callback)
    requires Lists([], files)
    ensures Stores(crc, files, chunks) ==> Deliver(NumberedFrom(0, Flat(chunks), start), go, []).got == []
  {
    if Stores(crc, files, chunks) {
      ListsUnique([], SegmentsOf(crc, chunks), files);
      assert chunks == [];
    }
  }

  lemma {:induction false} StoredRead(crc: Checksum, files: Files, segments: seq<Segment>, chunks: seq<Chunk>, i: nat,
                                      start: nat, go: Callback)
    requires Lists(segments, files) && StartsAt(segments, start, i)
    ensures Stores(crc, files, chunks) ==>
              var state := ReadSegments(crc, segments, i, start, go, []);
              state == Deliver(NumberedFrom(0, Flat(chunks), start), go, []) && !state.Failed?
  {
    hide Lists, BytesOf, ReadSegments, NumberedFrom, Deliver;
    if Stores(crc, files, chunks) {
      ListsUnique(segments, SegmentsOf(crc, chunks), files);
      ReadsExactly(crc, segments, chunks, i, start, go);
      DeliverNeverFails(NumberedFrom(0, Flat(chunks), start), go, []);
    }
  }

  lemma {:induction false} DeliverNeverFails(records: seq<Record>, go: Callback, got: seq<Record>)
    ensures !Deliver(records, go, got).Failed?
    ensures (forall g :: go(g)) ==> Deliver(records, go, got) == Reading(got + records)
    decreases |records|
  {
    if records == [] {
      assert got + records == got;
    } else {
      DeliverNeverFails(records[1..], go, got + [records[0]]);
      assert got + [records[0]] + records[1..] == got + records;
    }
  }

  // Reading all of a log from number `start` gives one record for each number
  // from there to the end, in order, with the payload appended under it; so
  // reading from zero counts exactly the writer's next sequence number.
  lemma ReadBack(crc: Checksum, files: Files, chunks: seq<Chunk>, start: nat, got: seq<Record>)
    requires Stores(crc, files, chunks)
    requires got == Deliver(NumberedFrom(0, Flat(chunks), start), _ => true, []).got
    ensures |Flat(chunks)| == Count(chunks) && |got| == Max(0, |Flat(chunks)| - start)
    ensures forall i :: 0 <= i < |got| ==> got[i] == (start + i, Flat(chunks)[start + i])
  {
    hide NumberedFrom, Deliver, Flat, Stores;
    StoredCounts(crc, files, chunks);
    NumberedExactly(0, Flat(chunks), start);
    var records := NumberedFrom(0, Flat(chunks), start);
    DeliverNeverFails(records, _ => true, []);
    assert [] + records == records;
  }

  // ── Crashes ───────────────────────────────────────────────────────────

  // A crash cuts the last file of a log at some byte.
  lemma {:induction false} CrashLeaves(crc: Checksum, files: Files, chunks: seq<Chunk>, k: nat)
    requires Stores(crc, files, chunks) && chunks != [] && k <= SizeOf(chunks[|chunks| - 1].payloads)
    ensures var last := chunks[|chunks| - 1];
      && last.first in files && k <= |files[last.first]|
      && StoresCut(crc, files[last.first := files[last.first][..k]], chunks, k)
  {
    hide Lists, BytesOf, SizeOf, Contiguous, StorableLog;
    StoredNames(crc, files, chunks);
    StoresLast(crc, files, chunks);
    var last := chunks[|chunks| - 1];
    ListsSetLast(SegmentsOf(crc, chunks), files, BytesOf(crc, last.first, last.payloads)[..k]);
  }

  // What survives is a prefix of what was appended, with everything in it that
  // had been flushed: at most `unflushed` records, the last ones, are lost.
  lemma CrashLosesOnlyUnflushed(chunks: seq<Chunk>, k: nat, unflushed: nat)
    requires chunks != [] && Contiguous(chunks) && StorableLog(chunks)
    requires var last := chunks[|chunks| - 1];
      unflushed <= |last.payloads| && SizeOf(last.payloads[..|last.payloads| - unflushed]) <= k
    ensures var survived := Flat(AfterCrash(chunks, k));
      survived <= Flat(chunks) && |survived| + unflushed >= |Flat(chunks)|
  {
    hide Contiguous, StorableLog, Flat, SizeOf, Whole;
    var last := chunks[|chunks| - 1];
    AfterCrashIsLog(chunks, k);
    FlatCounts(chunks);
    FlushedSurvives(last.payloads, k, |last.payloads| - unflushed);
  }
}
