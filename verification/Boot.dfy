// Booting after a crash: the events that survive in the log files are a prefix
// of those written, and what is rebuilt from them is sound.
module Boot {
  import opened Common
  import opened WalSegment
  import opened WalLog
  import opened WalFiles
  import opened WalWriters
  import opened WalReader
  import opened PostTradeSpec
  import opened LedgerChecks
  import PostTradeSafety
  import opened EngineSpec
  import opened TakerReplay
  import opened Engine
  import opened PostTrade

  type Encoder = Event -> Payload

  function EncodeAll(encode: Encoder, log: seq<Event>): (r: seq<Payload>)
    ensures |r| == |log|
    ensures forall i :: 0 <= i < |log| ==> r[i] == encode(log[i])
  {
    seq(|log|, i requires 0 <= i < |log| => encode(log[i]))
  }

  // Two logs with the same encoding are the same, if events can be decoded.
  ghost predicate Decodable(encode: Encoder) {
    forall e, e' :: encode(e) == encode(e') ==> e == e'
  }

  // After a crash at any byte of the last file, the next open continues a log of
  // exactly the first n events for some n, the reader delivers those n, and the
  // ledger rebuilt from them passes its check.
  lemma CrashBoot(crc: Checksum, encode: Encoder, log: seq<Event>, files: Files, chunks: seq<Chunk>, k: nat)
    requires Decodable(encode) && Stores(crc, files, chunks) && chunks != [] && Flat(chunks) == EncodeAll(encode, log)
    requires k <= SizeOf(chunks[|chunks| - 1].payloads)
    ensures var n := Count(AfterCrash(chunks, k));
      && n <= |log| && Flat(AfterCrash(chunks, k)) == EncodeAll(encode, log[..n])
      && StoresCut(crc, files[chunks[|chunks| - 1].first := files[chunks[|chunks| - 1].first][..k]], chunks, k)
      && Verifies(Replay(EMPTY_POST_STATE, log[..n]).money.ledger)
      && forall other :: EncodeAll(encode, other) == Flat(AfterCrash(chunks, k)) ==> other == log[..n]
  {
    hide BytesOf, SizeOf, Flat, Lists, AfterCrash, Contiguous, StorableLog, StoresCut, Verifies, Replay;
    CrashLeaves(crc, files, chunks, k);
    StoresLog(crc, files, chunks);
    AfterCrashIsLog(chunks, k);
    var n := Count(AfterCrash(chunks, k));
    assert Flat(AfterCrash(chunks, k)) == EncodeAll(encode, log)[..n] == EncodeAll(encode, log[..n]);
    PostTradeSafety.ReplayVerifies(log[..n]);
    forall other | EncodeAll(encode, other) == EncodeAll(encode, log[..n]) ensures other == log[..n] {
      assert |other| == n;
      forall i | 0 <= i < n ensures other[i] == log[..n][i] {
        assert encode(other[i]) == EncodeAll(encode, other)[i] == encode(log[..n][i]);
      }
    }
  }

  // ── The boot sequence ─────────────────────────────────────────────────

  type Decoder = Payload -> Option<Event>

  datatype BootError =
    | LogFailed(error: WalError)
    | SequenceSkipped(expected: nat, got: nat)
    | DecodeFailed(sequence: nat)
    | ApplyFailed(sequence: nat, refused: ApplyError)
    | LedgerViolated(violation: Violation)
    | CountDiffers(replayed: nat, next: nat)

  datatype Server = Server(engine: MatchingEngine, post: PostTradeProcessor, wal: WalWriter)

  // The engine rebuilt from the records read so far, or why the boot stops.
  function Rebuilt(decode: Decoder, got: seq<Record>): Result<EngineState, BootError> {
    if got == [] then Ok(EMPTY_ENGINE)
    else
      var n := |got| - 1;
      match Rebuilt(decode, got[..n])
      case Err(e) => Err(e)
      case Ok(st) =>
        if got[n].0 != n then Err(SequenceSkipped(n, got[n].0))
        else
          match decode(got[n].1)
          case None => Err(DecodeFailed(n))
          case Some(e) =>
            match EngineSpec.ApplyEvent(st, e)
            case Err(error) => Err(ApplyFailed(n, error))
            case Ok(st1) => Ok(st1)
  }

  function EventsOf(decode: Decoder, got: seq<Record>): seq<Event> {
    if got == [] then []
    else
      EventsOf(decode, got[..|got| - 1])
      + match decode(got[|got| - 1].1) { case None => [] case Some(e) => [e] }
  }

  // The records of a log under their numbers.
  ghost predicate RecordsOf(encode: Encoder, log: seq<Event>, got: seq<Record>) {
    |got| == |log| && forall i :: 0 <= i < |got| ==> got[i] == (i, encode(log[i]))
  }

  ghost predicate Inverse(decode: Decoder, encode: Encoder) {
    forall e :: decode(encode(e)) == Some(e)
  }

  // Rebuilding from the records of a log is replaying the log.
  lemma {:induction false} RebuiltIsReplay(decode: Decoder, encode: Encoder, log: seq<Event>, got: seq<Record>)
    requires Inverse(decode, encode) && RecordsOf(encode, log, got)
    ensures EventsOf(decode, got) == log
    ensures match ReplayAll(EMPTY_ENGINE, log)
            case Ok(st) => Rebuilt(decode, got) == Ok(st)
            case Err(_) => Rebuilt(decode, got).Err? && Rebuilt(decode, got).error.ApplyFailed?
    decreases |got|
  {
    hide EngineSpec.ApplyEvent;
    if got != [] {
      var n := |got| - 1;
      RebuiltIsReplay(decode, encode, log[..n], got[..n]);
      assert log == log[..n] + [log[n]];
      ReplayConcat(EMPTY_ENGINE, log[..n], [log[n]]);
      if ReplayAll(EMPTY_ENGINE, log[..n]).Ok? {
        ReplayOne(ReplayAll(EMPTY_ENGINE, log[..n]).value, log[n]);
      }
    }
  }

  // What the reader hands over: everything, or up to the record that stops it.
  lemma {:induction false} DeliveredUpTo(records: seq<Record>, go: Callback, got: seq<Record>) returns (m: nat)
    ensures m <= |records| && Deliver(records, go, got).got == got + records[..m]
    ensures m < |records| ==> !go(Deliver(records, go, got).got)
    decreases |records|
  {
    if records == [] || !go(got + [records[0]]) {
      m := if records == [] then 0 else 1;
      assert got + records[..m] == if records == [] then got else got + [records[0]];
    } else {
      var rest := DeliveredUpTo(records[1..], go, got + [records[0]]);
      m := rest + 1;
      assert got + [records[0]] + records[1..][..rest] == got + records[..m];
    }
  }

  lemma {:induction false} PrefixRebuilds(decode: Decoder, records: seq<Record>, m: nat)
    requires m <= |records| && Rebuilt(decode, records).Ok?
    ensures Rebuilt(decode, records[..m]).Ok?
    decreases |records|
  {
    hide EngineSpec.ApplyEvent;
    if m == |records| {
      assert records[..m] == records;
    } else {
      assert records[..|records| - 1][..m] == records[..m];
      PrefixRebuilds(decode, records[..|records| - 1], m);
    }
  }

  lemma {:induction false} PrefixFails(decode: Decoder, records: seq<Record>, m: nat)
    requires m <= |records| && Rebuilt(decode, records[..m]).Err?
    ensures Rebuilt(decode, records) == Rebuilt(decode, records[..m])
    decreases |records|
  {
    hide EngineSpec.ApplyEvent;
    if m == |records| {
      assert records[..m] == records;
    } else {
      assert records[..|records| - 1][..m] == records[..m];
      PrefixFails(decode, records[..|records| - 1], m);
    }
  }

  // With the rebuild as callback: all records if it succeeds, else up to the
  // one on which it fails.
  lemma DeliveredRebuilds(decode: Decoder, records: seq<Record>, got: seq<Record>, go: Callback)
    requires got == Deliver(records, go, []).got && forall g :: go(g) == Rebuilt(decode, g).Ok?
    ensures Rebuilt(decode, records).Ok? ==> got == records
    ensures Rebuilt(decode, records).Err? ==> Rebuilt(decode, got) == Rebuilt(decode, records)
  {
    hide Rebuilt, Deliver;
    var m := DeliveredUpTo(records, go, []);
    assert [] + records[..m] == records[..m];
    if m == |records| {
      assert records[..m] == records;
    } else if Rebuilt(decode, records).Ok? {
      PrefixRebuilds(decode, records, m);
    } else {
      PrefixFails(decode, records, m);
    }
  }

  lemma SurvivingEvents(crc: Checksum, encode: Encoder, log: seq<Event>, files: Files, chunks: seq<Chunk>, k: nat)
    requires StoresCut(crc, files, chunks, k) && Flat(chunks) == EncodeAll(encode, log)
    ensures var n := Count(AfterCrash(chunks, k));
      n <= |log| && Flat(AfterCrash(chunks, k)) == EncodeAll(encode, log[..n])
  {
    hide BytesOf, Flat, Lists, AfterCrash, Contiguous, StorableLog;
    AfterCrashIsLog(chunks, k);
    var n := Count(AfterCrash(chunks, k));
    assert Flat(AfterCrash(chunks, k)) == EncodeAll(encode, log)[..n] == EncodeAll(encode, log[..n]);
  }

  // What the boot reads back, once the writer has opened the log.
  lemma BootReads(crc: Checksum, encode: Encoder, decode: Decoder, survived: seq<Event>, wal: WalWriter, go: Callback,
                  got: seq<Record>)
    requires Inverse(decode, encode) && wal.Valid() && wal.crc == crc
    requires Flat(wal.chunks) == EncodeAll(encode, survived)
    requires got == Deliver(NumberedFrom(0, Flat(wal.chunks), 0), go, []).got
    requires forall g :: go(g) == Rebuilt(decode, g).Ok?
    ensures wal.nextSequence == |survived|
    ensures match ReplayAll(EMPTY_ENGINE, survived)
            case Ok(st) => Rebuilt(decode, got) == Ok(st) && EventsOf(decode, got) == survived && |got| == |survived|
            case Err(_) => Rebuilt(decode, got).Err? && Rebuilt(decode, got).error.ApplyFailed?
  {
    hide Stores, Flat, NumberedFrom, Deliver, Rebuilt, ReplayAll, Inverse, EventsOf;
    var records := NumberedFrom(0, Flat(wal.chunks), 0);
    StoredCounts(crc, wal.disk.files, wal.chunks);
    NumberedExactly(0, Flat(wal.chunks), 0);
    RebuiltIsReplay(decode, encode, survived, records);
    DeliveredRebuilds(decode, records, got, go);
  }

  // Hand one record to engine and post-trade.
  method ApplyRecord(engine: MatchingEngine, post: PostTradeProcessor, decode: Decoder, got: seq<Record>, i: nat)
    returns (r: Option<BootError>)
    requires i < |got| && engine.Valid() && post.Valid()
    requires Rebuilt(decode, got[..i]) == Ok(engine.View())
    requires post.View() == Replay(EMPTY_POST_STATE, EventsOf(decode, got[..i]))
    modifies engine, engine.orderbook, post, post.positions, post.ledger
    ensures r.None? <==> Rebuilt(decode, got[..i + 1]).Ok?
    ensures r.Some? ==> Rebuilt(decode, got[..i + 1]) == Err(r.value)
    ensures r.None? ==>
              && engine.Valid() && post.Valid()
              && Rebuilt(decode, got[..i + 1]) == Ok(engine.View())
              && post.View() == Replay(EMPTY_POST_STATE, EventsOf(decode, got[..i + 1]))
  {
    hide EngineSpec.ApplyEvent, ApplyLogged, MatchingEngine.Valid, PostTradeProcessor.Valid;
    assert got[..i + 1][..i] == got[..i];
    if got[i].0 != i { return Some(SequenceSkipped(i, got[i].0)); }
    var event := decode(got[i].1);
    if event.None? { return Some(DecodeFailed(i)); }
    var refused := engine.ApplyEvent(event.value);
    if refused.Some? { return Some(ApplyFailed(i, refused.value)); }
    post.ApplyEvent(event.value);
    ghost var before := EventsOf(decode, got[..i]);
    assert (before + [event.value])[..|before|] == before;
    return None;
  }

  // Hand the records over in order, until one is refused.
  method ReplayRecords(engine: MatchingEngine, post: PostTradeProcessor, decode: Decoder, got: seq<Record>)
    returns (r: Option<BootError>)
    requires engine.Valid() && engine.View() == EMPTY_ENGINE && post.Valid() && post.View() == EMPTY_POST_STATE
    modifies engine, engine.orderbook, post, post.positions, post.ledger
    ensures r.Some? ==> Rebuilt(decode, got) == Err(r.value)
    ensures r.None? ==>
              && engine.Valid() && post.Valid() && Rebuilt(decode, got) == Ok(engine.View())
              && post.View() == Replay(EMPTY_POST_STATE, EventsOf(decode, got))
  {
    hide Rebuilt, Replay, EventsOf, MatchingEngine.Valid, MatchingEngine.View, PostTradeProcessor.Valid,
         PostTradeProcessor.View;
    NothingRebuilt(decode, got);
    for i := 0 to |got|
      invariant engine.Valid() && post.Valid()
      invariant Rebuilt(decode, got[..i]) == Ok(engine.View())
      invariant post.View() == Replay(EMPTY_POST_STATE, EventsOf(decode, got[..i]))
    {
      var failed := ApplyRecord(engine, post, decode, got, i);
      if failed.Some? {
        PrefixFails(decode, got, i + 1);
        return failed;
      }
    }
    assert got[..|got|] == got;
    return None;
  }

  // The events a directory still holds: those of the log that survived its cut.
  ghost function Survived(crc: Checksum, encode: Encoder, files: Files, log: seq<Event>, chunks: seq<Chunk>, k: nat)
    : (survived: seq<Event>)
    ensures files == map[] ==> survived == []
    ensures StoresCut(crc, files, chunks, k) && Flat(chunks) == EncodeAll(encode, log) ==>
              files != map[] && Count(AfterCrash(chunks, k)) <= |log|
              && survived == log[..Count(AfterCrash(chunks, k))]
              && Flat(AfterCrash(chunks, k)) == EncodeAll(encode, survived)
  {
    if StoresCut(crc, files, chunks, k) && Flat(chunks) == EncodeAll(encode, log) then
      SurvivingEvents(crc, encode, log, files, chunks, k);
      CutNotEmpty(crc, files, chunks, k);
      log[..Count(AfterCrash(chunks, k))]
    else []
  }

  lemma WalHolds(wal: WalWriter)
    requires wal.Valid()
    ensures Stores(wal.crc, wal.disk.files, wal.chunks)
  {
  }

  lemma NothingRebuilt(decode: Decoder, got: seq<Record>)
    ensures Rebuilt(decode, got[..0]) == Ok(EMPTY_ENGINE)
    ensures Replay(EMPTY_POST_STATE, EventsOf(decode, got[..0])) == EMPTY_POST_STATE
  {
  }

  // The open log and the records read from it, of the events that survived.
  ghost predicate ReadGives(decode: Decoder, encode: Encoder, survived: seq<Event>, wal: WalWriter, got: seq<Record>)
    reads wal, wal.disk
  {
    && wal.Valid() && Flat(wal.chunks) == EncodeAll(encode, survived) && wal.nextSequence == |survived|
    && match ReplayAll(EMPTY_ENGINE, survived)
       case Ok(st) => Rebuilt(decode, got) == Ok(st) && EventsOf(decode, got) == survived && |got| == |survived|
       case Err(_) => Rebuilt(decode, got).Err? && Rebuilt(decode, got).error.ApplyFailed?
  }

  lemma ReadRebuilds(decode: Decoder, encode: Encoder, wal: WalWriter, got: seq<Record>)
    ensures forall survived :: ReadGives(decode, encode, survived, wal, got) ==>
      && wal.Valid() && Flat(wal.chunks) == EncodeAll(encode, survived) && wal.nextSequence == |survived|
      && match ReplayAll(EMPTY_ENGINE, survived)
         case Ok(st) => Rebuilt(decode, got) == Ok(st) && EventsOf(decode, got) == survived && |got| == |survived|
         case Err(_) => Rebuilt(decode, got).Err? && Rebuilt(decode, got).error.ApplyFailed?
  {
  }

  // Open the log for writing and read all of it, as long as the engine goes along.
  method OpenAndRead(crc: Checksum, ghost encode: Encoder, decode: Decoder, disk: WalDirectory, segmentSize: nat,
                     flushEveryN: nat, ghost log: seq<Event>, ghost chunks: seq<Chunk>, ghost k: nat)
    returns (r: Result<WalWriter, BootError>, got: seq<Record>)
    requires Inverse(decode, encode)
    modifies disk
    ensures r.Ok? ==> fresh(r.value) && r.value.disk == disk
    ensures (StoresCut(crc, old(disk.files), chunks, k) && Flat(chunks) == EncodeAll(encode, log))
            || old(disk.files) == map[] ==>
              r.Ok? && ReadGives(decode, encode, Survived(crc, encode, old(disk.files), log, chunks, k), r.value, got)
  {
    hide Stores, StoresCut, Flat, AfterCrash, Rebuilt, ReplayAll, NumberedFrom, Deliver, Inverse, WalWriter.Valid;
    ghost var holds := old(disk.files) == map[]
                       || (StoresCut(crc, old(disk.files), chunks, k) && Flat(chunks) == EncodeAll(encode, log));
    ghost var survived := Survived(crc, encode, old(disk.files), log, chunks, k);
    got := [];
    var open := WalWriter.Open(crc, disk, segmentSize, flushEveryN, chunks, k);
    if open.Err? { return Err(LogFailed(open.error)), got; }
    var wal := open.value;
    var go: Callback := got => Rebuilt(decode, got).Ok?;
    if holds { WalHolds(wal); }
    var count;
    count, got := ReadFrom(crc, disk, 0, go, wal.chunks);
    if holds { BootReads(crc, encode, decode, survived, wal, go, got); }
    if count.Err? { return Err(LogFailed(count.error)), got; }
    return Ok(wal), got;
  }

  // A boot from these events: it fails exactly when the engine refuses one of
  // them, and at nothing else; otherwise engine and post-trade are what they
  // replay to, and the log goes on under the number after the last.
  ghost predicate Booted(r: Result<Server, BootError>, encode: Encoder, survived: seq<Event>)
    reads if r.Ok? then {r.value.engine, r.value.engine.orderbook, r.value.post, r.value.post.positions,
                         r.value.post.ledger, r.value.wal, r.value.wal.disk} else {}
  {
    var replayed := ReplayAll(EMPTY_ENGINE, survived);
    && (r.Ok? <==> replayed.Ok?)
    && (r.Err? ==> r.error.ApplyFailed?)
    && (r.Ok? ==>
          && r.value.engine.Valid() && r.value.engine.View() == replayed.value
          && r.value.post.Valid() && r.value.post.View() == Replay(EMPTY_POST_STATE, survived)
          && r.value.wal.Valid() && Flat(r.value.wal.chunks) == EncodeAll(encode, survived)
          && r.value.wal.nextSequence == |survived|)
  }

  // Boot: open the log, replay it into a fresh engine and a fresh post-trade
  // processor, check the ledger, and compare the number of events replayed with
  // the number the writer will give next. The directory is empty, or holds the
  // log of `log` with its last file cut at byte k.
  method BootServer(cfg: EngineConfig, crc: Checksum, ghost encode: Encoder, decode: Decoder, disk: WalDirectory,
                    segmentSize: nat, flushEveryN: nat, ghost log: seq<Event>, ghost chunks: seq<Chunk>, ghost k: nat)
    returns (r: Result<Server, BootError>)
    requires Inverse(decode, encode)
    modifies disk
    ensures StoresCut(crc, old(disk.files), chunks, k) && Flat(chunks) == EncodeAll(encode, log) ==>
              Booted(r, encode, log[..Min(Count(AfterCrash(chunks, k)), |log|)])
    ensures old(disk.files) == map[] ==> Booted(r, encode, [])
  {
    hide StoresCut, Flat, AfterCrash, Rebuilt, Replay, ReplayAll, Verifies, Inverse, MatchingEngine.Valid,
         MatchingEngine.View, WalWriter.Valid, ReadGives;
    var open, got := OpenAndRead(crc, encode, decode, disk, segmentSize, flushEveryN, log, chunks, k);
    if open.Err? { return Err(open.error); }
    var wal := open.value;
    var engine := new MatchingEngine(cfg);
    var post := new PostTradeProcessor();
    var failed := ReplayRecords(engine, post, decode, got);
    ReadRebuilds(decode, encode, wal, got);
    if failed.Some? { return Err(failed.value); }
    var violation := VerifyAllInvariants(post.ledger);
    if violation.Some? { return Err(LedgerViolated(violation.value)); }
    if |got| != wal.nextSequence { return Err(CountDiffers(|got|, wal.nextSequence)); }
    return Ok(Server(engine, post, wal));
  }
}
