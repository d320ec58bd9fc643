// The exchange: commands through the engine, its events through post-trade,
// everything to the log; and the boot that rebuilds both from it.
module Exchange {
  import opened Common
  import opened EngineSpec
  import opened EngineInvariants
  import opened LedgerChecks
  import LedgerSpec
  import opened Positions
  import opened PostTradeSpec
  import opened OpenInterest
  import opened FundingRate
  import FT = FundingTick
  import TR = TakerReplay
  import ER = EngineReplay
  import SR = StopReplay
  import PR = PostTradeReplay
  import PS = PostTradeSafety
  import FillFlows
  import Marks

  datatype Exchange = Exchange(engine: EngineState, post: PostState, log: seq<Event>)

  const FRESH := Exchange(EMPTY_ENGINE, EMPTY_POST_STATE, [])

  // A command, the clock when it is processed, and the order in which the
  // position map is walked at each event of its batch.
  datatype Input = Input(command: Command, now: Micros, rows: seq<seq<PositionKey>>)

  // An admin credit bypasses the engine; every other command goes through it.
  function AsPostStep(cfg: EngineConfig, st: EngineState, input: Input): PR.PostStep {
    match input.command
    case AdminCredit(u, amount, key, ts) => PR.AdminStep(u, amount, key, ts)
    case _ => PR.Batch(Step(cfg, st, input.command).1, input.rows, input.now)
  }

  predicate RowCount(cfg: EngineConfig, x: Exchange, input: Input) {
    input.command.AdminCredit? || |input.rows| == |Step(cfg, x.engine, input.command).1|
  }

  function Process(cfg: EngineConfig, x: Exchange, input: Input): Exchange
    requires RowCount(cfg, x, input)
  {
    var (post, log) := PR.LiveStep(x.post, x.log, AsPostStep(cfg, x.engine, input));
    Exchange(Step(cfg, x.engine, input.command).0, post, log)
  }

  // What the exchange keeps after every command.
  ghost predicate Healthy(x: Exchange) {
    && Sound(x.engine)
    && Open(x.post.positions) && NetFlat(x.post.positions)
    && Verifies(x.post.money.ledger)
    && PR.StateMatches(x.post, Replay(EMPTY_POST_STATE, x.log))
    && x.post.mark == x.engine.mark
  }

  ghost predicate LegalInput(cfg: EngineConfig, x: Exchange, input: Input) {
    && RowCount(cfg, x, input) && FreshId(x.engine, input.command)
    && match input.command
       case AdminCredit(_, amount, key, _) => amount > 0 && key.AdminKey?
       case _ => RowsFit(x.post.positions, Step(cfg, x.engine, input.command).1, input.rows)
  }

  lemma {:induction false} ConsumeVerifies(st: PostState, events: seq<Event>, rows: seq<seq<PositionKey>>, ts: Micros)
    requires |rows| == |events| && Verifies(st.money.ledger)
    ensures Verifies(Consume(st, events, rows, ts).0.money.ledger)
    decreases |events|
  {
    hide Verifies, SettlePnl, SettleRows, FillPnl, Project, MarkAfter;
    if events != [] {
      var n := |events| - 1;
      ConsumeVerifies(st, events[..n], rows[..n], ts);
      var s := Consume(st, events[..n], rows[..n], ts).0;
      var e := events[n];
      if e.OrderFilled? {
        PS.PnlVerifies(s.money, e.userId, e.symbol,
                       FillPnl(s.positions, PositionKey(e.userId, e.symbol), e.side, e.fillQty, e.fillPrice), ts);
      } else if e.FundingRateUpdate? {
        PS.RowsVerify(s.money.ledger, s.positions, rows[n], s.mark, e.fundingRate, s.money.period + 1, ts);
      }
    }
  }

  lemma StepHealthy(cfg: EngineConfig, x: Exchange, input: Input)
    requires Healthy(x) && LegalInput(cfg, x, input) && cfg.lotSize > 0
    ensures Healthy(Process(cfg, x, input))
  {
    hide Sound, Open, NetFlat, Verifies, PR.StateMatches, Step, FreshId, PR.LiveStep;
    var c := input.command;
    StepSound(cfg, x.engine, c);
    FillFlows.StepBalanced(cfg, x.engine, c);
    StepPosts(cfg, x, input);
    StepKeepsMark(cfg, x, input);
    var (post, log) := PR.LiveStep(x.post, x.log, AsPostStep(cfg, x.engine, input));
    PR.StepReplays(x.post, x.log, AsPostStep(cfg, x.engine, input));
  }

  // The post-trade half of a step.
  lemma StepPosts(cfg: EngineConfig, x: Exchange, input: Input)
    requires Open(x.post.positions) && NetFlat(x.post.positions) && Verifies(x.post.money.ledger)
    requires PR.StateMatches(x.post, Replay(EMPTY_POST_STATE, x.log))
    requires LegalInput(cfg, x, input) && FillFlows.Balanced(Step(cfg, x.engine, input.command).1)
    ensures PR.LegalStep(x.post.positions, AsPostStep(cfg, x.engine, input))
    ensures var post := PR.LiveStep(x.post, x.log, AsPostStep(cfg, x.engine, input)).0;
      Open(post.positions) && NetFlat(post.positions) && Verifies(post.money.ledger)
  {
    hide Open, NetFlat, Verifies, Step, FreshId, LedgerSpec.Apply, PR.MoneyMatches, NetOpenInterest, RowsFit;
    var events := Step(cfg, x.engine, input.command).1;
    match input.command {
      case AdminCredit(u, amount, key, ts) =>
        PS.DepositVerifies(x.post.money.ledger, u, amount, key, ts);
      case _ =>
        ConsumeVerifies(x.post, events, input.rows, input.now);
        BatchKeepsFlat(x.post.positions, events);
        PR.BatchReplays(x.post, Replay(EMPTY_POST_STATE, x.log).money, events, input.rows, input.now);
    }
  }

  // Both sides take the same mark from a command.
  lemma StepKeepsMark(cfg: EngineConfig, x: Exchange, input: Input)
    requires x.post.mark == x.engine.mark && LegalInput(cfg, x, input)
    requires PR.StateMatches(x.post, Replay(EMPTY_POST_STATE, x.log))
    ensures Process(cfg, x, input).post.mark == Process(cfg, x, input).engine.mark
  {
    hide Open, NetFlat, Verifies, Step, FreshId, LedgerSpec.Apply, PR.MoneyMatches, NetOpenInterest, RowsFit, Project;
    match input.command {
      case AdminCredit(_, _, _, _) => NoEngineEvents(cfg, x.engine, input.command);
      case _ =>
        var events := Step(cfg, x.engine, input.command).1;
        PR.BatchReplays(x.post, Replay(EMPTY_POST_STATE, x.log).money, events, input.rows, input.now);
        Marks.StepMarked(cfg, x.engine, input.command);
    }
  }

  // ── Runs ──────────────────────────────────────────────────────────────

  // A run of commands; `ok` says that each was legal when it came.
  ghost function RunAll(cfg: EngineConfig, inputs: seq<Input>): (r: (Exchange, bool)) {
    if inputs == [] then (FRESH, true)
    else
      var (x, ok) := RunAll(cfg, inputs[..|inputs| - 1]);
      var input := inputs[|inputs| - 1];
      if ok && LegalInput(cfg, x, input) then (Process(cfg, x, input), true) else (x, false)
  }

  // After every legal run: the engine state is sound, open interest nets to
  // zero, the ledger check passes, post-trade could be rebuilt, and it settles
  // at the engine's mark.
  lemma {:induction false} RunHealthy(cfg: EngineConfig, inputs: seq<Input>)
    requires cfg.lotSize > 0 && RunAll(cfg, inputs).1
    ensures Healthy(RunAll(cfg, inputs).0)
  {
    if inputs == [] {
      FreshHealthy();
    } else {
      hide Healthy, LegalInput, Process;
      RunHealthy(cfg, inputs[..|inputs| - 1]);
      StepHealthy(cfg, RunAll(cfg, inputs[..|inputs| - 1]).0, inputs[|inputs| - 1]);
    }
  }

  lemma FreshHealthy()
    ensures Healthy(FRESH)
  {
    PS.EmptyVerifies();
    forall symbol: SymbolId ensures NetOpenInterest(map[], symbol) == 0 {
      assert SignedSizes(map[], symbol) == map[];
    }
    PR.PostTradeReplayEqualsLive([]);
    hide PR.StateMatches;
  }

  // The funding command on any reachable state: the pool changes by minus what
  // could not be collected, to within 1.0075 raw units an open position.
  lemma FundingCommandMovesPool(cfg: EngineConfig, x: Exchange, input: Input)
    requires Healthy(x) && LegalInput(cfg, x, input) && input.command.ComputeFunding? && x.post.mark != 0
    ensures var rate := Step(cfg, x.engine, input.command).0.rate;
      var before, after := x.post.money, Process(cfg, x, input).post.money;
      var short := FT.Shortfall(before.ledger, x.post.positions, input.rows[0], x.post.mark, rate, before.period + 1,
                                input.now);
      && short >= 0
      && 10_000 * Abs(after.ledger.Sys(LedgerSpec.Funding) - before.ledger.Sys(LedgerSpec.Funding) + short)
         <= 10_075 * |input.rows[0]|
  {
    hide Sound, Open, NetFlat, Verifies, FreshId, SettleTick, FT.Shortfall, LedgerSpec.Ledger.Sys, Enumerates;
    var events := Step(cfg, x.engine, input.command).1;
    var e := events[0];
    assert events[..0] == [] && input.rows[..0] == [] && events == [e];
    assert Consume(x.post, events[..0], input.rows[..0], input.now) == (x.post, []);
    assert Projected(x.post.positions, events[..0]) == x.post.positions;
    FT.TickPool(x.post.money, x.post.positions, input.rows[0], x.post.mark, e.fundingRate, input.now);
  }

  // ── Boot ──────────────────────────────────────────────────────────────

  // The facts post-trade adds to the log say nothing to the engine.
  lemma {:induction false} EngineSkipsFacts(st: EngineState, facts: seq<Event>)
    requires forall e :: e in facts ==> IsFact(e)
    ensures TR.ReplayAll(st, facts) == Ok(st)
    decreases |facts|
  {
    if facts != [] {
      assert facts[0] in facts;
      EngineSkipsFacts(st, facts[1..]);
    }
  }

  ghost predicate ReplayableInputs(cfg: EngineConfig, inputs: seq<Input>) {
    inputs == []
    || (var before := inputs[..|inputs| - 1];
        ReplayableInputs(cfg, before)
        && ER.Replayable(RunAll(cfg, before).0.engine, UsedBy(before), inputs[|inputs| - 1].command))
  }

  function UsedBy(inputs: seq<Input>): ER.UsedIds {
    if inputs == [] then ER.NO_IDS
    else ER.Used(UsedBy(inputs[..|inputs| - 1]), inputs[|inputs| - 1].command)
  }

  ghost predicate InputsFit(cfg: EngineConfig, inputs: seq<Input>) {
    inputs == []
    || (var before := inputs[..|inputs| - 1];
        InputsFit(cfg, before) && ER.TakersFit(cfg, RunAll(cfg, before).0.engine, inputs[|inputs| - 1].command))
  }

  // The step's part of the log, as the engine reads it back.
  lemma StepLog(cfg: EngineConfig, x: Exchange, input: Input) returns (facts: seq<Event>)
    requires Healthy(x) && LegalInput(cfg, x, input)
    requires cfg.lotSize > 0
    ensures forall e :: e in facts ==> IsFact(e)
    ensures Process(cfg, x, input).log == x.log + (Step(cfg, x.engine, input.command).1 + facts)
  {
    hide Open, NetFlat, Verifies, Step, FreshId, Sound, LedgerSpec.Apply, PR.MoneyMatches, RowsFit, Project;
    var events := Step(cfg, x.engine, input.command).1;
    match input.command {
      case AdminCredit(u, amount, key, ts) =>
        facts := Credit(x.post.money, u, amount, key, ts).1;
        NoEngineEvents(cfg, x.engine, input.command);
        assert events + facts == facts;
      case _ =>
        facts := Consume(x.post, events, input.rows, input.now).1;
        PR.BatchReplays(x.post, Replay(EMPTY_POST_STATE, x.log).money, events, input.rows, input.now);
    }
  }

  lemma NoEngineEvents(cfg: EngineConfig, st: EngineState, c: Command)
    requires c.AdminCredit?
    ensures Step(cfg, st, c) == (st, [])
  {
  }

  // Booting from the log of any run: post-trade always comes back; the engine
  // comes back exactly when every taker's fills fit its final remainder and no
  // order was amended in place.
  lemma {:induction false} BootRecovers(cfg: EngineConfig, inputs: seq<Input>)
    requires cfg.lotSize > 0 && RunAll(cfg, inputs).1 && ReplayableInputs(cfg, inputs)
    ensures var x := RunAll(cfg, inputs).0;
      var booted := TR.ReplayAll(EMPTY_ENGINE, x.log);
      && PR.StateMatches(x.post, Replay(EMPTY_POST_STATE, x.log))
      && (booted.Ok? <==> InputsFit(cfg, inputs))
      && (booted.Ok? ==> ER.Mirrors(x.engine, booted.value, UsedBy(inputs)))
  {
    RunHealthy(cfg, inputs);
    if inputs != [] {
      hide PR.StateMatches, LegalInput, Process, Step, Sound, Open, NetFlat, Verifies, ER.Mirrors, ER.TakersFit,
           ER.Replayable, EngineSpec.ApplyEvent;
      var before, input := inputs[..|inputs| - 1], inputs[|inputs| - 1];
      BootRecovers(cfg, before);
      RunHealthy(cfg, before);
      var x := RunAll(cfg, before).0;
      var facts := StepLog(cfg, x, input);
      var events := Step(cfg, x.engine, input.command).1;
      TR.ReplayConcat(EMPTY_ENGINE, x.log, events + facts);
      var booted := TR.ReplayAll(EMPTY_ENGINE, x.log);
      if booted.Ok? {
        TR.ReplayConcat(booted.value, events, facts);
        ER.StepMirrors(cfg, x.engine, booted.value, UsedBy(before), input.command);
        var next := TR.ReplayAll(booted.value, events);
        if next.Ok? { EngineSkipsFacts(next.value, facts); }
      }
      ProcessEngine(cfg, x, input);
    }
  }

  // Booting from the log of any legal run, whatever its commands: if the engine
  // accepts the log, it holds every stop order the live one held, with its peak.
  lemma {:induction false} BootHoldsStops(cfg: EngineConfig, inputs: seq<Input>)
    requires cfg.lotSize > 0 && RunAll(cfg, inputs).1 && TR.ReplayAll(EMPTY_ENGINE, RunAll(cfg, inputs).0.log).Ok?
    ensures var x := RunAll(cfg, inputs).0;
      SR.HoldsStops(x.engine, TR.ReplayAll(EMPTY_ENGINE, x.log).value)
  {
    if inputs != [] {
      hide LegalInput, Process, Step, Healthy, SR.HoldsStops, EngineSpec.ApplyEvent;
      var before, input := inputs[..|inputs| - 1], inputs[|inputs| - 1];
      RunHealthy(cfg, before);
      var x := RunAll(cfg, before).0;
      var facts := StepLog(cfg, x, input);
      var events := Step(cfg, x.engine, input.command).1;
      TR.ReplayConcat(EMPTY_ENGINE, x.log, events + facts);
      BootHoldsStops(cfg, before);
      var booted := TR.ReplayAll(EMPTY_ENGINE, x.log).value;
      TR.ReplayConcat(booted, events, facts);
      LegalIsFresh(cfg, x, input);
      SR.StepHolds(cfg, x.engine, booted, input.command);
      EngineSkipsFacts(TR.ReplayAll(booted, events).value, facts);
      ProcessEngine(cfg, x, input);
    }
  }

  lemma LegalIsFresh(cfg: EngineConfig, x: Exchange, input: Input)
    requires Healthy(x) && LegalInput(cfg, x, input)
    ensures Sound(x.engine) && FreshId(x.engine, input.command) && RowCount(cfg, x, input)
  {
  }

  lemma ProcessEngine(cfg: EngineConfig, x: Exchange, input: Input)
    requires RowCount(cfg, x, input)
    ensures Process(cfg, x, input).engine == Step(cfg, x.engine, input.command).0
  {
  }
}
