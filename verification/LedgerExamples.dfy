// Runs on which the ledger's own check and its solvency fail.
module LedgerExamples {
  import opened Common
  import opened LedgerSpec
  import opened LedgerTotals
  import opened Conservation
  import opened Solvency
  import opened Journal
  import opened LedgerChecks

  // A loss settled beyond what the user has available overdraws the wallet.
  lemma LossOverdraws()
    ensures !Solvent(LedgerAfter(LeakyRun()[..5]))
  {
    hide LedgerAfter;
    FiveCalls(LeakyRun()[..5]);
    assert !NonNegative(LedgerAfter(LeakyRun()[..5]).Bal(1, Futures));
  }

  // A deposit opens a position, which then closes with a profit of 3.
  function ProfitRun(): seq<LedgerCall> {
    LeakyRun()[..4] + [LedgerCall(OpCloseSettled(1, 10, 3, 0), AdminKey("e"), 0)]
  }

  lemma EscrowPost(l: Ledger, d: Slot, c: Slot, a: int, kind: EntryType, key: Key, ts: Micros)
    ensures var escrow := Slot(SYSTEM, Escrow, Available);
      EscrowPnl(l.Post(d, c, a, kind, key, ts).journal) == EscrowPnl(l.journal)
      + (if !kind.PositionClose? then 0 else (if d == escrow then a else 0) - (if c == escrow then a else 0))
  {
    var l' := l.Post(d, c, a, kind, key, ts);
    assert l'.journal[..|l'.journal| - 1] == l.journal;
  }

  // None of the first four calls closes a position.
  lemma NoProfitYet(l: Ledger, c: LedgerCall)
    requires c in LeakyRun()[..4]
    ensures EscrowPnl(Apply(l, c.op, c.key, c.ts).0.journal) == EscrowPnl(l.journal)
  {
    hide EscrowPnl;
    var op, k := c.op, l.Keyed(c.key);
    match op {
      case OpDeposit(u, a) =>
        EscrowPost(k.WithBal(u, Funding, k.Bal(u, Funding).(available := k.Bal(u, Funding).available + a)),
                   Slot(SYSTEM, Funding, Available), Slot(u, Funding, Available), a, Deposit, c.key, c.ts);
      case OpTransfer(u, from, to, a) =>
        var l1 := k.WithBal(u, from, k.Bal(u, from).(available := k.Bal(u, from).available - a));
        var l2 := l1.WithBal(u, to, l1.Bal(u, to).(available := l1.Bal(u, to).available + a));
        EscrowPost(l2, Slot(u, from, Available), Slot(u, to, Available), a, Transfer, c.key, c.ts);
      case OpFreeze(u, w, a) =>
        var b := k.Bal(u, w);
        EscrowPost(k.WithBal(u, w, b.(available := b.available - a, frozen := b.frozen + a)),
                   Slot(u, w, Available), Slot(u, w, Frozen), a, OrderFreeze, c.key, c.ts);
      case OpOpenPosition(u, m, fee) =>
        var b := k.Bal(u, Futures);
        EscrowPost(k.WithBal(u, Futures, b.(frozen := b.frozen - m, margin := b.margin + m)),
                   Slot(u, Futures, Frozen), Slot(u, Futures, Margin), m, PositionOpen, c.key, c.ts);
    }
  }

  lemma {:induction false} NoProfitUpTo(n: nat)
    requires n <= 4
    ensures EscrowPnl(LedgerAfter(LeakyRun()[..n]).journal) == 0
  {
    hide Apply;
    if n > 0 {
      var calls := LeakyRun()[..n];
      NoProfitUpTo(n - 1);
      assert calls[..n - 1] == LeakyRun()[..n - 1] && calls[n - 1] == LeakyRun()[..4][n - 1];
      NoProfitYet(LedgerAfter(calls[..n - 1]), calls[n - 1]);
    }
  }

  lemma ProfitNamed(l: Ledger)
    requires Shows(l, 0, Balance(0, 0, 10), {AdminKey("a"), AdminKey("b"), AdminKey("c"), AdminKey("d")})
    requires EscrowPnl(l.journal) == 0
    ensures EscrowPnl(Apply(l, OpCloseSettled(1, 10, 3, 0), AdminKey("e"), 0).0.journal) == 3
    ensures !Overdraws(l, OpCloseSettled(1, 10, 3, 0), AdminKey("e"))
  {
    hide EscrowPnl;
    var k, key := l.Keyed(AdminKey("e")), AdminKey("e");
    var l1 := Released(k, 1, 10, 3, 0);
    var l2 := PostRelease(l1, 1, 10, key, 0);
    EscrowPost(l1, Slot(1, Futures, Margin), Slot(1, Futures, Available), 10, PositionClose, key, 0);
    EscrowPost(l2, Slot(SYSTEM, Escrow, Available), Slot(1, Futures, Available), 3, PositionClose,
               LegKey(key, "pnl"), 0);
  }

  lemma ProfitRunSound()
    ensures NoOverdraft(ProfitRun())
  {
    hide LedgerAfter, Shows;
    var calls := ProfitRun();
    assert calls[..4] == LeakyRun()[..4];
    FourCalls(calls[..4]);
    NoProfitUpTo(4);
    ProfitNamed(LedgerAfter(calls[..4]));
    forall i | 0 <= i < |calls| ensures !Overdraws(LedgerAfter(calls[..i]), calls[i].op, calls[i].key) {
      if i < 4 { assert calls[i] == LeakyRun()[i]; }
    }
  }

  // A run that fails the ledger's check although nobody is overdrawn and every
  // unit held was deposited or came in as the profit.
  lemma CheckFailsSolvent()
    ensures var l := LedgerAfter(ProfitRun());
      Solvent(l) && Conserved(l) && EscrowPnl(l.journal) == 3 && !Verifies(l)
  {
    hide LedgerAfter, Solvent, Conserved, EscrowPnl, Apply, Shows;
    var calls := ProfitRun();
    ProfitRunSound();
    RunSolvent(calls);
    assert calls[..|calls|] == calls && calls[..4] == LeakyRun()[..4];
    RunConserves(calls);
    FourCalls(calls[..4]);
    NoProfitUpTo(4);
    ProfitNamed(LedgerAfter(calls[..4]));
    LedgerSnoc(calls[..4], calls[4]);
    assert calls[..4] + [calls[4]] == calls;
    CheckPassesIff(calls);
  }
}
