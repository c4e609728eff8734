/**
 * The payout processor: its halt latch, the last failure, and the ledger it
 * settles against. Every call it makes to the ledger store, the wallet or
 * the daemon is appended to `trace`; each operation is proved to do exactly
 * what the settlement rules in module Payouts prescribe.
 */
module Payer {
  import opened Optional
  import U = Uint64
  import opened Payouts

  /** The payee loop: collect the eligible payees, stopping when a peer check fails. */
  method SelectPayees(cfg: PayoutsConfig, env: Env, l: Ledger, payees: seq<string>) returns (sel: Selection)
    ensures sel == Select(cfg, env, l, payees)
  {
    var mustPay: nat := 0;
    var xferdests: seq<Dest> := [];
    var integdests: map<string, Dest> := map[];
    var tempAmounts: map<string, int> := map[];
    var tempAmountsIntegrated: map<string, int> := map[];
    var totalPayoutInWei := 0;
    var calls: seq<Call> := [];
    var i := 0;
    while i < |payees|
      invariant 0 <= i <= |payees|
      invariant SelectFrom(cfg, env, l, Selection(mustPay, false, xferdests, integdests, tempAmounts,
                                                  tempAmountsIntegrated, totalPayoutInWei, calls), payees[i..])
                == Select(cfg, env, l, payees)
    {
      ghost var before := Selection(mustPay, false, xferdests, integdests, tempAmounts,
                                    tempAmountsIntegrated, totalPayoutInWei, calls);
      assert payees[i..][0] == payees[i] && payees[i..][1..] == payees[i + 1..];
      var login := payees[i];
      var amount := Balance(l, login);
      calls := calls + [GetBalance(login), GetThreshold(login)];
      var ptresh := OwnThreshold(l, login);
      if ptresh <= MinOwnThreshold {
        ptresh := cfg.threshold;
      }
      if !ReachedThreshold(amount, ptresh) {
        i := i + 1;
        continue;
      }
      mustPay := mustPay + 1;
      calls := calls + [PeerCount];
      if !env.peersOk(mustPay - 1) {
        sel := Selection(mustPay, true, xferdests, integdests, tempAmounts, tempAmountsIntegrated, totalPayoutInWei, calls);
        assert sel == Scan(cfg, env, l, before, login);
        return;
      }
      var amountInWei := Wei(cfg, amount);
      var value := U.LowBits(amountInWei);
      totalPayoutInWei := totalPayoutInWei + amountInWei;
      if KindOf(login) == Integrated {
        tempAmountsIntegrated := tempAmountsIntegrated[login := amount];
        integdests := integdests[login := Dest(login, U.Sub(value, BaseFee))];
      } else {
        tempAmounts := tempAmounts[login := amount];
        xferdests := xferdests + [Dest(login, value)];
      }
      i := i + 1;
    }
    sel := Selection(mustPay, false, xferdests, integdests, tempAmounts, tempAmountsIntegrated, totalPayoutInWei, calls);
  }

  /** The fee loop: entry `k` loses an even share of the base fee, plus one unit while a remainder is left. */
  method DeductBatchFee(xferdests: seq<Dest>) returns (out: seq<Dest>)
    requires |xferdests| > 0
    ensures out == ApplyFee(xferdests)
  {
    var nPayees := |xferdests|;
    var feePerPayee := BaseFee / nPayees;
    var feeRemainder := BaseFee % nPayees;
    out := xferdests;
    var k := 0;
    while k < |out|
      invariant 0 <= k <= nPayees == |out|
      invariant feeRemainder == if k < BaseFee % nPayees then BaseFee % nPayees - k else 0
      invariant forall j :: 0 <= j < k ==> out[j] == ApplyFee(xferdests)[j]
      invariant forall j :: k <= j < nPayees ==> out[j] == xferdests[j]
    {
      var extra := 0;
      if feeRemainder > 0 {
        extra := 1;
        feeRemainder := feeRemainder - 1;
      }
      FeeShareBound(BaseFee, nPayees, k);
      out := out[k := Dest(out[k].address, U.Sub(U.Sub(out[k].amount, feePerPayee), extra))];
      k := k + 1;
    }
  }

  class PayoutsProcessor {
    const config: PayoutsConfig
    var halt: bool
    var lastFail: Option<Failure>
    var ledger: Ledger
    var trace: seq<Call>

    constructor (config: PayoutsConfig, ledger: Ledger)
      ensures this.config == config && this.ledger == ledger
      ensures !halt && lastFail == None && trace == []
    {
      this.config := config;
      this.ledger := ledger;
      halt := false;
      lastFail := None;
      trace := [];
    }

    /** A ledger call: recorded in the trace, and applied to the ledger when it succeeds. */
    method Invoke(env: Env, c: Call) returns (ok: bool)
      modifies this
      ensures ok == Succeeds(env, c)
      ensures ledger == (if ok then Effect(old(ledger), c) else old(ledger))
      ensures trace == old(trace) + [c] && halt == old(halt) && lastFail == old(lastFail)
    {
      trace := trace + [c];
      ok := Succeeds(env, c);
      if ok {
        ledger := Effect(ledger, c);
      }
    }

    /** A wallet transfer: recorded in the trace; the answer is the transaction hash, if any. */
    method SendTransaction(env: Env, dests: seq<Dest>) returns (txHash: Option<string>)
      modifies this
      ensures txHash == env.send(dests)
      ensures trace == old(trace) + [Send(dests)]
      ensures ledger == old(ledger) && halt == old(halt) && lastFail == old(lastFail)
    {
      trace := trace + [Send(dests)];
      txHash := env.send(dests);
    }

    /** Latch the halt on a failed call. */
    method Fail(c: Call)
      modifies this
      ensures halt && lastFail == Some(CallFailed(c))
      ensures ledger == old(ledger) && trace == old(trace)
    {
      halt := true;
      lastFail := Some(CallFailed(c));
    }

    /**
     * One call of a plan whose remaining calls are `[c] + rest`: the call is
     * made, and the plan's execution `target` either goes on or ends with it.
     */
    method Step(env: Env, c: Call, ghost base: seq<Call>, ghost done: seq<Call>, ghost rest: seq<Call>,
                ghost target: Exec) returns (ok: bool)
      requires !c.Send?
      requires trace == base + done && target == Then(Exec(ledger, done, None), env, [c] + rest)
      modifies this
      ensures trace == base + (done + [c]) && halt == old(halt) && lastFail == old(lastFail)
      ensures ok ==> target == Then(Exec(ledger, done + [c], None), env, rest)
      ensures !ok ==> target == Exec(ledger, done + [c], Some(c))
    {
      ThenStep(env, Exec(ledger, done, None), c, rest);
      ok := Invoke(env, c);
    }

    /** A transfer as one call of a plan, like `Step`, answering the transaction hash. */
    method SendStep(env: Env, dests: seq<Dest>, ghost base: seq<Call>, ghost done: seq<Call>, ghost rest: seq<Call>,
                    ghost target: Exec) returns (txHash: Option<string>)
      requires trace == base + done && target == Then(Exec(ledger, done, None), env, [Send(dests)] + rest)
      modifies this
      ensures txHash == env.send(dests)
      ensures trace == base + (done + [Send(dests)]) && halt == old(halt) && lastFail == old(lastFail)
      ensures txHash.Some? ==> target == Then(Exec(ledger, done + [Send(dests)], None), env, rest)
      ensures txHash.None? ==> target == Exec(ledger, done + [Send(dests)], Some(Send(dests)))
    {
      ThenStep(env, Exec(ledger, done, None), Send(dests), rest);
      txHash := SendTransaction(env, dests);
    }

    /**
     * Pay one batch member: lock, debit, record. A failed call latches the
     * halt and ends the member's steps.
     */
    method PayMember(env: Env, login: string, amount: int, txHash: string,
                     ghost base: seq<Call>, ghost done: seq<Call>, ghost rest: seq<Call>, ghost target: Exec)
      returns (ok: bool, ghost done': seq<Call>)
      requires trace == base + done
      requires target == Then(Exec(ledger, done, None), env, BatchSteps(login, amount, txHash) + rest)
      modifies this
      ensures trace == base + done'
      ensures ok ==> target == Then(Exec(ledger, done', None), env, rest) && halt == old(halt) && lastFail == old(lastFail)
      ensures !ok ==> RunResult(halt, lastFail, ledger, trace) == AfterPlan(old(halt), old(lastFail), base, target)
    {
      var lock, debit, record := Lock(login, amount), Debit(login, amount), Record(login, txHash, amount);
      assert BatchSteps(login, amount, txHash) + rest == [lock] + ([debit] + ([record] + rest));
      ok := Step(env, lock, base, done, [debit] + ([record] + rest), target);
      done' := done + [lock];
      if !ok {
        Fail(lock);
        return;
      }
      ok := Step(env, debit, base, done', [record] + rest, target);
      done' := done' + [debit];
      if !ok {
        Fail(debit);
        return;
      }
      ok := Step(env, record, base, done', rest, target);
      done' := done' + [record];
      if !ok {
        Fail(record);
      }
    }

    /** Lock, debit and record each batch member in turn; the first failure latches the halt and ends the loop. */
    method PayBatch(env: Env, logins: seq<string>, amounts: map<string, int>, txHash: string)
      modifies this
      ensures RunResult(halt, lastFail, ledger, trace)
              == AfterPlan(old(halt), old(lastFail), old(trace), Perform(env, old(ledger), BatchPlan(logins, amounts, txHash)))
    {
      ghost var target := Perform(env, ledger, BatchPlan(logins, amounts, txHash));
      PerformIsThen(env, ledger, BatchPlan(logins, amounts, txHash));
      ghost var done: seq<Call> := [];
      var i := 0;
      while i < |logins|
        invariant 0 <= i <= |logins|
        invariant trace == old(trace) + done
        invariant halt == old(halt) && lastFail == old(lastFail)
        invariant target == Then(Exec(ledger, done, None), env, BatchPlan(logins[i..], amounts, txHash))
      {
        var login := logins[i];
        var amount := Lookup(amounts, login);
        assert logins[i..][0] == login && logins[i..][1..] == logins[i + 1..];
        var ok;
        ok, done := PayMember(env, login, amount, txHash, old(trace), done, BatchPlan(logins[i + 1..], amounts, txHash), target);
        if !ok {
          return;
        }
        i := i + 1;
      }
      assert logins[i..] == [] && done + [] == done;
    }

    /**
     * Pay one integrated destination: lock, debit, its own transfer, record
     * under that transfer's hash. A failed call latches the halt and ends the
     * destination's steps.
     */
    method PayIntegratedMember(env: Env, login: string, amount: int, integdest: Dest,
                               ghost base: seq<Call>, ghost done: seq<Call>, ghost rest: seq<Call>, ghost target: Exec)
      returns (ok: bool, ghost done': seq<Call>)
      requires trace == base + done
      requires target == Then(Exec(ledger, done, None), env, IntegratedSteps(env, login, amount, integdest) + rest)
      modifies this
      ensures trace == base + done'
      ensures ok ==> target == Then(Exec(ledger, done', None), env, rest) && halt == old(halt) && lastFail == old(lastFail)
      ensures !ok ==> RunResult(halt, lastFail, ledger, trace) == AfterPlan(old(halt), old(lastFail), base, target)
    {
      var lock, debit := Lock(login, amount), Debit(login, amount);
      ghost var record := Record(login, TxHashOf(env.send([integdest])), amount);
      assert IntegratedSteps(env, login, amount, integdest) + rest
          == [lock] + ([debit] + ([Send([integdest])] + ([record] + rest)));
      ok := Step(env, lock, base, done, [debit] + ([Send([integdest])] + ([record] + rest)), target);
      done' := done + [lock];
      if !ok {
        Fail(lock);
        return;
      }
      ok := Step(env, debit, base, done', [Send([integdest])] + ([record] + rest), target);
      done' := done' + [debit];
      if !ok {
        Fail(debit);
        return;
      }
      var txHash := SendStep(env, [integdest], base, done', [record] + rest, target);
      done' := done' + [Send([integdest])];
      if txHash.None? {
        ok := false;
        Fail(Send([integdest]));
        return;
      }
      ok := Step(env, Record(login, txHash.value, amount), base, done', rest, target);
      done' := done' + [record];
      if !ok {
        Fail(Record(login, txHash.value, amount));
      }
    }

    /**
     * Pay each integrated destination in turn; the first failure latches the
     * halt and ends the loop.
     */
    method PayIntegrated(env: Env, logins: seq<string>, amounts: map<string, int>, integdests: map<string, Dest>)
      modifies this
      ensures RunResult(halt, lastFail, ledger, trace)
              == AfterPlan(old(halt), old(lastFail), old(trace),
                           Perform(env, old(ledger), IntegratedPlan(env, logins, amounts, integdests)))
    {
      ghost var target := Perform(env, ledger, IntegratedPlan(env, logins, amounts, integdests));
      PerformIsThen(env, ledger, IntegratedPlan(env, logins, amounts, integdests));
      ghost var done: seq<Call> := [];
      var i := 0;
      while i < |logins|
        invariant 0 <= i <= |logins|
        invariant trace == old(trace) + done
        invariant halt == old(halt) && lastFail == old(lastFail)
        invariant target == Then(Exec(ledger, done, None), env, IntegratedPlan(env, logins[i..], amounts, integdests))
      {
        var login := logins[i];
        assert logins[i..][0] == login && logins[i..][1..] == logins[i + 1..];
        var ok;
        ok, done := PayIntegratedMember(env, login, Lookup(amounts, login), DestOf(integdests, login), old(trace), done,
                                        IntegratedPlan(env, logins[i + 1..], amounts, integdests), target);
        if !ok {
          return;
        }
        i := i + 1;
      }
      assert logins[i..] == [] && done + [] == done;
    }

    /** One settlement run, as the rules in `Run` prescribe. */
    method Process(env: Env)
      modifies this
      ensures RunResult(halt, lastFail, ledger, trace)
              == (var r := Run(config, env, old(halt), old(lastFail), old(ledger));
                  r.(calls := old(trace) + r.calls))
    {
      if halt {
        return;
      }
      trace := trace + [GetPayees];
      if env.payees.None? {
        return;
      }
      var payees := env.payees.value;
      trace := trace + [WalletBalance];
      if env.walletBalance.None? {
        halt := true;
        lastFail := Some(WalletUnavailable);
        return;
      }
      var poolBalance := env.walletBalance.value;
      var sel := SelectPayees(config, env, ledger, payees);
      SelectBatch(config, env, ledger, payees);
      trace := trace + sel.calls;
      ghost var st := RunResult(halt, lastFail, ledger, [GetPayees, WalletBalance] + sel.calls);
      PaySelectionShift(env, sel, poolBalance, st, old(trace));
      assert trace == old(trace) + st.calls;
      PaySelected(env, sel, poolBalance);
    }

    /** The rest of a run once the payees are selected, as `PaySelection` prescribes. */
    method PaySelected(env: Env, sel: Selection, poolBalance: int)
      requires |sel.batchAmounts| > 0 ==> |sel.batch| > 0
      modifies this
      ensures RunResult(halt, lastFail, ledger, trace)
              == PaySelection(env, sel, poolBalance, RunResult(old(halt), old(lastFail), old(ledger), old(trace)))
    {
      if sel.mustPay > 0 {
        if poolBalance < sel.total {
          halt := true;
          lastFail := Some(InsufficientFunds(sel.total, poolBalance));
          return;
        }
        if |sel.batchAmounts| > 0 {
          var xferdests := DeductBatchFee(sel.batch);
          var txHash := SendTransaction(env, xferdests);
          if txHash.None? {
            Fail(Send(xferdests));
            return;
          }
          PayBatch(env, env.order(sel.batchAmounts.Keys), sel.batchAmounts, txHash.value);
        }
        PayIntegrated(env, env.order(sel.integAmounts.Keys), sel.integAmounts, sel.integ);
      }
    }

    /** The resolution pass, as `ResolvePass` prescribes; it never touches the halt latch. */
    method ResolvePayouts(env: Env)
      modifies this
      ensures var r := ResolvePass(env, old(ledger));
              ledger == r.ledger && trace == old(trace) + r.calls
      ensures halt == old(halt) && lastFail == old(lastFail)
    {
      trace := trace + [PendingList];
      var payments := ledger.pending;
      if |payments| == 0 {
        return;
      }
      ghost var done := CreditBack(env, payments, old(trace) + [PendingList]);
      assert trace == old(trace) + ([PendingList] + done);
    }

    /**
     * Credit each pending payment back in turn, then release the lock,
     * stopping at the first failure: the plan `RollbackPlan(payments) + [Unlock]`.
     */
    method CreditBack(env: Env, payments: seq<PendingPayment>, ghost base: seq<Call>) returns (ghost done: seq<Call>)
      requires trace == base
      modifies this
      ensures var e := Perform(env, old(ledger), RollbackPlan(payments) + [Unlock]);
              ledger == e.ledger && done == e.calls
      ensures trace == base + done && halt == old(halt) && lastFail == old(lastFail)
    {
      ghost var target := Perform(env, ledger, RollbackPlan(payments) + [Unlock]);
      PerformIsThen(env, ledger, RollbackPlan(payments) + [Unlock]);
      done := [];
      assert trace == base + done;
      var i := 0;
      while i < |payments|
        invariant 0 <= i <= |payments|
        invariant trace == base + done
        invariant halt == old(halt) && lastFail == old(lastFail)
        invariant target == Then(Exec(ledger, done, None), env, RollbackPlan(payments[i..]) + [Unlock])
      {
        var rollback := Rollback(payments[i].address, payments[i].amount);
        assert payments[i..][0] == payments[i] && payments[i..][1..] == payments[i + 1..];
        assert RollbackPlan(payments[i..]) + [Unlock] == [rollback] + (RollbackPlan(payments[i + 1..]) + [Unlock]);
        var ok := Step(env, rollback, base, done, RollbackPlan(payments[i + 1..]) + [Unlock], target);
        done := done + [rollback];
        if !ok {
          return;
        }
        i := i + 1;
      }
      assert payments[i..] == [] && RollbackPlan([]) + [Unlock] == [Unlock] + [];
      var ok := Step(env, Unlock, base, done, [], target);
      done := done + [Unlock];
      assert Perform(env, ledger, []) == Exec(ledger, [], None) && done + [] == done;
    }

    /** Start-up, as `StartRun` prescribes. */
    method Start(mode: Mode, env: Env)
      modifies this
      ensures RunResult(halt, lastFail, ledger, trace)
              == (var r := StartRun(mode, config, env, old(halt), old(lastFail), old(ledger));
                  r.(calls := old(trace) + r.calls))
    {
      if mode == Resolve {
        ResolvePayouts(env);
        return;
      }
      trace := trace + [PendingList];
      if ledger.pending != [] {
        return;
      }
      trace := trace + [LockQuery];
      if !env.backendOk(LockQuery) || ledger.locked {
        return;
      }
      Process(env);
    }
  }
}
