/**
 * The payout settlement rules, as functions of the ledger and of the answers
 * the wallet, the daemon and the ledger store give: who is paid, how the
 * shared fee is split, which calls a run makes and in what order, and the
 * recovery pass that credits pending payments back.
 */
module Payouts {
  import opened Optional
  import U = Uint64

  // ------------------------------------------------------------------ data

  /** The flat network fee of one transfer, in wallet units. */
  const BaseFee: U.U64 := 10000000000

  /** A payee's own threshold counts only above this value. */
  const MinOwnThreshold: int := 10

  /**
   * The settings the run reads: the pool-wide threshold (in Shannon), whether to
   * keep network fees and the fee estimate `txCharges` (the product of the
   * configured gas and gas price), and `weiPerShannon`, the unit multiplier.
   */
  datatype PayoutsConfig = PayoutsConfig(threshold: int, keepNwFees: bool, txCharges: int, weiPerShannon: nat)

  /** One destination of a wallet transfer. */
  datatype Dest = Dest(address: string, amount: U.U64)

  /** A payment in flight: written before the payee's balance is debited. */
  datatype PendingPayment = PendingPayment(address: string, amount: int)

  /** A completed payment, with the transfer's hash. */
  datatype Payment = Payment(login: string, txHash: string, amount: int)

  /**
   * The ledger store: balances and own thresholds per payee, the pending
   * payments in the order written, the global payout lock, and the payment log.
   */
  datatype Ledger = Ledger(
    balances: map<string, int>,
    thresholds: map<string, int>,
    pending: seq<PendingPayment>,
    locked: bool,
    payments: seq<Payment>)

  /** Every call a run makes to the ledger store, the wallet or the daemon. */
  datatype Call =
    | GetPayees
    | WalletBalance
    | GetBalance(login: string)
    | GetThreshold(login: string)
    | PeerCount
    | Send(dests: seq<Dest>)
    | Lock(login: string, amount: int)
    | Debit(login: string, amount: int)
    | Record(login: string, txHash: string, amount: int)
    | PendingList
    | LockQuery
    | Rollback(address: string, amount: int)
    | Unlock

  /** Why the processor halted. */
  datatype Failure = WalletUnavailable | InsufficientFunds(need: int, has: int) | CallFailed(call: Call)

  /**
   * The answers of the outside world to one run: the payee list (None: the
   * store failed), the wallet balance (None: the RPC failed), the answer of the
   * n-th peer check, the wallet's answer to a transfer (a hash, or None), whether
   * a ledger write succeeds, and the order in which Go ranges over a key set.
   */
  datatype Env = Env(
    payees: Option<seq<string>>,
    walletBalance: Option<int>,
    peersOk: nat -> bool,
    send: seq<Dest> -> Option<string>,
    backendOk: Call -> bool,
    order: set<string> -> seq<string>)

  /** `xs` lists every element of `s` exactly once. */
  ghost predicate IsEnumeration(xs: seq<string>, s: set<string>) {
    && (forall x :: x in xs <==> x in s)
    && (forall i, j :: 0 <= i < j < |xs| ==> xs[i] != xs[j])
  }

  /** Go's map iteration visits each key once, in some order. */
  ghost predicate RangesOverKeys(env: Env) {
    forall s: set<string> :: IsEnumeration(env.order(s), s)
  }

  // ------------------------------------------------------- per-payee rules

  function Balance(l: Ledger, login: string): int {
    if login in l.balances then l.balances[login] else 0
  }

  function OwnThreshold(l: Ledger, login: string): int {
    if login in l.thresholds then l.thresholds[login] else 0
  }

  /** The threshold that applies: the payee's own above 10, the pool's otherwise. */
  function EffectiveThreshold(own: int, poolThreshold: int): int {
    if own <= MinOwnThreshold then poolThreshold else own
  }

  /** reachedThreshold: the amount is strictly above the threshold. */
  predicate ReachedThreshold(amount: int, threshold: int) {
    threshold < amount
  }

  predicate Eligible(cfg: PayoutsConfig, l: Ledger, login: string) {
    ReachedThreshold(Balance(l, login), EffectiveThreshold(OwnThreshold(l, login), cfg.threshold))
  }

  /** The two address forms: integrated addresses cannot share a batch transfer. */
  datatype AddressKind = Standard | Integrated

  predicate HasPrefix(s: string, p: string) {
    |p| <= |s| && s[..|p|] == p
  }

  function KindOf(login: string): AddressKind {
    if HasPrefix(login, "iZ") || HasPrefix(login, "aiZX") then Integrated else Standard
  }

  /**
   * `amount` taken `factor` times, by repeated addition, so that the solver
   * meets no product of two unknowns; `ScaleIsProduct` ties it to `*`.
   */
  function Scale(amount: int, factor: nat): int {
    if factor == 0 then 0 else Scale(amount, factor - 1) + amount
  }

  lemma {:induction false} ScaleIsProduct(amount: int, factor: nat)
    ensures Scale(amount, factor) == amount * factor
  {
    if factor > 0 {
      ScaleIsProduct(amount, factor - 1);
      assert amount * factor == amount * (factor - 1) + amount;
    }
  }

  /** The amount to transfer in wallet units, as a big integer: converted, less the kept network fee. */
  function Wei(cfg: PayoutsConfig, amount: int): int {
    Scale(amount, cfg.weiPerShannon) - (if cfg.keepNwFees then cfg.txCharges else 0)
  }

  function StandardDest(cfg: PayoutsConfig, l: Ledger, login: string): Dest {
    Dest(login, U.LowBits(Wei(cfg, Balance(l, login))))
  }

  /** An integrated destination pays its own base fee, taken from its amount in uint64. */
  function IntegratedDest(cfg: PayoutsConfig, l: Ledger, login: string): Dest {
    Dest(login, U.Sub(U.LowBits(Wei(cfg, Balance(l, login))), BaseFee))
  }

  // ------------------------------------------------------ payee selection

  /**
   * What the payee loop has gathered: eligible payees counted, whether a peer
   * check stopped the loop, the batch destinations in payee order, the
   * integrated destinations, the ledger amounts per group, the total to pay,
   * and the calls made.
   */
  datatype Selection = Selection(
    mustPay: nat,
    stopped: bool,
    batch: seq<Dest>,
    integ: map<string, Dest>,
    batchAmounts: map<string, int>,
    integAmounts: map<string, int>,
    total: int,
    calls: seq<Call>)

  const NoSelection: Selection := Selection(0, false, [], map[], map[], map[], 0, [])

  /** Put an eligible login in its group: integrated logins by name, the others at the end of the batch. */
  function Admit(cfg: PayoutsConfig, l: Ledger, s: Selection, login: string): Selection {
    if KindOf(login) == Integrated then
      s.(integAmounts := s.integAmounts[login := Balance(l, login)],
         integ := s.integ[login := IntegratedDest(cfg, l, login)])
    else
      s.(batchAmounts := s.batchAmounts[login := Balance(l, login)],
         batch := s.batch + [StandardDest(cfg, l, login)])
  }

  /** One iteration of the payee loop. */
  function Scan(cfg: PayoutsConfig, env: Env, l: Ledger, s: Selection, login: string): Selection {
    var queried := s.calls + [GetBalance(login), GetThreshold(login)];
    if !Eligible(cfg, l, login) then s.(calls := queried)
    else if !env.peersOk(s.mustPay) then s.(mustPay := s.mustPay + 1, stopped := true, calls := queried + [PeerCount])
    else
      Admit(cfg, l, s.(mustPay := s.mustPay + 1, total := s.total + Wei(cfg, Balance(l, login)),
                       calls := queried + [PeerCount]), login)
  }

  /** The payee loop from state `s` over `payees`, stopping when a peer check fails. */
  function SelectFrom(cfg: PayoutsConfig, env: Env, l: Ledger, s: Selection, payees: seq<string>): Selection
    decreases |payees|
  {
    if payees == [] || s.stopped then s
    else SelectFrom(cfg, env, l, Scan(cfg, env, l, s, payees[0]), payees[1..])
  }

  function Select(cfg: PayoutsConfig, env: Env, l: Ledger, payees: seq<string>): Selection {
    SelectFrom(cfg, env, l, NoSelection, payees)
  }

  /** Reference definition: the standard destinations of the eligible payees, in payee order. */
  function StandardDests(cfg: PayoutsConfig, l: Ledger, payees: seq<string>): seq<Dest> {
    if payees == [] then []
    else (if Eligible(cfg, l, payees[0]) && KindOf(payees[0]) == Standard then [StandardDest(cfg, l, payees[0])] else [])
         + StandardDests(cfg, l, payees[1..])
  }

  function Addresses(ds: seq<Dest>): set<string> {
    set d | d in ds :: d.address
  }

  predicate IsRead(c: Call) {
    c.GetPayees? || c.WalletBalance? || c.GetBalance? || c.GetThreshold? || c.PeerCount? || c.PendingList? || c.LockQuery?
  }

  predicate ReadsOnly(cs: seq<Call>) {
    forall i :: 0 <= i < |cs| ==> IsRead(cs[i])
  }

  /** What the payee loop's groups always satisfy. */
  ghost predicate GroupsInv(cfg: PayoutsConfig, l: Ledger, batch: seq<Dest>, integ: map<string, Dest>,
                            batchAmounts: map<string, int>, integAmounts: map<string, int>) {
    && (forall x :: x in batchAmounts ==>
          Eligible(cfg, l, x) && KindOf(x) == Standard && batchAmounts[x] == Balance(l, x))
    && (forall x :: x in integAmounts ==>
          Eligible(cfg, l, x) && KindOf(x) == Integrated && integAmounts[x] == Balance(l, x))
    && integ.Keys == integAmounts.Keys
    && (forall x :: x in integ ==> integ[x] == IntegratedDest(cfg, l, x))
    && Addresses(batch) == batchAmounts.Keys
  }

  ghost predicate SelectionInv(cfg: PayoutsConfig, l: Ledger, s: Selection) {
    GroupsInv(cfg, l, s.batch, s.integ, s.batchAmounts, s.integAmounts) && ReadsOnly(s.calls)
  }

  /** Admitting an eligible login keeps the selection invariant. */
  lemma AdmitKeepsInv(cfg: PayoutsConfig, l: Ledger, s: Selection, login: string)
    requires SelectionInv(cfg, l, s) && Eligible(cfg, l, login)
    ensures SelectionInv(cfg, l, Admit(cfg, l, s, login))
  {
    if KindOf(login) == Standard {
      var r := Admit(cfg, l, s, login);
      assert Addresses(r.batch) == Addresses(s.batch) + {login};
    }
  }

  lemma QueriedReadsOnly(cs: seq<Call>, login: string)
    requires ReadsOnly(cs)
    ensures ReadsOnly(cs + [GetBalance(login), GetThreshold(login)])
    ensures ReadsOnly(cs + [GetBalance(login), GetThreshold(login)] + [PeerCount])
  {
  }

  /** One loop iteration keeps the selection invariant. */
  lemma ScanKeepsInv(cfg: PayoutsConfig, env: Env, l: Ledger, s: Selection, login: string)
    requires SelectionInv(cfg, l, s)
    ensures SelectionInv(cfg, l, Scan(cfg, env, l, s, login))
  {
    var queried := s.calls + [GetBalance(login), GetThreshold(login)];
    QueriedReadsOnly(s.calls, login);
    if Eligible(cfg, l, login) && env.peersOk(s.mustPay) {
      var counted := s.(mustPay := s.mustPay + 1, total := s.total + Wei(cfg, Balance(l, login)),
                        calls := queried + [PeerCount]);
      assert SelectionInv(cfg, l, counted);
      AdmitKeepsInv(cfg, l, counted, login);
    }
  }

  /** One loop iteration adds at most the visited login, and adds it exactly when it is eligible and the loop goes on. */
  lemma ScanShape(cfg: PayoutsConfig, env: Env, l: Ledger, s: Selection, login: string)
    requires !s.stopped
    ensures var r := Scan(cfg, env, l, s, login);
            && r.batchAmounts.Keys <= s.batchAmounts.Keys + {login}
            && r.integAmounts.Keys <= s.integAmounts.Keys + {login}
            && r.stopped == (Eligible(cfg, l, login) && !env.peersOk(s.mustPay))
            && (!r.stopped ==> r.batchAmounts.Keys >= s.batchAmounts.Keys && r.integAmounts.Keys >= s.integAmounts.Keys)
            && (!r.stopped && Eligible(cfg, l, login) ==> login in r.batchAmounts || login in r.integAmounts)
  {
  }

  /** The loop keeps the selection invariant and selects only payees it visits. */
  lemma {:induction false} SelectFromKeepsInv(cfg: PayoutsConfig, env: Env, l: Ledger, s: Selection, payees: seq<string>)
    requires SelectionInv(cfg, l, s)
    ensures var r := SelectFrom(cfg, env, l, s, payees);
            && SelectionInv(cfg, l, r)
            && (forall x :: x in r.batchAmounts ==> x in s.batchAmounts || x in payees)
            && (forall x :: x in r.integAmounts ==> x in s.integAmounts || x in payees)
    decreases |payees|
  {
    if payees != [] && !s.stopped {
      var s' := Scan(cfg, env, l, s, payees[0]);
      assert SelectFrom(cfg, env, l, s, payees) == SelectFrom(cfg, env, l, s', payees[1..]);
      ScanKeepsInv(cfg, env, l, s, payees[0]);
      ScanShape(cfg, env, l, s, payees[0]);
      SelectFromKeepsInv(cfg, env, l, s', payees[1..]);
    }
  }

  /** One step of the payee loop, unfolded. */
  lemma SelectFromStep(cfg: PayoutsConfig, env: Env, l: Ledger, s: Selection, payees: seq<string>)
    requires payees != [] && !s.stopped
    ensures SelectFrom(cfg, env, l, s, payees) == SelectFrom(cfg, env, l, Scan(cfg, env, l, s, payees[0]), payees[1..])
  {
  }

  /** A stopped payee loop visits no further payee. */
  lemma SelectFromStopped(cfg: PayoutsConfig, env: Env, l: Ledger, s: Selection, payees: seq<string>)
    requires s.stopped
    ensures SelectFrom(cfg, env, l, s, payees) == s
  {
  }

  /** The batch grows in payee order: it is always a prefix of the reference list. */
  lemma {:induction false} SelectFromPrefix(cfg: PayoutsConfig, env: Env, l: Ledger, s: Selection, payees: seq<string>)
    ensures SelectFrom(cfg, env, l, s, payees).batch <= s.batch + StandardDests(cfg, l, payees)
    decreases |payees|
  {
    if payees != [] && !s.stopped {
      var login := payees[0];
      var s' := Scan(cfg, env, l, s, login);
      SelectFromStep(cfg, env, l, s, payees);
      ScanBatch(cfg, env, l, s, login);
      StandardDestsCons(cfg, l, payees);
      var a, b := StandardDests(cfg, l, [login]), StandardDests(cfg, l, payees[1..]);
      if s'.stopped {
        SelectFromStopped(cfg, env, l, s', payees[1..]);
        PrefixGrows(s.batch, a + b);
      } else {
        SelectFromPrefix(cfg, env, l, s', payees[1..]);
        PrefixRegroup(SelectFrom(cfg, env, l, s', payees[1..]).batch, s.batch, a, b);
      }
    } else {
      PrefixGrows(s.batch, StandardDests(cfg, l, payees));
    }
  }

  lemma UnionRegroup<T>(y: set<T>, x: set<T>, a: set<T>, b: set<T>, c: set<T>)
    requires y == x + c && x == a + b
    ensures y == a + (b + c)
  {
  }

  lemma PrefixGrows<T>(x: seq<T>, a: seq<T>)
    ensures x <= x + a
  {
  }

  lemma Regroup<T>(x: seq<T>, a: seq<T>, b: seq<T>)
    ensures (x + a) + b == x + (a + b)
  {
  }

  lemma PrefixRegroup<T>(y: seq<T>, x: seq<T>, a: seq<T>, b: seq<T>)
    requires y <= (x + a) + b
    ensures y <= x + (a + b)
  {
    assert (x + a) + b == x + (a + b);
  }

  /** One loop iteration adds the visited login's reference entry to the batch, unless it stops the loop. */
  lemma ScanBatch(cfg: PayoutsConfig, env: Env, l: Ledger, s: Selection, login: string)
    requires !s.stopped
    ensures var r := Scan(cfg, env, l, s, login);
            r.batch == if r.stopped then s.batch else s.batch + StandardDests(cfg, l, [login])
  {
    assert [login][1..] == [];
  }

  lemma StandardDestsCons(cfg: PayoutsConfig, l: Ledger, payees: seq<string>)
    requires payees != []
    ensures StandardDests(cfg, l, payees) == StandardDests(cfg, l, [payees[0]]) + StandardDests(cfg, l, payees[1..])
  {
    assert [payees[0]][1..] == [];
  }

  /** Unless a peer check stopped it, the loop takes all of the reference list. */
  lemma {:induction false} SelectFromWhole(cfg: PayoutsConfig, env: Env, l: Ledger, s: Selection, payees: seq<string>)
    ensures var r := SelectFrom(cfg, env, l, s, payees);
            !r.stopped ==> r.batch == s.batch + StandardDests(cfg, l, payees)
    decreases |payees|
  {
    if payees != [] && !s.stopped {
      var login := payees[0];
      var s' := Scan(cfg, env, l, s, login);
      SelectFromStep(cfg, env, l, s, payees);
      if !s'.stopped {
        ScanBatch(cfg, env, l, s, login);
        SelectFromWhole(cfg, env, l, s', payees[1..]);
        StandardDestsCons(cfg, l, payees);
        Regroup(s.batch, StandardDests(cfg, l, [login]), StandardDests(cfg, l, payees[1..]));
      } else {
        SelectFromStopped(cfg, env, l, s', payees[1..]);
      }
    }
  }

  /**
   * Unless a peer check stopped it, the loop selects every eligible payee,
   * keeping what was selected before.
   */
  lemma {:induction false} SelectFromCovers(cfg: PayoutsConfig, env: Env, l: Ledger, s: Selection, payees: seq<string>)
    ensures var r := SelectFrom(cfg, env, l, s, payees);
            !r.stopped ==>
              && r.batchAmounts.Keys >= s.batchAmounts.Keys && r.integAmounts.Keys >= s.integAmounts.Keys
              && (forall x :: x in payees && Eligible(cfg, l, x) ==> x in r.batchAmounts || x in r.integAmounts)
    decreases |payees|
  {
    if payees != [] && !s.stopped {
      var login := payees[0];
      var s' := Scan(cfg, env, l, s, login);
      SelectFromStep(cfg, env, l, s, payees);
      ScanShape(cfg, env, l, s, login);
      if !s'.stopped {
        SelectFromCovers(cfg, env, l, s', payees[1..]);
        var r := SelectFrom(cfg, env, l, s, payees);
        forall x | x in payees && Eligible(cfg, l, x) && !r.stopped
          ensures x in r.batchAmounts || x in r.integAmounts
        {
          if x != login {
            assert x in payees[1..];
          }
        }
      } else {
        assert SelectFrom(cfg, env, l, s', payees[1..]) == s';
      }
    }
  }

  /** One loop iteration counts the visited login whenever it selects it. */
  lemma ScanCounts(cfg: PayoutsConfig, env: Env, l: Ledger, s: Selection, login: string)
    ensures var r := Scan(cfg, env, l, s, login);
            && r.mustPay >= s.mustPay
            && (r.mustPay == s.mustPay ==> r.batchAmounts == s.batchAmounts && r.integAmounts == s.integAmounts)
  {
  }

  /** Every selected payee was counted: with nothing counted, nothing is selected. */
  lemma {:induction false} SelectFromCounts(cfg: PayoutsConfig, env: Env, l: Ledger, s: Selection, payees: seq<string>)
    ensures var r := SelectFrom(cfg, env, l, s, payees);
            && r.mustPay >= s.mustPay
            && (r.mustPay == s.mustPay ==> r.batchAmounts == s.batchAmounts && r.integAmounts == s.integAmounts)
    decreases |payees|
  {
    if payees != [] && !s.stopped {
      var s' := Scan(cfg, env, l, s, payees[0]);
      SelectFromStep(cfg, env, l, s, payees);
      ScanCounts(cfg, env, l, s, payees[0]);
      SelectFromCounts(cfg, env, l, s', payees[1..]);
    }
  }

  /**
   * The payee loop's groups: only eligible payees are selected, with their
   * ledger balance; integrated logins go only to the integrated group, with
   * their own destination, all others only to the batch; the loop makes read
   * calls only.
   */
  lemma SelectPartition(cfg: PayoutsConfig, env: Env, l: Ledger, payees: seq<string>)
    ensures var r := Select(cfg, env, l, payees);
            && (forall x :: x in r.batchAmounts ==>
                  x in payees && Eligible(cfg, l, x) && KindOf(x) == Standard && r.batchAmounts[x] == Balance(l, x))
            && (forall x :: x in r.integAmounts ==>
                  x in payees && Eligible(cfg, l, x) && KindOf(x) == Integrated && r.integAmounts[x] == Balance(l, x))
            && r.batchAmounts.Keys !! r.integAmounts.Keys
            && r.integ.Keys == r.integAmounts.Keys
            && (forall x :: x in r.integ ==> r.integ[x] == IntegratedDest(cfg, l, x))
            && ReadsOnly(r.calls)
  {
    assert Addresses([]) == {};
    SelectFromKeepsInv(cfg, env, l, NoSelection, payees);
  }

  /**
   * The payee loop's batch: its destinations are the batch group's logins, in
   * payee order; when no peer check failed, it is the whole reference list and
   * every eligible payee is selected.
   */
  lemma SelectBatch(cfg: PayoutsConfig, env: Env, l: Ledger, payees: seq<string>)
    ensures var r := Select(cfg, env, l, payees);
            && Addresses(r.batch) == r.batchAmounts.Keys
            && (|r.batchAmounts| > 0 ==> |r.batch| > 0)
            && r.batch <= StandardDests(cfg, l, payees)
            && (!r.stopped ==> r.batch == StandardDests(cfg, l, payees))
            && (!r.stopped ==> forall x :: x in payees && Eligible(cfg, l, x) ==> x in r.batchAmounts || x in r.integAmounts)
  {
    assert Addresses([]) == {};
    var r := Select(cfg, env, l, payees);
    SelectFromKeepsInv(cfg, env, l, NoSelection, payees);
    SelectFromPrefix(cfg, env, l, NoSelection, payees);
    SelectFromWhole(cfg, env, l, NoSelection, payees);
    SelectFromCovers(cfg, env, l, NoSelection, payees);
    assert Addresses(r.batch) == r.batchAmounts.Keys;
    if r.batch == [] {
      assert r.batchAmounts.Keys == {};
    }
  }

  /** Reference definition: the sum of the transfer amounts due to the eligible payees, repeats counted. */
  function DueTotal(cfg: PayoutsConfig, l: Ledger, payees: seq<string>): int {
    if payees == [] then 0
    else (if Eligible(cfg, l, payees[0]) then Wei(cfg, Balance(l, payees[0])) else 0) + DueTotal(cfg, l, payees[1..])
  }

  /** Reference definition: how many of `payees` are eligible, repeats counted. */
  function EligibleCount(cfg: PayoutsConfig, l: Ledger, payees: seq<string>): nat {
    if payees == [] then 0
    else (if Eligible(cfg, l, payees[0]) then 1 else 0) + EligibleCount(cfg, l, payees[1..])
  }

  /** Reference definition: the eligible payees, as a set. */
  function EligibleIn(cfg: PayoutsConfig, l: Ledger, payees: seq<string>): set<string> {
    if payees == [] then {}
    else (if Eligible(cfg, l, payees[0]) then {payees[0]} else {}) + EligibleIn(cfg, l, payees[1..])
  }

  /** `EligibleIn` holds exactly the listed payees that are eligible. */
  lemma {:induction false} EligibleInMembers(cfg: PayoutsConfig, l: Ledger, payees: seq<string>)
    ensures forall x :: x in EligibleIn(cfg, l, payees) <==> x in payees && Eligible(cfg, l, x)
    decreases |payees|
  {
    if payees != [] {
      EligibleInMembers(cfg, l, payees[1..]);
      assert forall x :: x in payees <==> x == payees[0] || x in payees[1..];
    }
  }

  /**
   * Reference definition: the index of the first eligible payee whose peer
   * check fails, `m` eligible payees having been counted before; `|payees|`
   * when every peer check passes.
   */
  function StopAt(cfg: PayoutsConfig, env: Env, l: Ledger, m: nat, payees: seq<string>): (k: nat)
    ensures k <= |payees|
    decreases |payees|
  {
    if payees == [] then 0
    else if Eligible(cfg, l, payees[0]) && !env.peersOk(m) then 0
    else 1 + StopAt(cfg, env, l, if Eligible(cfg, l, payees[0]) then m + 1 else m, payees[1..])
  }

  lemma TakeTail<T>(a: seq<T>, k: nat)
    requires 0 < k <= |a|
    ensures a[..k] == [a[0]] + a[1..][..k - 1]
  {
  }

  /** Counting the eligible payees of a prefix that takes the first payee. */
  lemma PrefixCount(cfg: PayoutsConfig, l: Ledger, payees: seq<string>, j: nat)
    requires 0 < j <= |payees|
    ensures EligibleCount(cfg, l, payees[..j])
            == (if Eligible(cfg, l, payees[0]) then 1 else 0) + EligibleCount(cfg, l, payees[1..][..j - 1])
  {
    TakeTail(payees, j);
    assert ([payees[0]] + payees[1..][..j - 1])[1..] == payees[1..][..j - 1];
  }

  /** `StopAt` in range names an eligible payee whose peer check fails, the eligible payees before it counted. */
  lemma {:induction false} StopAtFails(cfg: PayoutsConfig, env: Env, l: Ledger, m: nat, payees: seq<string>)
    ensures var k := StopAt(cfg, env, l, m, payees);
            k < |payees| ==> Eligible(cfg, l, payees[k]) && !env.peersOk(m + EligibleCount(cfg, l, payees[..k]))
    decreases |payees|
  {
    var k := StopAt(cfg, env, l, m, payees);
    if payees != [] && 0 < k < |payees| {
      var e := if Eligible(cfg, l, payees[0]) then 1 else 0;
      StopAtFails(cfg, env, l, m + e, payees[1..]);
      PrefixCount(cfg, l, payees, k);
      assert payees[k] == payees[1..][k - 1];
    } else if k == 0 {
      assert payees[..0] == [];
    }
  }

  /** Every eligible payee before `StopAt` passed its peer check, the eligible payees before it counted. */
  lemma {:induction false} StopAtPasses(cfg: PayoutsConfig, env: Env, l: Ledger, m: nat, payees: seq<string>, j: nat)
    requires j < StopAt(cfg, env, l, m, payees) && Eligible(cfg, l, payees[j])
    ensures env.peersOk(m + EligibleCount(cfg, l, payees[..j]))
    decreases |payees|
  {
    if j == 0 {
      assert payees[..0] == [];
    } else {
      var e := if Eligible(cfg, l, payees[0]) then 1 else 0;
      assert payees[j] == payees[1..][j - 1];
      StopAtPasses(cfg, env, l, m + e, payees[1..], j - 1);
      PrefixCount(cfg, l, payees, j);
    }
  }

  /**
   * `StopAt` is the first eligible payee whose peer check fails, counting the
   * eligible payees before it: every earlier eligible payee passed its check.
   */
  lemma StopAtFirstFailure(cfg: PayoutsConfig, env: Env, l: Ledger, m: nat, payees: seq<string>)
    ensures var k := StopAt(cfg, env, l, m, payees);
            && (k < |payees| ==> Eligible(cfg, l, payees[k]) && !env.peersOk(m + EligibleCount(cfg, l, payees[..k])))
            && (forall j :: 0 <= j < k && Eligible(cfg, l, payees[j]) ==> env.peersOk(m + EligibleCount(cfg, l, payees[..j])))
  {
    StopAtFails(cfg, env, l, m, payees);
    forall j | 0 <= j < StopAt(cfg, env, l, m, payees) && Eligible(cfg, l, payees[j])
      ensures env.peersOk(m + EligibleCount(cfg, l, payees[..j]))
    {
      StopAtPasses(cfg, env, l, m, payees, j);
    }
  }

  /** One step of the reference sums over a prefix that takes the first payee. */
  lemma PrefixSums(cfg: PayoutsConfig, l: Ledger, payees: seq<string>, k: nat)
    requires 0 < k <= |payees|
    ensures var e := Eligible(cfg, l, payees[0]);
            && DueTotal(cfg, l, payees[..k])
               == (if e then Wei(cfg, Balance(l, payees[0])) else 0) + DueTotal(cfg, l, payees[1..][..k - 1])
            && EligibleCount(cfg, l, payees[..k]) == (if e then 1 else 0) + EligibleCount(cfg, l, payees[1..][..k - 1])
            && StandardDests(cfg, l, payees[..k])
               == StandardDests(cfg, l, [payees[0]]) + StandardDests(cfg, l, payees[1..][..k - 1])
  {
    TakeTail(payees, k);
    var rest := payees[1..][..k - 1];
    assert ([payees[0]] + rest)[1..] == rest;
    StandardDestsCons(cfg, l, payees[..k]);
  }

  /** The eligible payees of a prefix that takes the first payee. */
  lemma PrefixEligible(cfg: PayoutsConfig, l: Ledger, payees: seq<string>, k: nat)
    requires 0 < k <= |payees|
    ensures EligibleIn(cfg, l, payees[..k])
            == (if Eligible(cfg, l, payees[0]) then {payees[0]} else {}) + EligibleIn(cfg, l, payees[1..][..k - 1])
  {
    TakeTail(payees, k);
    assert ([payees[0]] + payees[1..][..k - 1])[1..] == payees[1..][..k - 1];
  }

  /** One loop iteration that does not stop the loop adds the visited payee's due amount, count and group. */
  lemma ScanAdds(cfg: PayoutsConfig, env: Env, l: Ledger, s: Selection, login: string)
    requires !s.stopped
    ensures var r := Scan(cfg, env, l, s, login);
            var e := Eligible(cfg, l, login);
            && r.stopped == (e && !env.peersOk(s.mustPay))
            && (r.stopped ==> r.total == s.total && r.mustPay == s.mustPay + 1)
            && (!r.stopped ==>
                  && r.total == s.total + (if e then Wei(cfg, Balance(l, login)) else 0)
                  && r.mustPay == s.mustPay + (if e then 1 else 0))
  {
  }

  /** One loop iteration adds the visited payee to the groups exactly when it is eligible and the loop goes on. */
  lemma ScanGroups(cfg: PayoutsConfig, env: Env, l: Ledger, s: Selection, login: string)
    requires !s.stopped
    ensures var r := Scan(cfg, env, l, s, login);
            var e := Eligible(cfg, l, login);
            && r.stopped == (e && !env.peersOk(s.mustPay))
            && r.mustPay == s.mustPay + (if e then 1 else 0)
            && r.batchAmounts.Keys + r.integAmounts.Keys
               == s.batchAmounts.Keys + s.integAmounts.Keys + (if e && !r.stopped then {login} else {})
  {
  }

  /**
   * The payee loop from a running state takes exactly the payees before
   * `StopAt`: it stops exactly when that index is in range, and its total and
   * count are those of that prefix, the stopping payee counted but not paid.
   */
  lemma {:induction false} SelectFromUpTo(cfg: PayoutsConfig, env: Env, l: Ledger, s: Selection, payees: seq<string>)
    requires !s.stopped
    ensures var r := SelectFrom(cfg, env, l, s, payees);
            var k := StopAt(cfg, env, l, s.mustPay, payees);
            && (r.stopped <==> k < |payees|)
            && r.total == s.total + DueTotal(cfg, l, payees[..k])
            && r.mustPay == s.mustPay + EligibleCount(cfg, l, payees[..k]) + (if k < |payees| then 1 else 0)
    decreases |payees|
  {
    if payees == [] {
      assert payees[..0] == [];
    } else {
      var s' := Scan(cfg, env, l, s, payees[0]);
      SelectFromStep(cfg, env, l, s, payees);
      ScanAdds(cfg, env, l, s, payees[0]);
      var k := StopAt(cfg, env, l, s.mustPay, payees);
      if s'.stopped {
        SelectFromStopped(cfg, env, l, s', payees[1..]);
        assert payees[..0] == [];
      } else {
        SelectFromUpTo(cfg, env, l, s', payees[1..]);
        assert k == 1 + StopAt(cfg, env, l, s'.mustPay, payees[1..]);
        PrefixSums(cfg, l, payees, k);
      }
    }
  }

  /** The batch of the payee loop from a running state is the reference list of the payees before `StopAt`. */
  lemma {:induction false} SelectFromBatchUpTo(cfg: PayoutsConfig, env: Env, l: Ledger, s: Selection, payees: seq<string>)
    requires !s.stopped
    ensures SelectFrom(cfg, env, l, s, payees).batch
            == s.batch + StandardDests(cfg, l, payees[..StopAt(cfg, env, l, s.mustPay, payees)])
    decreases |payees|
  {
    if payees == [] {
      assert payees[..0] == [];
    } else {
      var login := payees[0];
      var s' := Scan(cfg, env, l, s, login);
      SelectFromStep(cfg, env, l, s, payees);
      ScanAdds(cfg, env, l, s, login);
      ScanBatch(cfg, env, l, s, login);
      var k := StopAt(cfg, env, l, s.mustPay, payees);
      if s'.stopped {
        SelectFromStopped(cfg, env, l, s', payees[1..]);
        assert payees[..0] == [];
      } else {
        SelectFromBatchUpTo(cfg, env, l, s', payees[1..]);
        assert k == 1 + StopAt(cfg, env, l, s'.mustPay, payees[1..]);
        PrefixSums(cfg, l, payees, k);
        Regroup(s.batch, StandardDests(cfg, l, [login]), StandardDests(cfg, l, payees[1..][..k - 1]));
      }
    }
  }

  /** The payee loop from a running state adds to its groups exactly the eligible payees before `StopAt`. */
  lemma {:induction false} SelectFromGroupsUpTo(cfg: PayoutsConfig, env: Env, l: Ledger, s: Selection, payees: seq<string>)
    requires !s.stopped
    ensures var r := SelectFrom(cfg, env, l, s, payees);
            r.batchAmounts.Keys + r.integAmounts.Keys
            == s.batchAmounts.Keys + s.integAmounts.Keys + EligibleIn(cfg, l, payees[..StopAt(cfg, env, l, s.mustPay, payees)])
    decreases |payees|
  {
    if payees == [] {
      assert payees[..0] == [];
      assert EligibleIn(cfg, l, []) == {};
    } else {
      var s' := Scan(cfg, env, l, s, payees[0]);
      SelectFromStep(cfg, env, l, s, payees);
      ScanGroups(cfg, env, l, s, payees[0]);
      var k := StopAt(cfg, env, l, s.mustPay, payees);
      if s'.stopped {
        SelectFromStopped(cfg, env, l, s', payees[1..]);
        assert payees[..0] == [];
        assert EligibleIn(cfg, l, []) == {};
      } else {
        SelectFromGroupsUpTo(cfg, env, l, s', payees[1..]);
        assert k == 1 + StopAt(cfg, env, l, s'.mustPay, payees[1..]);
        PrefixEligible(cfg, l, payees, k);
        var r := SelectFrom(cfg, env, l, s', payees[1..]);
        UnionRegroup(r.batchAmounts.Keys + r.integAmounts.Keys, s'.batchAmounts.Keys + s'.integAmounts.Keys,
                     s.batchAmounts.Keys + s.integAmounts.Keys,
                     if Eligible(cfg, l, payees[0]) then {payees[0]} else {},
                     EligibleIn(cfg, l, payees[1..][..k - 1]));
      }
    }
  }

  /**
   * The payee loop against the reference: it stops at the first eligible
   * payee whose peer check fails, or runs through. The total due, the count,
   * the batch and the two groups are exactly those of the payees before that
   * point; the stopping payee is counted but selected in neither group.
   */
  lemma SelectStops(cfg: PayoutsConfig, env: Env, l: Ledger, payees: seq<string>)
    ensures var r := Select(cfg, env, l, payees);
            var k := StopAt(cfg, env, l, 0, payees);
            var due := payees[..k];
            && (r.stopped <==> k < |payees|)
            && (r.stopped ==> Eligible(cfg, l, payees[k]) && !env.peersOk(EligibleCount(cfg, l, due)))
            && (forall j :: 0 <= j < k && Eligible(cfg, l, payees[j]) ==> env.peersOk(EligibleCount(cfg, l, payees[..j])))
            && r.total == DueTotal(cfg, l, due)
            && r.mustPay == EligibleCount(cfg, l, due) + (if r.stopped then 1 else 0)
            && r.batch == StandardDests(cfg, l, due)
            && r.batchAmounts.Keys + r.integAmounts.Keys == EligibleIn(cfg, l, due)
            && (forall x :: x in r.batchAmounts || x in r.integAmounts <==> x in due && Eligible(cfg, l, x))
            && (!r.stopped ==> due == payees)
  {
    EligibleInMembers(cfg, l, payees[..StopAt(cfg, env, l, 0, payees)]);
    SelectFromUpTo(cfg, env, l, NoSelection, payees);
    SelectFromBatchUpTo(cfg, env, l, NoSelection, payees);
    SelectFromGroupsUpTo(cfg, env, l, NoSelection, payees);
    StopAtFirstFailure(cfg, env, l, 0, payees);
  }

  /** Some payee is counted exactly when some payee is eligible. */
  lemma {:induction false} EligibleCountPositive(cfg: PayoutsConfig, l: Ledger, payees: seq<string>)
    ensures EligibleCount(cfg, l, payees) > 0 <==> exists i :: 0 <= i < |payees| && Eligible(cfg, l, payees[i])
    decreases |payees|
  {
    if payees != [] {
      EligibleCountPositive(cfg, l, payees[1..]);
      if exists i :: 0 <= i < |payees| && Eligible(cfg, l, payees[i]) {
        var i :| 0 <= i < |payees| && Eligible(cfg, l, payees[i]);
        if i > 0 {
          assert payees[1..][i - 1] == payees[i];
        }
      }
      if exists i :: 0 <= i < |payees[1..]| && Eligible(cfg, l, payees[1..][i]) {
        var i :| 0 <= i < |payees[1..]| && Eligible(cfg, l, payees[1..][i]);
        assert payees[i + 1] == payees[1..][i];
      }
    }
  }

  /** The loop counts some payee exactly when the list holds an eligible one. */
  lemma SelectCountsEligible(cfg: PayoutsConfig, env: Env, l: Ledger, payees: seq<string>)
    ensures Select(cfg, env, l, payees).mustPay > 0 <==> exists i :: 0 <= i < |payees| && Eligible(cfg, l, payees[i])
  {
    SelectStops(cfg, env, l, payees);
    var k := StopAt(cfg, env, l, 0, payees);
    if k == |payees| {
      assert payees[..k] == payees;
      EligibleCountPositive(cfg, l, payees);
    }
  }

  /** The total the pool balance is checked against: the due amounts of the payees the loop reaches. */
  function TotalDue(cfg: PayoutsConfig, env: Env, l: Ledger, payees: seq<string>): int {
    DueTotal(cfg, l, payees[..StopAt(cfg, env, l, 0, payees)])
  }

  // --------------------------------------------------------- batch fee split

  /** The fee taken from batch entry `k` of `n`: an even share, plus one unit for the first `fee % n`. */
  function FeeShare(fee: nat, n: nat, k: nat): (d: nat)
    requires n > 0
    ensures fee / n <= d <= fee / n + 1
  {
    fee / n + (if k < fee % n then 1 else 0)
  }

  /** No share exceeds the fee plus one unit. */
  lemma FeeShareBound(fee: nat, n: nat, k: nat)
    requires n > 0
    ensures FeeShare(fee, n, k) <= fee + 1
  {
    var q := fee / n;
    MulAtLeast(n, q);
    assert fee == n * q + fee % n;
  }

  lemma {:induction false} MulAtLeast(n: nat, q: nat)
    requires n > 0
    ensures n * q >= q
  {
    if n > 1 {
      MulAtLeast(n - 1, q);
      assert n * q == (n - 1) * q + q;
    }
  }

  /** The fees taken from the first `m` entries. */
  function SumShares(fee: nat, n: nat, m: nat): nat
    requires n > 0
  {
    if m == 0 then 0 else SumShares(fee, n, m - 1) + FeeShare(fee, n, m - 1)
  }

  lemma {:induction false} SumSharesPrefix(fee: nat, n: nat, m: nat)
    requires n > 0 && m <= n
    ensures SumShares(fee, n, m) == m * (fee / n) + (if m < fee % n then m else fee % n)
  {
    if m > 0 {
      SumSharesPrefix(fee, n, m - 1);
      assert m * (fee / n) == (m - 1) * (fee / n) + fee / n;
    }
  }

  /** The fee shares of the whole batch add up to the fee exactly. */
  lemma FeeSharesTotal(fee: nat, n: nat)
    requires n > 0
    ensures SumShares(fee, n, n) == fee
  {
    SumSharesPrefix(fee, n, n);
    assert fee % n < n;
    assert n * (fee / n) + fee % n == fee;
  }

  /** Shares differ by at most one, and earlier entries never pay less than later ones. */
  lemma FeeSharesBalanced(fee: nat, n: nat, j: nat, k: nat)
    requires n > 0 && j <= k
    ensures FeeShare(fee, n, k) <= FeeShare(fee, n, j) <= FeeShare(fee, n, k) + 1
  {
  }

  /** The batch after the fee loop: entry `k` loses its share, in uint64. */
  function ApplyFee(ds: seq<Dest>): (r: seq<Dest>)
    ensures |r| == |ds|
    ensures forall k :: 0 <= k < |ds| ==>
              r[k] == Dest(ds[k].address, U.Sub(ds[k].amount, FeeShare(BaseFee, |ds|, k)))
  {
    seq(|ds|, k requires 0 <= k < |ds| =>
      FeeShareBound(BaseFee, |ds|, k);
      Dest(ds[k].address, U.Sub(ds[k].amount, FeeShare(BaseFee, |ds|, k))))
  }

  function SumAmounts(ds: seq<Dest>): int {
    if ds == [] then 0 else SumAmounts(ds[..|ds| - 1]) + ds[|ds| - 1].amount
  }

  lemma {:induction false} FeeDeductionPrefix(ds: seq<Dest>, m: nat)
    requires 0 < |ds| && m <= |ds|
    requires forall k :: 0 <= k < |ds| ==> ds[k].amount >= FeeShare(BaseFee, |ds|, k)
    ensures SumAmounts(ds[..m]) - SumAmounts(ApplyFee(ds)[..m]) == SumShares(BaseFee, |ds|, m)
  {
    if m > 0 {
      FeeDeductionPrefix(ds, m - 1);
      assert ds[..m][..m - 1] == ds[..m - 1];
      assert ApplyFee(ds)[..m][..m - 1] == ApplyFee(ds)[..m - 1];
    }
  }

  /**
   * When no entry is smaller than its share, the batch loses exactly the base
   * fee in total; the addresses and their order are unchanged.
   */
  lemma FeeDeductionTotal(ds: seq<Dest>)
    requires 0 < |ds|
    requires forall k :: 0 <= k < |ds| ==> ds[k].amount >= FeeShare(BaseFee, |ds|, k)
    ensures SumAmounts(ds) - SumAmounts(ApplyFee(ds)) == BaseFee
    ensures forall k :: 0 <= k < |ds| ==> ApplyFee(ds)[k].address == ds[k].address
  {
    FeeDeductionPrefix(ds, |ds|);
    assert ds[..|ds|] == ds;
    assert ApplyFee(ds)[..|ds|] == ApplyFee(ds);
    FeeSharesTotal(BaseFee, |ds|);
  }

  /** Three destinations: 3,333,333,334 from the first, 3,333,333,333 from each of the others. */
  lemma FeeSplitOfThree()
    ensures FeeShare(BaseFee, 3, 0) == 3333333334
    ensures FeeShare(BaseFee, 3, 1) == 3333333333 && FeeShare(BaseFee, 3, 2) == 3333333333
  {
  }

  // ------------------------------------------------------- ledger effects

  /** The list without the first occurrence of `p`. */
  function RemoveOne(ps: seq<PendingPayment>, p: PendingPayment): (r: seq<PendingPayment>)
    ensures |r| <= |ps|
  {
    if ps == [] then []
    else if ps[0] == p then ps[1..]
    else [ps[0]] + RemoveOne(ps[1..], p)
  }

  /**
   * What a successful call does to the ledger store. Lock writes the pending
   * record and sets the lock; Debit takes the amount off the balance; Record
   * logs the payment, clears its pending record and releases the lock once no
   * pending record is left; Rollback credits the amount back and clears its
   * pending record; Unlock clears the lock. Reads and transfers leave it alone.
   */
  function Effect(l: Ledger, c: Call): Ledger {
    match c
    case Lock(login, amount) =>
      l.(locked := true, pending := l.pending + [PendingPayment(login, amount)])
    case Debit(login, amount) =>
      l.(balances := l.balances[login := Balance(l, login) - amount])
    case Record(login, txHash, amount) =>
      var rest := RemoveOne(l.pending, PendingPayment(login, amount));
      l.(payments := l.payments + [Payment(login, txHash, amount)], pending := rest, locked := l.locked && rest != [])
    case Rollback(address, amount) =>
      l.(balances := l.balances[address := Balance(l, address) + amount],
         pending := RemoveOne(l.pending, PendingPayment(address, amount)))
    case Unlock => l.(locked := false)
    case _ => l
  }

  /** Whether the outside world lets call `c` succeed. */
  predicate Succeeds(env: Env, c: Call) {
    match c
    case Send(ds) => env.send(ds).Some?
    case Lock(_, _) => env.backendOk(c)
    case Debit(_, _) => env.backendOk(c)
    case Record(_, _, _) => env.backendOk(c)
    case Rollback(_, _) => env.backendOk(c)
    case Unlock => env.backendOk(c)
    case LockQuery => env.backendOk(c)
    case _ => true
  }

  /** The ledger after the calls `cs`, applied in order. */
  function ApplyAll(l: Ledger, cs: seq<Call>): Ledger
    decreases |cs|
  {
    if cs == [] then l else ApplyAll(Effect(l, cs[0]), cs[1..])
  }

  /** The calls made, the ledger afterwards, and the call that failed (if any). */
  datatype Exec = Exec(ledger: Ledger, calls: seq<Call>, failed: Option<Call>)

  /** Carry out `plan` in order, stopping at the first call that fails. */
  function Perform(env: Env, l: Ledger, plan: seq<Call>): Exec
    decreases |plan|
  {
    if plan == [] then Exec(l, [], None)
    else if !Succeeds(env, plan[0]) then Exec(l, [plan[0]], Some(plan[0]))
    else
      var rest := Perform(env, Effect(l, plan[0]), plan[1..]);
      Exec(rest.ledger, [plan[0]] + rest.calls, rest.failed)
  }

  /**
   * Performing a plan makes a prefix of its calls, and it stops early exactly
   * when some call of the plan fails.
   */
  lemma {:induction false} PerformPrefix(env: Env, l: Ledger, plan: seq<Call>)
    ensures var r := Perform(env, l, plan);
            && r.calls <= plan
            && (r.failed.None? ==> r.calls == plan)
            && (r.failed.None? <==> forall i :: 0 <= i < |plan| ==> Succeeds(env, plan[i]))
    decreases |plan|
  {
    if plan != [] {
      PerformCons(env, l, plan[0], plan[1..]);
      assert plan == [plan[0]] + plan[1..];
      if Succeeds(env, plan[0]) {
        PerformPrefix(env, Effect(l, plan[0]), plan[1..]);
        var rest := Perform(env, Effect(l, plan[0]), plan[1..]);
        if rest.failed.Some? {
          var i :| 0 <= i < |plan[1..]| && !Succeeds(env, plan[1..][i]);
          assert !Succeeds(env, plan[i + 1]);
        }
      }
    }
  }

  /**
   * A plan that fails stops at its first failing call: every call before it
   * succeeded, and the ledger reflects exactly those, in order.
   */
  lemma {:induction false} PerformStops(env: Env, l: Ledger, plan: seq<Call>)
    ensures var r := Perform(env, l, plan);
            r.failed.Some? ==>
              && |r.calls| > 0 && r.failed.value == r.calls[|r.calls| - 1]
              && !Succeeds(env, r.failed.value)
              && (forall i :: 0 <= i < |r.calls| - 1 ==> Succeeds(env, r.calls[i]))
              && r.ledger == ApplyAll(l, r.calls[..|r.calls| - 1])
    decreases |plan|
  {
    if plan != [] {
      PerformCons(env, l, plan[0], plan[1..]);
      assert plan == [plan[0]] + plan[1..];
      if Succeeds(env, plan[0]) {
        PerformStops(env, Effect(l, plan[0]), plan[1..]);
        var rest := Perform(env, Effect(l, plan[0]), plan[1..]);
        if rest.failed.Some? {
          var r := Perform(env, l, plan);
          assert r.calls[..|r.calls| - 1] == [plan[0]] + rest.calls[..|rest.calls| - 1];
          assert r.calls[..|r.calls| - 1][1..] == rest.calls[..|rest.calls| - 1];
        }
      } else {
        assert [plan[0]][..0] == [];
      }
    }
  }

  /** A plan performed without failure leaves the ledger with all its calls applied, in order. */
  lemma {:induction false} PerformLedger(env: Env, l: Ledger, plan: seq<Call>)
    ensures var r := Perform(env, l, plan);
            r.failed.None? ==> r.ledger == ApplyAll(l, plan)
    decreases |plan|
  {
    if plan != [] {
      PerformCons(env, l, plan[0], plan[1..]);
      if Succeeds(env, plan[0]) {
        PerformLedger(env, Effect(l, plan[0]), plan[1..]);
      }
    }
  }

  // ------------------------------------------------------------ the plans

  function Lookup(m: map<string, int>, k: string): int {
    if k in m then m[k] else 0
  }

  /** The calls that pay one batch member: lock, debit, record under the batch's hash. */
  function BatchSteps(login: string, amount: int, txHash: string): seq<Call> {
    [Lock(login, amount), Debit(login, amount), Record(login, txHash, amount)]
  }

  /** The batch members' steps, in the given order. */
  function BatchPlan(logins: seq<string>, amounts: map<string, int>, txHash: string): seq<Call> {
    if logins == [] then []
    else BatchSteps(logins[0], Lookup(amounts, logins[0]), txHash) + BatchPlan(logins[1..], amounts, txHash)
  }

  function TxHashOf(reply: Option<string>): string {
    if reply.Some? then reply.value else ""
  }

  /** A missing key reads as the zero destination, as a Go map does. */
  function DestOf(dests: map<string, Dest>, login: string): Dest {
    if login in dests then dests[login] else Dest("", 0)
  }

  /** The calls that pay one integrated destination: lock, debit, its own transfer, record under its hash. */
  function IntegratedSteps(env: Env, login: string, amount: int, dest: Dest): seq<Call> {
    [Lock(login, amount), Debit(login, amount), Send([dest]), Record(login, TxHashOf(env.send([dest])), amount)]
  }

  /** The integrated destinations' steps, in the given order. */
  function IntegratedPlan(env: Env, logins: seq<string>, amounts: map<string, int>, dests: map<string, Dest>)
    : seq<Call>
  {
    if logins == [] then []
    else IntegratedSteps(env, logins[0], Lookup(amounts, logins[0]), DestOf(dests, logins[0]))
         + IntegratedPlan(env, logins[1..], amounts, dests)
  }

  lemma SliceAfter<T>(a: seq<T>, b: seq<T>, lo: int, hi: int)
    requires |a| <= lo <= hi <= |a| + |b|
    ensures (a + b)[lo..hi] == b[lo - |a|..hi - |a|]
  {
  }

  /** The batch plan is the members' lock-debit-record triples, back to back. */
  lemma {:induction false} BatchPlanShape(logins: seq<string>, amounts: map<string, int>, txHash: string)
    ensures |BatchPlan(logins, amounts, txHash)| == 3 * |logins|
    ensures forall i :: 0 <= i < |logins| ==>
              BatchPlan(logins, amounts, txHash)[3 * i..3 * i + 3] == BatchSteps(logins[i], Lookup(amounts, logins[i]), txHash)
  {
    if logins != [] {
      var head := BatchSteps(logins[0], Lookup(amounts, logins[0]), txHash);
      var rest := BatchPlan(logins[1..], amounts, txHash);
      BatchPlanShape(logins[1..], amounts, txHash);
      forall i | 0 <= i < |logins|
        ensures BatchPlan(logins, amounts, txHash)[3 * i..3 * i + 3] == BatchSteps(logins[i], Lookup(amounts, logins[i]), txHash)
      {
        if i > 0 {
          assert logins[i] == logins[1..][i - 1];
          SliceAfter(head, rest, 3 * i, 3 * i + 3);
        } else {
          assert (head + rest)[..3] == head;
        }
      }
    }
  }

  /** The integrated plan is the destinations' lock-debit-send-record quadruples, back to back. */
  lemma {:induction false} IntegratedPlanShape(env: Env, logins: seq<string>, amounts: map<string, int>,
                                               dests: map<string, Dest>)
    ensures |IntegratedPlan(env, logins, amounts, dests)| == 4 * |logins|
    ensures forall i :: 0 <= i < |logins| ==>
              IntegratedPlan(env, logins, amounts, dests)[4 * i..4 * i + 4]
              == IntegratedSteps(env, logins[i], Lookup(amounts, logins[i]), DestOf(dests, logins[i]))
  {
    if logins != [] {
      var head := IntegratedSteps(env, logins[0], Lookup(amounts, logins[0]), DestOf(dests, logins[0]));
      var rest := IntegratedPlan(env, logins[1..], amounts, dests);
      IntegratedPlanShape(env, logins[1..], amounts, dests);
      forall i | 0 <= i < |logins|
        ensures IntegratedPlan(env, logins, amounts, dests)[4 * i..4 * i + 4]
                == IntegratedSteps(env, logins[i], Lookup(amounts, logins[i]), DestOf(dests, logins[i]))
      {
        if i > 0 {
          assert logins[i] == logins[1..][i - 1];
          SliceAfter(head, rest, 4 * i, 4 * i + 4);
        } else {
          assert (head + rest)[..4] == head;
        }
      }
    }
  }

  // ------------------------------------------------- performing step by step

  /** Continue an execution that has not failed with the calls of `rest`. */
  function Then(e: Exec, env: Env, rest: seq<Call>): Exec {
    if e.failed.Some? then e
    else
      var r := Perform(env, e.ledger, rest);
      Exec(r.ledger, e.calls + r.calls, r.failed)
  }

  /** One call of a plan: it either fails, ending the execution, or takes effect. */
  lemma ThenStep(env: Env, e: Exec, c: Call, rest: seq<Call>)
    requires e.failed.None?
    ensures Then(e, env, [c] + rest)
            == if Succeeds(env, c) then Then(Exec(Effect(e.ledger, c), e.calls + [c], None), env, rest)
               else Exec(e.ledger, e.calls + [c], Some(c))
  {
    assert ([c] + rest)[0] == c && ([c] + rest)[1..] == rest;
    if Succeeds(env, c) {
      var r := Perform(env, Effect(e.ledger, c), rest);
      assert e.calls + ([c] + r.calls) == e.calls + [c] + r.calls;
    }
  }

  /** Performing `a + b` is performing `a`, then `b` if `a` did not fail. */
  lemma {:induction false} PerformAppend(env: Env, l: Ledger, a: seq<Call>, b: seq<Call>)
    ensures Perform(env, l, a + b) == Then(Perform(env, l, a), env, b)
    decreases |a|
  {
    if a == [] {
      assert a + b == b;
    } else {
      assert (a + b)[0] == a[0] && (a + b)[1..] == a[1..] + b;
      if Succeeds(env, a[0]) {
        PerformAppend(env, Effect(l, a[0]), a[1..], b);
        var ra := Perform(env, Effect(l, a[0]), a[1..]);
        if ra.failed.None? {
          var rb := Perform(env, ra.ledger, b);
          assert [a[0]] + (ra.calls + rb.calls) == [a[0]] + ra.calls + rb.calls;
        }
      }
    }
  }

  // ------------------------------------------------------------- one run

  /** The processor's state after a run: the halt latch, the last failure, the ledger, and the calls made. */
  datatype RunResult = RunResult(halt: bool, lastFail: Option<Failure>, ledger: Ledger, calls: seq<Call>)

  /** The state after a plan was performed following the calls `before`: a failed call latches the halt. */
  function AfterPlan(halt: bool, lastFail: Option<Failure>, before: seq<Call>, e: Exec): RunResult {
    if e.failed.Some? then RunResult(true, Some(CallFailed(e.failed.value)), e.ledger, before + e.calls)
    else RunResult(halt, lastFail, e.ledger, before + e.calls)
  }

  /** The integrated destinations, each paid on its own, in map order. */
  function PayIntegratedGroup(env: Env, sel: Selection, st: RunResult): RunResult {
    var plan := IntegratedPlan(env, env.order(sel.integAmounts.Keys), sel.integAmounts, sel.integ);
    AfterPlan(st.halt, st.lastFail, st.calls, Perform(env, st.ledger, plan))
  }

  /**
   * One settlement run. A latched halt makes it a no-op; a failed payee list
   * ends it quietly; a failed wallet balance or a pool balance below the total
   * due latches the halt before any transfer. Otherwise the batch (when any
   * standard payee was selected) is sent in one transfer with the fee split over
   * it; a failed transfer latches the halt and ends the run, a success is
   * followed by each member's lock, debit and record. The integrated
   * destinations are then paid one by one, whether or not the batch loop failed.
   */
  function Run(cfg: PayoutsConfig, env: Env, halt: bool, lastFail: Option<Failure>, l: Ledger): (r: RunResult)
    ensures halt ==> r == RunResult(true, lastFail, l, [])
    ensures !r.halt ==> r.lastFail == lastFail
    ensures r.halt && !halt ==> r.lastFail.Some?
    ensures !halt ==> |r.calls| > 0 && r.calls[0] == GetPayees
    ensures !halt && env.payees.None? ==> r == RunResult(false, lastFail, l, [GetPayees])
    ensures !halt && env.payees.Some? && env.walletBalance.None?
            ==> r == RunResult(true, Some(WalletUnavailable), l, [GetPayees, WalletBalance])
  {
    if halt then RunResult(halt, lastFail, l, [])
    else if env.payees.None? then RunResult(halt, lastFail, l, [GetPayees])
    else if env.walletBalance.None? then RunResult(true, Some(WalletUnavailable), l, [GetPayees, WalletBalance])
    else
      var sel := Select(cfg, env, l, env.payees.value);
      PaySelection(env, sel, env.walletBalance.value, RunResult(halt, lastFail, l, [GetPayees, WalletBalance] + sel.calls))
  }

  /**
   * What a run does once the payees are selected, from state `st`: with
   * nobody to pay, nothing; with a pool balance below the total due, latch the
   * halt; otherwise pay the batch, then the integrated group.
   */
  function PaySelection(env: Env, sel: Selection, poolBalance: int, st: RunResult): RunResult {
    if sel.mustPay == 0 then st
    else if poolBalance < sel.total then st.(halt := true, lastFail := Some(InsufficientFunds(sel.total, poolBalance)))
    else if |sel.batchAmounts| == 0 then PayIntegratedGroup(env, sel, st)
    else
      var dests := ApplyFee(sel.batch);
      var sent := env.send(dests);
      if sent.None? then RunResult(true, Some(CallFailed(Send(dests))), st.ledger, st.calls + [Send(dests)])
      else
        var plan := BatchPlan(env.order(sel.batchAmounts.Keys), sel.batchAmounts, sent.value);
        PayIntegratedGroup(env, sel, AfterPlan(st.halt, st.lastFail, st.calls + [Send(dests)], Perform(env, st.ledger, plan)))
  }

  /** The calls made before a run's payments only prefix the calls it records. */
  lemma PaySelectionShift(env: Env, sel: Selection, poolBalance: int, st: RunResult, pre: seq<Call>)
    ensures PaySelection(env, sel, poolBalance, st.(calls := pre + st.calls))
            == (var r := PaySelection(env, sel, poolBalance, st); r.(calls := pre + r.calls))
  {
    var dests := ApplyFee(sel.batch);
    Regroup(pre, st.calls, [Send(dests)]);
    forall before: seq<Call>, e: Exec
      ensures AfterPlan(st.halt, st.lastFail, pre + before, e)
              == (var r := AfterPlan(st.halt, st.lastFail, before, e); r.(calls := pre + r.calls))
    {
      Regroup(pre, before, e.calls);
    }
    forall t: RunResult
      ensures PayIntegratedGroup(env, sel, t.(calls := pre + t.calls))
              == (var r := PayIntegratedGroup(env, sel, t); r.(calls := pre + r.calls))
    {
      var e := Perform(env, t.ledger, IntegratedPlan(env, env.order(sel.integAmounts.Keys), sel.integAmounts, sel.integ));
      Regroup(pre, t.calls, e.calls);
    }
  }

  predicate IsLedgerWrite(c: Call) {
    c.Lock? || c.Debit? || c.Record? || c.Rollback? || c.Unlock?
  }

  /**
   * A pool balance below the total due to the payees the loop reaches, with
   * some payee eligible, latches the halt before anything is sent or written:
   * the run made read calls only and the ledger is unchanged.
   */
  lemma RunInsufficientFunds(cfg: PayoutsConfig, env: Env, halt: bool, lastFail: Option<Failure>, l: Ledger)
    requires !halt && env.payees.Some? && env.walletBalance.Some?
    requires exists i :: 0 <= i < |env.payees.value| && Eligible(cfg, l, env.payees.value[i])
    requires env.walletBalance.value < TotalDue(cfg, env, l, env.payees.value)
    ensures var r := Run(cfg, env, halt, lastFail, l);
            && r.halt && r.lastFail == Some(InsufficientFunds(TotalDue(cfg, env, l, env.payees.value), env.walletBalance.value))
            && r.ledger == l && ReadsOnly(r.calls)
  {
    var sel := Select(cfg, env, l, env.payees.value);
    SelectStops(cfg, env, l, env.payees.value);
    SelectCountsEligible(cfg, env, l, env.payees.value);
    SelectPartition(cfg, env, l, env.payees.value);
    assert ReadsOnly([GetPayees, WalletBalance] + sel.calls);
  }

  /**
   * A failed batch transfer latches the halt with nothing written: no batch
   * member is locked, debited or recorded, and no integrated destination is paid.
   */
  lemma RunBatchSendFails(cfg: PayoutsConfig, env: Env, halt: bool, lastFail: Option<Failure>, l: Ledger)
    requires !halt && env.payees.Some? && env.walletBalance.Some?
    requires var sel := Select(cfg, env, l, env.payees.value);
             && sel.mustPay > 0 && sel.total <= env.walletBalance.value && |sel.batchAmounts| > 0
             && env.send(ApplyFee(sel.batch)).None?
    ensures var r := Run(cfg, env, halt, lastFail, l);
            var dests := ApplyFee(Select(cfg, env, l, env.payees.value).batch);
            && r.halt && r.lastFail == Some(CallFailed(Send(dests))) && r.ledger == l
            && |r.calls| > 0 && r.calls[|r.calls| - 1] == Send(dests) && ReadsOnly(r.calls[..|r.calls| - 1])
  {
    var sel := Select(cfg, env, l, env.payees.value);
    SelectPartition(cfg, env, l, env.payees.value);
    var calls := [GetPayees, WalletBalance] + sel.calls;
    assert ReadsOnly(calls);
    var r := Run(cfg, env, halt, lastFail, l);
    assert r.calls[..|r.calls| - 1] == calls;
  }

  /** The batch is sent only with its fee split applied, and only when some standard payee was selected. */
  lemma RunSendsBatchWithFee(cfg: PayoutsConfig, env: Env, halt: bool, lastFail: Option<Failure>, l: Ledger)
    requires !halt && env.payees.Some? && env.walletBalance.Some?
    requires var sel := Select(cfg, env, l, env.payees.value);
             sel.mustPay > 0 && sel.total <= env.walletBalance.value && |sel.batchAmounts| > 0
    ensures var r := Run(cfg, env, halt, lastFail, l);
            var sel := Select(cfg, env, l, env.payees.value);
            var n := 2 + |sel.calls|;
            && |sel.batch| > 0 && |r.calls| > n
            && r.calls[..n] == [GetPayees, WalletBalance] + sel.calls
            && r.calls[n] == Send(ApplyFee(sel.batch))
            && ReadsOnly(r.calls[..n])
  {
    var sel := Select(cfg, env, l, env.payees.value);
    SelectPartition(cfg, env, l, env.payees.value);
    SelectBatch(cfg, env, l, env.payees.value);
    var calls := [GetPayees, WalletBalance] + sel.calls;
    assert ReadsOnly(calls);
    var dests := ApplyFee(sel.batch);
    var pre := calls + [Send(dests)];
    var r := Run(cfg, env, halt, lastFail, l);
    assert r == PaySelection(env, sel, env.walletBalance.value, RunResult(halt, lastFail, l, calls));
    if env.send(dests).Some? {
      var plan := BatchPlan(env.order(sel.batchAmounts.Keys), sel.batchAmounts, env.send(dests).value);
      var afterBatch := AfterPlan(halt, lastFail, pre, Perform(env, l, plan));
      assert r == PayIntegratedGroup(env, sel, afterBatch);
      PrefixGrows(pre, Perform(env, l, plan).calls);
      IntegratedGroupExtends(env, sel, afterBatch);
    } else {
      PrefixGrows(pre, []);
    }
    PrefixTake(pre, r.calls);
  }

  /** Paying the integrated group only appends calls. */
  lemma IntegratedGroupExtends(env: Env, sel: Selection, st: RunResult)
    ensures st.calls <= PayIntegratedGroup(env, sel, st).calls
  {
    var plan := IntegratedPlan(env, env.order(sel.integAmounts.Keys), sel.integAmounts, sel.integ);
    PrefixGrows(st.calls, Perform(env, st.ledger, plan).calls);
  }

  lemma PrefixTake<T>(a: seq<T>, b: seq<T>)
    requires a <= b
    ensures |a| <= |b| && b[..|a|] == a
  {
  }

  // --------------------------------------------------------- ledger health

  /** While a payment is pending, the payout lock is set. */
  predicate ValidLedger(l: Ledger) {
    l.pending != [] ==> l.locked
  }

  predicate NoUnlock(plan: seq<Call>) {
    forall i :: 0 <= i < |plan| ==> plan[i] != Unlock
  }

  lemma {:induction false} PerformKeepsValid(env: Env, l: Ledger, plan: seq<Call>)
    requires ValidLedger(l) && NoUnlock(plan)
    ensures ValidLedger(Perform(env, l, plan).ledger)
    decreases |plan|
  {
    if plan != [] && Succeeds(env, plan[0]) {
      assert NoUnlock(plan[1..]) by {
        forall i | 0 <= i < |plan[1..]| ensures plan[1..][i] != Unlock {
          assert plan[1..][i] == plan[i + 1];
        }
      }
      PerformKeepsValid(env, Effect(l, plan[0]), plan[1..]);
    }
  }

  lemma {:induction false} BatchPlanNoUnlock(logins: seq<string>, amounts: map<string, int>, txHash: string)
    ensures NoUnlock(BatchPlan(logins, amounts, txHash))
  {
    if logins != [] {
      BatchPlanNoUnlock(logins[1..], amounts, txHash);
    }
  }

  lemma {:induction false} IntegratedPlanNoUnlock(env: Env, logins: seq<string>, amounts: map<string, int>,
                                                  dests: map<string, Dest>)
    ensures NoUnlock(IntegratedPlan(env, logins, amounts, dests))
  {
    if logins != [] {
      IntegratedPlanNoUnlock(env, logins[1..], amounts, dests);
    }
  }

  /** A run never leaves a pending payment without the payout lock. */
  lemma RunKeepsLedgerValid(cfg: PayoutsConfig, env: Env, halt: bool, lastFail: Option<Failure>, l: Ledger)
    requires ValidLedger(l)
    ensures ValidLedger(Run(cfg, env, halt, lastFail, l).ledger)
  {
    if !halt && env.payees.Some? && env.walletBalance.Some? {
      var sel := Select(cfg, env, l, env.payees.value);
      var st := RunResult(halt, lastFail, l, [GetPayees, WalletBalance] + sel.calls);
      assert Run(cfg, env, halt, lastFail, l) == PaySelection(env, sel, env.walletBalance.value, st);
      IntegratedGroupKeepsValid(env, sel, st);
      var dests := ApplyFee(sel.batch);
      if env.send(dests).Some? {
        var plan := BatchPlan(env.order(sel.batchAmounts.Keys), sel.batchAmounts, env.send(dests).value);
        BatchPlanNoUnlock(env.order(sel.batchAmounts.Keys), sel.batchAmounts, env.send(dests).value);
        PerformKeepsValid(env, l, plan);
        IntegratedGroupKeepsValid(env, sel, AfterPlan(halt, lastFail, st.calls + [Send(dests)], Perform(env, l, plan)));
      }
    }
  }

  /** Paying the integrated group keeps pending payments under the lock. */
  lemma IntegratedGroupKeepsValid(env: Env, sel: Selection, st: RunResult)
    requires ValidLedger(st.ledger)
    ensures ValidLedger(PayIntegratedGroup(env, sel, st).ledger)
  {
    var logins := env.order(sel.integAmounts.Keys);
    IntegratedPlanNoUnlock(env, logins, sel.integAmounts, sel.integ);
    PerformKeepsValid(env, st.ledger, IntegratedPlan(env, logins, sel.integAmounts, sel.integ));
  }

  // --------------------------------------------------- settling one group

  predicate Distinct(xs: seq<string>) {
    forall i, j :: 0 <= i < j < |xs| ==> xs[i] != xs[j]
  }

  /** The balance change a group makes: its members lose their amount, nobody else changes. */
  function Owed(logins: seq<string>, amounts: map<string, int>, x: string): int {
    if x in logins then Lookup(amounts, x) else 0
  }

  /** The payments logged for a batch, in order, all under the batch hash. */
  function BatchPayments(logins: seq<string>, amounts: map<string, int>, txHash: string): seq<Payment> {
    if logins == [] then []
    else [Payment(logins[0], txHash, Lookup(amounts, logins[0]))] + BatchPayments(logins[1..], amounts, txHash)
  }

  /** The payments logged for the integrated group, each under its own transfer's hash. */
  function IntegratedPayments(env: Env, logins: seq<string>, amounts: map<string, int>, dests: map<string, Dest>)
    : seq<Payment>
  {
    if logins == [] then []
    else [Payment(logins[0], TxHashOf(env.send([DestOf(dests, logins[0])])), Lookup(amounts, logins[0]))]
         + IntegratedPayments(env, logins[1..], amounts, dests)
  }

  lemma PerformIsThen(env: Env, l: Ledger, plan: seq<Call>)
    ensures Perform(env, l, plan) == Then(Exec(l, [], None), env, plan)
  {
    assert [] + Perform(env, l, plan).calls == Perform(env, l, plan).calls;
  }

  lemma DistinctTail(xs: seq<string>)
    requires xs != [] && Distinct(xs)
    ensures Distinct(xs[1..]) && xs[0] !in xs[1..]
  {
  }

  /** The ledger after a member's lock, debit and record all took effect on a clean ledger. */
  function Paid(l: Ledger, login: string, amount: int, txHash: string): Ledger {
    l.(balances := l.balances[login := Balance(l, login) - amount],
       payments := l.payments + [Payment(login, txHash, amount)])
  }

  /** One batch member from a clean ledger. */
  lemma BatchMember(env: Env, l: Ledger, x: string, a: int, txHash: string)
    requires l.pending == [] && !l.locked
    ensures var e := Perform(env, l, BatchSteps(x, a, txHash));
            && (e.failed.None? ==> e.ledger == Paid(l, x, a, txHash))
            && (e.failed == Some(Lock(x, a)) ==> e.ledger == l)
            && (e.failed.Some? ==> e.failed.value in BatchSteps(x, a, txHash))
            && (e.failed.Some? && e.failed.value != Lock(x, a) ==>
                  e.ledger.pending == [PendingPayment(x, a)] && e.ledger.locked)
  {
    var lock, debit, record := Lock(x, a), Debit(x, a), Record(x, txHash, a);
    var l1 := Effect(l, lock);
    var l2 := Effect(l1, debit);
    var l3 := Effect(l2, record);
    assert RemoveOne([PendingPayment(x, a)], PendingPayment(x, a)) == [];
    assert l3 == Paid(l, x, a, txHash);
    assert [debit, record][1..] == [record] && [record][1..] == [];
    assert Perform(env, l3, []) == Exec(l3, [], None) && [record] + [] == [record];
    var p3 := Perform(env, l2, [record]);
    assert p3 == if Succeeds(env, record) then Exec(l3, [record], None) else Exec(l2, [record], Some(record));
    var p2 := Perform(env, l1, [debit, record]);
    assert p2 == if Succeeds(env, debit) then Exec(p3.ledger, [debit] + p3.calls, p3.failed)
                 else Exec(l1, [debit], Some(debit));
  }

  /** One integrated destination from a clean ledger. */
  lemma IntegratedMember(env: Env, l: Ledger, x: string, a: int, d: Dest)
    requires l.pending == [] && !l.locked
    ensures var e := Perform(env, l, IntegratedSteps(env, x, a, d));
            && (e.failed.None? ==> e.ledger == Paid(l, x, a, TxHashOf(env.send([d]))))
            && (e.failed == Some(Lock(x, a)) ==> e.ledger == l)
            && (e.failed.Some? ==> e.failed.value in IntegratedSteps(env, x, a, d))
            && (e.failed.Some? && e.failed.value != Lock(x, a) ==>
                  e.ledger.pending == [PendingPayment(x, a)] && e.ledger.locked)
            && (e.failed == Some(Send([d])) ==> Balance(e.ledger, x) == Balance(l, x) - a)
  {
    var lock, debit, send, record := Lock(x, a), Debit(x, a), Send([d]), Record(x, TxHashOf(env.send([d])), a);
    var l1 := Effect(l, lock);
    var l2 := Effect(l1, debit);
    var l3 := Effect(l2, record);
    assert RemoveOne([PendingPayment(x, a)], PendingPayment(x, a)) == [];
    assert l3 == Paid(l, x, a, TxHashOf(env.send([d])));
    assert [debit, send, record][1..] == [send, record] && [send, record][1..] == [record] && [record][1..] == [];
    assert Perform(env, l3, []) == Exec(l3, [], None) && [record] + [] == [record];
    var p4 := Perform(env, l2, [record]);
    assert p4 == if Succeeds(env, record) then Exec(l3, [record], None) else Exec(l2, [record], Some(record));
    var p3 := Perform(env, l2, [send, record]);
    assert p3 == if Succeeds(env, send) then Exec(p4.ledger, [send] + p4.calls, p4.failed)
                 else Exec(l2, [send], Some(send));
    var p2 := Perform(env, l1, [debit, send, record]);
    assert p2 == if Succeeds(env, debit) then Exec(p3.ledger, [debit] + p3.calls, p3.failed)
                 else Exec(l1, [debit], Some(debit));
  }

  /**
   * The batch plan from a clean ledger: the first member's steps, then, when
   * all of them took effect, the rest of the plan from the paid ledger.
   */
  lemma BatchPlanStep(env: Env, l: Ledger, logins: seq<string>, amounts: map<string, int>, txHash: string)
    requires logins != [] && l.pending == [] && !l.locked
    ensures var x, a := logins[0], Lookup(amounts, logins[0]);
            var h := Perform(env, l, BatchSteps(x, a, txHash));
            var r := Perform(env, Paid(l, x, a, txHash), BatchPlan(logins[1..], amounts, txHash));
            Perform(env, l, BatchPlan(logins, amounts, txHash))
            == if h.failed.Some? then h else Exec(r.ledger, h.calls + r.calls, r.failed)
  {
    var x, a := logins[0], Lookup(amounts, logins[0]);
    var head, rest := BatchSteps(x, a, txHash), BatchPlan(logins[1..], amounts, txHash);
    assert BatchPlan(logins, amounts, txHash) == head + rest;
    PerformAppend(env, l, head, rest);
    BatchMember(env, l, x, a, txHash);
  }

  /**
   * Settling a batch from a clean ledger (nothing pending, unlocked) when every
   * step succeeds: one payment per member is logged under the batch hash, in
   * order, and nothing is left pending or locked.
   */
  lemma {:induction false} BatchSettles(env: Env, l: Ledger, logins: seq<string>, amounts: map<string, int>,
                                        txHash: string)
    requires l.pending == [] && !l.locked
    ensures var e := Perform(env, l, BatchPlan(logins, amounts, txHash));
            e.failed.None? ==>
              && e.ledger.pending == [] && !e.ledger.locked
              && e.ledger.payments == l.payments + BatchPayments(logins, amounts, txHash)
    decreases |logins|
  {
    if logins != [] {
      var x, a := logins[0], Lookup(amounts, logins[0]);
      BatchPlanStep(env, l, logins, amounts, txHash);
      if Perform(env, l, BatchSteps(x, a, txHash)).failed.None? {
        var p, later := Payment(x, txHash, a), BatchPayments(logins[1..], amounts, txHash);
        BatchSettles(env, Paid(l, x, a, txHash), logins[1..], amounts, txHash);
        assert BatchPayments(logins, amounts, txHash) == [p] + later;
        Regroup(l.payments, [p], later);
      }
    }
  }

  /** A batch settled without failure debits each member exactly their amount, and nobody else. */
  lemma {:induction false} BatchDebits(env: Env, l: Ledger, logins: seq<string>, amounts: map<string, int>,
                                       txHash: string)
    requires l.pending == [] && !l.locked && Distinct(logins)
    ensures var e := Perform(env, l, BatchPlan(logins, amounts, txHash));
            e.failed.None? ==> forall y :: Balance(e.ledger, y) == Balance(l, y) - Owed(logins, amounts, y)
    decreases |logins|
  {
    if logins != [] {
      var x, a := logins[0], Lookup(amounts, logins[0]);
      BatchPlanStep(env, l, logins, amounts, txHash);
      if Perform(env, l, BatchSteps(x, a, txHash)).failed.None? {
        var l1 := Paid(l, x, a, txHash);
        DistinctTail(logins);
        BatchDebits(env, l1, logins[1..], amounts, txHash);
        var r := Perform(env, l1, BatchPlan(logins[1..], amounts, txHash));
        if r.failed.None? {
          forall y ensures Balance(r.ledger, y) == Balance(l, y) - Owed(logins, amounts, y) {
            assert y in logins <==> y == x || y in logins[1..];
          }
        }
      }
    }
  }

  /**
   * A batch settlement from a clean ledger that fails: when a lock fails,
   * nothing is pending or locked; when a debit or a record fails, exactly that
   * member's payment is pending and the lock is set, the state the
   * resolution pass repairs.
   */
  lemma {:induction false} BatchFailure(env: Env, l: Ledger, logins: seq<string>, amounts: map<string, int>,
                                        txHash: string)
    requires l.pending == [] && !l.locked
    ensures var e := Perform(env, l, BatchPlan(logins, amounts, txHash));
            && (e.failed.Some? && e.failed.value.Lock? ==> e.ledger.pending == [] && !e.ledger.locked)
            && (e.failed.Some? && !e.failed.value.Lock? ==>
                  && (e.failed.value.Debit? || e.failed.value.Record?)
                  && e.ledger.pending == [PendingPayment(e.failed.value.login, e.failed.value.amount)]
                  && e.failed.value.login in logins && e.failed.value.amount == Lookup(amounts, e.failed.value.login)
                  && e.ledger.locked)
    decreases |logins|
  {
    if logins != [] {
      var x, a := logins[0], Lookup(amounts, logins[0]);
      BatchPlanStep(env, l, logins, amounts, txHash);
      BatchMember(env, l, x, a, txHash);
      if Perform(env, l, BatchSteps(x, a, txHash)).failed.None? {
        BatchFailure(env, Paid(l, x, a, txHash), logins[1..], amounts, txHash);
      }
    }
  }

  /**
   * The integrated plan from a clean ledger: the first destination's steps,
   * then, when all of them took effect, the rest of the plan from the paid ledger.
   */
  lemma IntegratedPlanStep(env: Env, l: Ledger, logins: seq<string>, amounts: map<string, int>,
                           dests: map<string, Dest>)
    requires logins != [] && l.pending == [] && !l.locked
    ensures var x, a, d := logins[0], Lookup(amounts, logins[0]), DestOf(dests, logins[0]);
            var h := Perform(env, l, IntegratedSteps(env, x, a, d));
            var r := Perform(env, Paid(l, x, a, TxHashOf(env.send([d]))), IntegratedPlan(env, logins[1..], amounts, dests));
            Perform(env, l, IntegratedPlan(env, logins, amounts, dests))
            == if h.failed.Some? then h else Exec(r.ledger, h.calls + r.calls, r.failed)
  {
    var x, a, d := logins[0], Lookup(amounts, logins[0]), DestOf(dests, logins[0]);
    var head, rest := IntegratedSteps(env, x, a, d), IntegratedPlan(env, logins[1..], amounts, dests);
    assert IntegratedPlan(env, logins, amounts, dests) == head + rest;
    PerformAppend(env, l, head, rest);
    IntegratedMember(env, l, x, a, d);
  }

  /**
   * Settling the integrated group from a clean ledger when every step succeeds:
   * each payment is logged under its own transfer's hash, in order, and
   * nothing is left pending or locked.
   */
  lemma {:induction false} IntegratedSettles(env: Env, l: Ledger, logins: seq<string>, amounts: map<string, int>,
                                             dests: map<string, Dest>)
    requires l.pending == [] && !l.locked
    ensures var e := Perform(env, l, IntegratedPlan(env, logins, amounts, dests));
            e.failed.None? ==>
              && e.ledger.pending == [] && !e.ledger.locked
              && e.ledger.payments == l.payments + IntegratedPayments(env, logins, amounts, dests)
    decreases |logins|
  {
    if logins != [] {
      var x, a, d := logins[0], Lookup(amounts, logins[0]), DestOf(dests, logins[0]);
      IntegratedPlanStep(env, l, logins, amounts, dests);
      if Perform(env, l, IntegratedSteps(env, x, a, d)).failed.None? {
        var p, later := Payment(x, TxHashOf(env.send([d])), a), IntegratedPayments(env, logins[1..], amounts, dests);
        IntegratedSettles(env, Paid(l, x, a, TxHashOf(env.send([d]))), logins[1..], amounts, dests);
        assert IntegratedPayments(env, logins, amounts, dests) == [p] + later;
        Regroup(l.payments, [p], later);
      }
    }
  }

  /** The integrated group settled without failure debits each destination exactly its amount, and nobody else. */
  lemma {:induction false} IntegratedDebits(env: Env, l: Ledger, logins: seq<string>, amounts: map<string, int>,
                                            dests: map<string, Dest>)
    requires l.pending == [] && !l.locked && Distinct(logins)
    ensures var e := Perform(env, l, IntegratedPlan(env, logins, amounts, dests));
            e.failed.None? ==> forall y :: Balance(e.ledger, y) == Balance(l, y) - Owed(logins, amounts, y)
    decreases |logins|
  {
    if logins != [] {
      var x, a, d := logins[0], Lookup(amounts, logins[0]), DestOf(dests, logins[0]);
      IntegratedPlanStep(env, l, logins, amounts, dests);
      if Perform(env, l, IntegratedSteps(env, x, a, d)).failed.None? {
        var l1 := Paid(l, x, a, TxHashOf(env.send([d])));
        DistinctTail(logins);
        IntegratedDebits(env, l1, logins[1..], amounts, dests);
        var r := Perform(env, l1, IntegratedPlan(env, logins[1..], amounts, dests));
        if r.failed.None? {
          forall y ensures Balance(r.ledger, y) == Balance(l, y) - Owed(logins, amounts, y) {
            assert y in logins <==> y == x || y in logins[1..];
          }
        }
      }
    }
  }

  /**
   * An integrated settlement from a clean ledger that fails: a failed lock
   * leaves nothing pending; a failed debit, transfer or record leaves exactly
   * one payment pending under the lock.
   */
  lemma {:induction false} IntegratedFailure(env: Env, l: Ledger, logins: seq<string>, amounts: map<string, int>,
                                             dests: map<string, Dest>)
    requires l.pending == [] && !l.locked
    ensures var e := Perform(env, l, IntegratedPlan(env, logins, amounts, dests));
            && (e.failed.Some? && e.failed.value.Lock? ==> e.ledger.pending == [] && !e.ledger.locked)
            && (e.failed.Some? && !e.failed.value.Lock? ==>
                  && (e.failed.value.Debit? || e.failed.value.Send? || e.failed.value.Record?)
                  && |e.ledger.pending| == 1 && e.ledger.locked
                  && var p := e.ledger.pending[0];
                     && p.address in logins && p.amount == Lookup(amounts, p.address)
                     && e.failed.value in IntegratedSteps(env, p.address, p.amount, DestOf(dests, p.address)))
    decreases |logins|
  {
    if logins != [] {
      var x, a, d := logins[0], Lookup(amounts, logins[0]), DestOf(dests, logins[0]);
      IntegratedPlanStep(env, l, logins, amounts, dests);
      IntegratedMember(env, l, x, a, d);
      if Perform(env, l, IntegratedSteps(env, x, a, d)).failed.None? {
        IntegratedFailure(env, Paid(l, x, a, TxHashOf(env.send([d]))), logins[1..], amounts, dests);
      }
    }
  }

  /** Without a failure, the integrated group leaves a clean ledger with each destination's amount taken off. */
  lemma IntegratedGroupSettles(env: Env, sel: Selection, st: RunResult)
    requires st.ledger.pending == [] && !st.ledger.locked
    requires IsEnumeration(env.order(sel.integAmounts.Keys), sel.integAmounts.Keys)
    ensures var r := PayIntegratedGroup(env, sel, st);
            !r.halt ==>
              && r.ledger.pending == [] && !r.ledger.locked
              && forall x :: Balance(r.ledger, x) == Balance(st.ledger, x) - Lookup(sel.integAmounts, x)
  {
    var logins := env.order(sel.integAmounts.Keys);
    IntegratedSettles(env, st.ledger, logins, sel.integAmounts, sel.integ);
    IntegratedDebits(env, st.ledger, logins, sel.integAmounts, sel.integ);
    forall x ensures Owed(logins, sel.integAmounts, x) == Lookup(sel.integAmounts, x) {
    }
  }

  /** Without a failure, the batch members' steps leave a clean ledger with each member's amount taken off. */
  lemma BatchGroupSettles(env: Env, sel: Selection, halt: bool, lastFail: Option<Failure>, calls: seq<Call>,
                          l: Ledger, txHash: string)
    requires l.pending == [] && !l.locked
    requires IsEnumeration(env.order(sel.batchAmounts.Keys), sel.batchAmounts.Keys)
    ensures var st := AfterPlan(halt, lastFail, calls,
                                Perform(env, l, BatchPlan(env.order(sel.batchAmounts.Keys), sel.batchAmounts, txHash)));
            !st.halt ==>
              && st.ledger.pending == [] && !st.ledger.locked
              && forall x :: Balance(st.ledger, x) == Balance(l, x) - Lookup(sel.batchAmounts, x)
  {
    var logins := env.order(sel.batchAmounts.Keys);
    BatchSettles(env, l, logins, sel.batchAmounts, txHash);
    BatchDebits(env, l, logins, sel.batchAmounts, txHash);
    forall x ensures Owed(logins, sel.batchAmounts, x) == Lookup(sel.batchAmounts, x) {
    }
  }

  /**
   * A run from a clean ledger that ends without latching the halt has paid
   * every selected payee in full: each one's balance is down by exactly the
   * amount selected, nobody else's changed, and nothing is pending or locked.
   */
  lemma RunSettles(cfg: PayoutsConfig, env: Env, halt: bool, lastFail: Option<Failure>, l: Ledger)
    requires !halt && l.pending == [] && !l.locked && RangesOverKeys(env)
    requires env.payees.Some? && env.walletBalance.Some?
    ensures var r := Run(cfg, env, halt, lastFail, l);
            var sel := Select(cfg, env, l, env.payees.value);
            !r.halt ==>
              && r.ledger.pending == [] && !r.ledger.locked
              && forall x :: Balance(r.ledger, x) == Balance(l, x) - Lookup(sel.batchAmounts, x) - Lookup(sel.integAmounts, x)
  {
    var sel := Select(cfg, env, l, env.payees.value);
    var r := Run(cfg, env, halt, lastFail, l);
    var calls := [GetPayees, WalletBalance] + sel.calls;
    assert IsEnumeration(env.order(sel.batchAmounts.Keys), sel.batchAmounts.Keys);
    assert IsEnumeration(env.order(sel.integAmounts.Keys), sel.integAmounts.Keys);
    if sel.mustPay > 0 && sel.total <= env.walletBalance.value {
      if |sel.batchAmounts| == 0 {
        var st := RunResult(halt, lastFail, l, calls);
        assert r == PayIntegratedGroup(env, sel, st);
        assert forall x :: Lookup(sel.batchAmounts, x) == 0;
        IntegratedGroupSettles(env, sel, st);
      } else {
        var dests := ApplyFee(sel.batch);
        if env.send(dests).Some? {
          var tx := env.send(dests).value;
          var plan := BatchPlan(env.order(sel.batchAmounts.Keys), sel.batchAmounts, tx);
          var st := AfterPlan(halt, lastFail, calls + [Send(dests)], Perform(env, l, plan));
          assert r == PayIntegratedGroup(env, sel, st);
          BatchGroupSettles(env, sel, halt, lastFail, calls + [Send(dests)], l, tx);
          if !st.halt {
            IntegratedGroupSettles(env, sel, st);
          }
        }
      }
    } else if sel.mustPay == 0 {
      SelectFromCounts(cfg, env, l, NoSelection, env.payees.value);
    }
  }

  // ------------------------------------------------------ the resolution pass

  /** Credit each pending payment back, in the order listed. */
  function RollbackPlan(ps: seq<PendingPayment>): seq<Call> {
    if ps == [] then [] else [Rollback(ps[0].address, ps[0].amount)] + RollbackPlan(ps[1..])
  }

  /** The total pending for `address`. */
  function Credit(ps: seq<PendingPayment>, address: string): int {
    if ps == [] then 0 else (if ps[0].address == address then ps[0].amount else 0) + Credit(ps[1..], address)
  }

  /**
   * The resolution pass: list the pending payments; with none, nothing else
   * happens; otherwise credit each back, stopping at the first failure, and
   * release the payout lock once all are credited.
   */
  function ResolvePass(env: Env, l: Ledger): (r: Exec)
    ensures |r.calls| >= 1 && r.calls[0] == PendingList
    ensures l.pending == [] ==> r == Exec(l, [PendingList], None)
  {
    if l.pending == [] then Exec(l, [PendingList], None)
    else
      var e := Perform(env, l, RollbackPlan(l.pending) + [Unlock]);
      Exec(e.ledger, [PendingList] + e.calls, e.failed)
  }

  /** A pass over a non-empty pending list: the credits, then the unlock if no credit failed. */
  lemma ResolvePassSplit(env: Env, l: Ledger)
    requires l.pending != []
    ensures var e := Perform(env, l, RollbackPlan(l.pending));
            var u := Perform(env, e.ledger, [Unlock]);
            ResolvePass(env, l)
            == if e.failed.Some? then Exec(e.ledger, [PendingList] + e.calls, e.failed)
               else Exec(u.ledger, [PendingList] + (e.calls + u.calls), u.failed)
  {
    PerformAppend(env, l, RollbackPlan(l.pending), [Unlock]);
  }

  /** Unlocking clears the lock and nothing else, or fails with nothing changed. */
  lemma UnlockStep(env: Env, l: Ledger)
    ensures var u := Perform(env, l, [Unlock]);
            && u.calls == [Unlock]
            && (u.failed.None? ==> u.ledger == l.(locked := false))
            && (u.failed.Some? ==> u.failed == Some(Unlock) && u.ledger == l)
  {
    assert [Unlock][1..] == [];
  }

  /** Performing a plan that starts with `c`: `c` either fails, ending it, or takes effect and the rest follows. */
  lemma PerformCons(env: Env, l: Ledger, c: Call, rest: seq<Call>)
    ensures Perform(env, l, [c] + rest)
            == if Succeeds(env, c) then (var r := Perform(env, Effect(l, c), rest); Exec(r.ledger, [c] + r.calls, r.failed))
               else Exec(l, [c], Some(c))
  {
    assert ([c] + rest)[0] == c && ([c] + rest)[1..] == rest;
  }

  /**
   * Crediting pending payments back leaves the lock and the payment log
   * untouched, and makes credit calls only.
   */
  lemma {:induction false} RollbackFacts(env: Env, l: Ledger, ps: seq<PendingPayment>)
    ensures var e := Perform(env, l, RollbackPlan(ps));
            && e.ledger.locked == l.locked && e.ledger.payments == l.payments
            && (forall i :: 0 <= i < |e.calls| ==> e.calls[i].Rollback?)
    decreases |ps|
  {
    if ps != [] {
      var c := Rollback(ps[0].address, ps[0].amount);
      var rest := RollbackPlan(ps[1..]);
      assert RollbackPlan(ps) == [c] + rest;
      PerformCons(env, l, c, rest);
      RollbackFacts(env, Effect(l, c), ps[1..]);
    }
  }

  /**
   * Crediting pending payments back from the front of the pending list: when
   * all succeed, nothing is pending; at the first failure, the failed record
   * and all after it are still pending.
   */
  lemma {:induction false} RollbackPending(env: Env, l: Ledger, ps: seq<PendingPayment>)
    requires l.pending == ps
    ensures var e := Perform(env, l, RollbackPlan(ps));
            && (e.failed.None? ==> e.ledger.pending == [])
            && (e.failed.Some? ==> 1 <= |e.calls| <= |ps| && e.ledger.pending == ps[|e.calls| - 1..])
    decreases |ps|
  {
    if ps != [] {
      var c := Rollback(ps[0].address, ps[0].amount);
      var rest := RollbackPlan(ps[1..]);
      assert RollbackPlan(ps) == [c] + rest;
      PerformCons(env, l, c, rest);
      if Succeeds(env, c) {
        var l1 := Effect(l, c);
        assert l1.pending == ps[1..];
        RollbackPending(env, l1, ps[1..]);
        var r := Perform(env, l1, rest);
        if r.failed.Some? {
          assert ps[1..][|r.calls| - 1..] == ps[|r.calls|..];
        }
      } else {
        assert ps[0..] == ps;
      }
    }
  }

  /** Crediting every pending payment back adds each address's pending total to its balance. */
  lemma {:induction false} RollbackCredits(env: Env, l: Ledger, ps: seq<PendingPayment>)
    requires l.pending == ps
    ensures var e := Perform(env, l, RollbackPlan(ps));
            e.failed.None? ==> forall a :: Balance(e.ledger, a) == Balance(l, a) + Credit(ps, a)
    decreases |ps|
  {
    if ps != [] {
      var c := Rollback(ps[0].address, ps[0].amount);
      var rest := RollbackPlan(ps[1..]);
      assert RollbackPlan(ps) == [c] + rest;
      PerformCons(env, l, c, rest);
      if Succeeds(env, c) {
        var l1 := Effect(l, c);
        assert l1.pending == ps[1..];
        RollbackCredits(env, l1, ps[1..]);
        forall a ensures Balance(l1, a) == Balance(l, a) + (if ps[0].address == a then ps[0].amount else 0) {
        }
      }
    }
  }

  /**
   * A resolution pass that completes leaves nothing pending and the payout lock
   * released, credits every address with its pending total, and logs no payment.
   */
  lemma ResolveCompletes(env: Env, l: Ledger)
    requires l.pending != []
    ensures var r := ResolvePass(env, l);
            r.failed.None? ==>
              && r.ledger.pending == [] && !r.ledger.locked && r.ledger.payments == l.payments
              && forall a :: Balance(r.ledger, a) == Balance(l, a) + Credit(l.pending, a)
  {
    ResolvePassSplit(env, l);
    RollbackFacts(env, l, l.pending);
    RollbackPending(env, l, l.pending);
    RollbackCredits(env, l, l.pending);
    var e := Perform(env, l, RollbackPlan(l.pending));
    UnlockStep(env, e.ledger);
  }

  /**
   * A resolution pass that fails on a credit stops there: the payout lock is
   * not released, and the failed record and every one after it stay pending
   * for the next pass; records already credited are gone, so no record is
   * credited twice.
   */
  lemma ResolveStopsAtFailure(env: Env, l: Ledger)
    requires l.pending != []
    ensures var r := ResolvePass(env, l);
            r.failed.Some? && r.failed.value.Rollback? ==>
              && r.ledger.locked == l.locked && Unlock !in r.calls
              && 2 <= |r.calls| <= |l.pending| + 1
              && r.ledger.pending == l.pending[|r.calls| - 2..]
  {
    ResolvePassSplit(env, l);
    RollbackFacts(env, l, l.pending);
    RollbackPending(env, l, l.pending);
    var e := Perform(env, l, RollbackPlan(l.pending));
    UnlockStep(env, e.ledger);
    if e.failed.Some? {
      var calls := [PendingList] + e.calls;
      assert Unlock !in calls by {
        forall i | 0 <= i < |calls| ensures calls[i] != Unlock {
          if i > 0 {
            assert calls[i] == e.calls[i - 1];
          }
        }
      }
      assert |calls| - 2 == |e.calls| - 1;
    }
  }

  /** Once a pass has completed, another pass lists the empty pending set and does nothing else. */
  lemma ResolveIdempotent(env: Env, l: Ledger)
    ensures var r := ResolvePass(env, l);
            r.failed.None? ==> ResolvePass(env, r.ledger) == Exec(r.ledger, [PendingList], None)
  {
    if l.pending != [] {
      ResolveCompletes(env, l);
    }
  }

  /** The pass keeps the rule that pending payments are always under the lock. */
  lemma ResolveKeepsLedgerValid(env: Env, l: Ledger)
    requires ValidLedger(l)
    ensures ValidLedger(ResolvePass(env, l).ledger)
  {
    if l.pending != [] {
      ResolvePassSplit(env, l);
      RollbackFacts(env, l, l.pending);
      RollbackPending(env, l, l.pending);
      UnlockStep(env, Perform(env, l, RollbackPlan(l.pending)).ledger);
    }
  }

  // ------------------------------------------------------------ starting up

  /** Settle: the periodic settlement; Resolve: the operator's recovery pass. */
  datatype Mode = Settle | Resolve

  /**
   * Start-up. In Resolve mode only the resolution pass runs. In Settle mode the
   * first run happens only when nothing is pending, the lock query answers, and
   * payouts are not locked; otherwise nothing is paid and nothing is written.
   */
  function StartRun(mode: Mode, cfg: PayoutsConfig, env: Env, halt: bool, lastFail: Option<Failure>, l: Ledger)
    : (r: RunResult)
    ensures mode == Settle && (l.pending != [] || !env.backendOk(LockQuery) || l.locked) ==>
              r.ledger == l && ReadsOnly(r.calls) && r.halt == halt && r.lastFail == lastFail
    ensures mode == Settle && l.pending == [] && env.backendOk(LockQuery) && !l.locked ==>
              var x := Run(cfg, env, halt, lastFail, l);
              r == x.(calls := [PendingList, LockQuery] + x.calls)
    ensures mode == Resolve ==> r.ledger == ResolvePass(env, l).ledger && r.calls == ResolvePass(env, l).calls
    ensures mode == Resolve ==>
              r.halt == halt && r.lastFail == lastFail
              && forall i :: 0 <= i < |r.calls| ==> !(r.calls[i].Send? || r.calls[i].Lock? || r.calls[i].Debit? || r.calls[i].Record?)
  {
    match mode
    case Resolve =>
      var e := ResolvePass(env, l);
      ResolveCallsOnly(env, l);
      RunResult(halt, lastFail, e.ledger, e.calls)
    case Settle =>
      if l.pending != [] then RunResult(halt, lastFail, l, [PendingList])
      else if !env.backendOk(LockQuery) || l.locked then RunResult(halt, lastFail, l, [PendingList, LockQuery])
      else
        var r := Run(cfg, env, halt, lastFail, l);
        r.(calls := [PendingList, LockQuery] + r.calls)
  }

  lemma ResolveCallsOnly(env: Env, l: Ledger)
    ensures var r := ResolvePass(env, l);
            forall i :: 0 <= i < |r.calls| ==> r.calls[i].PendingList? || r.calls[i].Rollback? || r.calls[i].Unlock?
  {
    if l.pending != [] {
      ResolvePassSplit(env, l);
      RollbackFacts(env, l, l.pending);
      var e := Perform(env, l, RollbackPlan(l.pending));
      UnlockStep(env, e.ledger);
      var calls := [PendingList] + (e.calls + Perform(env, e.ledger, [Unlock]).calls);
      forall i | 0 <= i < |calls| ensures calls[i].PendingList? || calls[i].Rollback? || calls[i].Unlock? {
        if 0 < i <= |e.calls| {
          assert calls[i] == e.calls[i - 1];
        }
      }
    }
  }

  /** Start-up, in either mode, keeps pending payments under the lock, whatever the outcome. */
  lemma StartKeepsLedgerValid(mode: Mode, cfg: PayoutsConfig, env: Env, halt: bool, lastFail: Option<Failure>, l: Ledger)
    requires ValidLedger(l)
    ensures ValidLedger(StartRun(mode, cfg, env, halt, lastFail, l).ledger)
  {
    ResolveKeepsLedgerValid(env, l);
    RunKeepsLedgerValid(cfg, env, halt, lastFail, l);
  }

  /**
   * A normal start on a clear backend (nothing pending, payouts unlocked)
   * runs a settlement right after its two checks; when that run does not
   * halt, every selected payee is paid in full and the backend is left clear.
   */
  lemma StartPaysWhenClear(cfg: PayoutsConfig, env: Env, halt: bool, lastFail: Option<Failure>, l: Ledger)
    requires !halt && l.pending == [] && !l.locked && env.backendOk(LockQuery) && RangesOverKeys(env)
    requires env.payees.Some? && env.walletBalance.Some?
    ensures var r := StartRun(Settle, cfg, env, halt, lastFail, l);
            var sel := Select(cfg, env, l, env.payees.value);
            && |r.calls| >= 3 && r.calls[0] == PendingList && r.calls[1] == LockQuery && r.calls[2] == GetPayees
            && (!r.halt ==>
                  && r.ledger.pending == [] && !r.ledger.locked
                  && forall x :: Balance(r.ledger, x) == Balance(l, x) - Lookup(sel.batchAmounts, x) - Lookup(sel.integAmounts, x))
  {
    RunSettles(cfg, env, halt, lastFail, l);
  }

  /**
   * A start in resolve mode with pending payments whose recovery pass
   * completes leaves the backend clear, each address credited back its
   * pending total, and the settlement latch as it was.
   */
  lemma StartResolveClears(cfg: PayoutsConfig, env: Env, halt: bool, lastFail: Option<Failure>, l: Ledger)
    requires l.pending != [] && ResolvePass(env, l).failed.None?
    ensures var r := StartRun(Resolve, cfg, env, halt, lastFail, l);
            && r.halt == halt && r.lastFail == lastFail
            && r.ledger.pending == [] && !r.ledger.locked && r.ledger.payments == l.payments
            && forall a :: Balance(r.ledger, a) == Balance(l, a) + Credit(l.pending, a)
  {
    ResolveCompletes(env, l);
  }
}
