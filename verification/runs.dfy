/**
 * Requests handled one after another through the gateway, each seeing the
 * store and ledger the previous one left behind, and what holds of the
 * whole history: the ledger only grows, by one record per well-formed
 * request; each balance equals its starting value plus what the new SUCCESS
 * records stand for; and no balance ever goes negative.
 */
module Runs {
  import opened Wrappers
  import opened Entities
  import opened PinHasher
  import Gateway
  import Processor

  /** The state after the gateway has handled `reqs` in order. */
  function Run(sha: Sha256, s: State, reqs: seq<Request>): State
    decreases |reqs|
  {
    if |reqs| == 0 then s
    else Run(sha, Gateway.ProcessTransaction(sha, s, reqs[0]).state, reqs[1..])
  }

  /** How many of `reqs` pass the gateway's validation. */
  function CountWellFormed(reqs: seq<Request>): nat
  {
    if |reqs| == 0 then 0
    else (if Gateway.WellFormed(reqs[0]) then 1 else 0) + CountWellFormed(reqs[1..])
  }

  /**
   * The ledger is append-only and grows by exactly one record per request
   * that passes validation; malformed requests leave no record. No card is
   * ever added or removed.
   */
  lemma {:induction false} RunLedgerGrowth(sha: Sha256, s: State, reqs: seq<Request>)
    ensures |Run(sha, s, reqs).ledger| == |s.ledger| + CountWellFormed(reqs)
    ensures Run(sha, s, reqs).ledger[..|s.ledger|] == s.ledger
    ensures Run(sha, s, reqs).cards.Keys == s.cards.Keys
    decreases |reqs|
  {
    if |reqs| > 0 {
      var s1 := Gateway.ProcessTransaction(sha, s, reqs[0]).state;
      RunLedgerGrowth(sha, s1, reqs[1..]);
      var fin := Run(sha, s, reqs).ledger;
      assert fin[..|s1.ledger|] == s1.ledger;
      assert s1.ledger[..|s.ledger|] == s.ledger;
      assert fin[..|s.ledger|] == fin[..|s1.ledger|][..|s.ledger|];
    }
  }

  /**
   * Balance conservation: after any run, each card's balance is its initial
   * balance plus the top-ups minus the withdrawals of the SUCCESS records
   * the run appended for it.
   */
  lemma {:induction false} RunConserves(sha: Sha256, s: State, reqs: seq<Request>)
    ensures |s.ledger| <= |Run(sha, s, reqs).ledger|
    ensures Conserves(s, Run(sha, s, reqs))
    decreases |reqs|
  {
    RunLedgerGrowth(sha, s, reqs);
    if |reqs| == 0 {
      assert s.ledger[|s.ledger|..] == [];
    } else {
      var s1 := Gateway.ProcessTransaction(sha, s, reqs[0]).state;
      if !Gateway.WellFormed(reqs[0]) {
        assert s1.ledger[|s.ledger|..] == [];
      }
      assert Conserves(s, s1);
      RunConserves(sha, s1, reqs[1..]);
      RunLedgerGrowth(sha, s1, reqs[1..]);
      var fin := Run(sha, s, reqs);
      var head, tail := s1.ledger[|s.ledger|..], fin.ledger[|s1.ledger|..];
      assert fin.ledger[|s.ledger|..] == head + tail by {
        assert fin.ledger[..|s1.ledger|] == s1.ledger;
      }
      forall c | c in s.cards
        ensures fin.cards[c].balance == s.cards[c].balance + NetFlow(fin.ledger[|s.ledger|..], c)
      {
        NetFlowConcat(head, tail, c);
      }
    }
  }

  /** Balances never become negative, however many requests are handled. */
  lemma {:induction false} RunKeepsNonNegative(sha: Sha256, s: State, reqs: seq<Request>)
    requires NonNegative(s)
    ensures NonNegative(Run(sha, s, reqs))
    decreases |reqs|
  {
    if |reqs| > 0 {
      Gateway.GatewayKeepsNonNegative(sha, s, reqs[0]);
      RunKeepsNonNegative(sha, Gateway.ProcessTransaction(sha, s, reqs[0]).state, reqs[1..]);
    }
  }

  /**
   * The ledger never records more money leaving a card than it held: the
   * starting balance plus the net of the new SUCCESS records is never negative.
   */
  lemma LedgerNeverOverdraws(sha: Sha256, s: State, reqs: seq<Request>, c: string)
    requires NonNegative(s) && c in s.cards
    ensures |s.ledger| <= |Run(sha, s, reqs).ledger|
    ensures s.cards[c].balance + NetFlow(Run(sha, s, reqs).ledger[|s.ledger|..], c) >= 0
  {
    RunConserves(sha, s, reqs);
    RunKeepsNonNegative(sha, s, reqs);
  }

  /**
   * Declines are not deduplicated: the same wrong-PIN request sent `n` times
   * leaves `n` identical DECLINED records and every balance as it was.
   */
  lemma {:induction false} RepeatedInvalidPin(sha: Sha256, s: State, req: Request, n: nat)
    requires Gateway.WellFormed(req) && Gateway.InSupportedRange(req.cardNumber.value)
    requires req.cardNumber.value in s.cards
    requires !VerifyPin(sha, req.pin, s.cards[req.cardNumber.value].pinHash)
    ensures Run(sha, s, seq(n, _ => req)) ==
              s.(ledger := s.ledger + seq(n, _ => DeclinedTxn(req.cardNumber.value, req.txType.value,
                                                              req.amount.value, "Invalid PIN")))
    decreases n
  {
    var t := DeclinedTxn(req.cardNumber.value, req.txType.value, req.amount.value, "Invalid PIN");
    if n == 0 {
      assert s.ledger + seq(0, _ => t) == s.ledger;
    } else {
      var s1 := Gateway.ProcessTransaction(sha, s, req).state;
      assert s1 == s.(ledger := s.ledger + [t]);
      assert seq(n, _ => req)[1..] == seq(n - 1, _ => req);
      RepeatedInvalidPin(sha, s1, req, n - 1);
      assert s1.ledger + seq(n - 1, _ => t) == s.ledger + seq(n, _ => t);
    }
  }

  /** The most recent SUCCESS record for card `c`, if the ledger has one. */
  function LatestSuccess(ledger: seq<Txn>, c: string): (r: Option<Txn>)
    ensures r.Some? ==> r.value in ledger && r.value.status == Success && r.value.cardNumber == c
    decreases |ledger|
  {
    if |ledger| == 0 then None
    else
      var last := ledger[|ledger| - 1];
      if last.status == Success && last.cardNumber == c then Some(last)
      else LatestSuccess(ledger[..|ledger| - 1], c)
  }

  /**
   * The audit trail agrees with the store: for every card, the newest
   * SUCCESS record's balanceAfter is the card's current balance.
   */
  predicate BalancesRecorded(s: State)
  {
    forall c :: c in s.cards && LatestSuccess(s.ledger, c).Some? ==>
      LatestSuccess(s.ledger, c).value.balanceAfter == Some(s.cards[c].balance)
  }

  /** One request through the gateway keeps the audit trail in step with the store. */
  lemma StepKeepsBalancesRecorded(sha: Sha256, s: State, req: Request)
    requires BalancesRecorded(s)
    ensures BalancesRecorded(Gateway.ProcessTransaction(sha, s, req).state)
  {
    var o := Gateway.ProcessTransaction(sha, s, req);
    if Gateway.WellFormed(req) {
      var t := LastTxn(o.state);
      assert o.state.ledger == s.ledger + [t] by {
        assert o.state.ledger == o.state.ledger[..|s.ledger|] + [t];
      }
      assert o.state.ledger[..|o.state.ledger| - 1] == s.ledger;
      forall c | c in o.state.cards && LatestSuccess(o.state.ledger, c).Some?
        ensures LatestSuccess(o.state.ledger, c).value.balanceAfter == Some(o.state.cards[c].balance)
      {
        if !(t.status == Success && t.cardNumber == c) {
          assert LatestSuccess(o.state.ledger, c) == LatestSuccess(s.ledger, c);
          if o.response.success {
            assert c != req.cardNumber.value;
          }
        }
      }
    }
  }

  /** Over any run, the newest SUCCESS record of each card carries its current balance. */
  lemma {:induction false} RunKeepsBalancesRecorded(sha: Sha256, s: State, reqs: seq<Request>)
    requires BalancesRecorded(s)
    ensures BalancesRecorded(Run(sha, s, reqs))
    decreases |reqs|
  {
    if |reqs| > 0 {
      StepKeepsBalancesRecorded(sha, s, reqs[0]);
      RunKeepsBalancesRecorded(sha, Gateway.ProcessTransaction(sha, s, reqs[0]).state, reqs[1..]);
    }
  }

  const DemoCard: string := "4000123456789012"

  /** The demo card number is well formed and in the supported range. */
  lemma DemoCardAccepted()
    ensures Gateway.IsValidCardNumber(Some(DemoCard)) && Gateway.InSupportedRange(DemoCard)
  {
  }

  function WithdrawalRequest(cardNumber: string, pin: string, amount: Cents): Request
  {
    Request(Some(cardNumber), pin, Some(amount), Some("withdraw"))
  }

  function TopupRequest(cardNumber: string, pin: string, amount: Cents): Request
  {
    Request(Some(cardNumber), pin, Some(amount), Some("topup"))
  }

  /** A well-formed withdrawal request in range reaches the processor as it was sent. */
  lemma WithdrawalRouted(sha: Sha256, s: State, c: string, pin: string, amount: Cents)
    requires Gateway.IsValidCardNumber(Some(c)) && Gateway.InSupportedRange(c) && amount > 0
    ensures Gateway.ProcessTransaction(sha, s, WithdrawalRequest(c, pin, amount)) ==
              Processor.ProcessTransaction(sha, s, Routed(c, pin, amount, "withdraw"))
  {
    Gateway.SupportedRangeRouted(sha, s, WithdrawalRequest(c, pin, amount));
  }

  /** A well-formed top-up request in range reaches the processor as it was sent. */
  lemma TopupRouted(sha: Sha256, s: State, c: string, pin: string, amount: Cents)
    requires Gateway.IsValidCardNumber(Some(c)) && Gateway.InSupportedRange(c) && amount > 0
    ensures Gateway.ProcessTransaction(sha, s, TopupRequest(c, pin, amount)) ==
              Processor.ProcessTransaction(sha, s, Routed(c, pin, amount, "topup"))
  {
    Gateway.SupportedRangeRouted(sha, s, TopupRequest(c, pin, amount));
  }

  /**
   * Card 4000123456789012 with PIN 1234 and balance 1000.00: withdrawing
   * 200.00 leaves 800.00, topping up 50.00 gives 850.00, and withdrawing
   * 900.00 is declined with the balance left at 850.00.
   */
  lemma WithdrawTopupOverdrawScenario(sha: Sha256, s: State)
    requires DemoCard in s.cards && s.cards[DemoCard] == Card(HashPin(sha, "1234"), 100000)
    ensures var o1 := Gateway.ProcessTransaction(sha, s, WithdrawalRequest(DemoCard, "1234", 20000));
            var o2 := Gateway.ProcessTransaction(sha, o1.state, TopupRequest(DemoCard, "1234", 5000));
            var o3 := Gateway.ProcessTransaction(sha, o2.state, WithdrawalRequest(DemoCard, "1234", 90000));
            && o1.response == Response(true, "Withdrawal successful", Some(Receipt(DemoCard, "withdraw", 20000, 80000)))
            && o2.response == Response(true, "Top-up successful", Some(Receipt(DemoCard, "topup", 5000, 85000)))
            && o3.response == Refusal("Insufficient balance")
            && o3.state.cards[DemoCard].balance == 85000
            && |o3.state.ledger| == |s.ledger| + 3
  {
    VerifyOwnHash(sha, "1234");
    DemoCardAccepted();
    WithdrawalRouted(sha, s, DemoCard, "1234", 20000);
    Processor.WithdrawalOutcome(sha, s, Routed(DemoCard, "1234", 20000, "withdraw"));
    var o1 := Gateway.ProcessTransaction(sha, s, WithdrawalRequest(DemoCard, "1234", 20000));
    TopupRouted(sha, o1.state, DemoCard, "1234", 5000);
    Processor.TopupOutcome(sha, o1.state, Routed(DemoCard, "1234", 5000, "topup"));
    var o2 := Gateway.ProcessTransaction(sha, o1.state, TopupRequest(DemoCard, "1234", 5000));
    WithdrawalRouted(sha, o2.state, DemoCard, "1234", 90000);
    Processor.WithdrawalOutcome(sha, o2.state, Routed(DemoCard, "1234", 90000, "withdraw"));
  }

  /**
   * A withdrawal on card 5000123456789012 is declined as out of range and
   * leaves one DECLINED record, whatever PIN, amount or stored cards.
   */
  lemma OutOfRangeScenario(sha: Sha256, s: State, pin: string, amount: Cents)
    requires amount > 0
    ensures var o := Gateway.ProcessTransaction(sha, s, WithdrawalRequest("5000123456789012", pin, amount));
            && o.response == Refusal("Card range not supported")
            && o.state.cards == s.cards
            && |o.state.ledger| == |s.ledger| + 1
            && LastTxn(o.state).status == Declined
  {
  }

  /**
   * A wrong PIN on card 4000123456789013 is declined with "Invalid PIN",
   * leaving the balance as it was and one record in the ledger.
   */
  lemma WrongPinScenario(sha: Sha256, s: State, amount: Cents)
    requires "4000123456789013" in s.cards && amount > 0
    requires HashPin(sha, "0000") != s.cards["4000123456789013"].pinHash
    ensures var o := Gateway.ProcessTransaction(sha, s, WithdrawalRequest("4000123456789013", "0000", amount));
            && o.response == Refusal("Invalid PIN")
            && o.state.cards == s.cards
            && |o.state.ledger| == |s.ledger| + 1
  {
    var c := "4000123456789013";
    assert Gateway.IsValidCardNumber(Some(c)) && Gateway.InSupportedRange(c);
    WithdrawalRouted(sha, s, c, "0000", amount);
    Processor.WrongPinDeclined(sha, s, Routed(c, "0000", amount, "withdraw"));
  }

  /**
   * Two withdrawals of 600.00 against a balance of 1000.00, handled one
   * after the other: the first succeeds, the second is declined, and the
   * balance ends at 400.00. Handled in turn, they never both succeed.
   */
  lemma TwoWithdrawalsScenario(sha: Sha256, s: State)
    requires DemoCard in s.cards && s.cards[DemoCard] == Card(HashPin(sha, "1234"), 100000)
    ensures var o1 := Gateway.ProcessTransaction(sha, s, WithdrawalRequest(DemoCard, "1234", 60000));
            var o2 := Gateway.ProcessTransaction(sha, o1.state, WithdrawalRequest(DemoCard, "1234", 60000));
            && o1.response.success
            && o2.response == Refusal("Insufficient balance")
            && o2.state.cards[DemoCard].balance == 40000
  {
    VerifyOwnHash(sha, "1234");
    DemoCardAccepted();
    WithdrawalRouted(sha, s, DemoCard, "1234", 60000);
    Processor.WithdrawalOutcome(sha, s, Routed(DemoCard, "1234", 60000, "withdraw"));
    var o1 := Gateway.ProcessTransaction(sha, s, WithdrawalRequest(DemoCard, "1234", 60000));
    WithdrawalRouted(sha, o1.state, DemoCard, "1234", 60000);
    Processor.WithdrawalOutcome(sha, o1.state, Routed(DemoCard, "1234", 60000, "withdraw"));
  }
}
