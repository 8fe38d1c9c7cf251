/**
 * The transaction processor ("System 2"): looks up the card, checks the PIN,
 * then withdraws or tops up. Every path through it saves exactly one ledger
 * record; only the addressed card's balance can change.
 */
module Processor {
  import opened Wrappers
  import opened Entities
  import opened PinHasher

  /** A decline: one DECLINED record is saved and the card store is left alone. */
  function Decline(s: State, req: Routed, message: string): (o: Outcome)
    ensures o.response == Refusal(message)
    ensures o.state.cards == s.cards
    ensures o.state.ledger == s.ledger + [DeclinedTxn(req.cardNumber, req.txType, req.amount, message)]
    ensures AppendsOne(s, o.state) && Conserves(s, o.state)
  {
    var t := DeclinedTxn(req.cardNumber, req.txType, req.amount, message);
    LogConserves(s, s.cards, t);
    Outcome(Refusal(message), Log(s, t))
  }

  /** `processWithdrawal`: declines unless the balance covers the amount. */
  function ProcessWithdrawal(s: State, req: Routed): (o: Outcome)
    requires req.cardNumber in s.cards && req.txType == "withdraw"
    ensures AppendsOne(s, o.state) && Conserves(s, o.state)
    ensures OthersUnchanged(s.cards, o.state.cards, req.cardNumber)
    ensures o.state.cards[req.cardNumber].pinHash == s.cards[req.cardNumber].pinHash
    ensures o.response.success <==> s.cards[req.cardNumber].balance >= req.amount
    ensures !o.response.success ==> o == Decline(s, req, "Insufficient balance")
    ensures o.response.success ==>
              && o.state.cards[req.cardNumber].balance == s.cards[req.cardNumber].balance - req.amount
              && o.state.cards[req.cardNumber].balance >= 0
              && LastTxn(o.state) == SuccessfulTxn(req, "Withdrawal successful", o.state.cards[req.cardNumber].balance)
              && o.response == Response(true, "Withdrawal successful",
                   Some(Receipt(req.cardNumber, "withdraw", req.amount, o.state.cards[req.cardNumber].balance)))
  {
    var card := s.cards[req.cardNumber];
    if card.balance < req.amount then
      Decline(s, req, "Insufficient balance")
    else
      var newBalance := card.balance - req.amount;
      var cards' := s.cards[req.cardNumber := card.(balance := newBalance)];
      var t := SuccessfulTxn(req, "Withdrawal successful", newBalance);
      var s' := Log(State(cards', s.ledger), t);
      LogConserves(s, cards', t);
      Outcome(
        Response(true, "Withdrawal successful", Some(Receipt(req.cardNumber, "withdraw", req.amount, newBalance))),
        s')
  }

  /** `processTopup`: always succeeds; the balance has no upper bound. */
  function ProcessTopup(s: State, req: Routed): (o: Outcome)
    requires req.cardNumber in s.cards && req.txType == "topup"
    ensures AppendsOne(s, o.state) && Conserves(s, o.state)
    ensures OthersUnchanged(s.cards, o.state.cards, req.cardNumber)
    ensures o.state.cards[req.cardNumber].pinHash == s.cards[req.cardNumber].pinHash
    ensures o.response.success
    ensures o.state.cards[req.cardNumber].balance == s.cards[req.cardNumber].balance + req.amount
    ensures LastTxn(o.state) == SuccessfulTxn(req, "Top-up successful", o.state.cards[req.cardNumber].balance)
    ensures o.response == Response(true, "Top-up successful",
              Some(Receipt(req.cardNumber, "topup", req.amount, o.state.cards[req.cardNumber].balance)))
  {
    var card := s.cards[req.cardNumber];
    var newBalance := card.balance + req.amount;
    var cards' := s.cards[req.cardNumber := card.(balance := newBalance)];
    var t := SuccessfulTxn(req, "Top-up successful", newBalance);
    var s' := Log(State(cards', s.ledger), t);
    LogConserves(s, cards', t);
    Outcome(
      Response(true, "Top-up successful", Some(Receipt(req.cardNumber, "topup", req.amount, newBalance))),
      s')
  }

  /** `processTransaction`: card lookup, PIN check, then dispatch on the type. */
  function ProcessTransaction(sha: Sha256, s: State, req: Routed): (o: Outcome)
    ensures AppendsOne(s, o.state) && Conserves(s, o.state)
    ensures OthersUnchanged(s.cards, o.state.cards, req.cardNumber)
    ensures forall c :: c in s.cards ==> o.state.cards[c].pinHash == s.cards[c].pinHash
    ensures LastTxn(o.state).cardNumber == req.cardNumber
    ensures LastTxn(o.state).amount == req.amount
    ensures LastTxn(o.state).txType == RecordedType(req.txType)
    ensures LastTxn(o.state).message == o.response.message
    ensures o.response.success <==> LastTxn(o.state).status == Success
    ensures LastTxn(o.state).status == Declined <==> LastTxn(o.state).balanceAfter.None?
    ensures !o.response.success ==> o.state.cards == s.cards && o.response.receipt.None?
    ensures o.response.success ==>
              && req.cardNumber in s.cards
              && VerifyPin(sha, req.pin, s.cards[req.cardNumber].pinHash)
              && LastTxn(o.state).balanceAfter == Some(o.state.cards[req.cardNumber].balance)
              && o.response.receipt ==
                   Some(Receipt(req.cardNumber, req.txType, req.amount, o.state.cards[req.cardNumber].balance))
  {
    if req.cardNumber !in s.cards then
      Decline(s, req, "Invalid card")
    else
      var card := s.cards[req.cardNumber];
      if !VerifyPin(sha, req.pin, card.pinHash) then
        Decline(s, req, "Invalid PIN")
      else if req.txType == "withdraw" then
        ProcessWithdrawal(s, req)
      else if req.txType == "topup" then
        ProcessTopup(s, req)
      else
        Decline(s, req, "Invalid transaction type")
  }

  /** An unknown card number, and only that, is declined with "Invalid card". */
  lemma UnknownCardDeclined(sha: Sha256, s: State, req: Routed)
    ensures req.cardNumber !in s.cards <==>
              ProcessTransaction(sha, s, req) == Decline(s, req, "Invalid card")
  {
  }

  /** A known card whose stored hash differs from the PIN's is declined with "Invalid PIN". */
  lemma WrongPinDeclined(sha: Sha256, s: State, req: Routed)
    requires req.cardNumber in s.cards
    ensures !VerifyPin(sha, req.pin, s.cards[req.cardNumber].pinHash) <==>
              ProcessTransaction(sha, s, req) == Decline(s, req, "Invalid PIN")
  {
  }

  /**
   * A withdrawal with the right PIN succeeds exactly when the balance covers
   * the amount (equal is enough); otherwise it is declined with
   * "Insufficient balance" and no balance moves.
   */
  lemma WithdrawalOutcome(sha: Sha256, s: State, req: Routed)
    requires req.cardNumber in s.cards && req.txType == "withdraw"
    requires VerifyPin(sha, req.pin, s.cards[req.cardNumber].pinHash)
    ensures var o := ProcessTransaction(sha, s, req);
            && (o.response.success <==> s.cards[req.cardNumber].balance >= req.amount)
            && (!o.response.success ==> o == Decline(s, req, "Insufficient balance"))
            && (o.response.success ==>
                  && o.state.cards[req.cardNumber] ==
                       s.cards[req.cardNumber].(balance := s.cards[req.cardNumber].balance - req.amount)
                  && o.state.cards[req.cardNumber].balance >= 0
                  && o.response == Response(true, "Withdrawal successful",
                       Some(Receipt(req.cardNumber, "withdraw", req.amount, o.state.cards[req.cardNumber].balance))))
  {
  }

  /** A top-up with the right PIN always succeeds, whatever the resulting balance. */
  lemma TopupOutcome(sha: Sha256, s: State, req: Routed)
    requires req.cardNumber in s.cards && req.txType == "topup"
    requires VerifyPin(sha, req.pin, s.cards[req.cardNumber].pinHash)
    ensures var o := ProcessTransaction(sha, s, req);
            && o.state.cards[req.cardNumber] ==
                 s.cards[req.cardNumber].(balance := s.cards[req.cardNumber].balance + req.amount)
            && o.response == Response(true, "Top-up successful",
                 Some(Receipt(req.cardNumber, "topup", req.amount, o.state.cards[req.cardNumber].balance)))
  {
  }

  /** Past the PIN check, a type that is neither "withdraw" nor "topup" is declined. */
  lemma UnknownTypeDeclined(sha: Sha256, s: State, req: Routed)
    requires req.cardNumber in s.cards
    requires VerifyPin(sha, req.pin, s.cards[req.cardNumber].pinHash)
    requires req.txType != "withdraw" && req.txType != "topup"
    ensures ProcessTransaction(sha, s, req) == Decline(s, req, "Invalid transaction type")
  {
  }

  /** With a non-negative amount the processor never drives a balance below zero. */
  lemma ProcessorKeepsNonNegative(sha: Sha256, s: State, req: Routed)
    requires NonNegative(s) && req.amount >= 0
    ensures NonNegative(ProcessTransaction(sha, s, req).state)
  {
  }
}
