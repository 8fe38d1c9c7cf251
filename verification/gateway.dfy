/**
 * The transaction gateway ("System 1"): validates the shape of a request,
 * stopping at the first failed check, then admits only card numbers that
 * start with '4'. Malformed requests leave no trace; a request outside the
 * supported card range is logged as declined without consulting the card
 * store; everything else goes to the processor unchanged.
 */
module Gateway {
  import opened Wrappers
  import opened Entities
  import opened PinHasher
  import Processor

  /** An ASCII decimal digit, the class `\d` matches. */
  function IsDigit(c: char): (ok: bool)
    ensures ok <==> c in "0123456789"
  {
    '0' <= c <= '9'
  }

  /** `isValidCardNumber`: non-null and exactly sixteen ASCII digits. */
  function IsValidCardNumber(cardNumber: Option<string>): (ok: bool)
    ensures ok <==> && cardNumber.Some? && |cardNumber.value| == 16
                    && forall c :: c in cardNumber.value ==> c in "0123456789"
  {
    && cardNumber.Some?
    && |cardNumber.value| == 16
    && forall i :: 0 <= i < |cardNumber.value| ==> IsDigit(cardNumber.value[i])
  }

  /** `isValidAmount`: non-null and strictly positive, so at least one cent. */
  function IsValidAmount(amount: Option<Cents>): (ok: bool)
    ensures ok <==> amount.Some? && amount.value >= 1
  {
    amount.Some? && amount.value > 0
  }

  /** `isValidTransactionType`: exactly "withdraw" or "topup", case included. */
  function IsValidTransactionType(txType: Option<string>): (ok: bool)
    ensures ok <==> txType.Some? && txType.value in {"withdraw", "topup"}
  {
    txType == Some("withdraw") || txType == Some("topup")
  }

  /** One validation step: whether it passed and what is reported if it did not. */
  datatype Check = Check(passed: bool, message: string)

  /** The gateway's validation steps, in the order it applies them. */
  function Checks(req: Request): seq<Check>
  {
    [ Check(IsValidCardNumber(req.cardNumber), "Invalid card number format"),
      Check(IsValidAmount(req.amount), "Invalid amount"),
      Check(IsValidTransactionType(req.txType), "Invalid transaction type") ]
  }

  /**
   * `r` reports the first failing step of `checks`: None exactly when every
   * step passes, otherwise the message of a failing step that only passing
   * steps precede.
   */
  ghost predicate ReportsFirstFailure(checks: seq<Check>, r: Option<string>)
  {
    && (r.None? <==> forall i :: 0 <= i < |checks| ==> checks[i].passed)
    && (r.Some? ==>
          exists i :: 0 <= i < |checks| && checks[i].message == r.value && !checks[i].passed
                      && forall j :: 0 <= j < i ==> checks[j].passed)
  }

  /** A passing first step does not change which failure is reported for the rest. */
  lemma PassingHeadKeepsReport(checks: seq<Check>, r: Option<string>)
    requires |checks| > 0 && checks[0].passed
    requires ReportsFirstFailure(checks[1..], r)
    ensures ReportsFirstFailure(checks, r)
  {
    if r.Some? {
      var i :| 0 <= i < |checks[1..]| && checks[1..][i].message == r.value && !checks[1..][i].passed
               && forall j :: 0 <= j < i ==> checks[1..][j].passed;
      assert checks[i + 1] == checks[1..][i];
      forall j | 0 < j < i + 1
        ensures checks[j].passed
      {
        assert checks[j] == checks[1..][j - 1];
      }
    } else {
      forall i | 0 < i < |checks|
        ensures checks[i].passed
      {
        assert checks[i] == checks[1..][i - 1];
      }
    }
  }

  /** The message of the first failing step, or None when every step passes. */
  function FirstFailure(checks: seq<Check>): (r: Option<string>)
    ensures ReportsFirstFailure(checks, r)
  {
    if |checks| == 0 then None
    else if !checks[0].passed then Some(checks[0].message)
    else
      var r := FirstFailure(checks[1..]);
      PassingHeadKeepsReport(checks, r);
      r
  }

  /**
   * The checks run in a fixed order: card number, then amount, then type;
   * the message reported is that of the first one that fails.
   */
  lemma {:induction false} ChecksInOrder(req: Request)
    ensures FirstFailure(Checks(req)) ==
              if !IsValidCardNumber(req.cardNumber) then Some("Invalid card number format")
              else if !IsValidAmount(req.amount) then Some("Invalid amount")
              else if !IsValidTransactionType(req.txType) then Some("Invalid transaction type")
              else None
  {
    var cs := Checks(req);
    assert cs[1..] == [cs[1], cs[2]];
    assert cs[1..][1..] == [cs[2]];
    assert cs[1..][1..][1..] == [];
  }

  /** Whether a request passes every validation step. */
  predicate WellFormed(req: Request)
  {
    IsValidCardNumber(req.cardNumber) && IsValidAmount(req.amount) && IsValidTransactionType(req.txType)
  }

  /** The request as the processor sees it: the same fields, known to be non-null. */
  function ToRouted(req: Request): Routed
    requires WellFormed(req)
  {
    Routed(req.cardNumber.value, req.pin, req.amount.value, req.txType.value)
  }

  /** The routing rule: only card numbers starting with '4' reach the processor. */
  function InSupportedRange(cardNumber: string): (ok: bool)
    ensures ok <==> "4" <= cardNumber
  {
    |cardNumber| > 0 && cardNumber[0] == '4'
  }

  /** `processTransaction` of the gateway. */
  function ProcessTransaction(sha: Sha256, s: State, req: Request): (o: Outcome)
    ensures WellFormed(req) <==> FirstFailure(Checks(req)).None?
    ensures !WellFormed(req) ==> o == Outcome(Refusal(FirstFailure(Checks(req)).value), s)
    ensures WellFormed(req) ==> AppendsOne(s, o.state) && Conserves(s, o.state)
    ensures WellFormed(req) ==>
              && LastTxn(o.state).cardNumber == req.cardNumber.value
              && LastTxn(o.state).amount == req.amount.value
              && LastTxn(o.state).txType == RecordedType(req.txType.value)
              && LastTxn(o.state).message == o.response.message
    ensures WellFormed(req) ==> (o.response.success <==> LastTxn(o.state).status == Success)
    ensures o.state.cards.Keys == s.cards.Keys
    ensures forall c :: c in s.cards ==> o.state.cards[c].pinHash == s.cards[c].pinHash
    ensures !o.response.success ==> o.state.cards == s.cards
    ensures o.response.success ==>
              && WellFormed(req)
              && InSupportedRange(req.cardNumber.value)
              && req.cardNumber.value in s.cards
              && VerifyPin(sha, req.pin, s.cards[req.cardNumber.value].pinHash)
              && LastTxn(o.state).balanceAfter == Some(o.state.cards[req.cardNumber.value].balance)
  {
    ChecksInOrder(req);
    if !IsValidCardNumber(req.cardNumber) then
      Outcome(Refusal("Invalid card number format"), s)
    else if !IsValidAmount(req.amount) then
      Outcome(Refusal("Invalid amount"), s)
    else if !IsValidTransactionType(req.txType) then
      Outcome(Refusal("Invalid transaction type"), s)
    else if !InSupportedRange(req.cardNumber.value) then
      var t := DeclinedTxn(req.cardNumber.value, req.txType.value, req.amount.value, "Card range not supported");
      LogConserves(s, s.cards, t);
      Outcome(Refusal("Card range not supported"), Log(s, t))
    else
      Processor.ProcessTransaction(sha, s, ToRouted(req))
  }

  /** A null or malformed card number is refused first, whatever the other fields hold. */
  lemma InvalidCardNumberRefused(sha: Sha256, s: State, req: Request)
    requires !IsValidCardNumber(req.cardNumber)
    ensures ProcessTransaction(sha, s, req) == Outcome(Refusal("Invalid card number format"), s)
  {
  }

  /** With a valid card number, a null or non-positive amount is refused, unlogged. */
  lemma InvalidAmountRefused(sha: Sha256, s: State, req: Request)
    requires IsValidCardNumber(req.cardNumber) && !IsValidAmount(req.amount)
    ensures ProcessTransaction(sha, s, req) == Outcome(Refusal("Invalid amount"), s)
  {
  }

  /** With card number and amount valid, any other type string is refused, unlogged. */
  lemma InvalidTypeRefused(sha: Sha256, s: State, req: Request)
    requires IsValidCardNumber(req.cardNumber) && IsValidAmount(req.amount)
    requires !IsValidTransactionType(req.txType)
    ensures ProcessTransaction(sha, s, req) == Outcome(Refusal("Invalid transaction type"), s)
  {
  }

  /**
   * A well-formed request outside the '4' range is declined and logged once,
   * the record taking its number, amount and type from the request.
   */
  lemma UnsupportedRangeDeclined(sha: Sha256, s: State, req: Request)
    requires WellFormed(req) && !InSupportedRange(req.cardNumber.value)
    ensures var o := ProcessTransaction(sha, s, req);
            && o.response == Refusal("Card range not supported")
            && o.state.cards == s.cards
            && o.state.ledger == s.ledger + [DeclinedTxn(req.cardNumber.value, req.txType.value,
                                                         req.amount.value, "Card range not supported")]
  {
  }

  /**
   * The range decline neither reads the card store nor hashes the PIN: the
   * outcome is the same whatever cards are stored and whatever the digest is,
   * even when a card with that number exists.
   */
  lemma RangeDeclineIgnoresStoreAndPin(sha1: Sha256, sha2: Sha256, s1: State, s2: State, req: Request)
    requires WellFormed(req) && !InSupportedRange(req.cardNumber.value)
    requires s1.ledger == s2.ledger
    ensures ProcessTransaction(sha1, s1, req).response == ProcessTransaction(sha2, s2, req).response
    ensures ProcessTransaction(sha1, s1, req).state.ledger == ProcessTransaction(sha2, s2, req).state.ledger
    ensures ProcessTransaction(sha1, s1, req).state.cards == s1.cards
  {
  }

  /** A well-formed request in the '4' range gets exactly the processor's outcome. */
  lemma SupportedRangeRouted(sha: Sha256, s: State, req: Request)
    requires WellFormed(req) && InSupportedRange(req.cardNumber.value)
    ensures ProcessTransaction(sha, s, req) == Processor.ProcessTransaction(sha, s, ToRouted(req))
  {
  }

  /** The gateway only ever admits positive amounts, so balances stay non-negative. */
  lemma GatewayKeepsNonNegative(sha: Sha256, s: State, req: Request)
    requires NonNegative(s)
    ensures NonNegative(ProcessTransaction(sha, s, req).state)
  {
    if WellFormed(req) && InSupportedRange(req.cardNumber.value) {
      Processor.ProcessorKeepsNonNegative(sha, s, ToRouted(req));
    }
  }
}
