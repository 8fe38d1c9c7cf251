/**
 * The entities the transaction core works on: cards, ledger records,
 * requests, responses, and the abstract store they live in.
 *
 * Money is a whole number of cents. Balances are decimal columns of scale 2,
 * and the core only adds, subtracts and compares them, so cents are exact.
 */
module Entities {
  import opened Wrappers

  /** An amount of money in cents. */
  type Cents = int

  datatype TxType = Withdraw | Topup

  datatype TxStatus = Success | Declined

  /** A card in the store; its card number is the key it is stored under. */
  datatype Card = Card(pinHash: string, balance: Cents)

  /** A ledger record. `balanceAfter` is null on a declined record. */
  datatype Txn = Txn(
    cardNumber: string,
    txType: TxType,
    amount: Cents,
    status: TxStatus,
    message: string,
    balanceAfter: Option<Cents>)

  /** A request as the gateway receives it: its card number, amount and type may be null; the PIN is a non-null string. */
  datatype Request = Request(
    cardNumber: Option<string>,
    pin: string,
    amount: Option<Cents>,
    txType: Option<string>)

  /** A request the gateway has validated and hands to the processor. */
  datatype Routed = Routed(cardNumber: string, pin: string, amount: Cents, txType: string)

  /** The part of a response that only successful transactions fill in. */
  datatype Receipt = Receipt(cardNumber: string, transactionType: string, amount: Cents, balanceAfter: Cents)

  datatype Response = Response(success: bool, message: string, receipt: Option<Receipt>)

  /** The card store and the ledger. */
  datatype State = State(cards: map<string, Card>, ledger: seq<Txn>)

  /** What one processing attempt produces: the response and the new state. */
  datatype Outcome = Outcome(response: Response, state: State)

  /** A response carrying only a failure message. */
  function Refusal(message: string): Response
  {
    Response(false, message, None)
  }

  /** How a request's type string is recorded: anything but "withdraw" is TOPUP. */
  function RecordedType(txType: string): (r: TxType)
    ensures r == Withdraw <==> txType == "withdraw"
  {
    if txType == "withdraw" then Withdraw else Topup
  }

  /**
   * The record `createDeclinedTransaction` builds: it copies the request's
   * fields, carries no balance, and stands for no change to any card.
   */
  function DeclinedTxn(cardNumber: string, txType: string, amount: Cents, message: string): (t: Txn)
    ensures t.cardNumber == cardNumber && t.amount == amount && t.message == message
    ensures t.txType == Withdraw <==> txType == "withdraw"
    ensures t.status == Declined && t.balanceAfter.None?
    ensures forall c :: Flow(t, c) == 0
  {
    Txn(cardNumber, RecordedType(txType), amount, Declined, message, None)
  }

  /**
   * The record `createSuccessfulTransaction` builds, once its balance is set:
   * it stands for exactly the withdrawal or top-up of the amount on the
   * request's card, and for nothing on any other card.
   */
  function SuccessfulTxn(req: Routed, message: string, newBalance: Cents): (t: Txn)
    ensures t.cardNumber == req.cardNumber && t.amount == req.amount && t.message == message
    ensures t.status == Success && t.balanceAfter == Some(newBalance)
    ensures Flow(t, req.cardNumber) == if req.txType == "withdraw" then -req.amount else req.amount
    ensures forall c :: c != req.cardNumber ==> Flow(t, c) == 0
  {
    Txn(req.cardNumber, RecordedType(req.txType), req.amount, Success, message, Some(newBalance))
  }

  /** Saving a record appends it to the ledger. */
  function Log(s: State, t: Txn): State
  {
    s.(ledger := s.ledger + [t])
  }

  /** The change a ledger record stands for on card `c`'s balance. */
  function Flow(t: Txn, c: string): int
  {
    if t.status == Success && t.cardNumber == c then
      (if t.txType == Topup then t.amount else -t.amount)
    else 0
  }

  /** The net change the records of `ledger` stand for on card `c`. */
  function NetFlow(ledger: seq<Txn>, c: string): int
  {
    if |ledger| == 0 then 0 else Flow(ledger[0], c) + NetFlow(ledger[1..], c)
  }

  lemma {:induction false} NetFlowConcat(a: seq<Txn>, b: seq<Txn>, c: string)
    ensures NetFlow(a + b, c) == NetFlow(a, c) + NetFlow(b, c)
    decreases |a|
  {
    if |a| == 0 {
      assert a + b == b;
    } else {
      assert (a + b)[1..] == a[1..] + b;
      NetFlowConcat(a[1..], b, c);
    }
  }

  /** Saving `t` alongside a store whose balances moved by what `t` stands for conserves. */
  lemma LogConserves(s: State, cards': map<string, Card>, t: Txn)
    requires cards'.Keys == s.cards.Keys
    requires forall c :: c in s.cards ==> cards'[c].balance == s.cards[c].balance + Flow(t, c)
    ensures |Log(State(cards', s.ledger), t).ledger| == |s.ledger| + 1
    ensures Conserves(s, Log(State(cards', s.ledger), t))
  {
    var s' := Log(State(cards', s.ledger), t);
    assert s'.ledger[|s.ledger|..] == [t];
    forall c | c in s.cards
      ensures NetFlow([t], c) == Flow(t, c)
    {
      assert [t][1..] == [];
    }
  }

  /** No card in the store has a negative balance. */
  predicate NonNegative(s: State)
  {
    forall c :: c in s.cards ==> s.cards[c].balance >= 0
  }

  /** `s'` holds exactly one more ledger record than `s`, after the old ones. */
  predicate AppendsOne(s: State, s': State)
  {
    |s'.ledger| == |s.ledger| + 1 && s'.ledger[..|s.ledger|] == s.ledger
  }

  /** The record most recently appended. */
  function LastTxn(s: State): Txn
    requires |s.ledger| > 0
  {
    s.ledger[|s.ledger| - 1]
  }

  /** Every card other than `c` is as it was, and no card was added or removed. */
  predicate OthersUnchanged(cards: map<string, Card>, cards': map<string, Card>, c: string)
  {
    && cards'.Keys == cards.Keys
    && forall k :: k in cards && k != c ==> cards'[k] == cards[k]
  }

  /** Each card's balance moved by exactly what the records from `s` to `s'` stand for. */
  predicate Conserves(s: State, s': State)
    requires |s.ledger| <= |s'.ledger|
  {
    && s'.cards.Keys == s.cards.Keys
    && forall c :: c in s.cards ==>
         s'.cards[c].balance == s.cards[c].balance + NetFlow(s'.ledger[|s.ledger|..], c)
  }
}
