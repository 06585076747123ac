/** The rows the duplicate engine works on. */
module Entities {
  import opened Common

  /** Row identifiers. The source uses fixed-length text ids; only their equality and order matter. */
  type Id = nat

  /** Dates are day numbers; time stamps count microseconds. */
  const DAY := 86_400_000_000

  datatype Label = Expense | Income | Ignored | SelfTransfer

  datatype Transaction = Transaction(
    id: Id, emailId: Option<Id>, tag: Label, amount: Option<real>, merchant: Option<string>,
    txnDate: Option<int>, createdAt: Option<int>)

  datatype Email = Email(
    id: Id, userId: Id, senderDomain: Option<string>, receivedAt: Option<int>, subject: string,
    bodyDates: seq<int>, referenceIds: seq<string>)

  /** A transaction with its email. */
  datatype Entry = Entry(tx: Transaction, email: Email)

  /** A learned rule for an unordered pair of sender domains. */
  datatype Rule = Rule(confirmed: nat, dismissed: nat, confidence: real, autoResolve: bool)

  type DomainPair = set<string>

  /** A rule belongs to one user, or to everybody. */
  datatype RuleKey = RuleKey(owner: Option<Id>, domains: DomainPair)
  type Rules = map<RuleKey, Rule>

  datatype Source =
    | SameDomainExact | MerchantAlias | DomainPairRule | InvestmentFlow | AmountDate
    | ReferenceIdMatch | BodyDateAnchor | BodyDateMerchant | Unknown

  datatype Status = Pending | AutoResolved | Confirmed | Dismissed

  /** What a duplicate pair says about two transactions. */
  datatype Link = Link(primary: Id, duplicate: Id, status: Status, confidence: real, source: Source)

  datatype Pair = Pair(link: Link, resolvedAt: Option<int>)

  /** The tables. Corrections name the transaction they correct; `nextPair` stands for a fresh row id. */
  datatype Store = Store(
    txs: map<Id, Transaction>, emails: map<Id, Email>, rules: Rules, pairs: map<Id, Pair>,
    corrections: map<Id, Id>, nextPair: Id)
  {
    function EmailOf(tx: Transaction): Option<Email> {
      if tx.emailId.Some? && tx.emailId.value in emails then Some(emails[tx.emailId.value]) else None
    }

    /** Rows sit under their own ids, and row ids are taken from below `nextPair`. */
    ghost predicate Keyed() {
      && (forall t :: t in txs ==> txs[t].id == t)
      && (forall p :: p in pairs ==> p < nextPair)
    }
  }

  /** The two transactions a link is about, whichever way round. */
  function Ends(link: Link): set<Id> {
    {link.primary, link.duplicate}
  }

  /** The text tests the engine relies on; their keyword lists and patterns are not part of this model. */
  datatype Text = Text(
    lower: string -> string,
    words: string -> seq<string>,           // a merchant name without noise words
    canonical: string -> Option<string>,    // the merchant a known alias domain belongs to
    isOrder: string -> bool,                // the subject announces an investment order
    isConfirm: string -> bool)              // the subject confirms one
}
