/** The transaction store: the in-memory list of transactions that the add
    form appends to, and the transaction file it is saved to after every
    addition. The file is modelled by its contents only: which records it
    holds, or that it does not exist yet. */
module Store {
  import opened Wrappers
  import opened Dates
  import opened Ledger

  /** The transactions found by loading a file: its records, or none at all
      when the file does not exist. */
  function Loaded(file: Option<seq<Transaction>>): seq<Transaction> {
    file.GetOr([])
  }

  /** What the add form reports: a success message or a validation error. */
  datatype AddOutcome = Added | Rejected

  /** The add form's check: a positive amount and a non-empty description. */
  predicate AcceptsInput(amount: real, description: string) {
    amount > 0.0 && |description| > 0
  }

  class TransactionStore {
    /** The transactions in the order they were added. */
    var transactions: seq<Transaction>
    /** The contents of the transaction file; None while it does not exist. */
    var file: Option<seq<Transaction>>

    /** Reloading the file would give back exactly the in-memory list. */
    ghost predicate Valid()
      reads this
    {
      transactions == Loaded(file)
    }

    /** Startup: read the file if it exists, otherwise start empty. */
    constructor Load(stored: Option<seq<Transaction>>)
      ensures Valid()
      ensures file == stored
      ensures stored.None? ==> transactions == []
      ensures stored.Some? ==> transactions == stored.value
    {
      file := stored;
      transactions := Loaded(stored);
    }

    /** Overwrite the file with the whole in-memory list. */
    method Save()
      modifies this`file
      ensures file == Some(transactions)
      ensures Valid()
    {
      file := Some(transactions);
    }

    /** The add form's button: a valid record is appended and the file
        rewritten; an invalid one changes nothing and is reported. */
    method Add(date: Date, amount: real, category: Category, description: string)
      returns (outcome: AddOutcome)
      requires Valid()
      modifies this
      ensures Valid()
      ensures outcome == Added <==> AcceptsInput(amount, description)
      ensures outcome == Added ==>
        && transactions == old(transactions) + [Transaction(date, amount, category, description)]
        && file == Some(transactions)
      ensures outcome == Rejected ==> transactions == old(transactions) && file == old(file)
    {
      if AcceptsInput(amount, description) {
        transactions := transactions + [Transaction(date, amount, category, description)];
        Save();
        outcome := Added;
      } else {
        outcome := Rejected;
      }
    }
  }
}
