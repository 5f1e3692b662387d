/** The validated account entity. */
module AccountsImpl {
  import opened Base
  import opened JavaLib
  import opened AccountTypes
  import opened AccountMethods

  /** The fixed account limit the constructor checks the balance against. */
  const ACCOUNT_LIMIT: int := 10000

  /** The two exceptions the constructor declares. */
  datatype AccountError = AccountNumberError | AccountBalanceError

  class Account {
    var accountNumber: string
    var accountType: AccountType
    var accountCustomerId: int
    var accountOpenDate: Date
    var accountBalance: int

    /** What the validating constructor establishes; the setters do not keep it. */
    predicate Valid()
      reads this
    {
      ValidAccountNumber(accountNumber) && ValidAccountBalance(ACCOUNT_LIMIT, accountBalance)
    }

    /** Field assignment only; `Create` is the validating constructor. */
    constructor Init(number: string, t: AccountType, customerId: int, openDate: Date, balance: int)
      ensures accountNumber == number && accountType == t && accountCustomerId == customerId
      ensures accountOpenDate == openDate && accountBalance == balance
    {
      accountNumber, accountType, accountCustomerId := number, t, customerId;
      accountOpenDate, accountBalance := openDate, balance;
    }

    /**
     * `new AccountsImpl(...)`: the number is checked first (AccountNumberException),
     * then the balance against ACCOUNT_LIMIT (AccountBalanceException).
     */
    static method Create(number: string, t: AccountType, customerId: int, openDate: Date, balance: int)
      returns (r: Result<Account, AccountError>)
      ensures r.Success? <==> ValidAccountNumber(number) && balance <= ACCOUNT_LIMIT
      ensures !ValidAccountNumber(number) ==> r == Failure(AccountNumberError)
      ensures ValidAccountNumber(number) && balance > ACCOUNT_LIMIT ==> r == Failure(AccountBalanceError)
      ensures r.Success? ==> fresh(r.value) && r.value.Valid()
      ensures r.Success? ==> (r.value.accountNumber == number && r.value.accountType == t
        && r.value.accountCustomerId == customerId && r.value.accountOpenDate == openDate
        && r.value.accountBalance == balance)
    {
      if !ValidAccountNumber(number) {
        return Failure(AccountNumberError);
      }
      if !ValidAccountBalance(ACCOUNT_LIMIT, balance) {
        return Failure(AccountBalanceError);
      }
      var a := new Account.Init(number, t, customerId, openDate, balance);
      return Success(a);
    }

    /** `getAccountLimit()`: always the fixed limit, whatever the account. */
    function GetAccountLimit(): (limit: int)
      ensures limit == 10000
    {
      ACCOUNT_LIMIT
    }

    /** `toString()`: the account number. */
    function ToString(): (s: string)
      reads this
      ensures s == accountNumber
    {
      accountNumber
    }

    method SetAccountNumber(number: string)
      modifies this
      ensures accountNumber == number
      ensures accountType == old(accountType) && accountCustomerId == old(accountCustomerId)
      ensures accountOpenDate == old(accountOpenDate) && accountBalance == old(accountBalance)
    {
      accountNumber := number;
    }

    method SetAccountType(t: AccountType)
      modifies this
      ensures accountType == t
      ensures accountNumber == old(accountNumber) && accountCustomerId == old(accountCustomerId)
      ensures accountOpenDate == old(accountOpenDate) && accountBalance == old(accountBalance)
    {
      accountType := t;
    }

    method SetAccountCustomerId(customerId: int)
      modifies this
      ensures accountCustomerId == customerId
      ensures accountNumber == old(accountNumber) && accountType == old(accountType)
      ensures accountOpenDate == old(accountOpenDate) && accountBalance == old(accountBalance)
    {
      accountCustomerId := customerId;
    }

    method SetAccountOpenDate(openDate: Date)
      modifies this
      ensures accountOpenDate == openDate
      ensures accountNumber == old(accountNumber) && accountType == old(accountType)
      ensures accountCustomerId == old(accountCustomerId) && accountBalance == old(accountBalance)
    {
      accountOpenDate := openDate;
    }

    /** No re-validation: a balance above the limit is stored and the account is no longer Valid. */
    method SetAccountBalance(balance: int)
      modifies this
      ensures accountBalance == balance
      ensures accountNumber == old(accountNumber) && accountType == old(accountType)
      ensures accountCustomerId == old(accountCustomerId) && accountOpenDate == old(accountOpenDate)
      ensures balance > ACCOUNT_LIMIT ==> !Valid()
    {
      accountBalance := balance;
    }
  }

  /** `getPredicateAccountBalance()`: the report filter, balance strictly above 1000. */
  predicate HighBalance(a: Account)
    reads a
  {
    a.accountBalance > 1000
  }
}
