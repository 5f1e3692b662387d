/** The account types and the one-character code each one is stored under. */
module AccountTypes {
  import opened Base

  /** Exactly three variants. */
  datatype AccountType = Savings | RecurringDeposit | FixedDepositAccount

  /** `toString()`: the code given to each variant in the enum declaration. */
  function Code(t: AccountType): (c: string)
    ensures |c| == 1 && '1' <= c[0] <= '3'
  {
    match t
    case Savings => "1"
    case RecurringDeposit => "2"
    case FixedDepositAccount => "3"
  }

  /** `name()`: the constant's identifier. */
  function Name(t: AccountType): string
  {
    match t
    case Savings => "SAVINGS"
    case RecurringDeposit => "RECURRINGDEPOSIT"
    case FixedDepositAccount => "FIXEDDEPOSITACCOUNT"
  }

  /** `AccountType.valueOf(s)`: the constant whose name is s; None where Java throws IllegalArgumentException. */
  function ValueOf(s: string): (r: Option<AccountType>)
    ensures r.Some? ==> Name(r.value) == s
  {
    if s == "SAVINGS" then Some(Savings)
    else if s == "RECURRINGDEPOSIT" then Some(RecurringDeposit)
    else if s == "FIXEDDEPOSITACCOUNT" then Some(FixedDepositAccount)
    else None
  }

  /** `valueOf` accepts exactly the three names and inverts `name()`. */
  lemma ValueOfIff(s: string, t: AccountType)
    ensures ValueOf(s) == Some(t) <==> s == Name(t)
  {
  }

  /** The stored code identifies the variant. */
  lemma CodeInjective(a: AccountType, b: AccountType)
    ensures Code(a) == Code(b) <==> a == b
  {
  }

  /** The codes are "1", "2", "3" in declaration order. */
  lemma CodeValues()
    ensures Code(Savings) == "1" && Code(RecurringDeposit) == "2" && Code(FixedDepositAccount) == "3"
  {
  }
}
