/**
 * The persistence sink the workers write to: the committed customer ids, the inserted
 * customer and account rows, and a fault oracle saying when a statement throws SQLException.
 */
module Sink {
  import opened Base
  import opened JavaLib

  /** One row of the customers table, in the column order of its INSERT statement. */
  datatype CustomerRow = CustomerRow(customerId: int, customerName: string, customerSurName: string,
                                     customerAddress: string, customerZipCode: int,
                                     customerNationalId: string, customerBirthDate: Date)

  /** One row of the accounts table; the type column holds the account type's code. */
  datatype AccountRow = AccountRow(accountNumber: string, accountType: string, accountCustomerId: int,
                                   accountLimit: int, accountOpenDate: Date, accountBalance: int)

  /** The three statements the workers issue. */
  datatype StoreOp = CustomerIdQuery(id: int) | CustomerInsert(customer: CustomerRow) | AccountInsert(account: AccountRow)

  /** The committed state of the database. */
  datatype Db = Db(customerIds: set<int>, customers: seq<CustomerRow>, accounts: seq<AccountRow>)

  /** Whether a statement issued in a given state throws SQLException (a lost connection, a duplicate key, ...). */
  type Fault = (Db, StoreOp) -> bool

  /** `customerIdIsExist(id)`: a SELECT on the committed customers; None when it throws. */
  function QueryCustomerId(db: Db, fault: Fault, id: int): (r: Option<bool>)
    ensures r.None? <==> fault(db, CustomerIdQuery(id))
    ensures r.Some? ==> (r.value <==> id in db.customerIds)
  {
    if fault(db, CustomerIdQuery(id)) then None else Some(id in db.customerIds)
  }

  /** `writeCustomersToDatabase`: one INSERT that commits the row and its id, or throws (None). */
  function InsertCustomer(db: Db, fault: Fault, row: CustomerRow): (r: Option<Db>)
    ensures r.None? <==> fault(db, CustomerInsert(row))
    ensures r.Some? ==> r.value.customers == db.customers + [row] && r.value.accounts == db.accounts
    ensures r.Some? ==> r.value.customerIds == db.customerIds + {row.customerId}
  {
    if fault(db, CustomerInsert(row)) then None
    else Some(Db(db.customerIds + {row.customerId}, db.customers + [row], db.accounts))
  }

  /** `writeAccountsToDatabase`: one INSERT that commits the row, or throws (None). */
  function InsertAccount(db: Db, fault: Fault, row: AccountRow): (r: Option<Db>)
    ensures r.None? <==> fault(db, AccountInsert(row))
    ensures r.Some? ==> r.value.accounts == db.accounts + [row]
    ensures r.Some? ==> r.value.customers == db.customers && r.value.customerIds == db.customerIds
  {
    if fault(db, AccountInsert(row)) then None
    else Some(Db(db.customerIds, db.customers, db.accounts + [row]))
  }

  /** The store behind the shared connection. */
  class Store {
    var db: Db
    const fault: Fault

    constructor (initial: Db, fault: Fault)
      ensures db == initial && this.fault == fault
    {
      db := initial;
      this.fault := fault;
    }

    method CustomerIdIsExist(id: int) returns (r: Option<bool>)
      ensures r == QueryCustomerId(db, fault, id)
    {
      r := QueryCustomerId(db, fault, id);
    }

    method WriteCustomer(row: CustomerRow) returns (ok: bool)
      modifies this
      ensures ok <==> InsertCustomer(old(db), fault, row).Some?
      ensures db == if ok then InsertCustomer(old(db), fault, row).value else old(db)
    {
      var r := InsertCustomer(db, fault, row);
      ok := r.Some?;
      if ok {
        db := r.value;
      }
    }

    method WriteAccount(row: AccountRow) returns (ok: bool)
      modifies this
      ensures ok <==> InsertAccount(old(db), fault, row).Some?
      ensures db == if ok then InsertAccount(old(db), fault, row).value else old(db)
    {
      var r := InsertAccount(db, fault, row);
      ok := r.Some?;
      if ok {
        db := r.value;
      }
    }
  }
}
