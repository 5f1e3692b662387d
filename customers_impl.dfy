/** The validated customer entity. */
module CustomersImpl {
  import opened Base
  import opened JavaLib
  import opened Crypto
  import opened CustomerMethods

  /**
   * What the constructor can throw: its two declared exceptions, and the decryption
   * failure that escapes from the national-id validator.
   */
  datatype CustomerError = CustomerNationalIdError | CustomerBirthDateError | DecryptionError

  class Customer {
    var customerId: int
    var customerName: string
    var customerSurName: string
    var customerAddress: string
    var customerZipCode: int
    var customerNationalId: string
    var customerBirthDate: Date

    /** What the validating constructor establishes; the setters do not keep it. */
    predicate Valid(c: Cipher)
      reads this
    {
      ValidateNationalId(c, customerNationalId) == Some(true) && ValidBirthDate(customerBirthDate)
    }

    /** Field assignment only; `Create` is the validating constructor. */
    constructor Init(id: int, name: string, surName: string, address: string, zip: int,
                     nationalId: string, birthDate: Date)
      ensures customerId == id && customerName == name && customerSurName == surName
      ensures customerAddress == address && customerZipCode == zip
      ensures customerNationalId == nationalId && customerBirthDate == birthDate
    {
      customerId, customerName, customerSurName := id, name, surName;
      customerAddress, customerZipCode := address, zip;
      customerNationalId, customerBirthDate := nationalId, birthDate;
    }

    /**
     * `new CustomersImpl(...)`: the national id is checked first (CustomerNationalIdException,
     * or the decryption failure), then the birth date (CustomerBirthDateException).
     */
    static method Create(c: Cipher, id: int, name: string, surName: string, address: string, zip: int,
                         nationalId: string, birthDate: Date)
      returns (r: Result<Customer, CustomerError>)
      ensures r.Success? <==> ValidateNationalId(c, nationalId) == Some(true) && ValidBirthDate(birthDate)
      ensures ValidateNationalId(c, nationalId) == None ==> r == Failure(DecryptionError)
      ensures ValidateNationalId(c, nationalId) == Some(false) ==> r == Failure(CustomerNationalIdError)
      ensures ValidateNationalId(c, nationalId) == Some(true) && !ValidBirthDate(birthDate)
        ==> r == Failure(CustomerBirthDateError)
      ensures r.Success? ==> fresh(r.value) && r.value.Valid(c)
      ensures r.Success? ==> (r.value.customerId == id && r.value.customerName == name
        && r.value.customerSurName == surName && r.value.customerAddress == address
        && r.value.customerZipCode == zip && r.value.customerNationalId == nationalId
        && r.value.customerBirthDate == birthDate)
    {
      var idOk := ValidateNationalId(c, nationalId);
      if idOk.None? {
        return Failure(DecryptionError);
      }
      if !idOk.value {
        return Failure(CustomerNationalIdError);
      }
      if !ValidBirthDate(birthDate) {
        return Failure(CustomerBirthDateError);
      }
      var cu := new Customer.Init(id, name, surName, address, zip, nationalId, birthDate);
      return Success(cu);
    }

    /** `toString()`: name, one space, surname. */
    function ToString(): (s: string)
      reads this
      ensures |s| == |customerName| + 1 + |customerSurName|
      ensures s[..|customerName|] == customerName && s[|customerName|] == ' '
      ensures s[|customerName| + 1..] == customerSurName
    {
      customerName + " " + customerSurName
    }

    method SetCustomerId(id: int)
      modifies this
      ensures customerId == id
      ensures customerName == old(customerName) && customerSurName == old(customerSurName)
      ensures customerAddress == old(customerAddress) && customerZipCode == old(customerZipCode)
      ensures customerNationalId == old(customerNationalId) && customerBirthDate == old(customerBirthDate)
    {
      customerId := id;
    }

    method SetCustomerName(name: string)
      modifies this
      ensures customerName == name
      ensures customerId == old(customerId) && customerSurName == old(customerSurName)
      ensures customerAddress == old(customerAddress) && customerZipCode == old(customerZipCode)
      ensures customerNationalId == old(customerNationalId) && customerBirthDate == old(customerBirthDate)
    {
      customerName := name;
    }

    method SetCustomerSurName(surName: string)
      modifies this
      ensures customerSurName == surName
      ensures customerId == old(customerId) && customerName == old(customerName)
      ensures customerAddress == old(customerAddress) && customerZipCode == old(customerZipCode)
      ensures customerNationalId == old(customerNationalId) && customerBirthDate == old(customerBirthDate)
    {
      customerSurName := surName;
    }

    method SetCustomerAddress(address: string)
      modifies this
      ensures customerAddress == address
      ensures customerId == old(customerId) && customerName == old(customerName)
      ensures customerSurName == old(customerSurName) && customerZipCode == old(customerZipCode)
      ensures customerNationalId == old(customerNationalId) && customerBirthDate == old(customerBirthDate)
    {
      customerAddress := address;
    }

    method SetCustomerZipCode(zip: int)
      modifies this
      ensures customerZipCode == zip
      ensures customerId == old(customerId) && customerName == old(customerName)
      ensures customerSurName == old(customerSurName) && customerAddress == old(customerAddress)
      ensures customerNationalId == old(customerNationalId) && customerBirthDate == old(customerBirthDate)
    {
      customerZipCode := zip;
    }

    /** No re-validation: any string is stored as the national id. */
    method SetCustomerNationalId(nationalId: string)
      modifies this
      ensures customerNationalId == nationalId
      ensures customerId == old(customerId) && customerName == old(customerName)
      ensures customerSurName == old(customerSurName) && customerAddress == old(customerAddress)
      ensures customerZipCode == old(customerZipCode) && customerBirthDate == old(customerBirthDate)
    {
      customerNationalId := nationalId;
    }

    /** No re-validation: a birth year of 1995 or earlier is stored and the customer is Valid under no cipher. */
    method SetCustomerBirthDate(birthDate: Date)
      modifies this
      ensures customerBirthDate == birthDate
      ensures customerId == old(customerId) && customerName == old(customerName)
      ensures customerSurName == old(customerSurName) && customerAddress == old(customerAddress)
      ensures customerZipCode == old(customerZipCode) && customerNationalId == old(customerNationalId)
      ensures birthDate.year <= 1995 ==> forall c :: !Valid(c)
    {
      customerBirthDate := birthDate;
    }
  }
}
