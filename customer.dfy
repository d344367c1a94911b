// backend/customer.py (with the Address record of backend/address.py): a
// customer's contact data and the class-wide count of customers created.

module Customers {

  /** backend/address.py: a plain record of five strings. */
  datatype Address = Address(street: string, city: string, state: string, zipcode: string, country: string)

  /** The class attribute Customer.number_of_customers. Python shares it
      between all instances; here it is one object that every construction
      updates. */
  class CustomerCount {
    var numberOfCustomers: nat

    /** The attribute starts at 0 when the class is defined. */
    constructor ()
      ensures numberOfCustomers == 0
    {
      numberOfCustomers := 0;
    }

    /** Customer.get_customercount(): the current value, unchanged. */
    method GetCustomerCount() returns (n: nat)
      ensures n == numberOfCustomers
    {
      n := numberOfCustomers;
    }

    /** Customer.add_to_customercount(): raise the count by exactly one. */
    method AddToCustomerCount()
      modifies this
      ensures numberOfCustomers == old(numberOfCustomers) + 1
    {
      numberOfCustomers := numberOfCustomers + 1;
    }
  }

  /** A value of the dictionary get_custinfo returns: a string field or the
      address object. */
  datatype InfoValue = Field(text: string) | Location(address: Address)

  const InfoKeys: set<string> := {"Firstname", "Lastname", "Email", "Phone number", "Address"}

  class Customer {
    var firstName: string
    var lastName: string
    var email: string
    var phone: string
    var address: Address

    /** Stores the five arguments unchanged and counts the new customer. */
    constructor (firstName: string, lastName: string, email: string, phone: string, address: Address,
                 count: CustomerCount)
      modifies count
      ensures this.firstName == firstName && this.lastName == lastName && this.email == email
      ensures this.phone == phone && this.address == address
      ensures count.numberOfCustomers == old(count.numberOfCustomers) + 1
    {
      this.firstName := firstName;
      this.lastName := lastName;
      this.email := email;
      this.phone := phone;
      this.address := address;
      new;
      count.AddToCustomerCount();
    }

    /** get_custinfo(): the five display keys, each mapped to its field. */
    function GetCustInfo(): (info: map<string, InfoValue>)
      reads this
      ensures info.Keys == InfoKeys
      ensures info["Firstname"] == Field(firstName) && info["Lastname"] == Field(lastName)
      ensures info["Email"] == Field(email) && info["Phone number"] == Field(phone)
      ensures info["Address"] == Location(address)
    {
      map["Firstname" := Field(firstName), "Lastname" := Field(lastName), "Email" := Field(email),
          "Phone number" := Field(phone), "Address" := Location(address)]
    }
  }

  /** The customer-count test: reading the count, creating a customer and
      reading it again shows an increase of exactly one. */
  method CountIncreasesByOne(count: CustomerCount, address: Address) returns (before: nat, after: nat)
    modifies count
    ensures after == before + 1
  {
    before := count.GetCustomerCount();
    var c := new Customer("Joe", "Apple", "JoeApple@gmail.com", "818-203-2819", address, count);
    after := count.GetCustomerCount();
  }
}
