// backend/customer_controller.py: the in-memory customer registry, keyed in
// practice by e-mail address, and the e-mail format check.

module CustomerControl {
  import opened Text
  import opened Customers

  /** The position of the first customer with the given e-mail, or |cs| when
      there is none: the customer find_customer_by_email returns. */
  function EmailIndex(cs: seq<Customer>, email: string): (i: nat)
    reads cs
    ensures i <= |cs|
    ensures forall k :: 0 <= k < i ==> cs[k].email != email
    ensures i < |cs| ==> cs[i].email == email
  {
    if cs == [] then 0
    else if cs[0].email == email then 0
    else 1 + EmailIndex(cs[1..], email)
  }

  /** No two registered customers share an e-mail address. */
  predicate EmailsUnique(cs: seq<Customer>)
    reads cs
  {
    forall i, j :: 0 <= i < j < |cs| ==> cs[i].email != cs[j].email
  }

  /** The new_info dictionary of update_customer: a key that is present
      carries Some(value), an absent key None. */
  datatype CustomerUpdate = CustomerUpdate(
    firstName: Option<string>, lastName: Option<string>, phone: Option<string>,
    email: Option<string>, address: Option<Address>)

  /** new_info.get(key, current). */
  function OrKeep<T>(update: Option<T>, current: T): (r: T)
    ensures update.None? ==> r == current
    ensures update.Some? ==> r == update.value
  {
    match update
    case None => current
    case Some(v) => v
  }

  class CustomerController {
    var customers: seq<Customer>
    /** The class-wide customer count every new Customer raises. */
    const count: CustomerCount

    constructor (count: CustomerCount)
      ensures customers == [] && this.count == count
    {
      customers := [];
      this.count := count;
    }

    /** find_customer_by_email: the first customer with that e-mail, or None. */
    method FindCustomerByEmail(email: string) returns (found: Option<Customer>)
      ensures found.None? <==> forall k :: 0 <= k < |customers| ==> customers[k].email != email
      ensures found.Some? ==> found.value == customers[EmailIndex(customers, email)]
      ensures found.Some? ==> found.value.email == email
    {
      var i := 0;
      while i < |customers|
        invariant 0 <= i <= |customers|
        invariant forall k :: 0 <= k < i ==> customers[k].email != email
      {
        if customers[i].email == email {
          return Some(customers[i]);
        }
        i := i + 1;
      }
      return None;
    }

    /** add_customer: refuse a known e-mail; otherwise create the customer
        (counting it) and append it at the end. The e-mail format is not
        checked. */
    method AddCustomer(firstName: string, lastName: string, email: string, phone: string, address: Address)
      returns (added: bool)
      modifies this, count
      ensures added <==> forall k :: 0 <= k < |old(customers)| ==> old(customers[k].email) != email
      ensures !added ==> customers == old(customers) && count.numberOfCustomers == old(count.numberOfCustomers)
      ensures added ==>
        |customers| == |old(customers)| + 1 && customers[..|customers| - 1] == old(customers) &&
        fresh(customers[|customers| - 1]) && count.numberOfCustomers == old(count.numberOfCustomers) + 1
      ensures added ==>
        var c := customers[|customers| - 1];
        c.firstName == firstName && c.lastName == lastName && c.email == email &&
        c.phone == phone && c.address == address
      ensures forall k :: 0 <= k < |old(customers)| ==> customers[k].email == old(customers[k].email)
      ensures EmailsUnique(old(customers)) ==> EmailsUnique(customers)
    {
      var existing := FindCustomerByEmail(email);
      if existing.Some? {
        return false;
      }
      var customer := new Customer(firstName, lastName, email, phone, address, count);
      customers := customers + [customer];
      return true;
    }

    /** update_customer: overwrite exactly the fields present in newInfo on
        the first customer with that e-mail; false, with no change, when
        there is none. */
    method UpdateCustomer(email: string, newInfo: CustomerUpdate) returns (updated: bool)
      modifies customers
      ensures updated <==> old(EmailIndex(customers, email)) < |customers|
      ensures !updated ==> forall k :: 0 <= k < |customers| ==> unchanged(customers[k])
      ensures updated ==>
        var c := customers[old(EmailIndex(customers, email))];
        forall k :: 0 <= k < |customers| && customers[k] != c ==> unchanged(customers[k])
      ensures updated ==>
        var c := customers[old(EmailIndex(customers, email))];
        c.firstName == OrKeep(newInfo.firstName, old(c.firstName)) &&
        c.lastName == OrKeep(newInfo.lastName, old(c.lastName)) &&
        c.phone == OrKeep(newInfo.phone, old(c.phone)) &&
        c.email == OrKeep(newInfo.email, old(c.email)) &&
        c.address == OrKeep(newInfo.address, old(c.address))
    {
      var found := FindCustomerByEmail(email);
      if found.None? {
        return false;
      }
      var customer := found.value;
      customer.firstName := OrKeep(newInfo.firstName, customer.firstName);
      customer.lastName := OrKeep(newInfo.lastName, customer.lastName);
      customer.phone := OrKeep(newInfo.phone, customer.phone);
      customer.email := OrKeep(newInfo.email, customer.email);
      customer.address := OrKeep(newInfo.address, customer.address);
      return true;
    }

    /** remove_customer: drop the first customer with that e-mail, keeping
        the others in order; false, with no change, when there is none. */
    method RemoveCustomer(email: string) returns (removed: bool)
      modifies this
      ensures removed <==> old(EmailIndex(customers, email)) < |old(customers)|
      ensures !removed ==> customers == old(customers)
      ensures removed ==>
        var i := old(EmailIndex(customers, email));
        customers == old(customers[..i] + customers[i + 1..])
      ensures EmailsUnique(old(customers)) ==> EmailsUnique(customers)
    {
      var i := 0;
      while i < |customers|
        invariant 0 <= i <= |customers|
        invariant forall k :: 0 <= k < i ==> customers[k].email != email
      {
        if customers[i].email == email {
          customers := customers[..i] + customers[i + 1..];
          return true;
        }
        i := i + 1;
      }
      return false;
    }
  }

  /** After a removal, the e-mail is no longer registered when it was unique. */
  lemma RemovedEmailGone(cs: seq<Customer>, email: string)
    requires EmailsUnique(cs) && EmailIndex(cs, email) < |cs|
    ensures var i := EmailIndex(cs, email);
      forall c :: c in cs[..i] + cs[i + 1..] ==> c.email != email
  {
    var i := EmailIndex(cs, email);
    var r := cs[..i] + cs[i + 1..];
    forall c | c in r ensures c.email != email {
      var k :| 0 <= k < |r| && r[k] == c;
      if k >= i {
        assert r[k] == cs[k + 1];
      }
    }
  }

  // ---------------------------------------------------------------------
  // is_valid_email
  // ---------------------------------------------------------------------

  /** [a-zA-Z0-9._%+-] */
  predicate IsLocalChar(c: char)
  {
    IsAsciiLetter(c) || IsDigit(c) || c == '.' || c == '_' || c == '%' || c == '+' || c == '-'
  }

  /** [a-zA-Z0-9.-] */
  predicate IsDomainChar(c: char)
  {
    IsAsciiLetter(c) || IsDigit(c) || c == '.' || c == '-'
  }

  predicate AllLocal(s: string)
  {
    forall k :: 0 <= k < |s| ==> IsLocalChar(s[k])
  }

  predicate AllDomain(s: string)
  {
    forall k :: 0 <= k < |s| ==> IsDomainChar(s[k])
  }

  predicate AllLetters(s: string)
  {
    forall k :: 0 <= k < |s| ==> IsAsciiLetter(s[k])
  }

  /** The pattern ^[a-zA-Z0-9._%+-]+@[a-zA-Z0-9.-]+\.[a-zA-Z]{2,}$ read as
      a statement about some '@' position and some '.' position. */
  predicate MatchesEmailPattern(s: string)
  {
    exists at, dot :: 0 < at && at + 1 < dot && dot + 2 < |s| && s[at] == '@' && s[dot] == '.' &&
      AllLocal(s[..at]) && AllDomain(s[at + 1..dot]) && AllLetters(s[dot + 1..])
  }

  /** The first position of c in s, or |s|. */
  function IndexOf(s: string, c: char): (i: nat)
    ensures i <= |s|
    ensures forall k :: 0 <= k < i ==> s[k] != c
    ensures i < |s| ==> s[i] == c
  {
    if s == [] then 0 else if s[0] == c then 0 else 1 + IndexOf(s[1..], c)
  }

  /** The last position of c in s, or -1. */
  function LastIndexOf(s: string, c: char): (i: int)
    ensures -1 <= i < |s|
    ensures forall k :: i < k < |s| ==> s[k] != c
    ensures i >= 0 ==> s[i] == c
  {
    if s == [] then -1
    else if s[|s| - 1] == c then |s| - 1
    else LastIndexOf(s[..|s| - 1], c)
  }

  /** An '@' preceded only by local-part characters is the first '@'. */
  lemma FirstAt(s: string, at: nat)
    requires at < |s| && s[at] == '@' && AllLocal(s[..at])
    ensures IndexOf(s, '@') == at
  {
  }

  /** A '.' followed only by letters is the last '.'. */
  lemma LastDot(s: string, dot: nat)
    requires dot < |s| && s[dot] == '.' && AllLetters(s[dot + 1..])
    ensures LastIndexOf(s, '.') == dot
  {
  }

  /** The pattern test on an already stripped address: split at the first
      '@' and the last '.'. */
  predicate ValidEmailText(s: string)
  {
    var at := IndexOf(s, '@');
    var dot := LastIndexOf(s, '.');
    0 < at && at + 1 < dot && dot + 2 < |s| &&
    AllLocal(s[..at]) && AllDomain(s[at + 1..dot]) && AllLetters(s[dot + 1..])
  }

  /** is_valid_email: the stripped address splits at its first '@' and its
      last '.' into a local part, a domain and a top-level part of at least
      two letters. */
  predicate IsValidEmail(email: string)
  {
    ValidEmailText(Strip(email))
  }

  /** The check decides exactly the regular-expression pattern. */
  lemma ValidEmailTextMatchesPattern(s: string)
    ensures ValidEmailText(s) <==> MatchesEmailPattern(s)
  {
    if ValidEmailText(s) {
      var at := IndexOf(s, '@');
      var dot := LastIndexOf(s, '.');
      assert s[at] == '@' && s[dot] == '.';
    }
    if MatchesEmailPattern(s) {
      var a, d :| 0 < a && a + 1 < d && d + 2 < |s| && s[a] == '@' && s[d] == '.' &&
        AllLocal(s[..a]) && AllDomain(s[a + 1..d]) && AllLetters(s[d + 1..]);
      FirstAt(s, a);
      LastDot(s, d);
    }
  }

  /** is_valid_email accepts exactly the stripped addresses that match the
      pattern. */
  lemma IsValidEmailMatchesPattern(email: string)
    ensures IsValidEmail(email) <==> MatchesEmailPattern(Strip(email))
  {
    ValidEmailTextMatchesPattern(Strip(email));
  }

  /** The address used in the customer tests passes the check. */
  lemma ValidEmailExample(s: string)
    requires s == "JoeApple@gmail.com"
    ensures IsValidEmail(s)
  {
    StripUnpadded(s);
    assert s[..8] == "JoeApple" && s[9..14] == "gmail" && s[15..] == "com";
    assert AllLocal(s[..8]) && AllDomain(s[9..14]) && AllLetters(s[15..]);
    assert s[8] == '@' && s[14] == '.';
    IsValidEmailMatchesPattern(s);
  }

  /** "notvalid", which add_customer still accepts, fails the check. */
  lemma InvalidEmailExample(t: string)
    requires t == "notvalid"
    ensures !IsValidEmail(t)
  {
    StripUnpadded(t);
    assert '@' !in t;
  }
}
