// backend/payment_system.py: card masking, card-type detection, card-detail
// validation, the transaction counter and PaymentController.process_payment.
// The clock and the random source become parameters: the current date is a
// Today value and the random part of a transaction ID is a number.

module Payments {
  import opened Text
  import opened Customers

  // ---------------------------------------------------------------------
  // Card details: a dictionary of strings
  // ---------------------------------------------------------------------

  type CardDetails = map<string, string>

  const CardNumberKey: string := "card_number"
  const HolderKey: string := "card_holder_name"
  const ExpiryKey: string := "expiry_date"
  const CvvKey: string := "cvv"
  const CardTypeKey: string := "card_type"

  /** The fields validate_card_details requires, in the order it checks them. */
  const RequiredFields: seq<string> := [CardNumberKey, HolderKey, ExpiryKey, CvvKey]

  /** The keys of the masked dictionary a payment keeps. */
  const MaskedKeys: set<string> := {CardNumberKey, HolderKey, ExpiryKey, CardTypeKey}

  /** card_details.get(key, ""). */
  function Get(details: CardDetails, key: string): (v: string)
    ensures key !in details ==> v == ""
  {
    if key in details then details[key] else ""
  }

  /** Python truthiness of the optional card_details argument: given and
      not an empty dictionary. */
  predicate Present(details: Option<CardDetails>)
  {
    details.Some? && |details.value| > 0
  }

  // ---------------------------------------------------------------------
  // Masking
  // ---------------------------------------------------------------------

  const MaskPrefix: string := "**** **** **** "

  /** Payment._mask_card_number: at most the last four characters of the
      cleaned number are shown, everything before them is '*' or ' '. */
  function MaskCardNumber(cardNumber: string): (masked: string)
    ensures var clean := CleanCardNumber(cardNumber);
      if |clean| < 4 then masked == "****"
      else |masked| == 19 && masked[15..] == clean[|clean| - 4..]
    ensures |masked| >= 4 && forall i :: 0 <= i < |masked| - 4 ==> masked[i] == '*' || masked[i] == ' '
  {
    var clean := CleanCardNumber(cardNumber);
    if |clean| < 4 then "****" else MaskPrefix + clean[|clean| - 4..]
  }

  /** Two numbers whose cleaned forms end in the same four characters mask
      to the same text: the mask reveals nothing else. */
  lemma MaskDependsOnlyOnLastFour(a: string, b: string)
    requires |CleanCardNumber(a)| >= 4 && |CleanCardNumber(b)| >= 4
    requires CleanCardNumber(a)[|CleanCardNumber(a)| - 4..] == CleanCardNumber(b)[|CleanCardNumber(b)| - 4..]
    ensures MaskCardNumber(a) == MaskCardNumber(b)
  {
  }

  /** Removing spaces from one "**** " group of the mask prefix. */
  lemma CleanGroup()
    ensures Remove("**** ", ' ') == "****"
  {
    RemoveAppend("****", " ", ' ');
    RemoveAbsent("****", ' ');
    assert "****" + " " == "**** ";
  }

  /** Cleaning the mask prefix followed by a tail that holds no space or
      dash leaves twelve stars and the tail. */
  lemma CleanMasked(tail: string)
    requires ' ' !in tail && '-' !in tail
    ensures CleanCardNumber(MaskPrefix + tail) == "************" + tail
  {
    var group := "**** ";
    var stars := "****";
    CleanGroup();
    assert MaskPrefix + tail == group + (group + (group + tail));
    RemoveAppend(group, group + (group + tail), ' ');
    RemoveAppend(group, group + tail, ' ');
    RemoveAppend(group, tail, ' ');
    RemoveAbsent(tail, ' ');
    assert Remove(MaskPrefix + tail, ' ') == stars + (stars + (stars + tail));
    assert stars + (stars + (stars + tail)) == "************" + tail;
    RemoveAbsent("************" + tail, '-');
  }

  /** Masking an already masked number (of at least four characters)
      changes nothing. */
  lemma MaskIdempotent(cardNumber: string)
    requires |CleanCardNumber(cardNumber)| >= 4
    ensures MaskCardNumber(MaskCardNumber(cardNumber)) == MaskCardNumber(cardNumber)
  {
    var clean := CleanCardNumber(cardNumber);
    var tail := clean[|clean| - 4..];
    assert forall i :: 0 <= i < |tail| ==> tail[i] == clean[|clean| - 4 + i];
    CleanMasked(tail);
    var again := "************" + tail;
    assert again[|again| - 4..] == tail;
  }

  // ---------------------------------------------------------------------
  // Card type
  // ---------------------------------------------------------------------

  /** str.startswith with a tuple of prefixes. */
  predicate StartsWithAny(s: string, prefixes: seq<string>)
  {
    exists i :: 0 <= i < |prefixes| && StartsWith(s, prefixes[i])
  }

  const CardTypes: set<string> := {"Visa", "Mastercard", "American Express", "Discover", "Unknown"}

  /** Payment._detect_card_type: the first matching prefix rule, on the
      number with spaces and dashes removed. */
  function DetectCardType(cardNumber: string): (cardType: string)
    ensures cardType in CardTypes
  {
    var clean := CleanCardNumber(cardNumber);
    if StartsWith(clean, "4") then "Visa"
    else if StartsWithAny(clean, ["51", "52", "53", "54", "55"]) then "Mastercard"
    else if StartsWithAny(clean, ["34", "37"]) then "American Express"
    else if StartsWith(clean, "6011") || StartsWith(clean, "65") then "Discover"
    else "Unknown"
  }

  /** Each card type in terms of the leading digits of the cleaned number,
      in both directions. */
  lemma CardTypeByPrefix(cardNumber: string)
    ensures var c := CleanCardNumber(cardNumber);
      var t := DetectCardType(cardNumber);
      && (t == "Visa" <==> |c| >= 1 && c[0] == '4')
      && (t == "Mastercard" <==> |c| >= 2 && c[0] == '5' && '1' <= c[1] <= '5')
      && (t == "American Express" <==> |c| >= 2 && c[0] == '3' && (c[1] == '4' || c[1] == '7'))
      && (t == "Discover" <==> (|c| >= 4 && c[..4] == "6011") || (|c| >= 2 && c[..2] == "65"))
  {
    var c := CleanCardNumber(cardNumber);
    var master := ["51", "52", "53", "54", "55"];
    var amex := ["34", "37"];
    if |c| >= 2 && c[0] == '5' && '1' <= c[1] <= '5' {
      var i := (c[1] as int) - ('1' as int);
      assert c[..2] == master[i];
      assert StartsWithAny(c, master);
    }
    if StartsWithAny(c, master) {
      var i :| 0 <= i < |master| && StartsWith(c, master[i]);
      assert c[..2] == master[i];
    }
    if |c| >= 2 && c[0] == '3' && c[1] == '4' {
      assert c[..2] == amex[0];
    }
    if |c| >= 2 && c[0] == '3' && c[1] == '7' {
      assert c[..2] == amex[1];
    }
    if StartsWithAny(c, amex) {
      var i :| 0 <= i < |amex| && StartsWith(c, amex[i]);
      assert c[..2] == amex[i];
    }
    if |c| >= 1 && c[0] == '4' {
      assert c[..1] == "4";
    }
  }

  /** Payment._mask_card_details: the masked number, the holder, the expiry
      date and the detected type; the CVV is never kept. */
  function MaskCardDetails(details: CardDetails): (masked: CardDetails)
    ensures masked.Keys == MaskedKeys && CvvKey !in masked
    ensures masked[CardNumberKey] == MaskCardNumber(Get(details, CardNumberKey))
    ensures masked[CardTypeKey] == DetectCardType(Get(details, CardNumberKey))
    ensures masked[HolderKey] == Get(details, HolderKey) && masked[ExpiryKey] == Get(details, ExpiryKey)
  {
    map[CardNumberKey := MaskCardNumber(Get(details, CardNumberKey)),
        HolderKey := Get(details, HolderKey),
        ExpiryKey := Get(details, ExpiryKey),
        CardTypeKey := DetectCardType(Get(details, CardNumberKey))]
  }

  // ---------------------------------------------------------------------
  // Validation
  // ---------------------------------------------------------------------

  /** The (is_valid, message) pair validate_card_details returns. */
  datatype CardCheck = CardCheck(ok: bool, message: string)

  const ValidMessage: string := "Valid"
  const BadNumber: string := "Invalid card number format"
  const BadCvv: string := "Invalid CVV format"
  const NoSlash: string := "Invalid expiry date format (use MM/YY or MM/YYYY)"
  const BadExpiry: string := "Invalid expiry date format"
  const BadMonth: string := "Invalid expiry month"
  const ExpiredCard: string := "Card has expired"

  /** The first field that is absent or empty, in the order given. */
  function FirstMissing(details: CardDetails, fields: seq<string>): (missing: Option<string>)
    ensures missing.None? <==> forall i :: 0 <= i < |fields| ==> Get(details, fields[i]) != ""
    ensures missing.Some? ==> exists i :: (0 <= i < |fields| && fields[i] == missing.value &&
      Get(details, fields[i]) == "" && forall j :: 0 <= j < i ==> Get(details, fields[j]) != "")
  {
    if fields == [] then None
    else if Get(details, fields[0]) == "" then Some(fields[0])
    else
      var rest := FirstMissing(details, fields[1..]);
      assert forall i :: 1 <= i < |fields| ==> fields[1..][i - 1] == fields[i];
      rest
  }

  /** The card number, spaces and dashes removed, is 13 to 19 digits. */
  predicate CardNumberWellFormed(cardNumber: string)
  {
    var clean := CleanCardNumber(cardNumber);
    IsDigits(clean) && 13 <= |clean| <= 19
  }

  /** The CVV is 3 or 4 digits. */
  predicate CvvWellFormed(cvv: string)
  {
    IsDigits(cvv) && 3 <= |cvv| <= 4
  }

  /** A card expiring in (year, month) has expired by (currentYear,
      currentMonth): the pairs compare lexicographically. */
  predicate Expired(year: int, month: int, currentYear: int, currentMonth: int)
  {
    year < currentYear || (year == currentYear && month < currentMonth)
  }

  /** The judgement on the stripped month and year texts: both digit
      strings, the month 1..12, and not expired; a two-digit year is read
      as 20YY. */
  function JudgeExpiry(month: string, year: string, currentYear: int, currentMonth: int): (check: CardCheck)
    ensures check.ok ==> check.message == ValidMessage
    ensures check.ok <==> (IsDigits(month) && IsDigits(year) && 1 <= DigitsValue(month) <= 12 &&
      !Expired(DigitsValue(year) + (if |year| == 2 then 2000 else 0), DigitsValue(month), currentYear, currentMonth))
  {
    if !IsDigits(month) || !IsDigits(year) then CardCheck(false, BadExpiry)
    else
      var monthValue := DigitsValue(month);
      if monthValue < 1 || monthValue > 12 then CardCheck(false, BadMonth)
      else
        var yearValue := DigitsValue(year) + if |year| == 2 then 2000 else 0;
        if Expired(yearValue, monthValue, currentYear, currentMonth) then CardCheck(false, ExpiredCard)
        else CardCheck(true, ValidMessage)
  }

  /** The expiry part of validate_card_details: "MM/YY" or "MM/YYYY",
      split on "/" into exactly two parts, each stripped of white space. */
  function CheckExpiry(expiry: string, currentYear: int, currentMonth: int): (check: CardCheck)
    ensures check.ok ==> check.message == ValidMessage
    ensures '/' !in expiry ==> check == CardCheck(false, NoSlash)
    ensures '/' in expiry && |Split(expiry, '/')| != 2 ==> check == CardCheck(false, BadExpiry)
  {
    if '/' !in expiry then CardCheck(false, NoSlash)
    else
      var parts := Split(expiry, '/');
      if |parts| != 2 then CardCheck(false, BadExpiry)
      else JudgeExpiry(Strip(parts[0]), Strip(parts[1]), currentYear, currentMonth)
  }

  /** Any expiry with exactly one "/" is judged on the stripped texts
      on either side of it; whatever those texts are, the verdict is the
      one JudgeExpiry gives them. */
  lemma CheckExpiryParts(month: string, year: string, currentYear: int, currentMonth: int)
    requires '/' !in month && '/' !in year
    ensures CheckExpiry(month + "/" + year, currentYear, currentMonth) ==
      JudgeExpiry(Strip(month), Strip(year), currentYear, currentMonth)
  {
    var e := month + "/" + year;
    assert e == month + ['/'] + year;
    assert e[|month|] == '/';
    SplitAtFirst(month, '/', year);
    SplitWithoutSeparator(year, '/');
  }

  /** Digit strings carry no white space, so they are judged as they are. */
  lemma CheckExpiryDigits(m: string, y: string, currentYear: int, currentMonth: int)
    requires IsDigits(m) && IsDigits(y)
    ensures CheckExpiry(m + "/" + y, currentYear, currentMonth) == JudgeExpiry(m, y, currentYear, currentMonth)
  {
    DigitsExclude(m, '/');
    DigitsExclude(y, '/');
    StripUnpadded(m);
    StripUnpadded(y);
    var judged := JudgeExpiry(Strip(m), Strip(y), currentYear, currentMonth);
    assert judged == JudgeExpiry(m, y, currentYear, currentMonth);
    CheckExpiryParts(m, y, currentYear, currentMonth);
  }

  /** An expiry made of two digit strings is judged on their values: the
      month must be 1..12 and a two-character year is read as 20YY. */
  lemma ExpiryOfValues(m: string, y: string, month: nat, year: nat, currentYear: int, currentMonth: int)
    requires IsDigits(m) && IsDigits(y) && DigitsValue(m) == month && DigitsValue(y) == year
    ensures CheckExpiry(m + "/" + y, currentYear, currentMonth).ok <==>
      1 <= month <= 12 && !Expired(year + (if |y| == 2 then 2000 else 0), month, currentYear, currentMonth)
  {
    CheckExpiryDigits(m, y, currentYear, currentMonth);
  }

  /** A card printed as "MM/YYYY" passes the expiry check exactly when its
      month is 1..12 and (year, month) is not before the current pair. */
  lemma ExpiryFourDigitYear(month: nat, year: nat, currentYear: int, currentMonth: int)
    requires 1 <= month <= 12
    ensures CheckExpiry(FormatInt(month, 2) + "/" + FormatInt(year, 4), currentYear, currentMonth).ok <==>
      !Expired(year, month, currentYear, currentMonth)
  {
    var m, y := FormatInt(month, 2), FormatInt(year, 4);
    ParseFormatInt(month, 2);
    ParseFormatInt(year, 4);
    ExpiryOfValues(m, y, month, year, currentYear, currentMonth);
  }

  /** "MM/YY" is read as the year 2000 + YY. */
  lemma ExpiryTwoDigitYear(month: nat, year: nat, currentYear: int, currentMonth: int)
    requires 1 <= month <= 12 && year < 100
    ensures CheckExpiry(FormatInt(month, 2) + "/" + FormatInt(year, 2), currentYear, currentMonth).ok <==>
      !Expired(2000 + year, month, currentYear, currentMonth)
  {
    var m, y := FormatInt(month, 2), FormatInt(year, 2);
    ParseFormatInt(month, 2);
    ParseFormatInt(year, 2);
    TwoDigits(year);
    ExpiryOfValues(m, y, month, year, currentYear, currentMonth);
  }

  /** A month outside 1..12 is reported as such, whatever the year. */
  lemma ExpiryMonthOutOfRange(month: nat, year: nat, currentYear: int, currentMonth: int)
    requires month == 0 || month > 12
    ensures CheckExpiry(FormatInt(month, 2) + "/" + FormatInt(year, 4), currentYear, currentMonth) ==
      CardCheck(false, BadMonth)
  {
    ParseFormatInt(month, 2);
    CheckExpiryDigits(FormatInt(month, 2), FormatInt(year, 4), currentYear, currentMonth);
  }

  /** PaymentController.validate_card_details: the first missing field,
      then the card number, then the CVV, then the expiry date. */
  function ValidateCardDetails(details: CardDetails, currentYear: int, currentMonth: int): (check: CardCheck)
    ensures check.ok ==> check.message == ValidMessage
    ensures check.ok <==>
      && (forall i :: 0 <= i < |RequiredFields| ==> Get(details, RequiredFields[i]) != "")
      && CardNumberWellFormed(Get(details, CardNumberKey))
      && CvvWellFormed(Get(details, CvvKey))
      && CheckExpiry(Get(details, ExpiryKey), currentYear, currentMonth).ok
    ensures FirstMissing(details, RequiredFields).Some? ==>
      check == CardCheck(false, "Missing required field: " + FirstMissing(details, RequiredFields).value)
  {
    match FirstMissing(details, RequiredFields)
    case Some(field) => CardCheck(false, "Missing required field: " + field)
    case None =>
      if !CardNumberWellFormed(Get(details, CardNumberKey)) then CardCheck(false, BadNumber)
      else if !CvvWellFormed(Get(details, CvvKey)) then CardCheck(false, BadCvv)
      else CheckExpiry(Get(details, ExpiryKey), currentYear, currentMonth)
  }

  /** The number is judged before the CVV, and both before the expiry. */
  lemma ValidationOrder(details: CardDetails, currentYear: int, currentMonth: int)
    requires forall i :: 0 <= i < |RequiredFields| ==> Get(details, RequiredFields[i]) != ""
    ensures !CardNumberWellFormed(Get(details, CardNumberKey)) ==>
      ValidateCardDetails(details, currentYear, currentMonth) == CardCheck(false, BadNumber)
    ensures CardNumberWellFormed(Get(details, CardNumberKey)) && !CvvWellFormed(Get(details, CvvKey)) ==>
      ValidateCardDetails(details, currentYear, currentMonth) == CardCheck(false, BadCvv)
    ensures CardNumberWellFormed(Get(details, CardNumberKey)) && CvvWellFormed(Get(details, CvvKey)) ==>
      ValidateCardDetails(details, currentYear, currentMonth) == CheckExpiry(Get(details, ExpiryKey), currentYear, currentMonth)
  {
  }

  // ---------------------------------------------------------------------
  // Transactions
  // ---------------------------------------------------------------------

  /** The current date, as datetime.now() would give it. */
  datatype Today = Today(year: nat, month: nat, day: nat)

  /** strftime("%Y%m%d"). */
  function DateStamp(today: Today): (stamp: string)
    ensures IsDigits(stamp)
  {
    FormatInt(today.year, 4) + FormatInt(today.month, 2) + FormatInt(today.day, 2)
  }

  /** "TXN-{date}-{counter:04d}-{random:04X}". */
  function TransactionId(today: Today, counter: nat, random: nat): (id: string)
    ensures |id| > 4 && id[..4] == "TXN-"
  {
    "TXN-" + DateStamp(today) + "-" + FormatInt(counter, 4) + "-" + FormatHex(random, 4)
  }

  /** The counter embedded in a transaction ID: the third "-"-separated
      part read as a number. */
  function TransactionNumber(id: string): (n: Option<nat>)
    ensures n.Some? ==> |Split(id, '-')| >= 3 && IsDigits(Split(id, '-')[2])
  {
    var parts := Split(id, '-');
    if |parts| >= 3 then ParseInt(parts[2]) else None
  }

  /** In "TXN-{date}-{number}-{rest}" with no "-" in date or number, the
      third "-"-separated part is number. */
  lemma ThirdPart(date: string, number: string, rest: string)
    requires '-' !in date && '-' !in number
    ensures |Split("TXN-" + date + "-" + number + "-" + rest, '-')| >= 3
    ensures Split("TXN-" + date + "-" + number + "-" + rest, '-')[2] == number
  {
    assert "TXN-" + date + "-" + number + "-" + rest == "TXN" + ['-'] + (date + ['-'] + (number + ['-'] + rest));
    SplitAtFirst("TXN", '-', date + ['-'] + (number + ['-'] + rest));
    SplitAtFirst(date, '-', number + ['-'] + rest);
    SplitAtFirst(number, '-', rest);
  }

  /** Every transaction ID gives back the counter it was made from. */
  lemma TransactionIdNumber(today: Today, counter: nat, random: nat)
    ensures TransactionNumber(TransactionId(today, counter, random)) == Some(counter)
  {
    var date := DateStamp(today);
    var number := FormatInt(counter, 4);
    assert '-' !in date by {
      assert forall i :: 0 <= i < |date| ==> IsDigit(date[i]);
    }
    assert '-' !in number by {
      assert forall i :: 0 <= i < |number| ==> IsDigit(number[i]);
    }
    ThirdPart(date, number, FormatHex(random, 4));
    ParseFormatInt(counter, 4);
  }

  /** Transactions made from different counter values have different IDs,
      whatever the date and the random part. */
  lemma TransactionIdsDistinct(d1: Today, c1: nat, r1: nat, d2: Today, c2: nat, r2: nat)
    requires c1 != c2
    ensures TransactionId(d1, c1, r1) != TransactionId(d2, c2, r2)
  {
    TransactionIdNumber(d1, c1, r1);
    TransactionIdNumber(d2, c2, r2);
  }

  /** The class attribute Transaction.transaction_counter, shared by every
      transaction. */
  class TransactionCounter {
    var value: nat

    /** The attribute starts at 1000 when the class is defined. */
    constructor ()
      ensures value == 1000
    {
      value := 1000;
    }
  }

  /** A transaction: its fields never change after construction. */
  datatype Transaction = Transaction(transactionId: string, paymentId: string, amount: int,
                                     paymentMethod: string, status: string)

  /** Transaction.__init__: the ID embeds the counter before the increment,
      the status is "completed" and the counter goes up by one. */
  method NewTransaction(paymentId: string, amount: int, paymentMethod: string,
                        counter: TransactionCounter, today: Today, random: nat)
    returns (t: Transaction)
    modifies counter
    ensures t == Transaction(TransactionId(today, old(counter.value), random), paymentId, amount, paymentMethod, "completed")
    ensures counter.value == old(counter.value) + 1
  {
    var id := TransactionId(today, counter.value, random);
    t := Transaction(id, paymentId, amount, paymentMethod, "completed");
    counter.value := counter.value + 1;
  }

  // ---------------------------------------------------------------------
  // Payments
  // ---------------------------------------------------------------------

  /** What a payment keeps of the card: the masked details, and only for a
      card payment that came with details. */
  function KeptCardDetails(paymentMethod: string, cardDetails: Option<CardDetails>): (kept: Option<CardDetails>)
    ensures kept.Some? <==> AsciiLower(paymentMethod) == "card" && Present(cardDetails)
    ensures kept.Some? ==> (kept.value.Keys == MaskedKeys && CvvKey !in kept.value &&
      kept.value[CardNumberKey] == MaskCardNumber(Get(cardDetails.value, CardNumberKey)))
  {
    if AsciiLower(paymentMethod) == "card" && Present(cardDetails) then Some(MaskCardDetails(cardDetails.value))
    else None
  }

  class Payment {
    const paymentId: string
    const reservationId: string
    const customer: Customer
    const amount: int
    const paymentMethod: string
    const cardDetails: Option<CardDetails>
    var status: string
    var transaction: Option<Transaction>

    /** Payment.__init__: the method in lower case, status "pending", no
        transaction yet, card details masked or dropped. The payment ID,
        a random UUID in the source, is given. */
    constructor (paymentId: string, reservationId: string, customer: Customer, amount: int,
                 paymentMethod: string, cardDetails: Option<CardDetails>)
      ensures this.paymentId == paymentId && this.reservationId == reservationId
      ensures this.customer == customer && this.amount == amount
      ensures this.paymentMethod == AsciiLower(paymentMethod)
      ensures this.cardDetails == KeptCardDetails(paymentMethod, cardDetails)
      ensures status == "pending" && transaction == None
    {
      this.paymentId := paymentId;
      this.reservationId := reservationId;
      this.customer := customer;
      this.amount := amount;
      this.paymentMethod := AsciiLower(paymentMethod);
      this.cardDetails := KeptCardDetails(paymentMethod, cardDetails);
      status := "pending";
      transaction := None;
    }

    /** Payment.create_transaction: a new transaction for this payment's
        ID, amount and method, remembered by the payment. */
    method CreateTransaction(counter: TransactionCounter, today: Today, random: nat) returns (t: Transaction)
      modifies this, counter
      ensures t == Transaction(TransactionId(today, old(counter.value), random), paymentId, amount, paymentMethod, "completed")
      ensures transaction == Some(t) && status == old(status)
      ensures counter.value == old(counter.value) + 1
    {
      t := NewTransaction(paymentId, amount, paymentMethod, counter, today, random);
      transaction := Some(t);
    }
  }

  /** The dictionary process_payment returns. */
  datatype PaymentResult = PaymentFailed(message: string) | PaymentProcessed(paymentId: string, transactionId: string)

  const InvalidMethod: string := "Invalid payment method. Must be 'card' or 'cash'."
  const InvalidAmount: string := "Invalid payment amount. Amount must be greater than zero."
  const DetailsRequired: string := "Card details are required for card payments."

  /** Why process_payment refuses a request, checked in the source's order,
      or None when it goes through. Amounts are in cents. */
  function Rejection(paymentMethod: string, amount: int, cardDetails: Option<CardDetails>, today: Today): (reason: Option<string>)
    ensures reason.None? <==>
      && (AsciiLower(paymentMethod) == "card" || AsciiLower(paymentMethod) == "cash")
      && amount > 0
      && (AsciiLower(paymentMethod) == "card" ==>
            Present(cardDetails) && ValidateCardDetails(cardDetails.value, today.year, today.month).ok)
    ensures AsciiLower(paymentMethod) != "card" && AsciiLower(paymentMethod) != "cash" ==> reason == Some(InvalidMethod)
  {
    var lowered := AsciiLower(paymentMethod);
    if lowered != "card" && lowered != "cash" then Some(InvalidMethod)
    else if amount <= 0 then Some(InvalidAmount)
    else if lowered == "card" && !Present(cardDetails) then Some(DetailsRequired)
    else if lowered == "card" && !ValidateCardDetails(cardDetails.value, today.year, today.month).ok then
      Some("Card validation failed: " + ValidateCardDetails(cardDetails.value, today.year, today.month).message)
    else None
  }

  /** Every stored transaction is filed under its own ID, and that ID
      embeds a counter value below next. */
  ghost predicate StoreBelow(db: map<string, Transaction>, next: nat)
  {
    forall id :: id in db ==>
      db[id].transactionId == id && TransactionNumber(id).Some? && TransactionNumber(id).value < next
  }

  /** Filing the transaction made from counter value next under its ID
      adds a key the store did not have and keeps the invariant for the
      raised counter. */
  lemma StoreInsert(db: map<string, Transaction>, next: nat, today: Today, random: nat, t: Transaction)
    requires StoreBelow(db, next) && t.transactionId == TransactionId(today, next, random)
    ensures t.transactionId !in db
    ensures StoreBelow(db[t.transactionId := t], next + 1)
  {
    TransactionIdNumber(today, next, random);
  }

  class PaymentController {
    var paymentsDb: map<string, Payment>
    var transactionsDb: map<string, Transaction>
    const counter: TransactionCounter

    /** The transaction store is keyed by ID and every ID embeds a counter
        value already used: a new transaction can never overwrite a stored
        one. */
    ghost predicate Valid()
      reads this, counter
    {
      StoreBelow(transactionsDb, counter.value)
    }

    /** PaymentController.__init__: both stores empty. */
    constructor (counter: TransactionCounter)
      ensures this.counter == counter
      ensures paymentsDb == map[] && transactionsDb == map[]
      ensures Valid()
    {
      this.counter := counter;
      paymentsDb := map[];
      transactionsDb := map[];
    }

    /** PaymentController.process_payment: a refused request changes
        nothing; an accepted one stores exactly one new payment, marked
        "completed", and exactly one new transaction, under fresh keys for
        the transaction. */
    method ProcessPayment(reservationId: string, customer: Customer, amount: int, paymentMethod: string,
                          cardDetails: Option<CardDetails>, paymentId: string, today: Today, random: nat)
      returns (result: PaymentResult)
      requires Valid()
      modifies this, counter
      ensures Valid()
      ensures result.PaymentFailed? <==> Rejection(paymentMethod, amount, cardDetails, today).Some?
      ensures result.PaymentFailed? ==>
        result.message == Rejection(paymentMethod, amount, cardDetails, today).value &&
        paymentsDb == old(paymentsDb) && transactionsDb == old(transactionsDb) && counter.value == old(counter.value)
      ensures result.PaymentProcessed? ==> (
        var tid := TransactionId(today, old(counter.value), random);
        && result == PaymentProcessed(paymentId, tid)
        && tid !in old(transactionsDb)
        && transactionsDb == old(transactionsDb)[tid := Transaction(tid, paymentId, amount, AsciiLower(paymentMethod), "completed")]
        && paymentId in paymentsDb && paymentsDb == old(paymentsDb)[paymentId := paymentsDb[paymentId]]
        && fresh(paymentsDb[paymentId])
        && paymentsDb[paymentId].paymentId == paymentId
        && paymentsDb[paymentId].paymentMethod == AsciiLower(paymentMethod)
        && paymentsDb[paymentId].status == "completed"
        && paymentsDb[paymentId].transaction == Some(transactionsDb[tid])
        && paymentsDb[paymentId].reservationId == reservationId && paymentsDb[paymentId].customer == customer
        && paymentsDb[paymentId].amount == amount
        && paymentsDb[paymentId].cardDetails == KeptCardDetails(paymentMethod, cardDetails)
        && counter.value == old(counter.value) + 1)
    {
      var reason := Rejection(paymentMethod, amount, cardDetails, today);
      if reason.Some? {
        return PaymentFailed(reason.value);
      }
      result := Record(reservationId, customer, amount, paymentMethod, cardDetails, paymentId, today, random);
    }

    /** The accepted half of process_payment: a new payment, its
        transaction, the payment marked "completed" and both filed. */
    method Record(reservationId: string, customer: Customer, amount: int, paymentMethod: string,
                  cardDetails: Option<CardDetails>, paymentId: string, today: Today, random: nat)
      returns (result: PaymentResult)
      requires Valid()
      modifies this, counter
      ensures Valid()
      ensures (
        var tid := TransactionId(today, old(counter.value), random);
        && result == PaymentProcessed(paymentId, tid)
        && tid !in old(transactionsDb)
        && transactionsDb == old(transactionsDb)[tid := Transaction(tid, paymentId, amount, AsciiLower(paymentMethod), "completed")]
        && paymentId in paymentsDb && paymentsDb == old(paymentsDb)[paymentId := paymentsDb[paymentId]]
        && fresh(paymentsDb[paymentId])
        && paymentsDb[paymentId].paymentId == paymentId
        && paymentsDb[paymentId].paymentMethod == AsciiLower(paymentMethod)
        && paymentsDb[paymentId].status == "completed"
        && paymentsDb[paymentId].transaction == Some(transactionsDb[tid])
        && paymentsDb[paymentId].reservationId == reservationId && paymentsDb[paymentId].customer == customer
        && paymentsDb[paymentId].amount == amount
        && paymentsDb[paymentId].cardDetails == KeptCardDetails(paymentMethod, cardDetails)
        && counter.value == old(counter.value) + 1)
    {
      ghost var next := counter.value;
      var payment := new Payment(paymentId, reservationId, customer, amount, paymentMethod, cardDetails);
      var transaction := payment.CreateTransaction(counter, today, random);
      payment.status := "completed";
      StoreInsert(transactionsDb, next, today, random, transaction);
      paymentsDb := paymentsDb[payment.paymentId := payment];
      transactionsDb := transactionsDb[transaction.transactionId := transaction];
      return PaymentProcessed(payment.paymentId, transaction.transactionId);
    }
  }
}
