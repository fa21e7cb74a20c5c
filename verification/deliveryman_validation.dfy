/**
 * The request schema of the delivery-man assignment endpoint: `order_id`,
 * `name` and `phone_number`, each a required string, the name at least two
 * characters long and the phone number, once trimmed, a loose phone pattern.
 */
module DeliveryManValidation {
  import opened Wrappers
  import opened JsValues
  import opened Joi

  /** The request body as received. */
  datatype DeliveryManBody = DeliveryManBody(orderId: Value, name: Value, phoneNumber: Value)

  /** The body once the schema accepted it; the phone number is the trimmed one. */
  datatype DeliveryManData = DeliveryManData(orderId: string, name: string, phoneNumber: string)

  const OrderIdRequired := "Order ID is required"
  const NameRequired := "Delivery man name is required"
  const NameTooShort := "Name must be at least 2 characters long"
  const PhoneRequired := "Phone number is required"
  const PhoneInvalid := "Please enter a valid phone number"

  /** The character class `[\d\s\-()]`. */
  predicate PhoneChar(c: char)
  {
    IsDigit(c) || IsSpace(c) || c == '-' || c == '(' || c == ')'
  }

  predicate AllPhoneChars(s: string)
  {
    forall i :: 0 <= i < |s| ==> PhoneChar(s[i])
  }

  /**
   * `^[+]?[\d\s\-()]+$`: an optional leading plus, then one or more
   * characters of the phone class. The plus is not in the class, so the
   * optional plus matches exactly when the string starts with one.
   */
  predicate PhonePattern(s: string)
  {
    var rest := if s != [] && s[0] == '+' then s[1..] else s;
    rest != [] && AllPhoneChars(rest)
  }

  /** The states of a recogniser for the phone pattern, read left to right. */
  datatype PhoneState = Start | Signed | InNumber | Rejected

  function PhoneStep(q: PhoneState, c: char): PhoneState
  {
    match q
    case Start => if c == '+' then Signed else if PhoneChar(c) then InNumber else Rejected
    case Signed => if PhoneChar(c) then InNumber else Rejected
    case InNumber => if PhoneChar(c) then InNumber else Rejected
    case Rejected => Rejected
  }

  function PhoneRun(q: PhoneState, s: string): PhoneState
    decreases |s|
  {
    if s == [] then q else PhoneRun(PhoneStep(q, s[0]), s[1..])
  }

  lemma {:induction false} RejectedStays(s: string)
    ensures PhoneRun(Rejected, s) == Rejected
    decreases |s|
  {
    if s != [] {
      RejectedStays(s[1..]);
    }
  }

  lemma {:induction false} InNumberRun(s: string)
    ensures PhoneRun(InNumber, s) == InNumber <==> AllPhoneChars(s)
    decreases |s|
  {
    if s != [] {
      InNumberRun(s[1..]);
      RejectedStays(s[1..]);
      assert AllPhoneChars(s) <==> PhoneChar(s[0]) && AllPhoneChars(s[1..]) by {
        if PhoneChar(s[0]) && AllPhoneChars(s[1..]) {
          forall i | 0 <= i < |s| ensures PhoneChar(s[i]) {
            if i > 0 { assert s[i] == s[1..][i - 1]; }
          }
        }
      }
    }
  }

  /** The recogniser accepts exactly the strings the pattern matches. */
  lemma PhoneRecogniserAgrees(s: string)
    ensures PhoneRun(Start, s) == InNumber <==> PhonePattern(s)
  {
    if s != [] {
      RejectedStays(s[1..]);
      if s[0] == '+' {
        var rest := s[1..];
        if rest != [] {
          InNumberRun(rest[1..]);
          RejectedStays(rest[1..]);
          assert AllPhoneChars(rest) <==> PhoneChar(rest[0]) && AllPhoneChars(rest[1..]) by {
            if PhoneChar(rest[0]) && AllPhoneChars(rest[1..]) {
              forall i | 0 <= i < |rest| ensures PhoneChar(rest[i]) {
                if i > 0 { assert rest[i] == rest[1..][i - 1]; }
              }
            }
          }
        }
      } else {
        InNumberRun(s[1..]);
        assert AllPhoneChars(s) <==> PhoneChar(s[0]) && AllPhoneChars(s[1..]) by {
          if PhoneChar(s[0]) && AllPhoneChars(s[1..]) {
            forall i | 0 <= i < |s| ensures PhoneChar(s[i]) {
              if i > 0 { assert s[i] == s[1..][i - 1]; }
            }
          }
        }
      }
    }
  }

  /** The `order_id` key: a required, non-empty string. */
  function CheckOrderId(v: Value): (r: Check<string>)
    ensures r.Pass? <==> v.Str? && v.s != ""
    ensures r.Pass? ==> r.value == v.s
    ensures (v.Undefined? || v == Str("")) ==> r == Fail(OrderIdRequired)
  {
    RequiredString(v, "order_id", OrderIdRequired, OrderIdRequired)
  }

  /** The `name` key: a required string of at least two characters. */
  function CheckName(v: Value): (r: Check<string>)
    ensures r.Pass? <==> v.Str? && |v.s| >= 2
    ensures r.Pass? ==> r.value == v.s
    ensures (v.Undefined? || v == Str("")) ==> r == Fail(NameRequired)
    ensures v.Str? && |v.s| == 1 ==> r == Fail(NameTooShort)
  {
    match v
    case Str(s) =>
      if s == "" then Fail(NameRequired)
      else if |s| < 2 then Fail(NameTooShort)
      else Pass(s)
    case _ => RequiredString(v, "name", NameRequired, NameRequired)
  }

  /**
   * The `phone_number` key: a required string, trimmed before it is checked;
   * the trimmed string is what the schema hands on.
   */
  function CheckPhone(v: Value): (r: Check<string>)
    ensures r.Pass? <==> v.Str? && PhonePattern(Trim(v.s))
    ensures r.Pass? ==> r.value == Trim(v.s)
    ensures v.Undefined? || (v.Str? && Trim(v.s) == "") ==> r == Fail(PhoneRequired)
    ensures v.Str? && Trim(v.s) != "" && !PhonePattern(Trim(v.s)) ==> r == Fail(PhoneInvalid)
  {
    match v
    case Str(s) =>
      var t := Trim(s);
      if t == "" then Fail(PhoneRequired)
      else if !PhonePattern(t) then Fail(PhoneInvalid)
      else Pass(t)
    case _ => RequiredString(v, "phone_number", PhoneRequired, PhoneRequired)
  }

  /** What the schema accepts, stated key by key. */
  predicate Acceptable(b: DeliveryManBody)
  {
    && b.orderId.Str? && b.orderId.s != ""
    && b.name.Str? && |b.name.s| >= 2
    && b.phoneNumber.Str? && PhonePattern(Trim(b.phoneNumber.s))
  }

  /**
   * The whole schema: either the converted body, or one message for each
   * failing key in the order the keys are declared.
   */
  function Validate(b: DeliveryManBody): (r: Result<DeliveryManData, seq<string>>)
    ensures r.Ok? <==> Acceptable(b)
    ensures r.Ok? ==> r.value == DeliveryManData(b.orderId.s, b.name.s, Trim(b.phoneNumber.s))
    ensures r.Err? ==> 1 <= |r.error| <= 3
    ensures r.Err? ==> r.error == Messages(CheckOrderId(b.orderId)) + Messages(CheckName(b.name))
                                  + Messages(CheckPhone(b.phoneNumber))
  {
    var id := CheckOrderId(b.orderId);
    var name := CheckName(b.name);
    var phone := CheckPhone(b.phoneNumber);
    if id.Pass? && name.Pass? && phone.Pass? then
      Ok(DeliveryManData(id.value, name.value, phone.value))
    else
      Err(Messages(id) + Messages(name) + Messages(phone))
  }

  /** An empty body is refused with the three required-field messages, in key order. */
  lemma EmptyBodyMessages()
    ensures Validate(DeliveryManBody(Undefined, Undefined, Undefined))
         == Err([OrderIdRequired, NameRequired, PhoneRequired])
  {
    var b := DeliveryManBody(Undefined, Undefined, Undefined);
    assert CheckOrderId(b.orderId) == Fail(OrderIdRequired);
    assert CheckName(b.name) == Fail(NameRequired);
    assert CheckPhone(b.phoneNumber) == Fail(PhoneRequired);
    assert [OrderIdRequired] + [NameRequired] + [PhoneRequired] == [OrderIdRequired, NameRequired, PhoneRequired];
  }

  /**
   * A key reports a message exactly when its own rules fail: with a valid
   * order id and phone, a one-letter name yields just the length message.
   */
  lemma ShortNameOnlyMessage(orderId: string, name: char, phone: string)
    requires orderId != "" && PhonePattern(Trim(phone))
    ensures Validate(DeliveryManBody(Str(orderId), Str([name]), Str(phone))) == Err([NameTooShort])
  {
    var b := DeliveryManBody(Str(orderId), Str([name]), Str(phone));
    assert CheckOrderId(b.orderId).Pass?;
    assert CheckName(b.name) == Fail(NameTooShort);
    assert CheckPhone(b.phoneNumber).Pass?;
    assert [] + [NameTooShort] + [] == [NameTooShort];
  }

  /** A plus sign anywhere but first makes the phone number invalid. */
  lemma PlusOnlyFirst(s: string, i: int)
    requires 0 < i < |Trim(s)| && Trim(s)[i] == '+'
    ensures CheckPhone(Str(s)) == Fail(PhoneInvalid)
  {
  }

  /** White space around the phone number never decides the outcome. */
  lemma PhonePaddingIgnored(p: string, s: string, q: string)
    requires AllSpace(p) && AllSpace(q)
    ensures CheckPhone(Str(p + s + q)) == CheckPhone(Str(s))
  {
    TrimIgnoresPadding(p, s, q);
  }

  /** A lone plus is rejected; brackets alone are accepted. */
  lemma PhoneEdgeCases()
    ensures !PhonePattern("+")
    ensures PhonePattern("()")
    ensures PhonePattern("+880 1711-000000")
    ensures !PhonePattern("1+2")
  {
    assert "+"[1..] == [];
    assert "1+2"[1] == '+';
  }

  /** The phone number the schema hands on matches the pattern and is already trimmed. */
  lemma AcceptedPhoneIsClean(b: DeliveryManBody)
    requires Validate(b).Ok?
    ensures PhonePattern(Validate(b).value.phoneNumber)
    ensures Tight(Validate(b).value.phoneNumber)
    ensures Trim(Validate(b).value.phoneNumber) == Validate(b).value.phoneNumber
  {
  }
}
