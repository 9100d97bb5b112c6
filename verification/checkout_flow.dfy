/** The three-step checkout wizard (components/checkout-form.tsx): the form
    record and its all-empty defaults, the combined `checkoutSchema`, the
    `stepFields` table, and the `handleNext` / `handlePrev` / `onSubmit`
    transitions. Email syntax is zod's own regular expression, which lives in
    the library, so every validator takes it as the parameter `isEmail`. */
module CheckoutFlow {
  import opened CheckoutRules
  import opened CartStore

  datatype Field =
    | FirstName | LastName | Email | Phone
    | Street | City | PostalCode | Country
    | CardNumber | ExpiryDate | Cvv | CardHolder | AcceptTerms | RecaptchaToken

  /** `CheckoutFormValues`: the fourteen fields of the merged schema. */
  datatype FormValues = FormValues(
    firstName: string, lastName: string, email: string, phone: string,
    street: string, city: string, postalCode: string, country: string,
    cardNumber: string, expiryDate: string, cvv: string, cardHolder: string,
    acceptTerms: bool, recaptchaToken: string)

  /** `defaultValues` passed to `useForm`. */
  const DefaultValues := FormValues("", "", "", "", "", "", "", "", "", "", "", "", false, "")

  /** `STEPS.length` */
  const StepCount := 3

  predicate ValidStep(step: int) {
    0 <= step < StepCount
  }

  /** The `stepFields` table. */
  function StepFields(step: int): seq<Field>
    requires ValidStep(step)
  {
    if step == 0 then [FirstName, LastName, Email, Phone]
    else if step == 1 then [Street, City, PostalCode, Country]
    else [CardNumber, ExpiryDate, Cvv, CardHolder, AcceptTerms, RecaptchaToken]
  }

  /** The step whose group lists `f`. */
  function StepOf(f: Field): (step: int)
    ensures ValidStep(step)
  {
    match f
    case FirstName | LastName | Email | Phone => 0
    case Street | City | PostalCode | Country => 1
    case CardNumber | ExpiryDate | Cvv | CardHolder | AcceptTerms | RecaptchaToken => 2
  }

  /** The step groups partition the fields: every field of the form is listed
      in exactly one step's group. */
  lemma StepFieldsPartition(f: Field, step: int)
    requires ValidStep(step)
    ensures f in StepFields(step) <==> step == StepOf(f)
  {
    var fields := StepFields(step);
    if step == StepOf(f) {
      match f
      case FirstName => assert fields[0] == f;
      case LastName => assert fields[1] == f;
      case Email => assert fields[2] == f;
      case Phone => assert fields[3] == f;
      case Street => assert fields[0] == f;
      case City => assert fields[1] == f;
      case PostalCode => assert fields[2] == f;
      case Country => assert fields[3] == f;
      case CardNumber => assert fields[0] == f;
      case ExpiryDate => assert fields[1] == f;
      case Cvv => assert fields[2] == f;
      case CardHolder => assert fields[3] == f;
      case AcceptTerms => assert fields[4] == f;
      case RecaptchaToken => assert fields[5] == f;
    }
  }

  /** No group lists a field twice; the groups hold the fourteen fields. */
  lemma StepFieldsDistinct(step: int)
    requires ValidStep(step)
    ensures forall i, j :: 0 <= i < j < |StepFields(step)| ==> StepFields(step)[i] != StepFields(step)[j]
    ensures |StepFields(0)| + |StepFields(1)| + |StepFields(2)| == 14
  {
  }

  /** The rule `checkoutSchema` applies to one field; every refinement in the
      merged schema is attached to a single field. */
  predicate FieldValid(form: FormValues, field: Field, isEmail: string -> bool) {
    match field
    case FirstName => LengthBetween(form.firstName, 2, 50)
    case LastName => LengthBetween(form.lastName, 2, 50)
    case Email => isEmail(form.email)
    case Phone => PhoneValid(form.phone)
    case Street => MinLength(form.street, 3)
    case City => MinLength(form.city, 2)
    case PostalCode => PostalValid(form.postalCode)
    case Country => MinLength(form.country, 1)
    case CardNumber => CardNumberValid(form.cardNumber)
    case ExpiryDate => ExpiryValid(form.expiryDate)
    case Cvv => CvvValid(form.cvv)
    case CardHolder => CardHolderValid(form.cardHolder)
    case AcceptTerms => form.acceptTerms
    case RecaptchaToken => MinLength(form.recaptchaToken, 1)
  }

  /** `personalSchema.merge(addressSchema).merge(...)` as one predicate. */
  predicate SchemaValid(form: FormValues, isEmail: string -> bool) {
    && LengthBetween(form.firstName, 2, 50)
    && LengthBetween(form.lastName, 2, 50)
    && isEmail(form.email)
    && PhoneValid(form.phone)
    && MinLength(form.street, 3)
    && MinLength(form.city, 2)
    && PostalValid(form.postalCode)
    && MinLength(form.country, 1)
    && CardNumberValid(form.cardNumber)
    && ExpiryValid(form.expiryDate)
    && CvvValid(form.cvv)
    && CardHolderValid(form.cardHolder)
    && form.acceptTerms
    && MinLength(form.recaptchaToken, 1)
  }

  /** `form.trigger(stepFields[step])`: only the current step's fields. */
  predicate StepValid(form: FormValues, step: int, isEmail: string -> bool)
    requires ValidStep(step)
  {
    forall f :: f in StepFields(step) ==> FieldValid(form, f, isEmail)
  }

  lemma PersonalStep(form: FormValues, isEmail: string -> bool)
    ensures StepValid(form, 0, isEmail) <==>
      && LengthBetween(form.firstName, 2, 50) && LengthBetween(form.lastName, 2, 50)
      && isEmail(form.email) && PhoneValid(form.phone)
  {
    var fields := StepFields(0);
    assert fields == [FirstName, LastName, Email, Phone];
    assert fields[0] == FirstName;
    assert fields[1] == LastName;
    assert fields[2] == Email;
    assert fields[3] == Phone;
    if
      && FieldValid(form, FirstName, isEmail)
      && FieldValid(form, LastName, isEmail)
      && FieldValid(form, Email, isEmail)
      && FieldValid(form, Phone, isEmail)
    {
      forall f | f in fields ensures FieldValid(form, f, isEmail) {
        assert f == FirstName || f == LastName || f == Email || f == Phone;
      }
    }
  }

  lemma AddressStep(form: FormValues, isEmail: string -> bool)
    ensures StepValid(form, 1, isEmail) <==>
      && MinLength(form.street, 3) && MinLength(form.city, 2)
      && PostalValid(form.postalCode) && MinLength(form.country, 1)
  {
    FourFieldStep(form, 1, isEmail, Street, City, PostalCode, Country);
  }

  /** A step of four fields is valid exactly when each of the four is. */
  lemma FourFieldStep(form: FormValues, step: int, isEmail: string -> bool, a: Field, b: Field, c: Field, d: Field)
    requires ValidStep(step) && StepFields(step) == [a, b, c, d]
    ensures StepValid(form, step, isEmail) <==>
      FieldValid(form, a, isEmail) && FieldValid(form, b, isEmail) &&
      FieldValid(form, c, isEmail) && FieldValid(form, d, isEmail)
  {
    var fields := StepFields(step);
    assert fields[0] == a && fields[1] == b && fields[2] == c && fields[3] == d;
  }

  lemma PaymentStep(form: FormValues, isEmail: string -> bool)
    ensures StepValid(form, 2, isEmail) <==>
      && CardNumberValid(form.cardNumber) && ExpiryValid(form.expiryDate)
      && CvvValid(form.cvv) && CardHolderValid(form.cardHolder)
      && form.acceptTerms && MinLength(form.recaptchaToken, 1)
  {
    var fields := StepFields(2);
    assert fields == [CardNumber, ExpiryDate, Cvv, CardHolder, AcceptTerms, RecaptchaToken];
    assert fields[0] == CardNumber;
    assert fields[1] == ExpiryDate;
    assert fields[2] == Cvv;
    assert fields[3] == CardHolder;
    assert fields[4] == AcceptTerms;
    assert fields[5] == RecaptchaToken;
    if
      && FieldValid(form, CardNumber, isEmail)
      && FieldValid(form, ExpiryDate, isEmail)
      && FieldValid(form, Cvv, isEmail)
      && FieldValid(form, CardHolder, isEmail)
      && FieldValid(form, AcceptTerms, isEmail)
      && FieldValid(form, RecaptchaToken, isEmail)
    {
      forall f | f in fields ensures FieldValid(form, f, isEmail) {
        assert f == CardNumber || f == ExpiryDate || f == Cvv || f == CardHolder || f == AcceptTerms || f == RecaptchaToken;
      }
    }
  }

  /** The whole schema holds exactly when each of the three steps does. */
  lemma SchemaIsAllSteps(form: FormValues, isEmail: string -> bool)
    ensures SchemaValid(form, isEmail) <==>
      StepValid(form, 0, isEmail) && StepValid(form, 1, isEmail) && StepValid(form, 2, isEmail)
  {
    PersonalStep(form, isEmail);
    AddressStep(form, isEmail);
    PaymentStep(form, isEmail);
  }

  // ---------------------------------------------------------------------
  // The wizard.

  /** What the checkout page holds: the current step, whether the success
      dialog is open, and the cart it clears on a successful order. */
  datatype Checkout = Checkout(step: int, showSuccess: bool, cart: CartState)

  /** `handleNext`, as one click handled after the page has re-rendered for
      the current step. */
  function HandleNext(c: Checkout, form: FormValues, isEmail: string -> bool): (r: Checkout)
    requires ValidStep(c.step)
    ensures ValidStep(r.step)
    ensures r.step != c.step ==> StepValid(form, c.step, isEmail) && r.step == c.step + 1
    ensures StepValid(form, c.step, isEmail) && c.step < StepCount - 1 ==> r.step == c.step + 1
    ensures r.showSuccess == c.showSuccess && r.cart == c.cart
  {
    HandleNextFrom(c, c.step, form, isEmail)
  }

  /** `handleNext` from a render for step `rendered`: the closure validates
      `stepFields[rendered]`, then `setStep((s) => Math.min(s + 1, 2))`
      advances whatever step the page holds when validation resolves. */
  function HandleNextFrom(c: Checkout, rendered: int, form: FormValues, isEmail: string -> bool): (r: Checkout)
    requires ValidStep(c.step) && ValidStep(rendered)
    ensures ValidStep(r.step)
    ensures r.step != c.step ==> StepValid(form, rendered, isEmail) && r.step == c.step + 1
    ensures StepValid(form, rendered, isEmail) && c.step < StepCount - 1 ==> r.step == c.step + 1
    ensures r.showSuccess == c.showSuccess && r.cart == c.cart
  {
    if StepValid(form, rendered, isEmail) then
      c.(step := if c.step + 1 < StepCount - 1 then c.step + 1 else StepCount - 1)
    else c
  }

  /** `handlePrev` */
  function HandlePrev(c: Checkout): (r: Checkout)
    requires ValidStep(c.step)
    ensures ValidStep(r.step)
    ensures c.step > 0 ==> r.step == c.step - 1
    ensures c.step == 0 ==> r.step == 0
    ensures r.showSuccess == c.showSuccess && r.cart == c.cart
  {
    c.(step := if c.step - 1 > 0 then c.step - 1 else 0)
  }

  /** `form.handleSubmit(onSubmit)`. Only the payment step renders a
      `type="submit"` button ("Wstecz" and "Dalej" are `type="button"`), so a
      submission happens on the last step alone; the resolver checks the
      whole schema, and only then does `onSubmit` open the dialog and clear
      the cart. */
  function HandleSubmit(c: Checkout, form: FormValues, isEmail: string -> bool): (r: Checkout)
    ensures c.step == StepCount - 1 && SchemaValid(form, isEmail) ==>
      r.showSuccess && r.cart.items == [] && r.step == c.step
    ensures c.step != StepCount - 1 || !SchemaValid(form, isEmail) ==> r == c
  {
    if c.step == StepCount - 1 && SchemaValid(form, isEmail) then
      c.(showSuccess := true, cart := Reduce(c.cart, ClearCart))
    else c
  }

  /** A user action on the checkout page. */
  datatype Event = Next(form: FormValues) | Prev | Submit(form: FormValues)

  function Apply(c: Checkout, e: Event, isEmail: string -> bool): (r: Checkout)
    requires ValidStep(c.step)
    ensures ValidStep(r.step)
  {
    match e
    case Next(form) => HandleNext(c, form, isEmail)
    case Prev => HandlePrev(c)
    case Submit(form) => HandleSubmit(c, form, isEmail)
  }

  function RunEvents(c: Checkout, events: seq<Event>, isEmail: string -> bool): (r: Checkout)
    requires ValidStep(c.step)
    ensures ValidStep(r.step)
    decreases |events|
  {
    if |events| == 0 then c else RunEvents(Apply(c, events[0], isEmail), events[1..], isEmail)
  }

  /** To reach step `t` above the starting step, some "next" action had to
      carry a form valid for step `t - 1`: the payment step is only reached
      through a valid address step, which is only reached through a valid
      personal step. */
  lemma {:induction false} AdvanceNeedsValidStep(c: Checkout, events: seq<Event>, isEmail: string -> bool, t: int)
    requires ValidStep(c.step)
    requires c.step < t <= RunEvents(c, events, isEmail).step
    ensures exists i :: 0 <= i < |events| && events[i].Next? && StepValid(events[i].form, t - 1, isEmail)
    decreases |events|
  {
    var c' := Apply(c, events[0], isEmail);
    if t <= c'.step {
      assert events[0].Next?;
    } else {
      AdvanceNeedsValidStep(c', events[1..], isEmail, t);
      var i :| 0 <= i < |events[1..]| && events[1..][i].Next? && StepValid(events[1..][i].form, t - 1, isEmail);
      assert events[i + 1] == events[1..][i];
    }
  }

  /** Two "Dalej" clicks handled before the page re-renders both validate
      the personal step they were rendered for, and together advance past the
      address step without checking it; handled one at a time, the second
      click stops at the invalid address step. */
  lemma StaleDoubleNextSkipsAddress(c: Checkout, isEmail: string -> bool)
    requires c.step == 0
    requires isEmail("jan@example.com")
    ensures var form := DefaultValues.(firstName := "Jan", lastName := "Kowalski",
                                        email := "jan@example.com", phone := "123456789");
      && StepValid(form, 0, isEmail) && !StepValid(form, 1, isEmail)
      && HandleNextFrom(HandleNextFrom(c, 0, form, isEmail), 0, form, isEmail).step == 2
      && HandleNext(HandleNext(c, form, isEmail), form, isEmail).step == 1
  {
    var form := DefaultValues.(firstName := "Jan", lastName := "Kowalski",
                               email := "jan@example.com", phone := "123456789");
    SampleLengths();
    SamplePhoneAccepted();
    PersonalStep(form, isEmail);
    assert !FieldValid(form, Street, isEmail);
    assert StepFields(1)[0] == Street;
  }

  /** The cart changes on this page only through a submission whose form
      satisfied the whole schema, and then it is empty. */
  lemma {:induction false} CartChangesOnlyOnValidSubmit(c: Checkout, events: seq<Event>, isEmail: string -> bool)
    requires ValidStep(c.step)
    requires RunEvents(c, events, isEmail).cart != c.cart
    ensures exists i :: 0 <= i < |events| && events[i].Submit? && SchemaValid(events[i].form, isEmail)
    decreases |events|
  {
    var c' := Apply(c, events[0], isEmail);
    if c'.cart != c.cart {
      assert events[0].Submit?;
    } else {
      CartChangesOnlyOnValidSubmit(c', events[1..], isEmail);
      var i :| 0 <= i < |events[1..]| && events[1..][i].Submit? && SchemaValid(events[1..][i].form, isEmail);
      assert events[i + 1] == events[1..][i];
    }
  }

  /** The all-empty defaults fail every step, so "next" from the first step
      stays put and a submission of the defaults changes nothing. */
  lemma DefaultsFailEveryStep(c: Checkout, isEmail: string -> bool)
    requires c.step == 0
    ensures !StepValid(DefaultValues, 0, isEmail)
    ensures !StepValid(DefaultValues, 1, isEmail)
    ensures !StepValid(DefaultValues, 2, isEmail)
    ensures HandleNext(c, DefaultValues, isEmail) == c
    ensures HandleSubmit(c, DefaultValues, isEmail) == c
  {
    assert !FieldValid(DefaultValues, FirstName, isEmail);
    assert !FieldValid(DefaultValues, Street, isEmail);
    assert !FieldValid(DefaultValues, CardNumber, isEmail);
  }

  /** A form that is complete except for the unticked terms box is refused
      and the cart is kept. */
  lemma TermsRequired(c: Checkout, form: FormValues, isEmail: string -> bool)
    requires !form.acceptTerms
    ensures HandleSubmit(c, form, isEmail) == c
  {
  }

  lemma SampleLengths()
    ensures LengthBetween("Jan", 2, 50) && LengthBetween("Kowalski", 2, 50)
    ensures MinLength("Dluga 1", 3) && MinLength("Gdansk", 2)
    ensures MinLength("PL", 1) && MinLength("abc", 1)
  {
    JsLengthBmp("Jan");
    JsLengthBmp("Kowalski");
    JsLengthBmp("Dluga 1");
    JsLengthBmp("Gdansk");
  }

  /** The address and payment data of a complete order pass their steps. */
  lemma SampleOrderAccepted(isEmail: string -> bool)
    ensures var form := FormValues(
      "Jan", "Kowalski", "jan@example.com", "123456789",
      "Dluga 1", "Gdansk", "00-000", "PL",
      "1234567890123456", "12/27", "123", "Jan Kowalski", true, "abc");
      && StepValid(form, 1, isEmail)
      && StepValid(form, 2, isEmail)
      && (isEmail(form.email) ==> SchemaValid(form, isEmail))
  {
    var form := FormValues(
      "Jan", "Kowalski", "jan@example.com", "123456789",
      "Dluga 1", "Gdansk", "00-000", "PL",
      "1234567890123456", "12/27", "123", "Jan Kowalski", true, "abc");
    PostalValidIffShape("00-000");
    SampleLengths();
    SamplePaymentAccepted();
    SamplePhoneAccepted();
    AddressStep(form, isEmail);
    PaymentStep(form, isEmail);
  }
}
