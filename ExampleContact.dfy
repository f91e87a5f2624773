/**
 * The contact form of the example site (resources/example/src/components/Contact.tsx).
 * Same state cells, rules and honeypot as the main copy, but the submission goes through
 * `submitContactForm`, whose endpoint is the build-time setting `VITE_FORM_ENDPOINT`.
 * The asynchronous parts are separate events: the honeypot delay, the settlement of
 * `submitContactForm`, and the 5-second timer that clears the banner.
 */
module ExampleContact {
  import opened Wrappers
  import opened JsString
  import opened Http
  import opened FormRules
  import opened ContactApi

  /** The step of a submission that is still outstanding; a call in progress keeps its payload. */
  datatype InFlight = Idle | SpamDelay | AwaitingResult(payload: ContactFormData)

  class ContactForm {
    /** `import.meta.env.VITE_FORM_ENDPOINT`, fixed when the site is built. */
    const endpoint: Option<string>
    var formData: FormData
    var errors: FieldErrors
    var isSubmitting: bool
    var submitMessage: StatusMessage
    var inFlight: InFlight
    /** The number of 5-second banner-clearing timers scheduled and not yet fired. */
    var pendingClears: nat
    /** The payload of every call to `submitContactForm`, oldest first. */
    var calls: seq<ContactFormData>
    /** Every request those calls handed to `fetch`, oldest first. */
    var requests: seq<HttpRequest<ContactFormData>>

    /**
     * The button is disabled exactly while a submission is outstanding, a banner is only
     * ever shown while a timer that will clear it is pending, and an outstanding call is
     * the latest one made.
     */
    ghost predicate Valid()
      reads this
    {
      && (isSubmitting <==> !inFlight.Idle?)
      && (pendingClears == 0 ==> submitMessage == NoMessage)
      && (inFlight.AwaitingResult? ==> calls != [] && calls[|calls| - 1] == inFlight.payload)
    }

    constructor(endpoint: Option<string>)
      ensures Valid() && this.endpoint == endpoint
      ensures formData == EmptyForm && errors == NoErrors && !isSubmitting && submitMessage == NoMessage
      ensures inFlight == Idle && pendingClears == 0 && calls == [] && requests == []
    {
      this.endpoint := endpoint;
      formData := EmptyForm;
      errors := NoErrors;
      isSubmitting := false;
      submitMessage := NoMessage;
      inFlight := Idle;
      pendingClears := 0;
      calls := [];
      requests := [];
    }

    /** `validateForm`: replaces `errors` wholesale and says whether every field passed. */
    method ValidateForm() returns (valid: bool)
      requires Valid()
      modifies this`errors
      ensures Valid()
      ensures errors == ErrorsFor(formData)
      ensures valid <==> errors == NoErrors
    {
      var newErrors;
      valid, newErrors := Validate(formData);
      errors := newErrors;
    }

    /** `handleChange`: the named input takes the typed value and loses its error, if it had one. */
    method HandleChange(field: Field, value: string)
      requires Valid()
      modifies this`formData, this`errors
      ensures Valid()
      ensures formData == WithField(old(formData), field, value)
      ensures ErrorOf(errors, field) == ""
      ensures forall g: Field | g != field :: ErrorOf(errors, g) == ErrorOf(old(errors), g)
      ensures !Truthy(ErrorOf(old(errors), field)) ==> errors == old(errors)
    {
      formData := WithField(formData, field, value);
      if Truthy(ErrorOf(errors, field)) {
        errors := ClearedError(errors, field);
      }
    }

    /**
     * `handleSubmit` up to its first wait. A filled honeypot starts the fake delay and
     * never calls `submitContactForm`; otherwise a failing form stops with its errors
     * shown; a passing one calls `submitContactForm` with the three visible fields.
     */
    method HandleSubmit()
      requires Valid() && !isSubmitting
      modifies this
      ensures Valid()
      ensures formData == old(formData) && submitMessage == old(submitMessage) && pendingClears == old(pendingClears)
      ensures Truthy(old(formData).honeypot) ==>
        inFlight == SpamDelay && isSubmitting && errors == old(errors) && calls == old(calls) && requests == old(requests)
      ensures !Truthy(old(formData).honeypot) ==> errors == ErrorsFor(old(formData))
      ensures !Truthy(old(formData).honeypot) && errors != NoErrors ==>
        inFlight == Idle && !isSubmitting && calls == old(calls) && requests == old(requests)
      ensures !Truthy(old(formData).honeypot) && errors == NoErrors ==>
        && inFlight == AwaitingResult(Payload(old(formData))) && isSubmitting
        && calls == old(calls) + [Payload(old(formData))]
        && requests == old(requests) + RequestsMade(endpoint, Payload(old(formData)))
    {
      if Truthy(formData.honeypot) {
        isSubmitting := true;
        inFlight := SpamDelay;
        return;
      }
      var valid := ValidateForm();
      if !valid {
        return;
      }
      isSubmitting := true;
      var payload := Payload(formData);
      calls := calls + [payload];
      requests := requests + RequestsMade(endpoint, payload);
      inFlight := AwaitingResult(payload);
    }

    /** The 1.5-second honeypot timer fires: the bot is shown success and the form is emptied. */
    method OnSpamDelayElapsed()
      requires Valid() && inFlight == SpamDelay
      modifies this
      ensures Valid()
      ensures inFlight == Idle && !isSubmitting && submitMessage == SuccessMessage && formData == EmptyForm
      ensures pendingClears == old(pendingClears) + 1 && errors == old(errors)
      ensures calls == old(calls) && requests == old(requests)
    {
      isSubmitting := false;
      inFlight := Idle;
      submitMessage := SuccessMessage;
      formData := EmptyForm;
      pendingClears := pendingClears + 1;
    }

    /**
     * The `submitContactForm` promise settles, `outcome` being how its `fetch` settled:
     * success empties the form, a rejection keeps it and shows the thrown message; either
     * way the button comes back (`finally`) and the banner's clearing is scheduled.
     */
    method OnSubmissionSettled(outcome: FetchOutcome)
      requires Valid() && inFlight.AwaitingResult?
      modifies this
      ensures Valid()
      ensures inFlight == Idle && !isSubmitting && pendingClears == old(pendingClears) + 1
      ensures errors == old(errors) && calls == old(calls) && requests == old(requests)
      ensures
        var result := ExampleSubmitContactForm(endpoint, old(inFlight).payload, outcome).result;
        && (result.Success? ==> submitMessage == SuccessMessage && formData == EmptyForm)
        && (result.Failure? ==> submitMessage == CaughtBanner(result.error) && formData == old(formData))
    {
      var result := ExampleSubmitContactForm(endpoint, inFlight.payload, outcome).result;
      if result.Success? {
        submitMessage := SuccessMessage;
        formData := EmptyForm;
      } else {
        submitMessage := CaughtBanner(result.error);
      }
      isSubmitting := false;
      inFlight := Idle;
      pendingClears := pendingClears + 1;
    }

    /** One 5-second timer fires and clears the banner, whatever it showed. */
    method OnClearTimer()
      requires Valid() && pendingClears > 0
      modifies this
      ensures Valid()
      ensures submitMessage == NoMessage && pendingClears == old(pendingClears) - 1
      ensures formData == old(formData) && errors == old(errors) && isSubmitting == old(isSubmitting)
      ensures inFlight == old(inFlight) && calls == old(calls) && requests == old(requests)
    {
      submitMessage := NoMessage;
      pendingClears := pendingClears - 1;
    }
  }

  /**
   * A bot fills the honeypot: it is shown the success banner over an emptied form, and
   * nothing was ever passed to `submitContactForm` or `fetch`.
   */
  method BotSubmission(endpoint: Option<string>, typed: FormData)
    returns (shown: StatusMessage, left: FormData, calls: seq<ContactFormData>, sent: seq<HttpRequest<ContactFormData>>)
    requires typed.honeypot != ""
    ensures shown == SuccessMessage && left == EmptyForm && calls == [] && sent == []
  {
    var form := new ContactForm(endpoint);
    form.HandleChange(Name, typed.name);
    form.HandleChange(Email, typed.email);
    form.HandleChange(Message, typed.message);
    form.HandleChange(Honeypot, typed.honeypot);
    assert form.formData == typed;
    form.HandleSubmit();
    form.OnSpamDelayElapsed();
    shown, left, calls, sent := form.submitMessage, form.formData, form.calls, form.requests;
  }

  /**
   * Without an endpoint a valid form is not sent anywhere: the visitor sees the
   * configuration error and keeps what they typed.
   */
  method MissingEndpoint(typed: FormData, outcome: FetchOutcome)
    returns (shown: StatusMessage, left: FormData, sent: seq<HttpRequest<ContactFormData>>)
    requires ErrorsFor(typed) == NoErrors && typed.honeypot == ""
    ensures shown == StatusMessage(ExampleConfigError, true) && left == typed && sent == []
  {
    var form := new ContactForm(None);
    form.HandleChange(Name, typed.name);
    form.HandleChange(Email, typed.email);
    form.HandleChange(Message, typed.message);
    assert form.formData == typed;
    form.HandleSubmit();
    form.OnSubmissionSettled(outcome);
    shown, left, sent := form.submitMessage, form.formData, form.requests;
  }
}
