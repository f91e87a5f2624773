/**
 * The contact form of the main site (src/components/Contact.tsx): a component whose state
 * cells `formData`, `errors`, `isSubmitting` and `submitMessage` become the fields of a
 * class. The submission goes straight to `fetch('/api/contact')`. The asynchronous parts
 * are separate events: the 1.5-second honeypot delay, the settlement of the `fetch`, and
 * the 5-second timer that clears the banner.
 */
module MainContact {
  import opened Wrappers
  import opened JsString
  import opened Http
  import opened FormRules

  const ProxyUrl := "/api/contact"
  const ProxyHeaders := [("Content-Type", "application/json")]
  const FallbackFailure := "Failed to send message"

  /** The POST handed to `fetch`: the three visible fields as the JSON body. */
  function ProxyPost(data: ContactFormData): HttpRequest<ContactFormData> {
    HttpRequest("POST", ProxyUrl, ProxyHeaders, data)
  }

  /**
   * What the `try` block throws once `fetch` has settled, or `None` when it gets through.
   * The body is parsed before `ok` is looked at, so a body that does not parse fails the
   * submission even on a 2xx status; a non-ok status fails with the body's message, or
   * with "Failed to send message" when there is none.
   */
  function ProxyFailure(outcome: FetchOutcome): (thrown: Option<Thrown>)
    ensures thrown.None? <==> outcome.Responded? && outcome.response.ok && outcome.response.body.JsonObject?
    ensures outcome.Rejected? ==> thrown == Some(outcome.reason)
    ensures outcome.Responded? && outcome.response.body.Unparsable?
      ==> thrown == Some(ErrorObj(outcome.response.body.parseError))
    ensures outcome.Responded? && !outcome.response.ok && outcome.response.body.JsonObject? ==>
      var m := outcome.response.body.message;
      thrown == Some(ErrorObj(if m.Some? && Truthy(m.value) then m.value else FallbackFailure))
  {
    match outcome
    case Rejected(reason) => Some(reason)
    case Responded(response) =>
      match response.body
      case Unparsable(parseError) => Some(ErrorObj(parseError))
      case JsonObject(m) =>
        if !response.ok then Some(ErrorObj(if m.Some? && Truthy(m.value) then m.value else FallbackFailure))
        else None
  }

  /** The step of a submission that is still outstanding. */
  datatype InFlight = Idle | SpamDelay | AwaitingResponse

  class ContactForm {
    var formData: FormData
    var errors: FieldErrors
    var isSubmitting: bool
    var submitMessage: StatusMessage
    var inFlight: InFlight
    /** The number of 5-second banner-clearing timers scheduled and not yet fired. */
    var pendingClears: nat
    /** Every request handed to `fetch`, oldest first. */
    var requests: seq<HttpRequest<ContactFormData>>

    /**
     * The button is disabled exactly while a submission is outstanding, and a banner is
     * only ever shown while a timer that will clear it is pending.
     */
    ghost predicate Valid()
      reads this
    {
      && (isSubmitting <==> !inFlight.Idle?)
      && (pendingClears == 0 ==> submitMessage == NoMessage)
    }

    constructor()
      ensures Valid()
      ensures formData == EmptyForm && errors == NoErrors && !isSubmitting && submitMessage == NoMessage
      ensures inFlight == Idle && pendingClears == 0 && requests == []
    {
      formData := EmptyForm;
      errors := NoErrors;
      isSubmitting := false;
      submitMessage := NoMessage;
      inFlight := Idle;
      pendingClears := 0;
      requests := [];
    }

    /** `validateForm`: replaces `errors` wholesale and says whether every field passed. */
    method ValidateForm() returns (valid: bool)
      requires Valid()
      modifies this`errors
      ensures Valid()
      ensures errors == ErrorsFor(formData)
      ensures valid <==> errors == NoErrors
    {
      var newErrors;
      valid, newErrors := Validate(formData);
      errors := newErrors;
    }

    /** `handleChange`: the named input takes the typed value and loses its error, if it had one. */
    method HandleChange(field: Field, value: string)
      requires Valid()
      modifies this`formData, this`errors
      ensures Valid()
      ensures formData == WithField(old(formData), field, value)
      ensures ErrorOf(errors, field) == ""
      ensures forall g: Field | g != field :: ErrorOf(errors, g) == ErrorOf(old(errors), g)
      ensures !Truthy(ErrorOf(old(errors), field)) ==> errors == old(errors)
    {
      formData := WithField(formData, field, value);
      if Truthy(ErrorOf(errors, field)) {
        errors := ClearedError(errors, field);
      }
    }

    /**
     * `handleSubmit` up to its first wait. A filled honeypot starts the fake delay without
     * validating or sending; otherwise a failing form stops with its errors shown; a
     * passing one is posted and the button disabled.
     */
    method HandleSubmit()
      requires Valid() && !isSubmitting
      modifies this
      ensures Valid()
      ensures formData == old(formData) && submitMessage == old(submitMessage) && pendingClears == old(pendingClears)
      ensures Truthy(old(formData).honeypot) ==>
        inFlight == SpamDelay && isSubmitting && errors == old(errors) && requests == old(requests)
      ensures !Truthy(old(formData).honeypot) ==> errors == ErrorsFor(old(formData))
      ensures !Truthy(old(formData).honeypot) && errors != NoErrors ==>
        inFlight == Idle && !isSubmitting && requests == old(requests)
      ensures !Truthy(old(formData).honeypot) && errors == NoErrors ==>
        inFlight == AwaitingResponse && isSubmitting && requests == old(requests) + [ProxyPost(Payload(old(formData)))]
    {
      if Truthy(formData.honeypot) {
        isSubmitting := true;
        inFlight := SpamDelay;
        return;
      }
      var valid := ValidateForm();
      if !valid {
        return;
      }
      isSubmitting := true;
      requests := requests + [ProxyPost(Payload(formData))];
      inFlight := AwaitingResponse;
    }

    /** The 1.5-second honeypot timer fires: the bot is shown success and the form is emptied. */
    method OnSpamDelayElapsed()
      requires Valid() && inFlight == SpamDelay
      modifies this
      ensures Valid()
      ensures inFlight == Idle && !isSubmitting && submitMessage == SuccessMessage && formData == EmptyForm
      ensures pendingClears == old(pendingClears) + 1 && errors == old(errors) && requests == old(requests)
    {
      isSubmitting := false;
      inFlight := Idle;
      submitMessage := SuccessMessage;
      formData := EmptyForm;
      pendingClears := pendingClears + 1;
    }

    /**
     * The `fetch` settles: success empties the form, failure keeps it and shows the thrown
     * message; either way the button comes back and the banner's clearing is scheduled.
     */
    method OnResponse(outcome: FetchOutcome)
      requires Valid() && inFlight == AwaitingResponse
      modifies this
      ensures Valid()
      ensures inFlight == Idle && !isSubmitting && pendingClears == old(pendingClears) + 1
      ensures errors == old(errors) && requests == old(requests)
      ensures ProxyFailure(outcome).None? ==> submitMessage == SuccessMessage && formData == EmptyForm
      ensures ProxyFailure(outcome).Some? ==>
        submitMessage == CaughtBanner(ProxyFailure(outcome).value) && formData == old(formData)
    {
      var thrown := ProxyFailure(outcome);
      if thrown.None? {
        submitMessage := SuccessMessage;
        formData := EmptyForm;
      } else {
        submitMessage := CaughtBanner(thrown.value);
      }
      isSubmitting := false;
      inFlight := Idle;
      pendingClears := pendingClears + 1;
    }

    /** One 5-second timer fires and clears the banner, whatever it showed. */
    method OnClearTimer()
      requires Valid() && pendingClears > 0
      modifies this
      ensures Valid()
      ensures submitMessage == NoMessage && pendingClears == old(pendingClears) - 1
      ensures formData == old(formData) && errors == old(errors) && isSubmitting == old(isSubmitting)
      ensures inFlight == old(inFlight) && requests == old(requests)
    {
      submitMessage := NoMessage;
      pendingClears := pendingClears - 1;
    }
  }

  /**
   * A visitor types a valid form in (the honeypot left empty), sends it to a healthy
   * server, sees the success banner over an emptied form, and sees the banner go.
   */
  method SuccessfulVisit(typed: FormData) returns (sent: seq<HttpRequest<ContactFormData>>, shown: StatusMessage, left: FormData, finalBanner: StatusMessage)
    requires ErrorsFor(typed) == NoErrors && typed.honeypot == ""
    ensures sent == [ProxyPost(Payload(typed))]
    ensures shown == SuccessMessage && left == EmptyForm && finalBanner == NoMessage
  {
    var form := new ContactForm();
    form.HandleChange(Name, typed.name);
    form.HandleChange(Email, typed.email);
    form.HandleChange(Message, typed.message);
    assert form.formData == typed;
    form.HandleSubmit();
    assert form.requests == [ProxyPost(Payload(typed))];
    form.OnResponse(Responded(HttpResponse(true, 200, JsonObject(None))));
    sent, shown, left := form.requests, form.submitMessage, form.formData;
    form.OnClearTimer();
    finalBanner := form.submitMessage;
  }
}
