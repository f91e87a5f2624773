/**
 * The contact form's data and its field rules, shared by both copies of the Contact
 * component (src/components/Contact.tsx and resources/example/src/components/Contact.tsx
 * hold the same state shapes, messages and `validateForm`).
 */
module FormRules {
  import opened JsString
  import opened Http

  /** The inputs of the form, by their `name` attribute. */
  datatype Field = Name | Email | Message | Honeypot

  /** The `formData` state: what the visitor typed, plus the hidden honeypot input. */
  datatype FormData = FormData(name: string, email: string, message: string, honeypot: string)

  /** The `errors` state: one message per validated field, "" when the field is fine. */
  datatype FieldErrors = FieldErrors(name: string, email: string, message: string)

  /** The `submitMessage` state: the status banner under the form. */
  datatype StatusMessage = StatusMessage(text: string, isError: bool)

  /** The JSON payload sent for a submission: the three visible fields and nothing else. */
  datatype ContactFormData = ContactFormData(name: string, email: string, message: string)

  const EmptyForm := FormData("", "", "", "")
  const NoErrors := FieldErrors("", "", "")
  const NoMessage := StatusMessage("", false)

  const SuccessText := "Your message has been sent successfully! I will get back to you soon."
  const GenericErrorText := "An error occurred. Please try again later."

  const NameRequired := "Name is required"
  const NameTooShort := "Name must be at least 2 characters"
  const EmailRequired := "Email is required"
  const InvalidEmail := "Please enter a valid email address"
  const MessageRequired := "Message is required"
  const MessageTooShort := "Message must be at least 10 characters"

  const SuccessMessage := StatusMessage(SuccessText, false)

  /**
   * The banner the `catch` block shows: an `Error`'s own message, or the generic text
   * for anything else that was thrown; either way flagged as an error.
   */
  function CaughtBanner(t: Thrown): (m: StatusMessage)
    ensures m.isError
    ensures m.text == (if t.ErrorObj? then t.message else GenericErrorText)
  {
    match t
    case ErrorObj(text) => StatusMessage(text, true)
    case NonError => StatusMessage(GenericErrorText, true)
  }

  function FieldValue(f: FormData, field: Field): string {
    match field
    case Name => f.name
    case Email => f.email
    case Message => f.message
    case Honeypot => f.honeypot
  }

  /** `{ ...prev, [name]: value }` on the form data: the named field takes the value, the others keep theirs. */
  function WithField(f: FormData, field: Field, value: string): (r: FormData)
    ensures FieldValue(r, field) == value
    ensures forall g: Field | g != field :: FieldValue(r, g) == FieldValue(f, g)
  {
    match field
    case Name => f.(name := value)
    case Email => f.(email := value)
    case Message => f.(message := value)
    case Honeypot => f.(honeypot := value)
  }

  /** `errors[name]`: the honeypot has no entry, so reading it yields `undefined`, which is falsy like "". */
  function ErrorOf(e: FieldErrors, field: Field): string {
    match field
    case Name => e.name
    case Email => e.email
    case Message => e.message
    case Honeypot => ""
  }

  /** `{ ...prev, [name]: '' }` on the errors: the named field's error is gone, the others are kept. */
  function ClearedError(e: FieldErrors, field: Field): (r: FieldErrors)
    requires field != Honeypot
    ensures ErrorOf(r, field) == ""
    ensures forall g: Field | g != field :: ErrorOf(r, g) == ErrorOf(e, g)
  {
    match field
    case Name => e.(name := "")
    case Email => e.(email := "")
    case Message => e.(message := "")
  }

  /** The request body: exactly name, email and message; the honeypot is never sent. */
  function Payload(f: FormData): (p: ContactFormData)
    ensures p.name == f.name && p.email == f.email && p.message == f.message
  {
    ContactFormData(f.name, f.email, f.message)
  }

  /** A character of the regular-expression class `[^\s@]`. */
  predicate IsAddressChar(c: char) {
    !IsWs(c) && c != '@'
  }

  predicate AllAddressChars(s: string) {
    forall k {:trigger IsAddressChar(s[k])} | 0 <= k < |s| :: IsAddressChar(s[k])
  }

  /**
   * `/^[^\s@]+@[^\s@]+\.[^\s@]+$/.test(s)`, read off the pattern: s splits at an '@'
   * and a later '.' into three non-empty runs of `[^\s@]`.
   */
  ghost predicate MatchesEmailRegex(s: string) {
    exists at, dot | 0 < at && at + 1 < dot && dot + 1 < |s| ::
      && s[at] == '@' && s[dot] == '.'
      && AllAddressChars(s[..at]) && AllAddressChars(s[at + 1..dot]) && AllAddressChars(s[dot + 1..])
  }

  /** s has a '.' that is neither its first nor its last character. */
  predicate HasInnerDot(s: string) {
    exists k | 0 < k < |s| - 1 :: s[k] == '.'
  }

  /**
   * The same language described by its shape: no whitespace, exactly one '@' with
   * something before it, and a domain with an inner '.'.
   */
  predicate IsEmailAddress(s: string) {
    && (forall k {:trigger IsWs(s[k])} | 0 <= k < |s| :: !IsWs(s[k]))
    && exists at | 0 < at < |s| ::
         && s[at] == '@'
         && (forall k | 0 <= k < |s| && k != at :: s[k] != '@')
         && HasInnerDot(s[at + 1..])
  }

  /** Every character of s[lo..hi] is in `[^\s@]` exactly when each s[k] with lo <= k < hi is. */
  lemma AddressCharsOfSlice(s: string, lo: nat, hi: nat)
    requires lo <= hi <= |s|
    ensures AllAddressChars(s[lo..hi]) <==> forall k | lo <= k < hi :: IsAddressChar(s[k])
  {
    if AllAddressChars(s[lo..hi]) {
      forall k | lo <= k < hi ensures IsAddressChar(s[k]) {
        assert s[lo..hi][k - lo] == s[k];
      }
    }
  }

  /** A match of the pattern has the shape IsEmailAddress describes. */
  lemma RegexMatchIsEmailAddress(s: string)
    requires MatchesEmailRegex(s)
    ensures IsEmailAddress(s) && !IsBlank(s)
  {
    var at, dot :| 0 < at && at + 1 < dot && dot + 1 < |s|
      && s[at] == '@' && s[dot] == '.'
      && AllAddressChars(s[..at]) && AllAddressChars(s[at + 1..dot]) && AllAddressChars(s[dot + 1..]);
    AddressCharsOfSlice(s, 0, at);
    AddressCharsOfSlice(s, at + 1, dot);
    AddressCharsOfSlice(s, dot + 1, |s|);
    assert s[..at] == s[0..at] && s[dot + 1..] == s[dot + 1..|s|];
    forall k | 0 <= k < |s|
      ensures !IsWs(s[k]) && (k != at ==> s[k] != '@')
    {
      if k != at && k != dot {
        assert IsAddressChar(s[k]);
      }
    }
    var d := s[at + 1..];
    assert d[dot - at - 1] == '.';
    assert HasInnerDot(d);
  }

  /** In a string without whitespace whose only '@' is at position at, a slice avoiding at is a run of `[^\s@]`. */
  lemma AddressCharsAround(s: string, at: nat, lo: nat, hi: nat)
    requires lo <= hi <= |s| && at < |s| && !(lo <= at < hi)
    requires forall k {:trigger IsWs(s[k])} | 0 <= k < |s| :: !IsWs(s[k])
    requires forall k | 0 <= k < |s| && k != at :: s[k] != '@'
    ensures AllAddressChars(s[lo..hi])
  {
    forall k | 0 <= k < hi - lo ensures IsAddressChar(s[lo..hi][k]) {
      assert s[lo..hi][k] == s[lo + k];
      assert !IsWs(s[lo + k]);
    }
  }

  /** A string of the shape IsEmailAddress describes matches the pattern. */
  lemma EmailAddressMatchesRegex(s: string)
    requires IsEmailAddress(s)
    ensures MatchesEmailRegex(s)
  {
    var at :| 0 < at < |s| && s[at] == '@'
      && (forall k | 0 <= k < |s| && k != at :: s[k] != '@')
      && HasInnerDot(s[at + 1..]);
    var d := s[at + 1..];
    var j :| 0 < j < |d| - 1 && d[j] == '.';
    var dot := at + 1 + j;
    assert s[dot] == '.';
    AddressCharsAround(s, at, 0, at);
    AddressCharsAround(s, at, at + 1, dot);
    AddressCharsAround(s, at, dot + 1, |s|);
    assert s[..at] == s[0..at] && s[dot + 1..] == s[dot + 1..|s|];
  }

  /** The two descriptions of the e-mail pattern accept the same strings, and neither accepts a blank one. */
  lemma EmailRegexCharacterized(s: string)
    ensures MatchesEmailRegex(s) <==> IsEmailAddress(s)
    ensures MatchesEmailRegex(s) ==> !IsBlank(s)
  {
    if MatchesEmailRegex(s) {
      RegexMatchIsEmailAddress(s);
    }
    if IsEmailAddress(s) {
      EmailAddressMatchesRegex(s);
    }
  }

  /** The name rule: required, then at least two characters once trimmed. */
  function NameError(name: string): (r: string)
    ensures r == NameRequired || r == NameTooShort || r == ""
  {
    var t := Trim(name);
    if !Truthy(t) then NameRequired else if |t| < 2 then NameTooShort else ""
  }

  /** The e-mail rule: required once trimmed, but the pattern is tested on the untrimmed value. */
  function EmailError(email: string): (r: string)
    ensures r == EmailRequired || r == InvalidEmail || r == ""
  {
    if !Truthy(Trim(email)) then EmailRequired else if !IsEmailAddress(email) then InvalidEmail else ""
  }

  /** The message rule: required, then at least ten characters once trimmed. */
  function MessageError(message: string): (r: string)
    ensures r == MessageRequired || r == MessageTooShort || r == ""
  {
    var t := Trim(message);
    if !Truthy(t) then MessageRequired else if |t| < 10 then MessageTooShort else ""
  }

  /**
   * The name error, stated on the raw input: "required" exactly for a blank name, no error
   * exactly when two non-whitespace characters span at least 2 characters, "too short" otherwise.
   */
  lemma NameErrorMeaning(name: string)
    ensures NameError(name) == NameRequired <==> IsBlank(name)
    ensures NameError(name) == NameTooShort <==> !IsBlank(name) && !SpansAtLeast(name, 2)
    ensures NameError(name) == "" <==> SpansAtLeast(name, 2)
  {
    TrimEmptyIffBlank(name);
    TrimLengthAtLeast(name, 2);
  }

  /**
   * The e-mail error, stated on the raw input: "required" exactly for a blank value, no
   * error exactly when the untrimmed value matches the pattern, "invalid" otherwise.
   */
  lemma EmailErrorMeaning(email: string)
    ensures EmailError(email) == EmailRequired <==> IsBlank(email)
    ensures EmailError(email) == InvalidEmail <==> !IsBlank(email) && !MatchesEmailRegex(email)
    ensures EmailError(email) == "" <==> MatchesEmailRegex(email)
  {
    TrimEmptyIffBlank(email);
    EmailRegexCharacterized(email);
  }

  /**
   * The message error, stated on the raw input: "required" exactly for a blank message, no
   * error exactly when two non-whitespace characters span at least 10 characters.
   */
  lemma MessageErrorMeaning(message: string)
    ensures MessageError(message) == MessageRequired <==> IsBlank(message)
    ensures MessageError(message) == MessageTooShort <==> !IsBlank(message) && !SpansAtLeast(message, 10)
    ensures MessageError(message) == "" <==> SpansAtLeast(message, 10)
  {
    TrimEmptyIffBlank(message);
    TrimLengthAtLeast(message, 10);
  }

  /** The `newErrors` object `validateForm` ends with: every field checked on its own. */
  function ErrorsFor(f: FormData): FieldErrors {
    FieldErrors(NameError(f.name), EmailError(f.email), MessageError(f.message))
  }

  /**
   * The body of `validateForm` before `setErrors`: starts from no errors and a true flag,
   * runs the three checks one after the other (none stops the others) and lowers the
   * flag for each failing field.
   */
  method Validate(f: FormData) returns (valid: bool, newErrors: FieldErrors)
    ensures newErrors == ErrorsFor(f)
    ensures valid <==> newErrors == NoErrors
  {
    valid := true;
    newErrors := NoErrors;
    var name := Trim(f.name);
    if !Truthy(name) {
      newErrors := newErrors.(name := NameRequired);
      valid := false;
    } else if |name| < 2 {
      newErrors := newErrors.(name := NameTooShort);
      valid := false;
    }
    if !Truthy(Trim(f.email)) {
      newErrors := newErrors.(email := EmailRequired);
      valid := false;
    } else if !IsEmailAddress(f.email) {
      newErrors := newErrors.(email := InvalidEmail);
      valid := false;
    }
    var message := Trim(f.message);
    if !Truthy(message) {
      newErrors := newErrors.(message := MessageRequired);
      valid := false;
    } else if |message| < 10 {
      newErrors := newErrors.(message := MessageTooShort);
      valid := false;
    }
  }

  /** A form passes validation exactly when each of its three fields passes its own rule. */
  lemma ValidExactlyWhenEveryFieldPasses(f: FormData)
    ensures ErrorsFor(f) == NoErrors <==>
      SpansAtLeast(f.name, 2) && MatchesEmailRegex(f.email) && SpansAtLeast(f.message, 10)
  {
    NameErrorMeaning(f.name);
    EmailErrorMeaning(f.email);
    MessageErrorMeaning(f.message);
  }

  /** Whitespace anywhere in a non-blank address makes it invalid: the pattern sees the untrimmed value. */
  lemma EmailWithWhitespaceRejected(email: string, k: nat)
    requires k < |email| && IsWs(email[k]) && !IsBlank(email)
    ensures EmailError(email) == InvalidEmail
  {
    EmailErrorMeaning(email);
    EmailRegexCharacterized(email);
  }

  /** An empty form gets all three "required" errors at once. */
  lemma EmptyFormReportsEveryField(honeypot: string)
    ensures ErrorsFor(FormData("", "", "", honeypot)) == FieldErrors(NameRequired, EmailRequired, MessageRequired)
  {
  }

  /** A two-letter name passes while a bad address and a short message fail together. */
  lemma MixedFormReportsEachFailure(honeypot: string)
    ensures ErrorsFor(FormData("Al", "bad-email", "short", honeypot)) == FieldErrors("", InvalidEmail, MessageTooShort)
  {
    var name := "Al";
    assert !IsWs(name[0]) && !IsWs(name[1]);
    NameErrorMeaning(name);
    var email := "bad-email";
    assert !IsWs(email[0]);
    AddressWithoutAtIsInvalid(email);
    var message := "short";
    assert !IsWs(message[0]);
    assert !SpansAtLeast(message, 10);
    MessageErrorMeaning(message);
  }

  /** A non-blank value without any '@' is reported as an invalid address. */
  lemma AddressWithoutAtIsInvalid(email: string)
    requires !IsBlank(email)
    requires forall k | 0 <= k < |email| :: email[k] != '@'
    ensures EmailError(email) == InvalidEmail
  {
    EmailErrorMeaning(email);
  }

  /** A typical well-formed submission. */
  const JaneDoe := FormData("Jane Doe", "jane@example.com", "Hello, I would like to connect.", "")

  /** A typical well-formed submission passes every rule. */
  lemma JaneDoeFormIsValid()
    ensures ErrorsFor(JaneDoe) == NoErrors
  {
    JaneDoeNameIsValid();
    JaneDoeEmailIsValid();
    JaneDoeMessageIsValid();
  }

  lemma JaneDoeNameIsValid()
    ensures NameError("Jane Doe") == ""
  {
    var name := "Jane Doe";
    assert !IsWs(name[0]) && !IsWs(name[7]);
    NameErrorMeaning(name);
  }

  lemma JaneDoeMessageIsValid()
    ensures MessageError("Hello, I would like to connect.") == ""
  {
    var message := "Hello, I would like to connect.";
    assert !IsWs(message[0]) && !IsWs(message[|message| - 1]);
    MessageErrorMeaning(message);
  }

  lemma JaneDoeEmailIsValid()
    ensures EmailError("jane@example.com") == ""
  {
    var email := "jane@example.com";
    assert forall k | 0 <= k < |email| :: !IsWs(email[k]);
    assert forall k | 0 <= k < |email| && k != 4 :: email[k] != '@';
    assert email[4] == '@' && email[5..][7] == '.';
    assert HasInnerDot(email[5..]);
    assert IsEmailAddress(email);
    assert !IsWs(email[0]);
  }
}
