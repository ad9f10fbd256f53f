/**
 * The contact form (ContactForm.jsx): its four text fields, the validation
 * run on submit, and the state changes of typing and submitting.
 */
module ContactForm {
  import opened JsSemantics

  /* ---------------------------------------------------------------------- */
  /* String checks                                                           */
  /* ---------------------------------------------------------------------- */

  /** Removes leading white space: what is left is a suffix that starts with a non-space. */
  function TrimStart(s: string): (r: string)
    ensures |r| <= |s| && r == s[|s| - |r|..]
    ensures forall i :: 0 <= i < |s| - |r| ==> IsWhitespace(s[i])
    ensures r != [] ==> !IsWhitespace(r[0])
  {
    if s != [] && IsWhitespace(s[0]) then TrimStart(s[1..]) else s
  }

  /** Removes trailing white space: what is left is a prefix that ends with a non-space. */
  function TrimEnd(s: string): (r: string)
    ensures |r| <= |s| && r == s[..|r|]
    ensures forall i :: |r| <= i < |s| ==> IsWhitespace(s[i])
    ensures r != [] ==> !IsWhitespace(r[|r| - 1])
  {
    if s != [] && IsWhitespace(s[|s| - 1]) then TrimEnd(s[..|s| - 1]) else s
  }

  /** `s.trim()`. */
  function Trim(s: string): string
  {
    TrimEnd(TrimStart(s))
  }

  /** `!s.trim()`: the trimmed string is empty, hence falsy. */
  predicate IsBlank(s: string)
  {
    Trim(s) == ""
  }

  /** A string is blank exactly when every one of its characters is white space. */
  lemma BlankIffAllWhitespace(s: string)
    ensures IsBlank(s) <==> forall i :: 0 <= i < |s| ==> IsWhitespace(s[i])
  {
    var t := TrimStart(s);
    if !forall i :: 0 <= i < |s| ==> IsWhitespace(s[i]) {
      assert t != [] && !IsWhitespace(t[0]);
    }
  }

  /** A character of `[^\s@]`. */
  predicate EmailChar(c: char)
  {
    c != '@' && !IsWhitespace(c)
  }

  /** `s[lo..hi]` matches `[^\s@]+`. */
  predicate RunOfEmailChars(s: string, lo: int, hi: int)
    requires 0 <= lo <= hi <= |s|
  {
    lo < hi && forall i :: lo <= i < hi ==> EmailChar(s[i])
  }

  /**
   * `/^[^\s@]+@[^\s@]+\.[^\s@]+$/.test(s)`: some '@' at `at` and some '.' at
   * `dot` split the whole string into three non-empty runs of `[^\s@]`.
   */
  predicate MatchesEmailPattern(s: string)
  {
    exists at, dot | 0 <= at < dot < |s| ::
      && s[at] == '@' && s[dot] == '.'
      && RunOfEmailChars(s, 0, at)
      && RunOfEmailChars(s, at + 1, dot)
      && RunOfEmailChars(s, dot + 1, |s|)
  }

  /**
   * The same language described directly: no white space, exactly one '@',
   * which is not the first character, and after it a '.' that is neither the
   * first nor the last character of the domain part.
   */
  predicate WellFormedEmail(s: string)
  {
    && (forall i :: 0 <= i < |s| ==> !IsWhitespace(s[i]))
    && exists at | 0 < at < |s| ::
         && s[at] == '@'
         && (forall i :: 0 <= i < |s| && i != at ==> s[i] != '@')
         && exists dot | at + 1 < dot < |s| - 1 :: s[dot] == '.'
  }

  lemma EmailPatternIff(s: string)
    ensures MatchesEmailPattern(s) <==> WellFormedEmail(s)
  {
    if MatchesEmailPattern(s) {
      PatternIsWellFormed(s);
    }
    if WellFormedEmail(s) {
      WellFormedMatchesPattern(s);
    }
  }

  lemma PatternIsWellFormed(s: string)
    requires MatchesEmailPattern(s)
    ensures WellFormedEmail(s)
  {
    var at, dot :| 0 <= at < dot < |s| && s[at] == '@' && s[dot] == '.'
      && RunOfEmailChars(s, 0, at) && RunOfEmailChars(s, at + 1, dot) && RunOfEmailChars(s, dot + 1, |s|);
    forall i | 0 <= i < |s| && i != at
      ensures s[i] != '@' && !IsWhitespace(s[i])
    {
      if i < at { assert EmailChar(s[i]); }
      else if i < dot { assert EmailChar(s[i]); }
      else if i > dot { assert EmailChar(s[i]); }
    }
    assert at + 1 < dot < |s| - 1;
  }

  lemma WellFormedMatchesPattern(s: string)
    requires WellFormedEmail(s)
    ensures MatchesEmailPattern(s)
  {
    var at :| 0 < at < |s| && s[at] == '@'
      && (forall i :: 0 <= i < |s| && i != at ==> s[i] != '@')
      && exists dot | at + 1 < dot < |s| - 1 :: s[dot] == '.';
    var dot :| at + 1 < dot < |s| - 1 && s[dot] == '.';
    assert RunOfEmailChars(s, 0, at);
    assert RunOfEmailChars(s, at + 1, dot);
    assert RunOfEmailChars(s, dot + 1, |s|);
  }

  /* ---------------------------------------------------------------------- */
  /* Form data and validation                                                */
  /* ---------------------------------------------------------------------- */

  /** The `name` attributes of the four inputs. */
  datatype Field = Name | Email | Subject | Message

  datatype FormData = FormData(name: string, email: string, subject: string, message: string)

  const EmptyForm: FormData := FormData("", "", "", "")

  function Get(data: FormData, field: Field): string
  {
    match field
    case Name => data.name
    case Email => data.email
    case Subject => data.subject
    case Message => data.message
  }

  /** `{...prev, [name]: value}`. */
  function With(data: FormData, field: Field, value: string): (r: FormData)
    ensures Get(r, field) == value
    ensures forall other :: other != field ==> Get(r, other) == Get(data, other)
  {
    match field
    case Name => data.(name := value)
    case Email => data.(email := value)
    case Subject => data.(subject := value)
    case Message => data.(message := value)
  }

  const NameRequired := "Name is required"
  const EmailRequired := "Email is required"
  const EmailInvalid := "Please enter a valid email address"
  const SubjectRequired := "Subject is required"
  const MessageRequired := "Message is required"

  /**
   * The error map `validateForm` builds, field by field, from the outcome of
   * each check: blank name, blank email, email matching the pattern, blank
   * subject, blank message.
   */
  function ErrorsFor(nameBlank: bool, emailBlank: bool, emailMatches: bool,
                     subjectBlank: bool, messageBlank: bool): (errs: map<Field, string>)
    ensures Name in errs <==> nameBlank
    ensures Subject in errs <==> subjectBlank
    ensures Message in errs <==> messageBlank
    ensures Email in errs <==> emailBlank || !emailMatches
    ensures Name in errs ==> errs[Name] == NameRequired
    ensures Subject in errs ==> errs[Subject] == SubjectRequired
    ensures Message in errs ==> errs[Message] == MessageRequired
    ensures Email in errs ==> errs[Email] == if emailBlank then EmailRequired else EmailInvalid
  {
    var afterName := if nameBlank then map[Name := NameRequired] else map[];
    var afterEmail :=
      if emailBlank then afterName[Email := EmailRequired]
      else if !emailMatches then afterName[Email := EmailInvalid]
      else afterName;
    var afterSubject := if subjectBlank then afterEmail[Subject := SubjectRequired] else afterEmail;
    if messageBlank then afterSubject[Message := MessageRequired] else afterSubject
  }

  /**
   * `validateForm()`: name, subject and message are checked after trimming;
   * the email is checked for presence after trimming and, only if present,
   * against the pattern untrimmed.
   */
  function ValidateForm(data: FormData): (errs: map<Field, string>)
    ensures Name in errs <==> IsBlank(data.name)
    ensures Subject in errs <==> IsBlank(data.subject)
    ensures Message in errs <==> IsBlank(data.message)
    ensures Email in errs <==> IsBlank(data.email) || !MatchesEmailPattern(data.email)
    ensures Name in errs ==> errs[Name] == NameRequired
    ensures Subject in errs ==> errs[Subject] == SubjectRequired
    ensures Message in errs ==> errs[Message] == MessageRequired
    ensures Email in errs ==> errs[Email] == if IsBlank(data.email) then EmailRequired else EmailInvalid
  {
    ErrorsFor(IsBlank(data.name), IsBlank(data.email), MatchesEmailPattern(data.email),
              IsBlank(data.subject), IsBlank(data.message))
  }

  /** Has at least one character that is not white space. */
  predicate Filled(s: string)
  {
    exists i :: 0 <= i < |s| && !IsWhitespace(s[i])
  }

  /**
   * Validation passes exactly when name, subject and message each have a
   * non-space character and the email is well formed.
   */
  lemma NoErrorsIff(data: FormData)
    ensures ValidateForm(data) == map[] <==>
              Filled(data.name) && Filled(data.subject) && Filled(data.message) && WellFormedEmail(data.email)
  {
    var errs := ValidateForm(data);
    EmptyIffNoField(errs);
    BlankIffNotFilled(data.name);
    BlankIffNotFilled(data.email);
    BlankIffNotFilled(data.subject);
    BlankIffNotFilled(data.message);
    EmailPatternIff(data.email);
    WellFormedIsFilled(data.email);
  }

  lemma BlankIffNotFilled(s: string)
    ensures IsBlank(s) <==> !Filled(s)
  {
    BlankIffAllWhitespace(s);
  }

  lemma WellFormedIsFilled(s: string)
    ensures WellFormedEmail(s) ==> Filled(s)
  {
    if WellFormedEmail(s) {
      var at :| 0 < at < |s| && s[at] == '@';
      assert !IsWhitespace(s[at]);
    }
  }

  lemma EmptyIffNoField(errs: map<Field, string>)
    ensures errs == map[] <==> Name !in errs && Email !in errs && Subject !in errs && Message !in errs
  {
    if Name !in errs && Email !in errs && Subject !in errs && Message !in errs {
      forall k | k in errs
        ensures false
      {
        match k
        case Name =>
        case Email =>
        case Subject =>
        case Message =>
      }
      assert errs.Keys == {};
    }
  }

  /** `Object.keys(errs).length === 0`: submitting may go ahead exactly when there are no errors. */
  function SubmitAllowed(errs: map<Field, string>): (ok: bool)
    ensures ok <==> errs == map[]
  {
    if |errs.Keys| == 0 then
      assert errs.Keys == {};
      true
    else false
  }

  /** The form as it is reset after a successful submit fails validation on every field. */
  lemma EmptyFormFailsEveryField()
    ensures ValidateForm(EmptyForm) ==
              map[Name := NameRequired, Email := EmailRequired,
                  Subject := SubjectRequired, Message := MessageRequired]
  {
    var errs := ValidateForm(EmptyForm);
    assert IsBlank(EmptyForm.name) && IsBlank(EmptyForm.email);
    assert IsBlank(EmptyForm.subject) && IsBlank(EmptyForm.message);
    var expected := map[Name := NameRequired, Email := EmailRequired,
                        Subject := SubjectRequired, Message := MessageRequired];
    assert forall k :: k in errs <==> k in expected by {
      forall k ensures k in errs <==> k in expected {
        match k
        case Name =>
        case Email =>
        case Subject =>
        case Message =>
      }
    }
  }

  /* ---------------------------------------------------------------------- */
  /* Component state                                                         */
  /* ---------------------------------------------------------------------- */

  class FormState {
    var formData: FormData
    var errors: map<Field, string>
    var isSubmitting: bool

    constructor ()
      ensures formData == EmptyForm && errors == map[] && !isSubmitting
    {
      formData := EmptyForm;
      errors := map[];
      isSubmitting := false;
    }

    /**
     * `handleChange`: only the edited field takes the new value; its error is
     * blanked only if it was set to a non-empty (truthy) message.
     */
    method HandleChange(field: Field, value: string)
      modifies this
      ensures Get(formData, field) == value
      ensures forall other :: other != field ==> Get(formData, other) == Get(old(formData), other)
      ensures errors == if field in old(errors) && TruthyString(old(errors)[field])
                        then old(errors)[field := ""] else old(errors)
      ensures isSubmitting == old(isSubmitting)
    {
      formData := With(formData, field, value);
      if field in errors && TruthyString(errors[field]) {
        errors := errors[field := ""];
      }
    }

    /** The `setErrors` state setter. */
    method SetErrors(newErrors: map<Field, string>)
      modifies this
      ensures errors == newErrors
      ensures formData == old(formData) && isSubmitting == old(isSubmitting)
    {
      errors := newErrors;
    }

    /** The `setIsSubmitting` state setter. */
    method SetIsSubmitting(submitting: bool)
      modifies this
      ensures isSubmitting == submitting
      ensures formData == old(formData) && errors == old(errors)
    {
      isSubmitting := submitting;
    }

    /**
     * `handleSubmit` up to its `await`: with errors, they replace the stored
     * errors and nothing is sent; without, the form goes into the submitting
     * state and the message is handed to the sender. The submit button is
     * disabled while a message is being sent, so a submit never starts in
     * the submitting state.
     */
    method BeginSubmit() returns (send: bool)
      requires !isSubmitting
      modifies this
      ensures send <==> ValidateForm(old(formData)) == map[]
      ensures formData == old(formData)
      ensures !send ==> errors == ValidateForm(old(formData)) && !isSubmitting
      ensures send ==> errors == old(errors) && isSubmitting
    {
      var newErrors := ValidateForm(formData);
      send := SubmitAllowed(newErrors);
      if !send {
        SetErrors(newErrors);
      } else {
        SetIsSubmitting(true);
      }
    }

    /**
     * `handleSubmit` after its `await`, given whether sending succeeded: on
     * success every field is cleared and the errors are emptied; on failure
     * both are kept. Either way the form leaves the submitting state.
     */
    method FinishSubmit(sent: bool)
      modifies this
      ensures !isSubmitting
      ensures sent ==> formData == EmptyForm && errors == map[]
      ensures !sent ==> formData == old(formData) && errors == old(errors)
    {
      if sent {
        formData := EmptyForm;
        errors := map[];
      }
      isSubmitting := false;
    }
  }
}
