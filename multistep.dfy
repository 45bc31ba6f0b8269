/** The three-step registration form: personal data, preferences, then
    acceptance of the terms. Each submission carries an `action` field that
    moves the form forward, back, or completes it. */
module MultiStepForm {
  import opened Js

  datatype PersonalInfo = PersonalInfo(firstName: string, lastName: string, email: string)

  /** The theme is `'light' | 'dark'` only by a cast in the source; any
      submitted string is stored. */
  datatype Preferences = Preferences(newsletter: bool, theme: string, language: string)

  datatype Completion = Completion(termsAccepted: bool)

  datatype FormSections = FormSections(
    personalInfo: Option<PersonalInfo>,
    preferences: Option<Preferences>,
    completion: Option<Completion>)

  datatype MultiStepState = MultiStepState(
    step: int, formData: FormSections, errors: map<string, string>, isComplete: bool)

  const InitialState := MultiStepState(1, FormSections(None, None, None), map[], false)

  const FirstNameRequired := "Imię jest wymagane"
  const LastNameRequired := "Nazwisko jest wymagane"
  const EmailInvalid := "Podaj prawidłowy email"
  const ThemeRequired := "Wybierz motyw"
  const LanguageRequired := "Wybierz język"
  const TermsRequired := "Musisz zaakceptować warunki"

  /** `!email || !email.includes('@')` is false. */
  predicate ValidEmail(email: Option<string>) {
    !Falsy(email) && Includes(email.value, "@")
  }

  /** An e-mail passes the step-1 check exactly when it is present and holds
      an `@`. */
  lemma ValidEmailMeansAt(email: Option<string>)
    ensures ValidEmail(email) <==> email.Some? && '@' in email.value
  {
    if email.Some? {
      IncludesChar(email.value, '@');
    }
  }

  /** What `handleNextStep` returns. At step 1 it checks the names and the
      e-mail, at step 2 the theme and the language; any other step has
      nothing to check. Each error is present exactly when its check fails,
      with its message. The error map is replaced by the new one, the step
      advances exactly when it is empty, and the section of the step is
      stored only then. */
  predicate NextStepOutcome(prev: MultiStepState, form: FormData, r: MultiStepState) {
    && r.isComplete == prev.isComplete
    && r.step == (if r.errors == map[] then prev.step + 1 else prev.step)
    && (prev.step == 1 ==>
      && r.errors.Keys <= {"firstName", "lastName", "email"}
      && ("firstName" in r.errors <==> Falsy(Get(form, "firstName")))
      && ("lastName" in r.errors <==> Falsy(Get(form, "lastName")))
      && ("email" in r.errors <==> !ValidEmail(Get(form, "email")))
      && ("firstName" in r.errors ==> r.errors["firstName"] == FirstNameRequired)
      && ("lastName" in r.errors ==> r.errors["lastName"] == LastNameRequired)
      && ("email" in r.errors ==> r.errors["email"] == EmailInvalid)
      && r.formData == if r.errors == map[]
                       then prev.formData.(personalInfo := Some(PersonalInfo(form["firstName"], form["lastName"], form["email"])))
                       else prev.formData)
    && (prev.step == 2 ==>
      && r.errors.Keys <= {"theme", "language"}
      && ("theme" in r.errors <==> Falsy(Get(form, "theme")))
      && ("language" in r.errors <==> Falsy(Get(form, "language")))
      && ("theme" in r.errors ==> r.errors["theme"] == ThemeRequired)
      && ("language" in r.errors ==> r.errors["language"] == LanguageRequired)
      && r.formData == if r.errors == map[]
                       then prev.formData.(preferences := Some(Preferences(FieldEquals(form, "newsletter", "on"), form["theme"], form["language"])))
                       else prev.formData)
    && (prev.step != 1 && prev.step != 2 ==> r == prev.(step := prev.step + 1, errors := map[]))
  }

  /** `handleNextStep`, building the error record field by field. */
  method HandleNextStep(prev: MultiStepState, form: FormData) returns (r: MultiStepState)
    ensures NextStepOutcome(prev, form, r)
  {
    var errors: map<string, string> := map[];
    var newFormData := prev.formData;

    if prev.step == 1 {
      var firstName := Get(form, "firstName");
      var lastName := Get(form, "lastName");
      var email := Get(form, "email");

      if Falsy(firstName) { errors := errors["firstName" := FirstNameRequired]; }
      if Falsy(lastName) { errors := errors["lastName" := LastNameRequired]; }
      if Falsy(email) || !Includes(email.value, "@") { errors := errors["email" := EmailInvalid]; }

      if |errors| == 0 {
        newFormData := newFormData.(personalInfo := Some(PersonalInfo(firstName.value, lastName.value, email.value)));
      }
    } else if prev.step == 2 {
      var newsletter := FieldEquals(form, "newsletter", "on");
      var theme := Get(form, "theme");
      var language := Get(form, "language");

      if Falsy(theme) { errors := errors["theme" := ThemeRequired]; }
      if Falsy(language) { errors := errors["language" := LanguageRequired]; }

      if |errors| == 0 {
        newFormData := newFormData.(preferences := Some(Preferences(newsletter, theme.value, language.value)));
      }
    }

    r := prev.(
      step := if |errors| == 0 then prev.step + 1 else prev.step,
      formData := newFormData,
      errors := errors);
  }

  /** `handlePrevStep`: one step back, never below step 1, with the errors
      cleared and the collected data and the completion flag kept. */
  function HandlePrevStep(prev: MultiStepState): (r: MultiStepState)
    ensures r.step >= 1
    ensures prev.step > 1 ==> r.step == prev.step - 1
    ensures prev.step <= 1 ==> r.step == 1
    ensures r.errors == map[]
    ensures r.formData == prev.formData && r.isComplete == prev.isComplete
  {
    prev.(step := if prev.step - 1 >= 1 then prev.step - 1 else 1, errors := map[])
  }

  /** What `handleComplete` returns. Without accepted terms only the errors
      change; with them the form is complete, the terms are recorded next to
      the earlier sections, the errors are cleared and the step stays. */
  predicate CompleteOutcome(prev: MultiStepState, form: FormData, r: MultiStepState) {
    && (!FieldEquals(form, "termsAccepted", "on") ==>
      r == prev.(errors := map["termsAccepted" := TermsRequired]))
    && (FieldEquals(form, "termsAccepted", "on") ==>
      r == prev.(formData := prev.formData.(completion := Some(Completion(true))), isComplete := true, errors := map[]))
  }

  /** `handleComplete`. */
  method HandleComplete(prev: MultiStepState, form: FormData) returns (r: MultiStepState)
    ensures CompleteOutcome(prev, form, r)
  {
    var termsAccepted := FieldEquals(form, "termsAccepted", "on");
    var errors: map<string, string> := map[];

    if !termsAccepted {
      errors := errors["termsAccepted" := TermsRequired];
    }

    if |errors| > 0 {
      return prev.(errors := errors);
    }

    r := prev.(
      formData := prev.formData.(completion := Some(Completion(termsAccepted))),
      isComplete := true,
      errors := map[]);
  }

  predicate KnownAction(form: FormData) {
    FieldEquals(form, "action", "next") || FieldEquals(form, "action", "prev") ||
    FieldEquals(form, "action", "complete")
  }

  /** `multiStepFormAction`: dispatch on the submitted `action` field. An
      unknown or missing action returns the previous state; each known one
      gives what its handler gives. No transition ever clears the completion
      flag or leaves step 1 behind downwards. */
  method MultiStepFormAction(prev: MultiStepState, form: FormData) returns (r: MultiStepState)
    ensures !KnownAction(form) ==> r == prev
    ensures FieldEquals(form, "action", "next") ==> NextStepOutcome(prev, form, r)
    ensures FieldEquals(form, "action", "prev") ==> r == HandlePrevStep(prev)
    ensures FieldEquals(form, "action", "complete") ==> CompleteOutcome(prev, form, r)
    ensures prev.isComplete ==> r.isComplete
    ensures prev.step >= 1 ==> r.step >= 1 && prev.step - 1 <= r.step <= prev.step + 1
  {
    var action := Get(form, "action");
    if action == Some("next") {
      r := HandleNextStep(prev, form);
    } else if action == Some("prev") {
      r := HandlePrevStep(prev);
    } else if action == Some("complete") {
      r := HandleComplete(prev, form);
    } else {
      r := prev;
    }
  }
}
