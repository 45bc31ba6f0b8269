/** The contact form action: validate name, e-mail and message, then send;
    the simulated server fails at random, which is a parameter here. */
module ContactForm {
  import opened Js

  /** The three optional error messages of the form. */
  datatype ContactErrors = ContactErrors(name: Option<string>, email: Option<string>, message: Option<string>)

  datatype ContactFormState = ContactFormState(success: bool, errors: ContactErrors, message: Option<string>)

  const NoErrors := ContactErrors(None, None, None)
  const InitialState := ContactFormState(false, NoErrors, None)

  const NameTooShort := "Imię musi mieć co najmniej 2 znaki"
  const EmailInvalid := "Podaj prawidłowy adres email"
  const MessageTooShort := "Wiadomość musi mieć co najmniej 10 znaków"
  const FixErrors := "Popraw błędy i spróbuj ponownie"
  const ServerError := "Wystąpił błąd serwera. Spróbuj ponownie."
  const Sent := "Wiadomość została wysłana pomyślnie!"

  predicate NameValid(name: Option<string>) {
    !Falsy(name) && |name.value| >= 2
  }

  predicate EmailValid(email: Option<string>) {
    !Falsy(email) && Includes(email.value, "@")
  }

  predicate MessageValid(message: Option<string>) {
    !Falsy(message) && |message.value| >= 10
  }

  /** `Object.keys(errors).length > 0`. */
  predicate HasErrors(e: ContactErrors) {
    e.name.Some? || e.email.Some? || e.message.Some?
  }

  /** `contactFormAction`; `serverFails` stands for `Math.random() < 0.3`. The
      previous state is not consulted: the result is determined by the form
      and the failure flag alone. Each field error is present exactly when
      its check fails; any error gives the "fix the errors" message, valid
      input with a failing server gives no field errors and the server-error
      message, and success means no errors and three valid fields. */
  method ContactFormAction(prev: ContactFormState, form: FormData, serverFails: bool)
    returns (r: ContactFormState)
    ensures r.errors.name.Some? <==> !NameValid(Get(form, "name"))
    ensures r.errors.email.Some? <==> !EmailValid(Get(form, "email"))
    ensures r.errors.message.Some? <==> !MessageValid(Get(form, "message"))
    ensures r.errors.name.Some? ==> r.errors.name.value == NameTooShort
    ensures r.errors.email.Some? ==> r.errors.email.value == EmailInvalid
    ensures r.errors.message.Some? ==> r.errors.message.value == MessageTooShort
    ensures HasErrors(r.errors) ==> !r.success && r.message == Some(FixErrors)
    ensures !HasErrors(r.errors) && serverFails ==> !r.success && r.message == Some(ServerError)
    ensures r.success <==> !HasErrors(r.errors) && !serverFails
    ensures r.success ==> r.errors == NoErrors && r.message == Some(Sent)
    ensures r.success ==> NameValid(Get(form, "name")) && EmailValid(Get(form, "email")) && MessageValid(Get(form, "message"))
  {
    var name := Get(form, "name");
    var email := Get(form, "email");
    var message := Get(form, "message");

    var errors := NoErrors;

    if Falsy(name) || |name.value| < 2 {
      errors := errors.(name := Some(NameTooShort));
    }

    if Falsy(email) || !Includes(email.value, "@") {
      errors := errors.(email := Some(EmailInvalid));
    }

    if Falsy(message) || |message.value| < 10 {
      errors := errors.(message := Some(MessageTooShort));
    }

    if HasErrors(errors) {
      return ContactFormState(false, errors, Some(FixErrors));
    }

    if serverFails {
      return ContactFormState(false, NoErrors, Some(ServerError));
    }

    r := ContactFormState(true, NoErrors, Some(Sent));
  }

  /** The previous state is never read: two runs on the same form and
      failure flag agree whatever states they start from. */
  method ContactIgnoresPrevious(p1: ContactFormState, p2: ContactFormState, form: FormData, serverFails: bool)
    returns (r1: ContactFormState, r2: ContactFormState)
    ensures r1 == r2
  {
    r1 := ContactFormAction(p1, form, serverFails);
    r2 := ContactFormAction(p2, form, serverFails);
  }
}
