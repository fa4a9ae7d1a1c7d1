/** The contact form component: four field values, a field-keyed error
    collection, the `isFormValid` flag that gates the submit button, the
    two commands a parent page pushes through the form's ref, and the
    `isSubmitting` / `isLoadingCategories` flags around its two awaits.

    The e-mail validator and the phone formatter are collaborators whose
    bodies are not part of this model: the form receives them as two
    uninterpreted functions. */
module ContactForm {
  import opened Wrappers

  /** The message recorded when the name is cleared. */
  const NameRequired: string := "O campo nome é obrigatório"
  /** The message recorded when a non-blank e-mail is rejected. */
  const InvalidEmail: string := "E-mail inválido"

  /** A category offered by the select control. */
  datatype Category = Category(id: string, name: string)

  /** The record a parent page pushes into the form: every field may be
      null or undefined. */
  datatype ContactRecord = ContactRecord(
    name: Option<string>,
    email: Option<string>,
    phone: Option<string>,
    categoryId: Option<string>)

  /** The values handed to `onSubmit`. */
  datatype FormValues = FormValues(name: string, email: string, phone: string, categoryId: string)

  /** A non-blank e-mail that the validator refuses; a blank one is
      accepted because the e-mail is optional. */
  predicate EmailRejected(value: string, isEmailValid: string -> bool)
  {
    value != "" && !isEmailValid(value)
  }

  /** The errors after the name input changes to `value`: the "name" error
      is present exactly when the new name is blank, and every other
      field's error is left as it was. */
  function AfterNameChange(errors: map<string, string>, value: string): (r: map<string, string>)
    ensures "name" in r <==> value == ""
    ensures "name" in r ==> r["name"] == NameRequired
    ensures r - {"name"} == errors - {"name"}
  {
    if value == "" then errors["name" := NameRequired] else errors - {"name"}
  }

  /** The errors after the e-mail input changes to `value`: the "email"
      error is present exactly when the validator rejects a non-blank
      value, and every other field's error is left as it was. */
  function AfterEmailChange(errors: map<string, string>, value: string, isEmailValid: string -> bool)
    : (r: map<string, string>)
    ensures "email" in r <==> EmailRejected(value, isEmailValid)
    ensures "email" in r ==> r["email"] == InvalidEmail
    ensures r - {"email"} == errors - {"email"}
  {
    if value != "" && !isEmailValid(value) then errors["email" := InvalidEmail] else errors - {"email"}
  }

  /** `isFormValid`: a non-blank name and an empty error collection
      (`errors.length === 0`). */
  function FormValid(name: string, errors: map<string, string>): (valid: bool)
    ensures valid <==> name != "" && errors == map[]
    ensures valid ==> "name" !in errors && "email" !in errors
  {
    name != "" && |errors| == 0
  }

  /** The error collection says what the change handlers would say about the
      current values: only "name" and "email" can carry an error, a "name"
      error means the name is blank, and the "email" error is present exactly
      when the e-mail is rejected. (The name starts blank without an error:
      the user has not touched the field yet.) */
  predicate ErrorsAgree(name: string, email: string, errors: map<string, string>, isEmailValid: string -> bool)
  {
    && errors.Keys <= {"name", "email"}
    && ("name" in errors ==> name == "" && errors["name"] == NameRequired)
    && ("email" in errors <==> EmailRejected(email, isEmailValid))
    && ("email" in errors ==> errors["email"] == InvalidEmail)
  }

  /** A name change keeps the errors in agreement with the values. */
  lemma NameChangeKeepsAgreement(name: string, email: string, errors: map<string, string>,
                                 isEmailValid: string -> bool, value: string)
    requires ErrorsAgree(name, email, errors, isEmailValid)
    ensures ErrorsAgree(value, email, AfterNameChange(errors, value), isEmailValid)
  {
  }

  /** An e-mail change keeps the errors in agreement with the values. */
  lemma EmailChangeKeepsAgreement(name: string, email: string, errors: map<string, string>,
                                  isEmailValid: string -> bool, value: string)
    requires ErrorsAgree(name, email, errors, isEmailValid)
    ensures ErrorsAgree(name, value, AfterEmailChange(errors, value, isEmailValid), isEmailValid)
  {
  }

  /** While the errors agree with the values, a form with a non-blank name is
      valid exactly when its e-mail is blank or accepted by the validator. */
  lemma FormValidWhenAgreed(name: string, email: string, errors: map<string, string>,
                            isEmailValid: string -> bool)
    requires ErrorsAgree(name, email, errors, isEmailValid)
    ensures FormValid(name, errors) <==> name != "" && !EmailRejected(email, isEmailValid)
  {
  }

  /** `resetFields` leaves the errors alone: the result still agrees with
      the blank values exactly when no "email" error was recorded. */
  lemma ResetKeepsAgreementIffNoEmailError(name: string, email: string, errors: map<string, string>,
                                           isEmailValid: string -> bool)
    requires ErrorsAgree(name, email, errors, isEmailValid)
    ensures ErrorsAgree("", "", errors, isEmailValid) <==> "email" !in errors
  {
  }

  /** Replacing the name and e-mail without touching the errors (what both
      ref commands do): the errors still agree with the new values exactly
      when a recorded "name" error goes with a blank new name and the
      "email" error is recorded exactly when the new e-mail is rejected. */
  lemma ValuesReplacedAgreement(name: string, email: string, errors: map<string, string>,
                                isEmailValid: string -> bool, newName: string, newEmail: string)
    requires ErrorsAgree(name, email, errors, isEmailValid)
    ensures ErrorsAgree(newName, newEmail, errors, isEmailValid)
        <==> ("name" in errors ==> newName == "") && ("email" in errors <==> EmailRejected(newEmail, isEmailValid))
  {
  }

  /** A name error recorded before `setFieldsValues` survives it: after the
      name was cleared, loading a record named "Ana" leaves the message on
      screen and the form invalid although its name is not blank. */
  lemma StaleNameErrorAfterLoad(isEmailValid: string -> bool)
    ensures var errors := AfterNameChange(map[], "");
            && errors == map["name" := NameRequired]
            && !FormValid("Ana", errors)
            && !ErrorsAgree("Ana", "", errors, isEmailValid)
  {
  }

  /** `setFieldsValues` leaves the errors alone: on a form with no errors
      the loaded values agree with them exactly when the loaded e-mail is
      not rejected (an invalid stored e-mail gets no error, and the form is
      then submittable). */
  lemma LoadedRecordAgreement(contact: ContactRecord, isEmailValid: string -> bool)
    ensures ErrorsAgree(contact.name.OrElse(""), contact.email.OrElse(""), map[], isEmailValid)
        <==> !EmailRejected(contact.email.OrElse(""), isEmailValid)
  {
  }

  /** Clearing the name disables submission; typing a name afterwards
      enables it again when nothing else is wrong. */
  lemma ClearThenTypeName()
    ensures var cleared := AfterNameChange(map[], "");
            cleared == map["name" := NameRequired] && !FormValid("", cleared)
    ensures var typed := AfterNameChange(AfterNameChange(map[], ""), "Ana");
            typed == map[] && FormValid("Ana", typed)
  {
  }

  /** A malformed e-mail is flagged; clearing it or fixing it removes the
      error. */
  lemma EmailEditSequence(isEmailValid: string -> bool)
    requires !isEmailValid("not-an-email") && isEmailValid("a@b.com")
    ensures var bad := AfterEmailChange(map[], "not-an-email", isEmailValid);
            bad == map["email" := InvalidEmail]
    ensures var bad := AfterEmailChange(map[], "not-an-email", isEmailValid);
            AfterEmailChange(bad, "", isEmailValid) == map[]
    ensures var bad := AfterEmailChange(map[], "not-an-email", isEmailValid);
            AfterEmailChange(bad, "a@b.com", isEmailValid) == map[]
  {
  }

  /** The state of one mounted contact form. */
  class Form {
    const isEmailValid: string -> bool
    const formatPhone: string -> string

    var name: string
    var email: string
    var phone: string
    var categoryId: string
    var categories: seq<Category>
    var isLoadingCategories: bool
    var isSubmitting: bool
    /** The error collection, one message per field. */
    var errors: map<string, string>

    /** The errors agree with the field values (see `ErrorsAgree`). */
    predicate Consistent()
      reads this
    {
      ErrorsAgree(name, email, errors, isEmailValid)
    }

    /** `isFormValid`, over the current state. */
    function IsFormValid(): (valid: bool)
      reads this
      ensures valid <==> name != "" && errors == map[]
    {
      FormValid(name, errors)
    }

    /** The submit button's `disabled`: a blank name or any recorded error
        disables it, and it is enabled otherwise. */
    function SubmitDisabled(): (disabled: bool)
      reads this
      ensures disabled <==> !IsFormValid()
      ensures name == "" ==> disabled
      ensures "name" in errors || "email" in errors ==> disabled
    {
      !IsFormValid()
    }

    /** A freshly mounted form: blank fields, no categories yet, categories
        loading, not submitting, no errors. */
    constructor (isEmailValid: string -> bool, formatPhone: string -> string)
      ensures this.isEmailValid == isEmailValid && this.formatPhone == formatPhone
      ensures name == "" && email == "" && phone == "" && categoryId == ""
      ensures categories == [] && isLoadingCategories && !isSubmitting
      ensures errors == map[]
      ensures Consistent() && SubmitDisabled()
    {
      this.isEmailValid := isEmailValid;
      this.formatPhone := formatPhone;
      name, email, phone, categoryId := "", "", "", "";
      categories := [];
      isLoadingCategories := true;
      isSubmitting := false;
      errors := map[];
    }

    /** `handleNameChange`: store the value, then record or remove the
        "name" error. */
    method HandleNameChange(value: string)
      modifies this`name, this`errors
      ensures name == value
      ensures errors == AfterNameChange(old(errors), value)
      ensures old(Consistent()) ==> Consistent()
      ensures value == "" ==> SubmitDisabled()
    {
      name := value;
      ghost var before := errors;
      if value == "" {
        errors := errors["name" := NameRequired];
      } else {
        errors := errors - {"name"};
      }
      if old(Consistent()) {
        NameChangeKeepsAgreement(old(name), email, before, isEmailValid, value);
      }
    }

    /** `handleEmailChange`: store the value, then record the "email" error
        when a non-blank value is rejected, and remove it otherwise. */
    method HandleEmailChange(value: string)
      modifies this`email, this`errors
      ensures email == value
      ensures errors == AfterEmailChange(old(errors), value, isEmailValid)
      ensures old(Consistent()) ==> Consistent()
      ensures EmailRejected(value, isEmailValid) ==> SubmitDisabled()
    {
      email := value;
      ghost var before := errors;
      if value != "" && !isEmailValid(value) {
        errors := errors["email" := InvalidEmail];
      } else {
        errors := errors - {"email"};
      }
      if old(Consistent()) {
        EmailChangeKeepsAgreement(name, old(email), before, isEmailValid, value);
      }
    }

    /** `handlePhoneChange`: store the formatted value; no validation. */
    method HandlePhoneChange(value: string)
      modifies this`phone
      ensures phone == formatPhone(value)
    {
      phone := formatPhone(value);
    }

    /** The category select's change handler: store the chosen id. */
    method HandleCategoryChange(value: string)
      modifies this`categoryId
      ensures categoryId == value
    {
      categoryId := value;
    }

    /** `setFieldsValues`: each field takes the record's value, or "" when
        it is null/undefined; the phone goes through the formatter. The
        errors, categories and flags are not touched. */
    method SetFieldsValues(contact: ContactRecord)
      modifies this`name, this`email, this`phone, this`categoryId
      ensures name == contact.name.OrElse("")
      ensures email == contact.email.OrElse("")
      ensures phone == formatPhone(contact.phone.OrElse(""))
      ensures categoryId == contact.categoryId.OrElse("")
      ensures old(errors) == map[] ==> (Consistent() <==> !EmailRejected(email, isEmailValid))
      ensures old(Consistent()) ==>
                (Consistent() <==> ("name" in errors ==> name == "")
                                   && ("email" in errors <==> EmailRejected(email, isEmailValid)))
    {
      name := contact.name.OrElse("");
      email := contact.email.OrElse("");
      phone := formatPhone(contact.phone.OrElse(""));
      categoryId := contact.categoryId.OrElse("");
      if errors == map[] {
        LoadedRecordAgreement(contact, isEmailValid);
      }
      if old(Consistent()) {
        ValuesReplacedAgreement(old(name), old(email), errors, isEmailValid, name, email);
      }
    }

    /** `resetFields`: blank all four fields. The errors, categories and
        flags are not touched. */
    method ResetFields()
      modifies this`name, this`email, this`phone, this`categoryId
      ensures name == "" && email == "" && phone == "" && categoryId == ""
      ensures SubmitDisabled()
      ensures old(Consistent()) ==> (Consistent() <==> "email" !in errors)
    {
      name, email, phone, categoryId := "", "", "", "";
      if old(Consistent()) {
        ResetKeepsAgreementIffNoEmailError(old(name), old(email), errors, isEmailValid);
      }
    }

    /** `loadCategories` once the category request settles: the list is
        replaced on success and kept on failure; in both cases the loading
        flag drops (the `finally` block). */
    method CategoriesSettled(outcome: Outcome<seq<Category>>)
      modifies this`categories, this`isLoadingCategories
      ensures !isLoadingCategories
      ensures outcome.Succeeded? ==> categories == outcome.value
      ensures outcome.Failed? ==> categories == old(categories)
    {
      if outcome.Succeeded? {
        categories := outcome.value;
      }
      isLoadingCategories := false;
    }

    /** `handleSubmit` up to its await: raise the submitting flag and hand
        the current values to `onSubmit`. */
    method BeginSubmit() returns (values: FormValues)
      modifies this`isSubmitting
      ensures isSubmitting
      ensures values == FormValues(name, email, phone, categoryId)
    {
      isSubmitting := true;
      values := FormValues(name, email, phone, categoryId);
    }

    /** `handleSubmit` after `onSubmit` settles: the flag drops only when it
        resolved; a rejection skips the reset, which is not in a `finally`. */
    method SubmitSettled(outcome: Outcome<()>)
      modifies this`isSubmitting
      ensures outcome.Succeeded? ==> !isSubmitting
      ensures outcome.Failed? ==> isSubmitting == old(isSubmitting)
    {
      if outcome.Succeeded? {
        isSubmitting := false;
      }
    }
  }
}
