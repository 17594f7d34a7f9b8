/**
  The settings page (app/settings/page.tsx): the feedback form and the
  change-password form, their validators, which compute every error of a
  form at once, the submit handlers, which reset a form only when it is
  valid, and the change handlers, which update one field and clear that
  field's error.
 */
module Settings {
  import opened Text

  /** `kind` is the source's `type` field ("general", "suggestion", "issue", "teacher"). */
  datatype FeedbackForm = FeedbackForm(kind: string, subject: string, message: string, anonymous: bool)
  datatype FeedbackErrors = FeedbackErrors(subject: string, message: string)

  datatype PasswordForm = PasswordForm(currentPassword: string, newPassword: string, confirmPassword: string)
  datatype PasswordErrors = PasswordErrors(currentPassword: string, newPassword: string, confirmPassword: string, general: string)

  /** The text inputs of the feedback form, by their `name` attribute. */
  datatype FeedbackField = Subject | Message

  /** The inputs of the password form, by their `name` attribute. */
  datatype PasswordField = CurrentPassword | NewPassword | ConfirmPassword

  const SubjectRequired := "Subject is required"
  const MessageRequired := "Message is required"
  const MessageTooShort := "Message must be at least 10 characters"
  const CurrentRequired := "Current password is required"
  const NewRequired := "New password is required"
  const NewTooShort := "Password must be at least 8 characters"
  const ConfirmRequired := "Please confirm your new password"
  const Mismatch := "Passwords do not match"

  const MinMessageLength := 10
  const MinPasswordLength := 8

  const DefaultFeedback := FeedbackForm("general", "", "", false)
  const NoFeedbackErrors := FeedbackErrors("", "")
  const EmptyPasswordForm := PasswordForm("", "", "")
  const NoPasswordErrors := PasswordErrors("", "", "", "")

  // ---------------------------------------------------------------------
  // Feedback

  /**
    What the feedback form requires: a subject and a message of at least 10
    characters, both trimmed; lengths are JavaScript lengths (UTF-16 code units).
   */
  predicate FeedbackAcceptable(form: FeedbackForm) {
    Trim(form.subject) != "" && Utf16Length(Trim(form.message)) >= MinMessageLength
  }

  /**
    `validateFeedbackForm` without the state update: start with no errors
    and a valid flag, and check the subject and then the message.
   */
  method CheckFeedback(form: FeedbackForm) returns (errors: FeedbackErrors, isValid: bool)
    ensures isValid <==> FeedbackAcceptable(form)
    ensures isValid <==> errors == NoFeedbackErrors
    ensures errors == FeedbackErrorsOf(form)
    ensures errors.subject == (if IsBlank(form.subject) then SubjectRequired else "")
    ensures errors.message == (if IsBlank(form.message) then MessageRequired
                               else if Utf16Length(Trim(form.message)) < MinMessageLength then MessageTooShort
                               else "")
  {
    errors := NoFeedbackErrors;
    isValid := true;
    if IsBlank(form.subject) {
      errors := errors.(subject := SubjectRequired);
      isValid := false;
    }
    if IsBlank(form.message) {
      errors := errors.(message := MessageRequired);
      isValid := false;
    } else if Utf16Length(Trim(form.message)) < MinMessageLength {
      errors := errors.(message := MessageTooShort);
      isValid := false;
    }
  }

  /**
    The two feedback checks do not depend on each other: a blank subject and
    a blank message are both reported, and a blank message is reported as
    missing, not as too short.
   */
  lemma BlankFeedbackReportsBoth(form: FeedbackForm)
    requires IsBlank(form.subject) && IsBlank(form.message)
    ensures FeedbackErrorsOf(form) == FeedbackErrors(SubjectRequired, MessageRequired)
  {
  }

  /** The errors the feedback validator reports, as a function of the form. */
  function FeedbackErrorsOf(form: FeedbackForm): (errors: FeedbackErrors)
    ensures errors == NoFeedbackErrors <==> FeedbackAcceptable(form)
    ensures errors.subject != "" <==> IsBlank(form.subject)
    ensures errors.message != "" <==> Utf16Length(Trim(form.message)) < MinMessageLength
  {
    FeedbackErrors(
      if IsBlank(form.subject) then SubjectRequired else "",
      if IsBlank(form.message) then MessageRequired
      else if Utf16Length(Trim(form.message)) < MinMessageLength then MessageTooShort
      else "")
  }

  // ---------------------------------------------------------------------
  // Password

  /**
    What the password form requires, untrimmed: a current password, a new
    password of at least 8 UTF-16 code units, and a confirmation equal to it.
   */
  predicate PasswordAcceptable(form: PasswordForm) {
    form.currentPassword != "" && form.newPassword != "" && Utf16Length(form.newPassword) >= MinPasswordLength
    && form.confirmPassword != "" && form.confirmPassword == form.newPassword
  }

  /** The errors the password validator reports, as a function of the form. */
  function PasswordErrorsOf(form: PasswordForm): (errors: PasswordErrors)
    ensures errors == NoPasswordErrors <==> PasswordAcceptable(form)
    ensures errors.general == ""
    ensures errors.currentPassword != "" <==> form.currentPassword == ""
    ensures errors.newPassword != "" <==> Utf16Length(form.newPassword) < MinPasswordLength
    ensures errors.confirmPassword != "" <==> form.confirmPassword == "" || form.confirmPassword != form.newPassword
  {
    PasswordErrors(
      if form.currentPassword == "" then CurrentRequired else "",
      if form.newPassword == "" then NewRequired
      else if Utf16Length(form.newPassword) < MinPasswordLength then NewTooShort
      else "",
      if form.confirmPassword == "" then ConfirmRequired
      else if form.newPassword != form.confirmPassword then Mismatch
      else "",
      "")
  }

  /**
    An 8-unit password made of six digits and one emoji (two UTF-16 units)
    is long enough, although it has only seven characters.
   */
  lemma EmojiPasswordLongEnough()
    ensures Utf16Length("123456\U{1F600}") == 8
    ensures PasswordAcceptable(PasswordForm("x", "123456\U{1F600}", "123456\U{1F600}"))
  {
    assert "123456\U{1F600}"[1..] == "23456\U{1F600}";
    assert "23456\U{1F600}"[1..] == "3456\U{1F600}";
    assert "3456\U{1F600}"[1..] == "456\U{1F600}";
    assert "456\U{1F600}"[1..] == "56\U{1F600}";
    assert "56\U{1F600}"[1..] == "6\U{1F600}";
    assert "6\U{1F600}"[1..] == "\U{1F600}";
  }

  /**
    `validatePasswordForm` without the state update: start with no errors
    and a valid flag, and check the current, new and confirmed passwords.
   */
  method CheckPassword(form: PasswordForm) returns (errors: PasswordErrors, isValid: bool)
    ensures isValid <==> PasswordAcceptable(form)
    ensures isValid <==> errors == NoPasswordErrors
    ensures errors == PasswordErrorsOf(form)
  {
    errors := NoPasswordErrors;
    isValid := true;
    if form.currentPassword == "" {
      errors := errors.(currentPassword := CurrentRequired);
      isValid := false;
    }
    if form.newPassword == "" {
      errors := errors.(newPassword := NewRequired);
      isValid := false;
    } else if Utf16Length(form.newPassword) < MinPasswordLength {
      errors := errors.(newPassword := NewTooShort);
      isValid := false;
    }
    if form.confirmPassword == "" {
      errors := errors.(confirmPassword := ConfirmRequired);
      isValid := false;
    } else if form.newPassword != form.confirmPassword {
      errors := errors.(confirmPassword := Mismatch);
      isValid := false;
    }
  }

  /**
    A short new password and a different confirmation are both reported:
    the confirmation is compared even when the new password is rejected.
   */
  method ShortAndMismatched() returns (errors: PasswordErrors)
    ensures errors == PasswordErrors("", NewTooShort, Mismatch, "")
  {
    var isValid;
    errors, isValid := CheckPassword(PasswordForm("old", "abc", "abd"));
  }

  // ---------------------------------------------------------------------
  // The page state

  /** The state of the feedback and password forms and their event handlers. */
  class SettingsPage {
    var feedbackForm: FeedbackForm
    var feedbackErrors: FeedbackErrors
    var feedbackSubmitted: bool
    var passwordForm: PasswordForm
    var passwordErrors: PasswordErrors
    var passwordSubmitted: bool

    constructor ()
      ensures feedbackForm == DefaultFeedback && feedbackErrors == NoFeedbackErrors && !feedbackSubmitted
      ensures passwordForm == EmptyPasswordForm && passwordErrors == NoPasswordErrors && !passwordSubmitted
    {
      feedbackForm := DefaultFeedback;
      feedbackErrors := NoFeedbackErrors;
      feedbackSubmitted := false;
      passwordForm := EmptyPasswordForm;
      passwordErrors := NoPasswordErrors;
      passwordSubmitted := false;
    }

    /** `handleFeedbackChange`: set the field and clear that field's error, if any. */
    method ChangeFeedback(field: FeedbackField, value: string)
      modifies this`feedbackForm, this`feedbackErrors
      ensures feedbackForm == match field
        case Subject => old(feedbackForm).(subject := value)
        case Message => old(feedbackForm).(message := value)
      ensures feedbackErrors == match field
        case Subject => old(feedbackErrors).(subject := "")
        case Message => old(feedbackErrors).(message := "")
    {
      match field
      case Subject =>
        feedbackForm := feedbackForm.(subject := value);
        if feedbackErrors.subject != "" {
          feedbackErrors := feedbackErrors.(subject := "");
        }
      case Message =>
        feedbackForm := feedbackForm.(message := value);
        if feedbackErrors.message != "" {
          feedbackErrors := feedbackErrors.(message := "");
        }
    }

    /** `handleFeedbackTypeChange`. */
    method SetFeedbackType(value: string)
      modifies this`feedbackForm
      ensures feedbackForm == old(feedbackForm).(kind := value)
    {
      feedbackForm := feedbackForm.(kind := value);
    }

    /** `handleFeedbackSwitchChange`. */
    method SetAnonymous(checked: bool)
      modifies this`feedbackForm
      ensures feedbackForm == old(feedbackForm).(anonymous := checked)
    {
      feedbackForm := feedbackForm.(anonymous := checked);
    }

    /** `validateFeedbackForm`: store every error of the form and say whether there were none. */
    method ValidateFeedback() returns (isValid: bool)
      modifies this`feedbackErrors
      ensures feedbackErrors == FeedbackErrorsOf(feedbackForm)
      ensures isValid <==> FeedbackAcceptable(feedbackForm)
    {
      feedbackErrors, isValid := CheckFeedback(feedbackForm);
    }

    /**
      `handleFeedbackSubmit`: an invalid form keeps its contents and shows
      its errors; a valid one is reset and the success banner is shown.
     */
    method SubmitFeedback() returns (isValid: bool)
      modifies this`feedbackForm, this`feedbackErrors, this`feedbackSubmitted
      ensures isValid <==> FeedbackAcceptable(old(feedbackForm))
      ensures feedbackErrors == FeedbackErrorsOf(old(feedbackForm))
      ensures !isValid ==> feedbackForm == old(feedbackForm) && feedbackSubmitted == old(feedbackSubmitted)
      ensures isValid ==> feedbackForm == DefaultFeedback && feedbackSubmitted
    {
      isValid := ValidateFeedback();
      if !isValid {
        return;
      }
      feedbackSubmitted := true;
      feedbackForm := DefaultFeedback;
    }

    /** `handlePasswordChange`: set the field and clear that field's error, if any. */
    method ChangePassword(field: PasswordField, value: string)
      modifies this`passwordForm, this`passwordErrors
      ensures passwordForm == match field
        case CurrentPassword => old(passwordForm).(currentPassword := value)
        case NewPassword => old(passwordForm).(newPassword := value)
        case ConfirmPassword => old(passwordForm).(confirmPassword := value)
      ensures passwordErrors == match field
        case CurrentPassword => old(passwordErrors).(currentPassword := "")
        case NewPassword => old(passwordErrors).(newPassword := "")
        case ConfirmPassword => old(passwordErrors).(confirmPassword := "")
    {
      match field
      case CurrentPassword =>
        passwordForm := passwordForm.(currentPassword := value);
        if passwordErrors.currentPassword != "" {
          passwordErrors := passwordErrors.(currentPassword := "");
        }
      case NewPassword =>
        passwordForm := passwordForm.(newPassword := value);
        if passwordErrors.newPassword != "" {
          passwordErrors := passwordErrors.(newPassword := "");
        }
      case ConfirmPassword =>
        passwordForm := passwordForm.(confirmPassword := value);
        if passwordErrors.confirmPassword != "" {
          passwordErrors := passwordErrors.(confirmPassword := "");
        }
    }

    /** `validatePasswordForm`: store every error of the form and say whether there were none. */
    method ValidatePassword() returns (isValid: bool)
      modifies this`passwordErrors
      ensures passwordErrors == PasswordErrorsOf(passwordForm)
      ensures isValid <==> PasswordAcceptable(passwordForm)
    {
      passwordErrors, isValid := CheckPassword(passwordForm);
    }

    /**
      `handlePasswordSubmit`: an invalid form keeps its contents and shows
      its errors; a valid one is cleared and the success banner is shown.
     */
    method SubmitPassword() returns (isValid: bool)
      modifies this`passwordForm, this`passwordErrors, this`passwordSubmitted
      ensures isValid <==> PasswordAcceptable(old(passwordForm))
      ensures passwordErrors == PasswordErrorsOf(old(passwordForm))
      ensures !isValid ==> passwordForm == old(passwordForm) && passwordSubmitted == old(passwordSubmitted)
      ensures isValid ==> passwordForm == EmptyPasswordForm && passwordSubmitted
    {
      isValid := ValidatePassword();
      if !isValid {
        return;
      }
      passwordSubmitted := true;
      passwordForm := EmptyPasswordForm;
    }
  }
}
