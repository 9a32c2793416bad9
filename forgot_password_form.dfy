/**
 * The validation of the "forgotten password" form: the visitor searches
 * for their account either by user name or by email address, and, when
 * the site has set it up, answers a reCAPTCHA challenge.
 *
 * The user table, the email syntax check and the reCAPTCHA service are
 * reached through the lookups passed in; the site settings are values.
 */
module ForgotPasswordForm {
  import opened Php

  /** The form fields an error can be attached to. */
  datatype Field = UsernameField | EmailField | RecaptchaElement

  /** The errors, by their language-string identifiers. */
  datatype Error =
    | UsernameOrEmail             // 'usernameoremail'
    | InvalidEmail                // 'invalidemail'
    | ForgottenDuplicate          // 'forgottenduplicate'
    | ConfirmedNot                // 'confirmednot'
    | EmailNotFound               // 'emailnotfound'
    | UsernameNotFound            // 'usernamenotfound'
    | IncorrectCaptcha            // 'incorrectpleasetryagain'
    | CaptchaFailure(reason: string)
    | MissingChallenge            // 'missingrecaptchachallengefield'

  /** A user record, as far as the form looks at it. */
  datatype User = User(confirmed: bool)

  /**
   * The lookups the validation makes: `validate_email`, the number of
   * users with an address, and the user with a given address or name.
   */
  datatype Directory = Directory(
    validEmail: string -> bool,
    countByEmail: string -> nat,
    byEmail: string -> Option<User>,
    byUsername: string -> Option<User>)

  /** The site settings the form reads. */
  datatype Settings = Settings(
    protectusernames: Value,
    recaptchapublickey: Value,
    recaptchaprivatekey: Value,
    recaptchaforgotform: Value)

  /** `captcha_enabled`: both reCAPTCHA keys are configured and the form asks for a captcha. */
  predicate CaptchaEnabled(cfg: Settings) {
    !IsEmpty(cfg.recaptchapublickey) && !IsEmpty(cfg.recaptchaprivatekey) && !IsEmpty(cfg.recaptchaforgotform)
  }

  /** A found user that has not confirmed the account gets `confirmednot`, on the email field. */
  function FoundUserErrors(user: User): map<Field, Error> {
    if user.confirmed then map[] else map[EmailField := ConfirmedNot]
  }

  /**
   * The errors of the account search: exactly one of user name and email
   * must be given; an email must be well formed and name at most one
   * account; the account found must be confirmed; an account that is not
   * found is reported only when user names are not protected.
   */
  function SearchErrors(username: string, email: string, cfg: Settings, db: Directory): map<Field, Error> {
    if EmptyString(username) == EmptyString(email) then
      map[UsernameField := UsernameOrEmail, EmailField := UsernameOrEmail]
    else if !EmptyString(email) then
      if !db.validEmail(email) then map[EmailField := InvalidEmail]
      else if db.countByEmail(email) > 1 then map[EmailField := ForgottenDuplicate]
      else match db.byEmail(email)
        case Some(user) => FoundUserErrors(user)
        case None => if IsEmpty(cfg.protectusernames) then map[EmailField := EmailNotFound] else map[]
    else
      match db.byUsername(username)
      case Some(user) => FoundUserErrors(user)
      case None => if IsEmpty(cfg.protectusernames) then map[UsernameField := UsernameNotFound] else map[]
  }

  /**
   * The captcha errors: none when the captcha is off; otherwise a missing
   * challenge, or the service's verdict when it rejects the answer.
   * `verify` gives None when the answer is accepted and the reason otherwise.
   */
  function CaptchaErrors(cfg: Settings, challenge: Option<string>, response: string,
                         verify: (string, string) -> Option<string>): map<Field, Error>
  {
    if !CaptchaEnabled(cfg) then map[]
    else if challenge.Some? && !EmptyString(challenge.value) then
      match verify(challenge.value, response)
      case None => map[]
      case Some(reason) =>
        map[RecaptchaElement := if reason == "incorrect-captcha-sol" then IncorrectCaptcha else CaptchaFailure(reason)]
    else map[RecaptchaElement := MissingChallenge]
  }

  /** Both or neither search field given: both fields are flagged and nothing is looked up. */
  lemma ExactlyOneSearchField(username: string, email: string, cfg: Settings, db: Directory)
    requires EmptyString(username) == EmptyString(email)
    ensures SearchErrors(username, email, cfg, db) == map[UsernameField := UsernameOrEmail, EmailField := UsernameOrEmail]
  {
  }

  /**
   * A search by email only ever reports on the email field; a malformed
   * address is reported as such and a shared address as a duplicate.
   */
  lemma EmailSearchErrors(username: string, email: string, cfg: Settings, db: Directory)
    requires EmptyString(username) && !EmptyString(email)
    ensures SearchErrors(username, email, cfg, db).Keys <= {EmailField}
    ensures !db.validEmail(email) ==> SearchErrors(username, email, cfg, db) == map[EmailField := InvalidEmail]
    ensures db.validEmail(email) && db.countByEmail(email) > 1 ==>
      SearchErrors(username, email, cfg, db) == map[EmailField := ForgottenDuplicate]
  {
  }

  /** An unconfirmed account is reported on the email field, whichever field found it. */
  lemma UnconfirmedReportedOnEmail(username: string, email: string, cfg: Settings, db: Directory)
    requires EmptyString(username) != EmptyString(email)
    requires !EmptyString(email) ==> db.validEmail(email) && db.countByEmail(email) <= 1
    requires var found := if EmptyString(email) then db.byUsername(username) else db.byEmail(email);
      found.Some? && !found.value.confirmed
    ensures SearchErrors(username, email, cfg, db) == map[EmailField := ConfirmedNot]
  {
  }

  /**
   * With user names protected, a search for an account that does not
   * exist gives the same result as one for a confirmed account: nothing
   * tells the visitor which accounts exist.  Without protection the
   * missing account is reported on the field that was searched.
   */
  lemma ProtectedUsernamesHideAccounts(username: string, email: string, cfg: Settings, missing: Directory, present: Directory)
    requires EmptyString(username) != EmptyString(email)
    requires missing.validEmail == present.validEmail && missing.countByEmail == present.countByEmail
    requires missing.byEmail(email).None? && missing.byUsername(username).None?
    requires present.byEmail(email) == Some(User(true)) && present.byUsername(username) == Some(User(true))
    ensures !IsEmpty(cfg.protectusernames) ==>
      SearchErrors(username, email, cfg, missing) == SearchErrors(username, email, cfg, present)
    ensures IsEmpty(cfg.protectusernames) && EmptyString(email) ==>
      SearchErrors(username, email, cfg, missing) == map[UsernameField := UsernameNotFound]
    ensures IsEmpty(cfg.protectusernames) && !EmptyString(email) && missing.validEmail(email) && missing.countByEmail(email) <= 1 ==>
      SearchErrors(username, email, cfg, missing) == map[EmailField := EmailNotFound]
  {
  }

  /**
   * The captcha field gets an error exactly when the captcha is enabled
   * and the challenge is missing or its answer is rejected; a missing
   * challenge is reported as such.
   */
  lemma CaptchaErrorWhenEnabledOnly(cfg: Settings, challenge: Option<string>, response: string,
                                    verify: (string, string) -> Option<string>)
    ensures RecaptchaElement in CaptchaErrors(cfg, challenge, response, verify) <==>
      CaptchaEnabled(cfg)
      && (challenge.None? || EmptyString(challenge.value) || verify(challenge.value, response).Some?)
    ensures CaptchaEnabled(cfg) && (challenge.None? || EmptyString(challenge.value)) ==>
      CaptchaErrors(cfg, challenge, response, verify) == map[RecaptchaElement := MissingChallenge]
    ensures CaptchaErrors(cfg, challenge, response, verify).Keys <= {RecaptchaElement}
  {
  }

  /**
   * `validation`: fills the error map step by step, the search errors
   * first and the captcha error after.  The search errors and the captcha
   * error are on different fields, so neither hides the other.
   */
  method Validation(username: string, email: string, cfg: Settings, db: Directory,
                    challenge: Option<string>, response: string,
                    verify: (string, string) -> Option<string>)
    returns (errors: map<Field, Error>)
    ensures errors == SearchErrors(username, email, cfg, db) + CaptchaErrors(cfg, challenge, response, verify)
    ensures forall f :: f in SearchErrors(username, email, cfg, db) ==> errors[f] == SearchErrors(username, email, cfg, db)[f]
  {
    ghost var search := SearchErrors(username, email, cfg, db);
    errors := map[];
    if (!EmptyString(username) && !EmptyString(email)) || (EmptyString(username) && EmptyString(email)) {
      errors := errors[UsernameField := UsernameOrEmail];
      errors := errors[EmailField := UsernameOrEmail];
      assert errors == search;
    } else if !EmptyString(email) {
      if !db.validEmail(email) {
        errors := errors[EmailField := InvalidEmail];
      } else if db.countByEmail(email) > 1 {
        errors := errors[EmailField := ForgottenDuplicate];
      } else {
        var user := db.byEmail(email);
        if user.Some? {
          if !user.value.confirmed {
            errors := errors[EmailField := ConfirmedNot];
          }
        }
        if user.None? && IsEmpty(cfg.protectusernames) {
          errors := errors[EmailField := EmailNotFound];
        }
      }
      assert errors == search;
    } else {
      var user := db.byUsername(username);
      if user.Some? {
        if !user.value.confirmed {
          errors := errors[EmailField := ConfirmedNot];
        }
      }
      if user.None? && IsEmpty(cfg.protectusernames) {
        errors := errors[UsernameField := UsernameNotFound];
      }
      assert errors == search;
    }

    ghost var captcha := CaptchaErrors(cfg, challenge, response, verify);
    if CaptchaEnabled(cfg) {
      if challenge.Some? && !EmptyString(challenge.value) {
        var result := verify(challenge.value, response);
        if result.Some? {
          if result.value == "incorrect-captcha-sol" {
            errors := errors[RecaptchaElement := IncorrectCaptcha];
          } else {
            errors := errors[RecaptchaElement := CaptchaFailure(result.value)];
          }
          assert captcha == map[RecaptchaElement := errors[RecaptchaElement]];
        } else {
          assert captcha == map[];
        }
      } else {
        errors := errors[RecaptchaElement := MissingChallenge];
        assert captcha == map[RecaptchaElement := MissingChallenge];
      }
    } else {
      assert captcha == map[];
    }
  }
}
