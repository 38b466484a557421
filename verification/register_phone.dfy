/** The phone-registration page: a two-screen machine (send a verification code,
    then verify it) driven by field edits, server answers and the expiry countdown,
    and the predicate that decides whether registration is open at all. */
module RegisterPhone {
  import opened Wrappers

  datatype Screen = SendCodeScreen | VerifyCodeScreen

  /** The codes the page's switches name; every other code is an `OtherError`. */
  const NAMED_CODES: set<string> := {
    "INVALID_PHONE", "INVALID_NATIONAL_PHONE", "LIMIT_CODE_SENT_EXCEEDED",
    "IN_PROGRESS_VERIFICATION", "PHONE_NOT_REGISTERED", "CODE_EXPIRED", "INCORRECT_CODE"
  }

  /** The name of an error code the page does not single out. */
  type OtherCode = name: string | name !in NAMED_CODES witness ""

  /** The error codes the verification mutations answer with. */
  datatype ErrorCode =
    | InvalidPhone
    | InvalidNationalPhone
    | LimitCodeSentExceeded
    | InProgressVerification
    | PhoneNotRegistered
    | CodeExpired
    | IncorrectCode
    | OtherError(name: OtherCode)

  /** The messages shown under the phone field (their translation keys). */
  datatype PhoneMessage =
    | MsgLimitCodeSentExceeded   // common:limit-code-sent-exceeded
    | MsgInProgressVerification  // common:in-progress-verification
    | MsgPhoneInvalid            // common:phone-invalid
    | MsgMutationError           // common:mutation-error
    | MsgVerificationFailed      // common:verification-failed
    | MsgExpiredCode             // common:expired-code

  /** The messages shown under the code field. */
  datatype CodeMessage =
    | MsgCodeRequired  // common:code-required
    | MsgIncorrectCode // common:incorrect-code

  /** The `errors` record of the page. */
  datatype Errors = Errors(phone: Option<PhoneMessage>, code: Option<CodeMessage>)

  const NO_ERRORS: Errors := Errors(None, None)

  /** The page state. `ticking` says whether the countdown interval runs, and
      `armedErrors` is the `errors` value the interval's callback captured when it
      was started. `navigatedTo` is the route pushed after a verified code. */
  datatype State = State(
    screen: Screen,
    phone: string,
    code: string,
    isSubmitting: bool,
    errors: Errors,
    expiresIn: Option<int>,
    countDown: string,
    ticking: bool,
    armedErrors: Errors,
    navigatedTo: Option<string>)

  const INITIAL: State :=
    State(SendCodeScreen, "", "", false, NO_ERRORS, None, "", false, NO_ERRORS, None)

  datatype Field = PhoneField | CodeField

  /** What a send attempt with reCAPTCHA loaded comes to: `executeRecaptcha`
      rejects before any request is made, or the server answers `verifyPhone`. */
  datatype SendOutcome = CaptchaRejected | CodeSent(expiresAt: int) | SendFailed(sendError: ErrorCode)

  /** The server's answer to `verifyCode`; `redirectTo` is the query parameter. */
  datatype VerifyOutcome = CodeVerified(redirectTo: Option<string>) | VerifyFailed(verifyError: ErrorCode)

  /** The events the page reacts to. `SendCode` carries whether reCAPTCHA was ready
      and what the attempt came to; `VerifyCode` carries the server's answer,
      used only if the request is made; `Tick` carries the formatted time left, or
      `None` once the code has expired. */
  datatype Event =
    | Edit(field: Field, value: string)
    | SendCode(captchaReady: bool, sendOutcome: SendOutcome)
    | VerifyCode(verifyOutcome: VerifyOutcome)
    | Tick(remaining: Option<string>)

  /** The phone message for a failed `verifyPhone`. */
  function SendErrorMessage(code: ErrorCode): (m: PhoneMessage)
    ensures code == InvalidPhone || code == InvalidNationalPhone <==> m == MsgPhoneInvalid
    ensures code == LimitCodeSentExceeded <==> m == MsgLimitCodeSentExceeded
    ensures code == InProgressVerification <==> m == MsgInProgressVerification
    ensures m in {MsgPhoneInvalid, MsgLimitCodeSentExceeded, MsgInProgressVerification, MsgMutationError}
  {
    match code
    case LimitCodeSentExceeded => MsgLimitCodeSentExceeded
    case InProgressVerification => MsgInProgressVerification
    case InvalidPhone => MsgPhoneInvalid
    case InvalidNationalPhone => MsgPhoneInvalid
    case _ => MsgMutationError
  }

  /** `onChange`: clears every error and stores the edited field. */
  function OnChange(s: State, field: Field, value: string): (r: State)
    ensures r.errors == NO_ERRORS
    ensures r.screen == s.screen && r.isSubmitting == s.isSubmitting
    ensures field == PhoneField ==> r.phone == value && r.code == s.code
    ensures field == CodeField ==> r.code == value && r.phone == s.phone
    ensures r == s.(errors := r.errors, phone := r.phone, code := r.code)
  {
    match field
    case PhoneField => s.(errors := NO_ERRORS, phone := value)
    case CodeField => s.(errors := NO_ERRORS, code := value)
  }

  /** `onSendCode`. A rejected `executeRecaptcha` escapes the handler after it set
      the page submitting, so the page stays submitting. */
  function OnSendCode(s: State, captchaReady: bool, outcome: SendOutcome): (r: State)
    ensures r.isSubmitting <==> captchaReady && outcome.CaptchaRejected?
    ensures !captchaReady ==> r == s.(isSubmitting := false)
    ensures captchaReady && outcome.CaptchaRejected? ==> r == s.(isSubmitting := true)
    ensures captchaReady && outcome.CodeSent? ==>
      r == s.(screen := VerifyCodeScreen, expiresIn := Some(outcome.expiresAt), isSubmitting := false,
              ticking := true, armedErrors := s.errors)
    ensures captchaReady && outcome.SendFailed? ==>
      r == s.(isSubmitting := false, errors := s.errors.(phone := Some(SendErrorMessage(outcome.sendError))))
    ensures r.screen == s.screen || (captchaReady && outcome.CodeSent?)
    ensures r.phone == s.phone && r.code == s.code && r.navigatedTo == s.navigatedTo
  {
    if !captchaReady then s.(isSubmitting := false)
    else
      match outcome
      case CaptchaRejected => s.(isSubmitting := true)
      case CodeSent(expiresAt) =>
        // A new expiry date restarts the countdown, whose callback captures the
        // errors of the render that started it.
        s.(expiresIn := Some(expiresAt), isSubmitting := false, screen := VerifyCodeScreen,
           ticking := true, armedErrors := s.errors)
      case SendFailed(code) =>
        s.(errors := s.errors.(phone := Some(SendErrorMessage(code))), isSubmitting := false)
  }

  /** `(router.query.redirectTo as string) || '/'` */
  function RedirectTarget(redirectTo: Option<string>): (t: string)
    ensures t != ""
    ensures redirectTo.Some? && redirectTo.value != "" ==> t == redirectTo.value
    ensures !(redirectTo.Some? && redirectTo.value != "") ==> t == "/"
  {
    if redirectTo.Some? && redirectTo.value != "" then redirectTo.value else "/"
  }

  /** `onVerifyCode`. */
  function OnVerifyCode(s: State, outcome: VerifyOutcome): (r: State)
    ensures s.code == "" ==> r == s.(errors := s.errors.(code := Some(MsgCodeRequired)))
    ensures s.code != "" && outcome.CodeVerified? ==>
      r == s.(isSubmitting := true, navigatedTo := Some(RedirectTarget(outcome.redirectTo)))
    ensures s.code != "" && outcome.VerifyFailed? ==> !r.isSubmitting
    ensures s.code != "" && outcome.VerifyFailed? && outcome.verifyError in {PhoneNotRegistered, CodeExpired} ==>
      r == s.(screen := SendCodeScreen, isSubmitting := false,
              errors := s.errors.(phone := Some(MsgVerificationFailed)))
    ensures s.code != "" && outcome == VerifyFailed(IncorrectCode) ==>
      r == s.(isSubmitting := false, errors := s.errors.(code := Some(MsgIncorrectCode)))
    ensures s.code != "" && outcome.VerifyFailed? ==>
      outcome.verifyError !in {PhoneNotRegistered, CodeExpired, IncorrectCode} ==>
      r == s.(isSubmitting := false)
    ensures r.phone == s.phone && r.code == s.code && r.expiresIn == s.expiresIn && r.ticking == s.ticking
  {
    if s.code == "" then s.(errors := s.errors.(code := Some(MsgCodeRequired)))
    else
      match outcome
      case CodeVerified(redirectTo) =>
        s.(isSubmitting := true, navigatedTo := Some(RedirectTarget(redirectTo)))
      case VerifyFailed(code) =>
        if code == PhoneNotRegistered || code == CodeExpired then
          s.(errors := s.errors.(phone := Some(MsgVerificationFailed)), isSubmitting := false,
             screen := SendCodeScreen)
        else if code == IncorrectCode then
          s.(errors := s.errors.(code := Some(MsgIncorrectCode)), isSubmitting := false)
        else
          s.(isSubmitting := false)
  }

  /** One run of the countdown interval. */
  function OnTick(s: State, remaining: Option<string>): (r: State)
    ensures !s.ticking ==> r == s
    ensures s.ticking && remaining.Some? ==> r == s.(countDown := remaining.value)
    ensures s.ticking && remaining.None? ==>
      r == s.(screen := SendCodeScreen, ticking := false, countDown := "",
              errors := s.armedErrors.(phone := Some(MsgExpiredCode)))
  {
    if !s.ticking then s
    else
      match remaining
      case Some(text) => s.(countDown := text)
      case None =>
        s.(countDown := "", errors := s.armedErrors.(phone := Some(MsgExpiredCode)),
           screen := SendCodeScreen, ticking := false)
  }

  /** The page's reaction to one event. Each handler runs to its end in one step:
      the server's answer is applied together with the request. */
  function Step(s: State, e: Event): (r: State)
    ensures r.phone != s.phone ==> e == Edit(PhoneField, r.phone)
    ensures r.code != s.code ==> e == Edit(CodeField, r.code)
    ensures r.navigatedTo != s.navigatedTo ==>
      e.VerifyCode? && e.verifyOutcome.CodeVerified? && s.code != ""
    ensures r.expiresIn != s.expiresIn ==> e.SendCode? && e.captchaReady && e.sendOutcome.CodeSent?
    ensures !s.isSubmitting && r.isSubmitting <==>
      && !s.isSubmitting
      && (|| (e.SendCode? && e.captchaReady && e.sendOutcome.CaptchaRejected?)
          || (e.VerifyCode? && s.code != "" && e.verifyOutcome.CodeVerified?))
  {
    match e
    case Edit(field, value) => OnChange(s, field, value)
    case SendCode(captchaReady, outcome) => OnSendCode(s, captchaReady, outcome)
    case VerifyCode(outcome) => OnVerifyCode(s, outcome)
    case Tick(remaining) => OnTick(s, remaining)
  }

  /** `handleSubmit`: the form's submit runs the action of the current screen. */
  function HandleSubmit(s: State, captchaReady: bool, send: SendOutcome, verify: VerifyOutcome): (r: State)
    ensures s.screen == SendCodeScreen ==> r == Step(s, SendCode(captchaReady, send))
    ensures s.screen == VerifyCodeScreen ==> r == Step(s, VerifyCode(verify))
  {
    if s.screen == SendCodeScreen then OnSendCode(s, captchaReady, send)
    else OnVerifyCode(s, verify)
  }

  /** The page after a sequence of events. */
  function Run(s: State, events: seq<Event>): State
    decreases |events|
  {
    if events == [] then s else Run(Step(s, events[0]), events[1..])
  }

  // ---------------------------------------------------------------------------
  // Invariants and transition properties
  // ---------------------------------------------------------------------------

  /** What holds of every state the page can reach: the verify screen and the
      countdown need an expiry date, and a countdown text is shown only while the
      interval runs. */
  predicate Consistent(s: State) {
    && (s.screen == VerifyCodeScreen ==> s.expiresIn.Some?)
    && (s.ticking ==> s.expiresIn.Some?)
    && (!s.ticking ==> s.countDown == "")
  }

  lemma InitialIsConsistent()
    ensures Consistent(INITIAL)
  {
  }

  lemma StepPreservesConsistent(s: State, e: Event)
    requires Consistent(s)
    ensures Consistent(Step(s, e))
  {
  }

  lemma {:induction false} RunPreservesConsistent(s: State, events: seq<Event>)
    requires Consistent(s)
    ensures Consistent(Run(s, events))
    decreases |events|
  {
    if events != [] {
      StepPreservesConsistent(s, events[0]);
      RunPreservesConsistent(Step(s, events[0]), events[1..]);
    }
  }

  /** Every state reached from the initial page is consistent. */
  lemma ReachableIsConsistent(events: seq<Event>)
    ensures Consistent(Run(INITIAL, events))
  {
    InitialIsConsistent();
    RunPreservesConsistent(INITIAL, events);
  }

  /** The verify screen is entered only by a code the server sent. */
  lemma VerifyScreenOnlyAfterCodeSent(s: State, e: Event)
    requires s.screen == SendCodeScreen
    ensures Step(s, e).screen == VerifyCodeScreen <==>
      e.SendCode? && e.captchaReady && e.sendOutcome.CodeSent?
  {
  }

  /** The verify screen is left only for a phone-level verification failure or an
      expired countdown. */
  lemma SendScreenOnlyAfterFailureOrExpiry(s: State, e: Event)
    requires s.screen == VerifyCodeScreen
    ensures Step(s, e).screen == SendCodeScreen <==>
      || (e.VerifyCode? && s.code != "" && e.verifyOutcome.VerifyFailed?
          && e.verifyOutcome.verifyError in {PhoneNotRegistered, CodeExpired})
      || (e.Tick? && s.ticking && e.remaining.None?)
  {
  }

  /** Every answer of the server to a verification request leaves the page not
      submitting unless it navigates away; an empty code makes no request and
      leaves the flag as it was. */
  lemma VerifyAnswerEndsSubmitting(s: State, outcome: VerifyOutcome)
    ensures s.code != "" ==> (Step(s, VerifyCode(outcome)).isSubmitting <==> outcome.CodeVerified?)
    ensures s.code != "" && Step(s, VerifyCode(outcome)).isSubmitting ==>
      Step(s, VerifyCode(outcome)).navigatedTo == Some(RedirectTarget(outcome.redirectTo))
    ensures s.code == "" ==> Step(s, VerifyCode(outcome)).isSubmitting == s.isSubmitting
  {
  }

  /** The send-code error mapping distinguishes exactly four messages; the two
      invalid-phone codes share one. */
  lemma SendErrorMessagesDistinct(code: ErrorCode)
    ensures SendErrorMessage(InvalidPhone) == SendErrorMessage(InvalidNationalPhone)
    ensures SendErrorMessage(code) == MsgMutationError <==>
      code !in {InvalidPhone, InvalidNationalPhone, LimitCodeSentExceeded, InProgressVerification}
  {
  }

  // ---------------------------------------------------------------------------
  // VerifyPhoneWithCaptcha
  // ---------------------------------------------------------------------------

  /** The route of the shop-owner sign-up. */
  const MY_SHOP: string := "/my-shop"

  /** Whether the page shows "registration disabled": shop owners (redirected to
      `/my-shop`) need shop registration open, everyone else client registration. */
  function RegistrationDisabled(redirectTo: Option<string>, clientEnabled: bool, shopEnabled: bool)
    : (disabled: bool)
    ensures disabled <==>
      (!shopEnabled && redirectTo == Some(MY_SHOP)) || (!clientEnabled && redirectTo != Some(MY_SHOP))
  {
    if redirectTo == Some(MY_SHOP) then !shopEnabled else !clientEnabled
  }

  datatype View = DisabledView | LoadingView | FormView

  /** What `VerifyPhoneWithCaptcha` renders; `loading` is set after mount for a
      visitor who is already logged in. */
  function Render(redirectTo: Option<string>, clientEnabled: bool, shopEnabled: bool, loading: bool)
    : (v: View)
    ensures v == DisabledView <==> RegistrationDisabled(redirectTo, clientEnabled, shopEnabled)
    ensures v == LoadingView <==> !RegistrationDisabled(redirectTo, clientEnabled, shopEnabled) && loading
    ensures v == FormView <==> !RegistrationDisabled(redirectTo, clientEnabled, shopEnabled) && !loading
  {
    if RegistrationDisabled(redirectTo, clientEnabled, shopEnabled) then DisabledView
    else if loading then LoadingView
    else FormView
  }

  /** Only the flag of the audience being registered matters. */
  lemma RegistrationFlagsAreIndependent(redirectTo: Option<string>, clientEnabled: bool, shopEnabled: bool,
                                        other: bool)
    ensures redirectTo == Some(MY_SHOP) ==>
      RegistrationDisabled(redirectTo, clientEnabled, shopEnabled)
        == RegistrationDisabled(redirectTo, other, shopEnabled)
    ensures redirectTo != Some(MY_SHOP) ==>
      RegistrationDisabled(redirectTo, clientEnabled, shopEnabled)
        == RegistrationDisabled(redirectTo, clientEnabled, other)
  {
  }
}
