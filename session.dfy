/** The login flow of the service (src/puppeteer/puppeteer.service.ts:60-139)
    as data: the URLs and selectors it uses, the browser calls it issues, and
    the answers the browser gives it. The service class runs the flow; the
    predicates here say when it succeeds. */
module Session {
  import opened Messages

  const ProfileUrl := "https://www.avito.ru/profile"
  const MessagesUrl := "https://www.avito.ru/profile/messages"

  /** The login link or button; its presence means "not logged in". */
  const LoginTrigger := "a[href*=\"/login\"], button[data-marker=\"login-button\"]"
  const LoginInput := "input[name=\"login\"]"
  const PasswordInput := "input[name=\"password\"]"
  const AltLoginInput := "input[type=\"text\"]"
  const AltPasswordInput := "input[type=\"password\"]"
  const SubmitButton := "button[type=\"submit\"], button[data-marker=\"submit-button\"]"
  const EnterKey := "Enter"

  const FieldWaitMs := 8000
  const TypingDelayMs := 50

  /** A browser call the flow issues and awaits. */
  datatype BrowserCall =
    | Goto(url: string)
    | Click(selector: string)
    | WaitForSelector(selector: string, timeoutMs: nat)
    | Type(selector: string, text: string, delayMs: nat)
    | PressKey(key: string)
    | WaitForNavigation

  /** How the browser answers each step of the flow: a call that resolves or
      throws, or the boolean a DOM query returns. `markerBefore` and
      `markerAfter` are the page evaluations that look for the login link or
      button. */
  datatype LoginPage = LoginPage(
    profileGoto: Outcome,
    markerBefore: Result<bool>,
    loginGoto: Outcome,
    triggerPresent: bool,
    triggerClick: Outcome,
    loginInputPresent: bool,
    passwordInputPresent: bool,
    fieldWait: Outcome,
    typeLogin: Outcome,
    typePassword: Outcome,
    submitPresent: bool,
    submitNav: Outcome,
    enterPress: Outcome,
    enterNav: Outcome,
    markerAfter: Result<bool>)

  /** `!login || !password` fails exactly when this does not hold. */
  predicate CredentialsSet(env: Env) {
    Truthy(env.login) && Truthy(env.password)
  }

  /** The selector a credential is typed into: the field's own selector when
      the page has it, else the generic one. */
  function FieldSelector(present: bool, primary: string, fallback: string): string {
    if present then primary else fallback
  }

  function LoginField(p: LoginPage): string {
    FieldSelector(p.loginInputPresent, LoginInput, AltLoginInput)
  }

  function PasswordField(p: LoginPage): string {
    FieldSelector(p.passwordInputPresent, PasswordInput, AltPasswordInput)
  }

  /** The click on the login trigger, issued only when the page has one. */
  function TriggerCalls(p: LoginPage): seq<BrowserCall> {
    if p.triggerPresent then [Click(LoginTrigger)] else []
  }

  /** Filling in the form: wait for the login field, then type both credentials. */
  function FillCalls(env: Env, p: LoginPage): seq<BrowserCall>
    requires CredentialsSet(env)
  {
    [ WaitForSelector(LoginField(p), FieldWaitMs),
      Type(LoginField(p), env.login.value, TypingDelayMs),
      Type(PasswordField(p), env.password.value, TypingDelayMs) ]
  }

  /** Submitting: click the submit button while awaiting navigation, or press
      Enter and then await navigation when there is no button. */
  function SubmitCalls(p: LoginPage): seq<BrowserCall> {
    if p.submitPresent then [WaitForNavigation, Click(SubmitButton)]
    else [PressKey(EnterKey), WaitForNavigation]
  }

  /** The flow gets as far as the credential check: the second navigation
      and, when there is a trigger, its click succeed. */
  predicate ReachesCredentialCheck(p: LoginPage) {
    p.loginGoto.Pass? && (p.triggerPresent ==> p.triggerClick.Pass?)
  }

  predicate SubmitSucceeds(p: LoginPage) {
    if p.submitPresent then p.submitNav.Pass? else p.enterPress.Pass? && p.enterNav.Pass?
  }

  /** The flow gets as far as the check after submitting. */
  predicate ReachesVerification(env: Env, p: LoginPage) {
    && ReachesCredentialCheck(p)
    && CredentialsSet(env)
    && p.fieldWait.Pass? && p.typeLogin.Pass? && p.typePassword.Pass?
    && SubmitSucceeds(p)
  }

  /** `performLogin` resolves: every step succeeds and the login marker is
      gone after submitting. */
  predicate LoginSucceeds(env: Env, p: LoginPage): (ok: bool)
    ensures ok ==> CredentialsSet(env) && p.loginGoto.Pass?
    ensures p.markerAfter != Ok(false) ==> !ok
  {
    ReachesVerification(env, p) && p.markerAfter == Ok(false)
  }

  /** `login` resolves: the profile page opens and either shows no login
      marker, or shows one and `performLogin` resolves. */
  predicate LoginPasses(env: Env, p: LoginPage): (ok: bool)
    ensures p.profileGoto.Pass? && p.markerBefore == Ok(false) ==> ok
    ensures p.profileGoto.Fail? || p.markerBefore.Err? ==> !ok
    ensures ok && p.markerBefore == Ok(true) ==> LoginSucceeds(env, p)
    ensures p.markerBefore == Ok(true) && !CredentialsSet(env) ==> !ok
  {
    && p.profileGoto.Pass?
    && (p.markerBefore == Ok(false) || (p.markerBefore == Ok(true) && LoginSucceeds(env, p)))
  }
}
