/** Values shared by every part of the monitoring engine: the errors the
    service and the browser raise, the records the page scrape produces, the
    messages and error notices relayed to subscribers, and the environment
    variables the service reads. */
module Messages {

  datatype Option<T> = None | Some(value: T)

  /** A thrown JavaScript error. The service raises three errors of its own;
      whatever the browser raises is `Thrown`, with the error's `name` and
      `message`. */
  datatype Fault =
    | PageNotInitialized
    | MissingCredentials
    | LoginFailed
    | Thrown(name: string, message: string)

  /** The `message` property of a fault. */
  function ErrorMessage(f: Fault): (msg: string)
    ensures !f.Thrown? ==> msg != ""
  {
    match f
    case PageNotInitialized => "Page not initialized"
    case MissingCredentials => "AVITO_LOGIN or AVITO_PASSWORD environment variables are not set"
    case LoginFailed => "Login appears to have failed — check credentials and selectors"
    case Thrown(_, message) => message
  }

  /** The text relayed for a failed poll, `err.message || String(err)`: for an
      Error object whose message is empty, `String(err)` is its name. */
  function ReportText(f: Fault): (text: string)
    ensures |ErrorMessage(f)| > 0 ==> text == ErrorMessage(f)
    ensures |ErrorMessage(f)| == 0 ==> f.Thrown? && text == f.name
    ensures |text| > 0 <==> |ErrorMessage(f)| > 0 || (f.Thrown? && |f.name| > 0)
  {
    if |ErrorMessage(f)| > 0 then ErrorMessage(f) else f.name
  }

  /** Completion of an awaited call that returns nothing: it resolves or throws. */
  datatype Outcome = Pass | Fail(fault: Fault)

  /** Completion of an awaited call that returns a value. */
  datatype Result<T> = Ok(value: T) | Err(fault: Fault)

  /** One record built by the page-side extraction callback. */
  datatype Scraped = Scraped(id: string, from: string, body: string, date: string)

  /** The payload relayed to subscribers: a scraped record without its id. */
  datatype MonitoredMessage = MonitoredMessage(from: string, body: string, timestamp: string)

  /** What the gateway broadcasts: a `new_message` or an `error` event. */
  datatype Event =
    | NewMessage(msg: MonitoredMessage)
    | ErrorEvent(code: int, message: string)

  /** The code every failed poll is reported with. */
  const ScrapeErrorCode := 500

  /** The environment variables the service reads while it runs. */
  datatype Env = Env(login: Option<string>, password: Option<string>, targetName: Option<string>)

  /** JavaScript truthiness of an environment variable: set and non-empty. */
  predicate Truthy(v: Option<string>) {
    v.Some? && v.value != ""
  }

  const DefaultTarget := "Рушан"

  /** `process.env.AVITO_TARGET_NAME || 'Рушан'`. */
  function TargetName(env: Env): (target: string)
    ensures target != ""
    ensures Truthy(env.targetName) ==> target == env.targetName.value
    ensures !Truthy(env.targetName) ==> target == DefaultTarget
  {
    if Truthy(env.targetName) then env.targetName.value else DefaultTarget
  }
}
