/**
 * The requests the API object sends to mymodlet.com and the outcomes it can
 * observe. The HTTP client, cookie jar and HTML scraping are not modelled:
 * each call is reduced to what it sends and an abstract outcome that either
 * threw or returned.
 */
module Network {
  import opened Thermostats

  /** The form fields of the login POST (index.js:46-50). */
  datatype LoginForm = LoginForm(email: string, password: string, rememberMe: string, returnUrl: string)

  /** The JSON body of the settings POST (index.js:93-95). */
  datatype Command = Command(applianceId: string, targetTemperature: string, thermostated: bool)

  datatype Request =
    | LoginPost(form: LoginForm)
    | StatusPost
    | SettingsPost(command: Command)

  /**
   * The login POST is sent with `simple: false`, so any HTTP status returns
   * normally; only a transport failure throws. `at` is the clock reading taken
   * after the response arrived.
   */
  datatype LoginOutcome = LoginThrew | LoginReturned(status: nat, at: int)

  /**
   * The status POST followed by `JSON.parse` and the scrape: either one of them
   * threw, or the scrape produced a batch of entries. `at` is the clock
   * reading taken once the batch has been committed.
   */
  datatype FetchOutcome = FetchThrew | Fetched(entries: seq<ParsedEntry>, at: int)

  /** The settings POST: it threw (transport failure or non-2xx status), or it returned the reply's `Success`. */
  datatype PushOutcome = PushThrew | PushReturned(success: bool)

  /** Which awaited step a rejected promise came from. */
  datatype Failure = LoginFailed | StatusFailed | SettingsFailed

  datatype Result<+T> = Ok(value: T) | Err(failure: Failure)
}
