/**
 * The `ThinkEcoAPI` object (index.js:24-99): a login throttle, a refresh
 * throttle and the device cache, as a pure state machine. Every operation
 * takes the clock reading `now` at which its freshness comparison is made and the
 * outcomes of the network steps it may perform, and returns the next state
 * together with the requests it sent and what its promise settles to.
 */
module ThinkEcoApi {
  import opened Thermostats
  import opened DeviceCache
  import opened Decimal
  import opened Network

  /** Two hours, in milliseconds (index.js:24). */
  const LOGIN_FREQUENCY: int := 2 * 60 * 60 * 1000
  /** Two seconds, in milliseconds (index.js:25). */
  const UPDATE_FREQUENCY: int := 2 * 1000

  /** Milliseconds from the Unix epoch to 1970-02-01T00:00Z. */
  const FEB_1_1970_UTC: int := 31 * 24 * 60 * 60 * 1000
  /** The extreme offsets of local time from UTC in use (UTC-12 to UTC+14), in milliseconds. */
  const MIN_UTC_OFFSET: int := -12 * 60 * 60 * 1000
  const MAX_UTC_OFFSET: int := 14 * 60 * 60 * 1000

  datatype Api = Api(
    username: string,
    password: string,
    lastLogin: int,
    lastUpdate: int,
    cache: Cache)
  {
    predicate Valid() {
      cache.Valid()
    }
  }

  /**
   * What an operation leaves behind: the next state, the requests it sent in
   * order, and the value its promise resolves to or the step that rejected it.
   */
  datatype Step<+T> = Step(api: Api, sent: seq<Request>, result: Result<T>)

  /**
   * `new Date(1970, 1, 1)` is local midnight of 1 February 1970 (months count
   * from 0); its time value depends on the local offset from UTC.
   */
  function LocalFeb1970(utcOffset: int): int {
    FEB_1_1970_UTC - utcOffset
  }

  /** The constructor (index.js:31-39). */
  function Init(username: string, password: string, utcOffset: int): (api: Api)
    ensures api.Valid()
    ensures |api.cache.records| == 0
    ensures api.username == username && api.password == password
    ensures api.lastLogin == api.lastUpdate == FEB_1_1970_UTC - utcOffset
  {
    Api(username, password, LocalFeb1970(utcOffset), LocalFeb1970(utcOffset), Empty())
  }

  function LoginFormFor(api: Api): LoginForm {
    LoginForm(api.username, api.password, "True", "/smartac")
  }

  predicate LoginDue(api: Api, now: int) {
    now - api.lastLogin > LOGIN_FREQUENCY
  }

  predicate RefreshDue(api: Api, now: int) {
    now - api.lastUpdate > UPDATE_FREQUENCY
  }

  /**
   * `auth()` (index.js:42-55): log in only when more than two hours have
   * passed since the last login; stamp the login time once the response is
   * back, whatever its status; leave everything as it was if the request
   * throws.
   */
  function Auth(api: Api, now: int, login: LoginOutcome): (s: Step<()>)
    ensures s.sent == [] || s.sent == [LoginPost(LoginFormFor(api))]
    ensures s.sent != [] <==> LoginDue(api, now)
    ensures s.api == api.(lastLogin := s.api.lastLogin)
    ensures s.result.Err? <==> s.sent != [] && login.LoginThrew?
    ensures s.result.Err? ==> s.api == api && s.result.failure == LoginFailed
    ensures s.sent != [] && login.LoginReturned? ==> s.api.lastLogin == login.at
    ensures s.sent == [] ==> s.api == api
  {
    if LoginDue(api, now) then
      match login
      case LoginThrew => Step(api, [LoginPost(LoginFormFor(api))], Err(LoginFailed))
      case LoginReturned(_, at) => Step(api.(lastLogin := at), [LoginPost(LoginFormFor(api))], Ok(()))
    else
      Step(api, [], Ok(()))
  }

  /**
   * `getThermostats()` (index.js:60-85): when the cache is more than two
   * seconds old, authenticate, fetch and scrape the status page, upsert every
   * entry and only then stamp the update time; otherwise touch nothing. The
   * result is the cache's records in insertion order.
   */
  function GetThermostats(api: Api, now: int, login: LoginOutcome, fetch: FetchOutcome): (s: Step<seq<Thermostat>>)
    requires api.Valid()
    ensures s.api.Valid()
    ensures s.api.username == api.username && s.api.password == api.password
    ensures !RefreshDue(api, now) ==> s == Step(api, [], Ok(Values(api.cache)))
    ensures RefreshDue(api, now) ==> 0 < |s.sent|
    ensures RefreshDue(api, now) ==>
      s.api.lastLogin == Auth(api, now, login).api.lastLogin
    ensures RefreshDue(api, now) ==>
      s.sent == Auth(api, now, login).sent + (if Auth(api, now, login).result.Ok? then [StatusPost] else [])
    ensures RefreshDue(api, now) && Auth(api, now, login).result.Err? ==>
      s.result == Err(LoginFailed)
    ensures RefreshDue(api, now) && Auth(api, now, login).result.Ok? && fetch.FetchThrew? ==>
      s.result == Err(StatusFailed)
    ensures s.result.Err? ==> s.api.cache == api.cache && s.api.lastUpdate == api.lastUpdate
    ensures s.result.Ok? ==> s.result.value == Values(s.api.cache)
    ensures api.cache.records.Keys <= s.api.cache.records.Keys
  {
    if RefreshDue(api, now) then
      var a := Auth(api, now, login);
      if a.result.Err? then
        Step(a.api, a.sent, Err(a.result.failure))
      else
        match fetch
        case FetchThrew => Step(a.api, a.sent + [StatusPost], Err(StatusFailed))
        case Fetched(entries, at) =>
          var c := ApplyBatch(a.api.cache, entries);
          Step(a.api.(cache := c, lastUpdate := at), a.sent + [StatusPost], Ok(Values(c)))
    else
      Step(api, [], Ok(Values(api.cache)))
  }

  /** The settings body for a record (index.js:93-95). */
  function CommandFor(t: Thermostat): Command {
    Command(t.id, IntToDecimal(t.targetTemp), t.powerOn)
  }

  /**
   * `pushUpdate(thermostat)` (index.js:89-98): authenticate, then POST the
   * record's id, target and power flag, and resolve to the reply's `Success`.
   * The cache and the update stamp are not touched.
   */
  function PushUpdate(api: Api, t: Thermostat, now: int, login: LoginOutcome, push: PushOutcome): (s: Step<bool>)
    ensures s.api.cache == api.cache && s.api.lastUpdate == api.lastUpdate
    ensures s.api == Auth(api, now, login).api
    ensures s.result == Err(LoginFailed) <==> Auth(api, now, login).result.Err?
    ensures Auth(api, now, login).result.Err? ==> s.sent == Auth(api, now, login).sent && s.result == Err(LoginFailed)
    ensures Auth(api, now, login).result.Ok? ==> s.sent == Auth(api, now, login).sent + [SettingsPost(CommandFor(t))]
    ensures Auth(api, now, login).result.Ok? ==>
      s.result == (if push.PushReturned? then Ok(push.success) else Err(SettingsFailed))
  {
    var a := Auth(api, now, login);
    if a.result.Err? then
      Step(a.api, a.sent, Err(a.result.failure))
    else
      match push
      case PushThrew => Step(a.api, a.sent + [SettingsPost(CommandFor(t))], Err(SettingsFailed))
      case PushReturned(success) => Step(a.api, a.sent + [SettingsPost(CommandFor(t))], Ok(success))
  }

  /**
   * `Thermostat.setTargetHeatingCoolingState` followed by `update()`
   * (index.js:115-117, 129-133): the cached record's power flag is set to
   * "mode is cooling" before the push, and stays so whatever the push does.
   */
  function SetTargetHeatingCoolingState(
    api: Api, id: string, mode: HeatingCoolingState, now: int, login: LoginOutcome, push: PushOutcome): (s: Step<bool>)
    requires api.Valid()
    requires id in api.cache.records
    ensures s.api.Valid()
    ensures s.api.cache.order == api.cache.order
    ensures s.api.cache.records.Keys == api.cache.records.Keys
    ensures s.api.cache.records[id].powerOn <==> mode == Cool
    ensures s.api.cache.records[id] == api.cache.records[id].(powerOn := s.api.cache.records[id].powerOn)
    ensures forall k :: k in api.cache.records && k != id ==> s.api.cache.records[k] == api.cache.records[k]
    ensures s.api.lastUpdate == api.lastUpdate
    ensures s == PushUpdate(api.(cache := s.api.cache), s.api.cache.records[id], now, login, push)
    ensures s.result != Err(LoginFailed) ==>
      0 < |s.sent| && s.sent[|s.sent| - 1] == SettingsPost(CommandFor(s.api.cache.records[id]))
  {
    var t := api.cache.records[id].(powerOn := PowerOnFor(mode));
    var updated := api.(cache := api.cache.(records := api.cache.records[id := t]));
    PushUpdate(updated, t, now, login, push)
  }

  // ---------------------------------------------------------------------------
  // Properties relating several calls
  // ---------------------------------------------------------------------------

  /**
   * A freshly constructed API is stale on both counts: for any local offset in
   * use and any clock reading later than 1970-02-01T14:00Z, the first `auth`
   * logs in and the first `getThermostats` refreshes.
   */
  lemma FreshApiIsStale(username: string, password: string, utcOffset: int, now: int)
    requires MIN_UTC_OFFSET <= utcOffset <= MAX_UTC_OFFSET
    requires now > FEB_1_1970_UTC - MIN_UTC_OFFSET + LOGIN_FREQUENCY
    ensures forall login ::
      Auth(Init(username, password, utcOffset), now, login).sent
        == [LoginPost(LoginForm(username, password, "True", "/smartac"))]
    ensures forall login, fetch ::
      GetThermostats(Init(username, password, utcOffset), now, login, fetch).sent[0]
        == LoginPost(LoginForm(username, password, "True", "/smartac"))
  {
  }

  /** At exactly two hours no login is sent; one millisecond later one is. */
  lemma LoginBoundaryIsStrict(api: Api, login: LoginOutcome)
    ensures Auth(api, api.lastLogin + LOGIN_FREQUENCY, login) == Step(api, [], Ok(()))
    ensures Auth(api, api.lastLogin + LOGIN_FREQUENCY + 1, login).sent == [LoginPost(LoginFormFor(api))]
  {
  }

  /**
   * `auth` is idempotent within the login window: once a login has returned,
   * a further `auth` no more than two hours after that moment sends nothing and
   * changes nothing.
   */
  lemma AuthIdempotentWithinWindow(api: Api, now: int, status: nat, at: int, now2: int, login2: LoginOutcome)
    requires LoginDue(api, now)
    requires now2 - at <= LOGIN_FREQUENCY
    ensures var first := Auth(api, now, LoginReturned(status, at));
      Auth(first.api, now2, login2) == Step(first.api, [], Ok(()))
  {
  }

  /**
   * A successful refresh commits the whole batch: the cache becomes the batch
   * applied to the old cache, every id of the batch is a key, the update stamp
   * is the commit time, and the status POST was the last request sent.
   */
  lemma RefreshCommitsBatch(api: Api, now: int, login: LoginOutcome, entries: seq<ParsedEntry>, at: int)
    requires api.Valid()
    requires RefreshDue(api, now)
    requires !LoginDue(api, now) || login.LoginReturned?
    ensures var s := GetThermostats(api, now, login, Fetched(entries, at));
      && s.result.Ok?
      && s.api.cache == ApplyBatch(api.cache, entries)
      && Ids(entries) <= s.api.cache.records.Keys
      && s.api.lastUpdate == at
      && s.sent[|s.sent| - 1] == StatusPost
  {
  }

  /**
   * A fetch that throws after a successful login keeps the new login stamp but
   * leaves the cache and the update stamp as they were, so the next call
   * retries the fetch.
   */
  lemma FailedFetchKeepsLogin(api: Api, now: int, status: nat, at: int)
    requires api.Valid()
    requires RefreshDue(api, now)
    requires LoginDue(api, now)
    ensures var s := GetThermostats(api, now, LoginReturned(status, at), FetchThrew);
      && s.result == Err(StatusFailed)
      && s.api == api.(lastLogin := at)
      && s.sent == [LoginPost(LoginFormFor(api)), StatusPost]
      && RefreshDue(s.api, now)
  {
  }

  /**
   * Two calls within the update window issue one network read: after a
   * successful refresh committed at `at`, a call no more than two seconds
   * later sends nothing, changes nothing and returns the same records.
   */
  lemma SecondCallWithinWindowIsFree(
    api: Api, now: int, login: LoginOutcome, entries: seq<ParsedEntry>, at: int,
    now2: int, login2: LoginOutcome, fetch2: FetchOutcome)
    requires api.Valid()
    requires RefreshDue(api, now)
    requires GetThermostats(api, now, login, Fetched(entries, at)).result.Ok?
    requires now2 - at <= UPDATE_FREQUENCY
    ensures var first := GetThermostats(api, now, login, Fetched(entries, at));
      GetThermostats(first.api, now2, login2, fetch2) == Step(first.api, [], first.result)
  {
  }

  /**
   * Refreshing twice with the same scraped batch leaves the same cache as
   * refreshing once, with no duplicated record and no change of order.
   */
  lemma SameBatchTwiceSameCache(
    api: Api, now: int, login: LoginOutcome, entries: seq<ParsedEntry>, at: int,
    now2: int, login2: LoginOutcome, at2: int)
    requires api.Valid()
    requires RefreshDue(api, now)
    requires GetThermostats(api, now, login, Fetched(entries, at)).result.Ok?
    ensures var first := GetThermostats(api, now, login, Fetched(entries, at));
      GetThermostats(first.api, now2, login2, Fetched(entries, at2)).api.cache == first.api.cache
  {
    var first := GetThermostats(api, now, login, Fetched(entries, at));
    assert first.api.cache == ApplyBatch(api.cache, entries);
    BatchIdempotent(api.cache, entries);
  }

  /**
   * The target temperature travels as decimal text that reads back as the
   * record's target, and the pushed power flag is the record's.
   */
  lemma PushedCommandCarriesRecord(t: Thermostat)
    ensures ParseDecimal(CommandFor(t).targetTemperature).Some?
    ensures ParseDecimal(CommandFor(t).targetTemperature).value == t.targetTemp
    ensures CommandFor(t).applianceId == t.id && CommandFor(t).thermostated == t.powerOn
  {
    DecimalRoundTrip(t.targetTemp);
  }
}
