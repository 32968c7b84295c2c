/**
 * The stand-alone scraper server: the persistent Browserless connection pool (two
 * module-level slots, a handle and the last-error memo), the per-request scrape with
 * its one-shot local-browser fallback and page clean-up, and the `/api/lecturas`
 * endpoint's defaults. Clock readings, the token, the probe, connect, launch and page
 * outcomes are inputs.
 */
module ServerLecturas {
  import opened Wrappers
  import opened Calendar
  import ReadingsUrl
  import Extractor
  import opened ReadingsApi

  /** An opaque browser handle. */
  type Handle = nat

  /** `browserPoolError`: the message of the last failed connect and when it was recorded. */
  datatype ErrorMemo = ErrorMemo(message: string, timestamp: int)

  datatype ConnectOutcome = Connected(handle: Handle) | ConnectFailed(message: string)
  datatype PoolResult = Got(handle: Handle) | PoolError(message: string)

  const CooldownMs := 5000
  const WaitPrefix := "Esperando antes de reintentar conexión a Browserless. Error previo: "
  const NoTokenMessage := "BROWSERLESS_TOKEN no configurado"

  /** `process.env.BROWSERLESS_TOKEN` is set and not empty. */
  predicate HasToken(token: Option<string>) { token.Some? && |token.value| > 0 }

  /** The memo blocks a reconnect at time `now`: it is strictly less than 5000 ms old. */
  predicate CoolingDown(lastError: Option<ErrorMemo>, now: int) {
    lastError.Some? && now - lastError.value.timestamp < CooldownMs
  }

  /** One `getBrowserPool` call: its result, whether `puppeteer.connect` was attempted,
      and the two slots afterwards. */
  datatype PoolStep = PoolStep(result: PoolResult, attempted: bool,
                               nextPooled: Option<Handle>, nextError: Option<ErrorMemo>)

  /** `getBrowserPool` on the slots `pooled` and `lastError`: `now` is the clock at the
      cool-down check, `probeOk` the outcome of `version()` on the pooled handle,
      `failTime` the clock when a failed connect is recorded. */
  function Acquire(pooled: Option<Handle>, lastError: Option<ErrorMemo>, now: int, probeOk: bool,
                   token: Option<string>, connect: ConnectOutcome, failTime: int): (s: PoolStep)
    ensures s.result.Got? <==> s.nextPooled.Some?
    ensures s.result.Got? ==> s.nextPooled == Some(s.result.handle)
    ensures s.attempted ==> HasToken(token) && !(pooled.Some? && probeOk)
    ensures (pooled.Some? ==> lastError.None?) ==> (s.nextPooled.Some? ==> s.nextError.None?)
  {
    if pooled.Some? && probeOk then PoolStep(Got(pooled.value), false, pooled, lastError)
    else if CoolingDown(lastError, now) then
      PoolStep(PoolError(WaitPrefix + lastError.value.message), false, None, lastError)
    else if !HasToken(token) then PoolStep(PoolError(NoTokenMessage), false, None, lastError)
    else match connect
      case Connected(h) => PoolStep(Got(h), true, Some(h), None)
      case ConnectFailed(msg) => PoolStep(PoolError(msg), true, None, Some(ErrorMemo(msg, failTime)))
  }

  /** The two module-level slots. */
  class BrowserPool {
    var pooled: Option<Handle>
    var lastError: Option<ErrorMemo>

    /** A live handle and an error memo are never held together. */
    predicate Valid()
      reads this
    {
      pooled.Some? ==> lastError.None?
    }

    /** Module load: both slots are null. */
    constructor()
      ensures pooled.None? && lastError.None? && Valid()
    {
      pooled := None;
      lastError := None;
    }

    method GetBrowserPool(now: int, probeOk: bool, token: Option<string>, connect: ConnectOutcome, failTime: int)
      returns (result: PoolResult, attempted: bool)
      requires Valid()
      modifies this
      ensures Valid()
      ensures Acquire(old(pooled), old(lastError), now, probeOk, token, connect, failTime)
              == PoolStep(result, attempted, pooled, lastError)
    {
      if pooled.Some? {
        if probeOk {
          return Got(pooled.value), false;
        }
        pooled := None;
      }
      if lastError.Some? && now - lastError.value.timestamp < CooldownMs {
        return PoolError(WaitPrefix + lastError.value.message), false;
      }
      if !HasToken(token) {
        return PoolError(NoTokenMessage), false;
      }
      match connect {
        case Connected(h) =>
          pooled := Some(h);
          lastError := None;
          return Got(h), true;
        case ConnectFailed(msg) =>
          lastError := Some(ErrorMemo(msg, failTime));
          return PoolError(msg), true;
      }
    }
  }

  // ---------------------------------------------------------------- pool rules

  /** A pooled handle whose probe succeeds is returned as is: no connect, no state change. */
  lemma ReuseLiveHandle(h: Handle, lastError: Option<ErrorMemo>, now: int, token: Option<string>,
                        connect: ConnectOutcome, failTime: int)
    ensures Acquire(Some(h), lastError, now, true, token, connect, failTime)
            == PoolStep(Got(h), false, Some(h), lastError)
  {
  }

  /** A failed probe discards the handle: the call then behaves as if nothing were pooled. */
  lemma FailedProbeClears(h: Handle, lastError: Option<ErrorMemo>, now: int, token: Option<string>,
                          connect: ConnectOutcome, failTime: int)
    ensures Acquire(Some(h), lastError, now, false, token, connect, failTime)
            == Acquire(None, lastError, now, false, token, connect, failTime)
  {
  }

  /** Inside the cool-down the call fails at once, naming the previous error, and keeps the memo. */
  lemma CooldownBlocks(memo: ErrorMemo, now: int, probeOk: bool, token: Option<string>,
                       connect: ConnectOutcome, failTime: int)
    requires now - memo.timestamp < CooldownMs
    ensures Acquire(None, Some(memo), now, probeOk, token, connect, failTime)
            == PoolStep(PoolError(WaitPrefix + memo.message), false, None, Some(memo))
  {
  }

  /** From 5000 ms on, a reconnect is attempted (given a token). */
  lemma CooldownExpires(memo: ErrorMemo, now: int, probeOk: bool, token: Option<string>,
                        connect: ConnectOutcome, failTime: int)
    requires now - memo.timestamp >= CooldownMs && HasToken(token)
    ensures Acquire(None, Some(memo), now, probeOk, token, connect, failTime).attempted
  {
  }

  /** A missing token fails with the fixed message and records nothing in the memo. */
  lemma MissingTokenRecordsNothing(lastError: Option<ErrorMemo>, now: int, probeOk: bool,
                                   token: Option<string>, connect: ConnectOutcome, failTime: int)
    requires !CoolingDown(lastError, now) && !HasToken(token)
    ensures Acquire(None, lastError, now, probeOk, token, connect, failTime)
            == PoolStep(PoolError(NoTokenMessage), false, None, lastError)
  {
  }

  /** A connect attempt stores the handle and clears the memo on success; on failure it
      keeps the slot empty, records the message with its time and passes the error on. */
  lemma ConnectTransitions(lastError: Option<ErrorMemo>, now: int, probeOk: bool,
                           token: Option<string>, connect: ConnectOutcome, failTime: int)
    requires !CoolingDown(lastError, now) && HasToken(token)
    ensures var s := Acquire(None, lastError, now, probeOk, token, connect, failTime);
            s.attempted
            && (connect.Connected? ==> s == PoolStep(Got(connect.handle), true, Some(connect.handle), None))
            && (connect.ConnectFailed? ==>
                  s == PoolStep(PoolError(connect.message), true, None, Some(ErrorMemo(connect.message, failTime))))
  {
  }

  /** A failed connect makes every call within the next 5000 ms fail fast with its message,
      and the first call at or after that point tries again. */
  lemma {:induction false} FailureThenCooldown(lastError: Option<ErrorMemo>, t0: int, token: Option<string>,
                                               msg: string, failTime: int, t1: int, probeOk: bool,
                                               connect: ConnectOutcome, failTime2: int)
    requires !CoolingDown(lastError, t0) && HasToken(token)
    ensures var s := Acquire(None, lastError, t0, false, token, ConnectFailed(msg), failTime);
            var s2 := Acquire(s.nextPooled, s.nextError, t1, probeOk, token, connect, failTime2);
            (t1 - failTime < CooldownMs ==> s2.result == PoolError(WaitPrefix + msg) && !s2.attempted)
            && (t1 - failTime >= CooldownMs ==> s2.attempted)
  {
    var s := Acquire(None, lastError, t0, false, token, ConnectFailed(msg), failTime);
    ConnectTransitions(lastError, t0, false, token, ConnectFailed(msg), failTime);
    assert s.nextPooled == None && s.nextError == Some(ErrorMemo(msg, failTime));
    if t1 - failTime < CooldownMs {
      CooldownBlocks(ErrorMemo(msg, failTime), t1, probeOk, token, connect, failTime2);
    } else {
      CooldownExpires(ErrorMemo(msg, failTime), t1, probeOk, token, connect, failTime2);
    }
  }

  // ---------------------------------------------------------------- one request

  /** Inputs for the `getBrowserPool` call a request may make. */
  datatype PoolInputs = PoolInputs(now: int, probeOk: bool, connect: ConnectOutcome, failTime: int)

  /** `puppeteer.launch`. */
  datatype LaunchOutcome = Launched(handle: Handle) | LaunchFailed(message: string)

  /** What happens on the page: `newPage`, `goto` or `content` throws, or the content is
      read and parsed. */
  datatype PageRun = NewPageFailed(message: string) | GotoFailed(message: string)
                   | ContentFailed(message: string) | Loaded(page: Extractor.Document)

  /** What a request did besides answering. */
  datatype Effects = Effects(launches: nat, browser: Option<Handle>, pageOpened: bool,
                             pageCloses: nat, navigated: Option<string>)

  const FallbackPrefix := "No se pudo conectar a Browserless ni a Puppeteer local. Error: "
  const Hint := "Usando conexión persistente. Si el error persiste, intenta más tarde."

  /** `getReadingsFromVatican` of the server: `parsed` is `new Date(fecha)` (None when invalid). */
  method GetReadingsFromVatican(pool: BrowserPool, fecha: string, parsed: Option<Date>,
                                token: Option<string>, inputs: PoolInputs,
                                launch: LaunchOutcome, run: PageRun)
    returns (env: Envelope, fx: Effects)
    requires pool.Valid()
    requires parsed.Some? ==> ValidDate(parsed.value)
    modifies pool
    ensures pool.Valid()
    ensures env.fecha == fecha
    ensures env.Failure? ==> env.hint == Some(Hint)
    ensures fx.launches <= 1
    ensures fx.pageOpened ==> fx.pageCloses == 1
    ensures !fx.pageOpened ==> fx.pageCloses == 0
    ensures parsed.None? ==>
              env == Failure(fecha, InvalidDateMessage, Some(Hint))
              && fx == Effects(0, None, false, 0, None)
              && pool.pooled == old(pool.pooled) && pool.lastError == old(pool.lastError)
    ensures parsed.Some? && !HasToken(token) ==>
              fx.launches == 1
              && pool.pooled == old(pool.pooled) && pool.lastError == old(pool.lastError)
    ensures parsed.Some? && HasToken(token) ==>
              var s := Acquire(old(pool.pooled), old(pool.lastError), inputs.now, inputs.probeOk, token,
                               inputs.connect, inputs.failTime);
              pool.pooled == s.nextPooled && pool.lastError == s.nextError
              && (fx.launches == 1 <==> s.result.PoolError?)
              && (s.result.Got? ==> fx.browser == Some(s.result.handle))
              && (s.result.PoolError? && launch.LaunchFailed? ==>
                    env == Failure(fecha, FallbackPrefix + s.result.message, Some(Hint)) && !fx.pageOpened)
    ensures parsed.Some? && !HasToken(token) && launch.LaunchFailed? ==>
              env == Failure(fecha, launch.message, Some(Hint)) && !fx.pageOpened
    ensures fx.launches == 1 && launch.Launched? ==> fx.browser == Some(launch.handle)
    ensures fx.browser.Some? && !run.Loaded? ==> env == Failure(fecha, run.message, Some(Hint))
    ensures fx.browser.Some? ==> (fx.pageOpened <==> !run.NewPageFailed?)
    ensures fx.navigated.Some? ==> parsed.Some? && fx.navigated.value == ReadingsUrl.ServerRequestUrl(parsed.value)
    ensures env.Success? <==> parsed.Some? && fx.browser.Some? && run.Loaded?
    ensures env.Success? ==>
              env == Success(fecha, ReadingsUrl.ServerRequestUrl(parsed.value), Rename(Extractor.Extracted(run.page)))
  {
    fx := Effects(0, None, false, 0, None);
    var page: Option<Handle> := None;
    // the try block; `failure` holds the message of an error it throws
    var failure: Option<string> := None;
    if parsed.None? {
      failure := Some(InvalidDateMessage);
    } else {
      var url := ReadingsUrl.ServerRequestUrl(parsed.value);
      var browser: Option<Handle> := None;
      if HasToken(token) {
        var result, _ := pool.GetBrowserPool(inputs.now, inputs.probeOk, token, inputs.connect, inputs.failTime);
        match result {
          case Got(h) =>
            browser := Some(h);
          case PoolError(poolMessage) =>
            fx := fx.(launches := 1);
            match launch {
              case Launched(h) => browser := Some(h);
              case LaunchFailed(_) => failure := Some(FallbackPrefix + poolMessage);
            }
        }
      } else {
        fx := fx.(launches := 1);
        match launch {
          case Launched(h) => browser := Some(h);
          case LaunchFailed(m) => failure := Some(m);
        }
      }
      fx := fx.(browser := browser);
      if browser.Some? {
        match run {
          case NewPageFailed(m) =>
            failure := Some(m);
          case GotoFailed(m) =>
            page := Some(browser.value);
            fx := fx.(pageOpened := true, navigated := Some(url));
            failure := Some(m);
          case ContentFailed(m) =>
            page := Some(browser.value);
            fx := fx.(pageOpened := true, navigated := Some(url));
            failure := Some(m);
          case Loaded(doc) =>
            page := Some(browser.value);
            fx := fx.(pageOpened := true, navigated := Some(url));
            // `page.close()` then `page = null`
            fx := fx.(pageCloses := fx.pageCloses + 1);
            page := None;
            env := Success(fecha, url, Rename(Extractor.Extracted(doc)));
        }
      }
    }
    if failure.Some? {
      env := Failure(fecha, failure.value, Some(Hint));
    }
    // the finally block: close a page that is still open
    if page.Some? {
      fx := fx.(pageCloses := fx.pageCloses + 1);
      page := None;
    }
  }

  // ---------------------------------------------------------------- the endpoint

  /** The `fecha` the endpoint uses: the query value when truthy, else today's ISO date. */
  function RequestFecha(query: Option<string>, today: Date): (f: string)
    ensures query.Some? && |query.value| > 0 ==> f == query.value
  {
    if query.Some? && |query.value| > 0 then query.value else FormatIso(today)
  }

  /** Without a usable query the fecha is today's date, which parses back to today. */
  lemma DefaultFechaIsToday(query: Option<string>, today: Date)
    requires !(query.Some? && |query.value| > 0)
    requires ValidDate(today) && today.year < 10000
    ensures ParseIso(RequestFecha(query, today)) == Some(today)
  {
    ParseFormatIso(today);
  }

  /** Success answers 200 and any failure envelope 404. */
  function EndpointStatus(env: Envelope): (code: nat)
    ensures code == 200 || code == 404
    ensures code == 200 <==> env.Success?
  {
    if env.Success? then 200 else 404
  }
}
