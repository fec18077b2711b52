/**
 * The shared logging setup: every logger of the project lives under the
 * base logger `image-search`, whose console and file handlers are
 * attached once, on the first request for any logger.
 */
module Logger {
  import opened Results
  import opened Text

  const BaseLoggerName: string := "image-search"
  const LogFormat: string := "[%(name)s-%(asctime)s-%(levelname)s] %(message)s"
  /** `logging.NOTSET` and `logging.INFO`. */
  const NotSet: int := 0
  const Info: int := 20

  datatype HandlerKind = Console | LogFile
  datatype Handler = Handler(kind: HandlerKind, level: int, format: string)

  /** The state of one `logging.Logger` that the setup touches. */
  datatype LoggerState = LoggerState(level: int, propagate: bool, handlers: seq<Handler>)

  /** What `logging.getLogger` creates for a name it has not seen. */
  const Untouched: LoggerState := LoggerState(NotSet, true, [])

  /** The two handlers attached to the base logger, in order. */
  const BaseHandlers: seq<Handler> := [Handler(Console, Info, LogFormat), Handler(LogFile, Info, LogFormat)]

  /** The logger name `get_logger(name)` resolves to. */
  function LoggerName(name: Option<string>): string {
    match name
    case None => BaseLoggerName
    case Some(n) =>
      if |n| == 0 then BaseLoggerName
      else if StartsWith(n, BaseLoggerName) then n
      else BaseLoggerName + "." + n
  }

  /** Every resolved name lies under the base name, and a non-empty name is kept exactly when it already does. */
  lemma LoggerNameUnderBase(name: Option<string>)
    ensures StartsWith(LoggerName(name), BaseLoggerName)
    ensures name.Some? && |name.value| > 0 ==>
      (StartsWith(name.value, BaseLoggerName) <==> LoggerName(name) == name.value)
    ensures name.Some? && |name.value| > 0 && !StartsWith(name.value, BaseLoggerName) ==>
      LoggerName(name) == BaseLoggerName + "." + name.value
  {
    if name.Some? && |name.value| > 0 && !StartsWith(name.value, BaseLoggerName) {
      var r := BaseLoggerName + "." + name.value;
      assert r[..|BaseLoggerName|] == BaseLoggerName;
    }
  }

  /** Resolving a resolved name changes nothing. */
  lemma LoggerNameIdempotent(name: Option<string>)
    ensures LoggerName(Some(LoggerName(name))) == LoggerName(name)
  {
    LoggerNameUnderBase(name);
  }

  /** The prefix test is plain: a name that merely begins with the base name is not put under it. */
  lemma PrefixTestIsPlain()
    ensures LoggerName(Some("image-searchX")) == "image-searchX"
    ensures LoggerName(Some("api")) == "image-search.api"
    ensures LoggerName(Some("")) == BaseLoggerName
  {
    assert "image-searchX"[..|BaseLoggerName|] == BaseLoggerName;
    assert !StartsWith("api", BaseLoggerName);
  }

  /** The loggers after `_configure_base_logger()`: unchanged once configured, otherwise with the base logger set up. */
  function AfterConfigure(loggers: map<string, LoggerState>, configured: bool): (r: map<string, LoggerState>)
    ensures !configured ==> BaseLoggerName in r && r[BaseLoggerName].handlers == BaseHandlers
    ensures forall n :: n != BaseLoggerName ==> (n in r <==> n in loggers) && (n in r ==> r[n] == loggers[n])
  {
    if configured then loggers else loggers[BaseLoggerName := LoggerState(Info, false, BaseHandlers)]
  }

  /** The process-wide logging state: the loggers touched so far and the `_CONFIGURED` flag. */
  class Registry {
    var configured: bool
    var loggers: map<string, LoggerState>

    function Get(name: string): LoggerState
      reads this
    {
      if name in loggers then loggers[name] else Untouched
    }

    /** The base logger carries its two handlers exactly when the setup has run. */
    ghost predicate Valid()
      reads this
    {
      Get(BaseLoggerName).handlers == (if configured then BaseHandlers else [])
    }

    constructor()
      ensures Valid() && !configured && loggers == map[]
    {
      configured := false;
      loggers := map[];
    }

    /** `_configure_base_logger()`: the first call sets the base logger up, later calls change nothing. */
    method ConfigureBaseLogger() returns (base: string)
      requires Valid()
      modifies this
      ensures Valid() && configured && base == BaseLoggerName
      ensures loggers == AfterConfigure(old(loggers), old(configured))
    {
      base := BaseLoggerName;
      if configured {
        return;
      }
      var state := Get(base);
      state := state.(level := Info, propagate := false);
      state := state.(handlers := state.handlers + [Handler(Console, Info, LogFormat)]);
      state := state.(handlers := state.handlers + [Handler(LogFile, Info, LogFormat)]);
      assert state.handlers == [] + BaseHandlers;
      assert state == LoggerState(Info, false, BaseHandlers);
      loggers := loggers[base := state];
      configured := true;
    }

    /** `get_logger(name)`: the configured base logger, or a named logger under it set to INFO and propagating. */
    method GetLogger(name: Option<string>) returns (logger: string)
      requires Valid()
      modifies this
      ensures Valid() && configured
      ensures Get(BaseLoggerName).handlers == BaseHandlers
      ensures logger == LoggerName(name)
      ensures (name.None? || |name.value| == 0) ==> loggers == AfterConfigure(old(loggers), old(configured))
      ensures name.Some? && |name.value| > 0 ==>
        var configuredLoggers := AfterConfigure(old(loggers), old(configured));
        var before := if logger in configuredLoggers then configuredLoggers[logger] else Untouched;
        loggers == configuredLoggers[logger := before.(level := Info, propagate := true)]
    {
      var base := ConfigureBaseLogger();
      if name.None? || |name.value| == 0 {
        return base;
      }
      var n := name.value;
      var loggerName: string;
      if StartsWith(n, BaseLoggerName) {
        loggerName := n;
      } else {
        loggerName := BaseLoggerName + "." + n;
      }
      var state := Get(loggerName);
      loggers := loggers[loggerName := state.(level := Info, propagate := true)];
      logger := loggerName;
    }
  }
}
