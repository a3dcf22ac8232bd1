/**
 * The bridge between GLib logging and the `log` crate
 * (glib/src/bridged_logging.rs): `GlibLogger`, which forwards `log` records
 * to `g_log`, and `rust_log_handler`, which forwards GLib messages to `log`.
 */
module BridgedLogging {
  import opened Wrappers
  import Log
  import Text

  /** `log::Level`. */
  datatype RsLevel = RsError | RsWarn | RsInfo | RsDebug | RsTrace

  datatype GlibLoggerFormat = Plain | LineAndFile | Structured
  datatype GlibLoggerDomain = NoDomain | CrateTarget | CratePath

  datatype GlibLogger = GlibLogger(format: GlibLoggerFormat, domain: GlibLoggerDomain)

  /** What the logger sees of a `log::Record`. */
  datatype Record = Record(level: RsLevel, target: string, modulePath: Option<string>,
                           file: Option<string>, line: Option<nat>, message: string)

  /** The GLib call a record turns into. */
  datatype Emitted =
    | GLog(domain: Option<string>, level: Log.LogLevel, message: string)
    | GLogStructured(logDomain: string, level: Log.LogLevel, codeFile: string, codeLine: string,
                     codeFunc: string, message: string)

  /** `level_to_glib`: errors become critical so that GLib does not abort; trace becomes debug. */
  function LevelToGlib(level: RsLevel): (l: Log.LogLevel)
    ensures l != Log.Error && l != Log.Message
    ensures level == RsTrace ==> l == Log.Debug
  {
    match level
    case RsError => Log.Critical
    case RsWarn => Log.Warning
    case RsInfo => Log.Info
    case RsDebug => Log.Debug
    case RsTrace => Log.Debug
  }

  /** The level `rust_log_handler` logs a GLib message at. */
  function LevelFromGlib(level: Log.LogLevel): (l: RsLevel)
    ensures l != RsTrace
  {
    match level
    case Error => RsError
    case Critical => RsError
    case Warning => RsWarn
    case Message => RsInfo
    case Info => RsInfo
    case Debug => RsDebug
  }

  function RsRank(l: RsLevel): nat
  {
    match l
    case RsError => 0
    case RsWarn => 1
    case RsInfo => 2
    case RsDebug => 3
    case RsTrace => 4
  }

  /**
   * Going to GLib and back keeps every level except trace, which comes back as
   * debug; both maps keep the severity order (GLib's rank is by bit).
   */
  lemma LevelBridgeRoundTrip(level: RsLevel, a: Log.LogLevel, b: Log.LogLevel)
    ensures level != RsTrace ==> LevelFromGlib(LevelToGlib(level)) == level
    ensures LevelFromGlib(LevelToGlib(RsTrace)) == RsDebug
    ensures LevelToGlib(LevelFromGlib(a)) == a <==> a in {Log.Critical, Log.Warning, Log.Info, Log.Debug}
    ensures Log.Rank(a) <= Log.Rank(b) ==> RsRank(LevelFromGlib(a)) <= RsRank(LevelFromGlib(b))
  {
  }

  /** The `log` target that `rust_log_handler` uses: the domain, or `"<null>"`. */
  function HandlerTarget(domain: Option<string>): (t: string)
    ensures domain.Some? ==> t == domain.value
    ensures domain.None? ==> t == "<null>"
  {
    match domain
    case Some(d) => d
    case None => "<null>"
  }

  /** `enabled` accepts every record. */
  function Enabled(logger: GlibLogger, record: Record): (b: bool)
    ensures b
  {
    true
  }

  /** The domain `log` selects from the configured `GlibLoggerDomain`. */
  function SelectDomain(domain: GlibLoggerDomain, record: Record): (d: Option<string>)
    ensures domain == NoDomain ==> d.None?
    ensures domain == CrateTarget ==> d == Some(record.target)
    ensures domain == CratePath ==> d == record.modulePath
  {
    match domain
    case NoDomain => None
    case CrateTarget => Some(record.target)
    case CratePath => record.modulePath
  }

  /** The message of the `LineAndFile` format. */
  function LineAndFileMessage(file: Option<string>, line: Option<nat>, message: string): (s: string)
    ensures file.Some? && line.Some? ==> s == file.value + ":" + Text.NatToString(line.value) + ": " + message
    ensures file.Some? && line.None? ==> s == file.value + ": " + message
    ensures file.None? ==> s == message
  {
    match (file, line)
    case (Some(f), Some(l)) => f + ":" + Text.NatToString(l) + ": " + message
    case (Some(f), None) => f + ": " + message
    case _ => message
  }

  /** `GlibLogger::log`: the one GLib call a record becomes. */
  function LogRecord(logger: GlibLogger, record: Record): (e: Emitted)
    ensures e.level == LevelToGlib(record.level)
    ensures logger.format != Structured ==> e.GLog? && e.domain == SelectDomain(logger.domain, record)
    ensures logger.format == Plain ==> e.message == record.message
    ensures e.GLog? ==> |e.message| >= |record.message|
    ensures e.GLog? ==> e.message[|e.message| - |record.message|..] == record.message
  {
    var domain := SelectDomain(logger.domain, record);
    var level := LevelToGlib(record.level);
    match logger.format
    case Plain => GLog(domain, level, record.message)
    case LineAndFile => GLog(domain, level, LineAndFileMessage(record.file, record.line, record.message))
    case Structured =>
      GLogStructured(
        match domain case Some(d) => d case None => "default",
        level,
        match record.file case Some(f) => f case None => "<unknown file>",
        match record.line case Some(l) => Text.NatToString(l) case None => "<unknown line>",
        match record.modulePath case Some(p) => p case None => "<unknown module path>",
        record.message)
  }

  lemma LogExamples()
    ensures LineAndFileMessage(Some("a.rs"), Some(12), "hi") == "a.rs:12: hi"
    ensures LineAndFileMessage(Some("a.rs"), None, "hi") == "a.rs: hi"
    ensures LineAndFileMessage(None, Some(12), "hi") == "hi"
  {
    assert Text.NatToString(12) == "12" by {
      assert Text.NatToString(1) == "1";
    }
  }
}
