/**
  The bootloader SDK configuration of the ESP8266 port (pkg/esp8266_sdk/bootloader/sdkconfig.h).

  The header is a chain of preprocessor conditionals that turns build-time flags into
  the constants the vendor bootloader is compiled against:
  - `CONFIG_LOG_COLORS` (defined as 1, or left undefined),
  - `CONFIG_LOG_BOOTLOADER_LEVEL` (3 = INFO or 0 = NONE),
  - exactly one `CONFIG_FLASHMODE_*`, or a build abort.

  Preprocessor arithmetic is abstracted as follows: every flag is an integer, an undefined
  identifier evaluates to 0, and `#if X` takes its branch exactly when X is non-zero.
 */
module SdkConfig {
  import opened Wrappers

  /** The test `#if X` performs on the value of X. */
  predicate IsSet(v: int) {
    v != 0
  }

  /** The build flags the header tests, each as the integer it evaluates to (0 when undefined). */
  datatype Flags = Flags(
    logColored: int,  // MODULE_ESP_LOG_COLORED
    logStartup: int,  // MODULE_ESP_LOG_STARTUP
    qio: int,         // FLASH_MODE_QIO
    qout: int,        // FLASH_MODE_QOUT
    dio: int,         // FLASH_MODE_DIO
    dout: int         // FLASH_MODE_DOUT
  )

  /** The flash wiring modes; the header defines one `CONFIG_FLASHMODE_*` per mode. */
  datatype FlashMode = QIO | QOUT | DIO | DOUT

  /** The SDK log levels, on the scale the header documents. */
  const LogNone: int := 0
  const LogError: int := 1
  const LogWarn: int := 2
  const LogInfo: int := 3
  const LogDebug: int := 4
  const LogVerbose: int := 5

  predicate IsLogLevel(level: int) {
    LogNone <= level <= LogVerbose
  }

  /** The constants the header defines. */
  datatype Config = Config(
    logColors: Option<int>,  // CONFIG_LOG_COLORS; None when left undefined
    bootLevel: int,          // CONFIG_LOG_BOOTLOADER_LEVEL
    flashMode: FlashMode     // which CONFIG_FLASHMODE_* is defined
  )

  /** The single failure: the `#error` branch of the flash-mode chain. */
  datatype Error = UnknownFlashMode

  /** The diagnostic the `#error` directive prints. */
  function Message(e: Error): (msg: string)
    ensures e == UnknownFlashMode ==> msg == "Unknown flash mode selected."
  {
    match e
    case UnknownFlashMode => "Unknown flash mode selected."
  }

  /** The flag that selects a given flash mode. */
  function FlashFlag(f: Flags, m: FlashMode): int {
    match m
    case QIO => f.qio
    case QOUT => f.qout
    case DIO => f.dio
    case DOUT => f.dout
  }

  /** The position of a mode's test in the `#if`/`#elif` chain; lower ranks are tested first. */
  function Rank(m: FlashMode): (r: nat)
    ensures r <= 3
    ensures r == 0 <==> m == QIO
    ensures r == 1 <==> m == QOUT
    ensures r == 2 <==> m == DIO
    ensures r == 3 <==> m == DOUT
  {
    match m
    case QIO => 0
    case QOUT => 1
    case DIO => 2
    case DOUT => 3
  }

  /** True when no flash-mode flag is set, i.e. when the chain reaches its `#else`. */
  predicate NoFlashFlag(f: Flags) {
    !IsSet(f.qio) && !IsSet(f.qout) && !IsSet(f.dio) && !IsSet(f.dout)
  }

  /** `m` is set and every mode tested before it is not: `m` is the first set mode in priority order. */
  predicate IsFirstSet(f: Flags, m: FlashMode) {
    && IsSet(FlashFlag(f, m))
    && forall p: FlashMode :: Rank(p) < Rank(m) ==> !IsSet(FlashFlag(f, p))
  }

  /** The colour rule: `CONFIG_LOG_COLORS` is defined, as 1, exactly when the colour module is enabled. */
  function LogColors(f: Flags): (r: Option<int>)
    ensures r.Some? <==> IsSet(f.logColored)
    ensures r.Some? ==> r.value == 1
  {
    if IsSet(f.logColored) then Some(1) else None
  }

  /** The bootloader log level rule: INFO when startup logging is enabled, NONE otherwise. */
  function BootLevel(f: Flags): (r: int)
    ensures IsLogLevel(r)
    ensures r == LogInfo <==> IsSet(f.logStartup)
    ensures r == LogNone <==> !IsSet(f.logStartup)
  {
    if IsSet(f.logStartup) then LogInfo else LogNone
  }

  /** The `#if`/`#elif` chain over the four flash-mode flags, `None` standing for its `#else`. */
  function SelectFlashMode(f: Flags): (r: Option<FlashMode>)
    ensures r.None? <==> NoFlashFlag(f)
    ensures r.Some? ==> IsFirstSet(f, r.value)
  {
    if IsSet(f.qio) then Some(QIO)
    else if IsSet(f.qout) then Some(QOUT)
    else if IsSet(f.dio) then Some(DIO)
    else if IsSet(f.dout) then Some(DOUT)
    else None
  }

  /** The whole header: the three rules, failing only when no flash-mode flag is set. */
  function Resolve(f: Flags): (r: Result<Config, Error>)
    ensures r.Failure? <==> NoFlashFlag(f)
    ensures r.Failure? ==> r.error == UnknownFlashMode
    ensures r.Success? ==> (r.value.logColors == Some(1) <==> IsSet(f.logColored))
    ensures r.Success? ==> (r.value.logColors == None <==> !IsSet(f.logColored))
    ensures r.Success? ==> IsLogLevel(r.value.bootLevel)
    ensures r.Success? ==> (r.value.bootLevel == LogInfo <==> IsSet(f.logStartup))
    ensures r.Success? ==> (r.value.bootLevel == LogNone <==> !IsSet(f.logStartup))
    ensures r.Success? ==> IsFirstSet(f, r.value.flashMode)
  {
    match SelectFlashMode(f)
    case None => Failure(UnknownFlashMode)
    case Some(mode) => Success(Config(LogColors(f), BootLevel(f), mode))
  }

  /** At most one mode is the first set one, so the chain's choice is determined by the flags. */
  lemma FirstSetIsUnique(f: Flags, a: FlashMode, b: FlashMode)
    requires IsFirstSet(f, a) && IsFirstSet(f, b)
    ensures a == b
  {
  }
}
