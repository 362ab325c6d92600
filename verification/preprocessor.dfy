/**
  The header as seen by the preprocessor of one translation unit: it reads its input flags
  from the macros already defined, adds the constants it resolves, and is guarded by
  `ESP8266_SDK_BOOTLOADER_SDKCONFIG_H` so that a second inclusion defines nothing.
 */
module Preprocessor {
  import opened Wrappers
  import opened SdkConfig

  /** Macros defined so far, by name, with the integer their body evaluates to. */
  type MacroTable = map<string, int>

  /**
    A translation unit: whether this header has already defined its include guard, and the
    macros in effect where its conditionals begin, i.e. after the headers it includes itself
    (`riotbuild.h`, `esp8266_idf_version.h`, `sdkconfig_default.h`) have been processed; their
    definitions are part of `macros`. The guard also counts as defined when some other code put
    `ESP8266_SDK_BOOTLOADER_SDKCONFIG_H` into `macros` (see `IsGuarded`).
   */
  datatype Unit = Unit(guarded: bool, macros: MacroTable)

  const GuardName: string := "ESP8266_SDK_BOOTLOADER_SDKCONFIG_H"

  /** The `#ifndef` test of the include guard fails: the guard macro is defined. */
  predicate IsGuarded(u: Unit) {
    u.guarded || GuardName in u.macros
  }

  const ColoredFlagName: string := "MODULE_ESP_LOG_COLORED"
  const StartupFlagName: string := "MODULE_ESP_LOG_STARTUP"
  const LogColorsName: string := "CONFIG_LOG_COLORS"
  const BootLevelName: string := "CONFIG_LOG_BOOTLOADER_LEVEL"

  /** The build flag that requests a flash mode; the header never defines any of them. */
  function FlashFlagName(m: FlashMode): (name: string)
    ensures !IsOutputName(name) && name != GuardName
    ensures name != ColoredFlagName && name != StartupFlagName
    ensures Rank(m) == 0 <==> name == "FLASH_MODE_QIO"
    ensures Rank(m) == 1 <==> name == "FLASH_MODE_QOUT"
    ensures Rank(m) == 2 <==> name == "FLASH_MODE_DIO"
    ensures Rank(m) == 3 <==> name == "FLASH_MODE_DOUT"
  {
    match m
    case QIO => "FLASH_MODE_QIO"
    case QOUT => "FLASH_MODE_QOUT"
    case DIO => "FLASH_MODE_DIO"
    case DOUT => "FLASH_MODE_DOUT"
  }

  /** The constant the header defines for a flash mode: one of its outputs, distinct per mode. */
  function FlashModeName(m: FlashMode): (name: string)
    ensures name in OutputNames && name != LogColorsName && name != BootLevelName
    ensures Rank(m) == 0 <==> name == "CONFIG_FLASHMODE_QIO"
    ensures Rank(m) == 1 <==> name == "CONFIG_FLASHMODE_QOUT"
    ensures Rank(m) == 2 <==> name == "CONFIG_FLASHMODE_DIO"
    ensures Rank(m) == 3 <==> name == "CONFIG_FLASHMODE_DOUT"
  {
    match m
    case QIO => "CONFIG_FLASHMODE_QIO"
    case QOUT => "CONFIG_FLASHMODE_QOUT"
    case DIO => "CONFIG_FLASHMODE_DIO"
    case DOUT => "CONFIG_FLASHMODE_DOUT"
  }

  /** The names the header may define, besides its include guard. */
  const OutputNames: set<string> := {
    "CONFIG_LOG_COLORS", "CONFIG_LOG_BOOTLOADER_LEVEL",
    "CONFIG_FLASHMODE_QIO", "CONFIG_FLASHMODE_QOUT", "CONFIG_FLASHMODE_DIO", "CONFIG_FLASHMODE_DOUT"
  }

  predicate IsOutputName(name: string) {
    name in OutputNames
  }

  /** What an identifier evaluates to in `#if`: its value when defined, 0 otherwise. */
  function Eval(t: MacroTable, name: string): (v: int)
    ensures name in t ==> v == t[name]
    ensures name !in t ==> v == 0
  {
    if name in t then t[name] else 0
  }

  /** The flags the header's conditionals see in a macro table. */
  function FlagsOf(t: MacroTable): (f: Flags)
    ensures f.logColored == Eval(t, ColoredFlagName) && f.logStartup == Eval(t, StartupFlagName)
    ensures forall m: FlashMode :: FlashFlag(f, m) == Eval(t, FlashFlagName(m))
  {
    Flags(Eval(t, ColoredFlagName), Eval(t, StartupFlagName),
          Eval(t, FlashFlagName(QIO)), Eval(t, FlashFlagName(QOUT)),
          Eval(t, FlashFlagName(DIO)), Eval(t, FlashFlagName(DOUT)))
  }

  /** The `#define`s a resolved configuration produces. */
  function Defines(c: Config): (t: MacroTable)
    ensures forall name :: name in t ==> IsOutputName(name)
    ensures LogColorsName in t <==> c.logColors.Some?
    ensures c.logColors.Some? ==> t[LogColorsName] == c.logColors.value
    ensures BootLevelName in t && t[BootLevelName] == c.bootLevel
    ensures forall m: FlashMode :: FlashModeName(m) in t <==> m == c.flashMode
    ensures t[FlashModeName(c.flashMode)] == 1
  {
    var levelAndMode := map[BootLevelName := c.bootLevel, FlashModeName(c.flashMode) := 1];
    match c.logColors
    case None => levelAndMode
    case Some(v) => levelAndMode[LogColorsName := v]
  }

  /**
    The inverse of `Defines`: the configuration a table of the header's constants stands for.
    `None` when the level or every flash-mode constant is missing.
   */
  function ReadConfig(t: MacroTable): (r: Option<Config>)
    ensures r.None? <==> (BootLevelName !in t || forall m: FlashMode :: FlashModeName(m) !in t)
    ensures r.Some? ==> BootLevelName in t && r.value.bootLevel == t[BootLevelName]
    ensures r.Some? ==> FlashModeName(r.value.flashMode) in t
    ensures r.Some? ==> (r.value.logColors.Some? <==> LogColorsName in t)
    ensures r.Some? && LogColorsName in t ==> r.value.logColors.value == t[LogColorsName]
  {
    var colors := if LogColorsName in t then Some(t[LogColorsName]) else None;
    if BootLevelName !in t then None
    else if FlashModeName(QIO) in t then Some(Config(colors, t[BootLevelName], QIO))
    else if FlashModeName(QOUT) in t then Some(Config(colors, t[BootLevelName], QOUT))
    else if FlashModeName(DIO) in t then Some(Config(colors, t[BootLevelName], DIO))
    else if FlashModeName(DOUT) in t then Some(Config(colors, t[BootLevelName], DOUT))
    else None
  }

  /** The constants a configuration defines read back as that configuration. */
  lemma ReadDefinesRoundTrip(c: Config)
    ensures ReadConfig(Defines(c)) == Some(c)
  {
  }

  /** One inclusion of the header into a translation unit. */
  function Include(u: Unit): (r: Result<Unit, Error>)
    ensures IsGuarded(u) ==> r == Success(u)
    ensures !IsGuarded(u) ==> (r.Failure? <==> NoFlashFlag(FlagsOf(u.macros)))
    ensures r.Success? ==> IsGuarded(r.value)
    ensures r.Success? ==> forall name :: name in u.macros ==> name in r.value.macros
    ensures r.Success? ==> forall name :: name in u.macros && !IsOutputName(name) ==>
              r.value.macros[name] == u.macros[name]
    ensures !IsGuarded(u) && r.Success? ==>
              var f := FlagsOf(u.macros);
              forall name ::
                && name != BootLevelName
                && name != FlashModeName(SelectFlashMode(f).value)
                && (name == LogColorsName ==> !IsSet(f.logColored))
                ==> && (name in r.value.macros <==> name in u.macros)
                    && (name in u.macros ==> r.value.macros[name] == u.macros[name])
    ensures !IsGuarded(u) && r.Success? ==>
              && BootLevelName in r.value.macros
              && r.value.macros[BootLevelName] == BootLevel(FlagsOf(u.macros))
              && SelectFlashMode(FlagsOf(u.macros)).Some?
              && FlashModeName(SelectFlashMode(FlagsOf(u.macros)).value) in r.value.macros
              && r.value.macros[FlashModeName(SelectFlashMode(FlagsOf(u.macros)).value)] == 1
              && (IsSet(FlagsOf(u.macros).logColored) ==>
                    LogColorsName in r.value.macros && r.value.macros[LogColorsName] == 1)
  {
    if IsGuarded(u) then Success(u)
    else
      match Resolve(FlagsOf(u.macros))
      case Failure(e) => Failure(e)
      case Success(c) => Success(Unit(true, u.macros + Defines(c)))
  }

  /** Adding the header's constants changes none of the flags it reads. */
  lemma DefinesKeepFlags(t: MacroTable, c: Config)
    ensures FlagsOf(t + Defines(c)) == FlagsOf(t)
  {
  }

  /** Including the header twice gives the same unit, and the same configuration, as including it once. */
  lemma IncludeIdempotent(u: Unit)
    ensures Include(u).Success? ==> Include(Include(u).value) == Include(u)
  {
  }

  /**
    Even ignoring the guard, resolving again from the macros the header left behind yields the
    configuration it resolved the first time: its outputs never feed back into its inputs.
   */
  lemma ResolveAgainAfterInclude(u: Unit, c: Config)
    requires !IsGuarded(u) && Resolve(FlagsOf(u.macros)) == Success(c)
    ensures Include(u).Success?
    ensures Resolve(FlagsOf(Include(u).value.macros)) == Success(c)
  {
  }

  /**
    In a unit that does not define the header's constants already, one inclusion leaves exactly
    the resolved configuration readable, with a single `CONFIG_FLASHMODE_*` defined.
   */
  lemma IncludeDefinesResolvedConfig(u: Unit, c: Config)
    requires !IsGuarded(u) && Resolve(FlagsOf(u.macros)) == Success(c)
    requires forall name :: name in u.macros ==> !IsOutputName(name)
    ensures Include(u).Success?
    ensures ReadConfig(Include(u).value.macros) == Some(c)
    ensures forall m: FlashMode :: FlashModeName(m) in Include(u).value.macros <==> m == c.flashMode
  {
  }
}
