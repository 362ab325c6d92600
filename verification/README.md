# ESP8266 bootloader SDK configuration resolver

A Dafny model of `pkg/esp8266_sdk/bootloader/sdkconfig.h` from RIOT's ESP8266 SDK package.
The header is included when the vendor bootloader is built. A chain of preprocessor
conditionals turns build-time flags into the constants the bootloader is compiled against:

- `CONFIG_LOG_COLORS` is defined as 1 when `MODULE_ESP_LOG_COLORED` is non-zero. Otherwise it is left undefined.
- `CONFIG_LOG_BOOTLOADER_LEVEL` is 3 (INFO) when `MODULE_ESP_LOG_STARTUP` is non-zero, and 0 (NONE) otherwise.
- The flags `FLASH_MODE_QIO`, `FLASH_MODE_QOUT`, `FLASH_MODE_DIO` and `FLASH_MODE_DOUT` are tested in that order.
  The first non-zero one defines its `CONFIG_FLASHMODE_*` as 1.
  When all four are zero or undefined, the build stops with `#error "Unknown flash mode selected."`.
- An include guard makes a second inclusion define nothing.

Preprocessor evaluation is abstracted. Every flag is an integer. An undefined identifier
evaluates to 0. `#if X` takes its branch exactly when X is non-zero.

Files:

- `wrappers.dfy` (module `Wrappers`): `Option` and `Result`.
- `sdkconfig.dfy` (module `SdkConfig`): the flags, the `Config` record, the three rules and `Resolve`.
- `priority.dfy` (module `FlashPriority`): an independent reference for the flash-mode rule.
  It scans the modes in priority order and takes the first set one. A lemma proves that the `#elif` chain computes this scan.
- `preprocessor.dfy` (module `Preprocessor`): the header inside a translation unit.
  It reads its flags from the macros already defined and adds its constants.
  The include guard makes it idempotent.
- `properties.dfy` (module `ResolverProperties`): independence of the three rules, the priority rule, and concrete scenarios.

Two consequences of the header's text shape the model:

- Several set flash-mode flags are not an error: the `#elif` chain takes the earliest, so QIO and DOUT give QIO
  (`ResolverProperties.MultipleFlashFlagsPickEarliest`).
- `CONFIG_LOG_COLORS` is defined as 1 or left undefined, so `Config.logColors` is `Option<int>`, where `None` means undefined.

## Model

| member | source | states |
|---|---|---|
| SdkConfig.LogColors | pkg/esp8266_sdk/bootloader/sdkconfig.h:35-37 | `CONFIG_LOG_COLORS` is defined exactly when the colour flag is non-zero, and then its value is 1 |
| SdkConfig.BootLevel | pkg/esp8266_sdk/bootloader/sdkconfig.h:39-52 | the level is INFO exactly when the startup flag is non-zero, and NONE exactly when it is zero; it always lies on the 0..5 scale |
| SdkConfig.SelectFlashMode | pkg/esp8266_sdk/bootloader/sdkconfig.h:54-64 | the chain reaches `#else` exactly when all four flags are zero; otherwise the chosen mode has its flag set and every mode tested before it has not |
| SdkConfig.Resolve | pkg/esp8266_sdk/bootloader/sdkconfig.h:35-64 | fails, with the unknown-flash-mode error, exactly when no flash flag is set; on success colours are `Some(1)`/undefined as the colour flag is set/zero, the level is INFO/NONE as the startup flag is set/zero, and the flash mode is the first set one in priority order |
| SdkConfig.Message | pkg/esp8266_sdk/bootloader/sdkconfig.h:62-63 | the unknown-flash-mode failure carries the `#error` diagnostic "Unknown flash mode selected." |
| SdkConfig.Rank | pkg/esp8266_sdk/bootloader/sdkconfig.h:54-61 | the four modes have distinct positions in the chain, in the order QIO, QOUT, DIO, DOUT |
| SdkConfig.FirstSetIsUnique | pkg/esp8266_sdk/bootloader/sdkconfig.h:54-61 | at most one mode is "set with no set mode tested before it", so the chain's choice is determined by the flags |
| FlashPriority.PriorityListsEveryModeByRank | pkg/esp8266_sdk/bootloader/sdkconfig.h:54-61 | the priority order QIO, QOUT, DIO, DOUT lists every mode at the position of its test in the chain |
| FlashPriority.FirstSet | pkg/esp8266_sdk/bootloader/sdkconfig.h:54-61 | a scan over any order of modes returns the index of a set mode with no set mode before it, or reports that no mode in the order is set |
| FlashPriority.ScanFlashMode | pkg/esp8266_sdk/bootloader/sdkconfig.h:54-61 | the priority scan finds nothing exactly when all four flags are zero; otherwise the mode it selects is set and no mode before it in priority order is set |
| FlashPriority.NoFlashFlagMeansNoModeSet | pkg/esp8266_sdk/bootloader/sdkconfig.h:54-63 | the `#else` condition of the chain holds exactly when no mode at all has its flag set |
| FlashPriority.ChainMatchesPriorityScan | pkg/esp8266_sdk/bootloader/sdkconfig.h:54-64 | the `#if`/`#elif` chain selects the same mode as the priority scan, and reaches `#else` exactly when the scan finds nothing |
| Preprocessor.FlashFlagName | pkg/esp8266_sdk/bootloader/sdkconfig.h:54-61 | each mode is requested by the flag `FLASH_MODE_<mode>`, which is distinct from the log flags and never one of the header's outputs or its guard |
| Preprocessor.FlashModeName | pkg/esp8266_sdk/bootloader/sdkconfig.h:54-61 | each mode defines the constant `CONFIG_FLASHMODE_<mode>`, one of the header's six output names and distinct from the colour and level constants |
| Preprocessor.Eval | pkg/esp8266_sdk/bootloader/sdkconfig.h:54-61 | in a conditional, a defined identifier evaluates to its integer value and an undefined one to 0 |
| Preprocessor.FlagsOf | pkg/esp8266_sdk/bootloader/sdkconfig.h:35-61 | each flag the header tests is read from the macro of its name |
| Preprocessor.Defines | pkg/esp8266_sdk/bootloader/sdkconfig.h:35-61 | the header defines only its own constants: the colour macro exactly when colours are on, the level with its value, and exactly one `CONFIG_FLASHMODE_*`, as 1 |
| Preprocessor.ReadConfig | pkg/esp8266_sdk/bootloader/sdkconfig.h:35-61 | the inverse of `Defines`: a table yields no configuration exactly when the level or every flash-mode constant is missing; otherwise the level is the table's value, the colour setting is defined exactly when its macro is, with its value, and the flash mode's constant is defined |
| Preprocessor.ReadDefinesRoundTrip | pkg/esp8266_sdk/bootloader/sdkconfig.h:35-61 | the constants a configuration defines read back as exactly that configuration |
| Preprocessor.Include | pkg/esp8266_sdk/bootloader/sdkconfig.h:27-66 | a unit whose guard macro is defined is left unchanged; otherwise inclusion fails exactly when no flash flag is defined non-zero; a successful inclusion sets the guard, removes no macro, and leaves every name other than the level, the selected mode's constant and (when the colour flag is set) `CONFIG_LOG_COLORS` exactly as it was, defined or undefined; it defines the level as the resolved one, the selected mode's `CONFIG_FLASHMODE_*` as 1, and `CONFIG_LOG_COLORS` as 1 when the colour flag is set |
| Preprocessor.DefinesKeepFlags | pkg/esp8266_sdk/bootloader/sdkconfig.h:35-61 | adding the header's constants changes none of the flags it reads |
| Preprocessor.IncludeIdempotent | pkg/esp8266_sdk/bootloader/sdkconfig.h:27-66 | including the header a second time changes nothing |
| Preprocessor.ResolveAgainAfterInclude | pkg/esp8266_sdk/bootloader/sdkconfig.h:27-66 | resolving again from the macros an inclusion leaves behind yields the configuration resolved the first time |
| Preprocessor.IncludeDefinesResolvedConfig | pkg/esp8266_sdk/bootloader/sdkconfig.h:35-66 | in a unit without the header's constants, one inclusion leaves the resolved configuration readable, with exactly one `CONFIG_FLASHMODE_*` defined |
| ResolverProperties.ColorFlagOnlyAffectsColors | pkg/esp8266_sdk/bootloader/sdkconfig.h:35-37 | changing the colour flag changes neither failure, nor level, nor flash mode |
| ResolverProperties.StartupFlagOnlyAffectsLevel | pkg/esp8266_sdk/bootloader/sdkconfig.h:48-52 | changing the startup flag changes neither failure, nor colours, nor flash mode |
| ResolverProperties.FlashFlagsOnlyAffectFlashMode | pkg/esp8266_sdk/bootloader/sdkconfig.h:54-64 | changing the flash flags leaves colours and level unchanged whenever both resolutions succeed |
| ResolverProperties.NoFlashModeAborts | pkg/esp8266_sdk/bootloader/sdkconfig.h:62-63 | with all flash flags zero the build fails with "Unknown flash mode selected.", whatever the log flags |
| ResolverProperties.SingleFlashFlagSelectsIt | pkg/esp8266_sdk/bootloader/sdkconfig.h:54-61 | exactly one set flash flag always succeeds and selects that mode |
| ResolverProperties.MultipleFlashFlagsPickEarliest | pkg/esp8266_sdk/bootloader/sdkconfig.h:54-61 | two set flash flags do not fail; the later of them is never chosen |
| ResolverProperties.EarliestFlashModeExamples | pkg/esp8266_sdk/bootloader/sdkconfig.h:54-61 | QIO with DOUT gives QIO, and QOUT with DIO gives QOUT |
| ResolverProperties.ResolveScenarios | pkg/esp8266_sdk/bootloader/sdkconfig.h:35-61 | colours and startup logging with QIO give `Some(1)`, INFO, QIO; neither with DOUT gives undefined colours, NONE, DOUT |

## Left out

- The headers included at lines 30-33 (`riotbuild.h`, `esp8266_idf_version.h`, `sdkconfig_default.h`) are not part of this model. Whatever they define is already in `Unit.macros`, the table in effect at line 34, and only enters as input macros.
- The UART baudrate named in the header comment is not set by this file.
- Textual macro substitution, expression syntax inside `#if`, and macro bodies other than integers are abstracted to "a defined macro has an integer value".
- Macro redefinition diagnostics: `Preprocessor.Include` gives a constant the unit already defines its new value, as GCC and Clang do, but the model does not produce the warning they print.
- The logging and flash-access code that consumes the constants is external and not modelled.
