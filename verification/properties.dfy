/** Properties of the resolver that relate several resolutions, and concrete scenarios. */
module ResolverProperties {
  import opened Wrappers
  import opened SdkConfig

  /** The colour flag changes neither whether resolution fails, nor the log level, nor the flash mode. */
  lemma ColorFlagOnlyAffectsColors(f: Flags, colored: int)
    ensures Resolve(f.(logColored := colored)).Success? == Resolve(f).Success?
    ensures Resolve(f).Success? ==>
      && Resolve(f.(logColored := colored)).value.bootLevel == Resolve(f).value.bootLevel
      && Resolve(f.(logColored := colored)).value.flashMode == Resolve(f).value.flashMode
  {
  }

  /** The startup flag changes only the log level. */
  lemma StartupFlagOnlyAffectsLevel(f: Flags, startup: int)
    ensures Resolve(f.(logStartup := startup)).Success? == Resolve(f).Success?
    ensures Resolve(f).Success? ==>
      && Resolve(f.(logStartup := startup)).value.logColors == Resolve(f).value.logColors
      && Resolve(f.(logStartup := startup)).value.flashMode == Resolve(f).value.flashMode
  {
  }

  /** The flash-mode flags change only the flash mode, or whether resolution fails. */
  lemma FlashFlagsOnlyAffectFlashMode(f: Flags, qio: int, qout: int, dio: int, dout: int)
    ensures var g := f.(qio := qio, qout := qout, dio := dio, dout := dout);
      Resolve(f).Success? && Resolve(g).Success? ==>
        && Resolve(g).value.logColors == Resolve(f).value.logColors
        && Resolve(g).value.bootLevel == Resolve(f).value.bootLevel
  {
  }

  /** With every flash-mode flag zero or undefined the build aborts, whatever the log flags are. */
  lemma NoFlashModeAborts(colored: int, startup: int)
    ensures Resolve(Flags(colored, startup, 0, 0, 0, 0)) == Failure(UnknownFlashMode)
    ensures Message(Resolve(Flags(colored, startup, 0, 0, 0, 0)).error) == "Unknown flash mode selected."
  {
  }

  /** A single set flash-mode flag selects its own mode and never fails. */
  lemma SingleFlashFlagSelectsIt(f: Flags, m: FlashMode)
    requires IsSet(FlashFlag(f, m))
    requires forall p: FlashMode :: p != m ==> !IsSet(FlashFlag(f, p))
    ensures Resolve(f).Success? && Resolve(f).value.flashMode == m
  {
  }

  /** Several set flash-mode flags are not an error: the one tested first wins. */
  lemma MultipleFlashFlagsPickEarliest(f: Flags, a: FlashMode, b: FlashMode)
    requires IsSet(FlashFlag(f, a)) && IsSet(FlashFlag(f, b)) && Rank(a) < Rank(b)
    ensures Resolve(f).Success? && Resolve(f).value.flashMode != b
    ensures Rank(Resolve(f).value.flashMode) <= Rank(a)
  {
  }

  /** QIO and DOUT both set give QIO; QOUT and DIO both set give QOUT. */
  lemma EarliestFlashModeExamples(colored: int, startup: int)
    ensures Resolve(Flags(colored, startup, 1, 0, 0, 1)).Success?
    ensures Resolve(Flags(colored, startup, 1, 0, 0, 1)).value.flashMode == QIO
    ensures Resolve(Flags(colored, startup, 0, 1, 1, 0)).Success?
    ensures Resolve(Flags(colored, startup, 0, 1, 1, 0)).value.flashMode == QOUT
  {
  }

  /** Colours and startup logging enabled with QIO wiring; both disabled with DOUT wiring. */
  lemma ResolveScenarios()
    ensures Resolve(Flags(1, 1, 1, 0, 0, 0)) == Success(Config(Some(1), LogInfo, QIO))
    ensures Resolve(Flags(0, 0, 0, 0, 0, 1)) == Success(Config(None, LogNone, DOUT))
  {
  }
}
