/**
  An independent reference for the flash-mode rule: scan the modes in their documented
  priority order and take the first one whose flag is set. The `#if`/`#elif` chain of the
  header is shown to compute exactly this scan.
 */
module FlashPriority {
  import opened Wrappers
  import opened SdkConfig

  /** The order in which the header tests the flash-mode flags. */
  const Priority: seq<FlashMode> := [QIO, QOUT, DIO, DOUT]

  /** Every mode appears in the priority order, at the position given by its rank. */
  lemma PriorityListsEveryModeByRank(m: FlashMode)
    ensures Rank(m) < |Priority| && Priority[Rank(m)] == m
  {
  }

  /** The index of the first mode in `order` whose flag is set, if any. */
  function FirstSet(order: seq<FlashMode>, f: Flags): (r: Option<nat>)
    ensures r.Some? ==> r.value < |order| && IsSet(FlashFlag(f, order[r.value]))
    ensures r.Some? ==> forall j :: 0 <= j < r.value ==> !IsSet(FlashFlag(f, order[j]))
    ensures r.None? ==> forall j :: 0 <= j < |order| ==> !IsSet(FlashFlag(f, order[j]))
    decreases |order|
  {
    if |order| == 0 then None
    else if IsSet(FlashFlag(f, order[0])) then Some(0)
    else
      match FirstSet(order[1..], f)
      case None => None
      case Some(k) => Some(k + 1)
  }

  /** The mode the priority scan selects, `None` when no flag is set. */
  function ScanFlashMode(f: Flags): (r: Option<FlashMode>)
    ensures r.None? <==> NoFlashFlag(f)
    ensures r.Some? ==> IsFirstSet(f, r.value)
  {
    match FirstSet(Priority, f)
    case None =>
      assert forall m: FlashMode :: !IsSet(FlashFlag(f, m)) by {
        forall m: FlashMode
          ensures !IsSet(FlashFlag(f, m))
        {
          PriorityListsEveryModeByRank(m);
        }
      }
      NoFlashFlagMeansNoModeSet(f);
      None
    case Some(k) =>
      assert forall p: FlashMode :: Rank(p) < Rank(Priority[k]) ==> !IsSet(FlashFlag(f, p)) by {
        forall p: FlashMode | Rank(p) < Rank(Priority[k])
          ensures !IsSet(FlashFlag(f, p))
        {
          PriorityListsEveryModeByRank(p);
        }
      }
      Some(Priority[k])
  }

  /** The chain reaches its `#else` exactly when no mode at all has its flag set. */
  lemma NoFlashFlagMeansNoModeSet(f: Flags)
    ensures NoFlashFlag(f) <==> forall m: FlashMode :: !IsSet(FlashFlag(f, m))
  {
    if !NoFlashFlag(f) {
      if IsSet(f.qio) { assert IsSet(FlashFlag(f, QIO)); }
      else if IsSet(f.qout) { assert IsSet(FlashFlag(f, QOUT)); }
      else if IsSet(f.dio) { assert IsSet(FlashFlag(f, DIO)); }
      else { assert IsSet(FlashFlag(f, DOUT)); }
    }
  }

  /** The `#if`/`#elif` chain selects the same mode as the priority scan, and fails when it does. */
  lemma ChainMatchesPriorityScan(f: Flags)
    ensures SelectFlashMode(f) == ScanFlashMode(f)
  {
    match SelectFlashMode(f)
    case None =>
    case Some(m) => FirstSetIsUnique(f, m, ScanFlashMode(f).value);
  }
}
