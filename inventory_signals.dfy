/**
 * The pre-save handler that decides whether an inventoried machine is
 * online: a machine that just reported is online, and one whose last
 * report is older than the offline timeout is offline.  Times are whole
 * seconds.
 */
module InventorySignals {
  import opened Wrappers

  /** `MACHINE_OFFLINE_TIMEOUT` when the settings do not override it, in minutes. */
  const DefaultOfflineTimeout: nat := 15

  /**
   * `verificar_status_maquina`: the `is_online` the machine is saved with.
   * `stored` is the stored row's `last_seen`, or None when the row is gone.
   */
  function StatusAfterSave(pk: Option<nat>, stored: Option<Option<int>>, lastSeen: Option<int>,
                           now: int, timeoutMin: nat): bool
  {
    if pk.None? then true
    else if stored.None? then true
    else if lastSeen != stored.value then true
    else if lastSeen.Some? then !(lastSeen.value < now - timeoutMin * 60)
    else false
  }

  /**
   * A new machine, a vanished row and a fresh report all mean online; with
   * the report unchanged, the machine is offline exactly when it has no
   * report or its report is strictly older than the timeout.
   */
  lemma StatusAfterSaveSpec(pk: Option<nat>, stored: Option<Option<int>>, lastSeen: Option<int>,
                            now: int, timeoutMin: nat)
    ensures pk.None? || stored.None? ==> StatusAfterSave(pk, stored, lastSeen, now, timeoutMin)
    ensures pk.Some? && stored.Some? && lastSeen != stored.value ==> StatusAfterSave(pk, stored, lastSeen, now, timeoutMin)
    ensures pk.Some? && stored.Some? && lastSeen == stored.value ==>
              (!StatusAfterSave(pk, stored, lastSeen, now, timeoutMin)
               <==> lastSeen.None? || lastSeen.value < now - timeoutMin * 60)
  {
  }

  /** A machine found offline stays offline at any later time while nothing reports. */
  lemma OfflineStaysOffline(pk: Option<nat>, stored: Option<Option<int>>, lastSeen: Option<int>,
                            now: int, later: int, timeoutMin: nat)
    requires now <= later
    requires !StatusAfterSave(pk, stored, lastSeen, now, timeoutMin)
    ensures !StatusAfterSave(pk, stored, lastSeen, later, timeoutMin)
  {
  }

  /** A report exactly as old as the timeout still counts as online. */
  lemma TimeoutBoundaryOnline(pk: nat, t: int, timeoutMin: nat)
    ensures StatusAfterSave(Some(pk), Some(Some(t)), Some(t), t + timeoutMin * 60, timeoutMin)
    ensures !StatusAfterSave(Some(pk), Some(Some(t)), Some(t), t + timeoutMin * 60 + 1, timeoutMin)
  {
  }

  /** A `Machine` instance as the handler sees it. */
  class MachineInstance {
    var pk: Option<nat>
    var lastSeen: Option<int>
    var isOnline: bool

    constructor (pk: Option<nat>, lastSeen: Option<int>, isOnline: bool)
      ensures this.pk == pk && this.lastSeen == lastSeen && this.isOnline == isOnline
    {
      this.pk := pk;
      this.lastSeen := lastSeen;
      this.isOnline := isOnline;
    }

    /** The handler: it always overwrites `is_online` and nothing else. */
    method VerificarStatusMaquina(stored: Option<Option<int>>, now: int, timeoutMin: nat)
      modifies this`isOnline
      ensures isOnline == StatusAfterSave(pk, stored, lastSeen, now, timeoutMin)
    {
      if pk.None? {
        isOnline := true;
        return;
      }
      if stored.None? {
        isOnline := true;
        return;
      }
      if lastSeen != stored.value {
        isOnline := true;
        return;
      }
      if lastSeen.Some? {
        var threshold := now - timeoutMin * 60;
        if lastSeen.value < threshold {
          isOnline := false;
        } else {
          isOnline := true;
        }
      } else {
        isOnline := false;
      }
    }
  }
}
