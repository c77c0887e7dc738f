/** Swapping a freshly installed runtime in for the old one
    (jiuwenswarm/common/external_cli_runtime.py, `_replace_runtime_directory`). */
module RuntimeSwap {
  import opened Options

  /** The three paths involved. A runtime is whatever a directory holds. */
  datatype Disk = Disk(target: Option<string>, staging: Option<string>, backup: Option<string>)

  /** Which of the renames fail: away with the old, in with the new, back with the old. */
  datatype Faults = Faults(away: bool, into: bool, back: bool)

  datatype Result = Swapped | Failed

  /** The old runtime, if there was one, is still whole somewhere, or the new one is in place. */
  ghost predicate Safe(before: Disk, now: Disk) {
    || now.target == before.staging
    || (now.staging == before.staging
        && (before.target.Some? ==> now.target == before.target || now.backup == before.target))
  }

  class Runtime {
    var target: Option<string>
    var staging: Option<string>
    var backup: Option<string>
    /** Every state the disk has been in since the swap began. */
    ghost var states: seq<Disk>

    ghost function Now(): Disk
      reads this
    {
      Disk(target, staging, backup)
    }

    constructor (target: Option<string>, staging: Option<string>)
      ensures Now() == Disk(target, staging, None) && states == [Now()]
    {
      this.target, this.staging, backup := target, staging, None;
      states := [Disk(target, staging, None)];
    }

    /** The swap; `kept` is what clearing away the backup leaves of it. It ends in one of four ways:
        the new runtime is in place; nothing happened; the old runtime is back in place; or, if moving
        it back failed too, it is whole in the backup. At no step, so at no crash either, is the old
        runtime lost before the new one is in place. */
    method Replace(faults: Faults, kept: Option<string>) returns (result: Result)
      requires staging.Some? && backup == None && states == [Now()]
      modifies this
      ensures result == Swapped <==> !faults.into && (old(target).Some? ==> !faults.away)
      ensures result == Swapped ==> target == old(staging) && staging == None
      ensures result == Failed ==>
                staging == old(staging)
                && if old(target).Some? && !faults.away && faults.back
                   then target == None && backup == old(target)
                   else target == old(target) && backup == None
      ensures forall d | d in states :: Safe(old(Now()), d)
      ensures |states| > 0 && states[|states| - 1] == Now()
    {
      var existed := target.Some?;
      var failed := existed && faults.away;
      if existed && !failed {
        target, backup := None, target;
        states := states + [Now()];
      }
      if !failed {
        failed := faults.into;
        if !failed {
          target, staging := staging, None;
          states := states + [Now()];
        }
      }
      if failed {
        if existed && backup.Some? && target.None? && !faults.back {
          target, backup := backup, None;
          states := states + [Now()];
        }
        return Failed;
      }
      if backup.Some? {
        backup := kept;
        states := states + [Now()];
      }
      result := Swapped;
    }
  }
}
