// Mounting over a regular file. The parent directory is handed to root and made
// unwritable while the mount is made, then given back exactly as it was.
module SecureMount {

  datatype Attributes = Attributes(uid: nat, gid: nat, mode: bv12) {
    predicate Writable() { mode & WRITE != 0 }

    predicate OwnedLike(other: Attributes) {
      uid == other.uid && gid == other.gid
    }

    // fchown may clear the set-id bits.
    function Owned(uid: nat, gid: nat, dropsSetId: bool): Attributes {
      Attributes(uid, gid, if dropsSetId then mode & !SETID else mode)
    }

    function Locked(): Attributes {
      this.(mode := mode & !WRITE)
    }
  }

  const WRITE: bv12 := 0x92
  const SETID: bv12 := 0xC00

  // What one system call does: it works, fails because the filesystem is
  // read-only, or fails otherwise.
  datatype Outcome = Done(dropsSetId: bool) | ReadOnlyError | OtherError

  datatype Protection = Unprotected | OnReadOnly | LockedParent(attributes: Attributes)
  datatype Completion = Failed | Clean | NeedsTrackedCleanup

  class Parent {
    const outcomes: nat -> Outcome
    const readOnly: bool
    var time: nat
    var attributes: Attributes
    var mounted: bool
    // Every value the attributes have had, the current one last.
    ghost var history: seq<Attributes>
    // Whether the mount call was reached.
    ghost var attempted: bool

    ghost predicate Valid()
      reads this
    {
      history != [] && history[|history| - 1] == attributes
    }

    // Nobody but root can replace the name the mount goes onto.
    ghost predicate Protected()
      reads this
    {
      readOnly || (attributes.uid == 0 && attributes.gid == 0 && !attributes.Writable())
    }

    ghost predicate NothingFails() {
      forall n :: outcomes(n).Done?
    }

    constructor (outcomes: nat -> Outcome, readOnly: bool, attributes: Attributes)
      ensures Valid() && !mounted && !attempted && this.attributes == attributes
      ensures this.outcomes == outcomes && this.readOnly == readOnly
    {
      this.outcomes, this.readOnly, this.attributes := outcomes, readOnly, attributes;
      time, mounted, history, attempted := 0, false, [attributes], false;
    }

    // ---------- System calls ----------

    method Chown(uid: nat, gid: nat) returns (outcome: Outcome)
      requires Valid()
      modifies this`time, this`attributes, this`history
      ensures Valid() && (readOnly ==> !outcome.Done?)
      ensures NothingFails() ==> if readOnly then outcome.ReadOnlyError? else outcome.Done?
      ensures attributes ==
        if outcome.Done? then old(attributes).Owned(uid, gid, outcome.dropsSetId) else old(attributes)
      ensures history == if outcome.Done? then old(history) + [attributes] else old(history)
    {
      outcome := if readOnly && outcomes(time).Done? then ReadOnlyError else outcomes(time);
      time := time + 1;
      if outcome.Done? {
        attributes := attributes.Owned(uid, gid, outcome.dropsSetId);
        history := history + [attributes];
      }
    }

    method Chmod(mode: bv12) returns (ok: bool)
      requires Valid()
      modifies this`time, this`attributes, this`history
      ensures Valid() && (readOnly ==> !ok)
      ensures NothingFails() && !readOnly ==> ok
      ensures attributes == if ok then old(attributes).(mode := mode) else old(attributes)
      ensures history == if ok then old(history) + [attributes] else old(history)
    {
      ok := outcomes(time).Done? && !readOnly;
      time := time + 1;
      if ok {
        attributes := attributes.(mode := mode);
        history := history + [attributes];
      }
    }

    // Any call that changes neither attributes nor mounts.
    method Probe() returns (ok: bool)
      modifies this`time
      ensures NothingFails() ==> ok
    {
      ok := outcomes(time).Done?;
      time := time + 1;
    }

    // Open or create the target and mount over it. Calling this unprotected is the
    // mistake the whole arrangement exists to prevent.
    method Mount() returns (ok: bool)
      requires Protected() && !mounted
      modifies this`time, this`mounted, this`attempted
      ensures mounted == ok && attempted
      ensures NothingFails() ==> ok
    {
      attempted := true;
      ok := Probe();
      mounted := ok;
    }

    method Unmount() returns (ok: bool)
      modifies this`time, this`mounted
      ensures mounted == (old(mounted) && !ok)
    {
      ok := Probe();
      mounted := mounted && !ok;
    }

    // ---------- Restoring ----------

    // Every state on the way keeps the temporary mode until the owner is back.
    ghost predicate OwnerFirst(from: nat, wanted: Attributes, was: Attributes)
      requires from <= |history|
      reads this
    {
      forall i :: from <= i < |history| ==>
        history[i].OwnedLike(wanted) && (history[i] == wanted || history[i].mode & WRITE == was.mode & WRITE)
    }

    method Restore(wanted: Attributes) returns (ok: bool)
      requires Valid()
      modifies this`time, this`attributes, this`history
      ensures Valid() && |old(history)| <= |history| && old(history) <= history
      ensures OwnerFirst(|old(history)|, wanted, old(attributes))
      ensures ok ==> attributes == wanted
      ensures NothingFails() && !readOnly ==> ok
      ensures !ok ==> Half(wanted, old(attributes))
    {
      ghost var was := attributes;
      var owner := Chown(wanted.uid, wanted.gid);
      if !owner.Done? {
        return false;
      }
      WriteBitsStay(was, wanted.uid, wanted.gid, owner.dropsSetId);
      ok := Chmod(wanted.mode);
    }

    method RestoreProtection(protection: Protection) returns (ok: bool)
      requires Valid()
      modifies this`time, this`attributes, this`history
      ensures Valid() && |old(history)| <= |history| && old(history) <= history
      ensures !protection.LockedParent? ==> ok && attributes == old(attributes) && history == old(history)
      ensures protection.LockedParent? ==> OwnerFirst(|old(history)|, protection.attributes, old(attributes))
      ensures protection.LockedParent? && ok ==> attributes == protection.attributes
      ensures NothingFails() && !readOnly ==> ok
      ensures protection.LockedParent? && !ok ==> Half(protection.attributes, old(attributes))
    {
      ok := true;
      if protection.LockedParent? {
        ok := Restore(protection.attributes);
      }
    }

    // Restoration stopped: nothing done, or the owner is back and the mode still locked.
    ghost predicate Half(wanted: Attributes, was: Attributes)
      reads this
    {
      || attributes == was
      || (attributes.OwnedLike(wanted) && attributes.mode & WRITE == was.mode & WRITE)
    }

    // ---------- Protecting ----------

    // None when the parent could not be protected; it is then as before unless
    // giving it back failed too.
    method Protect() returns (protection: Protection)
      requires Valid() && !mounted
      modifies this`time, this`attributes, this`history
      ensures Valid()
      ensures protection.OnReadOnly? ==> readOnly && attributes == old(attributes)
      ensures protection.LockedParent? ==>
        !readOnly && protection.attributes == old(attributes)
        && attributes == old(attributes).Owned(0, 0, false).Locked()
      ensures protection.Unprotected? ==> attributes.mode & WRITE == old(attributes).mode & WRITE
      ensures !protection.Unprotected? ==> Protected()
      ensures NothingFails() ==> !protection.Unprotected?
    {
      var stat := Probe();
      if !stat {
        return Unprotected;
      }
      var wanted := attributes;
      var owner := Chown(0, 0);
      if !owner.Done? {
        if owner.ReadOnlyError? {
          var known := Probe();
          if known && readOnly {
            return OnReadOnly;
          }
        }
        return Unprotected;
      }
      var locked := Chmod(wanted.mode & !WRITE);
      if !locked {
        WriteBitsStay(wanted, 0, 0, owner.dropsSetId);
        var restored := Restore(wanted);
        return Unprotected;
      }
      LockRemovesWrite(wanted);
      protection := LockedParent(wanted);
    }

    // ---------- The whole mount ----------

    // What is true of the parent once the mount has been attempted under protection.
    ghost predicate GivenBack(was: Attributes)
      reads this
    {
      attributes == was || !attributes.Writable()
    }

    method Finish(ok: bool, protection: Protection, ghost was: Attributes) returns (completion: Completion)
      requires Valid() && ok == mounted && Protected()
      requires protection.OnReadOnly? ==> readOnly && attributes == was
      requires protection.LockedParent? ==> !readOnly && protection.attributes == was
      requires !protection.Unprotected?
      modifies this`time, this`attributes, this`history, this`mounted
      ensures Valid()
      ensures mounted <==> !completion.Failed?
      ensures completion.Clean? ==> ok && attributes == was
      ensures completion.NeedsTrackedCleanup? ==> ok && !readOnly
      ensures GivenBack(was)
      ensures NothingFails() && ok ==> completion.Clean?
    {
      if !ok {
        var restored := RestoreProtection(protection);
        return Failed;
      }
      var restored := RestoreProtection(protection);
      if restored {
        return Clean;
      }
      var rolledBack := Unmount();
      var again := RestoreProtection(protection);
      completion := if rolledBack then Failed else NeedsTrackedCleanup;
    }

    // The parent's attributes come back exactly, the mount exists exactly when success
    // is reported, and nobody but root could write to the parent when it was made.
    method MountRegularFile() returns (completion: Completion)
      requires Valid() && !mounted && !attempted
      modifies this
      ensures Valid()
      ensures mounted <==> !completion.Failed?
      ensures completion.Clean? ==> attempted && attributes == old(attributes)
      ensures completion.NeedsTrackedCleanup? ==> attempted && !readOnly
      ensures attempted ==> GivenBack(old(attributes))
      ensures NothingFails() ==> completion.Clean?
      ensures attributes.Writable() ==> attributes.mode & WRITE == old(attributes).mode & WRITE
    {
      var path := Probe();
      if !path {
        return Failed;
      }
      var protection := Protect();
      if protection.Unprotected? {
        return Failed;
      }
      var target := Probe();
      if target {
        target := Mount();
      }
      completion := Finish(target, protection, old(attributes));
    }
  }

  lemma WriteBitsStay(a: Attributes, uid: nat, gid: nat, dropsSetId: bool)
    ensures a.Owned(uid, gid, dropsSetId).mode & WRITE == a.mode & WRITE
  {
    assert (a.mode & !SETID) & WRITE == a.mode & WRITE;
  }

  lemma LockRemovesWrite(a: Attributes)
    ensures !a.Locked().Writable()
    ensures a.Locked() == a <==> !a.Writable()
  {
    assert (a.mode & !WRITE) & WRITE == 0;
    assert a.mode & !WRITE == a.mode <==> a.mode & WRITE == 0;
  }

  // Restoring in the code's order survives a chown that drops the set-id bits;
  // mode first and owner second gives the original back only if no set-id bit was set.
  lemma OrderMatters(locked: Attributes, wanted: Attributes)
    ensures locked.Owned(wanted.uid, wanted.gid, true).(mode := wanted.mode) == wanted
    ensures locked.(mode := wanted.mode).Owned(wanted.uid, wanted.gid, true) == wanted <==> wanted.mode & SETID == 0
  {
    assert wanted.mode & !SETID == wanted.mode <==> wanted.mode & SETID == 0;
  }
}
