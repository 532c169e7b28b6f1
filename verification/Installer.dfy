/** Installer activation and its compensation (installer/src/li_installer_core_manager.rs,
    installer/src/li_installer.rs): the two links `core/current` and the public launcher,
    receipt-bound rollback, and the authority to retire a freshly created home.
    Reads may fail, and every mutation may fail before or after taking effect. */
module Installer {
  import opened Text

  // A link path: nothing there, a symbolic link, or something that is not one.
  datatype Link = Absent | Symlink(target: string) | Foreign

  // How one mutation ends.
  datatype Fate = Done | FailedBefore | FailedAfter

  datatype LauncherReceipt = LauncherReceipt(installed: string, previous: Link)

  datatype CoreInstall = CoreInstall(launcher: LauncherReceipt, destination: string, previous: Link)

  datatype Activation = Activated(receipt: LauncherReceipt) | Refused(rollbackCompleted: bool)

  // The pair of links at one moment.
  datatype Links = Links(launcher: Link, current: Link)

  // Both rollbacks report success, or some failure is reported.
  function CombineRollbackResults(launcher: bool, activation: bool): bool {
    match (launcher, activation)
    case (true, true) => true
    case (false, true) => false
    case (true, false) => false
    case (false, false) => false
  }

  // Each link is where the installation left it or where it was before.
  predicate Reversible(core: CoreInstall, now: Links) {
    && now.launcher in {core.launcher.previous, Symlink(core.launcher.installed)}
    && now.current in {core.previous, Symlink(core.destination)}
    && core.launcher.previous != Foreign && core.previous != Foreign
  }

  class Host {
    var launcher: Link
    var current: Link
    // The setup-root receipt: present at all, and still owning a home it created.
    const prepared: bool
    var ownsFreshHome: bool

    // For the contracts: the links as they were when the fresh home was retired, and every
    // change a launcher or activation mutation made, as (before, after).
    ghost var retired: Option<Links>
    ghost var faults: nat  // how many reads, checks and mutations failed so far
    ghost var homeFaults: nat  // how many of these were validations of the home
    ghost var launcherWrites: seq<(Link, Link)>
    ghost var currentWrites: seq<(Link, Link)>

    constructor (launcher: Link, current: Link, prepared: bool, ownsFreshHome: bool)
      ensures this.launcher == launcher && this.current == current
      ensures this.prepared == prepared && this.ownsFreshHome == ownsFreshHome
      ensures retired == None && launcherWrites == [] && currentWrites == [] && faults == 0 && homeFaults == 0
    {
      this.launcher, this.current := launcher, current;
      this.prepared, this.ownsFreshHome := prepared, ownsFreshHome;
      retired, launcherWrites, currentWrites, faults, homeFaults := None, [], [], 0, 0;
    }

    ghost function Pair(): Links
      reads this
    {
      Links(launcher, current)
    }

    // ------------------------------------------------------------ primitive operations

    // Anything else that can fail without touching a link.
    method Attempt() returns (ok: bool)
      modifies this`faults
      ensures if ok then faults == old(faults) else faults == old(faults) + 1
    {
      ok := *;
      if !ok { faults := faults + 1; }
    }

    // launcher_state: absence or the raw target; anything else, or an I/O error, is refused.
    method ReadLauncher() returns (observed: Option<Link>)
      modifies this`faults
      ensures observed.Some? ==> observed.value == launcher && launcher != Foreign && faults == old(faults)
      ensures observed.None? ==> launcher == Foreign || faults > old(faults)
      ensures faults >= old(faults)
    {
      var readable := Attempt();
      return if readable && launcher != Foreign then Some(launcher) else None;
    }

    method ReadCurrent() returns (observed: Option<Link>)
      modifies this`faults
      ensures observed.Some? ==> observed.value == current && current != Foreign && faults == old(faults)
      ensures observed.None? ==> current == Foreign || faults > old(faults)
      ensures faults >= old(faults)
    {
      var readable := Attempt();
      return if readable && current != Foreign then Some(current) else None;
    }

    // Replaces the launcher by a link, or removes it when `value` is Absent.
    method SetLauncher(value: Link) returns (ok: bool)
      modifies this`launcher, this`launcherWrites, this`faults
      ensures ok ==> launcher == value && faults == old(faults)
      ensures !ok ==> faults > old(faults)
      ensures (launcher == old(launcher) && launcherWrites == old(launcherWrites))
        || (launcher == value && launcherWrites == old(launcherWrites) + [(old(launcher), value)])
    {
      var fate: Fate := *;
      if fate != FailedBefore {
        launcherWrites := launcherWrites + [(launcher, value)];
        launcher := value;
      }
      if fate != Done { faults := faults + 1; }
      return fate == Done;
    }

    method SetCurrent(value: Link) returns (ok: bool)
      modifies this`current, this`currentWrites, this`faults
      ensures ok ==> current == value && faults == old(faults)
      ensures !ok ==> faults > old(faults)
      ensures (current == old(current) && currentWrites == old(currentWrites))
        || (current == value && currentWrites == old(currentWrites) + [(old(current), value)])
    {
      var fate: Fate := *;
      if fate != FailedBefore {
        currentWrites := currentWrites + [(current, value)];
        current := value;
      }
      if fate != Done { faults := faults + 1; }
      return fate == Done;
    }

    // validate_setup_home: without a receipt there is nothing to validate.
    method ValidateHome() returns (ok: bool)
      modifies this`faults, this`homeFaults
      ensures !prepared ==> ok
      ensures if ok then faults == old(faults) && homeFaults == old(homeFaults)
              else faults == old(faults) + 1 && homeFaults == old(homeFaults) + 1
    {
      if !prepared { return true; }
      ok := Attempt();
      if !ok { homeFaults := homeFaults + 1; }
    }

    // cleanup_created_home: retires a home the receipt created, with everything in it.
    method CleanupHome() returns (ok: bool)
      modifies this`ownsFreshHome, this`current, this`retired, this`faults
      ensures !old(ownsFreshHome) ==> ok && current == old(current) && retired == old(retired)
      ensures ok ==> !ownsFreshHome && faults == old(faults)
      ensures ok && old(ownsFreshHome) ==> retired == Some(old(Pair()))
      ensures !ok ==> faults > old(faults)
      ensures (current == old(current) && retired == old(retired))
        || (old(ownsFreshHome) && current == Absent && retired == Some(old(Pair())))
    {
      if !ownsFreshHome { return true; }
      var fate: Fate := *;
      if fate != FailedBefore {
        retired := Some(Pair());
        current := Absent;
      }
      if fate == Done { ownsFreshHome := false; } else { faults := faults + 1; }
      return fate == Done;
    }

    // Before activation an invalid home is retired if the receipt owns it.
    method ValidateUnactivatedHome() returns (ok: bool)
      modifies this`ownsFreshHome, this`current, this`retired, this`faults, this`homeFaults
      ensures if ok then faults == old(faults) && homeFaults == old(homeFaults)
              else faults > old(faults) && homeFaults > old(homeFaults)
      ensures !ok && old(ownsFreshHome) && faults == old(faults) + 1 ==> retired == Some(old(Pair())) && !ownsFreshHome
      ensures ok ==> current == old(current) && retired == old(retired) && ownsFreshHome == old(ownsFreshHome)
      ensures (current == old(current) && retired == old(retired))
        || (old(ownsFreshHome) && current == Absent && retired == Some(old(Pair())))
    {
      ok := ValidateHome();
      if !ok { var _ := CleanupHome(); }
    }

    // ------------------------------------------------------------ rollback

    // Touches the launcher only while it is the installed target.
    method RollbackLauncher(receipt: LauncherReceipt) returns (ok: bool)
      modifies this`launcher, this`launcherWrites, this`faults
      ensures ok ==> launcher == receipt.previous && faults == old(faults)
      ensures !ok ==>
        || faults > old(faults)
        || old(launcher) !in {receipt.previous, Symlink(receipt.installed)}
        || receipt.previous == Foreign
      ensures faults >= old(faults)
      ensures (launcher == old(launcher) && launcherWrites == old(launcherWrites))
        || (old(launcher) == Symlink(receipt.installed) && launcher == receipt.previous
            && launcherWrites == old(launcherWrites) + [(old(launcher), launcher)])
      ensures old(launcher) == receipt.previous ==> launcherWrites == old(launcherWrites)
    {
      var observed := ReadLauncher();
      if observed.None? { return false; }
      if observed.value == receipt.previous { return true; }
      if observed.value != Symlink(receipt.installed) { return false; }
      var changed := SetLauncher(receipt.previous);
      if !changed { return false; }
      var after := ReadLauncher();
      return after == Some(receipt.previous);
    }

    // Touches `current` only while it is the failed release.
    method RestoreCurrent(failed: string, previous: Link) returns (ok: bool)
      modifies this`current, this`currentWrites, this`faults
      ensures ok ==> current == previous && faults == old(faults)
      ensures !ok ==> faults > old(faults) || old(current) !in {previous, Symlink(failed)} || previous == Foreign
      ensures faults >= old(faults)
      ensures (current == old(current) && currentWrites == old(currentWrites))
        || (old(current) == Symlink(failed) && current == previous
            && currentWrites == old(currentWrites) + [(old(current), current)])
      ensures old(current) == previous ==> currentWrites == old(currentWrites)
    {
      var observed := ReadCurrent();
      if observed.None? { return false; }
      if observed.value == previous { return true; }
      if observed.value != Symlink(failed) { return false; }
      ok := SetCurrent(previous);
    }

    // ------------------------------------------------------------ installation

    method ActivateLauncher(target: string) returns (r: Activation)
      modifies this`launcher, this`launcherWrites, this`faults
      ensures if r.Activated? then faults == old(faults) && old(launcher) != Foreign
              else faults > old(faults) || old(launcher) == Foreign
      ensures faults >= old(faults)
      ensures r.Activated? ==> r.receipt == LauncherReceipt(target, old(launcher)) && launcher == Symlink(target)
      ensures r.Refused? && r.rollbackCompleted ==> launcher == old(launcher)
      // Recovery is left to the operator only after a second fault.
      ensures r.Refused? && faults <= old(faults) + 1 ==> r.rollbackCompleted
      ensures launcher == old(launcher) || launcher == Symlink(target)
    {
      var privileged := Attempt();  // sudo is found where it is required
      if !privileged { return Refused(true); }
      var previous := ReadLauncher();
      if previous.None? { return Refused(true); }
      var directory := Attempt();
      if !directory { return Refused(true); }
      var receipt := LauncherReceipt(target, previous.value);
      var replaced := SetLauncher(Symlink(target));
      if !replaced {
        var undone := RollbackLauncher(receipt);
        return Refused(undone);
      }
      var observed := ReadLauncher();
      if observed != Some(Symlink(target)) {
        var undone := RollbackLauncher(receipt);
        return Refused(undone);
      }
      return Activated(receipt);
    }

    // A failed installation leaves the exact prior links, or `current` on the new release;
    // the fresh home is retired only while both links are the prior ones.
    method Install(destination: string, target: string) returns (r: Option<CoreInstall>)
      requires retired.None? && (ownsFreshHome ==> prepared && current == Absent)
      modifies this
      ensures r.None? ==> faults > old(faults) || old(launcher) == Foreign || old(current) == Foreign
      ensures faults >= old(faults)
      ensures r.Some? ==>
        && faults == old(faults) && old(launcher) != Foreign && old(current) != Foreign
        && r.value == CoreInstall(LauncherReceipt(target, old(launcher)), destination, old(current))
        && Pair() == Links(Symlink(target), Symlink(destination)) && retired.None?
        && ownsFreshHome == old(ownsFreshHome)
      ensures r.None? ==> Pair() == old(Pair()) || (current == Symlink(destination) && retired.None?)
      ensures launcher == old(launcher) || launcher == Symlink(target)
      ensures retired.Some? ==> retired.value == old(Pair()) && Pair() == old(Pair())
      // A refusal without any fault undoes everything and retires the home it created.
      ensures r.None? && faults == old(faults) ==> Pair() == old(Pair()) && (retired.Some? <==> old(ownsFreshHome))
      // So does one fault between two good links, unless it is a validation of the home.
      ensures r.None? && faults == old(faults) + 1 && homeFaults == old(homeFaults) ==>
        || old(launcher) == Foreign || old(current) == Foreign
        || (Pair() == old(Pair()) && (retired.Some? <==> old(ownsFreshHome)))
      // A single fault of any kind leaves the public launcher as it was.
      ensures r.None? && faults <= old(faults) + 1 ==> launcher == old(launcher)
    {
      r := None;
      var valid := ValidateUnactivatedHome();
      if !valid { return; }
      var trusted := Attempt();  // install_release_trust
      if !trusted {
        var _ := CleanupHome();
        return;
      }
      valid := ValidateUnactivatedHome();
      if !valid { return; }
      var released := Attempt();  // install_core_release
      if !released {
        var _ := CleanupHome();
        return;
      }
      valid := ValidateUnactivatedHome();
      if !valid { return; }
      var previous := ReadCurrent();
      if previous.None? {
        var _ := CleanupHome();
        return;
      }
      valid := ValidateUnactivatedHome();
      if !valid { return; }
      var activated := SetCurrent(Symlink(destination));
      if !activated {
        valid := ValidateHome();
        if !valid { return; }
        var restored := RestoreCurrent(destination, previous.value);
        if restored { var _ := CleanupHome(); }
        return;
      }
      valid := ValidateHome();
      if !valid { return; }
      var activation := ActivateLauncher(target);
      if activation.Refused? {
        valid := ValidateHome();
        if !valid || !activation.rollbackCompleted { return; }
        var restored := RestoreCurrent(destination, previous.value);
        if !restored { return; }
        valid := ValidateHome();
        if valid { var _ := CleanupHome(); }
        return;
      }
      valid := ValidateHome();
      if !valid {
        var _ := RollbackLauncher(activation.receipt);
        return;
      }
      r := Some(CoreInstall(activation.receipt, destination, previous.value));
    }

    // ------------------------------------------------------------ failed setup

    // Success means both links are back; failure may leave either where it was.
    method RollbackActivation(core: CoreInstall) returns (ok: bool)
      modifies this`launcher, this`current, this`launcherWrites, this`currentWrites, this`faults, this`homeFaults
      // One link is rolled back even when the other one's rollback fails.
      ensures !ok && Reversible(core, old(Pair())) && faults == old(faults) + 1 && homeFaults == old(homeFaults) ==>
        launcher == core.launcher.previous || current == core.previous
      ensures ok ==> Pair() == Links(core.launcher.previous, core.previous) && faults == old(faults)
      ensures !ok ==> faults > old(faults) || !Reversible(core, old(Pair()))
      ensures faults >= old(faults)
      ensures launcher == old(launcher)
        || (old(launcher) == Symlink(core.launcher.installed) && launcher == core.launcher.previous)
      ensures current == old(current) || (old(current) == Symlink(core.destination) && current == core.previous)
      ensures forall i :: |old(launcherWrites)| <= i < |launcherWrites| ==>
        launcherWrites[i] == (Symlink(core.launcher.installed), core.launcher.previous)
      ensures forall i :: |old(currentWrites)| <= i < |currentWrites| ==>
        currentWrites[i] == (Symlink(core.destination), core.previous)
      ensures old(launcherWrites) <= launcherWrites && old(currentWrites) <= currentWrites
      ensures old(Pair()) == Links(core.launcher.previous, core.previous) ==>
        launcherWrites == old(launcherWrites) && currentWrites == old(currentWrites)
    {
      var valid := ValidateHome();
      if !valid { return false; }
      var launcherDone := RollbackLauncher(core.launcher);
      valid := ValidateHome();
      if !valid { return false; }
      var currentDone := RestoreCurrent(core.destination, core.previous);
      if !CombineRollbackResults(launcherDone, currentDone) { return false; }
      ok := ValidateHome();
    }

    // Activation is reversed only for the safe failure class, and the fresh home is retired
    // only after that reversal succeeded.
    method ResolveSetupFailure(mayRollback: bool, core: CoreInstall)
      requires retired.None? && (ownsFreshHome ==> core.previous == Absent)
      modifies this
      ensures !mayRollback ==> Pair() == old(Pair()) && retired.None?
      ensures mayRollback && Reversible(core, old(Pair())) && faults == old(faults) ==>
        && Pair() == Links(core.launcher.previous, core.previous)
        && (retired.Some? <==> old(ownsFreshHome)) && !ownsFreshHome
      ensures retired.Some? ==>
        retired.value == Links(core.launcher.previous, core.previous) && Pair() == retired.value
      ensures launcher == old(launcher)
        || (old(launcher) == Symlink(core.launcher.installed) && launcher == core.launcher.previous)
      ensures current == old(current)
        || (old(current) == Symlink(core.destination) && current == core.previous)
    {
      if !mayRollback { return; }
      var restored := RollbackActivation(core);
      if !restored { return; }
      var _ := CleanupHome();
    }

    // A whole lifecycle whose setup fails: whatever fails on the way, a retired home means
    // the links are exactly the pre-install ones, and no link ever ends anywhere but at its
    // pre-install value or at the new release.
    method InstallThenFailingSetup(destination: string, target: string) returns (installed: bool, mayRollback: bool)
      requires retired.None? && (ownsFreshHome ==> prepared && current == Absent)
      modifies this
      ensures retired.Some? ==> retired.value == old(Pair()) && Pair() == old(Pair())
      ensures launcher == old(launcher) || launcher == Symlink(target)
      ensures current == old(current) || current == Symlink(destination)
      ensures !installed ==> Pair() == old(Pair()) || current == Symlink(destination)
      ensures !installed && faults == old(faults) ==> Pair() == old(Pair()) && (retired.Some? <==> old(ownsFreshHome))
      ensures installed && !mayRollback ==>
        Pair() == Links(Symlink(target), Symlink(destination)) && retired.None?
      ensures installed && mayRollback && faults == old(faults) ==>
        Pair() == old(Pair()) && (retired.Some? <==> old(ownsFreshHome))
    {
      mayRollback := *;
      var core := Install(destination, target);
      if core.None? { return false, mayRollback; }
      ResolveSetupFailure(mayRollback, core.value);
      return true, mayRollback;
    }

    // ------------------------------------------------------------ outside interference

    // Rollbacks interleaved with arbitrary outside link changes: no rollback ever writes
    // over anything but what the installer itself installed, and each one that reports
    // success leaves the recorded previous state in place.
    method RollbackUnderInterference(core: CoreInstall, changes: seq<Links>)
      modifies this`launcher, this`current, this`launcherWrites, this`currentWrites, this`faults, this`homeFaults
      ensures forall i :: |old(launcherWrites)| <= i < |launcherWrites| ==>
        launcherWrites[i] == (Symlink(core.launcher.installed), core.launcher.previous)
      ensures forall i :: |old(currentWrites)| <= i < |currentWrites| ==>
        currentWrites[i] == (Symlink(core.destination), core.previous)
    {
      for n := 0 to |changes|
        invariant old(launcherWrites) <= launcherWrites && old(currentWrites) <= currentWrites
        invariant forall i :: |old(launcherWrites)| <= i < |launcherWrites| ==>
          launcherWrites[i] == (Symlink(core.launcher.installed), core.launcher.previous)
        invariant forall i :: |old(currentWrites)| <= i < |currentWrites| ==>
          currentWrites[i] == (Symlink(core.destination), core.previous)
      {
        launcher, current := changes[n].launcher, changes[n].current;
        var ok := RollbackActivation(core);
        label replay:
        if ok {
          var again := RollbackActivation(core);
          assert launcherWrites == old@replay(launcherWrites) && currentWrites == old@replay(currentWrites);
        }
      }
    }
  }
}
