/** The relay certificate refresh: build and verify the new PEM, back up the old one, swap by rename,
    check health, commit; any exit before the commit runs the rollback in the exit trap. */
module CertRefresh {
  import opened Basics
  import opened FileSystem

  /** How a command ends. A failure or a signal leaves the script through the exit trap; a signal may come
      before the command takes effect or right after it. */
  datatype Fate = Done | Failed(written: nat) | Signal(ran: bool)

  /** The commands of the script from the first that makes a file. */
  datatype Command =
    | MakeTmp | CopyCert | AppendKey | Protect | VerifyTmp | HashTmp
    | MakeBackup | CopyBackup | ProtectBackup | Arm | Swap | ForgetTmp | Recreate | Health | ReloadNginx | Commit
    | MakeState | FillState | SwapState | DropBackup

  datatype World = World(
    fate: Command -> Fate,
    early: bool,                          // everything before: lock, tools, inputs, the source pair
    tmp: Path, backup: Path, stateTmp: Path,
    cert: Bytes, key: Bytes,              // the full chain, and the key as openssl rewrites it
    pairOk: Bytes -> bool,                // verify_pair on one file
    sha: Bytes -> Bytes,                  // openssl dgst
    alreadyHealthy: bool,                 // frps already serves the PEM when the hashes match
    recreated: bool, healthy: bool,       // docker compose and the TLS health check
    reload: bool,                         // RELOAD_NGINX
    restored: bool, removed: bool)        // the rollback's mv, and its rm when there was no PEM

  predicate TakesEffect(f: Fate) { f.Done? || (f.Signal? && f.ran) }

  /** No command fails and no signal arrives. */
  ghost predicate Smooth(w: World) { forall c: Command :: w.fate(c).Done? }

  function Prefix(b: Bytes, n: nat): Bytes { if n < |b| then b[..n] else b }

  class Refresh {
    const disk: Disk
    const relay: Path
    const state: Path
    var tmpPem: Option<Path>
    var backupPem: Option<Path>
    var stateTmp: Option<Path>
    var hadPrevious: bool
    var installed: bool
    var committed: bool
    var rollingBack: bool

    constructor (disk: Disk, relay: Path, state: Path)
      ensures this.disk == disk && this.relay == relay && this.state == state
      ensures tmpPem.None? && backupPem.None? && stateTmp.None?
      ensures !hadPrevious && !installed && !committed && !rollingBack
    {
      this.disk, this.relay, this.state := disk, relay, state;
      tmpPem, backupPem, stateTmp := None, None, None;
      hadPrevious, installed, committed, rollingBack := false, false, false, false;
    }

    function Fresh(w: World): Bytes { w.cert + w.key }

    function Hash(w: World): Bytes { w.sha(Fresh(w)) }

    /** The recorded hash and the hash of the installed PEM are both that of the new one. */
    predicate UpToDate(files: Files, w: World) {
      state in files && files[state] == Hash(w) && relay in files && w.sha(files[relay]) == Hash(w)
    }

    /** The run has a reason to install: the inputs are usable and the installed PEM is stale or not served. */
    predicate Due(files: Files, w: World) {
      w.early && w.pairOk(Fresh(w)) && !(UpToDate(files, w) && w.alreadyHealthy)
    }

    /** Files that are none of the script's own are as they were. */
    ghost predicate Elsewhere(files: Files, start: Files, w: World) {
      forall p :: p !in {relay, state, w.tmp, w.backup, w.stateTmp} ==>
                    ((p in files <==> p in start) && (p in files && p in start ==> files[p] == start[p]))
    }

    predicate StateKept(files: Files, start: Files) {
      (state in files <==> state in start) && (state in files && state in start ==> files[state] == start[state])
    }

    /** The script's temporary files are in its variables. */
    predicate Tracks(w: World)
      reads this, disk
    {
      && (w.fate(MakeTmp).Done? && w.tmp in disk.files ==> tmpPem.Some?)
      && (w.fate(MakeState).Done? && w.stateTmp in disk.files ==> stateTmp.Some?)
      && (w.fate(MakeBackup).Done? && w.backup in disk.files ==> backupPem.Some?)
    }

    /** The names mktemp chooses differ from each other and from the installed files. */
    predicate Distinct(w: World) {
      && relay != state && w.tmp !in {relay, state, w.backup, w.stateTmp} && w.backup !in {relay, state, w.stateTmp}
      && w.stateTmp !in {relay, state}
    }

    /** The variables hold the chosen names or nothing. */
    predicate Vars(w: World)
      reads this
    {
      Distinct(w) && (tmpPem.Some? ==> tmpPem == Some(w.tmp)) && (backupPem.Some? ==> backupPem == Some(w.backup))
      && (stateTmp.Some? ==> stateTmp == Some(w.stateTmp))
    }

    /** What the installed path may show: what it showed at the start, the whole verified new PEM, or,
        when there was no PEM at the start, nothing. */
    predicate Shows(files: Files, start: Files, w: World) {
      if relay in files then
        (relay in start && files[relay] == start[relay]) || (files[relay] == Fresh(w) && w.pairOk(Fresh(w)))
      else relay !in start
    }

    ghost predicate Trailed(before: Trail, after: Trail, start: Files, w: World) {
      before <= after && forall i :: |before| <= i < |after| ==> Shows(after[i], start, w)
    }

    /** Nothing has touched the installed path. */
    ghost predicate Untouched(w: World, start: Files)
      reads this, disk
    {
      && Vars(w) && !installed && !committed && !rollingBack
      && (relay in disk.files <==> relay in start) && (relay in start ==> disk.files[relay] == start[relay])
      && Tracks(w) && StateKept(disk.files, start) && Elsewhere(disk.files, start, w)
    }

    /** The rollback can restore what was there. */
    ghost predicate Armed(w: World, start: Files)
      reads this, disk
    {
      && Vars(w) && installed && !committed && !rollingBack && Shows(disk.files, start, w)
      && (hadPrevious <==> relay in start)
      && (hadPrevious ==> backupPem.Some? && w.backup in disk.files && disk.files[w.backup] == start[relay])
      && (!hadPrevious ==> w.backup !in disk.files) && w.fate(MakeTmp).Done?
      && Tracks(w) && StateKept(disk.files, start) && Elsewhere(disk.files, start, w)
    }

    /** A command that writes one file; a failure may leave part of it. */
    method WriteFile(path: Path, content: Bytes, fate: Fate) returns (go: bool)
      modifies disk
      ensures go == fate.Done?
      ensures (disk.files == old(disk.files) && disk.trail == old(disk.trail) && !go)
           || (path in disk.files && disk.files == old(disk.files)[path := disk.files[path]]
               && disk.trail == old(disk.trail) + [disk.files])
      ensures go ==> disk.files == old(disk.files)[path := content]
    {
      if TakesEffect(fate) { disk.Write(path, content); }
      else if fate.Failed? { disk.Write(path, Prefix(content, fate.written)); }
      go := fate.Done?;
    }

    method CreateTmp(w: World, ghost start: Files) returns (go: bool)
      requires Untouched(w, start) && disk.files == start && w.tmp !in start
      modifies `tmpPem, disk
      ensures Untouched(w, start) && (Smooth(w) ==> go)
      ensures go ==> disk.files == start[w.tmp := []] && w.fate(MakeTmp).Done? && tmpPem.Some?
      ensures Trailed(old(disk.trail), disk.trail, start, w)
    {
      go := WriteFile(w.tmp, [], w.fate(MakeTmp));
      if go { tmpPem := Some(w.tmp); }
    }

    /** Writes the new PEM under a temporary name: the chain, then the key. */
    method BuildTmp(w: World, ghost start: Files) returns (go: bool)
      requires Untouched(w, start) && disk.files == start && w.tmp !in start
      modifies `tmpPem, disk
      ensures Untouched(w, start) && (Smooth(w) ==> go)
      ensures go ==> disk.files == start[w.tmp := Fresh(w)] && w.fate(MakeTmp).Done?
      ensures Trailed(old(disk.trail), disk.trail, start, w)
    {
      go := CreateTmp(w, start);
      if !go { return; }
      go := WriteFile(w.tmp, w.cert, w.fate(CopyCert));
      if !go { return; }
      go := WriteFile(w.tmp, w.cert + w.key, w.fate(AppendKey));
    }

    /** Builds and verifies the new PEM. status is the exit status when go is false. */
    method Prepare(w: World, ghost start: Files) returns (go: bool, status: int)
      requires Untouched(w, start) && disk.files == start && backupPem.None? && !hadPrevious
      requires w.tmp !in start && w.backup !in start && w.stateTmp !in start
      modifies `tmpPem, disk
      ensures Untouched(w, start)
      ensures go || status == 0 ==>
                disk.files == start[w.tmp := Fresh(w)] && w.fate(MakeTmp).Done? && w.pairOk(Fresh(w))
      ensures !go && status == 0 ==> UpToDate(start, w) && w.alreadyHealthy
      ensures status == 0 ==> !go
      ensures Smooth(w) && Due(start, w) ==> go
      ensures Smooth(w) && w.early && w.pairOk(Fresh(w)) && !go ==> status == 0
      ensures Trailed(old(disk.trail), disk.trail, start, w)
    {
      go, status := false, 1;
      if !w.early { return; }
      go := BuildTmp(w, start);
      if !go { return; }
      go := w.fate(Protect).Done? && w.fate(VerifyTmp).Done? && w.pairOk(disk.files[w.tmp]) && w.fate(HashTmp).Done?;
      if go && UpToDate(disk.files, w) && w.alreadyHealthy { go, status := false, 0; }
    }

    /** Copies the current PEM beside itself, if there is one. */
    method BackUp(w: World, ghost start: Files) returns (go: bool)
      requires Untouched(w, start) && w.backup !in start && !hadPrevious
      requires disk.files == start[w.tmp := Fresh(w)] && w.pairOk(Fresh(w)) && w.tmp !in {relay, state}
      modifies `hadPrevious, `backupPem, disk
      ensures Untouched(w, start)
      ensures go ==> w.tmp in disk.files && disk.files[w.tmp] == Fresh(w) && (hadPrevious <==> relay in start)
      ensures go && !hadPrevious ==> w.backup !in disk.files
      ensures go && hadPrevious ==> backupPem.Some? && w.backup in disk.files && disk.files[w.backup] == start[relay]
      ensures Smooth(w) ==> go
      ensures Trailed(old(disk.trail), disk.trail, start, w)
    {
      if relay !in disk.files { return true; }
      hadPrevious := true;
      go := WriteFile(w.backup, [], w.fate(MakeBackup));
      if !go { return; }
      backupPem := Some(w.backup);
      go := WriteFile(w.backup, disk.files[relay], w.fate(CopyBackup));
      go := go && w.fate(ProtectBackup).Done?;
    }

    /** Arms the rollback, then renames the new PEM over the old one. */
    method SwapIn(w: World, ghost start: Files) returns (go: bool)
      requires Untouched(w, start) && (hadPrevious <==> relay in start) && w.fate(MakeTmp).Done?
      requires !hadPrevious ==> w.backup !in disk.files
      requires w.tmp in disk.files && disk.files[w.tmp] == Fresh(w) && w.pairOk(Fresh(w))
      requires hadPrevious ==> backupPem.Some? && w.backup in disk.files && disk.files[w.backup] == start[relay]
      modifies `installed, `tmpPem, disk
      ensures Untouched(w, start) || Armed(w, start)
      ensures go ==> Armed(w, start) && relay in disk.files && disk.files[relay] == Fresh(w)
      ensures Smooth(w) ==> go
      ensures Trailed(old(disk.trail), disk.trail, start, w)
    {
      if !TakesEffect(w.fate(Arm)) { return false; }
      installed := true;
      if !w.fate(Arm).Done? { return false; }
      disk.Rename(w.tmp, relay, TakesEffect(w.fate(Swap)));
      if !w.fate(Swap).Done? || !w.fate(ForgetTmp).Done? { return false; }
      tmpPem := None;
      return true;
    }

    /** The state a rollback leaves, successful or not. */
    ghost predicate RolledBack(w: World, start: Files)
      reads this, disk
    {
      && Vars(w) && !committed && rollingBack && (hadPrevious <==> relay in start) && Shows(disk.files, start, w)
      && (hadPrevious && w.restored ==> relay in disk.files && disk.files[relay] == start[relay])
      && (hadPrevious && !w.restored ==> w.backup in disk.files && disk.files[w.backup] == start[relay])
      && (!hadPrevious && w.removed ==> relay !in disk.files)
      && Tracks(w) && StateKept(disk.files, start) && Elsewhere(disk.files, start, w)
    }

    /** Restores what was there before the swap; false is a restore that failed, with the backup kept.
        Unarmed, committed, or already begun, it does nothing. */
    method Rollback(w: World, ghost start: Files) returns (ok: bool)
      requires Armed(w, start) || !installed || committed || rollingBack
      modifies `rollingBack, `backupPem, `installed, disk
      ensures if old(Armed(w, start)) then RolledBack(w, start) && (hadPrevious ==> ok == w.restored)
              else ok && disk.files == old(disk.files) && disk.trail == old(disk.trail)
                   && installed == old(installed) && rollingBack == old(rollingBack) && backupPem == old(backupPem)
      ensures Trailed(old(disk.trail), disk.trail, start, w)
    {
      if !installed || committed || rollingBack { return true; }
      rollingBack := true;
      if hadPrevious {
        disk.Rename(backupPem.value, relay, w.restored);
        if !w.restored { return false; }
        backupPem := None;
      } else {
        disk.Remove(relay, w.removed);
      }
      installed := false;
      return true;
    }

    /** The commit's meaning: the verified new PEM is installed and frps was seen serving it. */
    ghost predicate Committed(w: World, start: Files)
      reads this, disk
    {
      && Vars(w) && committed && relay in disk.files && disk.files[relay] == Fresh(w) && w.pairOk(Fresh(w))
      && w.recreated && w.healthy && (w.reload ==> w.fate(ReloadNginx).Done?)
      && w.fate(MakeTmp).Done? && Tracks(w) && (w.backup in disk.files ==> backupPem.Some?)
      && Elsewhere(disk.files, start, w)
      && (StateKept(disk.files, start) || (state in disk.files && disk.files[state] == Hash(w)))
    }

    /** Health check, its explicit rollback, the nginx reload and the commit. */
    method Activate(w: World, ghost start: Files) returns (go: bool)
      requires Armed(w, start) && relay in disk.files && disk.files[relay] == Fresh(w) && w.pairOk(Fresh(w))
      modifies `rollingBack, `backupPem, `installed, `committed, disk
      ensures Armed(w, start) || RolledBack(w, start) || Committed(w, start)
      ensures go ==> Committed(w, start)
      ensures Smooth(w) && w.recreated && w.healthy ==> go
      ensures !committed && !rollingBack ==> w.fate(Recreate).Signal? || w.fate(Health).Signal?
                                             || (w.reload && !w.fate(ReloadNginx).Done?) || !TakesEffect(w.fate(Commit))
      ensures Trailed(old(disk.trail), disk.trail, start, w)
    {
      if w.fate(Recreate).Signal? || w.fate(Health).Signal? { return false; }
      if !(w.recreated && w.healthy) {
        var _ := Rollback(w, start);
        return false;
      }
      if w.reload && !w.fate(ReloadNginx).Done? { return false; }
      committed := TakesEffect(w.fate(Commit));
      go := w.fate(Commit).Done?;
    }

    /** Every state of the files since then shows the new PEM. */
    ghost predicate Steady(before: Trail, after: Trail, w: World) {
      before <= after && forall i :: |before| <= i < |after| ==> relay in after[i] && after[i][relay] == Fresh(w)
    }

    lemma SteadyFurther(a: Trail, b: Trail, c: Trail, start: Files, w: World)
      requires Steady(a, b, w) && Steady(b, c, w)
      ensures Steady(a, c, w) && (w.pairOk(Fresh(w)) ==> Trailed(a, c, start, w))
    {
    }

    /** After the commit: the new hash is recorded and the backup goes; the new PEM stays throughout. */
    method Record(w: World, ghost start: Files) returns (go: bool)
      requires Committed(w, start)
      modifies `backupPem, `stateTmp, disk
      ensures Committed(w, start) && (Smooth(w) ==> go)
      ensures go ==> w.fate(MakeState).Done? && state in disk.files && disk.files[state] == Hash(w)
      ensures Trailed(old(disk.trail), disk.trail, start, w) && Steady(old(disk.trail), disk.trail, w)
    {
      ghost var t0 := disk.trail;
      go := WriteState(w, start);
      if !go { return; }
      ghost var t1 := disk.trail;
      go := StoreState(w, start);
      SteadyFurther(t0, t1, disk.trail, start, w);
      if !go || backupPem.None? { return; }
      ghost var t2 := disk.trail;
      disk.Remove(w.backup, TakesEffect(w.fate(DropBackup)));
      SteadyFurther(t0, t2, disk.trail, start, w);
      go := w.fate(DropBackup).Done?;
      if go { backupPem := None; }
    }

    method WriteState(w: World, ghost start: Files) returns (go: bool)
      requires Committed(w, start)
      modifies `stateTmp, disk
      ensures Committed(w, start) && (Smooth(w) ==> go)
      ensures go ==> w.fate(MakeState).Done? && stateTmp.Some?
                     && w.stateTmp in disk.files && disk.files[w.stateTmp] == Hash(w)
      ensures Trailed(old(disk.trail), disk.trail, start, w) && Steady(old(disk.trail), disk.trail, w)
    {
      go := WriteFile(w.stateTmp, [], w.fate(MakeState));
      if !go { return; }
      stateTmp := Some(w.stateTmp);
      go := WriteFile(w.stateTmp, Hash(w), w.fate(FillState));
    }

    method StoreState(w: World, ghost start: Files) returns (go: bool)
      requires Committed(w, start) && stateTmp.Some?
      requires w.stateTmp in disk.files && disk.files[w.stateTmp] == Hash(w)
      modifies `stateTmp, disk
      ensures Committed(w, start) && (Smooth(w) ==> go)
      ensures go ==> state in disk.files && disk.files[state] == Hash(w)
      ensures Trailed(old(disk.trail), disk.trail, start, w) && Steady(old(disk.trail), disk.trail, w)
    {
      disk.Rename(w.stateTmp, state, TakesEffect(w.fate(SwapState)));
      go := w.fate(SwapState).Done?;
      if go { stateTmp := None; }
    }

    /** Where the script can stand when the exit trap starts. */
    ghost predicate Exiting(w: World, start: Files)
      reads this, disk
    {
      Untouched(w, start) || Armed(w, start) || RolledBack(w, start) || Committed(w, start)
    }

    /** Removes a file, if it is there to remove, without touching the installed path. */
    method Discard(has: bool, name: Path, w: World, ghost start: Files)
      requires name != relay && Shows(disk.files, start, w)
      modifies disk
      ensures disk.files == old(disk.files) - if has then {name} else {}
      ensures Shows(disk.files, start, w) && Trailed(old(disk.trail), disk.trail, start, w)
    {
      if has { disk.Remove(name, true); }
    }

    /** What the trap has left when it ends the script. */
    ghost predicate Ended(w: World, start: Files)
      reads this, disk
    {
      && Elsewhere(disk.files, start, w) && (committed ==> Committed(w, start) && w.backup !in disk.files)
      && (!committed ==> StateKept(disk.files, start))
      && (w.fate(MakeTmp).Done? ==> w.tmp !in disk.files)
      && (w.fate(MakeState).Done? ==> w.stateTmp !in disk.files)
      && (!committed && relay in start && w.restored ==> relay in disk.files && disk.files[relay] == start[relay])
      && (!committed && relay in start ==>
            (relay in disk.files && disk.files[relay] == start[relay])
            || (w.backup in disk.files && disk.files[w.backup] == start[relay]))
      && (!committed && relay !in start && w.removed ==> relay !in disk.files)
    }

    function Garbage(w: World): set<Path>
      reads this
    {
      (if tmpPem.Some? then {w.tmp} else {}) + (if stateTmp.Some? then {w.stateTmp} else {})
      + (if committed && backupPem.Some? then {w.backup} else {})
    }

    /** Taking away the script's own files leaves all others. */
    lemma GarbageOnly(w: World, start: Files, before: Files, gone: set<Path>)
      requires Distinct(w) && gone <= {w.tmp, w.stateTmp, w.backup}
      ensures var after := before - gone;
              && (Elsewhere(before, start, w) ==> Elsewhere(after, start, w))
              && (StateKept(before, start) ==> StateKept(after, start))
              && (relay in after <==> relay in before) && (relay in before ==> after[relay] == before[relay])
              && (state in after <==> state in before) && (state in before ==> after[state] == before[state])
    {
    }

    /** The exit trap's clean-up takes away only the temporary files and, after a commit, the backup. */
    method Cleanup(w: World, ghost start: Files)
      requires Vars(w) && Shows(disk.files, start, w)
      modifies `backupPem, disk
      ensures disk.files == old(disk.files) - old(Garbage(w))
      ensures backupPem == if committed then None else old(backupPem)
      ensures Trailed(old(disk.trail), disk.trail, start, w)
    {
      ghost var t0 := disk.trail;
      Discard(tmpPem.Some?, w.tmp, w, start);
      ghost var t1 := disk.trail;
      Discard(stateTmp.Some?, w.stateTmp, w, start);
      TrailedFurther(t0, t1, disk.trail, start, w);
      ghost var t2 := disk.trail;
      Discard(committed && backupPem.Some?, w.backup, w, start);
      TrailedFurther(t0, t2, disk.trail, start, w);
      if committed { backupPem := None; }
    }

    lemma TrailedFurther(a: Trail, b: Trail, c: Trail, start: Files, w: World)
      requires Trailed(a, b, start, w) && Trailed(b, c, start, w)
      ensures Trailed(a, c, start, w)
    {
    }

    /** The script up to its exit, normal or not. */
    method Body(w: World) returns (status: int)
      requires Untouched(w, disk.files) && tmpPem.None? && backupPem.None? && stateTmp.None? && !hadPrevious
      requires w.tmp !in disk.files && w.backup !in disk.files && w.stateTmp !in disk.files
      modifies this, disk
      ensures Exiting(w, old(disk.files))
      ensures Trailed(old(disk.trail), disk.trail, old(disk.files), w)
      ensures status == 0 && !committed ==>
        UpToDate(old(disk.files), w) && w.alreadyHealthy && Untouched(w, old(disk.files))
        && disk.files == old(disk.files)[w.tmp := Fresh(w)] && w.fate(MakeTmp).Done?
      ensures status == 0 && committed ==>
        w.fate(MakeState).Done? && state in disk.files && disk.files[state] == Hash(w)
      ensures Smooth(w) && Due(old(disk.files), w) && w.recreated && w.healthy ==> status == 0 && committed
    {
      ghost var start, t0 := disk.files, disk.trail;
      var go;
      go, status := Prepare(w, start);
      if !go { return; }
      status := 1;
      ghost var t1 := disk.trail;
      go := BackUp(w, start);
      TrailedFurther(t0, t1, disk.trail, start, w);
      if !go { return; }
      ghost var t2 := disk.trail;
      go := SwapIn(w, start);
      TrailedFurther(t0, t2, disk.trail, start, w);
      if !go { return; }
      ghost var t3 := disk.trail;
      go := Activate(w, start);
      TrailedFurther(t0, t3, disk.trail, start, w);
      if !go { return; }
      ghost var t4 := disk.trail;
      go := Record(w, start);
      TrailedFurther(t0, t4, disk.trail, start, w);
      if go { status := 0; }
    }

    /** The clean-up of a script that has nothing left to roll back. */
    method Finish(w: World, ghost start: Files)
      requires Exiting(w, start) && !Armed(w, start)
      modifies `backupPem, disk
      ensures Ended(w, start) && disk.files == old(disk.files) - old(Garbage(w))
      ensures Trailed(old(disk.trail), disk.trail, start, w)
    {
      GarbageOnly(w, start, disk.files, Garbage(w));
      Cleanup(w, start);
    }

    /** The exit trap: the rollback, if it is due, and the clean-up. */
    method OnExit(w: World, ghost start: Files, status: int) returns (final: int)
      requires Exiting(w, start)
      modifies this, disk
      ensures Ended(w, start) && committed == old(committed) && (final == status || final == 1)
      ensures Trailed(old(disk.trail), disk.trail, start, w)
      ensures old(Untouched(w, start) || committed) ==>
                final == status && disk.files == old(disk.files) - old(Garbage(w))
    {
      final := status;
      ghost var t0 := disk.trail;
      var ok := Rollback(w, start);
      ghost var t1 := disk.trail;
      if !ok { final := 1; }
      Finish(w, start);
      TrailedFurther(t0, t1, disk.trail, start, w);
    }

    lemma SameFiles(files: Files, other: Files, w: World)
      requires Elsewhere(files, other, w)
      requires forall p :: p in {relay, state, w.tmp, w.backup, w.stateTmp} ==>
                 (p in files <==> p in other) && (p in files && p in other ==> files[p] == other[p])
      ensures files == other
    {
      assert forall p :: p in files <==> p in other;
    }

    /** A whole run. The installed path never shows anything but the old PEM, the verified new one, or
        nothing when there was none; the new PEM stays exactly when frps was seen serving it; otherwise
        the old PEM is back byte for byte, or, when putting it back failed, whole in the backup. Success
        leaves the new PEM and its recorded hash and nothing else behind, so that the next run finds
        itself up to date, or, when it found itself up to date, nothing at all. */
    method Run(w: World) returns (status: int)
      requires Untouched(w, disk.files) && tmpPem.None? && backupPem.None? && stateTmp.None? && !hadPrevious
      requires w.tmp !in disk.files && w.backup !in disk.files && w.stateTmp !in disk.files
      modifies this, disk
      ensures Trailed(old(disk.trail), disk.trail, old(disk.files), w)
      ensures Ended(w, old(disk.files))
      ensures status == 0 && committed ==>
        disk.files == old(disk.files)[relay := Fresh(w)][state := Hash(w)] && UpToDate(disk.files, w)
      ensures status == 0 && !committed ==>
        disk.files == old(disk.files) && UpToDate(disk.files, w) && w.alreadyHealthy
      ensures Smooth(w) && Due(old(disk.files), w) && w.recreated && w.healthy ==> status == 0 && committed
    {
      ghost var start, t0 := disk.files, disk.trail;
      status := Body(w);
      ghost var t1 := disk.trail;
      status := OnExit(w, start, status);
      TrailedFurther(t0, t1, disk.trail, start, w);
      if status == 0 && committed {
        SameFiles(disk.files, start[relay := Fresh(w)][state := Hash(w)], w);
      }
    }
  }
}
