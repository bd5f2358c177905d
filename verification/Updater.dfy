/** The self-updater's install transaction: download, checks, backup, swap, check again, rollback. */
module Updater {
  import opened Basics
  import opened FileSystem

  const MAX_BINARY_SIZE := 256 * 1024 * 1024

  /** How every operation that may fail turns out. */
  datatype World = World(
    refused: bool,                    // a check before the temporary file is made
    tmp: Option<Path>,                // where the temporary file is created, None when it cannot be
    chunks: seq<Bytes>, broken: bool, // what the download writes, and whether it then fails
    sealed: bool,                     // chmod, sync and close of the download
    backup: Option<Path>,             // where the backup is created
    copied: Option<nat>,              // bytes of the old executable read before an error, None for all
    backupSealed: bool,
    swapped: bool, restored: bool,    // the two renames
    removed: bool, removedLate: bool, tmpRemoved: bool)

  datatype Outcome =
    | Installed
    | NotInstalled        // the old executable was never replaced
    | RolledBack          // replaced, failed its check, and put back
    | RollbackFailed      // replaced, failed its check, could not be put back
    | BackupRemains       // replaced and checked; removing the backup failed

  function Concat(chunks: seq<Bytes>): Bytes {
    if chunks == [] then [] else Concat(chunks[..|chunks| - 1]) + chunks[|chunks| - 1]
  }

  /** Chunks are put together in the order in which they come. */
  lemma {:induction false} ConcatInOrder(a: seq<Bytes>, b: seq<Bytes>)
    ensures Concat(a + b) == Concat(a) + Concat(b)
    ensures |a| == 1 ==> Concat(a) == a[0]
  {
    if b == [] {
      assert a + b == a && Concat(b) == [];
    } else {
      var last := |b| - 1;
      ConcatInOrder(a, b[..last]);
      assert (a + b)[..|a + b| - 1] == a + b[..last];
    }
  }

  /** Nothing in the surroundings fails before the backup is removed. */
  predicate Smooth(w: World) {
    && !w.refused && w.tmp.Some? && !w.broken && w.sealed && w.backup.Some? && w.copied.None?
    && w.backupSealed && w.swapped && w.removed
  }

  class Installer {
    const disk: Disk
    const path: Path
    const sha: Bytes -> string
    const expected: string
    /** The outcome of running a program's version command: before the swap (0) and after it (1). */
    const runs: (int, Bytes) -> bool

    constructor (disk: Disk, path: Path, sha: Bytes -> string, expected: string, runs: (int, Bytes) -> bool)
      ensures this.disk == disk && this.path == path
      ensures this.sha == sha && this.expected == expected && this.runs == runs
    {
      this.disk, this.path, this.sha, this.expected, this.runs := disk, path, sha, expected, runs;
    }

    /** What the executable may be at any moment: the whole old program, or the whole new one with the
        expected digest and its preflight check behind it. */
    predicate Sound(content: Bytes, previous: Bytes, download: Bytes) {
      content == previous || (content == download && sha(download) == expected && runs(0, download))
    }

    /** The trail was extended by states in which the path holds a sound program. */
    ghost predicate Extends(before: Trail, after: Trail, previous: Bytes, download: Bytes) {
      && before <= after
      && forall i :: |before| <= i < |after| ==> path in after[i] && Sound(after[i][path], previous, download)
    }

    lemma ExtendsFurther(a: Trail, b: Trail, c: Trail, previous: Bytes, download: Bytes)
      requires Extends(a, b, previous, download) && Extends(b, c, previous, download)
      ensures Extends(a, c, previous, download)
    {
    }

    /** Writes the download chunk by chunk, hashing what it writes. */
    method Download(tmp: Path, w: World, ghost previous: Bytes) returns (hashed: Bytes)
      requires tmp in disk.files && disk.files[tmp] == [] && tmp != path
      requires path in disk.files && disk.files[path] == previous
      modifies disk
      ensures disk.files == old(disk.files)[tmp := Concat(w.chunks)] && hashed == Concat(w.chunks)
      ensures Extends(old(disk.trail), disk.trail, previous, Concat(w.chunks))
    {
      hashed := [];
      for n := 0 to |w.chunks|
        invariant disk.files == old(disk.files)[tmp := Concat(w.chunks[..n])] && hashed == Concat(w.chunks[..n])
        invariant Extends(old(disk.trail), disk.trail, previous, Concat(w.chunks))
      {
        assert w.chunks[..n + 1][..n] == w.chunks[..n];
        hashed := hashed + w.chunks[n];
        disk.Write(tmp, disk.files[tmp] + w.chunks[n]);
      }
      assert w.chunks[..|w.chunks|] == w.chunks;
    }

    /** Copies the executable beside itself; a name is returned only for a whole copy. */
    method BackupExecutable(w: World, ghost download: Bytes) returns (name: Option<Path>)
      requires path in disk.files && (w.backup.Some? ==> w.backup.value !in disk.files)
      modifies disk
      ensures name.Some? ==> name == w.backup && disk.files == old(disk.files)[w.backup.value := old(disk.files)[path]]
      ensures name.None? ==> w.backup.Some? ==> disk.files - {w.backup.value} == old(disk.files)
      ensures name.None? && (w.backup.None? || w.tmpRemoved) ==> disk.files == old(disk.files)
      ensures w.backup.Some? && w.copied.None? && w.backupSealed && |old(disk.files)[path]| <= 0x1000_0000 ==>
                name.Some?
      ensures Extends(old(disk.trail), disk.trail, old(disk.files)[path], download)
    {
      if w.backup.None? { return None; }
      var backup := w.backup.value;
      disk.Write(backup, []);
      var source := disk.files[path];
      var limit := MAX_BINARY_SIZE + 1;
      var read := if |source| > limit then source[..limit] else source;
      if w.copied.Some? && w.copied.value < |read| {
        disk.Write(backup, read[..w.copied.value]);
        disk.Remove(backup, w.tmpRemoved);
        return None;
      }
      disk.Write(backup, read);
      if |read| > MAX_BINARY_SIZE || !w.backupSealed {
        disk.Remove(backup, w.tmpRemoved);
        return None;
      }
      return Some(backup);
    }

    /** All the files after each outcome, and what is still to remove. */
    predicate Replaced(
      r: Outcome, before: Files, after: Files, tmp: Path, backup: Option<Path>, leftover: Option<Path>)
      requires path in before && tmp in before
    {
      var swapped := before[path := before[tmp]] - {tmp};
      match r
      case Installed => after == swapped && leftover.None?
      case RolledBack => after == before - {tmp} && leftover.None?
      case RollbackFailed => backup.Some? && after == swapped[backup.value := before[path]] && leftover.None?
      case BackupRemains => backup.Some? && after == swapped[backup.value := before[path]] && leftover == backup
      case NotInstalled =>
        leftover.Some? ==> leftover == backup && after == before[leftover.value := before[path]]
    }

    /** From the sealed download on: preflight, backup, swap, check, and rollback if the check fails.
        keep: the download is no longer under its temporary name. leftover: a backup still to remove. */
    method Replace(tmp: Path, w: World) returns (r: Outcome, keep: bool, leftover: Option<Path>)
      requires path in disk.files && tmp in disk.files && tmp != path
      requires w.backup.Some? ==> w.backup.value !in disk.files
      requires sha(disk.files[tmp]) == expected
      modifies disk
      ensures Extends(old(disk.trail), disk.trail, old(disk.files)[path], old(disk.files)[tmp])
      ensures path in disk.files && (leftover.Some? ==> leftover.value != path) && (!keep ==> tmp in disk.files)
      ensures disk.files[path] == if r.NotInstalled? || r.RolledBack? then old(disk.files)[path]
                                  else old(disk.files)[tmp]
      ensures !r.NotInstalled? ==> runs(0, old(disk.files)[tmp])
      ensures r.Installed? || r.BackupRemains? ==> runs(1, old(disk.files)[tmp])
      ensures r.RolledBack? || r.RollbackFailed? ==> !runs(1, old(disk.files)[tmp])
      ensures r.RollbackFailed? ==> leftover.None? && w.backup.Some? && w.backup.value in disk.files
                                    && disk.files[w.backup.value] == old(disk.files)[path]
      ensures r.RolledBack? ==> w.backup.Some? && w.backup.value !in disk.files
      ensures Replaced(r, old(disk.files), disk.files, tmp, w.backup, leftover) && (keep <==> !r.NotInstalled?)
      ensures r.NotInstalled? && leftover.None? && w.tmpRemoved ==> disk.files == old(disk.files)
      ensures (Smooth(w) && |old(disk.files)[path]| <= 0x1000_0000
               && runs(0, old(disk.files)[tmp]) && runs(1, old(disk.files)[tmp])) ==> r.Installed?
    {
      keep, leftover := false, None;
      ghost var previous, download := disk.files[path], disk.files[tmp];
      if !runs(0, disk.files[tmp]) { return NotInstalled, keep, leftover; }
      var backup := BackupExecutable(w, download);
      if backup.None? { return NotInstalled, keep, leftover; }
      leftover := backup;
      disk.Rename(tmp, path, w.swapped);
      if !w.swapped { return NotInstalled, keep, leftover; }
      keep := true;
      if !runs(1, disk.files[path]) {
        disk.Rename(backup.value, path, w.restored);
        leftover := None;
        return if w.restored then RolledBack else RollbackFailed, keep, leftover;
      }
      disk.Remove(backup.value, w.removed);
      if !w.removed { return BackupRemains, keep, leftover; }
      leftover := None;
      return Installed, keep, leftover;
    }

    /** The whole of install after its lock. At every moment the path holds a sound program; success means
        the new program with its digest and both checks behind it; an error means the old program, except
        in the two declared cases, and when the rollback failed the old program is still in the backup. */
    method Install(w: World) returns (r: Outcome)
      requires path in disk.files
      requires w.tmp.Some? ==> w.tmp.value !in disk.files
      requires w.backup.Some? ==> w.backup.value !in disk.files && w.backup != w.tmp
      modifies disk
      ensures Extends(old(disk.trail), disk.trail, old(disk.files)[path], Concat(w.chunks))
      ensures path in disk.files
      ensures r.Installed? ==> disk.files == old(disk.files)[path := Concat(w.chunks)]
      ensures r.RolledBack? ==> disk.files == old(disk.files)
      ensures r.NotInstalled? && w.tmpRemoved && w.removedLate ==> disk.files == old(disk.files)
      ensures r.RollbackFailed? ==>
        && w.backup.Some?
        && disk.files == old(disk.files)[path := Concat(w.chunks)][w.backup.value := old(disk.files)[path]]
      ensures r.BackupRemains? && w.removedLate ==> disk.files == old(disk.files)[path := Concat(w.chunks)]
      ensures r.NotInstalled? || r.RolledBack? ==> disk.files[path] == old(disk.files)[path]
      ensures r.Installed? || r.BackupRemains? || r.RollbackFailed? ==>
        disk.files[path] == Concat(w.chunks) && sha(Concat(w.chunks)) == expected && runs(0, Concat(w.chunks))
      ensures r.Installed? || r.BackupRemains? ==> runs(1, Concat(w.chunks))
      ensures r.RollbackFailed? ==> w.backup.Some? && w.backup.value in disk.files
      ensures r.RollbackFailed? ==> disk.files[w.backup.value] == old(disk.files)[path]
      ensures (Smooth(w) && |old(disk.files)[path]| <= 0x1000_0000 && sha(Concat(w.chunks)) == expected
               && runs(0, Concat(w.chunks)) && runs(1, Concat(w.chunks))) ==> r.Installed?
    {
      if w.refused || w.tmp.None? { return NotInstalled; }
      ghost var previous, download, start := disk.files[path], Concat(w.chunks), disk.trail;
      var fetched := Fetch(w);
      if !fetched { return NotInstalled; }
      ghost var written := disk.trail;
      var keep, leftover;
      r, keep, leftover := Replace(w.tmp.value, w);
      ExtendsFurther(start, written, disk.trail, previous, download);
      if leftover.Some? { disk.Remove(leftover.value, w.removedLate); }
      if !keep { disk.Remove(w.tmp.value, w.tmpRemoved); }
    }

    /** Downloads into the temporary file; true leaves it whole, with the expected digest. */
    method Fetch(w: World) returns (ok: bool)
      requires path in disk.files && w.tmp.Some? && w.tmp.value !in disk.files
      modifies disk
      ensures ok ==> disk.files == old(disk.files)[w.tmp.value := Concat(w.chunks)] && sha(Concat(w.chunks)) == expected
      ensures !ok ==> path in disk.files && disk.files[path] == old(disk.files)[path]
      ensures ok <==> !w.broken && w.sealed && sha(Concat(w.chunks)) == expected
      ensures !ok && w.tmpRemoved ==> disk.files == old(disk.files)
      ensures Extends(old(disk.trail), disk.trail, old(disk.files)[path], Concat(w.chunks))
    {
      var tmp := w.tmp.value;
      ghost var previous, download, start := disk.files[path], Concat(w.chunks), disk.trail;
      disk.Write(tmp, []);
      ghost var begun := disk.trail;
      var hashed := Download(tmp, w, disk.files[path]);
      ExtendsFurther(start, begun, disk.trail, previous, download);
      ok := !w.broken && sha(hashed) == expected && w.sealed;
      if !ok { disk.Remove(tmp, w.tmpRemoved); }
    }
  }
}
