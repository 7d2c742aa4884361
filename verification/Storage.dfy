/** The files a store keeps, and the calls that change them. */
module Storage {
  import opened Bytes

  type Path = string
  type Files = map<Path, Bytes>

  /** `h` is `before` grown by some part of `bytes`. */
  ghost predicate Grown(h: Bytes, before: Bytes, bytes: Bytes)
  {
    exists n :: 0 <= n <= |bytes| && h == before + bytes[..n]
  }

  class Disk {
    var files: Files
    ghost const watched: Path      // the file whose fate in a crash is at stake
    ghost var history: seq<Bytes>  // what it holds after every call: what a crash there leaves
    ghost var failures: nat        // how many calls have failed

    ghost function Seen(): Bytes
      reads this
    {
      if watched in files then files[watched] else []
    }

    /** `open(O_CREAT | O_TRUNC)`. */
    method Create(path: Path)
      modifies this
      ensures files == old(files)[path := []] && failures == old(failures)
      ensures history == old(history) + [Seen()]
    {
      files := files[path := []];
      history := history + [Seen()];
    }

    /** `write`: takes some of the bytes, or fails. */
    method Write(path: Path, bytes: Bytes) returns (n: nat, ok: bool)
      requires path in files && bytes != []
      modifies this
      ensures n <= |bytes| && if ok then n > 0 else n == 0
      ensures failures == old(failures) + if ok then 0 else 1
      ensures files == old(files)[path := old(files)[path] + bytes[..n]]
      ensures history == old(history) + [Seen()]
    {
      n :| 0 <= n <= |bytes|;
      ok := n > 0;
      files := files[path := files[path] + bytes[..n]];
      history, failures := history + [Seen()], failures + if ok then 0 else 1;
    }

    /** `fsync`, or an `open` about to be made: changes nothing here, or fails. */
    method Attempt() returns (ok: bool)
      modifies this`failures
      ensures failures == old(failures) + if ok then 0 else 1
    {
      ok := *;
      failures := failures + if ok then 0 else 1;
    }

    /** `ftruncate`. */
    method Truncate(path: Path, n: nat)
      requires path in files && n <= |files[path]|
      modifies this
      ensures files == old(files)[path := old(files)[path][..n]] && failures == old(failures)
      ensures history == old(history) + [Seen()]
    {
      files := files[path := files[path][..n]];
      history := history + [Seen()];
    }

    /** `rename`: atomic, or fails. */
    method Rename(source: Path, target: Path) returns (ok: bool)
      requires source in files
      modifies this
      ensures files == if ok then old(files)[target := old(files)[source]] - {source} else old(files)
      ensures failures == old(failures) + if ok then 0 else 1
      ensures history == old(history) + [Seen()]
    {
      ok := *;
      if ok {
        files := files[target := files[source]] - {source};
      }
      history, failures := history + [Seen()], failures + if ok then 0 else 1;
    }

    method Unlink(path: Path)
      modifies this
      ensures files == old(files) - {path} && failures == old(failures)
      ensures history == old(history) + [Seen()]
    {
      files := files - {path};
      history := history + [Seen()];
    }
  }

  /** The write loop: at every moment the file holds a prefix of what is to be written; it fails only if a call did. */
  method WriteAll(disk: Disk, path: Path, bytes: Bytes) returns (ok: bool)
    requires path in disk.files
    modifies disk
    ensures disk.files.Keys == old(disk.files).Keys
    ensures Grown(disk.files[path], old(disk.files)[path], bytes)
    ensures ok ==> disk.files[path] == old(disk.files)[path] + bytes
    ensures old(disk.failures) <= disk.failures && (ok <==> disk.failures == old(disk.failures))
    ensures disk.files == old(disk.files)[path := disk.files[path]]
    ensures old(disk.history) <= disk.history
    ensures forall i | |old(disk.history)| <= i < |disk.history| ::
              if path == disk.watched then Grown(disk.history[i], old(disk.files)[path], bytes)
              else disk.history[i] == old(disk.Seen())
  {
    ghost var before := disk.files;
    ghost var seen := disk.Seen();
    var written := 0;
    assert before[path] + bytes[..0] == before[path];
    while written < |bytes|
      invariant 0 <= written <= |bytes|
      invariant disk.files.Keys == before.Keys
      invariant disk.files[path] == before[path] + bytes[..written]
      invariant disk.files == before[path := disk.files[path]]
      invariant old(disk.history) <= disk.history && disk.failures == old(disk.failures)
      invariant forall i | |old(disk.history)| <= i < |disk.history| ::
                  if path == disk.watched then Grown(disk.history[i], before[path], bytes) else disk.history[i] == seen
    {
      var n, wrote := disk.Write(path, bytes[written..]);
      assert before[path] + bytes[..written] + bytes[written..][..n] == before[path] + bytes[..written + n];
      written := written + n;
      if !wrote {
        return false;
      }
    }
    assert bytes[..written] == bytes;
    ok := true;
  }
}
