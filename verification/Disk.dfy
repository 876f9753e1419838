/** Writing images to disk (engine/persist.go), on a file system where every operation may
    fail, a write may stop part-way, and the process may stop between any two changes.  What a
    crash of the whole machine leaves, with nothing flushed, is not the subject. */
module Disk {
  import opened Bytes
  import opened PgTypes

  type Path = string
  type Files = map<Path, Data>

  /** A file system that remembers every state it has been in; the last one is now. */
  class FileSystem {
    var files: Files
    ghost var past: seq<Files>

    ghost predicate Valid()
      reads this
    {
      past != [] && past[|past| - 1] == files
    }

    constructor (files: Files)
      ensures Valid() && this.files == files
    {
      this.files := files;
      past := [files];
    }

    /** One atomic change. */
    method Become(next: Files)
      modifies this
      ensures Valid() && files == next && past == old(past) + [next]
    {
      files := next;
      past := past + [next];
    }

    /** os.Remove. */
    method Remove(path: Path, works: bool)
      requires Valid()
      modifies this
      ensures Valid() && old(past) <= past && |past| <= |old(past)| + 1
      ensures files == if works && path in old(files) then old(files) - {path} else old(files)
    {
      if works && path in files {
        Become(files - {path});
      }
    }

    /** os.Rename: atomic, replacing what is at `to`. */
    method Rename(from: Path, to: Path, works: bool) returns (ok: bool)
      requires Valid()
      modifies this
      ensures Valid() && old(past) <= past && |past| <= |old(past)| + 1
      ensures ok == (works && from in old(files))
      ensures files == if ok then (old(files) - {from})[to := old(files)[from]] else old(files)
    {
      ok := works && from in files;
      if ok {
        Become((files - {from})[to := files[from]]);
      }
    }

    /** Writing to a file that has been created: the disk takes `room` more bytes. */
    method Append(path: Path, data: Data, room: nat) returns (ok: bool)
      requires Valid() && path in files
      modifies this
      ensures Valid() && old(past) <= past && ok == (|data| <= room)
      ensures path in files && files - {path} == old(files) - {path}
      ensures files[path] == old(files)[path] + data[..if ok then |data| else room]
      ensures forall i :: |old(past)| <= i < |past| ==> Differs(past[i], old(files), path)
    {
      var n := if |data| <= room then |data| else room;
      ghost var start := files[path];
      assert start + data[..0] == start;
      for i := 0 to n
        invariant Valid() && old(past) <= past && path in files && files == old(files)[path := start + data[..i]]
        invariant forall i :: |old(past)| <= i < |past| ==> Differs(past[i], old(files), path)
      {
        Become(files[path := files[path] + [data[i]]]);
        assert start + data[..i] + [data[i]] == start + data[..i + 1];
      }
      return |data| <= room;
    }
  }

  /** `s` is `before` but for what is at `path`. */
  ghost predicate Differs(s: Files, before: Files, path: Path) {
    s - {path} == before - {path}
  }

  /** `s` is `before` but for what is at the two paths. */
  ghost predicate DiffersAt(s: Files, before: Files, a: Path, b: Path) {
    s - {a, b} == before - {a, b}
  }

  // ---- overwriteSelf -------------------------------------------------------

  const OLD_SUFFIX := ".execdb_old"

  /** Which of the steps get through, and how many bytes can be written. */
  datatype Faults = Faults(clear: bool, moveAside: bool, create: bool, room: nat, restore: bool, cleanUp: bool)

  /** A complete image is there: the old or the new one under its own name, or the old one
      in the sidecar. */
  ghost predicate Survives(s: Files, self: Path, was: Data, image: Data) {
    || (self in s && (s[self] == was || s[self] == image))
    || (self + OLD_SUFFIX in s && s[self + OLD_SUFFIX] == was)
  }

  lemma SidecarIsOther(self: Path)
    ensures self + OLD_SUFFIX != self
  {
    assert |self + OLD_SUFFIX| > |self|;
  }

  /** os.WriteFile: create or truncate, then write. */
  method WriteFile(d: FileSystem, path: Path, data: Data, create: bool, room: nat) returns (ok: bool)
    requires d.Valid()
    modifies d
    ensures d.Valid() && old(d.past) <= d.past && Differs(d.files, old(d.files), path)
    ensures ok == (create && |data| <= room) && (ok ==> path in d.files && d.files[path] == data)
    ensures !create ==> d.files == old(d.files)
    ensures create && !ok ==> path in d.files && d.files[path] == data[..room]
    ensures forall i :: |old(d.past)| <= i < |d.past| ==> Differs(d.past[i], old(d.files), path)
  {
    if !create {
      return false;
    }
    d.Become(d.files[path := []]);
    ok := d.Append(path, data, room);
    assert [] + data[..if ok then |data| else room] == data[..if ok then |data| else room];
  }

  /** engine/persist.go: overwriteSelf, with the image to write already put together. */
  method OverwriteSelf(d: FileSystem, self: Path, image: Data, f: Faults) returns (ok: bool)
    requires d.Valid() && self in d.files
    modifies d
    ensures d.Valid() && old(d.past) <= d.past
    // At every moment, and so wherever the process stops, a complete image survives and
    // no third file has changed.
    ensures forall i :: |old(d.past)| <= i < |d.past| ==>
              Survives(d.past[i], self, old(d.files)[self], image)
                  && DiffersAt(d.past[i], old(d.files), self, self + OLD_SUFFIX)
    ensures DiffersAt(d.files, old(d.files), self, self + OLD_SUFFIX)
    ensures ok == (f.moveAside && f.create && |image| <= f.room)
    ensures ok ==> self in d.files && d.files[self] == image && (f.cleanUp ==> self + OLD_SUFFIX !in d.files)
    ensures !ok && (!f.moveAside || f.restore) ==> self in d.files && d.files[self] == old(d.files)[self]
    ensures !ok && f.moveAside && f.restore ==> self + OLD_SUFFIX !in d.files
  {
    SidecarIsOther(self);
    var oldPath := self + OLD_SUFFIX;
    ghost var was := d.files[self];
    d.Remove(oldPath, f.clear);
    var moved := d.Rename(self, oldPath, f.moveAside);
    if !moved {
      return false;
    }
    ghost var aside := d.files;
    ok := WriteFile(d, self, image, f.create, f.room);
    forall s | Differs(s, aside, self)
      ensures Survives(s, self, was, image) && DiffersAt(s, old(d.files), self, oldPath)
    {
      WhileAside(s, aside, old(d.files), self, was);
    }
    if !ok {
      WhileAside(d.files, aside, old(d.files), self, was);
      var restored := d.Rename(oldPath, self, f.restore);
      return false;
    }
    d.Remove(oldPath, f.cleanUp);
    return true;
  }

  /** While the self path is being written, the sidecar holds the old image. */
  lemma WhileAside(s: Files, aside: Files, before: Files, self: Path, was: Data)
    requires self + OLD_SUFFIX in aside && aside[self + OLD_SUFFIX] == was
    requires DiffersAt(aside, before, self, self + OLD_SUFFIX) && Differs(s, aside, self)
    ensures self + OLD_SUFFIX in s && s[self + OLD_SUFFIX] == was
    ensures DiffersAt(s, before, self, self + OLD_SUFFIX)
  {
    SidecarIsOther(self);
    var sidecar := self + OLD_SUFFIX;
    assert sidecar in aside - {self} && (s - {self})[sidecar] == was;
    assert s - {self, sidecar} == (s - {self}) - {sidecar};
    assert aside - {self, sidecar} == (aside - {self}) - {sidecar};
  }

  /** engine/persist.go: cleanupOrphanedOldSelf, run when a process opens its own executable. */
  method CleanupOrphan(d: FileSystem, self: Path, works: bool)
    requires d.Valid()
    modifies d
    ensures d.Valid() && d.files == if works then old(d.files) - {self + OLD_SUFFIX} else old(d.files)
  {
    d.Remove(self + OLD_SUFFIX, works);
    assert self + OLD_SUFFIX !in old(d.files) ==> old(d.files) - {self + OLD_SUFFIX} == old(d.files);
  }

  /** The next start removes the sidecar whatever is at the self path.  A complete image
      outlives that if and only if the self path holds one. */
  lemma CleanupKeepsImageIff(s: Files, self: Path, was: Data, image: Data)
    requires Survives(s, self, was, image)
    ensures Survives(s - {self + OLD_SUFFIX}, self, was, image) <==> self in s && (s[self] == was || s[self] == image)
  {
    SidecarIsOther(self);
  }

  /** It need not: a process stopped while writing leaves this state, and the clean-up of the
      next start takes the only complete image away. */
  lemma StoppedWriteThenCleanup(before: Files, self: Path, image: Data, k: nat)
    requires self in before && k < |image| && image[..k] != before[self]
    ensures var s := before[self + OLD_SUFFIX := before[self]][self := image[..k]];
            Survives(s, self, before[self], image) && !Survives(s - {self + OLD_SUFFIX}, self, before[self], image)
  {
    SidecarIsOther(self);
    var s := before[self + OLD_SUFFIX := before[self]][self := image[..k]];
    assert s[self] != image;
    CleanupKeepsImageIff(s, self, before[self], image);
  }

  // ---- writeImageAtomic ----------------------------------------------------

  /** Which steps get through: creating the temporary file, each of the three writes (by how
      many bytes there is room for), chmod and close, the rename, and the final removal. */
  datatype TempFaults = TempFaults(create: bool, room: seq<nat>, finish: bool, rename: bool, remove: bool)
  {
    predicate Valid() { |room| == 3 }
  }

  /** engine/persist.go: writeImage, to an open file. */
  method WriteParts(d: FileSystem, path: Path, parts: seq<Data>, room: seq<nat>) returns (ok: bool)
    requires d.Valid() && path in d.files && |parts| == |room|
    modifies d
    ensures d.Valid() && old(d.past) <= d.past && path in d.files && Differs(d.files, old(d.files), path)
    ensures ok ==> d.files[path] == old(d.files)[path] + Concat(parts)
    ensures ok <==> forall i :: 0 <= i < |parts| ==> |parts[i]| <= room[i]
    ensures forall i :: |old(d.past)| <= i < |d.past| ==> Differs(d.past[i], old(d.files), path)
  {
    for i := 0 to |parts|
      invariant d.Valid() && old(d.past) <= d.past && path in d.files && Differs(d.files, old(d.files), path)
      invariant d.files[path] + Concat(parts[i..]) == old(d.files)[path] + Concat(parts)
      invariant forall j :: 0 <= j < i ==> |parts[j]| <= room[j]
      invariant forall j :: |old(d.past)| <= j < |d.past| ==> Differs(d.past[j], old(d.files), path)
    {
      assert parts[i..][1..] == parts[i + 1..];
      ghost var written := d.files[path];
      assert written + (parts[i] + Concat(parts[i + 1..])) == written + parts[i] + Concat(parts[i + 1..]);
      var put := d.Append(path, parts[i], room[i]);
      if !put {
        return false;
      }
      assert parts[i][..|parts[i]|] == parts[i];
    }
    assert parts[|parts|..] == [] && d.files[path] + [] == d.files[path];
    return true;
  }

  function Concat(parts: seq<Data>): Data {
    if parts == [] then [] else parts[0] + Concat(parts[1..])
  }

  /** engine/persist.go: writeImageAtomic.  `tmp` is the fresh name CreateTemp picks.  Whatever
      fails and wherever the process stops, a reader of `path` sees the old file or the whole
      new one, and no file but the temporary one is touched. */
  method WriteImageAtomic(d: FileSystem, path: Path, tmp: Path, parts: seq<Data>, f: TempFaults) returns (ok: bool)
    requires d.Valid() && tmp !in d.files && tmp != path && |parts| == 3 && f.Valid()
    modifies d
    ensures d.Valid() && old(d.past) <= d.past
    ensures forall i :: |old(d.past)| <= i < |d.past| ==>
              || Differs(d.past[i], old(d.files), tmp)
              || Differs(d.past[i], old(d.files)[path := Concat(parts)], tmp)
    ensures if ok then d.files == old(d.files)[path := Concat(parts)]
            else Differs(d.files, old(d.files), tmp) && (f.remove ==> d.files == old(d.files))
    ensures ok <==> f.create && (forall i :: 0 <= i < 3 ==> |parts[i]| <= f.room[i]) && f.finish && f.rename
  {
    if !f.create {
      return false;
    }
    ghost var before := d.files;
    d.Become(d.files[tmp := []]);
    ok := WriteParts(d, tmp, parts, f.room);
    assert [] + Concat(parts) == Concat(parts);
    if ok && f.finish {
      ok := d.Rename(tmp, path, f.rename);
      if ok {
        assert d.files == before[path := Concat(parts)];
        return;
      }
    }
    d.Remove(tmp, f.remove);
    return false;
  }
}
