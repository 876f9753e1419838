/** A database and the files it is opened from and saved to (engine/engine.go,
    engine/persist.go): whatever is loaded, saved and overwritten, the engine bytes it
    carries forward stay those of the file it was opened from. */
module Persist {
  import opened Bytes
  import opened PgTypes
  import opened Image
  import opened Disk

  /** Larger than any file; keeps sums of file sizes within int64. */
  const MAX_FILE := 0x4000_0000_0000_0000

  /** A file that opens as an engine of exactly these bytes, with or without data. */
  predicate CarriesEngine(file: Data, engine: Data) {
    |file| <= MAX_INT64 && !Inspect(file).Corrupt? && EngineSize(file) == |engine| && file[..|engine|] == engine
  }

  /** The engine part of a file. */
  function EngineOf(file: Data): Data
    requires |file| <= MAX_INT64
  {
    file[..EngineSize(file)]
  }

  /** The source file carries the engine; only an empty engine may have no file. */
  ghost predicate Rooted(files: Files, source: Path, engine: Data) {
    if source in files then CarriesEngine(files[source], engine) else engine == []
  }

  /** Saving under the source's own name, or any other, keeps it rooted. */
  lemma ImageCarriesEngine(engine: Data, data: Data)
    requires |engine| <= MAX_FILE && |data| <= MAX_DATA_SIZE
    ensures CarriesEngine(ImageOf(engine, data), engine) && BlobOf(ImageOf(engine, data)) == Loaded(data)
  {
    ImageRoundTrip(engine, data);
  }

  /** What a save needs of the blob: neither empty nor beyond what the store can hold. */
  predicate Savable(data: Data) { 0 < |data| <= MAX_DATA_SIZE }

  datatype Op =
    | Save(path: Path, tmp: Path, data: Data, f: TempFaults)
    | LoadFile(path: Path)
    | LoadBytes(buf: Data)
    | SaveSelf(data: Data, faults: Faults)
  {
    /** A blob the barrier can return, and a failed self-overwrite that can be undone. */
    predicate Sane() {
      match this
      case Save(_, _, data, f) => Savable(data) && f.Valid()
      case SaveSelf(data, f) => Savable(data) && f.restore
      case LoadFile(_) => true
      case LoadBytes(buf) => |buf| <= MAX_FILE
    }
  }

  class Database {
    const disk: FileSystem
    const self: Path
    var sourcePath: Path
    var engineSize: nat
    var info: Info
    // The live contents, as a blob.
    var contents: Data
    ghost var engine: Data

    ghost predicate Valid()
      reads this, disk
    {
      && disk.Valid() && |engine| == engineSize <= MAX_FILE
      && Rooted(disk.files, sourcePath, engine)
    }

    /** The source is not the sidecar of the executable, which an overwrite removes. */
    predicate Apart()
      reads this`sourcePath
    {
      sourcePath != self + OLD_SUFFIX
    }

    constructor (disk: FileSystem, self: Path, path: Path, engineSize: nat, info: Info, contents: Data,
        ghost engine: Data)
      ensures this.disk == disk && this.self == self && this.sourcePath == path && this.engineSize == engineSize
      ensures this.info == info && this.contents == contents && this.engine == engine
    {
      this.disk, this.self, this.sourcePath, this.engineSize := disk, self, path, engineSize;
      this.info, this.contents, this.engine := info, contents, engine;
    }

    /** engine/engine.go: Open and loadFromFile; `works` says whether SQLite takes the blob.  It
        fails exactly on a corrupt footer or a blob that is not taken.  A file that does not
        exist, or has no footer, makes an empty database. */
    static method Open(disk: FileSystem, self: Path, path: Path, empty: Data, works: bool) returns (db: Database?)
      requires disk.Valid() && (path in disk.files ==> |disk.files[path]| <= MAX_FILE)
      ensures db == null <==>
                path in disk.files && (Inspect(disk.files[path]).Corrupt?
                    || (Inspect(disk.files[path]).HasData? && !works))
      ensures db != null ==> fresh(db) && db.Valid() && db.disk == disk && db.self == self && db.sourcePath == path
      ensures db != null && path in disk.files ==>
                && CarriesEngine(disk.files[path], db.engine)
                && db.contents == (match BlobOf(disk.files[path]) case Loaded(blob) => blob case _ => empty)
                && db.info == Inspect(disk.files[path])
      ensures db != null && path !in disk.files ==> db.engine == [] && db.contents == empty && db.info == NoData
    {
      if path !in disk.files {
        db := new Database(disk, self, path, 0, NoData, empty, []);
        return;
      }
      var file := disk.files[path];
      var info := Inspect(file);
      match info {
        case Corrupt =>
          return null;
        case NoData =>
          db := new Database(disk, self, path, |file|, info, empty, file);
          assert file[..|file|] == file;
        case HasData(_, dataOffset, dataLength) =>
          var loaded := BlobOf(file);
          if !works {
            return null;
          }
          db := new Database(disk, self, path, EngineSize(file), info, loaded.blob, file[..EngineSize(file)]);
      }
    }

    /** engine/persist.go: readEnginePrefix. */
    method ReadEnginePrefix(path: Path, size: nat) returns (bytes: Data, ok: bool)
      ensures ok <==> size == 0 || (path in disk.files && size <= |disk.files[path]|)
      ensures ok ==> bytes == if size == 0 then [] else disk.files[path][..size]
    {
      if size == 0 {
        return [], true;
      }
      if path !in disk.files || size > |disk.files[path]| {
        return [], false;
      }
      return disk.files[path][..size], true;
    }

    /** What a snapshot needs: the engine prefix in the source file, a temporary name that is
        free and neither the target's nor the source's, and every step of the writing. */
    ghost predicate CanSave(path: Path, tmp: Path, data: Data, f: TempFaults)
      requires f.Valid()
      reads this, disk
    {
      && (engineSize == 0 || (sourcePath in disk.files && engineSize <= |disk.files[sourcePath]|))
      && tmp !in disk.files && tmp != path && tmp != sourcePath
      && f.create && engineSize <= f.room[0] && |data| <= f.room[1] && FOOTER_SIZE <= f.room[2]
      && f.finish && f.rename
    }

    /** engine/persist.go: Snapshot, given the blob of the serialization barrier.  It succeeds
        exactly if all that it needs is there; if not, no file but the temporary one is touched. */
    method Snapshot(path: Path, tmp: Path, data: Data, f: TempFaults) returns (ok: bool)
      requires Valid() && Savable(data) && f.Valid()
      modifies disk
      ensures Valid() && old(disk.past) <= disk.past
      ensures ok <==> old(CanSave(path, tmp, data, f))
      ensures if ok then disk.files == old(disk.files)[path := ImageOf(engine, data)]
              else Differs(disk.files, old(disk.files), tmp) && (f.remove ==> disk.files == old(disk.files))
      ensures ok ==> CarriesEngine(disk.files[path], engine) && BlobOf(disk.files[path]) == Loaded(data)
      ensures forall i :: |old(disk.past)| <= i < |disk.past| ==> Rooted(disk.past[i], sourcePath, engine)
    {
      var engineBytes;
      engineBytes, ok := ReadEnginePrefix(sourcePath, engineSize);
      if !ok || tmp in disk.files || tmp == path || tmp == sourcePath {
        return false;
      }
      assert engineBytes == engine;
      ImageCarriesEngine(engine, data);
      AllRooted(disk.files, path, tmp, data);
      ok := WriteImage(path, tmp, engineBytes, data, f);
    }

    /** engine/persist.go: writeImageAtomic, the footer included. */
    method WriteImage(path: Path, tmp: Path, engineBytes: Data, data: Data, f: TempFaults) returns (ok: bool)
      requires disk.Valid() && tmp !in disk.files && tmp != path && f.Valid()
      requires |engineBytes| <= MAX_FILE && |data| <= MAX_DATA_SIZE
      modifies disk
      ensures disk.Valid() && old(disk.past) <= disk.past
      ensures forall i :: |old(disk.past)| <= i < |disk.past| ==>
                || Differs(disk.past[i], old(disk.files), tmp)
                || Differs(disk.past[i], old(disk.files)[path := ImageOf(engineBytes, data)], tmp)
      ensures if ok then disk.files == old(disk.files)[path := ImageOf(engineBytes, data)]
              else Differs(disk.files, old(disk.files), tmp) && (f.remove ==> disk.files == old(disk.files))
      ensures ok <==>
                && f.create && |engineBytes| <= f.room[0] && |data| <= f.room[1] && FOOTER_SIZE <= f.room[2]
                && f.finish && f.rename
    {
      var footer := WriteFooter(|engineBytes|, |data|);
      var parts := [engineBytes, data, footer[..]];
      ConcatThree(engineBytes, data, footer[..]);
      RoomForThree(parts, f.room);
      ok := WriteImageAtomic(disk, path, tmp, parts, f);
    }

    lemma AllRooted(before: Files, path: Path, tmp: Path, data: Data)
      requires |engine| <= MAX_FILE && Savable(data) && Rooted(before, sourcePath, engine) && tmp != sourcePath
      ensures forall s: Files :: Differs(s, before, tmp) || Differs(s, before[path := ImageOf(engine, data)], tmp) ==>
                Rooted(s, sourcePath, engine)
    {
      forall s: Files | Differs(s, before, tmp) || Differs(s, before[path := ImageOf(engine, data)], tmp)
        ensures Rooted(s, sourcePath, engine)
      {
        StaysRooted(s, before, path, tmp, data);
      }
    }

    lemma StaysRooted(s: Files, before: Files, path: Path, tmp: Path, data: Data)
      requires |engine| <= MAX_FILE && Savable(data) && Rooted(before, sourcePath, engine) && tmp != sourcePath
      requires Differs(s, before, tmp) || Differs(s, before[path := ImageOf(engine, data)], tmp)
      ensures Rooted(s, sourcePath, engine)
    {
      ImageCarriesEngine(engine, data);
      var t := if Differs(s, before, tmp) then before else before[path := ImageOf(engine, data)];
      assert s - {tmp} == t - {tmp};
      assert sourcePath in s <==> sourcePath in s - {tmp};
      assert sourcePath in t <==> sourcePath in t - {tmp};
      assert sourcePath in s ==> s[sourcePath] == (s - {tmp})[sourcePath] == t[sourcePath];
    }

    /** engine/persist.go: applyLoadedData.  The source and engine size are left alone. */
    method ApplyLoadedData(info: Info, blob: Data, works: bool) returns (ok: bool)
      modifies this`info, this`contents
      ensures ok == works && contents == (if works then blob else old(contents))
      ensures this.info == if works then info else old(this.info)
    {
      if !works {
        return false;
      }
      contents := blob;
      this.info := info;
      return true;
    }

    /** engine/persist.go: Load.  It succeeds exactly on a file with data that SQLite takes. */
    method Load(path: Path, works: bool) returns (ok: bool)
      requires Valid()
      modifies this`info, this`contents
      ensures Valid()
      ensures ok <==>
                path in disk.files && |disk.files[path]| <= MAX_FILE && BlobOf(disk.files[path]).Loaded? && works
      ensures ok ==> contents == BlobOf(disk.files[path]).blob && info == Inspect(disk.files[path])
      ensures !ok ==> contents == old(contents) && info == old(info)
    {
      if path !in disk.files || |disk.files[path]| > MAX_FILE {
        return false;
      }
      ok := LoadBuffer(disk.files[path], works);
    }

    /** engine/persist.go: LoadFrom. */
    method LoadBuffer(buf: Data, works: bool) returns (ok: bool)
      requires |buf| <= MAX_FILE
      modifies this`info, this`contents
      ensures ok <==> BlobOf(buf).Loaded? && works
      ensures ok ==> contents == BlobOf(buf).blob && info == Inspect(buf)
      ensures !ok ==> contents == old(contents) && info == old(info)
    {
      var r := LoadFrom(buf);
      if !r.Loaded? {
        return false;
      }
      ok := ApplyLoadedData(Inspect(buf), r.blob, works);
    }

    /** What an overwrite needs: the executable's file, not corrupt, and every step that cannot
        be done without. */
    ghost predicate CanOverwrite(data: Data, f: Faults)
      requires |data| <= MAX_DATA_SIZE
      reads disk
    {
      && self in disk.files && |disk.files[self]| <= MAX_FILE && !Inspect(disk.files[self]).Corrupt?
      && f.moveAside && f.create && EngineSize(disk.files[self]) + |data| + FOOTER_SIZE <= f.room
    }

    /** engine/persist.go: Overwrite, given the blob of the serialization barrier.  It succeeds
        exactly if all that it needs is there, and touches no file but the executable's own and
        its sidecar. */
    method Overwrite(data: Data, f: Faults) returns (ok: bool)
      requires Valid() && Savable(data)
      modifies disk
      ensures disk.Valid() && old(disk.past) <= disk.past
      ensures Apart() && (ok || !f.moveAside || f.restore) ==> Valid()
      ensures ok <==> old(CanOverwrite(data, f))
      ensures DiffersAt(disk.files, old(disk.files), self, self + OLD_SUFFIX)
      ensures ok ==> self in old(disk.files) && Replaced(disk.files, self, old(disk.files)[self], data)
      ensures self in old(disk.files) ==>
                forall i :: |old(disk.past)| <= i < |disk.past|
                    ==> KeepsImage(disk.past[i], self, old(disk.files)[self], data)
    {
      if self !in disk.files || |disk.files[self]| > MAX_FILE || Inspect(disk.files[self]).Corrupt? {
        return false;
      }
      ghost var before, was := disk.files, disk.files[self];
      var size := EngineSize(disk.files[self]);
      var engineBytes;
      engineBytes, ok := ReadEnginePrefix(self, size);
      if !ok {
        return false;
      }
      assert engineBytes == EngineOf(was);
      ImageCarriesEngine(engineBytes, data);
      ok := OverwriteSelf(disk, self, ImageOf(engineBytes, data), f);
      forall s | Survives(s, self, was, ImageOf(EngineOf(was), data)) ensures KeepsImage(s, self, was, data) {
        SurvivorIsImage(s, self, was, data);
      }
      if Apart() && (ok || !f.moveAside || f.restore) {
        SourceKept(disk.files, before, data, ok);
      }
    }

    /** The source is another file, or is the executable with its engine in front. */
    lemma SourceKept(now: Files, before: Files, data: Data, ok: bool)
      requires Apart() && Savable(data) && |engine| <= MAX_FILE && Rooted(before, sourcePath, engine)
      requires DiffersAt(now, before, self, self + OLD_SUFFIX)
      requires self in before && |before[self]| <= MAX_FILE && !Inspect(before[self]).Corrupt?
      requires self in now && now[self] == if ok then ImageOf(EngineOf(before[self]), data) else before[self]
      ensures Rooted(now, sourcePath, engine)
    {
      if sourcePath == self {
        ImageCarriesEngine(EngineOf(before[self]), data);
      } else {
        assert sourcePath in now <==> sourcePath in now - {self, self + OLD_SUFFIX};
        assert sourcePath in before <==> sourcePath in before - {self, self + OLD_SUFFIX};
        assert sourcePath in before ==> now[sourcePath] == (before - {self, self + OLD_SUFFIX})[sourcePath];
      }
    }

    /** One operation; `saved` is the image it left under the name it was told, if any. */
    method RunOp(op: Op) returns (ghost saved: seq<Data>)
      requires Valid() && Apart() && op.Sane()
      modifies this`info, this`contents, disk
      ensures Valid() && forall file :: file in saved ==> CarriesEngine(file, engine)
      ensures op.Save? && old(CanSave(op.path, op.tmp, op.data, op.f)) ==> saved == [ImageOf(engine, op.data)]
    {
      saved := [];
      match op {
        case Save(path, tmp, data, f) =>
          var ok := Snapshot(path, tmp, data, f);
          saved := if ok then [disk.files[path]] else [];
        case LoadFile(path) =>
          var ok := Load(path, true);
        case LoadBytes(buf) =>
          var ok := LoadBuffer(buf, true);
        case SaveSelf(data, faults) =>
          var ok := Overwrite(data, faults);
      }
    }

    /** Any sequence of operations, with any faults: the engine stays what it was at Open,
        and every image that is saved carries it, and nothing but it, in front of its data. */
    method RunOps(ops: seq<Op>) returns (ghost saved: seq<Data>)
      requires Valid() && Apart() && forall i :: 0 <= i < |ops| ==> ops[i].Sane()
      modifies this`info, this`contents, disk
      ensures Valid()
      ensures engineSize > 0 ==> sourcePath in disk.files && CarriesEngine(disk.files[sourcePath], engine)
      ensures forall file :: file in saved ==> CarriesEngine(file, engine)
    {
      saved := [];
      for i := 0 to |ops|
        invariant Valid() && forall file :: file in saved ==> CarriesEngine(file, engine)
      {
        ghost var more := RunOp(ops[i]);
        saved := saved + more;
      }
    }
  }

  /** The file at `self` is now an image of the data behind the engine bytes it had. */
  predicate Replaced(s: Files, self: Path, was: Data, data: Data) {
    && self in s && |was| <= MAX_INT64
    && CarriesEngine(s[self], EngineOf(was)) && BlobOf(s[self]) == Loaded(data)
  }

  /** The old image or its replacement is there, the old one perhaps in the sidecar. */
  predicate KeepsImage(s: Files, self: Path, was: Data, data: Data) {
    || (self in s && s[self] == was)
    || Replaced(s, self, was, data)
    || (self + OLD_SUFFIX in s && s[self + OLD_SUFFIX] == was)
  }

  lemma SurvivorIsImage(s: Files, self: Path, was: Data, data: Data)
    requires |was| <= MAX_FILE && Savable(data) && Survives(s, self, was, ImageOf(EngineOf(was), data))
    ensures KeepsImage(s, self, was, data)
  {
    ImageCarriesEngine(EngineOf(was), data);
  }

  lemma RoomForThree(parts: seq<Data>, room: seq<nat>)
    requires |parts| == |room| == 3
    ensures (forall i :: 0 <= i < 3 ==> |parts[i]| <= room[i]) <==>
              |parts[0]| <= room[0] && |parts[1]| <= room[1] && |parts[2]| <= room[2]
  {
  }

  lemma ConcatThree(a: Data, b: Data, c: Data)
    ensures Concat([a, b, c]) == a + b + c
  {
    assert [a, b, c][1..] == [b, c] && [b, c][1..] == [c] && [c][1..] == [];
    assert Concat([c]) == c + [] == c;
    assert Concat([b, c]) == b + c;
    assert a + (b + c) == a + b + c;
  }

  /** A saved image opened again is rooted in the same engine: generations do not nest. */
  lemma ReopenedCarriesSameEngine(files: Files, path: Path, engine: Data, data: Data, next: Data)
    requires |engine| <= MAX_FILE && |data| <= MAX_DATA_SIZE && |next| <= MAX_DATA_SIZE
    requires path in files && files[path] == ImageOf(engine, data)
    ensures |files[path]| <= MAX_INT64 && EngineSize(files[path]) == |engine|
    ensures ImageOf(files[path][..EngineSize(files[path])], next) == ImageOf(engine, next)
    ensures CarriesEngine(ImageOf(engine, next), engine)
  {
    ImageCarriesEngine(engine, data);
    ImageCarriesEngine(engine, next);
  }
}
