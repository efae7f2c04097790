/** Objects as files (storage/fs.go). memRep remembers in memory which objects there are; the disk holds their bytes. */
module FsStores {
  import opened Common
  import opened Buckets
  import opened Ofb
  import opened Identifiers
  import opened Paths

  /** A path and every path above it. */
  function Above(path: string): set<string> {
    set i | 0 <= i <= |path| && (i < |path| ==> path[i] == '/') :: path[..i]
  }

  datatype Listed = Listed(path: string, isDir: bool)

  predicate Keeps(removed: string, path: string) {
    path != removed && !Below(removed, path)
  }

  function Kept(removed: string, dirs: set<string>): set<string> {
    set d | d in dirs && Keeps(removed, d)
  }

  function FilesKept(removed: string, files: map<string, seq<byte>>): map<string, seq<byte>> {
    map f | f in files && Keeps(removed, f) :: files[f]
  }

  /** The part of a file system the store uses. */
  class Disk {
    var dirs: set<string>
    var files: map<string, seq<byte>>

    constructor (dirs: set<string>, files: map<string, seq<byte>>)
      ensures this.dirs == dirs && this.files == files
    {
      this.dirs, this.files := dirs, files;
    }

    /** Makes the directory and those above it, unless a file is in the way. */
    method MkdirAll(path: string) returns (ok: bool)
      modifies this`dirs
      ensures ok <==> Above(path) !! old(files).Keys
      ensures dirs == if ok then old(dirs) + Above(path) else old(dirs)
    {
      ok := Above(path) !! files.Keys;
      if ok {
        dirs := dirs + Above(path);
      }
    }

    /** The paths of the files and of the directories right below a directory. */
    method ReadDir(path: string) returns (r: Option<seq<Listed>>)
      ensures r.Some? <==> path in dirs
      ensures r.Some? ==> forall e :: e in r.value <==>
                e.path != path && Parent(e.path) == path && e.path in if e.isDir then dirs else files.Keys
    {
      if path !in dirs {
        return None;
      }
      var left := (set d | d in dirs && d != path && Parent(d) == path :: Listed(d, true))
                + (set f | f in files && f != path && Parent(f) == path :: Listed(f, false));
      ghost var all := left;
      var entries := [];
      while left != {}
        invariant forall e :: e in all <==> e in entries || e in left
        decreases left
      {
        var e :| e in left;
        entries := entries + [e];
        left := left - {e};
      }
      return Some(entries);
    }

    method Mkdir(path: string) returns (ok: bool)
      modifies this`dirs
      ensures ok <==> path !in old(dirs) && path !in files && Parent(path) in old(dirs)
      ensures dirs == if ok then old(dirs) + {path} else old(dirs)
    {
      ok := path !in dirs && path !in files && Parent(path) in dirs;
      if ok {
        dirs := dirs + {path};
      }
    }

    method Create(path: string) returns (ok: bool)
      modifies this`files
      ensures ok <==> path !in dirs && Parent(path) in dirs
      ensures files == if ok then old(files)[path := []] else old(files)
    {
      ok := path !in dirs && Parent(path) in dirs;
      if ok {
        files := files[path := []];
      }
    }

    method Append(path: string, chunk: seq<byte>)
      requires path in files
      modifies this`files
      ensures files == old(files)[path := old(files)[path] + chunk]
    {
      files := files[path := files[path] + chunk];
    }

    method Remove(path: string) returns (ok: bool)
      modifies this`files
      ensures ok <==> path in old(files)
      ensures files == old(files) - {path}
    {
      ok := path in files;
      files := files - {path};
    }

    method RemoveAll(path: string)
      modifies this
      ensures dirs == Kept(path, old(dirs))
      ensures files == FilesKept(path, old(files))
    {
      dirs := Kept(path, dirs);
      files := FilesKept(path, files);
    }
  }

  /** A bucket is remembered exactly when its directory exists. */
  predicate BucketLaid(root: string, memRep: map<string, set<string>>, dirs: set<string>,
                       files: map<string, seq<byte>>, b: string)
  {
    && (b in memRep ==> IsId(b))
    && (IsId(b) ==> (RootBucket(root, b) in dirs <==> b in memRep) && RootBucket(root, b) !in files)
  }

  /** A key is remembered exactly when its file exists. */
  predicate KeyLaid(root: string, memRep: map<string, set<string>>, dirs: set<string>,
                    files: map<string, seq<byte>>, b: string, k: string)
  {
    && (b in memRep && k in memRep[b] ==> IsId(k))
    && (IsId(b) && IsId(k) ==>
          (RootKey(root, b, k) in files <==> b in memRep && k in memRep[b]) && RootKey(root, b, k) !in dirs)
  }

  ghost predicate Layout(root: string, memRep: map<string, set<string>>, dirs: set<string>,
                         files: map<string, seq<byte>>)
  {
    && root in dirs
    && (forall b: string :: BucketLaid(root, memRep, dirs, files, b))
    && (forall b: string, k: string :: KeyLaid(root, memRep, dirs, files, b, k))
  }

  /** Nothing under the root is named like a bucket. */
  ghost predicate NoBuckets(root: string, dirs: set<string>, files: map<string, seq<byte>>) {
    && (forall b: string :: IsId(b) ==> RootBucket(root, b) !in dirs && RootBucket(root, b) !in files)
    && (forall b: string, k: string :: IsId(b) && IsId(k) ==>
          RootKey(root, b, k) !in dirs && RootKey(root, b, k) !in files)
  }

  ghost function BucketContents(root: string, b: string, keys: set<string>, files: map<string, seq<byte>>):
    map<string, seq<byte>>
  {
    map k | k in keys && RootKey(root, b, k) in files :: files[RootKey(root, b, k)]
  }

  /** What the files say, in the form of the in-memory storage. */
  ghost function ContentsOf(root: string, memRep: map<string, set<string>>, files: map<string, seq<byte>>):
    Buckets<seq<byte>>
  {
    map b | b in memRep :: BucketContents(root, b, memRep[b], files)
  }

  lemma ContentsHave(root: string, memRep: map<string, set<string>>, dirs: set<string>,
                     files: map<string, seq<byte>>, b: string, k: string)
    requires Layout(root, memRep, dirs, files)
    ensures Has(ContentsOf(root, memRep, files), b, k) <==> b in memRep && k in memRep[b]
  {
    assert BucketLaid(root, memRep, dirs, files, b) && KeyLaid(root, memRep, dirs, files, b, k);
  }

  lemma NewBucketKeepsLayout(root: string, memRep: map<string, set<string>>, dirs: set<string>,
                             files: map<string, seq<byte>>, b: string)
    requires Layout(root, memRep, dirs, files) && IsId(b) && b !in memRep
    ensures Layout(root, memRep[b := {}], dirs + {RootBucket(root, b)}, files)
  {
    var memRep', dirs' := memRep[b := {}], dirs + {RootBucket(root, b)};
    forall c: string ensures BucketLaid(root, memRep', dirs', files, c) {
      assert BucketLaid(root, memRep, dirs, files, c);
      if RootBucket(root, c) == RootBucket(root, b) {
        BucketPathsDiffer(root, c, b);
      }
    }
    forall c: string, l: string ensures KeyLaid(root, memRep', dirs', files, c, l) {
      assert KeyLaid(root, memRep, dirs, files, c, l);
      if IsId(c) && IsId(l) {
        KeyPathsDiffer(root, c, l, b, l);
      }
    }
  }

  lemma NewBucketChangesContents(root: string, memRep: map<string, set<string>>, files: map<string, seq<byte>>,
                                 b: string)
    requires b !in memRep
    ensures ContentsOf(root, memRep[b := {}], files) == ContentsOf(root, memRep, files)[b := map[]]
  {
    assert BucketContents(root, b, {}, files) == map[];
  }

  lemma WriteKeepsLayout(root: string, memRep: map<string, set<string>>, dirs: set<string>,
                         files: map<string, seq<byte>>, b: string, k: string, data: seq<byte>)
    requires Layout(root, memRep, dirs, files) && IsId(b) && IsId(k) && b in memRep
    ensures Layout(root, memRep[b := memRep[b] + {k}], dirs, files[RootKey(root, b, k) := data])
  {
    var memRep', files' := memRep[b := memRep[b] + {k}], files[RootKey(root, b, k) := data];
    forall c: string ensures BucketLaid(root, memRep', dirs, files', c) {
      assert BucketLaid(root, memRep, dirs, files, c);
      if IsId(c) {
        KeyPathsDiffer(root, b, k, c, k);
      }
    }
    forall c: string, l: string ensures KeyLaid(root, memRep', dirs, files', c, l) {
      assert KeyLaid(root, memRep, dirs, files, c, l);
      if IsId(c) && IsId(l) {
        KeyPathsDiffer(root, b, k, c, l);
      }
    }
  }

  /** Writing or removing one object's file leaves the contents of every other bucket. */
  lemma OtherBucketContents(root: string, memRep: map<string, set<string>>, dirs: set<string>,
                            files: map<string, seq<byte>>, b: string, k: string, c: string, data: seq<byte>)
    requires Layout(root, memRep, dirs, files) && IsId(b) && IsId(k) && c in memRep && c != b
    ensures BucketContents(root, c, memRep[c], files[RootKey(root, b, k) := data]) ==
            BucketContents(root, c, memRep[c], files)
    ensures BucketContents(root, c, memRep[c], files - {RootKey(root, b, k)}) ==
            BucketContents(root, c, memRep[c], files)
  {
    assert BucketLaid(root, memRep, dirs, files, c);
    forall l | l in memRep[c] ensures RootKey(root, c, l) != RootKey(root, b, k) {
      assert KeyLaid(root, memRep, dirs, files, c, l);
      KeyPathsDiffer(root, c, l, b, k);
    }
  }

  lemma OwnBucketContents(root: string, memRep: map<string, set<string>>, dirs: set<string>,
                          files: map<string, seq<byte>>, b: string, k: string, data: seq<byte>)
    requires Layout(root, memRep, dirs, files) && IsId(b) && IsId(k) && b in memRep
    ensures BucketContents(root, b, memRep[b] + {k}, files[RootKey(root, b, k) := data]) ==
            BucketContents(root, b, memRep[b], files)[k := data]
    ensures BucketContents(root, b, memRep[b] - {k}, files - {RootKey(root, b, k)}) ==
            BucketContents(root, b, memRep[b], files) - {k}
  {
    forall l | l in memRep[b] && l != k ensures RootKey(root, b, l) != RootKey(root, b, k) {
      assert KeyLaid(root, memRep, dirs, files, b, l);
      KeyPathsDiffer(root, b, l, b, k);
    }
  }

  lemma SameMaps<K, V>(left: map<K, V>, right: map<K, V>)
    requires forall x :: x in left <==> x in right
    requires forall x :: x in left ==> left[x] == right[x]
    ensures left == right
  {
  }

  lemma ContentsAt(root: string, memRep: map<string, set<string>>, files: map<string, seq<byte>>, c: string)
    ensures c in ContentsOf(root, memRep, files) <==> c in memRep
    ensures c in memRep ==> ContentsOf(root, memRep, files)[c] == BucketContents(root, c, memRep[c], files)
  {
  }

  /** The files of one bucket changed: the contents change there and nowhere else. */
  lemma OneBucketChanged(root: string, memRep: map<string, set<string>>, files: map<string, seq<byte>>,
                         b: string, keysB: set<string>, files': map<string, seq<byte>>)
    requires b in memRep
    requires forall c :: c in memRep && c != b ==>
               BucketContents(root, c, memRep[c], files') == BucketContents(root, c, memRep[c], files)
    ensures ContentsOf(root, memRep[b := keysB], files') ==
            ContentsOf(root, memRep, files)[b := BucketContents(root, b, keysB, files')]
  {
    var before, after := ContentsOf(root, memRep, files), ContentsOf(root, memRep[b := keysB], files');
    var contentsB := BucketContents(root, b, keysB, files');
    forall c ensures c in after <==> c in before[b := contentsB]
             ensures c in after ==> after[c] == before[b := contentsB][c]
    {
      ContentsAt(root, memRep, files, c);
      ContentsAt(root, memRep[b := keysB], files', c);
    }
    SameMaps(after, before[b := contentsB]);
  }

  lemma WriteChangesContents(root: string, memRep: map<string, set<string>>, dirs: set<string>,
                             files: map<string, seq<byte>>, b: string, k: string, data: seq<byte>)
    requires Layout(root, memRep, dirs, files) && IsId(b) && IsId(k) && b in memRep
    ensures ContentsOf(root, memRep[b := memRep[b] + {k}], files[RootKey(root, b, k) := data]) ==
            Put(ContentsOf(root, memRep, files), b, k, data)
  {
    var files' := files[RootKey(root, b, k) := data];
    forall c | c in memRep && c != b
      ensures BucketContents(root, c, memRep[c], files') == BucketContents(root, c, memRep[c], files)
    {
      OtherBucketContents(root, memRep, dirs, files, b, k, c, data);
    }
    OneBucketChanged(root, memRep, files, b, memRep[b] + {k}, files');
    OwnBucketContents(root, memRep, dirs, files, b, k, data);
    assert ContentsOf(root, memRep, files)[b] == BucketContents(root, b, memRep[b], files);
  }

  lemma DeleteKeepsLayout(root: string, memRep: map<string, set<string>>, dirs: set<string>,
                          files: map<string, seq<byte>>, b: string, k: string)
    requires Layout(root, memRep, dirs, files) && b in memRep && k in memRep[b]
    ensures Layout(root, memRep[b := memRep[b] - {k}], dirs, files - {RootKey(root, b, k)})
  {
    var memRep', files' := memRep[b := memRep[b] - {k}], files - {RootKey(root, b, k)};
    assert BucketLaid(root, memRep, dirs, files, b) && KeyLaid(root, memRep, dirs, files, b, k);
    forall c: string ensures BucketLaid(root, memRep', dirs, files', c) {
      assert BucketLaid(root, memRep, dirs, files, c);
    }
    forall c: string, l: string ensures KeyLaid(root, memRep', dirs, files', c, l) {
      assert KeyLaid(root, memRep, dirs, files, c, l);
      if IsId(c) && IsId(l) {
        KeyPathsDiffer(root, b, k, c, l);
      }
    }
  }

  lemma DeleteChangesContents(root: string, memRep: map<string, set<string>>, dirs: set<string>,
                              files: map<string, seq<byte>>, b: string, k: string)
    requires Layout(root, memRep, dirs, files) && b in memRep && k in memRep[b]
    ensures ContentsOf(root, memRep[b := memRep[b] - {k}], files - {RootKey(root, b, k)}) ==
            Drop(ContentsOf(root, memRep, files), b, k)
  {
    var files' := files - {RootKey(root, b, k)};
    assert BucketLaid(root, memRep, dirs, files, b) && KeyLaid(root, memRep, dirs, files, b, k);
    forall c | c in memRep && c != b
      ensures BucketContents(root, c, memRep[c], files') == BucketContents(root, c, memRep[c], files)
    {
      OtherBucketContents(root, memRep, dirs, files, b, k, c, []);
    }
    OneBucketChanged(root, memRep, files, b, memRep[b] - {k}, files');
    OwnBucketContents(root, memRep, dirs, files, b, k, []);
    assert ContentsOf(root, memRep, files)[b] == BucketContents(root, b, memRep[b], files);
  }

  lemma DeleteBucketKeepsLayout(root: string, memRep: map<string, set<string>>, dirs: set<string>,
                                files: map<string, seq<byte>>, b: string)
    requires Layout(root, memRep, dirs, files) && b in memRep
    ensures Layout(root, memRep - {b}, Kept(RootBucket(root, b), dirs), FilesKept(RootBucket(root, b), files))
  {
    var gone := RootBucket(root, b);
    assert BucketLaid(root, memRep, dirs, files, b);
    BelowBucket(root, b, b, b);
    forall c: string ensures BucketLaid(root, memRep - {b}, Kept(gone, dirs), FilesKept(gone, files), c) {
      assert BucketLaid(root, memRep, dirs, files, c);
      if IsId(c) {
        BelowBucket(root, b, c, c);
        if RootBucket(root, c) == gone {
          BucketPathsDiffer(root, c, b);
        }
      }
    }
    forall c: string, l: string ensures KeyLaid(root, memRep - {b}, Kept(gone, dirs), FilesKept(gone, files), c, l) {
      assert KeyLaid(root, memRep, dirs, files, c, l);
      if IsId(c) && IsId(l) {
        BelowBucket(root, b, c, l);
        KeyPathsDiffer(root, c, l, b, l);
      }
    }
  }

  lemma DeleteBucketChangesContents(root: string, memRep: map<string, set<string>>, dirs: set<string>,
                                    files: map<string, seq<byte>>, b: string)
    requires Layout(root, memRep, dirs, files) && b in memRep
    ensures ContentsOf(root, memRep - {b}, FilesKept(RootBucket(root, b), files)) ==
            ContentsOf(root, memRep, files) - {b}
  {
    var gone := RootBucket(root, b);
    assert BucketLaid(root, memRep, dirs, files, b);
    forall c | c in memRep && c != b
      ensures BucketContents(root, c, memRep[c], FilesKept(gone, files)) == BucketContents(root, c, memRep[c], files)
    {
      assert BucketLaid(root, memRep, dirs, files, c);
      forall l | l in memRep[c] ensures Keeps(gone, RootKey(root, c, l)) {
        assert KeyLaid(root, memRep, dirs, files, c, l);
        BelowBucket(root, b, c, l);
        KeyPathsDiffer(root, c, l, b, l);
      }
    }
  }

  /** Names behind blanks. */
  lemma BlanksThenNames(names: seq<string>, n: nat)
    requires n <= |names| && forall i :: 0 <= i < n ==> names[i] == ""
    ensures forall b :: b != "" ==> (b in names <==> b in names[n..])
  {
    forall b | b != "" && b in names ensures b in names[n..] {
      var i :| 0 <= i < |names| && names[i] == b;
      assert names[n..][i - n] == b;
    }
  }

  class FsStorage {
    const rootPath: string
    const disk: Disk
    var memRep: map<string, set<string>>

    ghost predicate Valid()
      reads this, disk
    {
      Layout(rootPath, memRep, disk.dirs, disk.files)
    }

    ghost function Contents(): Buckets<seq<byte>>
      reads this, disk
    {
      ContentsOf(rootPath, memRep, disk.files)
    }

    constructor (root: string, disk: Disk)
      requires root in disk.dirs && NoBuckets(root, disk.dirs, disk.files)
      ensures Valid() && Contents() == map[]
      ensures rootPath == root && this.disk == disk
    {
      rootPath, this.disk, memRep := root, disk, map[];
    }

    function GetRootBucket(bucketName: string): string {
      RootBucket(rootPath, bucketName)
    }

    function GetRootKey(bucketName: string, keyName: string): string {
      RootKey(rootPath, bucketName, keyName)
    }

    method NewBucket(bucket: string) returns (err: Option<StoreError>)
      requires Valid() && IsId(bucket)
      modifies this, disk`dirs
      ensures Valid()
      ensures err == if bucket in old(Contents()) then Some(BucketAlreadyExists(bucket)) else None
      ensures Contents() == if bucket in old(Contents()) then old(Contents()) else old(Contents())[bucket := map[]]
    {
      if bucket in memRep {
        return Some(BucketAlreadyExists(bucket));
      }
      assert BucketLaid(rootPath, memRep, disk.dirs, disk.files, bucket);
      NewBucketKeepsLayout(rootPath, memRep, disk.dirs, disk.files, bucket);
      NewBucketChangesContents(rootPath, memRep, disk.files, bucket);
      IdsHaveNoSlash(bucket);
      ParentOf(rootPath, bucket);
      memRep := memRep[bucket := {}];
      var ok := disk.Mkdir(GetRootBucket(bucket));
      if !ok {
        return Some(OsFailed);
      }
      return None;
    }

    /** A failing reader leaves the key remembered and the file with what had arrived. */
    method Write(bucket: string, key: string, data: StreamReader) returns (err: Option<StoreError>)
      requires Valid() && IsId(bucket) && IsId(key) && data.stream.Valid()
      modifies this, disk, data.stream, data.source
      ensures Valid()
      ensures err == if bucket !in old(Contents()) then Some(BucketDoesNotExist(bucket))
                     else if key in old(Contents())[bucket] then Some(ObjectAlreadyExists(key))
                     else if data.source.fails then Some(ReaderFailed) else None
      ensures Contents() == if bucket in old(Contents()) && key !in old(Contents())[bucket]
                            then Put(old(Contents()), bucket, key, old(data.Remaining())) else old(Contents())
    {
      if bucket !in memRep {
        return Some(BucketDoesNotExist(bucket));
      }
      ContentsHave(rootPath, memRep, disk.dirs, disk.files, bucket, key);
      if key in memRep[bucket] {
        return Some(ObjectAlreadyExists(key));
      }
      ghost var all := data.Remaining();
      WriteKeepsLayout(rootPath, memRep, disk.dirs, disk.files, bucket, key, all);
      WriteChangesContents(rootPath, memRep, disk.dirs, disk.files, bucket, key, all);
      assert BucketLaid(rootPath, memRep, disk.dirs, disk.files, bucket);
      assert KeyLaid(rootPath, memRep, disk.dirs, disk.files, bucket, key);
      IdsHaveNoSlash(key);
      ParentOf(GetRootBucket(bucket), key);
      memRep := memRep[bucket := memRep[bucket] + {key}];
      err := CreateAndFill(GetRootKey(bucket, key), data);
    }

    /** os.Create and file.ReadFrom. */
    method CreateAndFill(path: string, data: StreamReader) returns (err: Option<StoreError>)
      requires data.stream.Valid() && path !in disk.dirs && Parent(path) in disk.dirs
      modifies disk`files, data.stream, data.source
      ensures err == if data.source.fails then Some(ReaderFailed) else None
      ensures disk.files == old(disk.files)[path := old(data.Remaining())]
    {
      ghost var all := data.Remaining();
      var ok := disk.Create(path);
      if !ok {
        return Some(OsFailed);
      }
      var status := More;
      while status == More
        invariant data.stream.Valid() && path in disk.files
        invariant all == disk.files[path] + data.Remaining()
        invariant disk.files == old(disk.files)[path := disk.files[path]]
        invariant status != More ==> data.source.chunks == [] && status == if data.source.fails then Failed else Eof
        decreases |data.source.chunks|, status == More
      {
        var chunk;
        ghost var before := disk.files[path];
        chunk, status := data.Read();
        disk.Append(path, chunk);
        AppendMiddle(before, chunk, data.Remaining());
      }
      assert data.Remaining() == [] && disk.files[path] == all;
      return if status == Failed then Some(ReaderFailed) else None;
    }

    method Read(bucket: string, key: string) returns (r: Result<Reader, StoreError>)
      requires Valid() && IsId(bucket) && IsId(key)
      ensures r.Ok? <==> Has(Contents(), bucket, key)
      ensures r.Ok? ==> fresh(r.value) && Flatten(r.value.chunks) == Contents()[bucket][key] && !r.value.fails
      ensures r.Err? ==> r.error == if bucket in Contents() then ObjectDoesNotExist(key) else BucketDoesNotExist(bucket)
    {
      if bucket !in memRep {
        return Err(BucketDoesNotExist(bucket));
      }
      ContentsHave(rootPath, memRep, disk.dirs, disk.files, bucket, key);
      if key !in memRep[bucket] {
        return Err(ObjectDoesNotExist(key));
      }
      assert KeyLaid(rootPath, memRep, disk.dirs, disk.files, bucket, key);
      var file := disk.files[GetRootKey(bucket, key)];
      assert Contents()[bucket][key] == file;
      var reader := new Reader([file], false);
      FlattenOne(file);
      return Ok(reader);
    }

    method Delete(bucket: string, key: string) returns (err: Option<StoreError>)
      requires Valid() && IsId(bucket) && IsId(key)
      modifies this, disk`files
      ensures Valid()
      ensures err == if bucket !in old(Contents()) then Some(BucketDoesNotExist(bucket))
                     else if key !in old(Contents())[bucket] then Some(ObjectDoesNotExist(key)) else None
      ensures Contents() == if Has(old(Contents()), bucket, key) then Drop(old(Contents()), bucket, key)
                            else old(Contents())
    {
      if bucket !in memRep {
        return Some(BucketDoesNotExist(bucket));
      }
      ContentsHave(rootPath, memRep, disk.dirs, disk.files, bucket, key);
      if key !in memRep[bucket] {
        return Some(ObjectDoesNotExist(key));
      }
      assert KeyLaid(rootPath, memRep, disk.dirs, disk.files, bucket, key);
      DeleteKeepsLayout(rootPath, memRep, disk.dirs, disk.files, bucket, key);
      DeleteChangesContents(rootPath, memRep, disk.dirs, disk.files, bucket, key);
      memRep := memRep[bucket := memRep[bucket] - {key}];
      var ok := disk.Remove(GetRootKey(bucket, key));
      if !ok {
        return Some(OsFailed);
      }
      return None;
    }

    method DeleteBucket(bucket: string) returns (err: Option<StoreError>)
      requires Valid() && IsId(bucket)
      modifies this, disk
      ensures Valid()
      ensures err == if bucket in old(Contents()) then None else Some(BucketDoesNotExist(bucket))
      ensures Contents() == old(Contents()) - {bucket}
    {
      if bucket !in memRep {
        assert Contents() - {bucket} == Contents();
        return Some(BucketDoesNotExist(bucket));
      }
      DeleteBucketKeepsLayout(rootPath, memRep, disk.dirs, disk.files, bucket);
      DeleteBucketChangesContents(rootPath, memRep, disk.dirs, disk.files, bucket);
      disk.RemoveAll(GetRootBucket(bucket));
      memRep := memRep - {bucket};
      return None;
    }

    /** As many empty names as there are buckets, and after them each bucket once. */
    method ListBuckets() returns (names: seq<string>)
      requires Valid()
      ensures |names| == 2 * |Contents().Keys|
      ensures forall i :: 0 <= i < |Contents().Keys| ==> names[i] == ""
      ensures forall b :: b in names[|Contents().Keys|..] <==> b in Contents()
      ensures forall b :: b in names && b != "" <==> b in Contents()
    {
      assert Contents().Keys == memRep.Keys;
      var n := |memRep.Keys|;
      names := seq(n, _ => "");
      var left := memRep.Keys;
      while left != {}
        invariant |names| + |left| == 2 * n && n <= |names|
        invariant forall i :: 0 <= i < n ==> names[i] == ""
        invariant forall b :: b in memRep <==> b in names[n..] || b in left
        decreases left
      {
        var bucketName :| bucketName in left;
        assert (names + [bucketName])[n..] == names[n..] + [bucketName];
        names := names + [bucketName];
        left := left - {bucketName};
      }
      assert forall b :: b in memRep ==> b != "" by {
        forall b | b in memRep ensures b != "" {
          assert BucketLaid(rootPath, memRep, disk.dirs, disk.files, b);
          IdsHaveNoSlash(b);
        }
      }
      BlanksThenNames(names, n);
    }
  }

  /** Files in the root other than the one the store leaves there. */
  ghost predicate HasForeignFiles(root: string, files: map<string, seq<byte>>) {
    exists f :: f in files && f != root && Parent(f) == root && f != RootBucket(root, CONFIG_NAME)
  }

  /** The config file is no object, and making the root makes no bucket. */
  lemma StillNoBuckets(root: string, dirs: set<string>, files: map<string, seq<byte>>)
    requires NoBuckets(root, dirs, files)
    ensures NoBuckets(root, dirs + Above(root), files)
    ensures NoBuckets(root, dirs, files[RootBucket(root, CONFIG_NAME) := []])
  {
    forall b: string, k: string | IsId(b) && IsId(k)
      ensures RootBucket(root, b) !in files[RootBucket(root, CONFIG_NAME) := []]
      ensures RootKey(root, b, k) !in files[RootBucket(root, CONFIG_NAME) := []]
    {
      KeyPathsDiffer(root, b, k, b, k);
    }
    forall b: string | IsId(b) ensures RootBucket(root, b) !in files[RootBucket(root, CONFIG_NAME) := []] {
      KeyPathsDiffer(root, b, b, b, b);
    }
    forall path | path in Above(root) ensures |path| <= |root| {}
  }

  lemma AboveIsShort(root: string, path: string)
    requires |path| > |root|
    ensures path !in Above(root)
  {
  }

  lemma ForeignAreListed(root: string, files: map<string, seq<byte>>, entries: seq<Listed>)
    requires forall p: string :: Listed(p, false) in entries <==> p != root && Parent(p) == root && p in files
    ensures HasForeignFiles(root, files) <==>
            exists j :: 0 <= j < |entries| && !entries[j].isDir && entries[j].path != RootBucket(root, CONFIG_NAME)
  {
    if f :| f in files && f != root && Parent(f) == root && f != RootBucket(root, CONFIG_NAME) {
      assert Listed(f, false) in entries;
    }
    if j :| 0 <= j < |entries| && !entries[j].isDir && entries[j].path != RootBucket(root, CONFIG_NAME) {
      assert Listed(entries[j].path, false) in entries;
    }
  }

  /** The look at a root that is there. */
  method ScanRoot(root: string, disk: Disk) returns (err: Option<StoreError>)
    ensures err.None? || err == Some(OsFailed) || err == Some(ForeignFiles)
    ensures err == Some(OsFailed) <==> root !in disk.dirs
    ensures err == Some(ForeignFiles) <==>
              root in disk.dirs && HasForeignFiles(root, disk.files) && RootBucket(root, CONFIG_NAME) !in disk.files
  {
    var entries := disk.ReadDir(root);
    if entries.None? {
      return Some(OsFailed);
    }
    var config := RootBucket(root, CONFIG_NAME);
    var fCounter, secureStoreFileExists := 0, false;
    for i := 0 to |entries.value|
      invariant fCounter > 0 <==> exists j :: 0 <= j < i && !entries.value[j].isDir && entries.value[j].path != config
      invariant secureStoreFileExists <==> Listed(config, false) in entries.value[..i]
    {
      var entry := entries.value[i];
      assert entries.value[..i + 1] == entries.value[..i] + [entry];
      if entry.isDir {
        continue;
      }
      if entry.path == config {
        secureStoreFileExists := true;
        continue;
      }
      fCounter := fCounter + 1;
    }
    assert entries.value[..|entries.value|] == entries.value;
    ForeignAreListed(root, disk.files, entries.value);
    ParentOf(root, CONFIG_NAME);
    if fCounter > 0 && !secureStoreFileExists {
      return Some(ForeignFiles);
    }
    return None;
  }

  /** Makes the root if nothing is there. A root that is there is refused if it holds files but not the file the store
      leaves in it, and so is one that is a file itself. On success the storage is empty, and that file is there and
      empty. */
  method NewFsStorage(root: string, disk: Disk) returns (r: Result<FsStorage, StoreError>)
    requires NoBuckets(root, disk.dirs, disk.files)
    modifies disk
    ensures var config := RootBucket(root, CONFIG_NAME); var there := root in old(disk.dirs) || root in old(disk.files);
      && (r == Err(ForeignFiles) <==>
            root in old(disk.dirs) && HasForeignFiles(root, old(disk.files)) && config !in old(disk.files))
      && (r.Ok? ==>
            && fresh(r.value) && r.value.rootPath == root && r.value.disk == disk
            && r.value.Valid() && r.value.Contents() == map[]
            && disk.files == old(disk.files)[config := []]
            && disk.dirs == if there then old(disk.dirs) else old(disk.dirs) + Above(root))
      && (r.Ok? <==> r != Err(ForeignFiles) && config !in old(disk.dirs)
                     && if there then root in old(disk.dirs) else Above(root) !! old(disk.files).Keys)
  {
    StillNoBuckets(root, disk.dirs, disk.files);
    var config := RootBucket(root, CONFIG_NAME);
    ParentOf(root, CONFIG_NAME);
    if root !in disk.dirs && root !in disk.files {
      var ok := disk.MkdirAll(root);
      if !ok {
        return Err(OsFailed);
      }
      assert root == root[..|root|] && root in Above(root);
      AboveIsShort(root, config);
    } else {
      var err := ScanRoot(root, disk);
      if err.Some? {
        return Err(err.value);
      }
    }
    StillNoBuckets(root, disk.dirs, disk.files);
    var ok := disk.Create(config);
    if !ok {
      return Err(OsFailed);
    }
    var ret := new FsStorage(root, disk);
    return Ok(ret);
  }
}
