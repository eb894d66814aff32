/** Storage helpers of the speed test (FileUtils.kt): the external storage
    state checks, and the creation of the test file over an abstract
    filesystem. */
module FileUtils {

  /** The storage states Android reports through Environment.getExternalStorageState(). */
  datatype StorageState =
    | Unknown | Removed | Unmounted | Checking | NoFs | Mounted
    | MountedReadOnly | Shared | BadRemoval | Unmountable | Ejecting

  /** The external storage can be read: it is mounted, possibly read-only.
      No other state (removed, unmounted, shared, being checked, ...) is
      readable. */
  predicate IsExternalStorageReadable(state: StorageState)
    ensures IsExternalStorageReadable(state) ==> state == Mounted || state == MountedReadOnly
    ensures state == Mounted || state == MountedReadOnly ==> IsExternalStorageReadable(state)
  {
    state in {Mounted, MountedReadOnly}
  }

  /** The external storage can be written: it is mounted read-write, which
      also makes it readable. */
  predicate IsExternalStorageWritable(state: StorageState)
    ensures IsExternalStorageWritable(state) ==> IsExternalStorageReadable(state)
    ensures IsExternalStorageWritable(state) <==> state == Mounted
  {
    state == Mounted
  }

  /** Writable storage is always readable; the two differ only on a read-only mount. */
  lemma WritableImpliesReadable(state: StorageState)
    ensures IsExternalStorageWritable(state) ==> IsExternalStorageReadable(state)
    ensures (IsExternalStorageReadable(state) && !IsExternalStorageWritable(state))
              <==> state == MountedReadOnly
  {
  }

  // ---------------------------------------------------------------------------
  // Abstract filesystem

  /** A path is its list of components; [] is the filesystem root. */
  type Path = seq<string>

  const TestFileName: string := "test.dat"

  /** The file Paths.get(rootFolder, "test.dat") names. */
  function TestFile(rootFolder: Path): Path {
    rootFolder + [TestFileName]
  }

  function Parent(p: Path): Path
    requires p != []
  {
    p[..|p| - 1]
  }

  /** The directories, the regular files with their bytes, and the paths at
      which the medium refuses to create an entry (no permission, read-only
      medium). */
  datatype FileSystem = FileSystem(dirs: set<Path>, files: map<Path, seq<bv8>>, denied: set<Path>)

  /** Every file and every directory but the root sits in a directory, and no
      path is both a file and a directory. */
  ghost predicate Valid(fs: FileSystem) {
    (forall p | p in fs.files :: p != [] && Parent(p) in fs.dirs && p !in fs.dirs) &&
    (forall p | p in fs.dirs && p != [] :: Parent(p) in fs.dirs)
  }

  /** File.exists(): true for files and directories alike. */
  predicate Exists(fs: FileSystem, p: Path) {
    p in fs.dirs || p in fs.files
  }

  predicate IsEmptyDir(fs: FileSystem, p: Path) {
    p in fs.dirs && forall q | q in fs.dirs + fs.files.Keys :: q == [] || Parent(q) != p
  }

  /** File.mkdir() succeeds: the path is new, its parent is a directory, and the
      medium allows it. */
  predicate CanMkdir(fs: FileSystem, p: Path) {
    p != [] && !Exists(fs, p) && Parent(p) in fs.dirs && p !in fs.denied
  }

  /** File.mkdir(): the new state and whether the directory was made. */
  function Mkdir(fs: FileSystem, p: Path): (FileSystem, bool) {
    if CanMkdir(fs, p) then (fs.(dirs := fs.dirs + {p}), true) else (fs, false)
  }

  /** File.delete(): removes a regular file or an empty directory; anything
      else is left as it is. */
  function Delete(fs: FileSystem, p: Path): FileSystem {
    if p in fs.files then fs.(files := fs.files - {p})
    else if IsEmptyDir(fs, p) then fs.(dirs := fs.dirs - {p})
    else fs
  }

  /** The three ways File.createNewFile() can end. */
  datatype CreateOutcome = Created | AlreadyExists | IOException

  /** File.createNewFile(): creates an empty file unless the path exists
      (returns false) or its parent is not a directory or the medium refuses
      (throws IOException). */
  function CreateNewFile(fs: FileSystem, p: Path): (FileSystem, CreateOutcome) {
    if Exists(fs, p) then (fs, AlreadyExists)
    else if p == [] || Parent(p) !in fs.dirs || p in fs.denied then (fs, IOException)
    else (fs.(files := fs.files[p := []]), Created)
  }

  /** Whether File.writeBytes / RandomAccessFile can open the path: it is not a
      directory and its parent is one. */
  predicate CanOpen(fs: FileSystem, p: Path) {
    p != [] && Parent(p) in fs.dirs && p !in fs.dirs
  }

  /** File.writeBytes(): creates or truncates the file and writes the bytes. */
  function WriteBytes(fs: FileSystem, p: Path, data: seq<bv8>): FileSystem {
    fs.(files := fs.files[p := data])
  }

  /** Writing a file that can be opened keeps the filesystem well formed, and
      deleting it afterwards leaves every other entry as it was. */
  lemma WriteBytesValid(fs: FileSystem, p: Path, data: seq<bv8>)
    requires Valid(fs) && CanOpen(fs, p)
    ensures Valid(WriteBytes(fs, p, data))
    ensures Delete(WriteBytes(fs, p, data), p) == fs.(files := fs.files - {p})
    ensures Valid(fs.(files := fs.files - {p}))
  {
    assert WriteBytes(fs, p, data).files - {p} == fs.files - {p};
  }

  /** RandomAccessFile(file, "rw"): opens the file, creating it empty when it
      is missing. */
  function OpenReadWrite(fs: FileSystem, p: Path): FileSystem {
    if p in fs.files then fs else fs.(files := fs.files[p := []])
  }

  /** The bytes a file holds; a missing file reads as empty. */
  function Content(fs: FileSystem, p: Path): seq<bv8> {
    if p in fs.files then fs.files[p] else []
  }

  /** Writing the same bytes again changes nothing. */
  lemma WriteBytesTwice(fs: FileSystem, p: Path, data: seq<bv8>)
    ensures WriteBytes(WriteBytes(fs, p, data), p, data) == WriteBytes(fs, p, data)
  {
    assert WriteBytes(WriteBytes(fs, p, data), p, data).files == WriteBytes(fs, p, data).files;
  }

  // ---------------------------------------------------------------------------
  // createTestFile

  /** The two exceptions createTestFile lets escape: its own
      Exception("Could not create test folder"), thrown when mkdir fails and
      when createNewFile returns false, and the IOException of createNewFile. */
  datatype Error = CouldNotCreate | IOError

  datatype Result<T> = Ok(value: T) | Err(error: Error)

  /** createTestFile succeeds: the folder is a directory or can be made, no
      non-empty directory is in the way of test.dat, and the medium allows
      test.dat to be created. */
  predicate TestFileCreatable(fs: FileSystem, rootFolder: Path) {
    (rootFolder in fs.dirs || CanMkdir(fs, rootFolder)) &&
    !(TestFile(rootFolder) in fs.dirs && !IsEmptyDir(fs, TestFile(rootFolder))) &&
    TestFile(rootFolder) !in fs.denied
  }

  /** The state createTestFile leaves once it has made the folder (when it
      could) and deleted any old test.dat, before createNewFile. It is also the
      state every write or read test leaves behind. */
  function Settled(fs: FileSystem, rootFolder: Path): FileSystem {
    if Exists(fs, rootFolder) then Delete(fs, TestFile(rootFolder))
    else if CanMkdir(fs, rootFolder) then
      Delete(fs.(dirs := fs.dirs + {rootFolder}), TestFile(rootFolder))
    else fs
  }

  lemma TestFileNotFolder(rootFolder: Path)
    ensures TestFile(rootFolder) != rootFolder && TestFile(rootFolder) != []
    ensures Parent(TestFile(rootFolder)) == rootFolder
  {
    assert |TestFile(rootFolder)| == |rootFolder| + 1;
  }

  /** Making the folder and deleting test.dat keep the filesystem well formed,
      leave no regular file test.dat, and touch no other file. Only a
      non-empty directory named test.dat, which File.delete() refuses to
      remove, survives. */
  lemma SettledValid(fs: FileSystem, rootFolder: Path)
    requires Valid(fs)
    ensures Valid(Settled(fs, rootFolder))
    ensures TestFile(rootFolder) !in Settled(fs, rootFolder).files
    ensures Settled(fs, rootFolder).files == fs.files - {TestFile(rootFolder)}
    ensures Settled(fs, rootFolder).denied == fs.denied
    // when test.dat can be created, nothing at all is left at its path
    ensures TestFileCreatable(fs, rootFolder) ==> !Exists(Settled(fs, rootFolder), TestFile(rootFolder))
  {
    var t := TestFile(rootFolder);
    TestFileNotFolder(rootFolder);
    if Exists(fs, rootFolder) {
      DeleteValid(fs, t);
    } else if CanMkdir(fs, rootFolder) {
      var fs1 := fs.(dirs := fs.dirs + {rootFolder});
      assert Valid(fs1);
      assert t !in fs1.files;
      DeleteValid(fs1, t);
    } else {
      assert t !in fs.files;
    }
  }

  lemma DeleteValid(fs: FileSystem, p: Path)
    requires Valid(fs)
    ensures Valid(Delete(fs, p))
  {
    if p !in fs.files && IsEmptyDir(fs, p) {
      var fs' := Delete(fs, p);
      forall q | q in fs'.dirs && q != []
        ensures Parent(q) in fs'.dirs
      {
        assert Parent(q) in fs.dirs;
        assert q in fs.dirs + fs.files.Keys;
      }
      forall q | q in fs'.files
        ensures Parent(q) in fs'.dirs
      {
        assert q in fs.dirs + fs.files.Keys;
      }
    }
  }

  /** Deleting twice is deleting once. */
  lemma DeleteIdempotent(fs: FileSystem, p: Path)
    requires Valid(fs)
    ensures Delete(Delete(fs, p), p) == Delete(fs, p)
  {
    if p in fs.files {
      assert p !in fs.dirs;
    }
  }

  /** Settling a folder a second time changes nothing: once the folder is made
      and test.dat is gone, the next test finds the folder in place and
      nothing to delete. */
  lemma SettledIdempotent(fs: FileSystem, rootFolder: Path)
    requires Valid(fs)
    ensures Settled(Settled(fs, rootFolder), rootFolder) == Settled(fs, rootFolder)
  {
    var t := TestFile(rootFolder);
    TestFileNotFolder(rootFolder);
    if Exists(fs, rootFolder) {
      DeleteIdempotent(fs, t);
    } else if CanMkdir(fs, rootFolder) {
      var fs1 := fs.(dirs := fs.dirs + {rootFolder});
      assert t !in fs1.files && t !in fs1.dirs;
      DeleteIdempotent(fs1, t);
    }
  }

  /** Whether test.dat can be created does not change once a test has settled
      the folder, so every test of a run succeeds or every one fails. */
  lemma SettledKeepsCreatable(fs: FileSystem, rootFolder: Path)
    requires Valid(fs)
    ensures TestFileCreatable(Settled(fs, rootFolder), rootFolder) == TestFileCreatable(fs, rootFolder)
  {
    var t := TestFile(rootFolder);
    TestFileNotFolder(rootFolder);
    var s := Settled(fs, rootFolder);
    if Exists(fs, rootFolder) {
      assert rootFolder in s.dirs <==> rootFolder in fs.dirs;
      if t in fs.dirs && !IsEmptyDir(fs, t) {
        assert s == fs;
      }
    } else if CanMkdir(fs, rootFolder) {
      assert t !in fs.dirs;
      assert t !in s.dirs && rootFolder in s.dirs;
    }
  }

  /** createTestFile (FileUtils.kt): make the folder when it is missing, delete
      any old test.dat, create test.dat anew, and throw when either creation
      fails. */
  method CreateTestFile(fs: FileSystem, rootFolder: Path) returns (fs': FileSystem, r: Result<Path>)
    requires Valid(fs)
    ensures Valid(fs')
    ensures r.Ok? <==> TestFileCreatable(fs, rootFolder)
    ensures r.Ok? ==> r.value == TestFile(rootFolder) &&
                      fs' == Settled(fs, rootFolder).(files := fs.files[TestFile(rootFolder) := []])
    ensures r.Err? ==> fs' == Settled(fs, rootFolder)
    ensures r == Err(CouldNotCreate) <==>
              (!Exists(fs, rootFolder) && !CanMkdir(fs, rootFolder)) ||
              (TestFile(rootFolder) in fs.dirs && !IsEmptyDir(fs, TestFile(rootFolder)))
    // a folder that could not be made leaves everything as it was
    ensures !Exists(fs, rootFolder) && !CanMkdir(fs, rootFolder) ==> fs' == fs
    // an existing folder is not made again
    ensures Exists(fs, rootFolder) ==> fs'.dirs <= fs.dirs
    // nothing but the folder and test.dat changes
    ensures fs'.dirs - {rootFolder, TestFile(rootFolder)} == fs.dirs - {rootFolder, TestFile(rootFolder)}
    ensures fs'.files - {TestFile(rootFolder)} == fs.files - {TestFile(rootFolder)}
    ensures fs'.denied == fs.denied
  {
    var file := TestFile(rootFolder);
    TestFileNotFolder(rootFolder);
    SettledValid(fs, rootFolder);
    fs' := fs;
    if !Exists(fs', rootFolder) {
      var (dirsMade, made) := Mkdir(fs', rootFolder);
      fs' := dirsMade;
      if !made {
        return fs', Err(CouldNotCreate);
      }
    }
    if Exists(fs', file) {
      fs' := Delete(fs', file);
    }
    assert fs' == Settled(fs, rootFolder);
    var (created, outcome) := CreateNewFile(fs', file);
    fs' := created;
    if outcome == AlreadyExists {
      return fs', Err(CouldNotCreate);
    } else if outcome == IOException {
      return fs', Err(IOError);
    }
    r := Ok(file);
  }
}
