/**
  The recoverable output stream to a Hadoop file system and its committer.

  Data goes to a hidden temporary file. A recoverable records the target, the temporary file
  and the position up to which the data is durable; resuming truncates the temporary file
  back to that position and appends from there. Committing publishes the temporary file
  under the target name by a rename, after checking that its length is the recorded one.

  The file system is a map from path to contents. Writes reach the file directly, so
  flushing and syncing have no effect of their own here. Whether the file system's rename
  succeeds, returns false or throws is an input of the commit.
 */
module HadoopCommitters {
  import opened Outcomes
  import opened Buffers

  type Path = string

  type FileSystem = map<Path, seq<byte>>

  /** `HadoopFsRecoverable`: where the data goes, where it is staged, and how much is durable. */
  datatype Recoverable = Recoverable(targetFile: Path, tempFile: Path, offset: nat)

  datatype Stream = Stream(targetFile: Path, tempFile: Path, pos: nat, closed: bool)

  /** The file system after an operation, and what the operation returned. */
  datatype Opened = Opened(fs: FileSystem, stream: Stream)

  /** A new stream: `create` makes an empty temporary file, replacing any old one. */
  function Create(fs: FileSystem, targetFile: Path, tempFile: Path): (r: Opened)
    ensures r.fs == fs[tempFile := []]
    ensures r.stream == Stream(targetFile, tempFile, 0, false)
  {
    Opened(fs[tempFile := []], Stream(targetFile, tempFile, 0, false))
  }

  /**
    The file system's `truncate`: only an existing file can be truncated, and only to a
    length it has.
   */
  function Truncate(fs: FileSystem, path: Path, length: int): (r: Result<FileSystem>)
    ensures r.Ok? <==> path in fs && 0 <= length <= |fs[path]|
    ensures r.Ok? ==> r.value.Keys == fs.Keys && |r.value[path]| == length
    ensures r.Ok? ==> r.value[path] == fs[path][..length]
    ensures r.Ok? ==> forall p :: p in fs && p != path ==> r.value[p] == fs[p]
  {
    if path !in fs then Err(IOFailure("File does not exist"))
    else if length < 0 || length > |fs[path]| then Err(IllegalArgument("Cannot truncate to a larger file size"))
    else Ok(fs[path := fs[path][..length]])
  }

  /** The resuming constructor: truncate back to the recoverable's offset, then append. */
  function Resume(fs: FileSystem, recoverable: Recoverable): (r: Result<Opened>)
    ensures r.Ok? <==> recoverable.tempFile in fs && recoverable.offset <= |fs[recoverable.tempFile]|
    ensures r.Ok? ==> r.value.stream == Stream(recoverable.targetFile, recoverable.tempFile, recoverable.offset, false)
    ensures r.Ok? ==> r.value.fs.Keys == fs.Keys
    ensures r.Ok? ==> r.value.fs[recoverable.tempFile] == fs[recoverable.tempFile][..recoverable.offset]
    ensures r.Ok? ==> r.value.stream.pos == |r.value.fs[recoverable.tempFile]|
  {
    var truncated :- Truncate(fs, recoverable.tempFile, recoverable.offset);
    Ok(Opened(truncated, Stream(recoverable.targetFile, recoverable.tempFile, recoverable.offset, false)))
  }

  /** `write`: appends to the temporary file and advances the position. */
  function Write(fs: FileSystem, s: Stream, data: seq<byte>): (r: Result<Opened>)
    ensures r.Ok? <==> !s.closed && s.tempFile in fs
    ensures r.Ok? ==> r.value.fs == fs[s.tempFile := fs[s.tempFile] + data]
    ensures r.Ok? ==> r.value.stream == s.(pos := s.pos + |data|)
  {
    if s.closed || s.tempFile !in fs then Err(IOFailure("Stream closed"))
    else Ok(Opened(fs[s.tempFile := fs[s.tempFile] + data], s.(pos := s.pos + |data|)))
  }

  /** `persist`: everything written so far becomes recoverable. */
  function Persist(s: Stream): (r: Result<Recoverable>)
    ensures r.Ok? <==> !s.closed
    ensures r.Ok? ==> r.value.targetFile == s.targetFile && r.value.tempFile == s.tempFile && r.value.offset == s.pos
  {
    if s.closed then Err(IOFailure("Stream closed")) else Ok(Recoverable(s.targetFile, s.tempFile, s.pos))
  }

  datatype Closed = Closed(stream: Stream, committer: Recoverable)

  /** `closeForCommit`: the committer expects the length the stream had when it was closed. */
  function CloseForCommit(s: Stream): (r: Closed)
    ensures r.stream.closed
    ensures r.committer == Recoverable(s.targetFile, s.tempFile, s.pos)
  {
    Closed(s.(closed := true), Recoverable(s.targetFile, s.tempFile, s.pos))
  }

  /** What the file system's `rename` did: moved the file, declined with `false`, or threw. */
  datatype Rename = Renamed | Declined | Failed

  /** `rename(src, dest)` on the map, when it happens. */
  function Move(fs: FileSystem, src: Path, dest: Path): (r: FileSystem)
    requires src in fs
    ensures dest in r && r[dest] == fs[src]
    ensures src != dest ==> src !in r
    ensures forall p :: p != src && p != dest ==> (p in r <==> p in fs) && (p in fs ==> r[p] == fs[p])
  {
    (fs - {src})[dest := fs[src]]
  }

  datatype Committed = Committed(fs: FileSystem, result: Result<()>)

  /**
    `commit`: the staging file must exist and have exactly the expected length; then it is
    renamed to the target. A rename that returns `false` is not checked.
   */
  function Commit(fs: FileSystem, recoverable: Recoverable, rename: Rename): (r: Committed)
    ensures recoverable.tempFile !in fs ==>
      r == Committed(fs, Err(IOFailure("Cannot clean commit: Staging file does not exist.")))
    ensures recoverable.tempFile in fs && |fs[recoverable.tempFile]| != recoverable.offset ==>
      r == Committed(fs, Err(IOFailure("Cannot clean commit: File has trailing junk data.")))
    ensures r.result.Ok? <==> recoverable.tempFile in fs && |fs[recoverable.tempFile]| == recoverable.offset && !rename.Failed?
    ensures r.fs != fs ==> rename.Renamed? && recoverable.tempFile in fs && |fs[recoverable.tempFile]| == recoverable.offset
    ensures rename.Renamed? && r.result.Ok? ==>
      && recoverable.targetFile in r.fs
      && |r.fs[recoverable.targetFile]| == recoverable.offset
      && r.fs[recoverable.targetFile] == fs[recoverable.tempFile]
      && (recoverable.tempFile != recoverable.targetFile ==> recoverable.tempFile !in r.fs)
  {
    var src := recoverable.tempFile;
    var dest := recoverable.targetFile;
    if src !in fs then Committed(fs, Err(IOFailure("Cannot clean commit: Staging file does not exist.")))
    else if |fs[src]| != recoverable.offset then Committed(fs, Err(IOFailure("Cannot clean commit: File has trailing junk data.")))
    else match rename
      case Renamed => Committed(Move(fs, src, dest), Ok(()))
      case Declined => Committed(fs, Ok(()))
      case Failed => Committed(fs, Err(IOFailure("Committing file by rename failed: " + src + " to " + dest)))
  }

  /**
    `commitAfterRecovery` as written: trailing junk is truncated away, but the staging file is
    never renamed. `statusFails` is whether looking up the staging file failed other than by
    its absence. When neither file exists nothing happens.
   */
  function CommitAfterRecoveryAsWritten(fs: FileSystem, recoverable: Recoverable, statusFails: bool): (r: Committed)
    ensures statusFails ==>
      r == Committed(fs, Err(IOFailure("Committing during recovery failed: Could not access status of source file.")))
    ensures !statusFails ==> r.result.Ok? && r.fs.Keys == fs.Keys
    ensures !statusFails && recoverable.tempFile in fs && |fs[recoverable.tempFile]| > recoverable.offset ==>
      r.fs == fs[recoverable.tempFile := fs[recoverable.tempFile][..recoverable.offset]]
    ensures !statusFails && (recoverable.tempFile !in fs || |fs[recoverable.tempFile]| <= recoverable.offset) ==> r.fs == fs
  {
    var src := recoverable.tempFile;
    if statusFails then Committed(fs, Err(IOFailure("Committing during recovery failed: Could not access status of source file.")))
    else if src in fs && |fs[src]| > recoverable.offset then Committed(fs[src := fs[src][..recoverable.offset]], Ok(()))
    else Committed(fs, Ok(()))
  }

  /**
    After a crash between `persist` and the commit, recovering for commit does not publish the
    data: the target stays missing.
   */
  lemma CommitAfterRecoveryAsWrittenLeavesTargetMissing()
    ensures var fs: FileSystem := map["part-0.inprogress" := [1, 2, 3]];
      && "part-0" !in fs
      && "part-0" !in CommitAfterRecoveryAsWritten(fs, Recoverable("part-0", "part-0.inprogress", 2), false).fs
  {
    var fs: FileSystem := map["part-0.inprogress" := [1, 2, 3]];
    var r := CommitAfterRecoveryAsWritten(fs, Recoverable("part-0", "part-0.inprogress", 2), false);
    assert r.fs.Keys == fs.Keys;
    assert "part-0" !in fs.Keys;
  }

  /**
    `commitAfterRecovery` as intended: trailing junk is truncated away and the staging file is
    then renamed over the target. When the staging file is gone the commit already happened,
    or the files were lost; either way nothing is done.
   */
  function CommitAfterRecovery(fs: FileSystem, recoverable: Recoverable, statusFails: bool, rename: Rename): (r: Committed)
    ensures statusFails ==> r == CommitAfterRecoveryAsWritten(fs, recoverable, statusFails)
    ensures !statusFails && recoverable.tempFile !in fs ==> r == Committed(fs, Ok(()))
    ensures !statusFails && recoverable.tempFile in fs ==> (r.result.Ok? <==> !rename.Failed?)
    ensures !statusFails && recoverable.tempFile in fs && rename.Renamed? ==>
      && recoverable.targetFile in r.fs
      && r.fs[recoverable.targetFile] == fs[recoverable.tempFile][..Min(recoverable.offset, |fs[recoverable.tempFile]|)]
      && (recoverable.tempFile != recoverable.targetFile ==> recoverable.tempFile !in r.fs)
    ensures !statusFails && recoverable.tempFile in fs && !rename.Renamed? ==>
      r.fs == CommitAfterRecoveryAsWritten(fs, recoverable, statusFails).fs
  {
    var src := recoverable.tempFile;
    var dest := recoverable.targetFile;
    var truncated := CommitAfterRecoveryAsWritten(fs, recoverable, statusFails);
    if truncated.result.Err? || src !in fs then truncated
    else match rename
      case Renamed => Committed(Move(truncated.fs, src, dest), Ok(()))
      case Declined => truncated
      case Failed => Committed(truncated.fs, Err(IOFailure("Committing file by rename failed: " + src + " to " + dest)))
  }

  function Min(a: int, b: int): int {
    if a < b then a else b
  }

  /**
    Recovery publishes exactly the persisted data: whatever junk was written after the
    recoverable was taken, committing after recovery leaves the target holding the staged
    prefix of the recorded length and removes the staging file.
   */
  lemma RecoveredCommitPublishesPersisted(fs: FileSystem, recoverable: Recoverable)
    requires recoverable.tempFile in fs && |fs[recoverable.tempFile]| >= recoverable.offset
    requires recoverable.tempFile != recoverable.targetFile
    ensures var r := CommitAfterRecovery(fs, recoverable, false, Renamed);
      && r.result.Ok?
      && recoverable.targetFile in r.fs
      && r.fs[recoverable.targetFile] == fs[recoverable.tempFile][..recoverable.offset]
      && recoverable.tempFile !in r.fs
  {
    var truncated := CommitAfterRecoveryAsWritten(fs, recoverable, false);
    assert truncated.fs[recoverable.tempFile] == fs[recoverable.tempFile][..recoverable.offset];
  }

  /**
    Recovery after a commit that went through is harmless: the staging file is gone, so the
    recovered commit changes nothing and reports success.
   */
  lemma RecoveryAfterCommitIsNoop(fs: FileSystem, recoverable: Recoverable, rename: Rename)
    requires recoverable.tempFile != recoverable.targetFile
    requires rename.Renamed? && Commit(fs, recoverable, rename).result.Ok?
    ensures var done := Commit(fs, recoverable, rename).fs;
      CommitAfterRecovery(done, recoverable, false, rename) == Committed(done, Ok(()))
  {
  }

  /**
    The whole life of a part file: data written, persisted, followed by junk and a crash; the
    stream resumed from the recoverable continues at the persisted position, and closing it
    for commit and committing publishes exactly the persisted data plus what the resumed
    stream wrote.
   */
  lemma {:induction false} PersistResumeCommitRoundTrip(fs: FileSystem, targetFile: Path, tempFile: Path, data: seq<byte>, junk: seq<byte>, more: seq<byte>)
    requires targetFile != tempFile
    ensures
      var o1 := Create(fs, targetFile, tempFile);
      var w1 := Write(o1.fs, o1.stream, data);
      && w1.Ok?
      && Persist(w1.value.stream).Ok?
      && var rec := Persist(w1.value.stream).value;
      var w2 := Write(w1.value.fs, w1.value.stream, junk);
      && w2.Ok?
      && var resumed := Resume(w2.value.fs, rec);
      && resumed.Ok?
      && resumed.value.stream.pos == |data|
      && var w3 := Write(resumed.value.fs, resumed.value.stream, more);
      && w3.Ok?
      && var committer := CloseForCommit(w3.value.stream).committer;
      var done := Commit(w3.value.fs, committer, Renamed);
      && done.result.Ok?
      && targetFile in done.fs
      && done.fs[targetFile] == data + more
      && tempFile !in done.fs
  {
    var o1 := Create(fs, targetFile, tempFile);
    var w1 := Write(o1.fs, o1.stream, data);
    assert w1.value.fs[tempFile] == data;
    var rec := Persist(w1.value.stream).value;
    assert rec.offset == |data|;
    var w2 := Write(w1.value.fs, w1.value.stream, junk);
    assert w2.value.fs[tempFile] == data + junk;
    var resumed := Resume(w2.value.fs, rec);
    assert (data + junk)[..|data|] == data;
    assert resumed.value.fs[tempFile] == data;
    var w3 := Write(resumed.value.fs, resumed.value.stream, more);
    assert w3.value.fs[tempFile] == data + more;
    assert w3.value.stream.pos == |data + more|;
  }
}
