/**
  The document-set processing loop (sync_docs.py, process_source_documents).
  For every document set with a target directory, the set directory is created;
  for every file pattern the target's sub-directory is created, and a regular
  source file is read, normalised and written to the target.  Failures are
  isolated per set and per file.
 */
module DocumentPipeline {
  import opened Wrappers
  import opened Yaml
  import opened Paths
  import opened FileSystem
  import opened FrontMatter

  /** One entry of a source's `documents` list (`image_dirs` is never read). */
  datatype DocSet = DocSet(baseRepoPath: string, targetDir: Option<string>, markdownFiles: seq<string>)

  /** The source descriptor as the driver hands it over, `repo_local_path` included. */
  datatype SourceConfig = SourceConfig(
    repoLocalPath: Option<Path>,
    defaultFrontMatter: Entries,
    documents: seq<DocSet>)

  /** What happened to one document set or one file pattern, in processing order. */
  datatype Event =
    | SetSkippedNoTarget                        // 'target_dir' missing or empty
    | SetDirFailed(dir: Path)                   // creating the set directory raised
    | SubDirFailed(subdir: Path)                // creating the file's sub-directory raised
    | SourceMissing(source: Path)               // not an existing regular file
    | ProcessingFailed(source: Path, target: Path)  // reading or writing raised
    | Written(source: Path, target: Path)

  datatype Run = Run(fs: FsState, events: seq<Event>)

  datatype Step = Step(fs: FsState, event: Event)

  /** `not s` for an optional string. */
  predicate Missing(s: Option<string>) {
    s.None? || s.value == ""
  }

  function SetDir(docsRoot: Path, targetDir: string): Path {
    Join(docsRoot, StripSep(targetDir))
  }

  // ---------------------------------------------------------------------------
  // The reference definition, one step at a time.

  /** One file pattern of a document set. */
  function FileStep(fs: FsState, sourceBase: Path, setDir: Path, pattern: Path,
                    defaults: Entries, serialize: Value -> string): Step
  {
    var source := Join(sourceBase, pattern);
    var target := Join(setDir, pattern);
    var subdir := DirName(target);
    if !Exists(fs, subdir) && MakeDirsFails(fs, subdir) then Step(fs, SubDirFailed(subdir))
    else
      var fs1 := if Exists(fs, subdir) then fs else MakeDirsEffect(fs, subdir);
      if !IsFile(fs1, source) then Step(fs1, SourceMissing(source))
      else if fs1.files[source].Undecodable? || OpenForWriteFails(fs1, target) then
        Step(fs1, ProcessingFailed(source, target))
      else
        var text := Normalise(fs1.files[source].text, defaults, pattern, serialize);
        Step(WriteEffect(fs1, target, text), Written(source, target))
  }

  /** The file patterns of one set, in order. */
  function FilesRun(fs: FsState, sourceBase: Path, setDir: Path, patterns: seq<Path>,
                    defaults: Entries, serialize: Value -> string): (r: Run)
    decreases |patterns|
  {
    if |patterns| == 0 then Run(fs, [])
    else
      var before := FilesRun(fs, sourceBase, setDir, patterns[..|patterns| - 1], defaults, serialize);
      var step := FileStep(before.fs, sourceBase, setDir, patterns[|patterns| - 1], defaults, serialize);
      Run(step.fs, before.events + [step.event])
  }

  /** One document set. */
  function SetRun(fs: FsState, repoPath: Path, docsRoot: Path, d: DocSet,
                  defaults: Entries, serialize: Value -> string): Run
  {
    if Missing(d.targetDir) then Run(fs, [SetSkippedNoTarget])
    else
      var setDir := SetDir(docsRoot, d.targetDir.value);
      if MakeDirsFails(fs, setDir) then Run(fs, [SetDirFailed(setDir)])
      else FilesRun(MakeDirsEffect(fs, setDir), Join(repoPath, d.baseRepoPath), setDir,
                    d.markdownFiles, defaults, serialize)
  }

  /** The document sets of a source, in order. */
  function SetsRun(fs: FsState, repoPath: Path, docsRoot: Path, sets: seq<DocSet>,
                   defaults: Entries, serialize: Value -> string): Run
    decreases |sets|
  {
    if |sets| == 0 then Run(fs, [])
    else
      var before := SetsRun(fs, repoPath, docsRoot, sets[..|sets| - 1], defaults, serialize);
      var step := SetRun(before.fs, repoPath, docsRoot, sets[|sets| - 1], defaults, serialize);
      Run(step.fs, before.events + step.events)
  }

  function SourceRun(fs: FsState, src: SourceConfig, docsRoot: Path, serialize: Value -> string): Run {
    if Missing(src.repoLocalPath) then Run(fs, [])
    else SetsRun(fs, src.repoLocalPath.value, docsRoot, src.documents, src.defaultFrontMatter, serialize)
  }

  predicate AnyWritten(events: seq<Event>) {
    exists i :: 0 <= i < |events| && events[i].Written?
  }

  // ---------------------------------------------------------------------------
  // The loop as the script runs it.

  /** The body of the inner loop for one file pattern. */
  method ProcessFile(disk: Disk, sourceBase: Path, setDir: Path, pattern: Path,
                     defaults: Entries, serialize: Value -> string)
    returns (written: bool, ghost e: Event)
    modifies disk
    ensures Step(disk.State(), e) == FileStep(old(disk.State()), sourceBase, setDir, pattern, defaults, serialize)
    ensures written == e.Written?
  {
    var source := Join(sourceBase, pattern);
    var target := Join(setDir, pattern);
    var subdir := DirName(target);
    written := false;
    if !disk.PathExists(subdir) {
      var ok := disk.MakeDirs(subdir);
      if !ok {
        e := SubDirFailed(subdir);
        return;
      }
    }
    if !disk.IsRegularFile(source) {
      e := SourceMissing(source);
      return;
    }
    var content := disk.ReadText(source);
    if content.None? {
      e := ProcessingFailed(source, target);
      return;
    }
    var finalContent := NormaliseContent(content.value, defaults, pattern, serialize);
    var ok := disk.WriteText(target, finalContent);
    if !ok {
      e := ProcessingFailed(source, target);
      return;
    }
    written := true;
    e := Written(source, target);
  }

  /** The inner loop over the file patterns of one set. */
  method ProcessFiles(disk: Disk, sourceBase: Path, setDir: Path, patterns: seq<Path>,
                      defaults: Entries, serialize: Value -> string)
    returns (wroteAny: bool, ghost events: seq<Event>)
    modifies disk
    ensures Run(disk.State(), events) == FilesRun(old(disk.State()), sourceBase, setDir, patterns, defaults, serialize)
    ensures wroteAny == AnyWritten(events)
  {
    wroteAny := false;
    events := [];
    for f := 0 to |patterns|
      invariant Run(disk.State(), events) ==
                  FilesRun(old(disk.State()), sourceBase, setDir, patterns[..f], defaults, serialize)
      invariant wroteAny == AnyWritten(events)
    {
      assert patterns[..f + 1][..f] == patterns[..f];
      var written, e := ProcessFile(disk, sourceBase, setDir, patterns[f], defaults, serialize);
      AnyWrittenAppend(events, [e]);
      assert AnyWritten([e]) == e.Written? by { assert [e][0] == e; }
      events := events + [e];
      if written {
        wroteAny := true;
      }
    }
    assert patterns[..|patterns|] == patterns;
  }

  /** The body of the outer loop for one document set; wroteAny tells whether one of
      its files was written. */
  method ProcessDocSet(disk: Disk, repoPath: Path, docsRoot: Path, d: DocSet,
                       defaults: Entries, serialize: Value -> string)
    returns (wroteAny: bool, ghost setEvents: seq<Event>)
    modifies disk
    ensures Run(disk.State(), setEvents) == SetRun(old(disk.State()), repoPath, docsRoot, d, defaults, serialize)
    ensures wroteAny == AnyWritten(setEvents)
  {
    if Missing(d.targetDir) {
      return false, [SetSkippedNoTarget];
    }
    var setDir := SetDir(docsRoot, d.targetDir.value);
    var ok := disk.MakeDirs(setDir);
    if !ok {
      return false, [SetDirFailed(setDir)];
    }
    wroteAny, setEvents := ProcessFiles(disk, Join(repoPath, d.baseRepoPath), setDir, d.markdownFiles,
                                        defaults, serialize);
  }

  /** process_source_documents: true when at least one target file was written. */
  method ProcessSourceDocuments(disk: Disk, src: SourceConfig, docsRoot: Path, serialize: Value -> string)
    returns (processed: bool)
    modifies disk
    ensures disk.State() == SourceRun(old(disk.State()), src, docsRoot, serialize).fs
    ensures processed == AnyWritten(SourceRun(old(disk.State()), src, docsRoot, serialize).events)
  {
    if Missing(src.repoLocalPath) {
      return false;
    }
    var repoPath := src.repoLocalPath.value;
    var defaults := src.defaultFrontMatter;
    processed := false;
    ghost var start := disk.State();
    ghost var events: seq<Event> := [];
    for s := 0 to |src.documents|
      invariant Run(disk.State(), events) == SetsRun(start, repoPath, docsRoot, src.documents[..s], defaults, serialize)
      invariant processed == AnyWritten(events)
    {
      assert src.documents[..s + 1][..s] == src.documents[..s];
      var wroteAny, setEvents := ProcessDocSet(disk, repoPath, docsRoot, src.documents[s], defaults, serialize);
      AnyWrittenAppend(events, setEvents);
      events := events + setEvents;
      if wroteAny {
        processed := true;
      }
    }
    assert src.documents[..|src.documents|] == src.documents;
  }

  lemma AnyWrittenAppend(a: seq<Event>, b: seq<Event>)
    ensures AnyWritten(a + b) <==> AnyWritten(a) || AnyWritten(b)
  {
    if AnyWritten(a) {
      var i :| 0 <= i < |a| && a[i].Written?;
      assert (a + b)[i] == a[i];
    }
    if AnyWritten(b) {
      var i :| 0 <= i < |b| && b[i].Written?;
      assert (a + b)[|a| + i] == b[i];
    }
    if AnyWritten(a + b) {
      var i :| 0 <= i < |a + b| && (a + b)[i].Written?;
      if i >= |a| { assert b[i - |a|].Written?; }
    }
  }
}

module DocumentPipelineProperties {
  import opened Yaml
  import opened Paths
  import opened FileSystem
  import opened FrontMatter
  import opened DocumentPipeline

  /** The event reports on the file pattern whose source and target paths are given. */
  predicate About(e: Event, source: Path, target: Path) {
    match e
    case SubDirFailed(subdir) => subdir == DirName(target)
    case SourceMissing(s) => s == source
    case ProcessingFailed(s, t) => s == source && t == target
    case Written(s, t) => s == source && t == target
    case _ => false
  }

  /** The paths some Written event wrote to. */
  function WrittenTargets(events: seq<Event>): set<Path> {
    set i | 0 <= i < |events| && events[i].Written? :: events[i].target
  }

  /** One file: only a Written outcome changes a regular file, and it stores the
      normalised text of the source at the target path. */
  lemma FileStepEffect(fs: FsState, sourceBase: Path, setDir: Path, pattern: Path,
                       defaults: Entries, serialize: Value -> string)
    ensures var step := FileStep(fs, sourceBase, setDir, pattern, defaults, serialize);
            var source := Join(sourceBase, pattern);
            var target := Join(setDir, pattern);
            && About(step.event, source, target)
            && fs.dirs <= step.fs.dirs
            && (Valid(fs) ==> Valid(step.fs))
            && (!step.event.Written? ==> step.fs.files == fs.files)
            && (step.event.Written? ==>
                  && source in fs.files && fs.files[source].Text?
                  && step.fs.files == fs.files[target := Text(Normalise(fs.files[source].text, defaults, pattern, serialize))])
  {
    var source := Join(sourceBase, pattern);
    var target := Join(setDir, pattern);
    var subdir := DirName(target);
    if Exists(fs, subdir) || !MakeDirsFails(fs, subdir) {
      var fs1 := if Exists(fs, subdir) then fs else MakeDirsEffect(fs, subdir);
      assert fs1.files == fs.files && fs.dirs <= fs1.dirs;
      assert Valid(fs) ==> Valid(fs1);
      if IsFile(fs1, source) && fs1.files[source].Text? && !OpenForWriteFails(fs1, target) {
        var text := Normalise(fs1.files[source].text, defaults, pattern, serialize);
        assert FileStep(fs, sourceBase, setDir, pattern, defaults, serialize) ==
               Step(WriteEffect(fs1, target, text), Written(source, target));
        if Valid(fs) { WriteKeepsValid(fs1, target, text); }
      } else {
        assert FileStep(fs, sourceBase, setDir, pattern, defaults, serialize).fs == fs1;
      }
    }
  }

  /** A missing or non-regular source never leads to a write, yet the target's
      sub-directory is created first whenever that is possible. */
  lemma MissingSourceNoWrite(fs: FsState, sourceBase: Path, setDir: Path, pattern: Path,
                             defaults: Entries, serialize: Value -> string)
    requires Join(sourceBase, pattern) !in fs.files
    ensures var step := FileStep(fs, sourceBase, setDir, pattern, defaults, serialize);
            && step.fs.files == fs.files
            && (step.event.SourceMissing? || step.event.SubDirFailed?)
            && (!MakeDirsFails(fs, DirName(Join(setDir, pattern))) ==>
                  step.event.SourceMissing? && DirName(Join(setDir, pattern)) in step.fs.dirs)
  {
  }

  /** Event i is about pattern i, for every pattern. */
  predicate AllAbout(events: seq<Event>, sourceBase: Path, setDir: Path, patterns: seq<Path>) {
    && |events| == |patterns|
    && forall i :: 0 <= i < |patterns| ==>
         About(events[i], Join(sourceBase, patterns[i]), Join(setDir, patterns[i]))
  }

  lemma AllAboutSnoc(events: seq<Event>, e: Event, sourceBase: Path, setDir: Path, patterns: seq<Path>, p: Path)
    requires AllAbout(events, sourceBase, setDir, patterns)
    requires About(e, Join(sourceBase, p), Join(setDir, p))
    ensures AllAbout(events + [e], sourceBase, setDir, patterns + [p])
  {
    var es, ps := events + [e], patterns + [p];
    forall i | 0 <= i < |ps| ensures About(es[i], Join(sourceBase, ps[i]), Join(setDir, ps[i])) {
      if i < |patterns| { assert es[i] == events[i] && ps[i] == patterns[i]; }
    }
  }

  /** Per-file isolation: every pattern of a set gets exactly one outcome, in order,
      whatever happened to the patterns before it. */
  lemma {:induction false} FilesRunOutcomes(fs: FsState, sourceBase: Path, setDir: Path, patterns: seq<Path>,
                                            defaults: Entries, serialize: Value -> string)
    ensures AllAbout(FilesRun(fs, sourceBase, setDir, patterns, defaults, serialize).events, sourceBase, setDir, patterns)
    decreases |patterns|
  {
    if |patterns| > 0 {
      var n := |patterns| - 1;
      FilesRunOutcomes(fs, sourceBase, setDir, patterns[..n], defaults, serialize);
      var before := FilesRun(fs, sourceBase, setDir, patterns[..n], defaults, serialize);
      var step := FileStep(before.fs, sourceBase, setDir, patterns[n], defaults, serialize);
      FileStepEffect(before.fs, sourceBase, setDir, patterns[n], defaults, serialize);
      AllAboutSnoc(before.events, step.event, sourceBase, setDir, patterns[..n], patterns[n]);
      assert patterns[..n] + [patterns[n]] == patterns;
    }
  }

  /** The files no Written event targets keep their state; directories only grow and
      no path becomes both a file and a directory. */
  ghost predicate Frames(before: FsState, after: FsState, events: seq<Event>) {
    && before.dirs <= after.dirs
    && (Valid(before) ==> Valid(after))
    && forall p :: p !in WrittenTargets(events) ==>
         (p in after.files <==> p in before.files) && (p in before.files ==> after.files[p] == before.files[p])
  }

  lemma WrittenTargetsAppend(e1: seq<Event>, e2: seq<Event>)
    ensures WrittenTargets(e1 + e2) == WrittenTargets(e1) + WrittenTargets(e2)
  {
    forall p | p in WrittenTargets(e1 + e2) ensures p in WrittenTargets(e1) + WrittenTargets(e2) {
      var i :| 0 <= i < |e1 + e2| && (e1 + e2)[i].Written? && (e1 + e2)[i].target == p;
      if i < |e1| { assert e1[i] == (e1 + e2)[i]; } else { assert e2[i - |e1|] == (e1 + e2)[i]; }
    }
    forall p | p in WrittenTargets(e1) ensures p in WrittenTargets(e1 + e2) {
      var i :| 0 <= i < |e1| && e1[i].Written? && e1[i].target == p;
      assert (e1 + e2)[i] == e1[i];
    }
    forall p | p in WrittenTargets(e2) ensures p in WrittenTargets(e1 + e2) {
      var i :| 0 <= i < |e2| && e2[i].Written? && e2[i].target == p;
      assert (e1 + e2)[|e1| + i] == e2[i];
    }
  }

  lemma FramesCompose(a: FsState, b: FsState, c: FsState, e1: seq<Event>, e2: seq<Event>)
    requires Frames(a, b, e1) && Frames(b, c, e2)
    ensures Frames(a, c, e1 + e2)
  {
    WrittenTargetsAppend(e1, e2);
  }

  lemma {:induction false} FilesRunFrames(fs: FsState, sourceBase: Path, setDir: Path, patterns: seq<Path>,
                                          defaults: Entries, serialize: Value -> string)
    ensures var r := FilesRun(fs, sourceBase, setDir, patterns, defaults, serialize);
            Frames(fs, r.fs, r.events)
    decreases |patterns|
  {
    if |patterns| > 0 {
      var n := |patterns| - 1;
      FilesRunFrames(fs, sourceBase, setDir, patterns[..n], defaults, serialize);
      var before := FilesRun(fs, sourceBase, setDir, patterns[..n], defaults, serialize);
      var step := FileStep(before.fs, sourceBase, setDir, patterns[n], defaults, serialize);
      FileStepEffect(before.fs, sourceBase, setDir, patterns[n], defaults, serialize);
      assert Frames(before.fs, step.fs, [step.event]) by {
        if step.event.Written? {
          assert WrittenTargets([step.event]) == {Join(setDir, patterns[n])} by {
            assert [step.event][0] == step.event;
          }
        }
      }
      FramesCompose(fs, before.fs, step.fs, before.events, [step.event]);
    }
  }

  lemma SetRunFrames(fs: FsState, repoPath: Path, docsRoot: Path, d: DocSet,
                     defaults: Entries, serialize: Value -> string)
    ensures var r := SetRun(fs, repoPath, docsRoot, d, defaults, serialize);
            Frames(fs, r.fs, r.events)
  {
    if !Missing(d.targetDir) {
      var setDir := SetDir(docsRoot, d.targetDir.value);
      if !MakeDirsFails(fs, setDir) {
        var fs1 := MakeDirsEffect(fs, setDir);
        if Valid(fs) { MakeDirsKeepsValid(fs, setDir); }
        FilesRunFrames(fs1, Join(repoPath, d.baseRepoPath), setDir, d.markdownFiles, defaults, serialize);
      }
    }
  }

  lemma {:induction false} SetsRunFrames(fs: FsState, repoPath: Path, docsRoot: Path, sets: seq<DocSet>,
                                         defaults: Entries, serialize: Value -> string)
    ensures var r := SetsRun(fs, repoPath, docsRoot, sets, defaults, serialize);
            Frames(fs, r.fs, r.events)
    decreases |sets|
  {
    if |sets| > 0 {
      var n := |sets| - 1;
      SetsRunFrames(fs, repoPath, docsRoot, sets[..n], defaults, serialize);
      var before := SetsRun(fs, repoPath, docsRoot, sets[..n], defaults, serialize);
      SetRunFrames(before.fs, repoPath, docsRoot, sets[n], defaults, serialize);
      var step := SetRun(before.fs, repoPath, docsRoot, sets[n], defaults, serialize);
      FramesCompose(fs, before.fs, step.fs, before.events, step.events);
    }
  }

  /** A whole source: the returned flag is true exactly when some target file was
      written, and every regular file that is not such a target is left as it was. */
  lemma SourceRunFrames(fs: FsState, src: SourceConfig, docsRoot: Path, serialize: Value -> string)
    ensures var r := SourceRun(fs, src, docsRoot, serialize);
            && Frames(fs, r.fs, r.events)
            && (AnyWritten(r.events) <==> WrittenTargets(r.events) != {})
            && (Missing(src.repoLocalPath) ==> r.fs == fs && !AnyWritten(r.events))
  {
    var r := SourceRun(fs, src, docsRoot, serialize);
    if !Missing(src.repoLocalPath) {
      SetsRunFrames(fs, src.repoLocalPath.value, docsRoot, src.documents, src.defaultFrontMatter, serialize);
    }
    if AnyWritten(r.events) {
      var i :| 0 <= i < |r.events| && r.events[i].Written?;
      assert r.events[i].target in WrittenTargets(r.events);
    }
  }

  /** A set without a target directory produces one warning and touches nothing. */
  lemma SetWithoutTargetSkipped(fs: FsState, repoPath: Path, docsRoot: Path, d: DocSet,
                                defaults: Entries, serialize: Value -> string)
    requires Missing(d.targetDir)
    ensures SetRun(fs, repoPath, docsRoot, d, defaults, serialize) == Run(fs, [SetSkippedNoTarget])
  {
  }
}
