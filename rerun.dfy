/**
  Running the document-set processing of a source a second time, over the trees the
  first run left behind, changes nothing.  This needs the filesystem to be valid and
  the source's file patterns to be independent: two patterns with the same target
  are the same pattern of the same set, and no target is the source of another
  pattern.

  The proof gives every file pattern a "settled" fact about the filesystem.  The
  first run establishes it for each pattern in turn, every later step keeps it, and
  a settled pattern's step leaves the filesystem as it is.
 */
module PipelineRerun {
  import opened Yaml
  import opened Paths
  import opened FileSystem
  import opened FrontMatter
  import opened DocumentPipeline
  import opened DocumentPipelineProperties

  /** One file pattern of one document set: where it is read from and written to. */
  datatype Job = Job(sourceBase: Path, setDir: Path, pattern: Path)

  function Source(j: Job): Path {
    Join(j.sourceBase, j.pattern)
  }

  function Target(j: Job): Path {
    Join(j.setDir, j.pattern)
  }

  /** The file patterns of the document sets that have a target directory. */
  ghost function Jobs(repoPath: Path, docsRoot: Path, sets: seq<DocSet>): set<Job> {
    set d, p | d in sets && !Missing(d.targetDir) && p in d.markdownFiles ::
      Job(Join(repoPath, d.baseRepoPath), SetDir(docsRoot, d.targetDir.value), p)
  }

  /** Two patterns with the same target are one pattern, and no target is the source
      of another pattern. */
  ghost predicate SafeJobs(jobs: set<Job>) {
    forall a, b :: a in jobs && b in jobs ==>
      (Target(a) == Target(b) ==> a == b) && (a != b ==> Target(a) != Source(b))
  }

  ghost predicate PatternsIn(sourceBase: Path, setDir: Path, patterns: seq<Path>, jobs: set<Job>) {
    forall p :: p in patterns ==> Job(sourceBase, setDir, p) in jobs
  }

  ghost predicate SetJobsIn(repoPath: Path, docsRoot: Path, d: DocSet, jobs: set<Job>) {
    !Missing(d.targetDir) ==>
      PatternsIn(Join(repoPath, d.baseRepoPath), SetDir(docsRoot, d.targetDir.value), d.markdownFiles, jobs)
  }

  /** The pattern's step can no longer do anything: its sub-directory can never be
      created, or it exists and the source is missing or undecodable, the target
      cannot be opened, or the target already holds the normalised source. */
  ghost predicate Settled(t: FsState, j: Job, defaults: Entries, serialize: Value -> string) {
    var source, target := Source(j), Target(j);
    var subdir := DirName(target);
    || (subdir !in t.dirs && MakeDirsFails(t, subdir) && (subdir == "" ==> subdir !in t.files))
    || (&& Exists(t, subdir)
        && (|| source !in t.files
            || t.files[source].Undecodable?
            || OpenForWriteFails(t, target)
            || (target in t.files &&
                t.files[target] == Text(Normalise(t.files[source].text, defaults, j.pattern, serialize)))))
  }

  /** A document set can no longer do anything: it has no target directory, its
      directory cannot be created, or the directory exists and every pattern is settled. */
  ghost predicate SetSettled(t: FsState, repoPath: Path, docsRoot: Path, d: DocSet,
                             defaults: Entries, serialize: Value -> string) {
    || Missing(d.targetDir)
    || MakeDirsFails(t, SetDir(docsRoot, d.targetDir.value))
    || (var setDir := SetDir(docsRoot, d.targetDir.value);
        && {setDir} + Ancestors(setDir) <= t.dirs
        && forall p :: p in d.markdownFiles ==>
             Settled(t, Job(Join(repoPath, d.baseRepoPath), setDir, p), defaults, serialize))
  }

  /** Directories and file names only grow, and validity is kept. */
  ghost predicate Grows(t: FsState, t2: FsState) {
    && t.dirs <= t2.dirs
    && t.files.Keys <= t2.files.Keys
    && (Valid(t) ==> Valid(t2))
  }

  /** What one step may do: grow; add only directories that could be created and no
      file named ""; change no file outside `written`. */
  ghost predicate Evolves(t: FsState, t2: FsState, written: set<Path>) {
    && Grows(t, t2)
    && (forall d :: d in t2.dirs && d !in t.dirs ==> !MakeDirsFails(t, d))
    && ("" in t2.files ==> "" in t.files)
    && forall p :: p !in written ==>
         (p in t2.files <==> p in t.files) && (p in t.files ==> t2.files[p] == t.files[p])
  }

  // ---------------------------------------------------------------------------
  // Facts about the filesystem operations.

  /** An ancestor is not empty, and its own ancestors are ancestors of the path. */
  lemma AncestorsNested(q: Path, d: Path)
    requires d in Ancestors(q)
    ensures d != "" && Ancestors(d) <= Ancestors(q)
  {
    var i :| 0 <= i < |q| && q[i] == SEP && d == (if i == 0 then "/" else q[..i]);
    forall a | a in Ancestors(d) ensures a in Ancestors(q) {
      var k :| 0 <= k < |d| && d[k] == SEP && a == (if k == 0 then "/" else d[..k]);
      if i == 0 {
        assert a == "/" && q[0] == SEP;
      } else {
        assert q[k] == d[k];
        if k > 0 { assert d[..k] == q[..k]; }
        assert a == (if k == 0 then "/" else q[..k]);
      }
    }
  }

  /** A directory that cannot be created stays so while file names only grow. */
  lemma MakeDirsFailsGrows(t: FsState, t2: FsState, p: Path)
    requires t.files.Keys <= t2.files.Keys && MakeDirsFails(t, p)
    ensures MakeDirsFails(t2, p)
  {
    if Ancestors(p) * t.files.Keys != {} {
      var a :| a in Ancestors(p) * t.files.Keys;
      assert a in Ancestors(p) * t2.files.Keys;
    }
  }

  lemma MakeDirsEvolves(t: FsState, q: Path)
    requires !MakeDirsFails(t, q)
    ensures Evolves(t, MakeDirsEffect(t, q), {})
    ensures {q} + Ancestors(q) <= MakeDirsEffect(t, q).dirs
  {
    if Valid(t) { MakeDirsKeepsValid(t, q); }
    forall d | d in Ancestors(q) ensures !MakeDirsFails(t, d) {
      AncestorsNested(q, d);
      assert d in t.files ==> d in Ancestors(q) * t.files.Keys;
      assert Ancestors(d) * t.files.Keys <= Ancestors(q) * t.files.Keys;
    }
  }

  lemma EvolvesCompose(a: FsState, b: FsState, c: FsState, w1: set<Path>, w2: set<Path>)
    requires Evolves(a, b, w1) && Evolves(b, c, w2)
    ensures Evolves(a, c, w1 + w2)
  {
    forall d | d in c.dirs && d !in a.dirs ensures !MakeDirsFails(a, d) {
      if d !in b.dirs && MakeDirsFails(a, d) { MakeDirsFailsGrows(a, b, d); }
    }
  }

  // ---------------------------------------------------------------------------
  // One step.

  /** A step evolves the filesystem, writing at most its own target, and settles its
      own pattern. */
  lemma FileStepEvolves(t: FsState, j: Job, defaults: Entries, serialize: Value -> string)
    ensures var step := FileStep(t, j.sourceBase, j.setDir, j.pattern, defaults, serialize);
            Evolves(t, step.fs, {Target(j)}) && Settled(step.fs, j, defaults, serialize)
  {
    var source, target := Source(j), Target(j);
    var subdir := DirName(target);
    var step := FileStep(t, j.sourceBase, j.setDir, j.pattern, defaults, serialize);
    if Exists(t, subdir) || !MakeDirsFails(t, subdir) {
      var fs1 := if Exists(t, subdir) then t else MakeDirsEffect(t, subdir);
      if !Exists(t, subdir) { MakeDirsEvolves(t, subdir); }
      assert Evolves(t, fs1, {}) && Exists(fs1, subdir);
      if IsFile(fs1, source) && fs1.files[source].Text? && !OpenForWriteFails(fs1, target) {
        var c := fs1.files[source].text;
        var text := Normalise(c, defaults, j.pattern, serialize);
        var w := WriteEffect(fs1, target, text);
        assert step == Step(w, Written(source, target));
        if source == target {
          NormaliseIdempotent(c, defaults, j.pattern, serialize);
        } else {
          assert w.files[source] == Text(c);
        }
        assert Settled(w, j, defaults, serialize);
        if Valid(fs1) { WriteKeepsValid(fs1, target, text); }
        assert Evolves(fs1, w, {target});
        EvolvesCompose(t, fs1, w, {}, {target});
        assert {} + {target} == {target};
      } else {
        assert step.fs == fs1;
      }
    }
  }

  /** A settled pattern's step leaves the filesystem as it is. */
  lemma SettledFixed(t: FsState, j: Job, defaults: Entries, serialize: Value -> string)
    requires Settled(t, j, defaults, serialize)
    ensures FileStep(t, j.sourceBase, j.setDir, j.pattern, defaults, serialize).fs == t
  {
    var source, target := Source(j), Target(j);
    var subdir := DirName(target);
    if Exists(t, subdir) && IsFile(t, source) && t.files[source].Text? && !OpenForWriteFails(t, target) {
      var text := Normalise(t.files[source].text, defaults, j.pattern, serialize);
      assert t.files[target] == Text(text);
      assert t.files[target := Text(text)] == t.files;
    }
  }

  /** Later steps keep a pattern settled. */
  lemma SettledEvolves(t: FsState, t2: FsState, written: set<Path>, j: Job,
                       defaults: Entries, serialize: Value -> string)
    requires Valid(t) && Evolves(t, t2, written) && Settled(t, j, defaults, serialize)
    requires Source(j) !in written && Target(j) !in written
    ensures Settled(t2, j, defaults, serialize)
  {
    var source, target := Source(j), Target(j);
    var subdir := DirName(target);
    if subdir !in t.dirs && MakeDirsFails(t, subdir) && (subdir == "" ==> subdir !in t.files) {
      MakeDirsFailsGrows(t, t2, subdir);
    } else if OpenForWriteFails(t, target) {
      assert subdir in t.files ==> subdir in t2.files;
    }
  }

  lemma StepKeepsSettled(t: FsState, k: Job, a: Job, jobs: set<Job>, defaults: Entries, serialize: Value -> string)
    requires Valid(t) && SafeJobs(jobs) && k in jobs && a in jobs && Settled(t, a, defaults, serialize)
    ensures Settled(FileStep(t, k.sourceBase, k.setDir, k.pattern, defaults, serialize).fs, a, defaults, serialize)
  {
    if k == a {
      SettledFixed(t, a, defaults, serialize);
    } else {
      FileStepEvolves(t, k, defaults, serialize);
      var t2 := FileStep(t, k.sourceBase, k.setDir, k.pattern, defaults, serialize).fs;
      SettledEvolves(t, t2, {Target(k)}, a, defaults, serialize);
    }
  }

  // ---------------------------------------------------------------------------
  // The first run settles every pattern.

  lemma {:induction false} FilesRunGrows(t: FsState, sourceBase: Path, setDir: Path, patterns: seq<Path>,
                                         defaults: Entries, serialize: Value -> string)
    ensures Grows(t, FilesRun(t, sourceBase, setDir, patterns, defaults, serialize).fs)
    decreases |patterns|
  {
    if |patterns| > 0 {
      var n := |patterns| - 1;
      FilesRunGrows(t, sourceBase, setDir, patterns[..n], defaults, serialize);
      var before := FilesRun(t, sourceBase, setDir, patterns[..n], defaults, serialize);
      FileStepEvolves(before.fs, Job(sourceBase, setDir, patterns[n]), defaults, serialize);
    }
  }

  lemma {:induction false} FilesRunKeepsSettled(t: FsState, sourceBase: Path, setDir: Path, patterns: seq<Path>,
                                                defaults: Entries, serialize: Value -> string,
                                                jobs: set<Job>, a: Job)
    requires Valid(t) && SafeJobs(jobs) && a in jobs && PatternsIn(sourceBase, setDir, patterns, jobs)
    requires Settled(t, a, defaults, serialize)
    ensures Settled(FilesRun(t, sourceBase, setDir, patterns, defaults, serialize).fs, a, defaults, serialize)
    decreases |patterns|
  {
    if |patterns| > 0 {
      var n := |patterns| - 1;
      assert PatternsIn(sourceBase, setDir, patterns[..n], jobs) by {
        forall p | p in patterns[..n] ensures Job(sourceBase, setDir, p) in jobs {
          assert p in patterns;
        }
      }
      FilesRunKeepsSettled(t, sourceBase, setDir, patterns[..n], defaults, serialize, jobs, a);
      FilesRunGrows(t, sourceBase, setDir, patterns[..n], defaults, serialize);
      var before := FilesRun(t, sourceBase, setDir, patterns[..n], defaults, serialize);
      assert patterns[n] in patterns;
      StepKeepsSettled(before.fs, Job(sourceBase, setDir, patterns[n]), a, jobs, defaults, serialize);
    }
  }

  lemma {:induction false} FilesRunSettles(t: FsState, sourceBase: Path, setDir: Path, patterns: seq<Path>,
                                           defaults: Entries, serialize: Value -> string, jobs: set<Job>)
    requires Valid(t) && SafeJobs(jobs) && PatternsIn(sourceBase, setDir, patterns, jobs)
    ensures forall p :: p in patterns ==>
              Settled(FilesRun(t, sourceBase, setDir, patterns, defaults, serialize).fs,
                      Job(sourceBase, setDir, p), defaults, serialize)
    decreases |patterns|
  {
    if |patterns| > 0 {
      var n := |patterns| - 1;
      assert PatternsIn(sourceBase, setDir, patterns[..n], jobs) by {
        forall p | p in patterns[..n] ensures Job(sourceBase, setDir, p) in jobs {
          assert p in patterns;
        }
      }
      FilesRunSettles(t, sourceBase, setDir, patterns[..n], defaults, serialize, jobs);
      FilesRunGrows(t, sourceBase, setDir, patterns[..n], defaults, serialize);
      var before := FilesRun(t, sourceBase, setDir, patterns[..n], defaults, serialize);
      var k := Job(sourceBase, setDir, patterns[n]);
      FileStepEvolves(before.fs, k, defaults, serialize);
      var after := FilesRun(t, sourceBase, setDir, patterns, defaults, serialize).fs;
      assert after == FileStep(before.fs, sourceBase, setDir, patterns[n], defaults, serialize).fs;
      forall p | p in patterns ensures Settled(after, Job(sourceBase, setDir, p), defaults, serialize) {
        if p != patterns[n] {
          var i :| 0 <= i < |patterns| && patterns[i] == p;
          assert patterns[..n][i] == p;
          assert patterns[n] in patterns;
          StepKeepsSettled(before.fs, k, Job(sourceBase, setDir, p), jobs, defaults, serialize);
        }
      }
    }
  }

  lemma SetRunGrows(t: FsState, repoPath: Path, docsRoot: Path, d: DocSet,
                    defaults: Entries, serialize: Value -> string)
    ensures Grows(t, SetRun(t, repoPath, docsRoot, d, defaults, serialize).fs)
  {
    if !Missing(d.targetDir) {
      var setDir := SetDir(docsRoot, d.targetDir.value);
      if !MakeDirsFails(t, setDir) {
        MakeDirsEvolves(t, setDir);
        FilesRunGrows(MakeDirsEffect(t, setDir), Join(repoPath, d.baseRepoPath), setDir,
                      d.markdownFiles, defaults, serialize);
      }
    }
  }

  lemma SetRunKeepsSettled(t: FsState, repoPath: Path, docsRoot: Path, d: DocSet,
                           defaults: Entries, serialize: Value -> string, jobs: set<Job>, a: Job)
    requires Valid(t) && SafeJobs(jobs) && a in jobs && SetJobsIn(repoPath, docsRoot, d, jobs)
    requires Settled(t, a, defaults, serialize)
    ensures Settled(SetRun(t, repoPath, docsRoot, d, defaults, serialize).fs, a, defaults, serialize)
  {
    if !Missing(d.targetDir) {
      var setDir := SetDir(docsRoot, d.targetDir.value);
      if !MakeDirsFails(t, setDir) {
        var t1 := MakeDirsEffect(t, setDir);
        MakeDirsEvolves(t, setDir);
        MakeDirsKeepsValid(t, setDir);
        SettledEvolves(t, t1, {}, a, defaults, serialize);
        FilesRunKeepsSettled(t1, Join(repoPath, d.baseRepoPath), setDir, d.markdownFiles,
                             defaults, serialize, jobs, a);
      }
    }
  }

  lemma SetRunKeepsSetSettled(t: FsState, repoPath: Path, docsRoot: Path, d: DocSet, e: DocSet,
                              defaults: Entries, serialize: Value -> string, jobs: set<Job>)
    requires Valid(t) && SafeJobs(jobs)
    requires SetJobsIn(repoPath, docsRoot, d, jobs) && SetJobsIn(repoPath, docsRoot, e, jobs)
    requires SetSettled(t, repoPath, docsRoot, e, defaults, serialize)
    ensures SetSettled(SetRun(t, repoPath, docsRoot, d, defaults, serialize).fs, repoPath, docsRoot, e,
                       defaults, serialize)
  {
    var t2 := SetRun(t, repoPath, docsRoot, d, defaults, serialize).fs;
    SetRunGrows(t, repoPath, docsRoot, d, defaults, serialize);
    if !Missing(e.targetDir) {
      var setDir := SetDir(docsRoot, e.targetDir.value);
      if MakeDirsFails(t, setDir) {
        MakeDirsFailsGrows(t, t2, setDir);
      } else {
        var sourceBase := Join(repoPath, e.baseRepoPath);
        forall p | p in e.markdownFiles ensures Settled(t2, Job(sourceBase, setDir, p), defaults, serialize) {
          SetRunKeepsSettled(t, repoPath, docsRoot, d, defaults, serialize, jobs, Job(sourceBase, setDir, p));
        }
      }
    }
  }

  lemma SetRunSettles(t: FsState, repoPath: Path, docsRoot: Path, d: DocSet,
                      defaults: Entries, serialize: Value -> string, jobs: set<Job>)
    requires Valid(t) && SafeJobs(jobs) && SetJobsIn(repoPath, docsRoot, d, jobs)
    ensures SetSettled(SetRun(t, repoPath, docsRoot, d, defaults, serialize).fs, repoPath, docsRoot, d,
                       defaults, serialize)
  {
    if !Missing(d.targetDir) {
      var setDir := SetDir(docsRoot, d.targetDir.value);
      if !MakeDirsFails(t, setDir) {
        var t1 := MakeDirsEffect(t, setDir);
        var sourceBase := Join(repoPath, d.baseRepoPath);
        MakeDirsEvolves(t, setDir);
        MakeDirsKeepsValid(t, setDir);
        FilesRunSettles(t1, sourceBase, setDir, d.markdownFiles, defaults, serialize, jobs);
        FilesRunGrows(t1, sourceBase, setDir, d.markdownFiles, defaults, serialize);
      }
    }
  }

  lemma {:induction false} SetsRunSettles(t: FsState, repoPath: Path, docsRoot: Path, sets: seq<DocSet>,
                                          defaults: Entries, serialize: Value -> string, jobs: set<Job>)
    requires Valid(t) && SafeJobs(jobs)
    requires forall d :: d in sets ==> SetJobsIn(repoPath, docsRoot, d, jobs)
    ensures var r := SetsRun(t, repoPath, docsRoot, sets, defaults, serialize);
            && Valid(r.fs)
            && forall d :: d in sets ==> SetSettled(r.fs, repoPath, docsRoot, d, defaults, serialize)
    decreases |sets|
  {
    if |sets| > 0 {
      var n := |sets| - 1;
      assert forall d :: d in sets[..n] ==> d in sets;
      SetsRunSettles(t, repoPath, docsRoot, sets[..n], defaults, serialize, jobs);
      var before := SetsRun(t, repoPath, docsRoot, sets[..n], defaults, serialize);
      var after := SetRun(before.fs, repoPath, docsRoot, sets[n], defaults, serialize).fs;
      assert SetsRun(t, repoPath, docsRoot, sets, defaults, serialize).fs == after;
      SetRunGrows(before.fs, repoPath, docsRoot, sets[n], defaults, serialize);
      assert sets[n] in sets;
      forall d | d in sets ensures SetSettled(after, repoPath, docsRoot, d, defaults, serialize) {
        if d == sets[n] {
          SetRunSettles(before.fs, repoPath, docsRoot, d, defaults, serialize, jobs);
        } else {
          var i :| 0 <= i < |sets| && sets[i] == d;
          assert sets[..n][i] == d;
          SetRunKeepsSetSettled(before.fs, repoPath, docsRoot, sets[n], d, defaults, serialize, jobs);
        }
      }
    }
  }

  // ---------------------------------------------------------------------------
  // The second run changes nothing.

  lemma {:induction false} FilesRunFixed(t: FsState, sourceBase: Path, setDir: Path, patterns: seq<Path>,
                                         defaults: Entries, serialize: Value -> string)
    requires forall p :: p in patterns ==> Settled(t, Job(sourceBase, setDir, p), defaults, serialize)
    ensures FilesRun(t, sourceBase, setDir, patterns, defaults, serialize).fs == t
    decreases |patterns|
  {
    if |patterns| > 0 {
      var n := |patterns| - 1;
      assert forall p :: p in patterns[..n] ==> p in patterns;
      FilesRunFixed(t, sourceBase, setDir, patterns[..n], defaults, serialize);
      assert patterns[n] in patterns;
      SettledFixed(t, Job(sourceBase, setDir, patterns[n]), defaults, serialize);
    }
  }

  lemma SetRunFixed(t: FsState, repoPath: Path, docsRoot: Path, d: DocSet,
                    defaults: Entries, serialize: Value -> string)
    requires SetSettled(t, repoPath, docsRoot, d, defaults, serialize)
    ensures SetRun(t, repoPath, docsRoot, d, defaults, serialize).fs == t
  {
    if !Missing(d.targetDir) {
      var setDir := SetDir(docsRoot, d.targetDir.value);
      if !MakeDirsFails(t, setDir) {
        assert MakeDirsEffect(t, setDir) == t by {
          assert t.dirs + {setDir} + Ancestors(setDir) == t.dirs;
        }
        FilesRunFixed(t, Join(repoPath, d.baseRepoPath), setDir, d.markdownFiles, defaults, serialize);
      }
    }
  }

  lemma {:induction false} SetsRunFixed(t: FsState, repoPath: Path, docsRoot: Path, sets: seq<DocSet>,
                                        defaults: Entries, serialize: Value -> string)
    requires forall d :: d in sets ==> SetSettled(t, repoPath, docsRoot, d, defaults, serialize)
    ensures SetsRun(t, repoPath, docsRoot, sets, defaults, serialize).fs == t
    decreases |sets|
  {
    if |sets| > 0 {
      var n := |sets| - 1;
      assert forall d :: d in sets[..n] ==> d in sets;
      SetsRunFixed(t, repoPath, docsRoot, sets[..n], defaults, serialize);
      assert sets[n] in sets;
      SetRunFixed(t, repoPath, docsRoot, sets[n], defaults, serialize);
    }
  }

  lemma SetJobsInJobs(repoPath: Path, docsRoot: Path, sets: seq<DocSet>, d: DocSet)
    requires d in sets
    ensures SetJobsIn(repoPath, docsRoot, d, Jobs(repoPath, docsRoot, sets))
  {
    if !Missing(d.targetDir) {
      var sourceBase, setDir := Join(repoPath, d.baseRepoPath), SetDir(docsRoot, d.targetDir.value);
      forall p | p in d.markdownFiles ensures Job(sourceBase, setDir, p) in Jobs(repoPath, docsRoot, sets) {
      }
    }
  }

  /** Processing a source a second time over the result of the first leaves the
      filesystem exactly as the first run left it: every file the first run
      normalised already carries its header, and every failure repeats. */
  lemma RerunChangesNothing(fs: FsState, src: SourceConfig, docsRoot: Path, serialize: Value -> string)
    requires Valid(fs)
    requires !Missing(src.repoLocalPath) ==> SafeJobs(Jobs(src.repoLocalPath.value, docsRoot, src.documents))
    ensures var once := SourceRun(fs, src, docsRoot, serialize).fs;
            SourceRun(once, src, docsRoot, serialize).fs == once
  {
    if !Missing(src.repoLocalPath) {
      var repoPath := src.repoLocalPath.value;
      var jobs := Jobs(repoPath, docsRoot, src.documents);
      forall d | d in src.documents ensures SetJobsIn(repoPath, docsRoot, d, jobs) {
        SetJobsInJobs(repoPath, docsRoot, src.documents, d);
      }
      SetsRunSettles(fs, repoPath, docsRoot, src.documents, src.defaultFrontMatter, serialize, jobs);
      var once := SetsRun(fs, repoPath, docsRoot, src.documents, src.defaultFrontMatter, serialize).fs;
      SetsRunFixed(once, repoPath, docsRoot, src.documents, src.defaultFrontMatter, serialize);
    }
  }
}
