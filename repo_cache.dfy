/**
  The repository cache (sync_docs.py, get_source_repo).  A cache slot is absent,
  present but not a git working directory, or a valid repository.  The answers of
  the network and of git's ref resolution are inputs (GitEnv); what each git
  primitive does to the slot when it succeeds is stated here.
 */
module RepoCache {
  import opened Wrappers

  type Commit = string

  /** HEAD: on a local branch (with its tip and the remote branch it tracks, if any),
      or detached at a commit. */
  datatype Head =
    | Attached(branch: string, tip: Commit, upstream: Option<string>)
    | Detached(commit: Commit)

  /** A valid working directory: HEAD, the remote-tracking refs origin/<name>, the tags. */
  datatype Repo = Repo(head: Head, remoteRefs: map<string, Commit>, tags: map<string, Commit>)

  datatype Slot = Absent | Invalid | Present(repo: Repo)

  /** The remote as a fetch sees it. */
  datatype Remote = Remote(branches: map<string, Commit>, tags: map<string, Commit>)

  /** Repo.clone_from: the cloned repository, or a failure that may leave a partial directory. */
  datatype CloneOutcome = Cloned(repo: Repo) | CloneFailed(leavesPartialSlot: bool)

  /** The answers the outside world gives during one synchronisation. */
  datatype GitEnv = GitEnv(
    fetchOk: bool,             // origin.fetch(prune=True) succeeds
    remote: Remote,            // what it fetches
    checkout: Option<Head>,    // where `git checkout <ref>` lands; None when it raises GitCommandError
    recheckout: Option<Head>,  // the same for the retry in the final check
    pull: Option<Commit>,      // the commit origin.pull() leaves the branch on (a fast-forward,
                               // a merge or nothing new); None when it raises GitCommandError
    clone: CloneOutcome)

  /** Why no repository is returned (the script returns None in every case). */
  datatype SyncError =
    | FetchFailed | CheckoutFailed | PullFailed | ResetFailed   // GitCommandError on an existing slot
    | CloneError                                               // clone raised; partial slot removed
    | TagMismatch                                              // detached HEAD differs from the tag
    | RecheckoutFailed | StillWrongBranch                      // the retry of the final check
    | Unexpected                                               // `active_branch` on a detached HEAD raises

  datatype Outcome = Outcome(slot: Slot, result: Result<Repo, SyncError>)

  // ---------------------------------------------------------------------------
  // The effect of each primitive when it succeeds.

  /** fetch(prune=True): the remote-tracking refs become exactly the remote's branches;
      tags the repository does not have yet are added, and a local tag is kept. */
  function Fetched(r: Repo, remote: Remote): Repo {
    r.(remoteRefs := remote.branches, tags := remote.tags + r.tags)
  }

  /** origin.pull() on a branch tracking origin/u: the branch moves to the commit git's
      pull lands on. None where GitCommandError is raised: git reports the failure, or
      origin/u is not among the fetched branches. */
  function Pulled(r: Repo, landing: Option<Commit>): Option<Repo>
    requires r.head.Attached? && r.head.upstream.Some?
  {
    var u := r.head.upstream.value;
    if landing.Some? && u in r.remoteRefs then Some(r.(head := r.head.(tip := landing.value))) else None
  }

  /** git reset --hard origin/<branch>: the current branch moves to that ref.
      None where GitCommandError is raised (no such ref). */
  function ResetTo(r: Repo, branch: string): Option<Repo>
    requires r.head.Attached?
  {
    if branch in r.remoteRefs then Some(r.(head := r.head.(tip := r.remoteRefs[branch]))) else None
  }

  // ---------------------------------------------------------------------------
  // The reference definition of get_source_repo.

  /** The final consistency check (lines 124-137). */
  function FinalCheck(r: Repo, branch: string, env: GitEnv): Outcome {
    if r.head.Detached? then
      if branch in r.tags && r.head.commit != r.tags[branch] then Outcome(Present(r), Err(TagMismatch))
      else Outcome(Present(r), Ok(r))
    else if r.head.branch != branch then
      match env.recheckout
      case None => Outcome(Present(r), Err(RecheckoutFailed))
      case Some(h) =>
        var r' := r.(head := h);
        if h.Detached? then Outcome(Present(r'), Err(Unexpected))
        else if h.branch != branch then Outcome(Present(r'), Err(StillWrongBranch))
        else Outcome(Present(r'), Ok(r'))
    else Outcome(Present(r), Ok(r))
  }

  /** A valid slot: fetch, checkout, then pull or reset on an attached HEAD. */
  function UpdateExisting(r: Repo, branch: string, env: GitEnv): Outcome {
    if !env.fetchOk then Outcome(Present(r), Err(FetchFailed))
    else
      var r1 := Fetched(r, env.remote);
      match env.checkout
      case None => Outcome(Present(r1), Err(CheckoutFailed))
      case Some(h) =>
        var r2 := r1.(head := h);
        if h.Detached? then FinalCheck(r2, branch, env)
        else if h.upstream.Some? then
          match Pulled(r2, env.pull)
          case None => Outcome(Present(r2), Err(PullFailed))
          case Some(r3) => FinalCheck(r3, branch, env)
        else
          match ResetTo(r2, branch)
          case None => Outcome(Present(r2), Err(ResetFailed))
          case Some(r3) => FinalCheck(r3, branch, env)
  }

  /** An absent slot (or one just removed): clone. */
  function CloneFresh(branch: string, env: GitEnv): Outcome {
    match env.clone
    case Cloned(r) => FinalCheck(r, branch, env)
    case CloneFailed(_) => Outcome(Absent, Err(CloneError))
  }

  function Sync(slot: Slot, branch: string, env: GitEnv): Outcome {
    match slot
    case Present(r) => UpdateExisting(r, branch, env)
    case Invalid => CloneFresh(branch, env)
    case Absent => CloneFresh(branch, env)
  }

  // ---------------------------------------------------------------------------
  // The slot on disk and the steps the script takes on it.

  class CacheSlot {
    var state: Slot

    constructor (initial: Slot)
      ensures state == initial
    {
      state := initial;
    }

    /** os.path.exists(local_repo_path) */
    function PathExists(): bool
      reads this
    {
      !state.Absent?
    }

    /** Repo(local_repo_path): None where InvalidGitRepositoryError is raised. */
    method Open() returns (r: Option<Repo>)
      requires !state.Absent?
      ensures r == if state.Present? then Some(state.repo) else None
    {
      r := if state.Present? then Some(state.repo) else None;
    }

    /** repo.remotes.origin.fetch(prune=True); false where GitCommandError is raised. */
    method Fetch(fetchOk: bool, remote: Remote) returns (ok: bool)
      requires state.Present?
      modifies this
      ensures ok == fetchOk
      ensures state == if ok then Present(Fetched(old(state.repo), remote)) else old(state)
    {
      ok := fetchOk;
      if ok {
        state := Present(Fetched(state.repo, remote));
      }
    }

    /** repo.git.checkout(ref), landing where git resolves the ref. */
    method Checkout(landing: Option<Head>) returns (ok: bool)
      requires state.Present?
      modifies this
      ensures ok == landing.Some?
      ensures state == if ok then Present(old(state.repo).(head := landing.value)) else old(state)
    {
      ok := landing.Some?;
      if ok {
        state := Present(state.repo.(head := landing.value));
      }
    }

    /** repo.remotes.origin.pull() */
    method Pull(landing: Option<Commit>) returns (ok: bool)
      requires state.Present? && state.repo.head.Attached? && state.repo.head.upstream.Some?
      modifies this
      ensures ok == Pulled(old(state.repo), landing).Some?
      ensures state == if ok then Present(Pulled(old(state.repo), landing).value) else old(state)
    {
      var pulled := Pulled(state.repo, landing);
      ok := pulled.Some?;
      if ok {
        state := Present(pulled.value);
      }
    }

    /** repo.git.reset(f"origin/{branch}", hard=True) */
    method ResetHard(branch: string) returns (ok: bool)
      requires state.Present? && state.repo.head.Attached?
      modifies this
      ensures ok == ResetTo(old(state.repo), branch).Some?
      ensures state == if ok then Present(ResetTo(old(state.repo), branch).value) else old(state)
    {
      var reset := ResetTo(state.repo, branch);
      ok := reset.Some?;
      if ok {
        state := Present(reset.value);
      }
    }

    /** shutil.rmtree(local_repo_path) */
    method Remove()
      modifies this
      ensures state == Absent
    {
      state := Absent;
    }

    /** Repo.clone_from(url, local_repo_path, branch=branch) */
    method Clone(outcome: CloneOutcome) returns (ok: bool)
      requires state.Absent?
      modifies this
      ensures ok == outcome.Cloned?
      ensures state == match outcome
                       case Cloned(r) => Present(r)
                       case CloneFailed(partial) => if partial then Invalid else Absent
    {
      match outcome
      case Cloned(r) => state := Present(r); ok := true;
      case CloneFailed(partial) => state := if partial then Invalid else Absent; ok := false;
    }
  }

  /** Lines 124-137 on the slot. */
  method EnsureRequestedRef(slot: CacheSlot, branch: string, env: GitEnv) returns (result: Result<Repo, SyncError>)
    requires slot.state.Present?
    modifies slot
    ensures Outcome(slot.state, result) == FinalCheck(old(slot.state.repo), branch, env)
  {
    var repo := slot.state.repo;
    if repo.head.Detached? {
      if branch in repo.tags && repo.head.commit != repo.tags[branch] {
        return Err(TagMismatch);
      }
      return Ok(repo);
    }
    if repo.head.branch != branch {
      var ok := slot.Checkout(env.recheckout);
      if !ok {
        return Err(RecheckoutFailed);
      }
      repo := slot.state.repo;
      if repo.head.Detached? {
        return Err(Unexpected);
      }
      if repo.head.branch != branch {
        return Err(StillWrongBranch);
      }
    }
    return Ok(repo);
  }

  /** get_source_repo */
  method GetSourceRepo(slot: CacheSlot, branch: string, env: GitEnv) returns (result: Result<Repo, SyncError>)
    modifies slot
    ensures Outcome(slot.state, result) == Sync(old(slot.state), branch, env)
  {
    var haveRepo := false;
    if slot.PathExists() {
      var existing := slot.Open();
      if existing.None? {
        slot.Remove();
      } else {
        var ok := slot.Fetch(env.fetchOk, env.remote);
        if !ok { return Err(FetchFailed); }
        ok := slot.Checkout(env.checkout);
        if !ok { return Err(CheckoutFailed); }
        if slot.state.repo.head.Attached? {
          if slot.state.repo.head.upstream.Some? {
            ok := slot.Pull(env.pull);
            if !ok { return Err(PullFailed); }
          } else {
            ok := slot.ResetHard(branch);
            if !ok { return Err(ResetFailed); }
          }
        }
        haveRepo := true;
      }
    }
    if !haveRepo {
      var ok := slot.Clone(env.clone);
      if !ok {
        if slot.PathExists() { slot.Remove(); }
        return Err(CloneError);
      }
    }
    result := EnsureRequestedRef(slot, branch, env);
  }

  // ---------------------------------------------------------------------------
  // Properties.

  /** The repository a successful sync returns matches the requested ref. */
  predicate OnRequestedRef(r: Repo, branch: string) {
    && (r.head.Attached? ==> r.head.branch == branch)
    && (r.head.Detached? && branch in r.tags ==> r.head.commit == r.tags[branch])
  }

  /** A returned repository is the one left in the slot, and is on the requested ref. */
  lemma ReadyIsConsistent(slot: Slot, branch: string, env: GitEnv)
    ensures var o := Sync(slot, branch, env);
            o.result.Ok? ==> o.slot == Present(o.result.value) && OnRequestedRef(o.result.value, branch)
  {
  }

  /** A slot that is not a valid repository is removed and cloned afresh: the same
      outcome as an absent slot. */
  lemma InvalidSlotSelfHeals(branch: string, env: GitEnv)
    ensures Sync(Invalid, branch, env) == Sync(Absent, branch, env)
  {
  }

  /** A valid slot is never re-cloned: its outcome does not depend on what a clone
      would produce, and the slot stays a valid repository. */
  lemma ExistingSlotNeverClones(r: Repo, branch: string, env: GitEnv, other: CloneOutcome)
    ensures Sync(Present(r), branch, env) == Sync(Present(r), branch, env.(clone := other))
    ensures Sync(Present(r), branch, env).slot.Present?
  {
  }

  /** A failed fetch stops the sync with the slot untouched. */
  lemma FetchFailureStops(r: Repo, branch: string, env: GitEnv)
    requires !env.fetchOk
    ensures Sync(Present(r), branch, env) == Outcome(Present(r), Err(FetchFailed))
  {
  }

  /** A failed clone leaves no slot behind and returns no repository. */
  lemma CloneFailureCleansUp(slot: Slot, branch: string, env: GitEnv)
    requires !slot.Present? && env.clone.CloneFailed?
    ensures Sync(slot, branch, env) == Outcome(Absent, Err(CloneError))
  {
  }

  /** Requested branch tracking origin/u: the sync returns the repository with the branch
      on the commit the pull lands on, and fails with the slot kept when the pull fails.
      When the pull is a fast-forward to the fetched origin/u, that is the branch's tip. */
  lemma TrackingBranchPulled(r: Repo, branch: string, env: GitEnv, t: Commit, u: string)
    requires env.fetchOk
    requires env.checkout == Some(Attached(branch, t, Some(u)))
    ensures var o := Sync(Present(r), branch, env);
            env.pull.Some? && u in env.remote.branches ==>
              && o.result == Ok(Fetched(r, env.remote).(head := Attached(branch, env.pull.value, Some(u))))
              && o.slot == Present(o.result.value)
    ensures var o := Sync(Present(r), branch, env);
            !(env.pull.Some? && u in env.remote.branches) ==>
              o == Outcome(Present(Fetched(r, env.remote).(head := Attached(branch, t, Some(u)))), Err(PullFailed))
    ensures var o := Sync(Present(r), branch, env);
            u in env.remote.branches && env.pull == Some(env.remote.branches[u]) ==>
              o.result.Ok? && o.result.value.head.tip == env.remote.branches[u]
  {
  }

  /** Requested branch tracking nothing: it is hard-reset to origin/<branch>, wherever it
      pointed before; with no such remote branch the sync fails. */
  lemma NonTrackingBranchReset(r: Repo, branch: string, env: GitEnv, t: Commit)
    requires env.fetchOk
    requires env.checkout == Some(Attached(branch, t, None))
    ensures var o := Sync(Present(r), branch, env);
            && (branch in env.remote.branches ==>
                  o.result == Ok(Fetched(r, env.remote).(head := Attached(branch, env.remote.branches[branch], None))))
            && (branch !in env.remote.branches ==> o.result == Err(ResetFailed))
  {
  }

  /** A detached HEAD on a tag's name but off the tag's commit fails the sync; on the
      tag's commit it succeeds. */
  lemma DetachedTagChecked(r: Repo, branch: string, env: GitEnv, c: Commit)
    requires env.fetchOk && env.checkout == Some(Detached(c))
    requires branch in Fetched(r, env.remote).tags
    ensures var o := Sync(Present(r), branch, env);
            o.result.Ok? <==> c == Fetched(r, env.remote).tags[branch]
    ensures var o := Sync(Present(r), branch, env);
            o.result.Err? ==> o.result.error == TagMismatch
  {
  }

  /** An attached HEAD on another branch gets exactly one more checkout: the sync succeeds
      iff that checkout lands on the requested branch. */
  lemma WrongBranchRetriedOnce(r: Repo, branch: string, env: GitEnv)
    requires r.head.Attached? && r.head.branch != branch
    ensures var o := FinalCheck(r, branch, env);
            o.result.Ok? <==>
              env.recheckout.Some? && env.recheckout.value.Attached? && env.recheckout.value.branch == branch
    ensures var o := FinalCheck(r, branch, env);
            o.result.Ok? ==> o.result.value == r.(head := env.recheckout.value)
  {
  }
}
