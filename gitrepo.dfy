// The GitOps repository: the clone-or-pull decision made when the repository is
// first used, the rewrite of an image reference across the working tree, and the
// commit-and-push that follows it. Files are a map from path to content, and the
// network and disk operations of git are outcomes passed in as parameters.

module GitRepo {

  import opened Wrappers
  import opened Strings
  import opened Types
  import HelmCommon
  import KubeUpdates

  /** The git operations init performs, in order. */
  datatype GitAction = Pull | Clone

  /** The repository handle init keeps: the one opened on the existing local copy,
      or one from a fresh clone. */
  datatype Handle = OpenedLocal | FreshClone

  /** How newClone ends: the clone succeeds, the clone fails, or the clone
      succeeds but the fetch that follows it fails, which still reports an
      error. */
  datatype CloneOutcome = Cloned | CloneFailed | FetchFailed

  /** The local copy found on disk when no repository is open yet: its `origin`
      remote URL, or None when it has no `origin` remote. */
  datatype LocalCopy = LocalCopy(origin: Option<string>)

  /** The working tree once every occurrence of `pat` in every file is replaced. */
  function RewriteFiles(files: map<string, string>, pat: string, rep: string): (r: map<string, string>)
    ensures r.Keys == files.Keys
    ensures pat != [] && |rep| == |pat| ==> forall p :: p in files ==> |r[p]| == |files[p]|
  {
    map p | p in files :: ReplaceAll(files[p], pat, rep)
  }

  /** The files whose content the rewrite changes, the only ones written. */
  function ChangedPaths(files: map<string, string>, pat: string, rep: string): set<string>
  {
    set p | p in files && ReplaceAll(files[p], pat, rep) != files[p]
  }

  /** The working tree with `rewrite` applied to every file's content. */
  function MapFiles(files: map<string, string>, rewrite: string -> string): (r: map<string, string>)
    ensures r.Keys == files.Keys
  {
    map p | p in files :: rewrite(files[p])
  }

  /** The files whose content `rewrite` changes. */
  function ChangedBy(files: map<string, string>, rewrite: string -> string): set<string>
  {
    set p | p in files && rewrite(files[p]) != files[p]
  }

  /** The working tree part way through the walk: the files still in `remaining`
      keep their content, the others have been rewritten. */
  function PartlyMapped(files: map<string, string>, rewrite: string -> string, remaining: set<string>): (r: map<string, string>)
    ensures r.Keys == files.Keys
  {
    map p | p in files :: if p in remaining then files[p] else rewrite(files[p])
  }

  lemma PartlyMappedStart(files: map<string, string>, rewrite: string -> string)
    ensures PartlyMapped(files, rewrite, files.Keys) == files
  {
  }

  lemma PartlyMappedEnd(files: map<string, string>, rewrite: string -> string)
    ensures PartlyMapped(files, rewrite, {}) == MapFiles(files, rewrite)
  {
  }

  lemma PartlyMappedStep(files: map<string, string>, rewrite: string -> string, remaining: set<string>, path: string)
    requires path in remaining && path in files
    ensures PartlyMapped(files, rewrite, remaining)[path] == files[path]
    ensures PartlyMapped(files, rewrite, remaining - {path})
      == PartlyMapped(files, rewrite, remaining)[path := rewrite(files[path])]
  {
  }

  lemma WrittenStep(files: map<string, string>, rewrite: string -> string, w: set<string>, remaining: set<string>, path: string)
    requires path in remaining && path in files
    ensures w + (ChangedBy(files, rewrite) - (remaining - {path}))
      == (w + (ChangedBy(files, rewrite) - remaining)) + (if rewrite(files[path]) != files[path] then {path} else {})
  {
  }

  /** A file that holds no occurrence of the old image keeps its content and is not
      written. */
  lemma RewriteLeavesOthers(files: map<string, string>, pat: string, rep: string, p: string)
    requires pat != [] && p in files && !Contains(files[p], pat)
    ensures RewriteFiles(files, pat, rep)[p] == files[p]
    ensures p !in ChangedPaths(files, pat, rep)
  {
    ReplaceAllWithoutOccurrence(files[p], pat, rep);
  }

  /** Every file that is written held an occurrence of the old image. */
  lemma ChangedPathsHeldImage(files: map<string, string>, pat: string, rep: string)
    requires pat != []
    ensures forall p :: p in ChangedPaths(files, pat, rep) ==> Contains(files[p], pat)
  {
    forall p | p in ChangedPaths(files, pat, rep)
      ensures Contains(files[p], pat)
    {
      ReplaceAllChangesOnlyWithOccurrence(files[p], pat, rep);
    }
  }

  /** Rewriting an image to itself (it is already on the new tag) changes and
      writes nothing. */
  lemma RewriteToSelfIsNoOp(files: map<string, string>, pat: string)
    ensures RewriteFiles(files, pat, pat) == files
    ensures ChangedPaths(files, pat, pat) == {}
  {
    forall p | p in files
      ensures ReplaceAll(files[p], pat, pat) == files[p]
    {
      ReplaceAllBySelf(files[p], pat);
    }
  }

  /** The working tree under the repository's local path: the content of each
      file, and the paths written so far. */
  class Worktree {
    var files: map<string, string>
    var written: set<string>

    constructor (files: map<string, string>)
      ensures this.files == files && written == {}
    {
      this.files := files;
      written := {};
    }

    /** The walk over the working tree, one file at a time in some order, applying
        `rewrite` to each file's content; a file is written only when its content
        changes. */
    method RewriteAll(rewrite: string -> string)
      modifies this
      ensures files == MapFiles(old(files), rewrite)
      ensures written == old(written) + ChangedBy(old(files), rewrite)
    {
      var remaining := files.Keys;
      ghost var files0 := files;
      PartlyMappedStart(files0, rewrite);
      while remaining != {}
        invariant remaining <= files0.Keys
        invariant files == PartlyMapped(files0, rewrite, remaining)
        invariant written == old(written) + (ChangedBy(files0, rewrite) - remaining)
        decreases |remaining|
      {
        var path :| path in remaining;
        PartlyMappedStep(files0, rewrite, remaining, path);
        WrittenStep(files0, rewrite, old(written), remaining, path);
        RewriteFile(path, rewrite);
        remaining := remaining - {path};
      }
      PartlyMappedEnd(files0, rewrite);
    }

    /** One file of the walk: it is written only when the rewrite changes its
        content. */
    method RewriteFile(path: string, rewrite: string -> string)
      requires path in files
      modifies this
      ensures files == old(files)[path := rewrite(old(files)[path])]
      ensures written == old(written) + (if rewrite(old(files)[path]) != old(files)[path] then {path} else {})
    {
      var content := files[path];
      var changed := rewrite(content);
      if changed != content {
        files := files[path := changed];
        written := written + {path};
      } else {
        assert files == files[path := changed];
      }
    }
  }

  /** Replacing, in the manifests, the image a container had before the event
      by the image on the event's tag writes the image checkForUpdate gave that
      container: every manifest's content has each occurrence of the old image
      replaced by the container's new image, and a manifest entry holding just
      the old image ends up holding exactly the new one. */
  lemma RewriteMatchesContainer(image: string, eventRef: Reference, repo: Repository, plc: Policy, parse: Parser,
                                files: map<string, string>, path: string)
    requires image != []
    requires KubeUpdates.ContainerUpdate(image, eventRef, repo, plc, parse).Some?
    requires path in files
    ensures var updated := KubeUpdates.ContainerUpdate(image, eventRef, repo, plc, parse).value.0;
      && RewriteFiles(files, image, HelmCommon.GetUpdatedImage(parse(image).value, repo.tag))[path]
           == ReplaceAll(files[path], image, updated)
      && (files[path] == image ==>
            RewriteFiles(files, image, HelmCommon.GetUpdatedImage(parse(image).value, repo.tag))[path] == updated)
  {
    if files[path] == image {
      ReplaceAllWhole(image, HelmCommon.GetUpdatedImage(parse(image).value, repo.tag));
    }
  }

  /** The GitOps repository: the configured URL, the handle init keeps, the
      working tree, the tree of the last commit (`head`) and of the remote branch
      (`remote`), the messages of the commits made, and the pulls and clones init performed. */
  class Repo {
    const url: string
    const worktree: Worktree
    var repository: Option<Handle>
    var head: map<string, string>
    var remote: map<string, string>
    var commits: seq<string>
    var actions: seq<GitAction>

    constructor (url: string, files: map<string, string>)
      ensures this.url == url && repository.None? && fresh(worktree)
      ensures worktree.files == files && worktree.written == {}
      ensures head == files && remote == files && commits == [] && actions == []
    {
      this.url := url;
      worktree := new Worktree(files);
      repository := None;
      head := files;
      remote := files;
      commits := [];
      actions := [];
    }

    /** The working tree and last commit are the remote branch's. */
    predicate AtRemote()
      reads this, worktree
    {
      worktree.files == remote && head == remote
    }

    /** The state newClone leaves, from a last commit `head0`: once the clone
        itself succeeds (even when the fetch after it fails) the remote branch
        is checked out; a failed clone leaves the removed local path empty. */
    predicate ClonedState(outcome: CloneOutcome, head0: map<string, string>)
      reads this, worktree
    {
      if outcome.CloneFailed? then worktree.files == map[] && head == head0 else AtRemote()
    }

    /** newClone: the local path is removed, then the remote branch is cloned
        into it; only a clone whose fetch also succeeds gives a handle. */
    method NewClone(outcome: CloneOutcome) returns (ok: bool)
      modifies this, worktree
      ensures ok <==> outcome.Cloned?
      ensures actions == old(actions) + [Clone] && repository == old(repository)
      ensures remote == old(remote) && commits == old(commits) && worktree.written == old(worktree.written)
      ensures ClonedState(outcome, old(head))
    {
      actions := actions + [Clone];
      worktree.files := map[];
      if outcome.CloneFailed? {
        return false;
      }
      worktree.files := remote;
      head := remote;
      return outcome.Cloned?;
    }

    /** pull: a forced pull of the branch and a forced checkout, which on
        success leave the branch and the working tree at the remote's. */
    method PullBranch(pullOk: bool) returns (ok: bool)
      modifies this, worktree
      ensures ok == pullOk
      ensures actions == old(actions) + [Pull] && repository == old(repository)
      ensures remote == old(remote) && commits == old(commits) && worktree.written == old(worktree.written)
      ensures pullOk ==> AtRemote()
      ensures !pullOk ==> worktree.files == old(worktree.files) && head == old(head)
    {
      actions := actions + [Pull];
      if pullOk {
        worktree.files := remote;
        head := remote;
      }
      return pullOk;
    }

    /** init: with no repository open, a missing local copy, a local copy without
        an `origin` remote or with an `origin` URL other than the configured one is
        cloned afresh; a matching one is opened and pulled, and cloned afresh if
        the pull fails. A failed clone leaves the repository unset (or, after a
        failed pull, the opened handle). With a repository already open it is
        pulled, and a failed pull is followed by a clone whose handle is dropped
        although the clone replaced the local copy on disk. The remote, the log of
        commits made and the set of written files are never changed. */
    method Init(local: Option<LocalCopy>, pullOk: bool, clone: CloneOutcome)
      modifies this, worktree
      ensures remote == old(remote) && commits == old(commits) && worktree.written == old(worktree.written)
      ensures old(repository).None? && (local.None? || local.value.origin != Some(url)) ==>
        && actions == old(actions) + [Clone]
        && repository == (if clone.Cloned? then Some(FreshClone) else None)
        && ClonedState(clone, old(head))
      ensures old(repository).None? && local == Some(LocalCopy(Some(url))) ==>
        && actions == old(actions) + (if pullOk then [Pull] else [Pull, Clone])
        && repository == Some(if pullOk || !clone.Cloned? then OpenedLocal else FreshClone)
        && (if pullOk then AtRemote() else ClonedState(clone, old(head)))
      ensures old(repository).Some? ==>
        && actions == old(actions) + (if pullOk then [Pull] else [Pull, Clone])
        && repository == old(repository)
        && (if pullOk then AtRemote() else ClonedState(clone, old(head)))
    {
      var ok: bool;
      if repository.None? {
        var handle: Handle;
        if local.Some? {
          if local.value.origin.None? {
            ok := NewClone(clone);
            if !ok {
              return;
            }
            handle := FreshClone;
          } else if local.value.origin.value != url {
            ok := NewClone(clone);
            if !ok {
              return;
            }
            handle := FreshClone;
          } else {
            repository := Some(OpenedLocal);
            handle := OpenedLocal;
            ok := PullBranch(pullOk);
            if !ok {
              ok := NewClone(clone);
              if !ok {
                return;
              }
              handle := FreshClone;
            }
          }
        } else {
          ok := NewClone(clone);
          if !ok {
            return;
          }
          handle := FreshClone;
        }
        repository := Some(handle);
      } else {
        ok := PullBranch(pullOk);
        if !ok {
          ok := NewClone(clone);
        }
      }
    }

    /** GrepAndReplace: every occurrence of `oldImage` in every file is replaced by
        the image rewritten to `newTag`, and only files whose content changes are
        written. An `oldImage` that does not parse makes the walk fail at the first
        file, before any file is written. */
    method GrepAndReplace(oldImage: string, newTag: string, parse: Parser) returns (crashed: bool)
      modifies worktree
      ensures crashed <==> parse(oldImage).None? && old(worktree.files) != map[]
      ensures parse(oldImage).None? ==> worktree.files == old(worktree.files) && worktree.written == old(worktree.written)
      ensures parse(oldImage).Some? ==>
        var rep := HelmCommon.GetUpdatedImage(parse(oldImage).value, newTag);
        && worktree.files == RewriteFiles(old(worktree.files), oldImage, rep)
        && worktree.written == old(worktree.written) + ChangedPaths(old(worktree.files), oldImage, rep)
    {
      var ref := parse(oldImage);
      if ref.None? {
        return worktree.files != map[];
      }
      var rep := HelmCommon.GetUpdatedImage(ref.value, newTag);
      ghost var files0 := worktree.files;
      var rewrite := (content: string) => ReplaceAll(content, oldImage, rep);
      worktree.RewriteAll(rewrite);
      assert worktree.files == RewriteFiles(files0, oldImage, rep);
      assert ChangedBy(files0, rewrite) == ChangedPaths(files0, oldImage, rep);
      return false;
    }

    /** CommitAndPushAll: when the working tree differs from the last commit, it
        is committed with `msg` and pushed; a commit failure is returned before any
        push. With no changes nothing is committed and the result is no error.
        Failures to open the worktree or read its status are returned first.
        Without a repository handle (a failed clone in init) the call crashes on
        the nil handle before doing anything. */
    method CommitAndPushAll(msg: string, worktreeErr: Option<string>, statusErr: Option<string>,
                            commitErr: Option<string>, pushErr: Option<string>) returns (err: Option<string>, crashed: bool)
      modifies this
      ensures repository == old(repository) && actions == old(actions)
      ensures crashed <==> repository.None?
      ensures crashed ==> err.None? && head == old(head) && remote == old(remote) && commits == old(commits)
      ensures !crashed && worktreeErr.Some? ==> err == worktreeErr && head == old(head) && remote == old(remote) && commits == old(commits)
      ensures !crashed && worktreeErr.None? && statusErr.Some? ==>
        err == statusErr && head == old(head) && remote == old(remote) && commits == old(commits)
      ensures !crashed && worktreeErr.None? && statusErr.None? && worktree.files == old(head) ==>
        err.None? && head == old(head) && remote == old(remote) && commits == old(commits)
      ensures !crashed && worktreeErr.None? && statusErr.None? && worktree.files != old(head) && commitErr.Some? ==>
        err == commitErr && head == old(head) && remote == old(remote) && commits == old(commits)
      ensures !crashed && worktreeErr.None? && statusErr.None? && worktree.files != old(head) && commitErr.None? ==>
        && head == worktree.files && commits == old(commits) + [msg]
        && err == pushErr
        && remote == (if pushErr.None? then worktree.files else old(remote))
    {
      if repository.None? {
        return None, true;
      }
      if worktreeErr.Some? {
        return worktreeErr, false;
      }
      if statusErr.Some? {
        return statusErr, false;
      }
      if worktree.files != head {
        if commitErr.Some? {
          return commitErr, false;
        }
        head := worktree.files;
        commits := commits + [msg];
        if pushErr.Some? {
          return pushErr, false;
        }
        remote := head;
      }
      return None, false;
    }
  }
}
