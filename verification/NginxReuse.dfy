/** Hooking into a running nginx through one of its include directories, and leaving no trace where
    it does not work. */
module NginxReuse {
  import opened Json

  datatype File = File(data: string, mode: nat)

  type Files = map<string, File>

  /** What happens to one candidate: each write, test and reload works or not, and a reload that
      reports an error may have been done all the same. */
  datatype Luck = Luck(
    writeLoader: bool,
    writeDomain: bool,
    test: bool,
    reload: bool,
    reloadedAnyway: bool,
    shown: bool,
    restoreLoader: bool,
    restoreDomain: bool,
    retest: bool,
    reloadAgain: bool)

  predicate RestoresWork(l: Luck)
  {
    l.restoreLoader && l.restoreDomain
  }

  /** A candidate is accepted, or rejected with or without an error from its rollback. `reloaded`
      tells whether nginx was asked to reload at all. */
  datatype Attempt = Accepted | Rejected(rollbackFailed: bool, reloaded: bool)

  datatype Setup = Installed(candidate: nat) | Failed(rollbackFailed: bool, reloaded: bool)

  /** A file that may be replaced: one of our own, or none at all. */
  predicate Replaceable(files: Files, path: string, ours: string -> bool)
  {
    path in files ==> ours(files[path].data)
  }

  function At(files: Files, path: string): Option<File>
  {
    if path in files then Some(files[path]) else None
  }

  function Put(files: Files, path: string, file: Option<File>): Files
  {
    if file.Some? then files[path := file.value] else files - {path}
  }

  // the mode 0644
  const NEW_MODE := 0x1a4

  /** The two paths hold what they held or what was to be restored, and no other path changes. */
  ghost predicate Between(before: Files, after: Files, loader: string, oldLoader: Option<File>, domain: string, oldDomain: Option<File>)
  {
    forall path :: At(after, path) == At(before, path)
                || (path == loader && At(after, path) == oldLoader) || (path == domain && At(after, path) == oldDomain)
  }

  /** The marker by which a file counts as our own: one for the domain file, another for the loaders. */
  datatype Markers = Markers(domain: string, ourLoader: string -> bool, ourDomain: string -> bool)

  predicate Claimable(files: Files, path: string, marks: Markers)
  {
    Replaceable(files, path, if path == marks.domain then marks.ourDomain else marks.ourLoader)
  }

  /** Each path may be replaced afterwards exactly if it could be before. */
  ghost predicate SameClaims(before: Files, after: Files, marks: Markers)
  {
    forall path :: Claimable(after, path, marks) <==> Claimable(before, path, marks)
  }

  lemma RestoredClaims(before: Files, written: Files, after: Files, loader: string, marks: Markers)
    requires SameClaims(before, written, marks)
    requires Between(written, after, loader, At(before, loader), marks.domain, At(before, marks.domain))
    ensures SameClaims(before, after, marks)
  {
    forall path ensures Claimable(after, path, marks) <==> Claimable(before, path, marks) {
      assert At(after, path) == At(written, path) || At(after, path) == At(before, path);
      assert Claimable(written, path, marks) <==> Claimable(before, path, marks);
    }
  }

  /** Whether a candidate gets through: its two files may be replaced, and nothing fails. */
  predicate Works(files: Files, loader: string, marks: Markers, l: Luck)
  {
    && Claimable(files, loader, marks) && Claimable(files, marks.domain, marks)
    && l.writeLoader && l.writeDomain && l.test && l.reload && l.shown
  }

  class Nginx {
    var files: Files
    /** The files as they were when nginx last loaded them. */
    var running: Files

    constructor (files: Files, running: Files)
      ensures this.files == files && this.running == running
    {
      this.files, this.running := files, running;
    }

    method Write(path: string, data: string, ok: bool)
      modifies this`files
      ensures files == if ok then old(files)[path := File(data, NEW_MODE)] else old(files)
    {
      if ok {
        files := files[path := File(data, NEW_MODE)];
      }
    }

    method Restore(path: string, snapshot: Option<File>, ok: bool)
      modifies this`files
      ensures files == if ok then Put(old(files), path, snapshot) else old(files)
    {
      if ok {
        files := Put(files, path, snapshot);
      }
    }

    method Rollback(loader: string, domain: string, oldLoader: Option<File>, oldDomain: Option<File>, luck: Luck) returns (ok: bool)
      modifies this`files
      ensures ok == RestoresWork(luck)
      ensures ok ==> files == Put(Put(old(files), loader, oldLoader), domain, oldDomain)
      ensures Between(old(files), files, loader, oldLoader, domain, oldDomain)
    {
      Restore(loader, oldLoader, luck.restoreLoader);
      Restore(domain, oldDomain, luck.restoreDomain);
      ok := luck.restoreLoader && luck.restoreDomain;
    }

    method Reload(ok: bool, anyway: bool)
      modifies this`running
      ensures running == if ok || anyway then files else old(running)
    {
      if ok || anyway {
        running := files;
      }
    }

    /** Restores the files, tests them and loads them again. */
    method RollbackAndReload(loader: string, domain: string, oldLoader: Option<File>, oldDomain: Option<File>, luck: Luck)
      returns (ok: bool)
      modifies this
      ensures ok == (RestoresWork(luck) && luck.retest && luck.reloadAgain)
      ensures RestoresWork(luck) ==> files == Put(Put(old(files), loader, oldLoader), domain, oldDomain)
      ensures ok ==> running == files
      ensures Between(old(files), files, loader, oldLoader, domain, oldDomain)
    {
      ok := Rollback(loader, domain, oldLoader, oldDomain, luck);
      if ok {
        if !luck.retest {
          return false;
        }
        Reload(luck.reloadAgain, false);
        ok := luck.reloadAgain;
      }
    }

    /** Writes the loader and the domain file, tests, reloads, and looks whether nginx has really
        loaded them; whatever goes wrong, puts everything back. */
    method TryCandidate(loader: string, marks: Markers, loaderText: string, domainText: string, luck: Luck) returns (r: Attempt)
      requires loader != marks.domain
      modifies this
      ensures r.Accepted? ==> files == old(files)[loader := File(loaderText, 0x1a4)][marks.domain := File(domainText, 0x1a4)]
      ensures r.Accepted? ==> running == files
      ensures r.Accepted? <==> Works(old(files), loader, marks, luck)
      ensures r.Accepted? <==>
                && (loader in old(files) ==> marks.ourLoader(old(files)[loader].data))
                && (marks.domain in old(files) ==> marks.ourDomain(old(files)[marks.domain].data))
                && luck.writeLoader && luck.writeDomain && luck.test && luck.reload && luck.shown
      ensures r.Rejected? && RestoresWork(luck) ==> files == old(files)
      ensures r.Rejected? && !r.rollbackFailed && RestoresWork(luck) ==>
                running == if r.reloaded then old(files) else old(running)
      ensures r.Rejected? && !r.rollbackFailed && !RestoresWork(luck) ==>
                !luck.writeLoader || !Claimable(old(files), loader, marks) || !Claimable(old(files), marks.domain, marks)
      ensures r.Rejected? && r.rollbackFailed ==> !RestoresWork(luck) || !luck.retest || !luck.reloadAgain
      ensures r.Rejected? && marks.ourLoader(loaderText) && marks.ourDomain(domainText) ==> SameClaims(old(files), files, marks)
    {
      var domain := marks.domain;
      if !Replaceable(files, loader, marks.ourLoader) || !Replaceable(files, domain, marks.ourDomain) {
        return Rejected(false, false);
      }
      var oldLoader, oldDomain := At(files, loader), At(files, domain);
      ghost var before := files;
      Write(loader, loaderText, luck.writeLoader);
      if !luck.writeLoader {
        var _ := Rollback(loader, domain, oldLoader, oldDomain, luck);
        PutBack(before, before, loader, domain);
        RestoredClaims(before, before, files, loader, marks);
        return Rejected(false, false);
      }
      Write(domain, domainText, luck.writeDomain);
      ghost var written := files;
      PutBack(before, written, loader, domain);
      if !luck.writeDomain || !luck.test {
        var ok := Rollback(loader, domain, oldLoader, oldDomain, luck);
        RestoredIfMarked(before, written, files, loader, marks, loaderText, domainText);
        return Rejected(!ok, false);
      }
      Reload(luck.reload, luck.reloadedAnyway);
      if !luck.reload || !luck.shown {
        var ok := RollbackAndReload(loader, domain, oldLoader, oldDomain, luck);
        RestoredIfMarked(before, written, files, loader, marks, loaderText, domainText);
        return Rejected(!ok, true);
      }
      r := Accepted;
    }

    /** Tries one candidate after the other until one is accepted: the first that works, whether or
        not the rollbacks of those before it did. */
    method SetupReuse(loaders: seq<string>, marks: Markers, loaderText: string, domainText: string, lucks: seq<Luck>)
      returns (r: Setup)
      requires |lucks| == |loaders| && marks.domain !in loaders
      modifies this
      ensures marks.ourLoader(loaderText) && marks.ourDomain(domainText) ==>
                match r
                case Installed(n) =>
                  && n < |loaders| && Works(old(files), loaders[n], marks, lucks[n])
                  && forall i :: 0 <= i < n ==> !Works(old(files), loaders[i], marks, lucks[i])
                case Failed(_, _) => forall i :: 0 <= i < |loaders| ==> !Works(old(files), loaders[i], marks, lucks[i])
      ensures (forall i :: 0 <= i < |lucks| ==> RestoresWork(lucks[i])) && r.Failed? ==> files == old(files)
      ensures (forall i :: 0 <= i < |lucks| ==> RestoresWork(lucks[i])) && r.Failed? && !r.rollbackFailed ==>
                running == if r.reloaded then old(files) else old(running)
      ensures (forall i :: 0 <= i < |lucks| ==> RestoresWork(lucks[i])) && r.Installed? ==>
                && r.candidate < |loaders| && running == files
                && files == old(files)[loaders[r.candidate] := File(loaderText, 0x1a4)][marks.domain := File(domainText, 0x1a4)]
    {
      var rollbackFailed, reloaded := false, false;
      for n := 0 to |loaders|
        invariant (forall i :: 0 <= i < |lucks| ==> RestoresWork(lucks[i])) ==> files == old(files)
        invariant (forall i :: 0 <= i < |lucks| ==> RestoresWork(lucks[i])) && !rollbackFailed ==>
                    running == if reloaded then old(files) else old(running)
        invariant marks.ourLoader(loaderText) && marks.ourDomain(domainText) ==> SameClaims(old(files), files, marks)
        invariant marks.ourLoader(loaderText) && marks.ourDomain(domainText) ==>
                    forall i :: 0 <= i < n ==> !Works(old(files), loaders[i], marks, lucks[i])
      {
        var attempt := TryCandidate(loaders[n], marks, loaderText, domainText, lucks[n]);
        if attempt.Accepted? {
          return Installed(n);
        }
        rollbackFailed := rollbackFailed || attempt.rollbackFailed;
        reloaded := reloaded || attempt.reloaded;
      }
      r := Failed(rollbackFailed, reloaded);
    }
  }

  /** What has been written over our own files is our own again, and stays so while it is put back. */
  lemma RestoredIfMarked(before: Files, written: Files, after: Files, loader: string, marks: Markers, loaderText: string, domainText: string)
    requires Claimable(before, loader, marks) && Claimable(before, marks.domain, marks) && loader != marks.domain
    requires written == before[loader := File(loaderText, NEW_MODE)]
          || written == before[loader := File(loaderText, NEW_MODE)][marks.domain := File(domainText, NEW_MODE)]
    requires Between(written, after, loader, At(before, loader), marks.domain, At(before, marks.domain))
    ensures marks.ourLoader(loaderText) && marks.ourDomain(domainText) ==> SameClaims(before, after, marks)
  {
    if marks.ourLoader(loaderText) && marks.ourDomain(domainText) {
      assert SameClaims(before, written, marks);
      RestoredClaims(before, written, after, loader, marks);
    }
  }

  /** Putting back what was at two paths undoes every change there. */
  lemma PutBack(before: Files, after: Files, loader: string, domain: string)
    requires forall path :: path != loader && path != domain ==> At(after, path) == At(before, path)
    ensures Put(Put(after, loader, At(before, loader)), domain, At(before, domain)) == before
  {
    var r := Put(Put(after, loader, At(before, loader)), domain, At(before, domain));
    forall path ensures (path in r <==> path in before) && (path in r ==> r[path] == before[path]) {
      assert path == loader || path == domain || At(after, path) == At(before, path);
    }
  }
}
