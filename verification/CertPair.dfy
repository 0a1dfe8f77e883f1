/** Replacing a certificate and its key, which no single rename can do. */
module CertPairs {
  import opened Json

  datatype File = File(data: string, mode: nat)

  /** A path and the file there, if there is one. */
  datatype FileState = FileState(path: string, file: Option<File>)

  datatype Pair = Pair(cert: FileState, key: FileState)

  datatype Deployment = Deployment(before: Pair, after: Pair)

  /** A replacement is done, has failed with the old pair in place, or has failed and could not put
      the certificate back, which it reports. */
  datatype Outcome = Replaced | Kept | Mixed

  function At(files: map<string, File>, path: string): Option<File>
  {
    if path in files then Some(files[path]) else None
  }

  predicate Holds(files: map<string, File>, pair: Pair)
  {
    At(files, pair.cert.path) == pair.cert.file && At(files, pair.key.path) == pair.key.file
  }

  predicate SamePaths(a: Pair, b: Pair)
  {
    a.cert.path == b.cert.path && a.key.path == b.key.path && a.cert.path != a.key.path
  }

  /** Nothing has changed but the given paths. */
  ghost predicate OnlyAt(before: map<string, File>, after: map<string, File>, paths: set<string>)
  {
    forall path: string :: path !in paths ==> At(after, path) == At(before, path)
  }

  /** Three names that the system hands out for temporary files. */
  predicate Names(temps: seq<string>, paths: Pair)
  {
    && |temps| == 3 && temps[0] != temps[1] && temps[0] != temps[2] && temps[1] != temps[2]
    && Apart(temps[0], paths) && Apart(temps[1], paths) && Apart(temps[2], paths)
  }

  predicate Apart(temp: string, paths: Pair)
  {
    temp != paths.cert.path && temp != paths.key.path
  }

  predicate Unused(files: map<string, File>, temps: seq<string>)
    requires |temps| == 3
  {
    temps[0] !in files && temps[1] !in files && temps[2] !in files
  }

  function Touched(temps: seq<string>, paths: Pair): set<string>
    requires |temps| == 3
  {
    {paths.cert.path, paths.key.path, temps[0], temps[1], temps[2]}
  }

  predicate StagedAs(files: map<string, File>, want: FileState, temp: string, staged: Option<string>)
  {
    staged == (if want.file.Some? then Some(temp) else None) && (want.file.Some? ==> At(files, temp) == want.file)
  }

  ghost predicate NoFailure(fails: nat -> bool, from: nat, to: nat)
  {
    forall t :: from <= t < to ==> !fails(t)
  }

  /** The certificate was not left without its key before a rename, and then the way back, had failed. */
  ghost predicate FailedTwice(fails: nat -> bool, from: nat, to: nat)
  {
    exists t, u :: from <= t < u < to && fails(t) && fails(u)
  }

  predicate Gone(files: map<string, File>, temps: seq<string>)
  {
    forall i :: 0 <= i < |temps| ==> At(files, temps[i]) == None
  }

  /** Files on a disk whose renames and removes fail by a schedule. */
  class Disk {
    var files: map<string, File>
    var clock: nat
    const fails: nat -> bool

    constructor (files: map<string, File>, fails: nat -> bool)
      ensures this.files == files && this.fails == fails
    {
      this.files, this.fails, clock := files, fails, 0;
    }

    method Tick() returns (ok: bool)
      modifies this`clock
      ensures ok <==> !fails(old(clock))
      ensures clock == old(clock) + 1
    {
      ok := !fails(clock);
      clock := clock + 1;
    }

    method Rename(from: string, to: string) returns (ok: bool)
      requires from in files && from != to
      modifies this
      ensures clock == old(clock) + 1 && (ok <==> !fails(old(clock)))
      ensures files == if ok then old(files)[to := old(files)[from]] - {from} else old(files)
    {
      ok := Tick();
      if ok {
        files := files[to := files[from]] - {from};
      }
    }

    /** Removing what is not there is fine. */
    method Remove(path: string) returns (ok: bool)
      modifies this
      ensures clock == old(clock) + 1 && (ok <==> path !in old(files) || !fails(old(clock)))
      ensures files == if ok then old(files) - {path} else old(files)
    {
      var done := Tick();
      if done {
        files := files - {path};
      }
      ok := done || path !in files;
      if ok {
        files := files - {path};
      }
    }

    /** Writes the wanted file under a name of its own; a file that is to be absent needs none. A
        write that fails takes the name away again, if it can. */
    method Stage(want: FileState, temp: string) returns (ok: bool, staged: Option<string>)
      requires temp !in files
      modifies this
      ensures old(clock) <= clock && (NoFailure(fails, old(clock), clock) ==> ok)
      ensures ok ==> StagedAs(files, want, temp, staged)
      ensures !ok ==> staged.None?
      ensures OnlyAt(old(files), files, {temp}) && (ok && want.file.None? ==> temp !in files)
    {
      if want.file.None? {
        return true, None;
      }
      ok := Tick();
      if !ok {
        files := files[temp := File("", 0)];
        var _ := Remove(temp);
        return false, None;
      }
      files := files[temp := want.file.value];
      staged := Some(temp);
    }

    /** Puts the wanted file in its place, or takes away what is there. */
    method Apply(want: FileState, staged: Option<string>) returns (ok: bool, left: Option<string>)
      requires want.file.Some? ==> staged.Some? && staged.value != want.path && At(files, staged.value) == want.file
      modifies this
      ensures old(clock) <= clock && (NoFailure(fails, old(clock), clock) ==> ok)
      ensures ok ==> At(files, want.path) == want.file && left == (if want.file.Some? then None else staged)
      ensures ok ==> OnlyAt(old(files), files, {want.path} + (if want.file.Some? then {staged.value} else {}))
      ensures ok && want.file.Some? ==> At(files, staged.value) == None
      ensures !ok ==> files == old(files) && left == staged
    {
      left := staged;
      if want.file.Some? {
        ok := Rename(staged.value, want.path);
        if ok {
          left := None;
        }
        return;
      }
      ok := Remove(want.path);
    }

    method Discard(staged: Option<string>)
      modifies this
      ensures old(clock) <= clock
      ensures OnlyAt(old(files), files, if staged.Some? then {staged.value} else {})
      ensures staged.Some? && NoFailure(fails, old(clock), clock) ==> staged.value !in files
    {
      if staged.Some? {
        var _ := Remove(staged.value);
      }
    }

    /** Stages both files, and a copy of the old certificate in case it has to come back. */
    method StageAll(desired: Pair, fallback: Pair, temps: seq<string>)
      returns (ok: bool, certTemp: Option<string>, keyTemp: Option<string>, oldTemp: Option<string>)
      requires Names(temps, desired) && Unused(files, temps)
      modifies this
      ensures old(clock) <= clock && (NoFailure(fails, old(clock), clock) ==> ok)
      ensures OnlyAt(old(files), files, {temps[0], temps[1], temps[2]})
      ensures ok ==> StagedAs(files, desired.cert, temps[0], certTemp) && StagedAs(files, desired.key, temps[1], keyTemp)
      ensures ok ==> StagedAs(files, fallback.cert, temps[2], oldTemp)
      ensures ok && certTemp.None? ==> At(files, temps[0]) == None
      ensures ok && keyTemp.None? ==> At(files, temps[1]) == None
      ensures ok && oldTemp.None? ==> At(files, temps[2]) == None
    {
      keyTemp, oldTemp := None, None;
      assert At(files, temps[1]).None? && At(files, temps[2]).None?;
      ok, certTemp := Stage(desired.cert, temps[0]);
      if !ok {
        return;
      }
      assert At(files, temps[1]).None? && At(files, temps[2]).None?;
      ok, keyTemp := Stage(desired.key, temps[1]);
      if !ok {
        Discard(certTemp);
        return;
      }
      assert At(files, temps[2]).None?;
      ok, oldTemp := Stage(fallback.cert, temps[2]);
      if !ok {
        Discard(keyTemp);
        Discard(certTemp);
      }
    }

    /** Replaces the certificate and the key, with everything staged beforehand. When the key cannot
        be replaced the certificate is put back. */
    method ReplacePair(desired: Pair, fallback: Pair, temps: seq<string>) returns (r: Outcome)
      requires SamePaths(desired, fallback) && Holds(files, fallback)
      requires Names(temps, desired) && Unused(files, temps)
      modifies this
      ensures r.Replaced? ==> Holds(files, desired)
      ensures r.Kept? ==> Holds(files, fallback)
      ensures r.Mixed? ==> Holds(files, Pair(desired.cert, fallback.key)) && FailedTwice(fails, old(clock), clock)
      ensures old(clock) <= clock && (NoFailure(fails, old(clock), clock) ==> r.Replaced? && Gone(files, temps))
      ensures OnlyAt(old(files), files, Touched(temps, desired))
    {
      var ok, certTemp, keyTemp, oldTemp := StageAll(desired, fallback, temps);
      if !ok {
        return Kept;
      }
      r, certTemp, keyTemp, oldTemp := Swap(desired, fallback, certTemp, keyTemp, oldTemp, temps);
      DiscardAll(certTemp, keyTemp, oldTemp, temps, desired);
    }

    method DiscardAll(cert: Option<string>, key: Option<string>, old_: Option<string>, temps: seq<string>, ghost paths: Pair)
      requires Names(temps, paths)
      requires cert in {None, Some(temps[0])} && key in {None, Some(temps[1])} && old_ in {None, Some(temps[2])}
      modifies this
      ensures old(clock) <= clock && OnlyAt(old(files), files, {temps[0], temps[1], temps[2]})
      ensures NoFailure(fails, old(clock), clock) && (cert.None? ==> At(old(files), temps[0]) == None)
              && (key.None? ==> At(old(files), temps[1]) == None) && (old_.None? ==> At(old(files), temps[2]) == None)
              ==> Gone(files, temps)
    {
      Discard(old_);
      Discard(key);
      Discard(cert);
    }

    method Swap(desired: Pair, fallback: Pair, certTemp: Option<string>, keyTemp: Option<string>, oldTemp: Option<string>, temps: seq<string>)
      returns (r: Outcome, certLeft: Option<string>, keyLeft: Option<string>, oldLeft: Option<string>)
      requires SamePaths(desired, fallback) && Holds(files, fallback) && Names(temps, desired)
      requires StagedAs(files, desired.cert, temps[0], certTemp)
      requires StagedAs(files, desired.key, temps[1], keyTemp)
      requires StagedAs(files, fallback.cert, temps[2], oldTemp)
      modifies this
      ensures old(clock) <= clock && (NoFailure(fails, old(clock), clock) ==> r.Replaced?)
      ensures r.Replaced? ==> Holds(files, desired)
      ensures r.Kept? ==> Holds(files, fallback)
      ensures r.Mixed? ==> Holds(files, Pair(desired.cert, fallback.key)) && FailedTwice(fails, old(clock), clock)
      ensures OnlyAt(old(files), files, Touched(temps, desired))
      ensures r.Replaced? ==> oldLeft == oldTemp && At(files, temps[2]) == old(At(files, temps[2]))
      ensures r.Replaced? ==> At(files, temps[0]) == if certTemp.Some? then None else old(At(files, temps[0]))
      ensures r.Replaced? ==> At(files, temps[1]) == if keyTemp.Some? then None else old(At(files, temps[1]))
      ensures certLeft in {None, Some(temps[0])} && keyLeft in {None, Some(temps[1])} && oldLeft in {None, Some(temps[2])}
    {
      var ok: bool;
      keyLeft, oldLeft := keyTemp, oldTemp;
      ok, certLeft := Apply(desired.cert, certTemp);
      if !ok {
        r := Kept;
        return;
      }
      ok, keyLeft := Apply(desired.key, keyTemp);
      if ok {
        r := Replaced;
        return;
      }
      ok, oldLeft := Apply(fallback.cert, oldTemp);
      r := if ok then Kept else Mixed;
    }

    /** Deploys a new pair over whatever is there. */
    method Deploy(certPath: string, keyPath: string, cert: string, key: string, temps: seq<string>)
      returns (r: Option<Outcome>, deployment: Deployment)
      requires Names(temps, Pair(FileState(certPath, None), FileState(keyPath, None))) && Unused(files, temps)
      modifies this
      ensures r.None? <==> certPath == keyPath
      ensures r.None? ==> files == old(files)
      ensures r.Some? ==> SamePaths(deployment.before, deployment.after) && Holds(old(files), deployment.before)
      ensures r.Some? ==> deployment.after == Pair(FileState(certPath, Some(File(cert, OWNER_WRITES_ALL_READ))),
                                                   FileState(keyPath, Some(File(key, OWNER_ONLY))))
      ensures r == Some(Replaced) ==> Holds(files, deployment.after)
      ensures r == Some(Kept) ==> Holds(files, deployment.before)
      ensures r == Some(Mixed) ==>
                Holds(files, Pair(deployment.after.cert, deployment.before.key)) && FailedTwice(fails, old(clock), clock)
      ensures old(clock) <= clock && (r.Some? && NoFailure(fails, old(clock), clock) ==> r.value.Replaced? && Gone(files, temps))
      ensures OnlyAt(old(files), files, Touched(temps, deployment.after)) && deployment.after.cert.path == certPath
      ensures deployment.after.key.path == keyPath
    {
      var before := Pair(FileState(certPath, At(files, certPath)), FileState(keyPath, At(files, keyPath)));
      var after := Pair(FileState(certPath, Some(File(cert, CERT_MODE))), FileState(keyPath, Some(File(key, KEY_MODE))));
      deployment := Deployment(before, after);
      if certPath == keyPath {
        return None, deployment;
      }
      var outcome := ReplacePair(after, before, temps);
      r := Some(outcome);
    }

    /** Restores contents, modes and absence as they were before the deployment. */
    method Rollback(d: Deployment, temps: seq<string>) returns (r: Outcome)
      requires SamePaths(d.before, d.after) && Holds(files, d.after)
      requires Names(temps, d.after) && Unused(files, temps)
      modifies this
      ensures r.Replaced? ==> Holds(files, d.before)
      ensures r.Kept? ==> Holds(files, d.after)
      ensures r.Mixed? ==> Holds(files, Pair(d.before.cert, d.after.key)) && FailedTwice(fails, old(clock), clock)
      ensures old(clock) <= clock && (NoFailure(fails, old(clock), clock) ==> r.Replaced? && Gone(files, temps))
      ensures OnlyAt(old(files), files, Touched(temps, d.after))
    {
      r := ReplacePair(d.before, d.after, temps);
    }

    /** Deploys a pair and has it loaded, by nginx and then by Xray. When either fails and the old pair
        could be restored, both paths hold again what they held before the request, file or no file,
        and the services that may have seen the new pair are told. A recovery that stays blocked after
        Xray took the new pair is an error that leaves the pair in place. */
    method DeployAndReload(certPath: string, keyPath: string, cert: string, key: string, temps: seq<string>, again: seq<string>,
                           reloads: Reloads)
      returns (ok: bool, restored: bool, recovered: nat)
      requires |temps| == 3 && |again| == 3 && (forall i, j :: 0 <= i < 3 && 0 <= j < 3 ==> again[i] != temps[j])
      requires Names(temps, Pair(FileState(certPath, None), FileState(keyPath, None))) && Unused(files, temps)
      requires Names(again, Pair(FileState(certPath, None), FileState(keyPath, None))) && Unused(files, again)
      modifies this
      ensures ok ==> Deployed(files, certPath, keyPath, cert, key) && certPath != keyPath
      ensures ok ==> reloads.nginx != Some(false) && reloads.xray != Some(false) && !(reloads.xray == Some(true) && reloads.blocked)
      ensures restored ==> !ok && At(files, certPath) == old(At(files, certPath)) && At(files, keyPath) == old(At(files, keyPath))
      ensures recovered > 0 ==> restored && (reloads.nginx == Some(false) || reloads.xray == Some(false))
      ensures recovered == 0 || recovered == Told(reloads)
      ensures certPath != keyPath && NoFailure(fails, old(clock), clock) ==>
                && (restored <==> reloads.nginx == Some(false) || reloads.xray == Some(false))
                && (ok <==> !restored && !(reloads.xray == Some(true) && reloads.blocked))
                && (restored ==> recovered == Told(reloads))
                && (!restored ==> Deployed(files, certPath, keyPath, cert, key))
                && Gone(files, temps) && Gone(files, again)
    {
      recovered := 0;
      var r, deployment := Deploy(certPath, keyPath, cert, key, temps);
      if r != Some(Replaced) {
        return false, r.None? || r == Some(Kept), 0;
      }
      assert At(files, again[0]).None? && At(files, again[1]).None? && At(files, again[2]).None?;
      ok, restored, recovered := LoadOrUndo(deployment, again, reloads);
    }

    method LoadOrUndo(d: Deployment, temps: seq<string>, reloads: Reloads) returns (ok: bool, restored: bool, recovered: nat)
      requires SamePaths(d.before, d.after) && Holds(files, d.after)
      requires |temps| == 3 && Names(temps, d.after) && Unused(files, temps)
      modifies this
      ensures old(clock) <= clock && OnlyAt(old(files), files, Touched(temps, d.after))
      ensures reloads.nginx != Some(false) && reloads.xray != Some(false) ==>
                files == old(files) && !restored && recovered == 0 && (ok <==> !(reloads.xray == Some(true) && reloads.blocked))
      ensures reloads.nginx == Some(false) || reloads.xray == Some(false) ==>
                && !ok && (restored ==> Holds(files, d.before)) && recovered == (if restored then Told(reloads) else 0)
                && (NoFailure(fails, old(clock), clock) ==> restored && Gone(files, temps))
    {
      if reloads.nginx == Some(false) {
        restored, recovered := Undo(d, temps, [reloads.nginxAgain]);
        return false, restored, recovered;
      }
      if reloads.xray == Some(false) {
        var services := (if reloads.nginx.Some? then [reloads.nginxAgain] else []) + [reloads.xrayAgain];
        restored, recovered := Undo(d, temps, services);
        return false, restored, recovered;
      }
      return !Blocked(reloads), false, 0;
    }

    method Undo(d: Deployment, temps: seq<string>, services: seq<bool>) returns (restored: bool, recovered: nat)
      requires SamePaths(d.before, d.after) && Holds(files, d.after)
      requires |temps| == 3 && Names(temps, d.after) && Unused(files, temps)
      modifies this
      ensures restored ==> Holds(files, d.before)
      ensures recovered == if restored then multiset(services)[true] else 0
      ensures old(clock) <= clock && (NoFailure(fails, old(clock), clock) ==> restored && Gone(files, temps))
      ensures OnlyAt(old(files), files, Touched(temps, d.after))
    {
      var back;
      back, recovered := RollbackAfterReloadFailure(d, temps, services);
      restored := back.Replaced?;
    }

    /** After a failed reload: the old pair comes back, and only then are the services told. */
    method RollbackAfterReloadFailure(d: Deployment, temps: seq<string>, services: seq<bool>) returns (r: Outcome, recovered: nat)
      requires SamePaths(d.before, d.after) && Holds(files, d.after)
      requires Names(temps, d.after) && Unused(files, temps)
      modifies this
      ensures r.Replaced? ==> Holds(files, d.before)
      ensures r.Kept? ==> Holds(files, d.after)
      ensures r.Mixed? ==> Holds(files, Pair(d.before.cert, d.after.key))
      ensures r.Mixed? ==> FailedTwice(fails, old(clock), clock)
      ensures old(clock) <= clock && (NoFailure(fails, old(clock), clock) ==> r.Replaced? && Gone(files, temps))
      ensures OnlyAt(old(files), files, Touched(temps, d.after))
      ensures recovered == if r.Replaced? then multiset(services)[true] else 0
    {
      r := Rollback(d, temps);
      recovered := 0;
      if !r.Replaced? {
        return;
      }
      for n := 0 to |services|
        invariant recovered == multiset(services[..n])[true]
      {
        assert services[..n + 1] == services[..n] + [services[n]];
        if services[n] {
          recovered := recovered + 1;
        }
      }
      assert services[..|services|] == services;
    }
  }

  /** Whether nginx and a running Xray are to load the pair and do, whether the recovery of inbounds
      stays blocked after Xray did, and whether they load the old pair again. */
  datatype Reloads = Reloads(nginx: Option<bool>, xray: Option<bool>, blocked: bool, nginxAgain: bool, xrayAgain: bool)

  predicate Blocked(r: Reloads)
  {
    r.xray == Some(true) && r.blocked
  }

  /** How many services load the old pair again once it is back: nginx if it had been asked to reload,
      and Xray if nginx had loaded the new pair or was not asked, so that it was Xray that failed. */
  function Told(r: Reloads): nat
  {
    (if r.nginx.Some? && r.nginxAgain then 1 else 0) + (if r.nginx != Some(false) && r.xrayAgain then 1 else 0)
  }

  // the modes 0644 and 0600
  const OWNER_WRITES_ALL_READ := 6 * 64 + 4 * 8 + 4
  const OWNER_ONLY := 6 * 64
  const CERT_MODE := 0x1a4
  const KEY_MODE := 0x180

  predicate Deployed(files: map<string, File>, certPath: string, keyPath: string, cert: string, key: string)
  {
    At(files, certPath) == Some(File(cert, OWNER_WRITES_ALL_READ)) && At(files, keyPath) == Some(File(key, OWNER_ONLY))
  }
}
