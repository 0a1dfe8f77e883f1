/** The handler's side of the fence: its fields, the sidecar it writes, and its methods step by step. */
module FenceKeepers {
  import opened Json
  import opened InboundConfig
  import opened Fences
  import opened Writes

  /** An add in progress; `active` until it has been committed, rolled back or left to recovery. */
  class ActiveTransaction {
    const value: Transaction
    var active: bool

    constructor (value: Transaction)
      ensures this.value == value && active
    {
      this.value := value;
      active := true;
    }
  }

  datatype Begun = Unfenced | Reservation(transaction: ActiveTransaction) | Rejection

  class Keeper {
    var loaded: bool
    var fences: States
    var ready: bool
    var sidecar: States

    ghost function View(): Ledger
      reads this
    {
      Ledger(loaded, fences, ready, sidecar)
    }

    /** The fence of an agent that has just started next to an existing sidecar. */
    constructor (sidecar: States)
      ensures View() == Ledger(false, map[], false, sidecar)
    {
      loaded, fences, ready := false, map[], false;
      this.sidecar := sidecar;
    }

    method Load()
      modifies this
      ensures View() == Loaded(old(View()))
    {
      if loaded {
        return;
      }
      fences := sidecar;
      loaded := true;
    }

    /** Writes the sidecar; the caller adopts the states when the write was applied. */
    method Persist(states: States, w: Write) returns (ok: bool)
      requires loaded
      modifies this`sidecar
      ensures ok <==> w.Done?
      ensures sidecar == if Applied(w) then OnFile(states) else old(sidecar)
    {
      if Applied(w) {
        sidecar := OnFile(states);
      }
      ok := w.Done?;
    }

    method PendingTags() returns (tags: set<string>)
      ensures forall tag :: tag in tags <==> IsPending(fences, tag)
      ensures tags == {} <==> NoPending(fences)
    {
      tags := set tag | tag in fences && fences[tag].pending.Some?;
      assert forall tag :: tag in fences && fences[tag].pending.Some? ==> tag in tags;
    }

    /** Whether every pending add could be decided now. */
    method ValidatePending(disk: Disk, digest: Fields -> string) returns (ok: bool)
      ensures ok <==> AllDecided(fences, disk, digest)
    {
      var tags := PendingTags();
      ghost var all := tags;
      while tags != {}
        invariant tags <= all && forall tag :: tag in all ==> IsPending(fences, tag)
        invariant forall tag :: tag in all && tag !in tags ==> Decided(tag, fences[tag], disk, digest)
      {
        var tag :| tag in tags;
        var pending := fences[tag].pending.value;
        if pending.previousOwner != fences[tag].owner {
          return false;
        }
        var actual := FindActualInbound(disk, tag, pending, digest);
        var resolution := Decision(actual, pending, digest);
        if resolution.Refused? {
          return false;
        }
        tags := tags - {tag};
      }
      ok := true;
    }

    /** Decides the pending add of one tag on a copy of the states. */
    method DecideOne(before: States, tag: string, disk: Disk, digest: Fields -> string) returns (ok: bool, after: States)
      requires IsPending(before, tag)
      ensures ok <==> Decided(tag, before[tag], disk, digest)
      ensures ok ==> after == if Dropped(tag, before[tag], disk, digest) then before - {tag}
                              else before[tag := Settled(tag, before[tag], disk, digest)]
    {
      after := before;
      var state := before[tag];
      var pending := state.pending.value;
      if pending.previousOwner != state.owner {
        return false, after;
      }
      var actual := FindActualInbound(disk, tag, pending, digest);
      var resolution := Decision(actual, pending, digest);
      if resolution.Refused? {
        return false, after;
      }
      ok := true;
      if resolution.Intended? {
        after := before[tag := State(pending.owner, state.canceled, None)];
      } else {
        state := State(pending.previousOwner, state.canceled, None);
        if !pending.previousStatePresent && state.owner == "" && state.canceled == {} {
          after := before - {tag};
        } else {
          after := before[tag := state];
        }
      }
    }

    /** Decides every pending add on a copy of the states; gives up at the first that it cannot decide. */
    method DecidePending(disk: Disk, digest: Fields -> string) returns (ok: bool, changed: bool, candidate: States)
      ensures ok <==> AllDecided(fences, disk, digest)
      ensures ok ==> candidate == Resolved(fences, disk, digest) && (changed <==> !NoPending(fences))
    {
      ok, candidate := true, fences;
      var tags := PendingTags();
      changed := false;
      ghost var all := tags;
      assert all - tags == {} && PartlyResolved(fences, {}, disk, digest) == fences;
      while tags != {}
        invariant ok && tags <= all && (changed <==> tags != all)
        invariant DecidedAmong(fences, all - tags, disk, digest)
        invariant candidate == PartlyResolved(fences, all - tags, disk, digest)
      {
        var tag :| tag in tags;
        PartlyResolvedNext(fences, all - tags, tag, disk, digest);
        assert all - (tags - {tag}) == (all - tags) + {tag};
        assert IsPending(fences, tag);
        ok, candidate := DecideOne(candidate, tag, disk, digest);
        if !ok {
          assert !Decided(tag, fences[tag], disk, digest);
          return;
        }
        tags := tags - {tag};
        changed := true;
      }
      AllResolved(fences, all, disk, digest);
      assert all - tags == all;
    }

    method ResolvePending(disk: Disk, digest: Fields -> string, w: Write) returns (ok: bool)
      requires loaded
      modifies this
      ensures View() == AfterResolve(old(View()), disk, digest, w)
      ensures ok <==> ResolveSucceeds(old(View()), disk, digest, w)
    {
      var changed, candidate;
      ok, changed, candidate := DecidePending(disk, digest);
      if ok && changed {
        ok := Persist(candidate, w);
        if Applied(w) {
          fences := candidate;
        }
      }
    }

    method Ensure(disk: Disk, digest: Fields -> string, w: Write) returns (ok: bool)
      modifies this
      ensures View() == AfterEnsure(old(View()), disk, digest, w)
      ensures ok <==> EnsureSucceeds(old(View()), disk, digest, w)
    {
      Load();
      var tags := PendingTags();
      if tags != {} && !ready {
        return false;
      }
      if ready {
        ok := ResolvePending(disk, digest, w);
        return;
      }
      ok := true;
    }

    /** Writes the record of an add. When the write failed after its rename, a second write takes
        the record back. */
    method BeginAdd(req: Request, path: string, previousInbound: Option<Fields>, digest: Fields -> string, w: Write, undo: Write)
      returns (r: Begun)
      requires loaded
      modifies this
      ensures r.Rejection? <==> Rejected(At(old(fences), req.tag), req, path, previousInbound, digest)
                                || (req.mutationId != "" && !w.Done?)
      ensures var previous := if req.tag in old(fences) then old(fences)[req.tag] else State("", {}, None);
              var expected := match req.expectedOwner
                              case None => req.expectedDigest == ""
                              case Some(owner) =>
                                && req.mutationId != "" && previous.owner == TrimSpace(owner) && req.expectedDigest != ""
                                && previousInbound.Some? && digest(previousInbound.value) == req.expectedDigest;
              var asked := previous.pending.None? && expected;
              && (r.Unfenced? <==> asked && req.mutationId == "" && previous.owner == "" && previous.canceled == {})
              && (r.Reservation? <==> asked && req.mutationId != "" && req.mutationId !in previous.canceled && path != "" && w.Done?)
              && (r.Reservation? ==>
                    fences == old(fences)[req.tag := State(previous.owner, previous.canceled, Some(
                      Pending(req.mutationId, path, digest(req.inbound), previous.owner, req.tag in old(fences),
                              previousInbound.Some?, if previousInbound.Some? then digest(previousInbound.value) else "")))])
      ensures r.Reservation? ==> fresh(r.transaction) && r.transaction.active
                                 && r.transaction.value == TransactionOf(old(fences), req)
      ensures View() ==
                if Rejected(At(old(fences), req.tag), req, path, previousInbound, digest) || req.mutationId == "" then old(View())
                else AfterReserve(old(View()), req, path, previousInbound, digest, w, undo)
    {
      var previous, previousExists := At(fences, req.tag), req.tag in fences;
      if previous.pending.Some? {
        return Rejection;
      }
      if req.expectedOwner.None? && req.expectedDigest != "" {
        return Rejection;
      }
      if req.expectedOwner.Some? {
        if req.mutationId == "" || previous.owner != TrimSpace(req.expectedOwner.value) || req.expectedDigest == ""
           || previousInbound.None? || digest(previousInbound.value) != req.expectedDigest {
          return Rejection;
        }
      }
      if req.mutationId == "" {
        if previous.owner != "" || previous.canceled != {} {
          return Rejection;
        }
        return Unfenced;
      }
      if req.mutationId in previous.canceled || path == "" {
        return Rejection;
      }
      var ok := Reserve(req, path, previousInbound, digest, w, undo);
      if !ok {
        return Rejection;
      }
      var transaction := new ActiveTransaction(Transaction(req.tag, req.mutationId, previous, previousExists));
      r := Reservation(transaction);
    }

    method Reserve(req: Request, path: string, previousInbound: Option<Fields>, digest: Fields -> string, w: Write, undo: Write)
      returns (ok: bool)
      requires loaded
      modifies this
      ensures ok <==> w.Done?
      ensures View() == AfterReserve(old(View()), req, path, previousInbound, digest, w, undo)
    {
      var previous, previousExists := At(fences, req.tag), req.tag in fences;
      var previousDigest := if previousInbound.Some? then digest(previousInbound.value) else "";
      var pending := Pending(req.mutationId, path, digest(req.inbound), previous.owner, previousExists,
                             previousInbound.Some?, previousDigest);
      var candidate := fences[req.tag := previous.(pending := Some(pending))];
      ok := Persist(candidate, w);
      if !ok {
        if Applied(w) {
          fences := candidate;
          var rollback := if previousExists then candidate[req.tag := previous] else candidate - {req.tag};
          var undone := Persist(rollback, undo);
          if Applied(undo) {
            fences := rollback;
          }
        }
        return;
      }
      fences := candidate;
    }

    method Commit(transaction: ActiveTransaction, disk: Disk, digest: Fields -> string, w: Write) returns (ok: bool)
      requires loaded
      modifies this, transaction`active
      ensures !transaction.active
      ensures View() ==
                if old(transaction.active) then AfterCommit(old(View()), transaction.value, disk, digest, w) else old(View())
      ensures ok <==> (old(transaction.active) ==> Committable(old(View()), transaction.value, disk, digest) && w.Done?)
    {
      if !transaction.active {
        return true;
      }
      var txn := transaction.value;
      if txn.tag !in fences || fences[txn.tag].pending.None? || fences[txn.tag].pending.value.owner != txn.owner {
        transaction.active := false;
        return false;
      }
      var state := fences[txn.tag];
      var actual := DurableInbound(disk, state.pending.value.configPath, txn.tag);
      if actual.Undecided? || actual.inbound.None? || digest(actual.inbound.value) != state.pending.value.intendedDigest {
        transaction.active := false;
        return false;
      }
      var candidate := fences[txn.tag := State(txn.owner, state.canceled, None)];
      ok := Persist(candidate, w);
      if Applied(w) {
        fences := candidate;
      }
      transaction.active := false;
    }

    method Rollback(transaction: ActiveTransaction, w: Write) returns (ok: bool)
      requires loaded
      modifies this, transaction`active
      ensures !transaction.active
      ensures View() ==
                if old(transaction.active) then Persisted(old(View()), PutBack(old(fences), transaction.value), w) else old(View())
      ensures ok <==> (old(transaction.active) ==> w.Done?)
    {
      if !transaction.active {
        return true;
      }
      var candidate := fences;
      if transaction.value.previousExists {
        candidate := candidate[transaction.value.tag := transaction.value.previous];
      } else {
        candidate := candidate - {transaction.value.tag};
      }
      ok := Persist(candidate, w);
      if Applied(w) {
        fences := candidate;
      }
      transaction.active := false;
    }

    method BeginRemoval(tag: string, id: string, w: Write) returns (r: BeginRemove)
      requires loaded
      modifies this
      ensures View() == AfterBeginRemove(old(View()), tag, id, w)
      ensures r == RemovalOf(old(View()), tag, id, w)
    {
      if tag == "" {
        return Proceed;
      }
      var state := At(fences, tag);
      if id == "" {
        if state.owner != "" {
          return Failed;
        }
        return Proceed;
      }
      state := state.(canceled := state.canceled + {id});
      var candidate := fences[tag := state];
      var ok := Persist(candidate, w);
      if !ok {
        if Applied(w) {
          fences := candidate;
        }
        return Failed;
      }
      fences := candidate;
      r := if state.owner != "" && state.owner != id then Superseded else Proceed;
    }

    method CompleteRemoval(tag: string, id: string, w: Write)
      modifies this
      ensures View() == AfterCompleteRemoval(old(View()), tag, id, w)
    {
      if tag == "" || !loaded || tag !in fences {
        return;
      }
      var state := fences[tag];
      if id == "" || state.owner == id {
        if state.owner == "" {
          return;
        }
        var candidate := fences[tag := state.(owner := "")];
        var ok := Persist(candidate, w);
        if Applied(w) {
          fences := candidate;
        }
      }
    }
  }

  ghost function PartlyResolved(states: States, done: set<string>, disk: Disk, digest: Fields -> string): States
  {
    map tag | tag in states && !(tag in done && Dropped(tag, states[tag], disk, digest))
      :: if tag in done then Settled(tag, states[tag], disk, digest) else states[tag]
  }

  ghost predicate DecidedAmong(states: States, done: set<string>, disk: Disk, digest: Fields -> string)
  {
    forall tag :: tag in done ==> tag in states && Decided(tag, states[tag], disk, digest)
  }

  lemma AllResolved(states: States, all: set<string>, disk: Disk, digest: Fields -> string)
    requires (forall tag :: tag in all <==> IsPending(states, tag)) && DecidedAmong(states, all, disk, digest)
    ensures AllDecided(states, disk, digest) && PartlyResolved(states, all, disk, digest) == Resolved(states, disk, digest)
  {
  }

  lemma PartlyResolvedNext(states: States, done: set<string>, tag: string, disk: Disk, digest: Fields -> string)
    requires tag in states && tag !in done
    ensures var before, after := PartlyResolved(states, done, disk, digest), PartlyResolved(states, done + {tag}, disk, digest);
            && tag in before && before[tag] == states[tag]
            && after == if Dropped(tag, states[tag], disk, digest) then before - {tag}
                        else before[tag := Settled(tag, states[tag], disk, digest)]
  {
  }
}
