/** The sidecar file of the fence: what is written, what is read back, and the merging of the
    sidecars that older agents left next to their configuration files. */
module FenceFiles {
  import opened Json
  import opened Fences

  datatype FileTag = FileTag(owner: string, canceled: seq<string>, pending: Option<Pending>)

  datatype File = File(version: int, tags: map<string, FileTag>)

  const VERSION := 2

  // ----- writing -----

  /** Lists a set without repetition. The order in the file is of no consequence to the reader. */
  method Listed(ids: set<string>) returns (list: seq<string>)
    ensures (forall id :: id in list <==> id in ids) && |list| == |ids|
  {
    list := [];
    var rest := ids;
    while rest != {}
      invariant rest <= ids && forall id :: id in list <==> id in ids - rest
      invariant |list| == |ids| - |rest|
    {
      var id :| id in rest;
      rest := rest - {id};
      list := list + [id];
    }
  }

  ghost predicate Writes(file: File, states: States)
  {
    && file.version == VERSION
    && (forall tag :: tag in file.tags <==> tag in states && !Blank(states[tag]))
    && (forall tag :: tag in file.tags ==>
          && file.tags[tag].owner == states[tag].owner && file.tags[tag].pending == states[tag].pending
          && (forall id :: id in file.tags[tag].canceled <==> id in states[tag].canceled)
          && |file.tags[tag].canceled| == |states[tag].canceled|)
  }

  method FileFromStates(states: States) returns (file: File)
    ensures Writes(file, states) && file.version == 2
  {
    var tags: map<string, FileTag> := map[];
    var rest := states.Keys;
    while rest != {}
      invariant rest <= states.Keys
      invariant Writes(File(VERSION, tags), map tag | tag in states.Keys - rest :: states[tag])
    {
      var tag :| tag in rest;
      rest := rest - {tag};
      var state := states[tag];
      var canceled := Listed(state.canceled);
      if state.owner != "" || |canceled| > 0 || state.pending.Some? {
        tags := tags[tag := FileTag(state.owner, canceled, state.pending)];
      }
      assert state.canceled == {} <==> |canceled| == 0;
    }
    assert states == map tag | tag in states.Keys - rest :: states[tag];
    file := File(VERSION, tags);
  }

  // ----- reading -----

  function TrimmedPending(p: Pending, trim: string -> string): Pending
  {
    Pending(trim(p.owner), trim(p.configPath), trim(p.intendedDigest), trim(p.previousOwner),
            p.previousStatePresent, p.previousPresent, trim(p.previousDigest))
  }

  predicate ValidPending(p: Pending, owner: string)
  {
    && p.owner != "" && p.configPath != "" && p.intendedDigest != ""
    && (p.previousPresent ==> p.previousDigest != "")
    && p.previousOwner == owner
  }

  predicate ValidEntry(e: FileTag, trim: string -> string)
  {
    e.pending.Some? ==> ValidPending(TrimmedPending(e.pending.value, trim), trim(e.owner))
  }

  function ParsedEntry(e: FileTag, trim: string -> string): State
  {
    State(trim(e.owner), set id | id in e.canceled && trim(id) != "" :: trim(id),
          if e.pending.Some? then Some(TrimmedPending(e.pending.value, trim)) else None)
  }

  /** The same tag may be merged when owner and record agree; the cancellations are united. */
  predicate Compatible(a: State, b: State)
  {
    a.owner == b.owner && a.pending == b.pending
  }

  ghost predicate Mergeable(a: States, b: States)
  {
    forall tag :: tag in a && tag in b ==> Compatible(a[tag], b[tag])
  }

  function MergedStates(a: States, b: States): States
  {
    map tag | tag in a.Keys + b.Keys ::
      if tag in a && tag in b then State(a[tag].owner, a[tag].canceled + b[tag].canceled, a[tag].pending)
      else if tag in a then a[tag] else b[tag]
  }

  /** Two sidecars go together when the tags they share have one owner and one record; then every tag
      keeps these and the cancellations of both. */
  lemma MergeMeans(a: States, b: States, tag: string)
    ensures Mergeable(a, b) <==> forall t :: t in a && t in b ==> a[t].owner == b[t].owner && a[t].pending == b[t].pending
    ensures var m := MergedStates(a, b);
            && (tag in m <==> tag in a || tag in b)
            && (tag in a ==> m[tag].owner == a[tag].owner && m[tag].pending == a[tag].pending)
            && (tag in b && tag !in a ==> m[tag].owner == b[tag].owner && m[tag].pending == b[tag].pending)
            && (tag in m ==> forall id ::
                  (id in m[tag].canceled <==> (tag in a && id in a[tag].canceled) || (tag in b && id in b[tag].canceled)))
  {
  }

  /** What an entry is read as: everything trimmed, the empty ids dropped. It is refused for a record
      that lacks an id, a path or a digest, or that replaces another owner than the entry's. */
  lemma EntryMeans(e: FileTag, trim: string -> string)
    ensures var st := ParsedEntry(e, trim);
            && st.owner == trim(e.owner)
            && (forall id :: id in st.canceled <==> id != "" && exists raw :: raw in e.canceled && trim(raw) == id)
            && (st.pending == None <==> e.pending == None)
            && (e.pending.Some? ==>
                  var (raw, p) := (e.pending.value, st.pending.value);
                  && p.owner == trim(raw.owner) && p.configPath == trim(raw.configPath)
                  && p.intendedDigest == trim(raw.intendedDigest) && p.previousOwner == trim(raw.previousOwner)
                  && p.previousStatePresent == raw.previousStatePresent && p.previousPresent == raw.previousPresent
                  && p.previousDigest == trim(raw.previousDigest))
    ensures ValidEntry(e, trim) <==>
              (e.pending.Some? ==>
                 var raw := e.pending.value;
                 && trim(raw.owner) != "" && trim(raw.configPath) != "" && trim(raw.intendedDigest) != ""
                 && (raw.previousPresent ==> trim(raw.previousDigest) != "") && trim(raw.previousOwner) == trim(e.owner))
  {
  }

  method MergeFenceStates(destination: States, source: States) returns (r: Option<States>)
    ensures r == if Mergeable(destination, source) then Some(MergedStates(destination, source)) else None
  {
    var merged := destination;
    var rest := source.Keys;
    ghost var done: set<string> := {};
    while rest != {}
      invariant rest <= source.Keys && done == source.Keys - rest
      invariant forall tag :: tag in destination && tag in done ==> Compatible(destination[tag], source[tag])
      invariant merged == MergedPart(destination, source, done)
    {
      var tag :| tag in rest;
      MergedPartNext(destination, source, done, tag);
      rest := rest - {tag};
      done := done + {tag};
      var incoming := source[tag];
      if tag !in merged {
        merged := merged[tag := incoming];
        continue;
      }
      var existing := merged[tag];
      if existing.owner != incoming.owner || existing.pending != incoming.pending {
        return None;
      }
      merged := merged[tag := existing.(canceled := existing.canceled + incoming.canceled)];
    }
    MergedWhole(destination, source);
    assert done == source.Keys;
    r := Some(merged);
  }

  /** The merge with some of the tags of the source. */
  function MergedPart(a: States, b: States, tags: set<string>): States
  {
    map tag | tag in a.Keys + (b.Keys * tags) ::
      if tag in a && tag in b && tag in tags then State(a[tag].owner, a[tag].canceled + b[tag].canceled, a[tag].pending)
      else if tag in a then a[tag] else b[tag]
  }

  lemma MergedWhole(a: States, b: States)
    ensures MergedPart(a, b, b.Keys) == MergedStates(a, b)
  {
    assert b.Keys * b.Keys == b.Keys;
  }

  lemma MergedPartNext(a: States, b: States, tags: set<string>, tag: string)
    requires tag in b && tag !in tags
    ensures var before, after := MergedPart(a, b, tags), MergedPart(a, b, tags + {tag});
            && (tag in before <==> tag in a) && (tag in a ==> before[tag] == a[tag])
            && after == before[tag := if tag in a then State(a[tag].owner, a[tag].canceled + b[tag].canceled, a[tag].pending) else b[tag]]
  {
  }

  /** The entries of a file as they are read, under the tags as they are written. */
  function EntriesOf(file: File, trim: string -> string): map<string, State>
  {
    map raw | raw in file.tags :: ParsedEntry(file.tags[raw], trim)
  }

  /** The entries that count towards a tag; `trim` takes the spaces around it away. */
  predicate CountsFor(entries: map<string, State>, trim: string -> string, raw: string, tag: string)
  {
    raw in entries && trim(raw) == tag && tag != "" && !Blank(entries[raw])
  }

  ghost predicate EntriesAgree(entries: map<string, State>, trim: string -> string)
  {
    forall r, s, tag :: CountsFor(entries, trim, r, tag) && CountsFor(entries, trim, s, tag) ==> Compatible(entries[r], entries[s])
  }

  ghost predicate EntriesValid(file: File, raws: set<string>, trim: string -> string)
  {
    forall raw :: raw in raws && raw in file.tags && trim(raw) != "" ==> ValidEntry(file.tags[raw], trim)
  }

  /** A file is readable when its version is known, every entry is valid, and the entries of one tag agree. */
  ghost predicate ReadableFile(file: File, trim: string -> string)
  {
    && (file.version == 1 || file.version == VERSION)
    && EntriesValid(file, file.tags.Keys, trim)
    && EntriesAgree(EntriesOf(file, trim), trim)
  }

  /** Entries without a tag are passed over; those under one tag, however it is spaced, agree about owner
      and record, but for the ones that say nothing. */
  lemma ReadableMeans(file: File, trim: string -> string)
    ensures ReadableFile(file, trim) <==>
              && file.version in {1, 2}
              && (forall raw :: raw in file.tags && trim(raw) != "" ==> ValidEntry(file.tags[raw], trim))
              && (forall r, s :: r in file.tags && s in file.tags && trim(r) == trim(s) && trim(r) != "" ==>
                    var (a, b) := (ParsedEntry(file.tags[r], trim), ParsedEntry(file.tags[s], trim));
                    a == State("", {}, None) || b == State("", {}, None) || (a.owner == b.owner && a.pending == b.pending))
  {
    var entries := EntriesOf(file, trim);
    forall r, s | r in file.tags && s in file.tags && trim(r) == trim(s) && trim(r) != "" && !Blank(entries[r]) && !Blank(entries[s])
      ensures CountsFor(entries, trim, r, trim(r)) && CountsFor(entries, trim, s, trim(r))
    {
    }
  }

  /** The states say about each tag what its entries among `raws` say together. */
  ghost predicate ReadsAs(entries: map<string, State>, trim: string -> string, raws: set<string>, states: States)
  {
    && (forall tag :: tag in states ==> exists raw :: raw in raws && CountsFor(entries, trim, raw, tag))
    && (forall raw, tag :: raw in raws && CountsFor(entries, trim, raw, tag) ==>
          tag in states && Compatible(states[tag], entries[raw]) && entries[raw].canceled <= states[tag].canceled)
    && (forall tag, id :: tag in states && id in states[tag].canceled ==>
          exists raw :: raw in raws && CountsFor(entries, trim, raw, tag) && id in entries[raw].canceled)
  }

  method ReadFenceStates(file: File, trim: string -> string) returns (r: Option<States>)
    ensures r.Some? <==> ReadableFile(file, trim)
    ensures r.Some? ==> file.version in {1, 2}
    ensures r.Some? ==> ReadsAs(EntriesOf(file, trim), trim, file.tags.Keys, r.value)
  {
    if file.version != 1 && file.version != VERSION {
      return None;
    }
    r := ReadEntries(file, trim);
  }

  method ReadEntries(file: File, trim: string -> string) returns (r: Option<States>)
    ensures r.Some? <==> EntriesValid(file, file.tags.Keys, trim) && EntriesAgree(EntriesOf(file, trim), trim)
    ensures r.Some? ==> ReadsAs(EntriesOf(file, trim), trim, file.tags.Keys, r.value)
  {
    var states: States := map[];
    var rest := file.tags.Keys;
    ghost var entries := EntriesOf(file, trim);
    ghost var done: set<string> := {};
    while rest != {}
      invariant done == file.tags.Keys - rest && rest <= file.tags.Keys
      invariant ReadsAs(entries, trim, done, states) && EntriesValid(file, done, trim)
    {
      var raw :| raw in rest;
      rest := rest - {raw};
      ghost var before := done;
      done := done + {raw};
      var tag := trim(raw);
      var entry := file.tags[raw];
      if tag == "" {
        ReadNothing(entries, trim, before, states, raw);
        continue;
      }
      if !ValidEntry(entry, trim) {
        return None;
      }
      var state := ParsedEntry(entry, trim);
      if Blank(state) {
        ReadNothing(entries, trim, before, states, raw);
        continue;
      }
      var merged := MergeFenceStates(states, map[tag := state]);
      if merged.None? {
        Conflict(entries, trim, before, states, raw);
        return None;
      }
      ReadOneMore(entries, trim, before, states, raw);
      states := merged.value;
    }
    assert done == file.tags.Keys;
    AllAgree(entries, trim, states);
    r := Some(states);
  }

  lemma ReadNothing(entries: map<string, State>, trim: string -> string, raws: set<string>, states: States, raw: string)
    requires ReadsAs(entries, trim, raws, states) && !CountsFor(entries, trim, raw, trim(raw))
    ensures ReadsAs(entries, trim, raws + {raw}, states)
  {
    forall tag | tag in states ensures exists x :: x in raws + {raw} && CountsFor(entries, trim, x, tag) {
      var x :| x in raws && CountsFor(entries, trim, x, tag);
      assert x in raws + {raw};
    }
    forall tag, id | tag in states && id in states[tag].canceled
      ensures exists x :: x in raws + {raw} && CountsFor(entries, trim, x, tag) && id in entries[x].canceled
    {
      var x :| x in raws && CountsFor(entries, trim, x, tag) && id in entries[x].canceled;
      assert x in raws + {raw};
    }
  }

  lemma Conflict(entries: map<string, State>, trim: string -> string, raws: set<string>, states: States, raw: string)
    requires ReadsAs(entries, trim, raws, states) && CountsFor(entries, trim, raw, trim(raw))
    requires !Mergeable(states, map[trim(raw) := entries[raw]])
    ensures !EntriesAgree(entries, trim)
  {
    var tag := trim(raw);
    var other :| other in raws && CountsFor(entries, trim, other, tag);
    assert Compatible(states[tag], entries[other]);
  }

  lemma ReadOneMore(entries: map<string, State>, trim: string -> string, raws: set<string>, states: States, raw: string)
    requires ReadsAs(entries, trim, raws, states) && CountsFor(entries, trim, raw, trim(raw))
    requires Mergeable(states, map[trim(raw) := entries[raw]])
    ensures ReadsAs(entries, trim, raws + {raw}, MergedStates(states, map[trim(raw) := entries[raw]]))
  {
    var tag, state := trim(raw), entries[raw];
    var after := MergedStates(states, map[tag := state]);
    forall t | t in after ensures exists x :: x in raws + {raw} && CountsFor(entries, trim, x, t) {
      if t == tag {
        assert raw in raws + {raw} && CountsFor(entries, trim, raw, t);
      } else {
        var x :| x in raws && CountsFor(entries, trim, x, t);
        assert x in raws + {raw};
      }
    }
    forall t, id | t in after && id in after[t].canceled
      ensures exists x :: x in raws + {raw} && CountsFor(entries, trim, x, t) && id in entries[x].canceled
    {
      if t == tag && id in state.canceled {
        assert raw in raws + {raw} && CountsFor(entries, trim, raw, t);
      } else {
        var x :| x in raws && CountsFor(entries, trim, x, t) && id in entries[x].canceled;
        assert x in raws + {raw};
      }
    }
  }

  lemma AllAgree(entries: map<string, State>, trim: string -> string, states: States)
    requires ReadsAs(entries, trim, entries.Keys, states)
    ensures EntriesAgree(entries, trim)
  {
    forall r, s, tag | CountsFor(entries, trim, r, tag) && CountsFor(entries, trim, s, tag)
      ensures Compatible(entries[r], entries[s])
    {
      assert Compatible(states[tag], entries[r]) && Compatible(states[tag], entries[s]);
    }
  }

  // ----- the round trip -----

  predicate Kept(text: string, trim: string -> string)
  {
    trim(text) == text
  }

  /** States as the handler keeps them: every text trimmed, no empty tag or id, every record valid. */
  ghost predicate CleanStates(states: States, trim: string -> string)
  {
    forall tag :: tag in states ==> tag != "" && Kept(tag, trim) && CleanState(states[tag], trim)
  }

  ghost predicate CleanState(st: State, trim: string -> string)
  {
    && Kept(st.owner, trim)
    && (forall id :: id in st.canceled ==> id != "" && Kept(id, trim))
    && (st.pending.Some? ==>
          && TrimmedPending(st.pending.value, trim) == st.pending.value
          && ValidPending(st.pending.value, st.owner))
  }

  lemma EntryRoundTrip(e: FileTag, st: State, trim: string -> string)
    requires CleanState(st, trim)
    requires e.owner == st.owner && e.pending == st.pending && forall id :: id in e.canceled <==> id in st.canceled
    ensures ParsedEntry(e, trim) == st && ValidEntry(e, trim)
  {
    assert ParsedEntry(e, trim).canceled == st.canceled;
  }

  lemma EntriesWritten(states: States, file: File, trim: string -> string)
    requires CleanStates(states, trim) && Writes(file, states)
    ensures EntriesOf(file, trim) == OnFile(states)
    ensures EntriesValid(file, file.tags.Keys, trim)
  {
    forall tag | tag in file.tags
      ensures ParsedEntry(file.tags[tag], trim) == states[tag] && ValidEntry(file.tags[tag], trim)
    {
      EntryRoundTrip(file.tags[tag], states[tag], trim);
    }
  }

  /** What has been written is read back, without the blank entries. */
  lemma WriteThenRead(states: States, file: File, read: States, trim: string -> string)
    requires CleanStates(states, trim) && Writes(file, states)
    ensures ReadableFile(file, trim)
    ensures ReadsAs(EntriesOf(file, trim), trim, file.tags.Keys, read) <==> read == OnFile(states)
  {
    EntriesWritten(states, file, trim);
    assert file.tags.Keys == OnFile(states).Keys;
    assert forall tag :: tag in OnFile(states) ==> Kept(tag, trim);
    OwnKeys(OnFile(states), trim, read);
  }

  /** Entries under trimmed tags are read as they are. */
  lemma OwnKeys(entries: map<string, State>, trim: string -> string, read: States)
    requires forall tag :: tag in entries ==> tag != "" && trim(tag) == tag && !Blank(entries[tag])
    ensures EntriesAgree(entries, trim)
    ensures ReadsAs(entries, trim, entries.Keys, read) <==> read == entries
  {
    assert forall tag :: tag in entries ==> CountsFor(entries, trim, tag, tag);
    if ReadsAs(entries, trim, entries.Keys, read) {
      forall tag | tag in read ensures tag in entries && read[tag] == entries[tag] {
        var raw :| raw in entries.Keys && CountsFor(entries, trim, raw, tag);
        forall id ensures id in read[tag].canceled <==> id in entries[tag].canceled {
          if id in read[tag].canceled {
            var r :| r in entries.Keys && CountsFor(entries, trim, r, tag) && id in entries[r].canceled;
          }
        }
      }
    }
  }
}
