/** Attachments move between the pending store and a thread, whole or not at all. */
module Attachments {
  import opened Records

  datatype AttachmentState = PendingState | SubmittedState

  datatype Metadata = Metadata(
    id: string, name: string, mime: string, size: nat, extension: string, sha256: string,
    createdAt: int, state: AttachmentState, project: string, thread: Option<string>)

  /** One attachment directory: its metadata file and its payload. */
  datatype Stored = Stored(metadata: Metadata, payload: seq<Byte>)

  type Directory = map<string, Stored>

  datatype AttachmentError = Invalid | NotFound | Interrupted

  datatype Result<T> = Ok(value: T) | Err(error: AttachmentError)

  const MAX_ATTACHMENTS := 5
  const MAX_TOTAL_BYTES := 262144000
  const PENDING_TTL_SECONDS := 86400

  /** The store's project, its name and id patterns, the known types, and the payload check with its digest. */
  datatype Rules = Rules(
    project: string, validId: string -> bool, validThread: string -> bool, validName: string -> bool,
    mimes: map<string, string>, validate: (seq<Byte>, string) -> Option<(nat, string)>)

  // ----- one attachment -----

  /** An attachment that is there under its own id, for the project and the thread or pending for a day at most, of a known
      type, under a valid name, and with the payload that its recorded size and digest describe. */
  predicate Loadable(directory: Directory, id: string, thread: Option<string>, rules: Rules, now: int) {
    && rules.validId(id) && id in directory
    && var m := directory[id].metadata;
    && m.id == id && m.project == rules.project && m.thread == thread
    && (thread.None? ==> m.state.PendingState? && now - m.createdAt <= 86400)
    && (thread.Some? ==> m.state.SubmittedState?)
    && rules.validName(m.name) && m.extension in rules.mimes && rules.mimes[m.extension] == m.mime
    && rules.validate(directory[id].payload, m.extension) == Some((m.size, m.sha256))
  }

  /** `_load`: an attachment is there, is what its directory says, and its payload is unchanged; no thread means pending. */
  function Load(directory: Directory, id: string, thread: Option<string>, rules: Rules, now: int): (r: Result<Stored>)
    ensures r.Ok? ==> id in directory && r.value == directory[id]
    ensures r.Ok? <==> Loadable(directory, id, thread, rules, now)
    ensures rules.validId(id) && id !in directory ==> r == Err(NotFound)
  {
    if !rules.validId(id) then Err(Invalid)
    else if id !in directory then Err(NotFound)
    else
      var m := directory[id].metadata;
      if m.id != id || m.project != rules.project || m.thread != thread
         || m.state != (if thread.Some? then SubmittedState else PendingState)
         || (thread.None? && m.createdAt < now - PENDING_TTL_SECONDS)
      then Err(NotFound)
      else if m.extension !in rules.mimes || m.mime != rules.mimes[m.extension] || !rules.validName(m.name) then Err(Invalid)
      else if rules.validate(directory[id].payload, m.extension) != Some((m.size, m.sha256)) then Err(Invalid)
      else Ok(directory[id])
  }

  function Submitted(s: Stored, thread: string): Stored {
    s.(metadata := s.metadata.(state := SubmittedState, thread := Some(thread)))
  }

  /** A submitted attachment is the pending one, but for its state and its thread. */
  predicate BoundAs(after: Stored, before: Stored, thread: string) {
    && after.payload == before.payload && after.metadata.state == SubmittedState && after.metadata.thread == Some(thread)
    && after.metadata.id == before.metadata.id && after.metadata.name == before.metadata.name
    && after.metadata.mime == before.metadata.mime && after.metadata.size == before.metadata.size
    && after.metadata.extension == before.metadata.extension && after.metadata.sha256 == before.metadata.sha256
    && after.metadata.createdAt == before.metadata.createdAt && after.metadata.project == before.metadata.project
  }

  predicate AreBound(pending: Directory, own: Directory, ids: seq<string>, thread: string) {
    forall id | id in ids :: id in pending && id in own && BoundAs(own[id], pending[id], thread)
  }

  function Unsubmitted(s: Stored): Stored {
    s.(metadata := s.metadata.(state := PendingState, thread := None))
  }

  // ----- requests -----

  function IdSet(ids: seq<string>): set<string> {
    set id | id in ids
  }

  function TotalSize(pending: Directory, ids: seq<string>): nat {
    if ids == [] then 0
    else
      var id := ids[|ids| - 1];
      TotalSize(pending, ids[..|ids| - 1]) + if id in pending then pending[id].metadata.size else 0
  }

  /** Sizes add up over any two parts of a request, and an attachment counts its own. */
  lemma {:induction false} TotalConcat(pending: Directory, left: seq<string>, right: seq<string>)
    ensures TotalSize(pending, left + right) == TotalSize(pending, left) + TotalSize(pending, right)
    ensures forall id | id in pending :: TotalSize(pending, [id]) == pending[id].metadata.size
    decreases |right|
  {
    assert forall id: string :: [id][..0] == [];
    if right == [] {
      assert left + right == left;
    } else {
      var n := |right| - 1;
      assert (left + right)[..|left| + n] == left + right[..n];
      TotalConcat(pending, left, right[..n]);
    }
  }

  predicate AllLoad(directory: Directory, ids: seq<string>, thread: Option<string>, rules: Rules, now: int) {
    forall id | id in ids :: Load(directory, id, thread, rules, now).Ok?
  }

  /** What `_validate` asks of a request. */
  predicate Acceptable(pending: Directory, ids: seq<string>, rules: Rules, now: int) {
    && |ids| <= MAX_ATTACHMENTS && Distinct(ids)
    && AllLoad(pending, ids, None, rules, now)
    && TotalSize(pending, ids) <= MAX_TOTAL_BYTES
  }

  /** A request that a bind accepts: acceptable, for a proper thread, and with no destination taken. */
  predicate Bindable(pending: Directory, own: Directory, ids: seq<string>, thread: string, rules: Rules, now: int) {
    rules.validThread(thread) && Acceptable(pending, ids, rules, now) && IdSet(ids) !! own.Keys
  }

  /** What a bind puts into the thread's directory. */
  function AllSubmitted(pending: Directory, ids: seq<string>, thread: string): Directory
    requires IdSet(ids) <= pending.Keys
  {
    map id | id in IdSet(ids) :: Submitted(pending[id], thread)
  }

  /** What a restore puts back into the pending directory. */
  function AllUnsubmitted(directory: Directory, ids: seq<string>): Directory
    requires IdSet(ids) <= directory.Keys
  {
    map id | id in IdSet(ids) :: Unsubmitted(directory[id])
  }

  // ----- faults -----

  /** A step of `bind` or `restore_pending` that the filesystem can refuse, for the attachment at a place in the request. */
  datatype Fault =
    | OpeningThread
    | Listing(at: nat)
    | Renaming(at: nat)
    | Writing(at: nat)
    | AfterWriting(at: nat)
    | Loading(at: nat)

  // ----- restoring -----

  /** Where a restore has got to: the two directories, and the place in the request where it stopped, if it did. */
  datatype RestoreState = RestoreState(pending: Directory, own: Directory, stopped: Option<nat>)

  /** One attachment's load, rewrite and rename back; the rename never replaces a pending attachment. */
  function RestoreStep(s: RestoreState, id: string, at: nat, thread: string, rules: Rules, now: int, faults: set<Fault>): RestoreState {
    if Load(s.own, id, Some(thread), rules, now).Err? || Loading(at) in faults || Writing(at) in faults then
      s.(stopped := Some(at))
    else
      var stored := Unsubmitted(s.own[id]);
      if AfterWriting(at) in faults || Renaming(at) in faults || id in s.pending then
        s.(own := s.own[id := stored], stopped := Some(at))
      else RestoreState(s.pending[id := stored], s.own - {id}, None)
  }

  function RestoreRun(
      pending: Directory, own: Directory, ids: seq<string>, thread: string, rules: Rules, now: int, faults: set<Fault>): RestoreState
  {
    if ids == [] then RestoreState(pending, own, None)
    else
      var n := |ids| - 1;
      var s := RestoreRun(pending, own, ids[..n], thread, rules, now, faults);
      if s.stopped.Some? then s else RestoreStep(s, ids[n], n, thread, rules, now, faults)
  }

  lemma {:induction false} RunStops(
      pending: Directory, own: Directory, ids: seq<string>, i: nat, thread: string, rules: Rules, now: int, faults: set<Fault>)
    requires i <= |ids| && RestoreRun(pending, own, ids[..i], thread, rules, now, faults).stopped.Some?
    ensures RestoreRun(pending, own, ids, thread, rules, now, faults) == RestoreRun(pending, own, ids[..i], thread, rules, now, faults)
    decreases |ids|
  {
    if i == |ids| {
      assert ids[..i] == ids;
    } else {
      assert ids[..|ids| - 1][..i] == ids[..i];
      RunStops(pending, own, ids[..|ids| - 1], i, thread, rules, now, faults);
    }
  }

  lemma RunSnoc(
      pending: Directory, own: Directory, ids: seq<string>, i: nat, thread: string, rules: Rules, now: int, faults: set<Fault>)
    requires i < |ids|
    ensures var s := RestoreRun(pending, own, ids[..i], thread, rules, now, faults);
      RestoreRun(pending, own, ids[..i + 1], thread, rules, now, faults)
      == if s.stopped.Some? then s else RestoreStep(s, ids[i], i, thread, rules, now, faults)
  {
    hide RestoreStep;
    assert ids[..i + 1][..i] == ids[..i];
  }

  // ----- the store -----

  class AttachmentStore {
    var pending: Directory
    var submitted: map<string, Directory>
    const rules: Rules

    /** No attachment is in two places. */
    ghost predicate OnePlace()
      reads this
    {
      && (forall t | t in submitted :: submitted[t].Keys !! pending.Keys)
      && forall t, u | t in submitted && u in submitted && t != u :: submitted[t].Keys !! submitted[u].Keys
    }

    function At(thread: string): Directory
      reads this
    {
      if thread in submitted then submitted[thread] else map[]
    }

    constructor (rules: Rules)
      ensures OnePlace() && pending == map[] && submitted == map[] && this.rules == rules
    {
      this.rules, pending, submitted := rules, map[], map[];
    }

    method Validate(ids: seq<string>, now: int) returns (r: Result<seq<Stored>>)
      ensures r.Ok? <==> Acceptable(pending, ids, rules, now)
      ensures r.Ok? <==>
        && |ids| <= 5 && (forall i, j | 0 <= i < j < |ids| :: ids[i] != ids[j])
        && (forall id | id in ids :: Loadable(pending, id, None, rules, now))
        && TotalSize(pending, ids) <= 262144000
      ensures r.Ok? ==> ArePending(pending, r.value, ids)
    {
      if |ids| > MAX_ATTACHMENTS || !Distinct(ids) {
        return Err(Invalid);
      }
      var attachments: seq<Stored>, total := [], 0;
      for i := 0 to |ids|
        invariant total == TotalSize(pending, ids[..i])
        invariant ArePending(pending, attachments, ids[..i])
        invariant forall j | 0 <= j < i :: Load(pending, ids[j], None, rules, now).Ok?
      {
        assert ids[..i + 1][..i] == ids[..i];
        var loaded := Load(pending, ids[i], None, rules, now);
        if loaded.Err? {
          assert ids[i] in ids;
          return Err(loaded.error);
        }
        attachments := attachments + [loaded.value];
        total := total + loaded.value.metadata.size;
      }
      assert ids[..|ids|] == ids;
      if total > MAX_TOTAL_BYTES {
        return Err(Invalid);
      }
      return Ok(attachments);
    }

    /** All of the attachments become the thread's, or everything is as it was; a destination is never overwritten. */
    method Bind(thread: string, ids: seq<string>, now: int, faults: set<Fault>) returns (r: Result<seq<Stored>>)
      modifies this
      ensures old(OnePlace()) ==> OnePlace()
      ensures forall t | t != thread :: At(t) == old(At(t))
      ensures r.Err? ==> pending == old(pending) && At(thread) == old(At(thread))
      ensures r.Ok? ==> Acceptable(old(pending), ids, rules, now) && IdSet(ids) <= old(pending).Keys
      ensures r.Ok? ==> IdSet(ids) !! old(At(thread)).Keys
      ensures r.Ok? ==> pending == old(pending) - IdSet(ids)
      ensures r.Ok? ==> At(thread) == old(At(thread)) + AllSubmitted(old(pending), ids, thread)
      ensures r.Ok? ==> AreLoaded(At(thread), r.value, ids)
      ensures r.Ok? ==> AreBound(old(pending), At(thread), ids, thread)
      ensures faults == {} ==> (r.Ok? <==> ids == [] || Bindable(old(pending), old(At(thread)), ids, thread, rules, now))
    {
      hide OnePlace, Acceptable, AllSubmitted, AllLoad, ArePending, AreLoaded, IdSet, Distinct, AreBound, Loadable, Load, TotalSize;
      NothingAsked(pending, At(thread), thread, rules, now);
      if ids == [] {
        return Ok([]);
      }
      if !rules.validThread(thread) {
        return Err(Invalid);
      }
      var checked := Validate(ids, now);
      if checked.Err? || OpeningThread in faults {
        return Err(if checked.Err? then checked.error else Interrupted);
      }
      OpenThread(thread);
      AcceptableLoads(pending, checked.value, ids, At(thread), thread, rules, now);
      SubmittedAreBound(pending, At(thread), ids, thread);
      r := Transfer(thread, checked.value, ids, now, faults);
    }

    /** Makes the thread's directory unless it is there. */
    method OpenThread(thread: string)
      modifies this`submitted
      ensures old(OnePlace()) ==> OnePlace()
      ensures submitted == old(submitted)[thread := old(At(thread))]
    {
      submitted := submitted[thread := At(thread)];
    }

    /** The moves and the last loads, undone when any of them fails. */
    method Transfer(thread: string, attachments: seq<Stored>, ids: seq<string>, now: int, faults: set<Fault>)
      returns (r: Result<seq<Stored>>)
      requires thread in submitted && Distinct(ids) && ArePending(pending, attachments, ids) && IdSet(ids) <= pending.Keys
      requires AllLoad(submitted[thread] + AllSubmitted(pending, ids, thread), ids, Some(thread), rules, now)
      modifies this
      ensures old(OnePlace()) ==> OnePlace()
      ensures r.Err? ==> pending == old(pending) && submitted == old(submitted)
      ensures r.Ok? ==> IdSet(ids) !! old(submitted)[thread].Keys
      ensures r.Ok? ==> pending == old(pending) - IdSet(ids) && AreLoaded(At(thread), r.value, ids)
      ensures r.Ok? ==> submitted == old(submitted)[thread := old(submitted)[thread] + AllSubmitted(old(pending), ids, thread)]
      ensures faults == {} ==> (r.Ok? <==> IdSet(ids) !! old(submitted)[thread].Keys)
    {
      hide AllLoad, AreLoaded, OnePlace, AllSubmitted;
      assert attachments[..|ids|] == attachments && ids[..|ids|] == ids;
      ghost var start, own := pending, submitted[thread];
      var moved, failure, contents := MoveAll(thread, attachments, ids, faults);
      if failure.None? {
        var loaded := LoadAll(thread, ids, now, faults);
        if loaded.Ok? {
          return loaded;
        }
        failure := Some(loaded.error);
      }
      Rollback(thread, attachments[..moved], ids[..moved], start, own, contents);
      return Err(failure.value);
    }

    /** The forward steps: each attachment is renamed, unless its place is taken, and then its metadata rewritten. */
    method MoveAll(thread: string, attachments: seq<Stored>, ids: seq<string>, faults: set<Fault>)
      returns (moved: nat, failure: Option<AttachmentError>, ghost contents: Directory)
      requires thread in submitted && Distinct(ids) && ArePending(pending, attachments, ids)
      modifies this
      ensures old(OnePlace()) ==> OnePlace()
      ensures moved <= |ids| && IsMoved(old(pending), contents, ids[..moved]) && contents.Keys !! old(submitted)[thread].Keys
      ensures pending == old(pending) - contents.Keys
      ensures submitted == old(submitted)[thread := old(submitted)[thread] + contents]
      ensures failure.None? ==> moved == |ids| && IdSet(ids) <= old(pending).Keys && contents == AllSubmitted(old(pending), ids, thread)
      ensures faults == {} ==> (failure.None? <==> IdSet(ids) !! old(submitted)[thread].Keys)
    {
      hide OnePlace, IsMoved, IdSet, Submitted;
      moved, failure, contents := 0, None, map[];
      NothingMoved(pending, map[], ids);
      ghost var own := submitted[thread];
      assert own + map[] == own;
      for i := 0 to |ids|
        invariant old(OnePlace()) ==> OnePlace()
        invariant moved == i && failure.None? && IsMoved(old(pending), contents, ids[..i]) && contents.Keys !! own.Keys
        invariant pending == old(pending) - contents.Keys
        invariant submitted == old(submitted)[thread := own + contents]
        invariant forall id | id in contents :: id in old(pending) && contents[id] == Submitted(old(pending)[id], thread)
      {
        IdSetSnoc(ids, i);
        IdInSet(ids, i);
        NotYetMoved(old(pending), contents, ids, i);
        var begun: bool;
        ghost var before := contents;
        begun, failure, contents := MoveOne(thread, attachments[i], ids[i], i, faults, own, contents);
        if begun {
          moved := i + 1;
          MovedSnoc(old(pending), before, contents, ids, i);
        }
        if failure.Some? {
          return;
        }
      }
      assert ids[..|ids|] == ids;
      EverythingMoved(old(pending), contents, ids, thread);
    }

    /** The steps for one attachment; once renamed it counts as moved, whatever its metadata says. */
    method MoveOne(
        thread: string, attachment: Stored, id: string, at: nat, faults: set<Fault>, ghost own: Directory, ghost before: Directory)
      returns (begun: bool, failure: Option<AttachmentError>, ghost contents: Directory)
      requires id in pending && attachment == pending[id] && id !in before
      requires thread in submitted && submitted[thread] == own + before
      modifies this
      ensures (old(OnePlace()) ==> OnePlace()) && submitted == old(submitted)[thread := own + contents]
      ensures begun ==> id !in own && contents.Keys == before.Keys + {id} && contents - {id} == before
      ensures begun ==> contents[id].payload == attachment.payload
      ensures pending == if begun then old(pending) - {id} else old(pending)
      ensures !begun ==> contents == before && failure.Some?
      ensures failure.None? ==> contents == before[id := Submitted(attachment, thread)]
      ensures faults == {} ==> (failure.None? <==> id !in own)
    {
      hide OnePlace;
      begun, failure, contents := false, None, before;
      if Listing(at) in faults || id in submitted[thread] || Renaming(at) in faults {
        return false, Some(if id in submitted[thread] then Invalid else Interrupted), contents;
      }
      Take(thread, id);
      begun, contents := true, before[id := attachment];
      PlusUpdate(own, before, id, attachment);
      if Writing(at) in faults {
        return begun, Some(Interrupted), contents;
      }
      WriteMetadata(thread, id, attachment.metadata.(state := SubmittedState, thread := Some(thread)));
      PlusUpdate(own, contents, id, Submitted(attachment, thread));
      contents := contents[id := Submitted(attachment, thread)];
      if AfterWriting(at) in faults {
        return begun, Some(Interrupted), contents;
      }
    }

    /** One rename from the pending store into a thread's directory. */
    method Take(thread: string, id: string)
      requires thread in submitted && id in pending && id !in submitted[thread]
      modifies this
      ensures old(OnePlace()) ==> OnePlace()
      ensures pending == old(pending) - {id}
      ensures submitted == old(submitted)[thread := old(submitted)[thread][id := old(pending)[id]]]
    {
      var stored := pending[id];
      pending := pending - {id};
      submitted := submitted[thread := submitted[thread][id := stored]];
    }

    /** One rename back. */
    method GiveBack(thread: string, id: string)
      requires thread in submitted && id in submitted[thread] && id !in pending
      modifies this
      ensures old(OnePlace()) ==> OnePlace()
      ensures pending == old(pending)[id := old(submitted)[thread][id]]
      ensures submitted == old(submitted)[thread := old(submitted)[thread] - {id}]
    {
      var stored := submitted[thread][id];
      submitted := submitted[thread := submitted[thread] - {id}];
      pending := pending[id := stored];
    }

    method WriteMetadata(thread: string, id: string, metadata: Metadata)
      requires thread in submitted && id in submitted[thread]
      modifies this`submitted
      ensures old(OnePlace()) ==> OnePlace()
      ensures submitted == old(submitted)[
        thread := old(submitted)[thread][id := old(submitted)[thread][id].(metadata := metadata)]]
    {
      submitted := submitted[thread := submitted[thread][id := submitted[thread][id].(metadata := metadata)]];
    }

    /** The last forward steps: everything is loaded again from its new place. */
    method LoadAll(thread: string, ids: seq<string>, now: int, faults: set<Fault>) returns (r: Result<seq<Stored>>)
      requires AllLoad(At(thread), ids, Some(thread), rules, now)
      ensures r.Ok? ==> AreLoaded(At(thread), r.value, ids)
      ensures faults == {} ==> r.Ok?
    {
      var attachments: seq<Stored> := [];
      for i := 0 to |ids|
        invariant AreLoaded(At(thread), attachments, ids[..i])
      {
        assert ids[i] in ids;
        if Loading(i) in faults {
          return Err(Interrupted);
        }
        var loaded := Load(At(thread), ids[i], Some(thread), rules, now);
        attachments := attachments + [loaded.value];
      }
      assert ids[..|ids|] == ids;
      return Ok(attachments);
    }

    /** Every moved attachment gets its first metadata back and returns to the pending store. */
    method Rollback(
        thread: string, attachments: seq<Stored>, ids: seq<string>,
        ghost start: Directory, ghost own: Directory, ghost contents: Directory)
      requires thread in submitted && Distinct(ids) && ArePending(start, attachments, ids)
      requires IsMoved(start, contents, ids) && own.Keys !! contents.Keys
      requires pending == start - contents.Keys && submitted[thread] == own + contents
      modifies this
      ensures old(OnePlace()) ==> OnePlace()
      ensures pending == start && submitted == old(submitted)[thread := own]
    {
      hide OnePlace, IsMoved, IdSet;
      ghost var left := contents;
      assert ids[0..] == ids;
      for i := 0 to |ids|
        invariant old(OnePlace()) ==> OnePlace()
        invariant IsMoved(start, left, ids[i..]) && own.Keys !! left.Keys
        invariant pending == start - left.Keys && submitted == old(submitted)[thread := own + left]
      {
        IdSetTail(ids, i);
        MovedTail(start, left, ids, i);
        ReturnOne(thread, ids[i], attachments[i], own, left);
        left := left - {ids[i]};
      }
      NothingMoved(start, left, ids);
      assert own + map[] == own;
    }

    /** One attachment gets its first metadata back, and then its place. */
    method ReturnOne(thread: string, id: string, attachment: Stored, ghost own: Directory, ghost left: Directory)
      requires thread in submitted && submitted[thread] == own + left && id !in pending
      requires id in left && left[id].payload == attachment.payload && id !in own
      modifies this
      ensures old(OnePlace()) ==> OnePlace()
      ensures pending == old(pending)[id := attachment]
      ensures submitted == old(submitted)[thread := own + (left - {id})]
    {
      hide OnePlace;
      PlusUpdate(own, left, id, attachment);
      PlusMinus(own, left[id := attachment], id);
      assert left[id := attachment] - {id} == left - {id};
      WriteMetadata(thread, id, attachment.metadata);
      GiveBack(thread, id);
    }

    /** `restore_pending`: each attachment's metadata is rewritten, then it is renamed back; nothing undoes a failure. */
    method RestorePending(thread: string, ids: seq<string>, now: int, faults: set<Fault>) returns (restored: Result<nat>)
      modifies this
      ensures old(OnePlace()) ==> OnePlace()
      ensures forall t | t != thread :: At(t) == old(At(t))
      ensures !rules.validThread(thread) ==> restored.Err? && pending == old(pending) && At(thread) == old(At(thread))
      ensures rules.validThread(thread) ==>
        var run := RestoreRun(old(pending), old(At(thread)), ids, thread, rules, now, faults);
        pending == run.pending && At(thread) == run.own && (restored.Ok? <==> run.stopped.None?)
    {
      hide OnePlace, Load, RestoreRun, RestoreStep;
      if !rules.validThread(thread) {
        return Err(Invalid);
      }
      NothingRun(pending, At(thread), ids, thread, rules, now, faults);
      for i := 0 to |ids|
        invariant old(OnePlace()) ==> OnePlace()
        invariant forall t | t != thread :: At(t) == old(At(t))
        invariant RestoreRun(old(pending), old(At(thread)), ids[..i], thread, rules, now, faults)
               == RestoreState(pending, At(thread), None)
      {
        RunSnoc(old(pending), old(At(thread)), ids, i, thread, rules, now, faults);
        var failure := RestoreOne(thread, ids[i], i, now, faults);
        if failure.Some? {
          RunStops(old(pending), old(At(thread)), ids, i + 1, thread, rules, now, faults);
          return Err(failure.value);
        }
      }
      assert ids[..|ids|] == ids;
      return Ok(|ids|);
    }

    /** The steps for one attachment. */
    method RestoreOne(thread: string, id: string, at: nat, now: int, faults: set<Fault>) returns (failure: Option<AttachmentError>)
      modifies this
      ensures old(OnePlace()) ==> OnePlace()
      ensures forall t | t != thread :: At(t) == old(At(t))
      ensures RestoreStep(RestoreState(old(pending), old(At(thread)), None), id, at, thread, rules, now, faults)
           == RestoreState(pending, At(thread), if failure.None? then None else Some(at))
    {
      hide OnePlace, Load;
      var loaded := Load(At(thread), id, Some(thread), rules, now);
      if loaded.Err? || Loading(at) in faults || Writing(at) in faults {
        return Some(if loaded.Err? then loaded.error else Interrupted);
      }
      WriteMetadata(thread, id, loaded.value.metadata.(state := PendingState, thread := None));
      if AfterWriting(at) in faults || Renaming(at) in faults || id in pending {
        return Some(Interrupted);
      }
      ghost var rewritten := At(thread);
      GiveBack(thread, id);
      assert At(thread) == rewritten - {id};
      return None;
    }
  }

  lemma NothingRun(
      pending: Directory, own: Directory, ids: seq<string>, thread: string, rules: Rules, now: int, faults: set<Fault>)
    ensures RestoreRun(pending, own, ids[..0], thread, rules, now, faults) == RestoreState(pending, own, None)
  {
  }

  lemma IdInSet(ids: seq<string>, i: nat)
    requires i < |ids|
    ensures ids[i] in IdSet(ids) && IdSet(ids[..|ids|]) == IdSet(ids)
  {
    assert ids[..|ids|] == ids;
  }

  /** Each attachment as the pending store has it. */
  ghost predicate ArePending(pending: Directory, attachments: seq<Stored>, ids: seq<string>) {
    |attachments| == |ids| && forall i | 0 <= i < |ids| :: ids[i] in pending && attachments[i] == pending[ids[i]]
  }

  ghost predicate AreLoaded(directory: Directory, attachments: seq<Stored>, ids: seq<string>) {
    |attachments| == |ids| && forall i | 0 <= i < |ids| :: ids[i] in directory && attachments[i] == directory[ids[i]]
  }

  /** What has been moved so far: those ids, with their own payloads. */
  ghost predicate IsMoved(pending: Directory, contents: Directory, ids: seq<string>) {
    && contents.Keys == IdSet(ids)
    && forall id | id in contents :: id in pending && contents[id].payload == pending[id].payload
  }

  lemma NothingMoved(pending: Directory, contents: Directory, ids: seq<string>)
    ensures IsMoved(pending, map[], ids[..0]) && IsMoved(pending, map[], ids[|ids|..]) && pending - {} == pending
    ensures IsMoved(pending, contents, ids[|ids|..]) ==> contents == map[]
  {
  }

  lemma EverythingMoved(pending: Directory, contents: Directory, ids: seq<string>, thread: string)
    requires IsMoved(pending, contents, ids)
    requires forall id | id in contents :: id in pending && contents[id] == Submitted(pending[id], thread)
    ensures IdSet(ids) <= pending.Keys && contents == AllSubmitted(pending, ids, thread)
  {
  }

  lemma NotYetMoved(pending: Directory, contents: Directory, ids: seq<string>, i: nat)
    requires i < |ids| && Distinct(ids) && IsMoved(pending, contents, ids[..i]) && ids[i] in pending
    ensures ids[i] !in contents && ids[i] in pending - contents.Keys && (pending - contents.Keys)[ids[i]] == pending[ids[i]]
  {
  }

  lemma MovedSnoc(pending: Directory, before: Directory, after: Directory, ids: seq<string>, i: nat)
    requires i < |ids| && Distinct(ids) && IsMoved(pending, before, ids[..i]) && ids[i] in pending
    requires after.Keys == before.Keys + {ids[i]} && after - {ids[i]} == before && after[ids[i]].payload == pending[ids[i]].payload
    ensures IsMoved(pending, after, ids[..i + 1]) && pending - after.Keys == pending - before.Keys - {ids[i]}
    ensures forall id | id in before :: id in after && after[id] == before[id]
  {
  }

  lemma MovedTail(pending: Directory, left: Directory, ids: seq<string>, i: nat)
    requires i < |ids| && Distinct(ids) && IsMoved(pending, left, ids[i..])
    ensures ids[i] in left && ids[i] in pending && left[ids[i]].payload == pending[ids[i]].payload
    ensures IsMoved(pending, left - {ids[i]}, ids[i + 1..])
    ensures pending - (left - {ids[i]}).Keys == (pending - left.Keys)[ids[i] := pending[ids[i]]]
  {
  }

  lemma PlusUpdate(own: Directory, contents: Directory, id: string, stored: Stored)
    ensures own + contents[id := stored] == (own + contents)[id := stored]
  {
  }

  lemma PlusMinus(own: Directory, contents: Directory, id: string)
    requires id !in own
    ensures own + (contents - {id}) == (own + contents) - {id}
  {
  }

  lemma IdSetSnoc(ids: seq<string>, i: nat)
    requires i < |ids|
    ensures IdSet(ids[..i + 1]) == IdSet(ids[..i]) + {ids[i]}
    ensures Distinct(ids) ==> ids[i] !in IdSet(ids[..i])
  {
  }

  lemma IdSetTail(ids: seq<string>, i: nat)
    requires i < |ids|
    ensures IdSet(ids[i..]) == IdSet(ids[i + 1..]) + {ids[i]}
    ensures Distinct(ids) ==> ids[i] !in IdSet(ids[i + 1..])
  {
  }

  lemma NothingAsked(pending: Directory, own: Directory, thread: string, rules: Rules, now: int)
    ensures Acceptable(pending, [], rules, now) && IdSet([]) == {} && AreLoaded(own, [], [])
    ensures pending - IdSet([]) == pending && own + AllSubmitted(pending, [], thread) == own && AreBound(pending, own, [], thread)
  {
  }

  lemma SubmittedAreBound(pending: Directory, own: Directory, ids: seq<string>, thread: string)
    requires IdSet(ids) <= pending.Keys
    ensures AreBound(pending, own + AllSubmitted(pending, ids, thread), ids, thread)
  {
  }

  /** What was acceptable as pending loads as submitted. */
  lemma AcceptableLoads(
      pending: Directory, attachments: seq<Stored>, ids: seq<string>, own: Directory, thread: string, rules: Rules, now: int)
    requires Acceptable(pending, ids, rules, now) && ArePending(pending, attachments, ids)
    ensures Distinct(ids) && IdSet(ids) <= pending.Keys
    ensures AllLoad(own + AllSubmitted(pending, ids, thread), ids, Some(thread), rules, now)
  {
  }
}
