/** What an interrupted restore leaves, and how a restore undoes a bind. */
module AttachmentTheorems {
  import opened Records
  import opened Attachments

  lemma LoadSame(left: Directory, right: Directory, id: string, thread: Option<string>, rules: Rules, now: int)
    requires (id in left <==> id in right) && (id in left ==> left[id] == right[id])
    ensures Load(left, id, thread, rules, now) == Load(right, id, thread, rules, now)
  {
  }

  /** The first of some attachments are back in the pending store. */
  ghost predicate WasRestored(start: Directory, own: Directory, s: RestoreState, ids: seq<string>, thread: string, rules: Rules, now: int)
  {
    && Distinct(ids) && AllLoad(own, ids, Some(thread), rules, now) && IdSet(ids) <= own.Keys && IdSet(ids) !! start.Keys
    && s.pending == start + AllUnsubmitted(own, ids) && s.own == own - IdSet(ids)
  }

  lemma OneMoreRestored(start: Directory, own: Directory, ids: seq<string>, i: nat)
    requires i < |ids| && IdSet(ids[..i]) <= own.Keys && ids[i] in own - IdSet(ids[..i])
    ensures IdSet(ids[..i + 1]) <= own.Keys
    ensures (start + AllUnsubmitted(own, ids[..i]))[ids[i] := Unsubmitted(own[ids[i]])] == start + AllUnsubmitted(own, ids[..i + 1])
    ensures own - IdSet(ids[..i]) - {ids[i]} == own - IdSet(ids[..i + 1])
  {
    IdSetSnoc(ids, i);
  }

  /** An attachment that the request names before it is no longer there; any other is as it was. */
  lemma LeftOver(own: Directory, ids: seq<string>, i: nat, thread: string, rules: Rules, now: int)
    requires i < |ids|
    ensures var left := own - IdSet(ids[..i]);
      Load(left, ids[i], Some(thread), rules, now).Ok? <==> ids[i] !in ids[..i] && Load(own, ids[i], Some(thread), rules, now).Ok?
    ensures ids[i] !in ids[..i] ==>
      Load(own - IdSet(ids[..i]), ids[i], Some(thread), rules, now) == Load(own, ids[i], Some(thread), rules, now)
  {
    hide Load;
    var left := own - IdSet(ids[..i]);
    if ids[i] in ids[..i] {
      NotThere(left, ids[i], thread, rules, now);
    } else {
      LoadSame(left, own, ids[i], Some(thread), rules, now);
    }
  }

  lemma NotThere(directory: Directory, id: string, thread: string, rules: Rules, now: int)
    requires id !in directory
    ensures Load(directory, id, Some(thread), rules, now).Err?
  {
  }

  /** Whether the failure at a place came after the metadata was rewritten. */
  predicate Rewritten(own: Directory, ids: seq<string>, k: nat, thread: string, rules: Rules, now: int, faults: set<Fault>)
    requires k < |ids|
  {
    && ids[k] !in ids[..k] && Load(own, ids[k], Some(thread), rules, now).Ok?
    && Loading(k) !in faults && Writing(k) !in faults
  }

  /** A restore that stopped at place k: those before k are pending as they first were, those after k are untouched, and the one at
      k is untouched, or rewritten where it is. */
  ghost predicate StoppedAt(
      start: Directory, own: Directory, s: RestoreState, ids: seq<string>, k: nat, thread: string,
      rules: Rules, now: int, faults: set<Fault>)
  {
    && k < |ids| && IdSet(ids[..k]) <= own.Keys && Distinct(ids[..k]) && IdSet(ids[..k]) !! start.Keys
    && s.pending == start + AllUnsubmitted(own, ids[..k])
    && (Rewritten(own, ids, k, thread, rules, now, faults) ==>
          ids[k] in own && s.own == (own - IdSet(ids[..k]))[ids[k] := Unsubmitted(own[ids[k]])])
    && (!Rewritten(own, ids, k, thread, rules, now, faults) ==> s.own == own - IdSet(ids[..k]))
  }

  /** The restore of one attachment goes through. */
  predicate GoesThrough(
      start: Directory, own: Directory, ids: seq<string>, k: nat, thread: string, rules: Rules, now: int, faults: set<Fault>)
    requires k < |ids|
  {
    Rewritten(own, ids, k, thread, rules, now, faults) && AfterWriting(k) !in faults && Renaming(k) !in faults && ids[k] !in start
  }

  lemma StepOutcome(
      start: Directory, own: Directory, s: RestoreState, ids: seq<string>, i: nat, thread: string,
      rules: Rules, now: int, faults: set<Fault>)
    requires i < |ids| && s.stopped.None? && WasRestored(start, own, s, ids[..i], thread, rules, now)
    ensures var after := RestoreStep(s, ids[i], i, thread, rules, now, faults);
      if GoesThrough(start, own, ids, i, thread, rules, now, faults)
      then after.stopped.None? && WasRestored(start, own, after, ids[..i + 1], thread, rules, now)
      else after.stopped == Some(i) && StoppedAt(start, own, after, ids, i, thread, rules, now, faults)
  {
    hide Load, AllUnsubmitted, Unsubmitted;
    LeftOver(own, ids, i, thread, rules, now);
    IdSetSnoc(ids, i);
    AddedKeys(start, own, ids[..i]);
    LoadedThere(own, ids[i], thread, rules, now);
    assert ids[..i + 1] == ids[..i] + [ids[i]];
    assert ids[i] in ids[..i] <==> ids[i] in IdSet(ids[..i]);
    if Rewritten(own, ids, i, thread, rules, now, faults) {
      OneMoreRestored(start, own, ids, i);
    }
  }

  lemma LoadedThere(own: Directory, id: string, thread: string, rules: Rules, now: int)
    ensures Load(own, id, Some(thread), rules, now).Ok? ==> id in own
  {
  }

  /** Every restore either goes through for all, or stops at the first attachment for which it does not, in one exact state. */
  lemma {:induction false} RestoreOutcome(
      start: Directory, own: Directory, ids: seq<string>, thread: string, rules: Rules, now: int, faults: set<Fault>)
    ensures var run := RestoreRun(start, own, ids, thread, rules, now, faults);
      match run.stopped
      case None =>
        && WasRestored(start, own, run, ids, thread, rules, now)
        && (forall i | 0 <= i < |ids| :: GoesThrough(start, own, ids, i, thread, rules, now, faults))
      case Some(k) =>
        && StoppedAt(start, own, run, ids, k, thread, rules, now, faults)
        && (forall i | 0 <= i < k :: GoesThrough(start, own, ids, i, thread, rules, now, faults))
        && !GoesThrough(start, own, ids, k, thread, rules, now, faults)
    decreases |ids|
  {
    hide RestoreStep, WasRestored, StoppedAt, GoesThrough;
    if ids == [] {
      NothingRestored(start, own, thread, rules, now, faults);
    } else {
      var n := |ids| - 1;
      var front := ids[..n];
      RestoreOutcome(start, own, front, thread, rules, now, faults);
      var s := RestoreRun(start, own, front, thread, rules, now, faults);
      if s.stopped.Some? {
        StopPlace(start, own, s, front, s.stopped.value, thread, rules, now, faults);
        SameStop(start, own, s, ids, s.stopped.value, thread, rules, now, faults);
        SameGo(start, own, ids, s.stopped.value, thread, rules, now, faults);
      } else {
        StepOutcome(start, own, s, ids, n, thread, rules, now, faults);
        assert ids[..n + 1] == ids;
      }
      forall i | 0 <= i < (if s.stopped.Some? then s.stopped.value else n)
        ensures GoesThrough(start, own, ids, i, thread, rules, now, faults)
      {
        assert GoesThrough(start, own, front, i, thread, rules, now, faults);
        SameGo(start, own, ids, i, thread, rules, now, faults);
      }
    }
  }

  lemma StopPlace(
      start: Directory, own: Directory, s: RestoreState, ids: seq<string>, k: nat, thread: string, rules: Rules,
      now: int, faults: set<Fault>)
    requires StoppedAt(start, own, s, ids, k, thread, rules, now, faults)
    ensures k < |ids|
  {
  }

  lemma NothingRestored(start: Directory, own: Directory, thread: string, rules: Rules, now: int, faults: set<Fault>)
    ensures RestoreRun(start, own, [], thread, rules, now, faults) == RestoreState(start, own, None)
    ensures WasRestored(start, own, RestoreState(start, own, None), [], thread, rules, now)
  {
  }

  lemma SameGo(
      start: Directory, own: Directory, ids: seq<string>, i: nat, thread: string, rules: Rules, now: int, faults: set<Fault>)
    requires i < |ids| - 1
    ensures GoesThrough(start, own, ids[..|ids| - 1], i, thread, rules, now, faults)
        <==> GoesThrough(start, own, ids, i, thread, rules, now, faults)
  {
    hide Load;
    assert ids[..|ids| - 1][..i] == ids[..i];
  }

  lemma SameStop(
      start: Directory, own: Directory, s: RestoreState, ids: seq<string>, k: nat, thread: string,
      rules: Rules, now: int, faults: set<Fault>)
    requires ids != [] && StoppedAt(start, own, s, ids[..|ids| - 1], k, thread, rules, now, faults)
    ensures StoppedAt(start, own, s, ids, k, thread, rules, now, faults)
  {
    hide Load, AllUnsubmitted, Unsubmitted;
    assert ids[..|ids| - 1][..k] == ids[..k];
  }

  /** What a request needs for its restore to go through when no step fails. */
  predicate Restorable(start: Directory, own: Directory, ids: seq<string>, thread: string, rules: Rules, now: int) {
    Distinct(ids) && AllLoad(own, ids, Some(thread), rules, now) && IdSet(ids) !! start.Keys
  }

  /** With no fault, a restore goes through exactly for distinct attachments that load from the thread and are not pending too. */
  lemma RestoresIff(start: Directory, own: Directory, ids: seq<string>, thread: string, rules: Rules, now: int)
    ensures RestoreRun(start, own, ids, thread, rules, now, {}).stopped.None? <==> Restorable(start, own, ids, thread, rules, now)
  {
    hide Load, RestoreRun, AllUnsubmitted, Unsubmitted, GoesThrough;
    RestoreOutcome(start, own, ids, thread, rules, now, {});
    if Restorable(start, own, ids, thread, rules, now) {
      forall k | 0 <= k < |ids| ensures GoesThrough(start, own, ids, k, thread, rules, now, {}) {
        RestorableGoes(start, own, ids, k, thread, rules, now);
      }
    }
  }

  lemma RestorableGoes(start: Directory, own: Directory, ids: seq<string>, k: nat, thread: string, rules: Rules, now: int)
    requires Restorable(start, own, ids, thread, rules, now) && k < |ids|
    ensures GoesThrough(start, own, ids, k, thread, rules, now, {})
  {
    hide Load;
    assert ids[k] in ids && ids[k] in IdSet(ids);
  }

  // ----- which attachments an interrupted restore leaves usable -----

  /** The attachment a restore stopped at still loads from the thread if and only if the failure came before its metadata was
      rewritten; and while it is not also pending, it loads from nowhere otherwise. */
  lemma StoppedLoadsIff(start: Directory, own: Directory, ids: seq<string>, thread: string, rules: Rules, now: int, faults: set<Fault>)
    requires RestoreRun(start, own, ids, thread, rules, now, faults).stopped.Some?
    ensures var run := RestoreRun(start, own, ids, thread, rules, now, faults);
      var k := run.stopped.value;
      k < |ids|
      && (ids[k] !in ids[..k] && Load(own, ids[k], Some(thread), rules, now).Ok? ==>
            && (Load(run.own, ids[k], Some(thread), rules, now).Ok? <==> Loading(k) in faults || Writing(k) in faults)
            && (ids[k] !in start ==> Load(run.pending, ids[k], None, rules, now).Err?))
  {
    hide RestoreRun, AllUnsubmitted, Load;
    RestoreOutcome(start, own, ids, thread, rules, now, faults);
    var run := RestoreRun(start, own, ids, thread, rules, now, faults);
    var k := run.stopped.value;
    LeftOver(own, ids, k, thread, rules, now);
    RewrittenDoesNotLoad(own, run.own, ids[k], thread, rules, now);
    NotPending(run.pending, ids[k], rules, now);
    AddedKeys(start, own, ids[..k]);
  }

  lemma RewrittenDoesNotLoad(own: Directory, after: Directory, id: string, thread: string, rules: Rules, now: int)
    ensures id in own && id in after && after[id] == Unsubmitted(own[id]) ==> Load(after, id, Some(thread), rules, now).Err?
  {
  }

  lemma NotPending(pending: Directory, id: string, rules: Rules, now: int)
    ensures id !in pending ==> Load(pending, id, None, rules, now).Err?
  {
  }

  lemma AddedKeys(start: Directory, own: Directory, ids: seq<string>)
    requires IdSet(ids) <= own.Keys
    ensures (start + AllUnsubmitted(own, ids)).Keys == start.Keys + IdSet(ids)
  {
  }

  /** Every attachment of the thread that the restore did not stop at is as loadable as before: from the thread if the restore had
      not come to it, and else as a pending one, within the time a pending attachment is kept. */
  lemma OthersLoad(
      start: Directory, own: Directory, ids: seq<string>, id: string, thread: string, rules: Rules, now: int, faults: set<Fault>)
    requires id in own && Load(own, id, Some(thread), rules, now).Ok?
    requires var k := RestoreRun(start, own, ids, thread, rules, now, faults).stopped;
      k.Some? ==> k.value < |ids| && (id != ids[k.value] || id in ids[..k.value])
    ensures var run := RestoreRun(start, own, ids, thread, rules, now, faults);
      var done := if run.stopped.Some? then ids[..run.stopped.value] else ids;
      if id in done
      then id in run.pending && run.pending[id].payload == own[id].payload && id !in run.own
           && (Load(run.pending, id, None, rules, now).Ok? <==> own[id].metadata.createdAt >= now - PENDING_TTL_SECONDS)
      else id in run.own && run.own[id] == own[id] && Load(run.own, id, Some(thread), rules, now).Ok?
  {
    hide RestoreRun, Load;
    RestoreOutcome(start, own, ids, thread, rules, now, faults);
    var run := RestoreRun(start, own, ids, thread, rules, now, faults);
    var done := if run.stopped.Some? then ids[..run.stopped.value] else ids;
    if id in done {
      assert id in IdSet(done);
      assert run.pending[id] == Unsubmitted(own[id]);
      LoadsUnsubmitted(own, run.pending, id, thread, rules, now);
    } else {
      LoadSame(run.own, own, id, Some(thread), rules, now);
    }
  }

  lemma LoadsUnsubmitted(own: Directory, pending: Directory, id: string, thread: string, rules: Rules, now: int)
    requires id in own && Load(own, id, Some(thread), rules, now).Ok?
    requires id in pending && pending[id] == Unsubmitted(own[id])
    ensures Load(pending, id, None, rules, now).Ok? <==> own[id].metadata.createdAt >= now - PENDING_TTL_SECONDS
  {
  }

  /** After any bind of one attachment, a restore at any time whose rename fails strands it. */
  lemma RestoreCanStrand(pending: Directory, own: Directory, id: string, thread: string, rules: Rules, now: int, later: int)
    requires Bindable(pending, own, [id], thread, rules, now)
    ensures IdSet([id]) <= pending.Keys
    ensures var bound := own + AllSubmitted(pending, [id], thread);
      var run := RestoreRun(pending - IdSet([id]), bound, [id], thread, rules, later, {Renaming(0)});
      && Load(bound, id, Some(thread), rules, later).Ok?
      && run.stopped == Some(0)
      && Load(run.own, id, Some(thread), rules, later).Err? && Load(run.pending, id, None, rules, later).Err?
  {
    hide RestoreRun, Load, AllSubmitted, AllUnsubmitted, Unsubmitted;
    LoadsAsSubmitted(pending, own, [id], thread, rules, now, later);
    var start, bound := pending - IdSet([id]), own + AllSubmitted(pending, [id], thread);
    assert id in [id] && [id][0] == id && [id][..0] == [];
    RestoreOutcome(start, bound, [id], thread, rules, later, {Renaming(0)});
    assert !GoesThrough(start, bound, [id], 0, thread, rules, later, {Renaming(0)});
    StoppedLoadsIff(start, bound, [id], thread, rules, later, {Renaming(0)});
  }

  // ----- there and back -----

  /** After a bind, a restore that undoes it, at any time, goes through and gives back both directories as they were. */
  lemma RestoreUndoesBind(pending: Directory, own: Directory, ids: seq<string>, thread: string, rules: Rules, now: int, later: int)
    requires Bindable(pending, own, ids, thread, rules, now)
    ensures IdSet(ids) <= pending.Keys
    ensures RestoreRun(pending - IdSet(ids), own + AllSubmitted(pending, ids, thread), ids, thread, rules, later, {})
         == RestoreState(pending, own, None)
  {
    hide Load, TotalSize, AllLoad, AllSubmitted, AllUnsubmitted, RestoreRun;
    LoadsAsSubmitted(pending, own, ids, thread, rules, now, later);
    ThereAndBack(pending, own, ids, thread);
    var start, bound := pending - IdSet(ids), own + AllSubmitted(pending, ids, thread);
    RestoresIff(start, bound, ids, thread, rules, later);
    RestoreOutcome(start, bound, ids, thread, rules, later, {});
  }

  lemma ThereAndBack(pending: Directory, own: Directory, ids: seq<string>, thread: string)
    requires IdSet(ids) <= pending.Keys && own.Keys !! IdSet(ids)
    requires forall id | id in ids :: id in own + AllSubmitted(pending, ids, thread)
    requires forall id | id in ids :: Unsubmitted((own + AllSubmitted(pending, ids, thread))[id]) == pending[id]
    ensures var bound := own + AllSubmitted(pending, ids, thread);
      && IdSet(ids) <= bound.Keys && pending - IdSet(ids) + AllUnsubmitted(bound, ids) == pending
      && bound - IdSet(ids) == own
  {
    hide Submitted, Unsubmitted;
    var bound := own + AllSubmitted(pending, ids, thread);
    assert (bound - IdSet(ids)).Keys == own.Keys;
    var back := pending - IdSet(ids) + AllUnsubmitted(bound, ids);
    assert back.Keys == pending.Keys;
  }

  lemma LoadsAsSubmitted(pending: Directory, own: Directory, ids: seq<string>, thread: string, rules: Rules, now: int, later: int)
    requires AllLoad(pending, ids, None, rules, now)
    ensures IdSet(ids) <= pending.Keys
    ensures var bound := own + AllSubmitted(pending, ids, thread);
      && AllLoad(bound, ids, Some(thread), rules, later)
      && forall id | id in ids :: id in bound && Unsubmitted(bound[id]) == pending[id]
  {
    var bound := own + AllSubmitted(pending, ids, thread);
    forall id | id in ids
      ensures Load(bound, id, Some(thread), rules, later).Ok? && Unsubmitted(bound[id]) == pending[id]
    {
      assert Load(pending, id, None, rules, now).Ok?;
    }
  }
}
