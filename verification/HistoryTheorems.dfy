/** History import is idempotent, resumable, and completes exactly the right turns. */
module HistoryTheorems {
  import opened Records
  import opened JournalFile
  import opened JournalWriter
  import opened HistoryImport

  // ----- runs of appends -----

  function RequestKeys(requests: seq<Values>): set<DedupKey> {
    set v | v in requests :: v.dedupKey
  }

  /** A record that some request asked for. */
  ghost predicate Requested(e: Event, requests: seq<Values>, thread: string) {
    exists v :: v in requests && e == v.Record(thread, e.sequence, e.eventId, e.at)
  }

  lemma RequestKeysSnoc(requests: seq<Values>, v: Values)
    ensures RequestKeys(requests + [v]) == RequestKeys(requests) + {v.dedupKey}
  {
  }

  /** A run of appends only extends the log, by requested records, and afterwards holds every requested key. */
  lemma {:induction false} AppendAllExtends(p: Progress, thread: string, requests: seq<Values>, env: Environment, now: int)
    ensures var q := AppendAll(p, thread, requests, env, now);
      && p.log.events <= q.log.events
      && q.log.damaged == p.log.damaged
      && Keys(q.log.events) == Keys(p.log.events) + RequestKeys(requests)
      && forall e :: e in q.log.events[|p.log.events|..] ==> Requested(e, requests, thread)
    decreases |requests|
  {
    if requests != [] {
      var n := |requests| - 1;
      AppendAllExtends(p, thread, requests[..n], env, now);
      assert requests == requests[..n] + [requests[n]];
      var mid := AppendAll(p, thread, requests[..n], env, now);
      var q := AppendNext(mid, thread, requests[n], env, now);
      RequestKeysSnoc(requests[..n], requests[n]);
      hide AppendAll, Keys, RequestKeys;
      NextExtends(mid, thread, requests[n], env, now);
      forall e | e in q.log.events[|p.log.events|..] ensures Requested(e, requests, thread) {
        if e in mid.log.events[|p.log.events|..] {
          var v :| v in requests[..n] && e == v.Record(thread, e.sequence, e.eventId, e.at);
          assert v in requests;
        } else {
          assert e == requests[n].Record(thread, e.sequence, e.eventId, e.at);
        }
      }
    }
  }

  lemma NextExtends(mid: Progress, thread: string, values: Values, env: Environment, now: int)
    ensures var q := AppendNext(mid, thread, values, env, now);
      && (q.log.events == mid.log.events
          || exists e :: q.log.events == mid.log.events + [e] && e == values.Record(thread, e.sequence, e.eventId, e.at))
      && q.log.damaged == mid.log.damaged
      && Keys(q.log.events) == Keys(mid.log.events) + {values.dedupKey}
  {
  }

  lemma {:induction false} AppendAllConcat(p: Progress, thread: string, left: seq<Values>, right: seq<Values>, env: Environment, now: int)
    ensures AppendAll(p, thread, left + right, env, now)
         == AppendAll(AppendAll(p, thread, left, env, now), thread, right, env, now)
    decreases |right|
  {
    if right == [] {
      assert left + right == left;
    } else {
      var n := |right| - 1;
      assert (left + right)[..|left + right| - 1] == left + right[..n];
      AppendAllConcat(p, thread, left, right[..n], env, now);
    }
  }

  lemma {:induction false} AppendAllRepeated(p: Progress, thread: string, requests: seq<Values>, env: Environment, now: int)
    requires RequestKeys(requests) <= Keys(p.log.events)
    ensures AppendAll(p, thread, requests, env, now) == p
    decreases |requests|
  {
    if requests != [] {
      var n := |requests| - 1;
      assert RequestKeys(requests[..n]) <= RequestKeys(requests);
      AppendAllRepeated(p, thread, requests[..n], env, now);
      assert requests[n].dedupKey in RequestKeys(requests);
    }
  }

  // ----- equality up to event id and time -----

  function Anonymous(e: Event): Event {
    e.(eventId := "", at := "")
  }

  ghost predicate SameLog(a: Scan, b: Scan) {
    && a.expected == b.expected && a.highWater == b.highWater && a.damaged == b.damaged
    && |a.events| == |b.events|
    && forall i | 0 <= i < |a.events| :: Anonymous(a.events[i]) == Anonymous(b.events[i])
  }

  lemma SameKeys(a: Scan, b: Scan)
    requires SameLog(a, b)
    ensures Keys(a.events) == Keys(b.events)
  {
  }

  lemma {:induction false} AppendAllSame(
      p: Progress, q: Progress, thread: string, requests: seq<Values>, env: Environment, now: int, later: int)
    requires SameLog(p.log, q.log)
    ensures SameLog(AppendAll(p, thread, requests, env, now).log, AppendAll(q, thread, requests, env, later).log)
    decreases |requests|
  {
    if requests != [] {
      var n := |requests| - 1;
      AppendAllSame(p, q, thread, requests[..n], env, now, later);
      SameKeys(AppendAll(p, thread, requests[..n], env, now).log, AppendAll(q, thread, requests[..n], env, later).log);
    }
  }

  // ----- the skipped turns do not change during an import -----

  lemma {:induction false} ItemRequestsFacts(thread: string, turn: string, items: seq<Option<HistoryItem>>)
    ensures forall v | v in ItemRequests(thread, turn, items) ::
      v.turnId == Some(turn) && v.source == CodexHistory && v.Valid() && v.dedupKey.HistoryItemKey?
  {
    if items != [] {
      ItemRequestsFacts(thread, turn, items[..|items| - 1]);
    }
  }

  /** Every request names a turn of the view that is not skipped, or is the opening or baseline record. */
  ghost predicate FromTurn(v: Values, thread: string, turns: seq<TurnEntry>, skip: set<string>, i: nat) {
    && i < |turns| && turns[i].TurnEntry? && TurnId(i, turns[i]) !in skip
    && v.turnId == Some(TurnId(i, turns[i])) && v.source == CodexHistory && v.Valid()
    && (v.dedupKey.HistoryItemKey? || v.dedupKey == TurnEdgeKey(thread, TurnId(i, turns[i]), v.kind))
  }

  lemma TurnRequestsFacts(thread: string, turns: seq<TurnEntry>, skip: set<string>, i: nat, v: Values)
    requires i < |turns| && v in TurnRequests(thread, i, turns[i], skip)
    ensures FromTurn(v, thread, turns, skip, i)
  {
    ItemRequestsFacts(thread, TurnId(i, turns[i]), turns[i].items);
  }

  lemma {:induction false} AllTurnRequestsFrom(thread: string, turns: seq<TurnEntry>, skip: set<string>, v: Values)
    returns (i: nat)
    requires v in AllTurnRequests(thread, turns, skip)
    ensures FromTurn(v, thread, turns, skip, i)
  {
    var n := |turns| - 1;
    if v in AllTurnRequests(thread, turns[..n], skip) {
      i := AllTurnRequestsFrom(thread, turns[..n], skip, v);
    } else {
      i := n;
      TurnRequestsFacts(thread, turns, skip, n, v);
    }
  }

  lemma {:induction false} AllTurnRequestsHold(thread: string, turns: seq<TurnEntry>, skip: set<string>, i: nat, v: Values)
    requires i < |turns| && v in TurnRequests(thread, i, turns[i], skip)
    ensures v in AllTurnRequests(thread, turns, skip)
  {
    hide TurnRequests;
    var n := |turns| - 1;
    if i < n {
      AllTurnRequestsHold(thread, turns[..n], skip, i, v);
    }
  }

  lemma RequestSources(thread: string, view: ThreadView, skip: set<string>)
    ensures forall v | v in ImportRequests(thread, view, skip) ::
      && v.Valid()
      && (v.source == CodexHistory || v.turnId == None)
      && (v.dedupKey.BaselineKey? ==> v.kind == BaselineImported)
      && (v.turnId.Some? ==> exists i :: FromTurn(v, thread, view.turns, skip, i))
  {
    forall v | v in AllTurnRequests(thread, view.turns, skip) ensures exists i :: FromTurn(v, thread, view.turns, skip, i) {
      var i := AllTurnRequestsFrom(thread, view.turns, skip, v);
    }
  }

  /** Any part of an import leaves the set of whole live turns, and so the set of skipped turns, as it was. */
  lemma ImportKeepsSkipped(p: Progress, thread: string, view: ThreadView, skip: set<string>, part: seq<Values>,
                           env: Environment, now: int)
    requires forall v | v in part :: v in ImportRequests(thread, view, skip)
    ensures CompleteTurns(AppendAll(p, thread, part, env, now).log.events) == CompleteTurns(p.log.events)
    ensures Skipped(AppendAll(p, thread, part, env, now).log) == Skipped(p.log)
  {
    hide AppendAll, ImportRequests, CompleteTurns, Keys, RequestKeys, FromTurn;
    var q := AppendAll(p, thread, part, env, now);
    AppendAllExtends(p, thread, part, env, now);
    RequestSources(thread, view, skip);
    var added := q.log.events[|p.log.events|..];
    assert q.log.events == p.log.events + added;
    forall e, t, end | e in added ensures !LiveBoundary(e, t, end) {
      assert Requested(e, part, thread);
    }
    SameLiveTurns(p.log.events, added);
  }

  lemma SameLiveTurns(events: seq<Event>, added: seq<Event>)
    requires forall e, t, end | e in added :: !LiveBoundary(e, t, end)
    ensures CompleteTurns(events + added) == CompleteTurns(events)
  {
    hide LiveBoundary;
    assert forall e :: e in events + added <==> e in events || e in added;
    assert forall t :: LiveClosed(events + added, t) <==> LiveClosed(events, t);
  }

  /** Importing the same view again adds nothing, at whatever time it runs. */
  lemma ImportIdempotent(p: Progress, thread: string, view: ThreadView, env: Environment, now: int, later: int)
    ensures var q := Import(p, thread, view, env, now);
      Import(q, thread, view, env, later) == q
  {
    var requests := ImportRequests(thread, view, Skipped(p.log));
    var q := AppendAll(p, thread, requests, env, now);
    ImportKeepsSkipped(p, thread, view, Skipped(p.log), requests, env, now);
    AppendAllExtends(p, thread, requests, env, now);
    AppendAllRepeated(q, thread, requests, env, later);
  }

  /** An import stopped after any number of records and run again leaves the records of an uninterrupted one. */
  lemma ImportResumable(p: Progress, thread: string, view: ThreadView, count: nat, env: Environment,
                        first: int, second: int, once: int)
    ensures SameLog(Import(ImportStopped(p, thread, view, count, env, first), thread, view, env, second).log,
                    Import(p, thread, view, env, once).log)
  {
    var requests := ImportRequests(thread, view, Skipped(p.log));
    var done := if count <= |requests| then requests[..count] else requests;
    var rest := requests[|done|..];
    assert requests == done + rest;
    var stopped := AppendAll(p, thread, done, env, first);
    ImportKeepsSkipped(p, thread, view, Skipped(p.log), done, env, first);
    AppendAllExtends(p, thread, done, env, first);
    AppendAllConcat(stopped, thread, done, rest, env, second);
    AppendAllRepeated(stopped, thread, done, env, second);
    AppendAllConcat(p, thread, done, rest, env, once);
    AppendAllSame(p, p, thread, done, env, first, once);
    AppendAllSame(stopped, AppendAll(p, thread, done, env, once), thread, rest, env, second, once);
  }

  /** A stop after `count` requests, at a time. */
  datatype Stop = Stop(count: nat, now: int)

  function AfterStops(p: Progress, thread: string, view: ThreadView, stops: seq<Stop>, env: Environment): Progress {
    if stops == [] then p
    else
      var n := |stops| - 1;
      ImportStopped(AfterStops(p, thread, view, stops[..n], env), thread, view, stops[n].count, env, stops[n].now)
  }

  /** The same after any number of interrupted attempts. */
  lemma {:induction false} ImportAfterStops(
      p: Progress, thread: string, view: ThreadView, stops: seq<Stop>, env: Environment, last: int, once: int)
    ensures SameLog(Import(AfterStops(p, thread, view, stops, env), thread, view, env, last).log,
                    Import(p, thread, view, env, once).log)
    decreases |stops|
  {
    if stops == [] {
      AppendAllSame(p, p, thread, ImportRequests(thread, view, Skipped(p.log)), env, last, once);
    } else {
      var n := |stops| - 1;
      var before := AfterStops(p, thread, view, stops[..n], env);
      ImportAfterStops(p, thread, view, stops[..n], env, last, once);
      ImportResumable(before, thread, view, stops[n].count, env, stops[n].now, last, last);
    }
  }

  // ----- coverage after an import -----

  /** Only live records: their keys are live keys or the opening key. */
  ghost predicate LiveOnly(log: Scan) {
    && !log.damaged
    && forall e | e in log.events :: e.source == CodexStream && (e.dedupKey.LiveKey? || e.dedupKey.OpenedKey?)
  }

  /** After importing a finished view over a live journal, coverage is complete exactly when every turn with a
      live record has both its live boundaries. */
  lemma CoverageAfterImport(p: Progress, thread: string, view: ThreadView, env: Environment, now: int)
    requires LiveOnly(p.log) && Finished(view)
    ensures CoverageOf(Import(p, thread, view, env, now).log.events, false) == Complete
      <==> forall e | e in Domain(p.log.events) && NamesTurn(e) :: e.turnId.value in CompleteTurns(p.log.events)
  {
    hide ImportRequests, AppendAll, TurnClosed, Settled, Finished, CompleteTurns, TurnEvents, Domain;
    var skip := Skipped(p.log);
    var requests := ImportRequests(thread, view, skip);
    var before, final := p.log.events, Import(p, thread, view, env, now).log.events;
    AppendAllExtends(p, thread, requests, env, now);
    assert final == before + final[|before|..];
    ImportedBaseline(before, final, thread, requests, view, skip);
    forall e | e in Domain(final) && NamesTurn(e)
      ensures TurnClosed(TurnEvents(Domain(final), e.turnId.value)) <==> Settled(before, e.turnId.value)
    {
      ImportedTurn(before, final, thread, requests, view, skip, e);
    }
    assert CoverageOf(final, false) == Complete
      <==> forall e | e in Domain(final) && NamesTurn(e) :: Settled(before, e.turnId.value);
    AllSettled(before, final);
  }

  ghost predicate HasRecord(events: seq<Event>, turn: string) {
    exists e :: e in events && e.InTurn(turn)
  }

  /** The turn is known only from history, or its live stream is whole. */
  ghost predicate Settled(before: seq<Event>, turn: string) {
    HasRecord(Domain(before), turn) ==> turn in CompleteTurns(before)
  }

  lemma AllSettled(before: seq<Event>, final: seq<Event>)
    requires before <= final
    ensures (forall e | e in Domain(final) && NamesTurn(e) :: Settled(before, e.turnId.value))
      <==> (forall e | e in Domain(before) && NamesTurn(e) :: e.turnId.value in CompleteTurns(before))
  {
  }

  ghost predicate Imported(before: seq<Event>, final: seq<Event>, thread: string, requests: seq<Values>,
                           view: ThreadView, skip: set<string>)
  {
    && requests == ImportRequests(thread, view, skip)
    && before <= final
    && (forall e | e in before :: e.source == CodexStream && (e.dedupKey.LiveKey? || e.dedupKey.OpenedKey?))
    && (forall e | e in final :: e in before || Requested(e, requests, thread))
    && RequestKeys(requests) <= Keys(final)
  }

  /** The record that holds a requested history key is the requested one. */
  lemma HoldsRequest(before: seq<Event>, final: seq<Event>, thread: string, requests: seq<Values>,
                     view: ThreadView, skip: set<string>, v: Values) returns (e: Event)
    requires Imported(before, final, thread, requests, view, skip)
    requires v in requests && (v.dedupKey.TurnEdgeKey? || v.dedupKey.BaselineKey?)
    ensures e in final && e.dedupKey == v.dedupKey && e !in before && Requested(e, requests, thread)
  {
    assert v.dedupKey in RequestKeys(requests);
    e :| e in final && e.dedupKey == v.dedupKey;
  }

  lemma ImportedBaseline(before: seq<Event>, final: seq<Event>, thread: string, requests: seq<Values>,
                         view: ThreadView, skip: set<string>)
    requires Imported(before, final, thread, requests, view, skip)
    ensures exists e :: e in Domain(final) && e.kind == BaselineImported
  {
    hide AllTurnRequests, FromTurn, Domain;
    var b := BaselineValues(thread, view.watermark);
    assert b in requests;
    var e := HoldsRequest(before, final, thread, requests, view, skip, b);
    var v :| v in requests && e == v.Record(thread, e.sequence, e.eventId, e.at);
    RequestSources(thread, view, skip);
  }

  lemma ImportedTurn(before: seq<Event>, final: seq<Event>, thread: string, requests: seq<Values>,
                     view: ThreadView, skip: set<string>, e: Event)
    requires Imported(before, final, thread, requests, view, skip) && Finished(view)
    requires skip == CompleteTurns(before)
    requires e in Domain(final) && NamesTurn(e)
    ensures TurnClosed(TurnEvents(Domain(final), e.turnId.value)) <==> Settled(before, e.turnId.value)
  {
    var t := e.turnId.value;
    if HasRecord(Domain(before), t) {
      LiveRecordsOld(before, final, thread, requests, view, skip);
      LiveTurnClosed(before, final, t);
    } else {
      assert e.InTurn(t);
      assert e !in before;
      HistoryTurnClosed(before, final, thread, requests, view, skip, e);
    }
  }

  /** A turn with live records is judged by the live records it had before the import. */
  lemma LiveTurnClosed(before: seq<Event>, final: seq<Event>, t: string)
    requires before <= final
    requires forall e | e in before :: e.source == CodexStream
    requires forall e | e in final && e.source == CodexStream && NamesTurn(e) :: e in before
    requires HasRecord(Domain(before), t)
    ensures TurnClosed(TurnEvents(Domain(final), t)) <==> LiveClosed(before, t)
  {
    hide TurnEvents, Domain;
    var mine := TurnEvents(Domain(final), t);
    TurnEventsMembers(Domain(final), t);
    var l :| l in Domain(before) && l.InTurn(t);
    assert l in mine;
    forall end ensures HasBoundary(mine, true, end) <==> exists e :: e in before && LiveBoundary(e, t, end) {
      if HasBoundary(mine, true, end) {
        var e :| e in mine && e.source == CodexStream && IsBoundary(e.kind, end);
        assert e in before && LiveBoundary(e, t, end);
      }
      if e :| e in before && LiveBoundary(e, t, end) {
        assert e in mine;
      }
    }
  }

  /** An import adds no live record to a turn. */
  lemma LiveRecordsOld(before: seq<Event>, final: seq<Event>, thread: string, requests: seq<Values>,
                       view: ThreadView, skip: set<string>)
    requires Imported(before, final, thread, requests, view, skip)
    ensures forall e | e in final && e.source == CodexStream && NamesTurn(e) :: e in before
  {
    RequestSources(thread, view, skip);
  }

  /** A turn known only from history has both its boundaries. */
  lemma HistoryTurnClosed(before: seq<Event>, final: seq<Event>, thread: string, requests: seq<Values>,
                          view: ThreadView, skip: set<string>, e: Event)
    requires Imported(before, final, thread, requests, view, skip) && Finished(view)
    requires e in Domain(final) && NamesTurn(e) && e !in before && !HasRecord(Domain(before), e.turnId.value)
    ensures TurnClosed(TurnEvents(Domain(final), e.turnId.value))
  {
    hide AllTurnRequests, TurnEvents, Domain;
    var t := e.turnId.value;
    var v :| v in requests && e == v.Record(thread, e.sequence, e.eventId, e.at);
    RequestSources(thread, view, skip);
    var i: nat :| FromTurn(v, thread, view.turns, skip, i);
    var turn := view.turns[i];
    var kind := TerminalKind(StatusOf(turn)).value;
    var s := EdgeHeld(before, final, thread, requests, view, skip, i, StartValues(thread, i, turn));
    var f := EdgeHeld(before, final, thread, requests, view, skip, i, EndValues(thread, t, kind, StatusOf(turn), turn.details));
    LiveRecordsOld(before, final, thread, requests, view, skip);
    assert kind.Terminal();
    hide Imported, Finished, TurnRequests, StartValues, EndValues, FromTurn;
    EdgesClose(before, final, t, s, f);
  }

  lemma EdgesClose(before: seq<Event>, final: seq<Event>, t: string, s: Event, f: Event)
    requires before <= final && !HasRecord(Domain(before), t)
    requires forall e | e in final && e.source == CodexStream && NamesTurn(e) :: e in before
    requires s in final && s.InTurn(t) && s.kind == TurnStarted
    requires f in final && f.InTurn(t) && f.kind.Terminal()
    ensures TurnClosed(TurnEvents(Domain(final), t))
  {
    hide TurnEvents, Domain;
    TurnEventsMembers(Domain(final), t);
    var mine := TurnEvents(Domain(final), t);
    assert s in mine && f in mine;
    forall e | e in mine ensures e.source != CodexStream {
      assert e.source == CodexStream ==> e in before;
    }
    assert !HasLive(mine);
  }

  /** A requested boundary of an imported turn is in the journal, under its turn and with its kind. */
  lemma EdgeHeld(before: seq<Event>, final: seq<Event>, thread: string, requests: seq<Values>,
                 view: ThreadView, skip: set<string>, i: nat, edge: Values) returns (e: Event)
    requires Imported(before, final, thread, requests, view, skip)
    requires i < |view.turns| && edge in TurnRequests(thread, i, view.turns[i], skip)
    requires edge.dedupKey == TurnEdgeKey(thread, TurnId(i, view.turns[i]), edge.kind)
    ensures e in final && e.InTurn(TurnId(i, view.turns[i])) && e.kind == edge.kind
  {
    AllTurnRequestsHold(thread, view.turns, skip, i, edge);
    assert edge in requests;
    e := HoldsRequest(before, final, thread, requests, view, skip, edge);
    var v :| v in requests && e == v.Record(thread, e.sequence, e.eventId, e.at);
    assert v in AllTurnRequests(thread, view.turns, skip);
    var k := AllTurnRequestsFrom(thread, view.turns, skip, v);
  }
}
