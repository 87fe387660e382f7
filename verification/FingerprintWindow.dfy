/** The window that drops the second channel's copy of a notification. */
module FingerprintWindow {
  import opened Records

  datatype Seen = Seen(channel: string, at: real)

  type Window = map<string, Seen>

  /** A notification with a fingerprint, the channel it came on, and the clock. */
  datatype Arrival = Arrival(fingerprint: string, channel: string, now: real)

  const COPY_SECONDS := 5.0
  const KEEP_SECONDS := 10.0
  const MAX_FINGERPRINTS := 2000

  predicate Admits(window: Window, a: Arrival) {
    a.fingerprint in window ==>
      window[a.fingerprint].channel == a.channel || a.now - window[a.fingerprint].at > COPY_SECONDS
  }

  function Noted(window: Window, a: Arrival): Window {
    window[a.fingerprint := Seen(a.channel, a.now)]
  }

  function Pruned(window: Window, now: real): Window {
    map f | f in window && window[f].at >= now - KEEP_SECONDS :: window[f]
  }

  function Bounded(window: Window, now: real): Window {
    if |window| > MAX_FINGERPRINTS then Pruned(window, now) else window
  }

  /** The window with one arrival noted; among more than two thousand entries, those older than ten seconds are gone. */
  predicate Notes(before: Window, fingerprint: string, channel: string, now: real, after: Window) {
    && fingerprint in after && after[fingerprint] == Seen(channel, now)
    && (forall f | f in after && f != fingerprint :: f in before && after[f] == before[f])
    && forall f | f in before && f != fingerprint ::
         f !in after <==> |before[fingerprint := Seen(channel, now)]| > 2000 && before[f].at < now - 10.0
  }

  lemma NotedSays(window: Window, a: Arrival)
    ensures Notes(window, a.fingerprint, a.channel, a.now, Bounded(Noted(window, a), a.now))
  {
  }

  // ----- the source's steps -----

  class RecentFingerprints {
    var recent: Window

    constructor ()
      ensures recent == map[]
    {
      recent := map[];
    }

    method Admit(fingerprint: string, channel: string, now: real) returns (admitted: bool)
      modifies this
      ensures !admitted <==>
        && fingerprint in old(recent) && old(recent)[fingerprint].channel != channel
        && now - old(recent)[fingerprint].at <= 5.0
      ensures !admitted ==> recent == old(recent)
      ensures admitted ==> Notes(old(recent), fingerprint, channel, now, recent)
      ensures admitted == Admits(old(recent), Arrival(fingerprint, channel, now))
      ensures recent == AfterOne(old(recent), Arrival(fingerprint, channel, now), true)
    {
      hide Notes;
      NotedSays(recent, Arrival(fingerprint, channel, now));
      if fingerprint in recent {
        var previous := recent[fingerprint];
        if previous.channel != channel && now - previous.at <= 5.0 {
          return false;
        }
      }
      recent := recent[fingerprint := Seen(channel, now)];
      if |recent| > 2000 {
        var cutoff := now - 10.0;
        recent := map f | f in recent && recent[f].at >= cutoff :: recent[f];
      }
      return true;
    }
  }

  // ----- runs -----

  /** The window after one arrival; `prune` false gives the unbounded map. */
  function AfterOne(window: Window, a: Arrival, prune: bool): Window {
    if !Admits(window, a) then window
    else if prune then Bounded(Noted(window, a), a.now) else Noted(window, a)
  }

  function WindowAfter(arrivals: seq<Arrival>, prune: bool): Window {
    if arrivals == [] then map[]
    else AfterOne(WindowAfter(arrivals[..|arrivals| - 1], prune), arrivals[|arrivals| - 1], prune)
  }

  predicate AdmittedAt(arrivals: seq<Arrival>, i: nat, prune: bool)
    requires i < |arrivals|
  {
    Admits(WindowAfter(arrivals[..i], prune), arrivals[i])
  }

  ghost predicate Monotonic(arrivals: seq<Arrival>) {
    forall i, j | 0 <= i < j < |arrivals| :: arrivals[i].now <= arrivals[j].now
  }

  // ----- pruning never shows -----

  /** The pruned map is the unbounded one without some entries too old to matter at `now` or later. */
  ghost predicate OnlyOldMissing(pruned: Window, whole: Window, now: real) {
    && (forall f | f in pruned :: f in whole && pruned[f] == whole[f])
    && (forall f | f in whole && f !in pruned :: whole[f].at < now - KEEP_SECONDS)
  }

  lemma {:induction false} PruneKeepsRecent(arrivals: seq<Arrival>, now: real)
    requires Monotonic(arrivals) && forall i | 0 <= i < |arrivals| :: arrivals[i].now <= now
    ensures OnlyOldMissing(WindowAfter(arrivals, true), WindowAfter(arrivals, false), now)
    ensures forall a: Arrival | a.now == now :: Admits(WindowAfter(arrivals, true), a) == Admits(WindowAfter(arrivals, false), a)
    decreases |arrivals|
  {
    if arrivals != [] {
      var n := |arrivals| - 1;
      var last := arrivals[n];
      PruneKeepsRecent(arrivals[..n], last.now);
      var pruned, whole := WindowAfter(arrivals[..n], true), WindowAfter(arrivals[..n], false);
      assert Admits(pruned, last) == Admits(whole, last);
    }
  }

  /** With a clock that never goes back, the pruned map admits exactly what an unbounded map would. */
  lemma PruningChangesNoDecision(arrivals: seq<Arrival>, i: nat)
    requires Monotonic(arrivals) && i < |arrivals|
    ensures AdmittedAt(arrivals, i, true) == AdmittedAt(arrivals, i, false)
  {
    PruneKeepsRecent(arrivals[..i], arrivals[i].now);
  }

  // ----- one channel gets through -----

  /** When `channel` last carried `fingerprint`. */
  function LastOn(arrivals: seq<Arrival>, fingerprint: string, channel: string): Option<real> {
    if arrivals == [] then None
    else
      var last := arrivals[|arrivals| - 1];
      if last.fingerprint == fingerprint && last.channel == channel then Some(last.now)
      else LastOn(arrivals[..|arrivals| - 1], fingerprint, channel)
  }

  /** Exactly the copies on `channel` get through. */
  ghost predicate OnlyChannel(arrivals: seq<Arrival>, fingerprint: string, channel: string, prune: bool) {
    forall i | 0 <= i < |arrivals| && arrivals[i].fingerprint == fingerprint ::
      AdmittedAt(arrivals, i, prune) <==> arrivals[i].channel == channel
  }

  /** Every copy on another channel comes within five seconds of the last one on `channel`. */
  ghost predicate CopiesClose(arrivals: seq<Arrival>, fingerprint: string, channel: string) {
    forall i | 0 <= i < |arrivals| && arrivals[i].fingerprint == fingerprint && arrivals[i].channel != channel ::
      CloseAt(arrivals, i, fingerprint, channel)
  }

  predicate CloseAt(arrivals: seq<Arrival>, i: nat, fingerprint: string, channel: string)
    requires i < |arrivals|
  {
    var last := LastOn(arrivals[..i], fingerprint, channel);
    last.Some? && arrivals[i].now - last.value <= 5.0
  }

  lemma OnlyChannelSnoc(arrivals: seq<Arrival>, fingerprint: string, channel: string)
    requires arrivals != []
    ensures var n := |arrivals| - 1;
      OnlyChannel(arrivals, fingerprint, channel, false) <==>
        OnlyChannel(arrivals[..n], fingerprint, channel, false)
        && (arrivals[n].fingerprint == fingerprint ==> (AdmittedAt(arrivals, n, false) <==> arrivals[n].channel == channel))
  {
    var n := |arrivals| - 1;
    assert forall i | 0 <= i < n :: arrivals[..n][..i] == arrivals[..i];
    hide WindowAfter, Admits;
    forall i | 0 <= i < n ensures AdmittedAt(arrivals[..n], i, false) == AdmittedAt(arrivals, i, false) {
    }
  }

  lemma CopiesCloseSnoc(arrivals: seq<Arrival>, fingerprint: string, channel: string)
    requires arrivals != []
    ensures var n := |arrivals| - 1;
      CopiesClose(arrivals, fingerprint, channel) <==>
        CopiesClose(arrivals[..n], fingerprint, channel)
        && (arrivals[n].fingerprint == fingerprint && arrivals[n].channel != channel ==> CloseAt(arrivals, n, fingerprint, channel))
  {
    var n := |arrivals| - 1;
    assert forall i | 0 <= i < n :: arrivals[..n][..i] == arrivals[..i];
    hide LastOn;
    forall i | 0 <= i < n
      ensures CloseAt(arrivals[..n], i, fingerprint, channel) == CloseAt(arrivals, i, fingerprint, channel)
    {
    }
  }

  lemma {:induction false} OnlyChannelWindow(arrivals: seq<Arrival>, fingerprint: string, channel: string)
    ensures OnlyChannel(arrivals, fingerprint, channel, false) <==> CopiesClose(arrivals, fingerprint, channel)
    ensures OnlyChannel(arrivals, fingerprint, channel, false) ==>
      var last, window := LastOn(arrivals, fingerprint, channel), WindowAfter(arrivals, false);
      && (last.None? <==> fingerprint !in window)
      && (last.Some? ==> window[fingerprint] == Seen(channel, last.value))
    decreases |arrivals|
  {
    if arrivals != [] {
      hide OnlyChannel, CopiesClose;
      OnlyChannelWindow(arrivals[..|arrivals| - 1], fingerprint, channel);
      OnlyChannelSnoc(arrivals, fingerprint, channel);
      CopiesCloseSnoc(arrivals, fingerprint, channel);
    }
  }

  /** Exactly one channel's copies get through if and only if every other copy closely follows one of them. */
  lemma OneChannelGetsThrough(arrivals: seq<Arrival>, fingerprint: string, channel: string)
    requires Monotonic(arrivals)
    ensures OnlyChannel(arrivals, fingerprint, channel, true) <==> CopiesClose(arrivals, fingerprint, channel)
  {
    OnlyChannelWindow(arrivals, fingerprint, channel);
    forall i | 0 <= i < |arrivals| ensures AdmittedAt(arrivals, i, true) == AdmittedAt(arrivals, i, false) {
      PruningChangesNoDecision(arrivals, i);
    }
  }
}
