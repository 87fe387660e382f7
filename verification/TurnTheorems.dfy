/** Interleaved operations and project mutations: one holder per key, exact release, owners apart. */
module TurnTheorems {
  import opened Records
  import opened TurnManager

  /** One `_project_mutation` under way: its threads in order, how many it took, how many it gave back. */
  datatype Mutation = Mutation(threads: seq<string>, taken: nat, released: nat, leaving: bool)
  {
    predicate Valid() {
      && released <= taken <= |threads|
      && (released > 0 ==> leaving)
      && forall i, j | 0 <= i < j < |threads| :: threads[i] != threads[j]
    }
  }

  /** Mutations are named per owner. */
  datatype Name = Name(owner: Option<string>, id: nat)

  datatype World = World(holders: Holders, mutations: map<Name, Mutation>)
  {
    ghost function Of(owner: Option<string>): World {
      World(holders.Of(owner), map n | n in mutations && n.owner == owner :: mutations[n])
    }
  }

  /** Every step is one call into the manager, or an exit from a mutation's body. */
  datatype Action =
    | Start(owner: Option<string>, thread: string, isGoal: bool, model: Option<string>)
    | Mark(owner: Option<string>, thread: string, id: string, handle: Handle)
    | Finish(owner: Option<string>, thread: string, turnId: Option<string>)
    | Begin(owner: Option<string>, name: nat, threads: seq<string>)
    | Take(owner: Option<string>, name: nat)
    | Leave(owner: Option<string>, name: nat)
    | Release(owner: Option<string>, name: nat)

  /** A taking step that meets a holder starts the mutation's exit. */
  function Taken(w: World, n: Name): World
    requires n in w.mutations && w.mutations[n].taken < |w.mutations[n].threads|
  {
    var m := w.mutations[n];
    var key := Key(n.owner, m.threads[m.taken]);
    if w.holders.Free(key) then World(MutationReserved(w.holders, key), w.mutations[n := m.(taken := m.taken + 1)])
    else w.(mutations := w.mutations[n := m.(leaving := true)])
  }

  /** A releasing step gives one thread back; after the last one the mutation is gone. */
  function Released(w: World, n: Name): World
    requires n in w.mutations && w.mutations[n].released <= w.mutations[n].taken <= |w.mutations[n].threads|
  {
    var m := w.mutations[n];
    if m.released == m.taken then w.(mutations := w.mutations - {n})
    else World(MutationFinished(w.holders, Key(n.owner, m.threads[m.released])),
               w.mutations[n := m.(released := m.released + 1)])
  }

  /** An action that does not apply changes nothing. */
  function Step(w: World, a: Action): World {
    match a
    case Start(owner, thread, isGoal, model) => w.(holders := Reserved(w.holders, Key(owner, thread), NewTurn(isGoal, model)))
    case Mark(owner, thread, id, handle) => w.(holders := MarkedRunning(w.holders, Key(owner, thread), id, handle))
    case Finish(owner, thread, turnId) => w.(holders := Finished(w.holders, Key(owner, thread), turnId))
    case Begin(owner, name, threads) =>
      if Name(owner, name) in w.mutations || !Distinct(threads) then w
      else w.(mutations := w.mutations[Name(owner, name) := Mutation(threads, 0, 0, false)])
    case Take(owner, name) =>
      var n := Name(owner, name);
      if n in w.mutations && !w.mutations[n].leaving && w.mutations[n].taken < |w.mutations[n].threads| then Taken(w, n) else w
    case Leave(owner, name) =>
      var n := Name(owner, name);
      if n in w.mutations then w.(mutations := w.mutations[n := w.mutations[n].(leaving := true)]) else w
    case Release(owner, name) =>
      var n := Name(owner, name);
      if n in w.mutations && w.mutations[n].leaving && w.mutations[n].Valid() then Released(w, n) else w
  }

  function Run(w: World, actions: seq<Action>): World {
    if actions == [] then w else Step(Run(w, actions[..|actions| - 1]), actions[|actions| - 1])
  }

  // ----- at most one holder -----

  /** The keys a mutation holds now. */
  function Held(n: Name, m: Mutation): set<Key>
    requires m.Valid()
  {
    Keyed(m.threads[m.released..m.taken], n.owner)
  }

  /** Every held key has exactly one holder, an operation or one mutation. */
  ghost predicate OneHolder(w: World) {
    && w.holders.Exclusive()
    && (forall n | n in w.mutations :: w.mutations[n].Valid())
    && (forall n | n in w.mutations :: Held(n, w.mutations[n]) <= w.holders.mutating)
    && (forall k | k in w.holders.mutating :: exists n :: n in w.mutations && k in Held(n, w.mutations[n]))
    && forall m, n | m in w.mutations && n in w.mutations && m != n :: Held(m, w.mutations[m]) !! Held(n, w.mutations[n])
  }

  lemma HeldTaken(n: Name, m: Mutation)
    requires m.Valid() && m.taken < |m.threads| && m.released == 0
    ensures Held(n, m.(taken := m.taken + 1)) == Held(n, m) + {Key(n.owner, m.threads[m.taken])}
  {
  }

  lemma HeldReleased(n: Name, m: Mutation)
    requires m.Valid() && m.released < m.taken && m.leaving
    ensures m.(released := m.released + 1).Valid()
    ensures Held(n, m.(released := m.released + 1)) == Held(n, m) - {Key(n.owner, m.threads[m.released])}
    ensures Key(n.owner, m.threads[m.released]) in Held(n, m)
  {
  }

  /** The keys a mutation holds, none once it is gone. */
  function HeldIn(w: World, n: Name): set<Key> {
    if n in w.mutations && w.mutations[n].Valid() then Held(n, w.mutations[n]) else {}
  }

  /** The other mutations, every active operation, and the keys a mutation does not hold. */
  ghost predicate OthersHold(before: World, after: World, n: Name) {
    && after.holders.active == before.holders.active
    && (forall o | o in before.mutations && o != n :: o in after.mutations && after.mutations[o] == before.mutations[o])
    && after.holders.mutating - HeldIn(after, n) == before.holders.mutating - HeldIn(before, n)
  }

  /** A mutation whose held keys change only by keys nobody else holds. */
  lemma ChangeKeeps(w: World, n: Name, held: set<Key>, m: Mutation, now: set<Key>, after: World)
    requires OneHolder(w) && m.Valid() && held == HeldIn(w, n) && now == Held(n, m)
    requires after == World(w.holders.(mutating := w.holders.mutating - held + now), w.mutations[n := m])
    requires forall k | k in now && k !in held :: w.holders.Free(k)
    ensures OneHolder(after) && OthersHold(w, after, n)
  {
    assert n in w.mutations ==> held == Held(n, w.mutations[n]);
    assert HeldIn(after, n) == now;
    hide Held, HeldIn, Mutation.Valid;
    HoldersApart(w, n, held);
    OneHolderChanged(w, n, held, m, now, after);
    assert after.holders.mutating - now == w.holders.mutating - held;
  }

  lemma HoldersApart(w: World, n: Name, held: set<Key>)
    requires OneHolder(w) && (if n in w.mutations then held == Held(n, w.mutations[n]) else held == {})
    ensures forall o | o in w.mutations && o != n :: w.mutations[o].Valid() && Held(o, w.mutations[o]) !! held
  {
  }

  lemma OneHolderChanged(w: World, n: Name, held: set<Key>, m: Mutation, now: set<Key>, after: World)
    requires OneHolder(w) && m.Valid() && now == Held(n, m)
    requires if n in w.mutations then held == Held(n, w.mutations[n]) else held == {}
    requires forall o | o in w.mutations && o != n :: w.mutations[o].Valid() && Held(o, w.mutations[o]) !! held
    requires after == World(w.holders.(mutating := w.holders.mutating - held + now), w.mutations[n := m])
    requires forall k | k in now && k !in held :: w.holders.Free(k)
    ensures OneHolder(after)
  {
    hide Held, Mutation.Valid;
    forall o | o in w.mutations && o != n
      ensures Held(o, w.mutations[o]) !! now && Held(o, w.mutations[o]) <= after.holders.mutating
    {
    }
    forall k | k in after.holders.mutating ensures exists o :: o in after.mutations && k in Held(o, after.mutations[o]) {
      if k in now {
        assert k in Held(n, after.mutations[n]);
      } else {
        var o :| o in w.mutations && k in Held(o, w.mutations[o]);
        assert k in Held(o, after.mutations[o]);
      }
    }
  }

  lemma HeldInIs(w: World, n: Name)
    requires OneHolder(w) && n in w.mutations
    ensures w.mutations[n].Valid() && HeldIn(w, n) == Held(n, w.mutations[n]) && HeldIn(w, n) <= w.holders.mutating
  {
  }

  lemma TakeKeeps(w: World, n: Name)
    requires OneHolder(w) && n in w.mutations
    requires !w.mutations[n].leaving && w.mutations[n].taken < |w.mutations[n].threads|
    ensures OneHolder(Taken(w, n)) && OthersHold(w, Taken(w, n), n)
  {
    hide OneHolder, OthersHold, Held, HeldIn;
    HeldInIs(w, n);
    var m, held := w.mutations[n], HeldIn(w, n);
    var key := Key(n.owner, m.threads[m.taken]);
    if w.holders.Free(key) {
      HeldTaken(n, m);
      assert w.holders.mutating - held + (held + {key}) == w.holders.mutating + {key};
      ChangeKeeps(w, n, held, m.(taken := m.taken + 1), held + {key}, Taken(w, n));
    } else {
      LeaveKeeps(w, n);
    }
  }

  lemma LeaveKeeps(w: World, n: Name)
    requires OneHolder(w) && n in w.mutations
    ensures var after := w.(mutations := w.mutations[n := w.mutations[n].(leaving := true)]);
      OneHolder(after) && OthersHold(w, after, n)
  {
    hide OneHolder, OthersHold, HeldIn;
    HeldInIs(w, n);
    var m, held := w.mutations[n], HeldIn(w, n);
    assert Held(n, m.(leaving := true)) == held;
    assert w.holders.mutating - held + held == w.holders.mutating;
    ChangeKeeps(w, n, held, m.(leaving := true), held, w.(mutations := w.mutations[n := m.(leaving := true)]));
  }

  lemma EndKeeps(w: World, n: Name)
    requires OneHolder(w) && n in w.mutations && w.mutations[n].released == w.mutations[n].taken
    ensures var after := w.(mutations := w.mutations - {n});
      OneHolder(after) && OthersHold(w, after, n)
  {
    hide Held, HeldIn, Mutation.Valid;
    HoldsNothingAtEnd(w, n);
    var after := w.(mutations := w.mutations - {n});
    forall k | k in after.holders.mutating ensures exists o :: o in after.mutations && k in Held(o, after.mutations[o]) {
      var o :| o in w.mutations && k in Held(o, w.mutations[o]);
      assert k in Held(o, after.mutations[o]);
    }
  }

  lemma HoldsNothingAtEnd(w: World, n: Name)
    requires n in w.mutations && w.mutations[n].Valid() && w.mutations[n].released == w.mutations[n].taken
    ensures Held(n, w.mutations[n]) == {} && HeldIn(w, n) == {} && HeldIn(w.(mutations := w.mutations - {n}), n) == {}
  {
  }

  lemma ReleaseKeeps(w: World, n: Name)
    requires OneHolder(w) && n in w.mutations && w.mutations[n].leaving
    ensures OneHolder(Released(w, n)) && OthersHold(w, Released(w, n), n)
  {
    hide OneHolder, OthersHold, Held, HeldIn;
    HeldInIs(w, n);
    var m, held := w.mutations[n], HeldIn(w, n);
    if m.released == m.taken {
      EndKeeps(w, n);
    } else {
      HeldReleased(n, m);
      var key := Key(n.owner, m.threads[m.released]);
      assert w.holders.mutating - held + (held - {key}) == w.holders.mutating - {key};
      ChangeKeeps(w, n, held, m.(released := m.released + 1), held - {key}, Released(w, n));
    }
  }

  lemma BeginKeeps(w: World, n: Name, threads: seq<string>)
    requires OneHolder(w) && n !in w.mutations && Distinct(threads)
    ensures var after := w.(mutations := w.mutations[n := Mutation(threads, 0, 0, false)]);
      OneHolder(after) && OthersHold(w, after, n)
  {
    var m := Mutation(threads, 0, 0, false);
    assert Held(n, m) == {};
    hide OneHolder, OthersHold, Held;
    assert w.holders.mutating - {} + {} == w.holders.mutating;
    ChangeKeeps(w, n, {}, m, {}, w.(mutations := w.mutations[n := m]));
  }

  /** No step of a mutation, from its start to its exit, touches a key that it does not hold. */
  lemma MutationStep(w: World, a: Action)
    requires OneHolder(w) && (a.Begin? || a.Take? || a.Leave? || a.Release?)
    ensures OneHolder(Step(w, a)) && OthersHold(w, Step(w, a), Name(a.owner, a.name))
  {
    var n := Name(a.owner, a.name);
    assert OthersHold(w, w, n);
    hide OneHolder, OthersHold, Taken, Released, Distinct, Mutation.Valid;
    if n !in w.mutations {
      if a.Begin? && Distinct(a.threads) {
        BeginKeeps(w, n, a.threads);
      }
    } else if a.Take? && !w.mutations[n].leaving && w.mutations[n].taken < |w.mutations[n].threads| {
      TakeKeeps(w, n);
    } else if a.Leave? {
      LeaveKeeps(w, n);
    } else if a.Release? && w.mutations[n].leaving {
      ReleaseKeeps(w, n);
    }
  }

  lemma TurnStep(w: World, a: Action)
    requires OneHolder(w) && (a.Start? || a.Mark? || a.Finish?)
    ensures OneHolder(Step(w, a))
  {
  }

  const START := World(Holders(map[], {}, true), map[])

  /** In every interleaving, a key has at most one holder. */
  lemma {:induction false} RunKeepsOneHolder(actions: seq<Action>)
    ensures OneHolder(Run(START, actions))
  {
    if actions != [] {
      hide Step;
      RunKeepsOneHolder(actions[..|actions| - 1]);
      var w, last := Run(START, actions[..|actions| - 1]), actions[|actions| - 1];
      if last.Start? || last.Mark? || last.Finish? {
        TurnStep(w, last);
      } else {
        MutationStep(w, last);
      }
    }
  }

  // ----- what a mutation took and gave back, in any run -----

  /** The thread that a step takes for a mutation, if any. */
  function TookBy(w: World, a: Action, n: Name): seq<string> {
    if a == Take(n.owner, n.id) && n in w.mutations && !w.mutations[n].leaving
       && w.mutations[n].taken < |w.mutations[n].threads|
       && w.holders.Free(Key(n.owner, w.mutations[n].threads[w.mutations[n].taken]))
    then [w.mutations[n].threads[w.mutations[n].taken]] else []
  }

  /** The thread that a step gives back for a mutation, if any. */
  function GaveBy(w: World, a: Action, n: Name): seq<string> {
    if a == Release(n.owner, n.id) && n in w.mutations && w.mutations[n].leaving && w.mutations[n].Valid()
       && w.mutations[n].released < w.mutations[n].taken
    then [w.mutations[n].threads[w.mutations[n].released]] else []
  }

  function Took(actions: seq<Action>, n: Name): seq<string> {
    if actions == [] then []
    else
      var k := |actions| - 1;
      Took(actions[..k], n) + TookBy(Run(START, actions[..k]), actions[k], n)
  }

  function Gave(actions: seq<Action>, n: Name): seq<string> {
    if actions == [] then []
    else
      var k := |actions| - 1;
      Gave(actions[..k], n) + GaveBy(Run(START, actions[..k]), actions[k], n)
  }

  /** The threads a mutation took and has not given back, in order. */
  function Holding(w: World, n: Name): seq<string> {
    if n in w.mutations && w.mutations[n].released <= w.mutations[n].taken <= |w.mutations[n].threads|
    then w.mutations[n].threads[w.mutations[n].released..w.mutations[n].taken] else []
  }

  lemma HoldingTake(w: World, n: Name)
    requires n in w.mutations && w.mutations[n].Valid()
    ensures var a := Take(n.owner, n.id);
      Holding(w, n) + TookBy(w, a, n) == GaveBy(w, a, n) + Holding(Step(w, a), n)
  {
    HoldingSlices(w.mutations[n]);
  }

  lemma HoldingRelease(w: World, n: Name)
    requires n in w.mutations && w.mutations[n].Valid()
    ensures var a := Release(n.owner, n.id);
      Holding(w, n) + TookBy(w, a, n) == GaveBy(w, a, n) + Holding(Step(w, a), n)
  {
    var m := w.mutations[n];
    HoldingSlices(m);
    if m.leaving && m.released == m.taken {
      assert m.threads[m.released..m.taken] == [];
    }
  }

  lemma HoldingOther(w: World, a: Action, n: Name)
    requires a != Take(n.owner, n.id) && a != Release(n.owner, n.id)
    ensures TookBy(w, a, n) == [] && GaveBy(w, a, n) == [] && Holding(w, n) == Holding(Step(w, a), n)
  {
  }

  lemma HoldingStep(w: World, a: Action, n: Name)
    requires forall m | m in w.mutations :: w.mutations[m].Valid()
    ensures Holding(w, n) + TookBy(w, a, n) == GaveBy(w, a, n) + Holding(Step(w, a), n)
  {
    hide Step, Holding, TookBy, GaveBy, Mutation.Valid;
    if a != Take(n.owner, n.id) && a != Release(n.owner, n.id) {
      HoldingOther(w, a, n);
    } else if n !in w.mutations {
      HoldingNone(w, a, n);
    } else if a == Take(n.owner, n.id) {
      HoldingTake(w, n);
    } else {
      HoldingRelease(w, n);
    }
  }

  lemma HoldingNone(w: World, a: Action, n: Name)
    requires n !in w.mutations && !a.Begin?
    ensures TookBy(w, a, n) == [] && GaveBy(w, a, n) == [] && Holding(w, n) == [] == Holding(Step(w, a), n)
  {
  }

  lemma HoldingSlices(m: Mutation)
    requires m.Valid()
    ensures m.taken < |m.threads| ==> m.threads[m.released..m.taken + 1] == m.threads[m.released..m.taken] + [m.threads[m.taken]]
    ensures m.released < m.taken ==> m.threads[m.released..m.taken] == [m.threads[m.released]] + m.threads[m.released + 1..m.taken]
  {
  }

  /** In every run, what a mutation took is what it gave back and then what it still holds, in the same order. */
  lemma {:induction false} TakenIsGivenBack(actions: seq<Action>, n: Name)
    ensures Took(actions, n) == Gave(actions, n) + Holding(Run(START, actions), n)
  {
    hide Step, TookBy, GaveBy, Holding, Mutation.Valid;
    if actions == [] {
      HoldsNothing(n);
    } else {
      var k := |actions| - 1;
      var w := Run(START, actions[..k]);
      TakenIsGivenBack(actions[..k], n);
      ValidMutations(actions[..k]);
      HoldingStep(w, actions[k], n);
      assert Gave(actions[..k], n) + Holding(w, n) + TookBy(w, actions[k], n)
          == Gave(actions[..k], n) + (Holding(w, n) + TookBy(w, actions[k], n));
    }
  }

  lemma HoldsNothing(n: Name)
    ensures Holding(Run(START, []), n) == []
  {
  }

  lemma ValidMutations(actions: seq<Action>)
    ensures forall m | m in Run(START, actions).mutations :: Run(START, actions).mutations[m].Valid()
  {
    hide Run, Held, Mutation.Valid;
    RunKeepsOneHolder(actions);
  }

  /** However its steps are interleaved and wherever a conflict stops it, a mutation that is gone has given back, in order,
      exactly the keys it took, and no key of its is left behind: every key still held belongs to another mutation. */
  lemma GoneHasReleasedExactly(actions: seq<Action>, n: Name)
    requires n !in Run(START, actions).mutations
    ensures Gave(actions, n) == Took(actions, n)
    ensures forall k | k in Run(START, actions).holders.mutating ::
      exists o :: o in Run(START, actions).mutations && o != n && Run(START, actions).mutations[o].Valid()
                  && k in Held(o, Run(START, actions).mutations[o])
  {
    hide Run, Step, Held, Took, Gave, Mutation.Valid;
    TakenIsGivenBack(actions, n);
    RunKeepsOneHolder(actions);
    var w := Run(START, actions);
    forall k | k in w.holders.mutating
      ensures exists o :: o in w.mutations && o != n && w.mutations[o].Valid() && k in Held(o, w.mutations[o])
    {
      var o :| o in w.mutations && k in Held(o, w.mutations[o]);
    }
  }

  // ----- owners -----

  function ByOwner(actions: seq<Action>, owner: Option<string>): seq<Action> {
    if actions == [] then []
    else
      var last := actions[|actions| - 1];
      ByOwner(actions[..|actions| - 1], owner) + if last.owner == owner then [last] else []
  }

  lemma OwnReserved(h: Holders, key: Key, turn: Turn)
    ensures Reserved(h, key, turn).Of(key.owner) == Reserved(h.Of(key.owner), key, turn)
  {
  }

  lemma OwnMarked(h: Holders, key: Key, id: string, handle: Handle)
    ensures MarkedRunning(h, key, id, handle).Of(key.owner) == MarkedRunning(h.Of(key.owner), key, id, handle)
  {
  }

  lemma OwnFinished(h: Holders, key: Key, late: Option<string>)
    ensures Finished(h, key, late).Of(key.owner) == Finished(h.Of(key.owner), key, late)
  {
  }

  lemma OwnMutationStep(h: Holders, key: Key)
    ensures MutationReserved(h, key).Of(key.owner) == MutationReserved(h.Of(key.owner), key)
    ensures MutationFinished(h, key).Of(key.owner) == MutationFinished(h.Of(key.owner), key)
    ensures h.Of(key.owner).Free(key) == h.Free(key)
  {
  }

  lemma OwnStep(w: World, a: Action)
    ensures Step(w, a).Of(a.owner) == Step(w.Of(a.owner), a)
  {
    hide Reserved, MarkedRunning, Finished, MutationReserved, MutationFinished, Holders.Of;
    if a.Start? {
      OwnReserved(w.holders, Key(a.owner, a.thread), NewTurn(a.isGoal, a.model));
    } else if a.Mark? {
      OwnMarked(w.holders, Key(a.owner, a.thread), a.id, a.handle);
    } else if a.Finish? {
      OwnFinished(w.holders, Key(a.owner, a.thread), a.turnId);
    } else {
      var n := Name(a.owner, a.name);
      if n in w.mutations {
        var m := w.mutations[n];
        if a.Take? && m.taken < |m.threads| {
          OwnMutationStep(w.holders, Key(a.owner, m.threads[m.taken]));
        }
        if a.Release? && m.released < |m.threads| {
          OwnMutationStep(w.holders, Key(a.owner, m.threads[m.released]));
        }
      }
      assert Step(w, a).Of(a.owner).mutations == Step(w.Of(a.owner), a).mutations;
    }
  }

  /** A change to one owner's keys is not seen by another. */
  lemma OtherOwner(before: Holders, after: Holders, key: Key, owner: Option<string>)
    requires key.owner != owner && after.accepting == before.accepting
    requires after.active - {key} == before.active - {key} && after.mutating - {key} == before.mutating - {key}
    ensures after.Of(owner) == before.Of(owner)
  {
    forall k | k != key
      ensures (k in after.active <==> k in before.active) && (k in after.active ==> after.active[k] == before.active[k])
    {
      assert k in after.active <==> k in after.active - {key};
      assert k in before.active <==> k in before.active - {key};
      assert k in after.active ==> (after.active - {key})[k] == after.active[k];
      assert k in before.active ==> (before.active - {key})[k] == before.active[k];
    }
    forall k | k != key ensures k in after.mutating <==> k in before.mutating {
      assert k in after.mutating <==> k in after.mutating - {key};
      assert k in before.mutating <==> k in before.mutating - {key};
    }
    assert after.Of(owner).active == before.Of(owner).active;
    assert after.Of(owner).mutating == before.Of(owner).mutating;
  }

  /** The key that an action may change. */
  function KeyOf(w: World, a: Action): Key {
    if a.Start? || a.Mark? || a.Finish? then Key(a.owner, a.thread)
    else
      var n := Name(a.owner, a.name);
      if n !in w.mutations then Key(a.owner, "")
      else
        var m := w.mutations[n];
        Key(a.owner, if a.Take? && m.taken < |m.threads| then m.threads[m.taken]
                     else if a.Release? && m.released < |m.threads| then m.threads[m.released] else "")
  }

  lemma OneKey(w: World, a: Action)
    ensures var before, after, key := w.holders, Step(w, a).holders, KeyOf(w, a);
      && after.accepting == before.accepting
      && after.active - {key} == before.active - {key} && after.mutating - {key} == before.mutating - {key}
  {
  }

  lemma OtherStep(w: World, a: Action, owner: Option<string>)
    requires a.owner != owner
    ensures Step(w, a).Of(owner) == w.Of(owner)
  {
    OneKey(w, a);
    hide Holders.Of;
    OtherOwner(w.holders, Step(w, a).holders, KeyOf(w, a), owner);
    hide Taken, Released, MutationReserved, MutationFinished, Reserved, Finished, MarkedRunning;
    OtherMutations(w, a, owner);
  }

  lemma OtherMutations(w: World, a: Action, owner: Option<string>)
    requires a.owner != owner
    ensures Step(w, a).Of(owner).mutations == w.Of(owner).mutations
  {
    hide Holders.Of, MutationReserved, MutationFinished, Reserved, Finished, MarkedRunning;
  }

  /** What an owner sees after any interleaving is what its own actions alone give. */
  lemma {:induction false} OwnersApart(actions: seq<Action>, owner: Option<string>)
    ensures Run(START, actions).Of(owner) == Run(START, ByOwner(actions, owner)).Of(owner)
  {
    if actions != [] {
      hide Step;
      var n := |actions| - 1;
      var front, last := actions[..n], actions[n];
      OwnersApart(front, owner);
      var w, own := Run(START, front), Run(START, ByOwner(front, owner));
      if last.owner == owner {
        OwnStep(w, last);
        OwnStep(own, last);
        assert (ByOwner(front, owner) + [last])[..|ByOwner(front, owner)|] == ByOwner(front, owner);
      } else {
        OtherStep(w, last, owner);
        assert ByOwner(actions, owner) == ByOwner(front, owner);
      }
    }
  }

  // ----- handles -----

  lemma StepKeepsTurn(w: World, a: Action, key: Key)
    requires key in w.holders.active && !((a.Finish? || a.Mark?) && Key(a.owner, a.thread) == key)
    ensures key in Step(w, a).holders.active && Step(w, a).holders.active[key] == w.holders.active[key]
  {
  }

  /** Once an operation is marked running, its handle stays for the shutdown to interrupt until it is finished or marked again. */
  lemma {:induction false} HandleStays(w: World, owner: Option<string>, thread: string, id: string, handle: Handle, actions: seq<Action>)
    requires Key(owner, thread) in w.holders.active
    requires forall a | a in actions :: !((a.Finish? || a.Mark?) && a.owner == owner && a.thread == thread)
    ensures var key, after := Key(owner, thread), Run(Step(w, Mark(owner, thread, id, handle)), actions);
      && key in after.holders.active && after.holders.active[key].handle == Some(handle)
      && after.holders.active[key].turnId == Some(id) && after.holders.active[key].status == Running
  {
    if actions != [] {
      hide Step;
      var n := |actions| - 1;
      assert actions == actions[..n] + [actions[n]];
      HandleStays(w, owner, thread, id, handle, actions[..n]);
      StepKeepsTurn(Run(Step(w, Mark(owner, thread, id, handle)), actions[..n]), actions[n], Key(owner, thread));
    } else {
      MarkKeeps(w, owner, thread, id, handle);
    }
  }

  lemma MarkKeeps(w: World, owner: Option<string>, thread: string, id: string, handle: Handle)
    requires Key(owner, thread) in w.holders.active
    ensures var key, marked := Key(owner, thread), Step(w, Mark(owner, thread, id, handle));
      && Run(marked, []) == marked && key in marked.holders.active && marked.holders.active[key].handle == Some(handle)
      && marked.holders.active[key].turnId == Some(id) && marked.holders.active[key].status == Running
  {
  }

  // ----- which finishes spare an operation -----

  /** A late finish that names an earlier turn spares the present operation exactly when that is known by an id of its own. */
  lemma LateFinishSpares(h: Holders, key: Key, late: string)
    requires key in h.active && h.active[key].turnId != Some(late)
    ensures Finished(h, key, Some(late)) == h <==> h.active[key].turnId.Some?
  {
  }

  /** A reservation that is still starting is lost to the finish of the turn before it. */
  lemma StartingReservationLost(owner: Option<string>, thread: string)
    ensures var key := Key(owner, thread);
      var begun := [Start(owner, thread, false, None), Mark(owner, thread, "first", 0), Finish(owner, thread, None),
                    Start(owner, thread, false, None)];
      && key in Run(START, begun).holders.active
      && key !in Run(START, begun + [Finish(owner, thread, Some("first"))]).holders.active
  {
    var key := Key(owner, thread);
    var a, b, c := Start(owner, thread, false, None), Mark(owner, thread, "first", 0), Finish(owner, thread, None);
    var w1 := Step(START, a);
    var w3 := Step(Step(w1, b), c);
    assert w3.holders.active == map[];
    var w4 := Step(w3, a);
    RunFour(START, a, b, c, a);
    var begun := [a, b, c, a];
    var late := Finish(owner, thread, Some("first"));
    assert (begun + [late])[..4] == begun;
  }

  lemma RunFour(w: World, a: Action, b: Action, c: Action, d: Action)
    ensures Run(w, [a, b, c, d]) == Step(Step(Step(Step(w, a), b), c), d)
  {
    assert [a, b, c, d][..3] == [a, b, c];
    assert [a, b, c][..2] == [a, b];
    assert [a, b][..1] == [a];
    hide Step;
    assert Run(w, []) == w;
    assert Run(w, [a]) == Step(w, a);
    assert Run(w, [a, b]) == Step(Step(w, a), b);
    assert Run(w, [a, b, c]) == Step(Step(Step(w, a), b), c);
  }
}
