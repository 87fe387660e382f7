/** One holder per thread key: `TurnManager`'s reservations and the state they stand for. */
module TurnManager {
  import opened Records

  /** A thread as one owner sees it. */
  datatype Key = Key(owner: Option<string>, thread: string)

  datatype Status = Starting | Running | Stopping

  /** SDK handles and tasks by number. */
  type Handle = nat

  /** What a reservation says about an active operation. */
  datatype Turn = Turn(
    isGoal: bool, model: Option<string>, status: Status, turnId: Option<string>, handle: Option<Handle>, task: Option<nat>)

  /** The manager's state as a value. */
  datatype Holders = Holders(active: map<Key, Turn>, mutating: set<Key>, accepting: bool)
  {
    /** No key is held by an operation and a mutation at once. */
    ghost predicate Exclusive() {
      active.Keys !! mutating
    }

    predicate Free(key: Key) {
      key !in active && key !in mutating
    }

    /** What one owner can see. */
    ghost function Of(owner: Option<string>): Holders {
      Holders((map k | k in active && k.owner == owner :: active[k]), (set k | k in mutating && k.owner == owner), accepting)
    }
  }

  datatype Refusal = Conflict | Unavailable | NotActive

  // ----- the operations on values -----

  function NewTurn(isGoal: bool, model: Option<string>): Turn {
    Turn(isGoal, model, Starting, None, None, None)
  }

  function Reserved(h: Holders, key: Key, turn: Turn): Holders {
    if h.accepting && h.Free(key) then h.(active := h.active[key := turn]) else h
  }

  function MutationReserved(h: Holders, key: Key): Holders {
    if h.Free(key) then h.(mutating := h.mutating + {key}) else h
  }

  function MutationFinished(h: Holders, key: Key): Holders {
    h.(mutating := h.mutating - {key})
  }

  function MarkedRunning(h: Holders, key: Key, id: string, handle: Handle): Holders {
    if key !in h.active then h
    else h.(active := h.active[key := h.active[key].(status := Running, turnId := Some(id), handle := Some(handle))])
  }

  /** A finish that names a turn spares an operation already known by another id. */
  predicate Finishes(h: Holders, key: Key, id: Option<string>) {
    key in h.active && (id.None? || h.active[key].turnId.None? || h.active[key].turnId == id)
  }

  function Finished(h: Holders, key: Key, id: Option<string>): Holders {
    if Finishes(h, key, id) then h.(active := h.active - {key}) else h
  }

  // ----- the class -----

  class ActiveTurn {
    const isGoal: bool
    const model: Option<string>
    var status: Status
    var turnId: Option<string>
    var handle: Option<Handle>
    var task: Option<nat>

    constructor (isGoal: bool, model: Option<string>)
      ensures status == Starting && this.isGoal == isGoal && this.model == model && turnId == None && handle == None && task == None
    {
      this.isGoal, this.model := isGoal, model;
      status, turnId, handle, task := Starting, None, None, None;
    }

    ghost function View(): Turn
      reads this
    {
      Turn(isGoal, model, status, turnId, handle, task)
    }
  }

  class TurnManager {
    var active: map<Key, ActiveTurn>
    var mutating: set<Key>
    var accepting: bool

    /** Every key has its own operation object, and no key has two holders. */
    ghost predicate Valid()
      reads this, active.Values
    {
      && (forall j, k | j in active && k in active && j != k :: active[j] != active[k])
      && State().Exclusive()
    }

    ghost function State(): Holders
      reads this, active.Values
    {
      Holders((map k | k in active :: active[k].View()), mutating, accepting)
    }

    constructor ()
      ensures Valid() && State() == Holders(map[], {}, true)
    {
      active, mutating, accepting := map[], {}, true;
    }

    method Reserve(thread: string, isGoal: bool, model: Option<string>, owner: Option<string>)
      returns (turn: Option<ActiveTurn>, refusal: Option<Refusal>)
      requires Valid()
      modifies this`active
      ensures Valid() && State() == Reserved(old(State()), Key(owner, thread), NewTurn(isGoal, model))
      ensures refusal == if !old(accepting) then Some(Unavailable)
                         else if old(State()).Free(Key(owner, thread)) then None else Some(Conflict)
      ensures turn.Some? <==> refusal.None?
      ensures turn.Some? <==> old(accepting) && Key(owner, thread) !in old(active) && Key(owner, thread) !in mutating
      ensures turn.Some? ==> fresh(turn.value) && active == old(active)[Key(owner, thread) := turn.value]
      ensures turn.Some? ==>
        && turn.value.status == Starting && turn.value.isGoal == isGoal && turn.value.model == model
        && turn.value.turnId == None && turn.value.handle == None && turn.value.task == None
      ensures turn.None? ==> active == old(active)
    {
      var key := Key(owner, thread);
      if !accepting {
        return None, Some(Unavailable);
      }
      if key in active || key in mutating {
        return None, Some(Conflict);
      }
      var made := new ActiveTurn(isGoal, model);
      assert forall k | k in active :: active[k].View() == old(active[k].View());
      active := active[key := made];
      assert State().active == old(State()).active[key := NewTurn(isGoal, model)];
      return Some(made), None;
    }

    method ReserveMutation(thread: string, owner: Option<string>) returns (refusal: Option<Refusal>)
      requires Valid()
      modifies this`mutating
      ensures Valid() && State() == MutationReserved(old(State()), Key(owner, thread))
      ensures refusal == if Key(owner, thread) in active || Key(owner, thread) in old(mutating) then Some(Conflict) else None
      ensures mutating == old(mutating) + {Key(owner, thread)} || (refusal.Some? && mutating == old(mutating))
    {
      var key := Key(owner, thread);
      if key in active || key in mutating {
        return Some(Conflict);
      }
      mutating := mutating + {key};
      return None;
    }

    method FinishMutation(thread: string, owner: Option<string>)
      requires Valid()
      modifies this`mutating
      ensures Valid() && State() == MutationFinished(old(State()), Key(owner, thread))
      ensures mutating == old(mutating) - {Key(owner, thread)}
    {
      mutating := mutating - {Key(owner, thread)};
    }

    method MarkRunning(thread: string, id: string, handle: Handle, owner: Option<string>) returns (refusal: Option<Refusal>)
      requires Valid()
      modifies active.Values
      ensures Valid() && State() == MarkedRunning(old(State()), Key(owner, thread), id, handle)
      ensures refusal == if Key(owner, thread) in active then None else Some(NotActive)
      ensures refusal.None? ==> var turn := active[Key(owner, thread)];
        turn.status == Running && turn.turnId == Some(id) && turn.handle == Some(handle) && turn.task == old(turn.task)
      ensures forall k | k in active && k != Key(owner, thread) :: active[k].View() == old(active[k].View())
    {
      var key := Key(owner, thread);
      if key !in active {
        return Some(NotActive);
      }
      var turn := active[key];
      turn.status := Running;
      turn.turnId := Some(id);
      turn.handle := Some(handle);
      return None;
    }

    method Finish(thread: string, id: Option<string>, owner: Option<string>)
      requires Valid()
      modifies this`active
      ensures Valid() && State() == Finished(old(State()), Key(owner, thread), id)
      ensures active == old(active) - {Key(owner, thread)} || active == old(active)
      ensures var key := Key(owner, thread);
        key in active <==>
          key in old(active) && id.Some? && old(active)[key].turnId.Some? && old(active)[key].turnId != id
    {
      var key := Key(owner, thread);
      if key !in active {
        return;
      }
      var turn := active[key];
      if id.Some? && turn.turnId.Some? && turn.turnId != id {
        return;
      }
      active := active - {key};
    }

    /** The first half of a shutdown: no new operations, and the handles to interrupt. */
    method StopAccepting() returns (interrupts: set<Handle>)
      requires Valid()
      modifies this`accepting
      ensures Valid() && State() == old(State()).(accepting := false) && !accepting
      ensures forall h :: h in interrupts <==> exists k :: k in active && active[k].handle == Some(h)
    {
      accepting := false;
      interrupts := set k | k in active && active[k].handle.Some? :: active[k].handle.value;
    }

    /** Its last step, once the interrupts and tasks are done or timed out. */
    method Clear()
      requires Valid()
      modifies this`active, this`mutating
      ensures Valid() && State() == Holders(map[], {}, old(accepting))
    {
      active, mutating := map[], {};
    }

    method Enable()
      requires Valid()
      modifies this`accepting
      ensures Valid() && State() == old(State()).(accepting := true)
    {
      accepting := true;
    }

    /** `_project_mutation` with nothing interleaved: its threads are taken in order, and on every exit given back. */
    method ProjectMutation(threads: seq<string>, busy: set<string>, owner: Option<string>) returns (entered: bool)
      requires Valid()
      requires forall i, j | 0 <= i < j < |threads| :: threads[i] != threads[j]
      modifies this`mutating
      ensures Valid() && State() == old(State())
      ensures entered <==> forall t | t in threads :: t !in busy && State().Free(Key(owner, t))
    {
      var reserved := TakeAll(threads, busy, owner);
      entered := |reserved| == |threads|;
      label Taken:
      ghost var taken := Keyed(reserved, owner);
      for i := 0 to |reserved|
        invariant Valid() && State() == old@Taken(State()).(mutating := old@Taken(mutating) - Keyed(reserved[..i], owner))
      {
        hide Valid;
        FinishMutation(reserved[i], owner);
        KeyedSnoc(reserved, i, owner);
      }
      assert reserved[..|reserved|] == reserved;
      assert mutating == old(mutating);
    }

    method TakeAll(threads: seq<string>, busy: set<string>, owner: Option<string>) returns (reserved: seq<string>)
      requires Valid()
      requires forall i, j | 0 <= i < j < |threads| :: threads[i] != threads[j]
      modifies this`mutating
      ensures Valid() && reserved <= threads && Keyed(reserved, owner) !! old(mutating)
      ensures State() == old(State()).(mutating := old(mutating) + Keyed(reserved, owner))
      ensures forall t | t in reserved :: t !in busy && old(State()).Free(Key(owner, t))
      ensures |reserved| < |threads| ==>
        threads[|reserved|] in busy || !old(State()).Free(Key(owner, threads[|reserved|]))
    {
      reserved := [];
      while |reserved| < |threads|
        invariant Valid() && reserved <= threads && Keyed(reserved, owner) !! old(mutating)
        invariant State() == old(State()).(mutating := old(mutating) + Keyed(reserved, owner))
        invariant forall t | t in reserved :: t !in busy && old(State()).Free(Key(owner, t))
      {
        hide Valid;
        var i := |reserved|;
        KeyedSnoc(threads, i, owner);
        NotYetKeyed(threads, i, owner);
        if threads[i] in busy {
          return;
        }
        var refusal := ReserveMutation(threads[i], owner);
        if refusal.Some? {
          return;
        }
        reserved := reserved + [threads[i]];
        assert reserved == threads[..i + 1];
      }
    }
  }

  function Keyed(threads: seq<string>, owner: Option<string>): set<Key> {
    set t | t in threads :: Key(owner, t)
  }

  lemma KeyedSnoc(threads: seq<string>, i: nat, owner: Option<string>)
    requires i < |threads|
    ensures Keyed(threads[..i + 1], owner) == Keyed(threads[..i], owner) + {Key(owner, threads[i])}
  {
  }

  lemma NotYetKeyed(threads: seq<string>, i: nat, owner: Option<string>)
    requires i < |threads| && forall a, b | 0 <= a < b < |threads| :: threads[a] != threads[b]
    ensures Key(owner, threads[i]) !in Keyed(threads[..i], owner)
  {
  }
}
