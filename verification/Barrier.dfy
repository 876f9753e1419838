/** Consistent snapshots under concurrent writers (engine/persist.go: serializeBarrier), as
    an interleaving of atomic steps over one store with one write lock. */
module Barrier {
  import opened Options
  import opened PgTypes

  datatype Owner = Writer(session: nat) | Snapshot(call: nat)

  /** Where a call of serializeBarrier stands.  The numbers are positions in the history:
      the call was made at `called`, the blob was taken at `taken`, and given back at `back`. */
  datatype Call =
    | Waiting(called: nat)
    | Holding(called: nat)
    | Serialized(called: nat, taken: nat, blob: Data)
    | Returned(called: nat, taken: nat, back: nat, blob: Data)
    | Refused

  /** `pages` is what the store holds, uncommitted writes included, and what Serialize reads;
      `history` is the committed state at every moment so far, the last being now. */
  datatype Store = Store(pages: Data, lock: Option<Owner>, calls: map<nat, Call>, history: seq<Data>)
  {
    function Committed(): Data
      requires history != []
    {
      history[|history| - 1]
    }
  }

  /** The atomic steps.  A session writes under the lock, which its first write takes; a step
      that is not possible, or that finds the store busy, changes nothing. */
  datatype Action =
    | Write(session: nat, pages: Data)
    | Commit(session: nat)
    | Rollback(session: nat)
    | Enter(call: nat)
    | BeginImmediate(call: nat)
    | GiveUp(call: nat)
    | Serialize(call: nat, works: bool)
    | Finish(call: nat)

  predicate BarrierAction(a: Action) {
    a.Enter? || a.BeginImmediate? || a.GiveUp? || a.Serialize? || a.Finish?
  }

  /** The store after a moment in which the committed state becomes `committed`. */
  function Tick(s: Store, committed: Data): Store {
    s.(history := s.history + [committed])
  }

  function Step(s: Store, a: Action): Store
    requires s.history != []
  {
    var now := s.Committed();
    match a
    case Write(i, pages) =>
      if s.lock == None || s.lock == Some(Writer(i)) then Tick(s.(pages := pages, lock := Some(Writer(i))), now)
      else Tick(s, now)
    case Commit(i) =>
      if s.lock == Some(Writer(i)) then Tick(s.(lock := None), s.pages) else Tick(s, now)
    case Rollback(i) =>
      if s.lock == Some(Writer(i)) then Tick(s.(pages := now, lock := None), now) else Tick(s, now)
    case Enter(b) =>
      if b !in s.calls then Tick(s.(calls := s.calls[b := Waiting(|s.history| - 1)]), now) else Tick(s, now)
    case BeginImmediate(b) =>
      if b in s.calls && s.calls[b].Waiting? && s.lock == None
      then Tick(s.(calls := s.calls[b := Holding(s.calls[b].called)], lock := Some(Snapshot(b))), now) else Tick(s, now)
    case GiveUp(b) =>
      if b in s.calls && s.calls[b].Waiting? then Tick(s.(calls := s.calls[b := Refused]), now) else Tick(s, now)
    case Serialize(b, works) =>
      if b in s.calls && s.calls[b].Holding? then
        if works && s.pages != []
        then Tick(s.(calls := s.calls[b := Serialized(s.calls[b].called, |s.history| - 1, s.pages)]), now)
        else Tick(s.(calls := s.calls[b := Refused], lock := None), now)
      else Tick(s, now)
    case Finish(b) =>
      if b in s.calls && s.calls[b].Serialized?
      then
        var c := s.calls[b];
        Tick(s.(calls := s.calls[b := Returned(c.called, c.taken, |s.history| - 1, c.blob)], lock := None), now)
      else Tick(s, now)
  }

  function Run(s: Store, actions: seq<Action>): (r: Store)
    requires s.history != []
    ensures r.history != []
    decreases |actions|
  {
    if actions == [] then s else Run(Step(s, actions[0]), actions[1..])
  }

  /** A store at rest. */
  predicate Fresh(s: Store) {
    s.lock == None && s.calls == map[] && s.history == [s.pages]
  }

  // ---- The invariant -------------------------------------------------------

  /** A blob is a committed state of a moment within its call. */
  predicate Honest(s: Store, c: Call) {
    match c
    case Serialized(called, taken, blob) => called <= taken < |s.history| && s.history[taken] == blob
    case Returned(called, taken, back, blob) => called <= taken <= back < |s.history| && s.history[taken] == blob
    case Waiting(called) => called < |s.history|
    case Holding(called) => called < |s.history|
    case Refused => true
  }

  /** A call holds the lock exactly from BEGIN IMMEDIATE to ROLLBACK. */
  predicate HoldsLock(s: Store, b: nat) {
    (b in s.calls && (s.calls[b].Holding? || s.calls[b].Serialized?)) <==> s.lock == Some(Snapshot(b))
  }

  ghost predicate Inv(s: Store) {
    && s.history != []
    && ((s.lock == None || s.lock.value.Snapshot?) ==> s.pages == s.Committed())
    && (forall b :: HoldsLock(s, b))
    && (forall b :: b in s.calls ==> Honest(s, s.calls[b]))
  }

  lemma UnlockedIsCommitted(s: Store, a: Action)
    requires Inv(s)
    ensures var t := Step(s, a); (t.lock == None || t.lock.value.Snapshot?) ==> t.pages == t.Committed()
  {
    if a.Serialize? || a.Finish? {
      assert HoldsLock(s, a.call);
    }
  }

  lemma LockFollowsCalls(s: Store, a: Action, b: nat)
    requires Inv(s)
    ensures HoldsLock(Step(s, a), b)
  {
    assert HoldsLock(s, b);
    if BarrierAction(a) {
      assert HoldsLock(s, a.call);
    }
  }

  lemma CallsStayHonest(s: Store, a: Action, b: nat)
    requires Inv(s) && b in Step(s, a).calls
    ensures Honest(Step(s, a), Step(s, a).calls[b])
  {
    if b in s.calls {
      assert Honest(s, s.calls[b]);
    }
    if BarrierAction(a) {
      assert HoldsLock(s, a.call);
    }
  }

  lemma StepKeepsInv(s: Store, a: Action)
    requires Inv(s)
    ensures Inv(Step(s, a)) && s.history < Step(s, a).history
  {
    UnlockedIsCommitted(s, a);
    forall b ensures HoldsLock(Step(s, a), b) { LockFollowsCalls(s, a, b); }
    forall b | b in Step(s, a).calls ensures Honest(Step(s, a), Step(s, a).calls[b]) { CallsStayHonest(s, a, b); }
  }

  lemma {:induction false} RunKeepsInv(s: Store, actions: seq<Action>)
    requires Inv(s)
    ensures Inv(Run(s, actions)) && s.history <= Run(s, actions).history
    decreases |actions|
  {
    if actions != [] {
      StepKeepsInv(s, actions[0]);
      RunKeepsInv(Step(s, actions[0]), actions[1..]);
    }
  }

  /** In every interleaving, the blob a call returns is the committed state of some moment
      between the call and its return: never a state with uncommitted writes. */
  lemma SnapshotIsCommittedState(s: Store, actions: seq<Action>, b: nat)
    requires Fresh(s)
    requires b in Run(s, actions).calls && Run(s, actions).calls[b].Returned?
    ensures var r := Run(s, actions);
            var c := r.calls[b];
            c.back < |r.history| && exists k :: c.called <= k <= c.back && r.history[k] == c.blob
  {
    RunKeepsInv(s, actions);
    assert Honest(Run(s, actions), Run(s, actions).calls[b]);
  }

  /** The steps of a snapshot change neither the contents nor what is committed. */
  lemma BarrierIsInert(s: Store, a: Action)
    requires Inv(s) && BarrierAction(a)
    ensures var t := Step(s, a); t.pages == s.pages && t.Committed() == s.Committed()
  {
  }

  /** While a snapshot holds the lock no session's step changes anything either. */
  lemma WritersWait(s: Store, a: Action)
    requires Inv(s) && s.lock.Some? && s.lock.value.Snapshot? && !BarrierAction(a)
    ensures var t := Step(s, a);
            t.pages == s.pages && t.lock == s.lock && t.calls == s.calls && t.Committed() == s.Committed()
  {
  }

  /** Outside of snapshots sessions take turns: what one writes from a state at rest is committed
      by its own commit, nobody else's steps coming in between. */
  lemma {:induction false} SessionsTakeTurns(s: Store, i: nat, pages: Data, others: seq<Action>)
    requires Inv(s) && s.lock == None && AllOthers(others, i)
    ensures var t := Run(Step(s, Write(i, pages)), others);
            t.pages == pages && t.Committed() == s.Committed() && Step(t, Commit(i)).Committed() == pages
  {
    var t := Step(s, Write(i, pages));
    forall b | b in t.calls ensures !t.calls[b].Holding? && !t.calls[b].Serialized? { assert HoldsLock(s, b); }
    TurnHolds(t, i, others);
  }

  /** Steps of other sessions, and of snapshots. */
  predicate AllOthers(actions: seq<Action>, i: nat) {
    forall a :: a in actions ==> BarrierAction(a) || a.session != i
  }

  lemma {:induction false} TurnHolds(s: Store, i: nat, others: seq<Action>)
    requires s.history != [] && s.lock == Some(Writer(i)) && AllOthers(others, i)
    requires forall b :: b in s.calls ==> !s.calls[b].Holding? && !s.calls[b].Serialized?
    ensures var t := Run(s, others); t.lock == s.lock && t.pages == s.pages && t.Committed() == s.Committed()
    decreases |others|
  {
    if others != [] {
      assert others[0] in others;
      TurnHolds(Step(s, others[0]), i, others[1..]);
    }
  }

  /** Without the barrier the claim fails: what Serialize reads during a transaction need
      not ever have been, nor ever become, a committed state. */
  lemma BareSerializeTears(s: Store, pages: Data)
    requires Fresh(s) && pages != s.pages
    ensures var mid := Run(s, [Write(0, pages)]);
            var end := Run(s, [Write(0, pages), Rollback(0)]);
            mid.pages == pages && forall k :: 0 <= k < |end.history| ==> end.history[k] != mid.pages
  {
    var mid := Step(s, Write(0, pages));
    assert [Write(0, pages)][1..] == [] && [Write(0, pages), Rollback(0)][1..] == [Rollback(0)]
        && [Rollback(0)][1..] == [];
    assert Run(mid, []) == mid && Run(mid, [Rollback(0)]) == Run(Step(mid, Rollback(0)), []);
  }

  // ---- The call ------------------------------------------------------------

  /** A step of a session, or of another call. */
  predicate Foreign(a: Action, b: nat) {
    BarrierAction(a) ==> a.call != b
  }

  predicate AllForeign(actions: seq<Action>, b: nat) {
    forall a :: a in actions ==> Foreign(a, b)
  }

  lemma {:induction false} CallUntouched(s: Store, actions: seq<Action>, b: nat)
    requires s.history != [] && AllForeign(actions, b)
    ensures b in Run(s, actions).calls <==> b in s.calls
    ensures b in s.calls ==> Run(s, actions).calls[b] == s.calls[b]
    decreases |actions|
  {
    if actions != [] {
      assert actions[0] in actions;
      CallUntouched(Step(s, actions[0]), actions[1..], b);
    }
  }

  /** While call `b` holds the lock, whatever others do, nothing is written or committed. */
  lemma {:induction false} LockHolds(s: Store, actions: seq<Action>, b: nat)
    requires Inv(s) && s.lock == Some(Snapshot(b)) && AllForeign(actions, b)
    ensures var t := Run(s, actions); t.lock == s.lock && t.pages == s.pages && t.Committed() == s.Committed()
    decreases |actions|
  {
    if actions != [] {
      var a := actions[0];
      assert a in actions && HoldsLock(s, b);
      if BarrierAction(a) {
        assert HoldsLock(s, a.call);
      } else {
        WritersWait(s, a);
      }
      StepKeepsInv(s, a);
      LockHolds(Step(s, a), actions[1..], b);
    }
  }

  class LiveStore {
    var store: Store

    ghost predicate Valid()
      reads this
    {
      Inv(store)
    }

    constructor (pages: Data)
      ensures Valid() && Fresh(store) && store.pages == pages
    {
      store := Store(pages, None, map[], [pages]);
    }

    method Perform(a: Action)
      requires Valid()
      modifies this
      ensures Valid() && store == Step(old(store), a) && old(store).history < store.history
    {
      StepKeepsInv(store, a);
      store := Step(store, a);
    }

    /** What others do meanwhile. */
    method Elsewhere(actions: seq<Action>)
      requires Valid()
      modifies this
      ensures Valid() && store == Run(old(store), actions) && old(store).history <= store.history
    {
      RunKeepsInv(store, actions);
      store := Run(store, actions);
    }

    /** engine/persist.go: serializeBarrier, with what other sessions and calls do before it
        gets the lock, before it serializes, and before it rolls back.  It succeeds exactly
        when it finds the lock free and gets a blob that is not empty; the blob is then what
        was committed when it got the lock, and still is when it returns. */
    method SerializeBarrier(b: nat, before: seq<Action>, during: seq<Action>, after: seq<Action>, works: bool)
      returns (blob: Option<Data>)
      requires Valid() && b !in store.calls
      requires AllForeign(before, b) && AllForeign(during, b) && AllForeign(after, b)
      modifies this
      ensures Valid() && old(store).history <= store.history
      ensures var atBegin := Run(Step(old(store), Enter(b)), before);
              && (blob.Some? <==> atBegin.lock == None && works && atBegin.Committed() != [])
              && (blob.Some? ==> blob.value == atBegin.Committed() == store.Committed())
      ensures store.lock != Some(Snapshot(b))
      ensures b in store.calls && if blob.Some? then store.calls[b].Returned? else store.calls[b].Refused?
    {
      assert HoldsLock(store, b);
      Perform(Enter(b));
      CallUntouched(store, before, b);
      Elsewhere(before);
      Perform(BeginImmediate(b));
      if !store.calls[b].Holding? {
        Perform(GiveUp(b));
        assert HoldsLock(store, b);
        return None;
      }
      blob := SerializeHeld(b, during, after, works);
    }

    /** The part of serializeBarrier that runs under the lock. */
    method SerializeHeld(b: nat, during: seq<Action>, after: seq<Action>, works: bool) returns (blob: Option<Data>)
      requires Valid() && b in store.calls && store.calls[b].Holding?
      requires AllForeign(during, b) && AllForeign(after, b)
      modifies this
      ensures Valid() && old(store).history <= store.history
      ensures blob == if works && old(store).Committed() != [] then Some(old(store).Committed()) else None
      ensures store.Committed() == old(store).Committed() && store.lock != Some(Snapshot(b))
      ensures b in store.calls && if blob.Some? then store.calls[b].Returned? else store.calls[b].Refused?
    {
      assert HoldsLock(store, b);
      CallUntouched(store, during, b);
      LockHolds(store, during, b);
      Elsewhere(during);
      Perform(Serialize(b, works));
      if store.calls[b].Refused? {
        return None;
      }
      assert HoldsLock(store, b);
      CallUntouched(store, after, b);
      LockHolds(store, after, b);
      Elsewhere(after);
      blob := Some(store.calls[b].blob);
      Perform(Finish(b));
    }
  }
}
