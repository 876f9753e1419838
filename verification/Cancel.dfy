/** Cancelling a running query (cmd/execdb/pgcancel.go, cmd/execdb/pgwire.go), as an
    interleaving of the atomic steps of connections, cancel requests and disconnect
    watchers.  A step that is not possible changes nothing but the clock. */
module Cancel {
  import opened Options

  /** The pid and the secret of BackendKeyData. */
  datatype Key = Key(pid: int, secret: int)

  type ConnId = nat
  type QueryId = nat
  type RequestId = nat

  /** Who called a query's cancel function, and when. */
  datatype Cause =
    | OwnEnd(at: nat)
    | ByRequest(key: Key, readAt: nat)
    | ByWatcher(at: nat)

  /** The goroutine of watchForDisconnect: blocked in Read, past it, about to call cancel,
      or gone.  Extended-query messages have none. */
  datatype Watcher = Absent | Blocked | Woken | Calling | Gone
  {
    predicate Over() { Absent? || Gone? }
  }

  /** One message being handled, with its own context.  It is registered with its
      connection from `begunAt` on; `stoppedAt` is when the watcher's stop returned and
      `endedAt` when the registration was removed. */
  datatype Query = Query(
    conn: ConnId, begunAt: nat, watcher: Watcher, stopping: bool,
    stoppedAt: Option<nat>, endedAt: Option<nat>, causes: set<Cause>)

  /** A CancelRequest on its way: it looks its key up, reads the current query of the
      connection found, and calls that query's cancel function. */
  datatype Request = LookedUp(key: Key, conn: ConnId) | ReadQuery(key: Key, query: QueryId, readAt: nat) | Done

  /** `keys` is the key each connection was given, `live` the connections registered and not
      yet unregistered, whatever the registry holds, `entries` the registry's map, `current`
      the cancel field of each connection's connCancel, `running` the query it handles. */
  datatype State = State(
    now: nat,
    keys: map<ConnId, Key>, live: set<ConnId>, entries: map<Key, ConnId>,
    current: map<ConnId, Option<QueryId>>, running: map<ConnId, QueryId>,
    queries: map<QueryId, Query>, requests: map<RequestId, Request>)

  datatype Action =
    | Register(conn: ConnId, key: Key)
    | Unregister(conn: ConnId)
    | Begin(conn: ConnId, query: QueryId, watched: bool)
    | Wake(query: QueryId)
    | Decide(query: QueryId)
    | WatcherCancel(query: QueryId)
    | Stop(conn: ConnId)
    | StopReturns(conn: ConnId)
    | End(conn: ConnId)
    | OwnCancel(conn: ConnId)
    | Lookup(request: RequestId, key: Key)
    | Read(request: RequestId)
    | RequestCancel(request: RequestId)

  /** A watcher's step on its query.  Read returns because the peer is gone, or sent
      something, or because stop forced a deadline. */
  function OnWatcher(v: Query, a: Action, now: nat): Query {
    if a.Wake? && v.watcher == Blocked then v.(watcher := Woken)
    else if a.Decide? && v.watcher == Woken then v.(watcher := if v.stopping then Gone else Calling)
    else if a.WatcherCancel? && v.watcher == Calling then v.(watcher := Gone, causes := v.causes + {ByWatcher(now)})
    else v
  }

  /** What follows the handling of a message: stopping the watcher and waiting for it to be
      gone, removing the registration, and calling the query's own cancel function.  Only a
      watched query has a stop to wait for. */
  predicate Ready(v: Query, a: Action) {
    || a.Stop?
    || (a.StopReturns? && v.stopping && v.stoppedAt == None && v.watcher.Over())
    || (a.End? && v.endedAt == None && (v.stoppedAt.Some? || v.watcher == Absent))
    || (a.OwnCancel? && v.endedAt.Some?)
  }

  function OnHandler(v: Query, a: Action, now: nat): Query {
    if !Ready(v, a) then v
    else if a.Stop? then v.(stopping := true)
    else if a.StopReturns? then v.(stoppedAt := Some(now))
    else if a.End? then v.(endedAt := Some(now))
    else v.(causes := v.causes + {OwnEnd(now)})
  }

  /** The query connection `c` is handling, if any. */
  predicate Runs(s: State, c: ConnId) { c in s.running && s.running[c] in s.queries }

  /** The registry finds connection `c` under its key. */
  predicate Found(s: State, c: ConnId) { c in s.keys && s.keys[c] in s.entries && s.entries[s.keys[c]] == c }

  function ActHandler(s: State, a: Action, c: ConnId): State {
    if !Runs(s, c) || !Ready(s.queries[s.running[c]], a) then s
    else
      var q := s.running[c];
      s.(queries := s.queries[q := OnHandler(s.queries[q], a, s.now)],
         current := if a.End? then s.current[c := None] else s.current,
         running := if a.OwnCancel? then s.running - {c} else s.running)
  }

  function ActWatcher(s: State, a: Action, q: QueryId): State {
    if q in s.queries then s.(queries := s.queries[q := OnWatcher(s.queries[q], a, s.now)]) else s
  }

  function ActRequest(s: State, a: Action, r: RequestId): State {
    if a.Lookup? then
      if r in s.requests then s
      else s.(requests := s.requests[r := if a.key in s.entries then LookedUp(a.key, s.entries[a.key]) else Done])
    else if r !in s.requests then s
    else if a.Read? && s.requests[r].LookedUp? && s.requests[r].conn in s.current then
      match s.current[s.requests[r].conn]
      case None => s.(requests := s.requests[r := Done])
      case Some(q) => s.(requests := s.requests[r := ReadQuery(s.requests[r].key, q, s.now)])
    else if a.RequestCancel? && s.requests[r].ReadQuery? && s.requests[r].query in s.queries then
      var q := s.requests[r].query;
      var v := s.queries[q];
      s.(requests := s.requests[r := Done],
         queries := s.queries[q := v.(causes := v.causes + {ByRequest(s.requests[r].key, s.requests[r].readAt)})])
    else s
  }

  function Act(s: State, a: Action): State {
    match a
    case Register(c, key) =>
      // The loop of register draws keys until one is unused.
      if c !in s.keys && key !in s.entries
      then s.(keys := s.keys[c := key], live := s.live + {c}, entries := s.entries[key := c],
          current := s.current[c := None])
      else s
    case Unregister(c) =>
      // Whatever is registered under the connection's key is deleted.
      if c in s.live && c in s.keys && c !in s.running
      then s.(live := s.live - {c}, entries := s.entries - {s.keys[c]}) else s
    case Begin(c, q, watched) =>
      if c in s.live && c !in s.running && q !in s.queries
      then s.(current := s.current[c := Some(q)], running := s.running[c := q],
              queries := s.queries[q := Query(c, s.now, if watched then Blocked else Absent, false, None, None, {})])
      else s
    case Wake(q) => ActWatcher(s, a, q)
    case Decide(q) => ActWatcher(s, a, q)
    case WatcherCancel(q) => ActWatcher(s, a, q)
    case Stop(c) => ActHandler(s, a, c)
    case StopReturns(c) => ActHandler(s, a, c)
    case End(c) => ActHandler(s, a, c)
    case OwnCancel(c) => ActHandler(s, a, c)
    case Lookup(r, _) => ActRequest(s, a, r)
    case Read(r) => ActRequest(s, a, r)
    case RequestCancel(r) => ActRequest(s, a, r)
  }

  /** One step of the interleaving takes one tick of the clock. */
  function Step(s: State, a: Action): State { Act(s, a).(now := s.now + 1) }

  function Run(s: State, actions: seq<Action>): State
    decreases |actions|
  {
    if actions == [] then s else Run(Step(s, actions[0]), actions[1..])
  }

  const START := State(0, map[], {}, map[], map[], map[], map[], map[])

  // ---- The invariant -------------------------------------------------------

  /** A query was registered on its connection, whose key is `key`, at moment `t`. */
  predicate RegisteredAt(s: State, v: Query, key: Key, t: nat) {
    && v.conn in s.keys && s.keys[v.conn] == key
    && v.begunAt <= t && (v.endedAt.Some? ==> t < v.endedAt.value)
  }

  /** A cancellation of query `v` that is in order. */
  predicate Scoped(s: State, v: Query, cause: Cause) {
    match cause
    case OwnEnd(at) => v.endedAt.Some? && v.endedAt.value < at < s.now
    case ByRequest(key, readAt) => readAt < s.now && RegisteredAt(s, v, key, readAt)
    case ByWatcher(at) => v.begunAt <= at < s.now && (v.stoppedAt.Some? ==> at < v.stoppedAt.value)
  }

  ghost predicate AllScoped(s: State, v: Query) {
    forall cause :: cause in v.causes ==> Scoped(s, v, cause)
  }

  /** The moments of a query's life come in order. */
  predicate WellTimed(s: State, v: Query) {
    && v.conn in s.keys && v.begunAt < s.now
    && (v.endedAt.Some? ==> v.endedAt.value < s.now && (v.stoppedAt.Some? || v.watcher == Absent))
    && (v.stoppedAt.Some? ==> v.stoppedAt.value < s.now && v.watcher.Over())
  }

  ghost predicate QueryInOrder(s: State, v: Query) { WellTimed(s, v) && AllScoped(s, v) }

  /** The query a connection handles is its own, and keeps it in the registry. */
  predicate RunningInOrder(s: State, c: ConnId) {
    c in s.running ==>
      c in s.live && s.running[c] in s.queries && s.queries[s.running[c]].conn == c
  }

  /** What can be cancelled through a connection is the query it handles, not yet ended. */
  predicate CurrentInOrder(s: State, c: ConnId) {
    c in s.current && s.current[c].Some? ==>
      && c in s.running && s.running[c] == s.current[c].value
      && s.running[c] in s.queries && s.queries[s.running[c]].endedAt == None
  }

  predicate ConnInOrder(s: State, c: ConnId) {
    (c in s.keys <==> c in s.current) && RunningInOrder(s, c) && CurrentInOrder(s, c) && (c in s.live ==> Found(s, c))
  }

  predicate RequestInOrder(s: State, r: Request) {
    match r
    case LookedUp(key, conn) => conn in s.keys && s.keys[conn] == key
    case ReadQuery(key, q, readAt) => readAt < s.now && q in s.queries && RegisteredAt(s, s.queries[q], key, readAt)
    case Done => true
  }

  ghost predicate Inv(s: State) {
    && (forall c :: ConnInOrder(s, c))
    && (forall key :: EntryInOrder(s, key))
    && (forall q :: q in s.queries ==> QueryInOrder(s, s.queries[q]))
    && (forall r :: r in s.requests ==> RequestInOrder(s, s.requests[r]))
  }

  /** Keys are given once. */
  lemma KeysStay(s: State, a: Action)
    ensures var t := Step(s, a); forall c :: c in s.keys ==> c in t.keys && t.keys[c] == s.keys[c]
  {
  }

  // ---- One step ------------------------------------------------------------

  /** Only these two actions touch the registry. */
  lemma RegistryStays(s: State, a: Action)
    requires !a.Register? && !a.Unregister?
    ensures SameRegistry(s, Step(s, a))
  {
    match a {
      case Stop(c) => HandlerKeepsRegistry(s, a, c);
      case StopReturns(c) => HandlerKeepsRegistry(s, a, c);
      case End(c) => HandlerKeepsRegistry(s, a, c);
      case OwnCancel(c) => HandlerKeepsRegistry(s, a, c);
      case Lookup(r, _) => RequestKeepsRegistry(s, a, r);
      case Read(r) => RequestKeepsRegistry(s, a, r);
      case RequestCancel(r) => RequestKeepsRegistry(s, a, r);
      case _ =>
    }
  }

  predicate SameRegistry(s: State, t: State) { t.keys == s.keys && t.live == s.live && t.entries == s.entries }

  lemma HandlerKeepsRegistry(s: State, a: Action, c: ConnId)
    ensures SameRegistry(s, ActHandler(s, a, c))
  {
  }

  lemma RequestKeepsRegistry(s: State, a: Action, r: RequestId)
    ensures SameRegistry(s, ActRequest(s, a, r))
  {
  }

  predicate EntryInOrder(s: State, key: Key) {
    key in s.entries ==> s.entries[key] in s.live && s.entries[key] in s.keys && s.keys[s.entries[key]] == key
  }

  lemma StepEntry(s: State, a: Action, key: Key)
    requires Inv(s)
    ensures EntryInOrder(Step(s, a), key)
  {
    assert EntryInOrder(s, key);
    if a.Unregister? {
      assert ConnInOrder(s, a.conn);
    } else if !a.Register? {
      RegistryStays(s, a);
    }
  }

  /** What one step at moment `now` can do to a query. */
  predicate Moves(now: nat, v: Query, w: Query) {
    && w.conn == v.conn && w.begunAt == v.begunAt
    && (w.stoppedAt == v.stoppedAt || (v.stoppedAt == None && w.stoppedAt == Some(now)))
    && (w.endedAt == v.endedAt || (v.endedAt == None && w.endedAt == Some(now)))
    && (w.watcher == v.watcher || (!v.watcher.Over() && w.watcher != Absent))
    && (w.endedAt.Some? ==> w.stoppedAt.Some? || w.watcher == Absent)
    && (w.stoppedAt.Some? ==> w.watcher.Over())
  }

  lemma QueryMoves(now: nat, v: Query, a: Action)
    requires v.endedAt.Some? ==> v.stoppedAt.Some? || v.watcher == Absent
    requires v.stoppedAt.Some? ==> v.watcher.Over()
    ensures Moves(now, v, v) && Moves(now, v, OnWatcher(v, a, now)) && Moves(now, v, OnHandler(v, a, now))
  {
  }

  lemma StepMoves(s: State, a: Action, q: QueryId)
    requires Inv(s) && q in s.queries
    ensures q in Step(s, a).queries && Moves(s.now, s.queries[q], Step(s, a).queries[q])
  {
    assert WellTimed(s, s.queries[q]);
    QueryMoves(s.now, s.queries[q], a);
    ActQuery(s, a, q);
  }

  lemma ActQuery(s: State, a: Action, q: QueryId)
    requires q in s.queries
    ensures q in Act(s, a).queries
    ensures var (v, w) := (s.queries[q], Act(s, a).queries[q]);
            w == v || w == OnWatcher(v, a, s.now) || w == OnHandler(v, a, s.now) || w == v.(causes := w.causes)
  {
  }

  /** The cancellation that happens in a step, if one does. */
  function NewCause(s: State, a: Action, q: QueryId): Option<Cause> {
    match a
    case WatcherCancel(q') => if q' == q then Some(ByWatcher(s.now)) else None
    case OwnCancel(c) => if c in s.running && s.running[c] == q then Some(OwnEnd(s.now)) else None
    case RequestCancel(r) =>
      if r in s.requests && s.requests[r].ReadQuery? && s.requests[r].query == q
      then Some(ByRequest(s.requests[r].key, s.requests[r].readAt)) else None
    case _ => None
  }

  lemma StepCauses(s: State, a: Action, q: QueryId)
    requires Inv(s) && q in s.queries && q in Step(s, a).queries
    ensures var causes := Step(s, a).queries[q].causes;
            || causes == s.queries[q].causes
            || (NewCause(s, a, q).Some? && causes == s.queries[q].causes + {NewCause(s, a, q).value}
                && CauseInOrder(s, a, q, NewCause(s, a, q).value))
  {
    assert WellTimed(s, s.queries[q]);
    if a.RequestCancel? && a.request in s.requests {
      assert RequestInOrder(s, s.requests[a.request]);
    }
  }

  /** What is known of a cancellation when it happens. */
  predicate CauseInOrder(s: State, a: Action, q: QueryId, cause: Cause)
    requires q in s.queries
  {
    var v := s.queries[q];
    && (cause.OwnEnd? ==>
          cause.at == s.now && v.endedAt.Some?
              && Step(s, a).queries == s.queries[q := v.(causes := v.causes + {cause})])
    && (cause.ByRequest? ==> cause.readAt < s.now && RegisteredAt(s, v, cause.key, cause.readAt))
    && (cause.ByWatcher? ==>
          cause.at == s.now && v.stoppedAt == None
          && Step(s, a).queries == s.queries[q := v.(watcher := Gone, causes := v.causes + {cause})])
  }

  lemma ScopeStays(s: State, t: State, v: Query, w: Query, cause: Cause)
    requires WellTimed(s, v) && Moves(s.now, v, w) && t.now == s.now + 1 && Scoped(s, v, cause)
    requires forall c :: c in s.keys ==> c in t.keys && t.keys[c] == s.keys[c]
    ensures Scoped(t, w, cause)
  {
  }

  lemma StepQuery(s: State, a: Action, q: QueryId)
    requires Inv(s) && q in s.queries
    ensures q in Step(s, a).queries && QueryInOrder(Step(s, a), Step(s, a).queries[q])
  {
    var t, v := Step(s, a), s.queries[q];
    StepMoves(s, a, q);
    StepCauses(s, a, q);
    KeysStay(s, a);
    var w := t.queries[q];
    assert WellTimed(s, v) && AllScoped(s, v);
    forall cause | cause in w.causes ensures Scoped(t, w, cause) {
      if cause in v.causes {
        ScopeStays(s, t, v, w, cause);
      }
    }
  }

  lemma NewQuery(s: State, a: Action, q: QueryId)
    requires Inv(s) && q !in s.queries && q in Step(s, a).queries
    ensures QueryInOrder(Step(s, a), Step(s, a).queries[q]) && Step(s, a).queries[q].causes == {}
  {
    if a.Begin? {
      assert ConnInOrder(s, a.conn);
    }
  }

  lemma StepRequest(s: State, a: Action, r: RequestId)
    requires Inv(s) && r in Step(s, a).requests
    ensures RequestInOrder(Step(s, a), Step(s, a).requests[r])
  {
    KeysStay(s, a);
    if a.Lookup? {
      assert EntryInOrder(s, a.key);
    }
    if r in s.requests {
      assert RequestInOrder(s, s.requests[r]);
      if a == Read(r) {
        ReadFinds(s, r);
      } else {
        RequestStays(s, a, r);
      }
    }
  }

  lemma RequestStays(s: State, a: Action, r: RequestId)
    requires Inv(s) && r in s.requests && a != Read(r)
    ensures var t := Step(s, a); r in t.requests && (t.requests[r] == s.requests[r] || t.requests[r] == Done)
    ensures RequestInOrder(Step(s, a), s.requests[r])
  {
    KeysStay(s, a);
    assert RequestInOrder(s, s.requests[r]);
    if s.requests[r].ReadQuery? {
      StepMoves(s, a, s.requests[r].query);
    }
    RequestOnlyFinishes(s, a, r);
  }

  lemma RequestOnlyFinishes(s: State, a: Action, r: RequestId)
    requires r in s.requests && a != Read(r)
    ensures var t := Act(s, a); r in t.requests && (t.requests[r] == s.requests[r] || t.requests[r] == Done)
  {
  }

  /** The locked read finds a query that is registered at that moment, on the connection
      with the requested key. */
  lemma ReadFinds(s: State, r: RequestId)
    requires Inv(s) && r in s.requests
    ensures var t := Step(s, Read(r)); r in t.requests && RequestInOrder(t, t.requests[r])
  {
    assert RequestInOrder(s, s.requests[r]);
    if s.requests[r].LookedUp? {
      var c := s.requests[r].conn;
      assert ConnInOrder(s, c);
      if s.current[c].Some? {
        assert WellTimed(s, s.queries[s.current[c].value]);
      }
    }
  }

  lemma StepRunning(s: State, a: Action, c: ConnId)
    requires Inv(s)
    ensures RunningInOrder(Step(s, a), c)
  {
    assert ConnInOrder(s, c);
    if c in s.running {
      StepMoves(s, a, s.running[c]);
      LiveStays(s, a, c);
    }
    if c in Act(s, a).running && c !in s.running {
      BegunIsLive(s, a, c);
    }
  }

  /** A connection is not unregistered while it handles a query. */
  lemma LiveStays(s: State, a: Action, c: ConnId)
    requires c in s.live && c in s.running
    ensures c in Act(s, a).live
  {
  }

  /** What others register or unregister does not touch a live connection's entry: a new key
      is one the registry does not hold, and a key unregistered is that of another. */
  lemma StepFound(s: State, a: Action, c: ConnId)
    requires Inv(s) && c in Step(s, a).live
    ensures Found(Step(s, a), c)
  {
    assert ConnInOrder(s, c);
    if a.Unregister? {
      assert ConnInOrder(s, a.conn);
      OtherUnregistered(s, a.conn, c);
    } else if !a.Register? {
      RegistryStays(s, a);
    }
  }

  lemma OtherUnregistered(s: State, gone: ConnId, c: ConnId)
    requires ConnInOrder(s, gone) && ConnInOrder(s, c) && c in Act(s, Unregister(gone)).live
    ensures Found(Act(s, Unregister(gone)), c)
  {
  }

  lemma BegunIsLive(s: State, a: Action, c: ConnId)
    requires c in Act(s, a).running && c !in s.running
    ensures var t := Act(s, a); c in t.live && t.running[c] in t.queries && t.queries[t.running[c]].conn == c
  {
  }

  lemma StepCurrent(s: State, a: Action, c: ConnId)
    requires Inv(s)
    ensures CurrentInOrder(Step(s, a), c)
  {
    assert ConnInOrder(s, c);
    if a.End? {
      assert ConnInOrder(s, a.conn);
      EndClears(s, a.conn, c);
    } else if a.Register? || a.Begin? {
      BegunIsCurrent(s, a, c);
    } else {
      CurrentStays(s, a);
      if c in s.current && s.current[c].Some? {
        OnlyEndEnds(s, a, s.running[c]);
        RunningStays(s, a, c);
      }
    }
  }

  lemma BegunIsCurrent(s: State, a: Action, c: ConnId)
    requires (a.Register? || a.Begin?) && ConnInOrder(s, c)
    ensures CurrentInOrder(Act(s, a), c)
  {
  }

  /** Only its own cancel function, called once it has ended, ends the handling of a query. */
  lemma RunningStays(s: State, a: Action, c: ConnId)
    requires Runs(s, c) && !(a.OwnCancel? && s.queries[s.running[c]].endedAt.Some?)
    ensures c in Act(s, a).running && Act(s, a).running[c] == s.running[c]
  {
  }

  /** Ending one connection's query leaves those of the others registered and running. */
  lemma EndClears(s: State, ended: ConnId, c: ConnId)
    requires ConnInOrder(s, ended) && ConnInOrder(s, c)
    ensures CurrentInOrder(Act(s, End(ended)), c)
  {
  }

  lemma StepKeyed(s: State, a: Action, c: ConnId)
    requires Inv(s)
    ensures var t := Step(s, a); c in t.keys <==> c in t.current
  {
    assert ConnInOrder(s, c);
    if a.End? {
      assert ConnInOrder(s, a.conn);
    } else if !a.Register? && !a.Begin? {
      CurrentStays(s, a);
    }
  }

  lemma CurrentStays(s: State, a: Action)
    requires !a.Register? && !a.Begin? && !a.End?
    ensures Step(s, a).keys == s.keys && Step(s, a).current == s.current
  {
  }

  lemma OnlyEndEnds(s: State, a: Action, q: QueryId)
    requires q in s.queries && !a.End? && Inv(s)
    ensures q in Step(s, a).queries && Step(s, a).queries[q].endedAt == s.queries[q].endedAt
  {
  }

  lemma StepKeepsInv(s: State, a: Action)
    requires Inv(s)
    ensures Inv(Step(s, a))
  {
    var t := Step(s, a);
    forall c ensures ConnInOrder(t, c) {
      StepKeyed(s, a, c);
      StepRunning(s, a, c);
      StepCurrent(s, a, c);
      if c in t.live { StepFound(s, a, c); }
    }
    forall key ensures EntryInOrder(t, key) { StepEntry(s, a, key); }
    forall q | q in t.queries ensures QueryInOrder(t, t.queries[q]) {
      if q in s.queries { StepQuery(s, a, q); } else { NewQuery(s, a, q); }
    }
    forall r | r in t.requests ensures RequestInOrder(t, t.requests[r]) { StepRequest(s, a, r); }
  }

  // ---- All interleavings ---------------------------------------------------

  lemma {:induction false} RunKeepsInv(s: State, actions: seq<Action>)
    requires Inv(s)
    ensures Inv(Run(s, actions))
    decreases |actions|
  {
    if actions != [] {
      StepKeepsInv(s, actions[0]);
      RunKeepsInv(Step(s, actions[0]), actions[1..]);
    }
  }

  /** However the steps interleave: a CancelRequest has cancelled a query only if it named
      the key of the query's connection and read that query while it was registered there;
      a watcher has cancelled its query only while it was handled and before stop returned;
      a query's own clean-up only after it had ended. */
  lemma CancellationIsScoped(actions: seq<Action>, q: QueryId, cause: Cause)
    requires q in Run(START, actions).queries && cause in Run(START, actions).queries[q].causes
    ensures Scoped(Run(START, actions), Run(START, actions).queries[q], cause)
  {
    RunKeepsInv(START, actions);
    assert QueryInOrder(Run(START, actions), Run(START, actions).queries[q]);
  }

  /** No query starts cancelled: the step that begins it finds no trace of it, and leaves it
      uncancelled. */
  lemma QueriesStartUncancelled(actions: seq<Action>, a: Action, q: QueryId)
    requires q !in Run(START, actions).queries && q in Step(Run(START, actions), a).queries
    ensures Step(Run(START, actions), a).queries[q].causes == {}
    ensures forall r :: r in Run(START, actions).requests && Run(START, actions).requests[r].ReadQuery? ==>
              Run(START, actions).requests[r].query != q
  {
    var s := Run(START, actions);
    RunKeepsInv(START, actions);
    NewQuery(s, a, q);
    forall r | r in s.requests && s.requests[r].ReadQuery? ensures s.requests[r].query != q {
      assert RequestInOrder(s, s.requests[r]);
    }
  }

  /** A watcher whose stop has returned does nothing any more, to any query. */
  lemma StoppedWatcherIsGone(actions: seq<Action>, q: QueryId)
    requires q in Run(START, actions).queries && Run(START, actions).queries[q].stoppedAt.Some?
    ensures var s := Run(START, actions); Act(s, Wake(q)) == Act(s, Decide(q)) == Act(s, WatcherCancel(q)) == s
  {
    RunKeepsInv(START, actions);
    assert WellTimed(Run(START, actions), Run(START, actions).queries[q]);
  }

  /** Over every run, a connection registered and not yet unregistered is the one found under
      its key, so no two such connections share a key; and nothing else is found. */
  lemma LiveKeysAreDistinct(actions: seq<Action>, c: ConnId, d: ConnId)
    requires c in Run(START, actions).live && d in Run(START, actions).live
    ensures var s := Run(START, actions);
            && Found(s, c) && Found(s, d) && (c != d ==> s.keys[c] != s.keys[d])
            && forall key :: key in s.entries ==> s.entries[key] in s.live
  {
    var s := Run(START, actions);
    RunKeepsInv(START, actions);
    assert ConnInOrder(s, c) && ConnInOrder(s, d);
    forall key | key in s.entries ensures s.entries[key] in s.live { assert EntryInOrder(s, key); }
  }

  /** The keys have to be drawn again: with one that is in use, the connection that has it
      would no longer be found. */
  lemma UsedKeyTakesEntry(actions: seq<Action>, c: ConnId, d: ConnId)
    requires c in Run(START, actions).live && d !in Run(START, actions).keys
    ensures var s := Run(START, actions);
            && c in s.keys
            && var key := s.keys[c];
            !Found(s.(keys := s.keys[d := key], live := s.live + {d}, entries := s.entries[key := d]), c)
  {
    RunKeepsInv(START, actions);
    assert ConnInOrder(Run(START, actions), c);
  }

  // ---- What has to be cancelled is -----------------------------------------

  lemma {:induction false} CausesStay(s: State, actions: seq<Action>, q: QueryId)
    requires q in s.queries
    ensures var t := Run(s, actions); q in t.queries && s.queries[q].causes <= t.queries[q].causes
    decreases |actions|
  {
    if actions != [] {
      CausesGrow(s, actions[0], q);
      CausesStay(Step(s, actions[0]), actions[1..], q);
    }
  }

  lemma CausesGrow(s: State, a: Action, q: QueryId)
    requires q in s.queries
    ensures var t := Step(s, a); q in t.queries && s.queries[q].causes <= t.queries[q].causes
  {
  }

  /** The watcher of `q` has called cancel. */
  ghost predicate Alarmed(v: Query) { exists at :: ByWatcher(at) in v.causes }

  /** A watcher whose Read returned before stop was called cancels its query once it gets its
      turns to decide and to call, whatever happens in between, unless stop is called before it
      decides. */
  lemma {:induction false} WatcherCancels(s: State, actions: seq<Action>, q: QueryId)
    requires q in s.queries && s.queries[q].watcher == Calling && WatcherCancel(q) in actions
    ensures var t := Run(s, actions); q in t.queries && Alarmed(t.queries[q])
    decreases |actions|
  {
    var a := actions[0];
    if a == WatcherCancel(q) {
      assert ByWatcher(s.now) in Step(s, a).queries[q].causes;
      CausesStay(Step(s, a), actions[1..], q);
    } else {
      assert WatcherCancel(q) in actions[1..];
      CallingStays(s, a, q);
      WatcherCancels(Step(s, a), actions[1..], q);
    }
  }

  lemma CallingStays(s: State, a: Action, q: QueryId)
    requires q in s.queries && s.queries[q].watcher == Calling && a != WatcherCancel(q)
    ensures q in Step(s, a).queries && Step(s, a).queries[q].watcher == Calling
  {
  }

  /** A blocked watcher that is woken and decides goes on to call cancel if and only if stop has
      not been called. */
  lemma WokenDecides(s: State, q: QueryId)
    requires q in s.queries && s.queries[q].watcher == Blocked
    ensures var t := Step(Step(s, Wake(q)), Decide(q));
            q in t.queries && t.queries[q] == s.queries[q].(watcher := if s.queries[q].stopping then Gone else Calling)
  {
  }

  /** A request that looks its key up, reads the query found, and calls its cancel function. */
  function Requested(s: State, r: RequestId, key: Key): State {
    Step(Step(Step(s, Lookup(r, key)), Read(r)), RequestCancel(r))
  }

  /** In state `t` query `q` of `s` is as it was, or, if it is `target`, cancelled besides. */
  predicate CancelledIn(s: State, t: State, q: QueryId, target: Option<QueryId>, cause: Cause)
    requires q in s.queries
  {
    q in t.queries && t.queries[q] ==
      if target == Some(q) then s.queries[q].(causes := s.queries[q].causes + {cause}) else s.queries[q]
  }

  /** A request that names the key of a connection cancels the query this has registered when
      it is read, and no other; none if there is none, or no such key. */
  lemma RequestCancels(s: State, r: RequestId, key: Key)
    requires Inv(s) && r !in s.requests
    ensures var t := Requested(s, r, key);
            && r in t.requests && t.requests[r] == Done && t.queries.Keys == s.queries.Keys
            && forall q :: q in s.queries ==>
                 CancelledIn(s, t, q, if key in s.entries then s.current[s.entries[key]] else None,
                             ByRequest(key, s.now + 1))
  {
    var t := Step(Step(s, Lookup(r, key)), Read(r));
    if key in s.entries {
      var c := s.entries[key];
      assert EntryInOrder(s, key) && ConnInOrder(s, c);
      RequestReads(s, r, key, c);
      if s.current[c].Some? {
        RequestCalls(t, r, ReadQuery(key, s.current[c].value, s.now + 1));
      } else {
        RequestIsOver(t, r);
      }
    } else {
      RequestMisses(s, r, key);
      RequestIsOver(t, r);
    }
  }

  lemma RequestMisses(s: State, r: RequestId, key: Key)
    requires r !in s.requests && key !in s.entries
    ensures var t := Step(Step(s, Lookup(r, key)), Read(r));
            t.queries == s.queries && r in t.requests && t.requests[r] == Done
  {
  }

  lemma RequestIsOver(s: State, r: RequestId)
    requires r in s.requests && s.requests[r] == Done
    ensures var t := Step(s, RequestCancel(r)); t.queries == s.queries && t.requests == s.requests
  {
  }

  lemma RequestReads(s: State, r: RequestId, key: Key, c: ConnId)
    requires r !in s.requests && key in s.entries && s.entries[key] == c && c in s.current
    ensures var t := Step(Step(s, Lookup(r, key)), Read(r));
            && t.queries == s.queries && r in t.requests
            && t.requests[r] == (if s.current[c].Some? then ReadQuery(key, s.current[c].value, s.now + 1) else Done)
  {
  }

  lemma RequestCalls(s: State, r: RequestId, request: Request)
    requires r in s.requests && s.requests[r] == request && request.ReadQuery? && request.query in s.queries
    ensures var (t, q) := (Step(s, RequestCancel(r)), request.query);
            && r in t.requests && t.requests[r] == Done
            && t.queries == s.queries[q := s.queries[q].(causes :=
                 s.queries[q].causes + {ByRequest(request.key, request.readAt)})]
  {
  }

  /** A query that is being handled and has not ended can be cancelled through its connection. */
  predicate Reachable(s: State, c: ConnId) {
    Runs(s, c) && s.queries[s.running[c]].endedAt == None ==> c in s.current && s.current[c] == Some(s.running[c])
  }

  lemma StepReachable(s: State, a: Action, c: ConnId)
    requires Inv(s) && Reachable(s, c)
    ensures Reachable(Step(s, a), c)
  {
    assert ConnInOrder(s, c);
    if c in s.running {
      StepMoves(s, a, s.running[c]);
      StaysRegistered(s, a, c);
    } else {
      NewlyRunning(s, a, c);
    }
  }

  lemma StaysRegistered(s: State, a: Action, c: ConnId)
    requires ConnInOrder(s, c) && Reachable(s, c) && c in s.running
    ensures Reachable(Step(s, a), c)
  {
  }

  lemma NewlyRunning(s: State, a: Action, c: ConnId)
    requires c !in s.running
    ensures Reachable(Step(s, a), c)
  {
  }

  lemma {:induction false} RunReachable(s: State, actions: seq<Action>, c: ConnId)
    requires Inv(s) && Reachable(s, c)
    ensures Reachable(Run(s, actions), c)
    decreases |actions|
  {
    if actions != [] {
      StepReachable(s, actions[0], c);
      StepKeepsInv(s, actions[0]);
      RunReachable(Step(s, actions[0]), actions[1..], c);
    }
  }

  /** However the steps have interleaved: as long as a query has not ended, an undisturbed request
      that names the key of its connection cancels it, and no other query. */
  lemma RunningIsCancelled(actions: seq<Action>, r: RequestId, c: ConnId)
    requires CanBeAsked(Run(START, actions), r, c)
    ensures CancelsRunning(Run(START, actions), r, c)
  {
    RunKeepsInv(START, actions);
    RunReachable(START, actions, c);
    RequestReaches(Run(START, actions), r, c);
  }

  /** Connection `c` handles a query that has not ended, and request `r` is yet to come. */
  predicate CanBeAsked(s: State, r: RequestId, c: ConnId) {
    r !in s.requests && Runs(s, c) && s.queries[s.running[c]].endedAt == None
  }

  /** The request, naming the key of `c`, cancels just the query `c` handles. */
  ghost predicate CancelsRunning(s: State, r: RequestId, c: ConnId) {
    && c in s.running && c in s.keys
    && forall q :: q in s.queries ==>
         CancelledIn(s, Requested(s, r, s.keys[c]), q, Some(s.running[c]), ByRequest(s.keys[c], s.now + 1))
  }

  lemma RequestReaches(s: State, r: RequestId, c: ConnId)
    requires Inv(s) && Reachable(s, c) && CanBeAsked(s, r, c)
    ensures CancelsRunning(s, r, c)
  {
    assert ConnInOrder(s, c);
    RequestCancels(s, r, s.keys[c]);
  }

  /** The handling of a watched query runs to its end: the watcher goes without a cancellation,
      the registration is taken back, and the query's own cancel function is called once it is. */
  lemma HandlingEnds(s: State, c: ConnId, q: QueryId)
    requires Inv(s) && Runs(s, c) && s.running[c] == q
    requires s.queries[q].watcher == Blocked && !s.queries[q].stopping && s.queries[q].stoppedAt == None
    ensures var t := Step(Step(Step(Step(Step(Step(s,
                     Stop(c)), Wake(q)), Decide(q)), StopReturns(c)), End(c)), OwnCancel(c));
            && c !in t.running && t.current == s.current[c := None] && q in t.queries
            && t.queries[q].causes == s.queries[q].causes + {OwnEnd(s.now + 5)} && t.queries[q].watcher == Gone
  {
    assert ConnInOrder(s, c) && QueryInOrder(s, s.queries[q]);
    WatcherStops(s, c, q);
    var t := Step(Step(Step(Step(s, Stop(c)), Wake(q)), Decide(q)), StopReturns(c));
    UnwatchedEnds(t, c, q);
  }

  lemma WatcherStops(s: State, c: ConnId, q: QueryId)
    requires Runs(s, c) && s.running[c] == q
    requires s.queries[q].watcher == Blocked && !s.queries[q].stopping && s.queries[q].stoppedAt == None
    ensures var t := Step(Step(Step(Step(s, Stop(c)), Wake(q)), Decide(q)), StopReturns(c));
            && t.running == s.running && t.current == s.current && t.now == s.now + 4
            && t.queries ==
                 s.queries[q := s.queries[q].(watcher := Gone, stopping := true, stoppedAt := Some(s.now + 3))]
  {
  }

  /** From there on, or without a watcher from the start. */
  lemma UnwatchedEnds(s: State, c: ConnId, q: QueryId)
    requires Runs(s, c) && s.running[c] == q && c in s.current && s.queries[q].endedAt == None
    requires s.queries[q].watcher == Absent || s.queries[q].stoppedAt.Some?
    ensures var t := Step(Step(s, End(c)), OwnCancel(c));
            && c !in t.running && t.current == s.current[c := None] && q in t.queries
            && t.queries[q].causes == s.queries[q].causes + {OwnEnd(s.now + 1)}
            && t.queries[q].watcher == s.queries[q].watcher
  {
  }
}
