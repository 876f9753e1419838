/** The registry as the program keeps it (cmd/execdb/pgcancel.go): a map and one field per
    connection, updated in place.  Each locked section does to these what the action of the
    same name in `Cancel` does to its state, so what is proved there of all interleavings
    holds of these. */
module Registry {
  import opened Options
  import opened Cancel

  class ConnCancel {
    ghost const conn: ConnId
    var cancel: Option<QueryId>

    constructor (ghost conn: ConnId)
      ensures this.conn == conn && cancel == None
    {
      this.conn := conn;
      cancel := None;
    }

    /** cmd/execdb/pgcancel.go: begin, for a query not seen before. */
    method Begin(query: QueryId, ghost r: CancelRegistry, ghost s: State, ghost watched: bool)
      requires r.Shows(s) && conn in r.all && r.all[conn] == this
      requires conn in s.live && conn !in s.running && query !in s.queries
      modifies this
      ensures cancel == Some(query) && r.Shows(Step(s, Action.Begin(conn, query, watched)))
    {
      cancel := Some(query);
    }

    /** cmd/execdb/pgcancel.go: the function begin returns, called when stop has returned. */
    method End(ghost r: CancelRegistry, ghost s: State)
      requires r.Shows(s) && conn in r.all && r.all[conn] == this
      requires Runs(s, conn) && Ready(s.queries[s.running[conn]], Action.End(conn))
      modifies this
      ensures cancel == None && r.Shows(Step(s, Action.End(conn)))
    {
      cancel := None;
    }

    /** cmd/execdb/pgcancel.go: the locked half of cancelCurrent. */
    method Current() returns (query: Option<QueryId>)
      ensures query == cancel
    {
      return cancel;
    }
  }

  class CancelRegistry {
    var entries: map<Key, ConnCancel>
    // Every connCancel ever handed out, by connection.
    ghost var all: map<ConnId, ConnCancel>

    /** The fields hold what the state `s` says. */
    ghost predicate Shows(s: State)
      reads this, all.Values
    {
      && all.Keys == s.current.Keys && s.current.Keys == s.keys.Keys
      && (forall c :: c in all ==> all[c].conn == c && all[c].cancel == s.current[c])
      && entries.Keys == s.entries.Keys
      && (forall k :: k in entries ==> s.entries[k] in all && entries[k] == all[s.entries[k]])
    }

    constructor ()
      ensures Shows(START) && entries == map[] && all == map[]
    {
      entries, all := map[], map[];
    }

    /** cmd/execdb/pgcancel.go: register, drawing keys from `draws` until one is unused. */
    method Register(draws: seq<Key>, ghost conn: ConnId, ghost s: State) returns (key: Key, cc: ConnCancel)
      requires Shows(s) && conn !in s.keys
      requires exists i :: 0 <= i < |draws| && draws[i] !in entries
      modifies this
      ensures fresh(cc) && cc.conn == conn && conn in all && all[conn] == cc
      ensures key !in old(entries) && entries == old(entries)[key := cc]
      ensures exists i :: 0 <= i < |draws| && draws[i] == key && forall j :: 0 <= j < i ==> draws[j] in old(entries)
      ensures Shows(Step(s, Action.Register(conn, key)))
    {
      key := DrawKey(draws);
      RegisterStep(s, conn, key);
      cc := new ConnCancel(conn);
      entries := entries[key := cc];
      all := all[conn := cc];
    }

    method DrawKey(draws: seq<Key>) returns (key: Key)
      requires exists i :: 0 <= i < |draws| && draws[i] !in entries
      ensures exists i :: 0 <= i < |draws| && draws[i] == key && forall j :: 0 <= j < i ==> draws[j] in entries
      ensures key !in entries
    {
      var i := 0;
      while draws[i] in entries
        invariant 0 <= i < |draws| && forall j :: 0 <= j < i ==> draws[j] in entries
        invariant exists k :: i <= k < |draws| && draws[k] !in entries
        decreases |draws| - i
      {
        i := i + 1;
      }
      return draws[i];
    }

    /** cmd/execdb/pgcancel.go: the function register returns, called when the connection ends. */
    method Unregister(key: Key, ghost s: State)
      requires Shows(s) && key in entries
      requires s.entries[key] in s.live && s.entries[key] in s.keys && s.keys[s.entries[key]] == key
      requires s.entries[key] !in s.running
      modifies this`entries
      ensures entries == old(entries) - {key} && Shows(Step(s, Action.Unregister(s.entries[key])))
    {
      entries := entries - {key};
    }

    /** cmd/execdb/pgcancel.go: cancel, with no other step in between: `query` is the one whose
        cancel function is called.  It is the query registered on the connection that holds
        exactly this key, and on no other. */
    method Cancel(key: Key, ghost request: RequestId, ghost s: State) returns (ok: bool, query: Option<QueryId>)
      requires Shows(s) && Inv(s) && request !in s.requests
      ensures ok <==> key in entries
      ensures query == Target(s, key) && (query.Some? ==> query.value in s.queries)
      ensures Undisturbed(s, request, key).queries ==
              if query.Some? then WithCause(s, ReadQuery(key, query.value, s.now + 1)) else s.queries
    {
      UndisturbedCancels(s, request, key);
      if key !in entries {
        return false, None;
      }
      query := entries[key].Current();
      return true, query;
    }
  }

  lemma RegisterStep(s: State, conn: ConnId, key: Key)
    requires conn !in s.keys && key !in s.entries
    ensures var t := Step(s, Action.Register(conn, key));
            && t.keys == s.keys[conn := key] && t.entries == s.entries[key := conn]
                && t.current == s.current[conn := None]
  {
  }

  /** The three steps of a CancelRequest, one right after the other. */
  function Undisturbed(s: State, request: RequestId, key: Key): State {
    Step(Step(Step(s, Lookup(request, key)), Read(request)), RequestCancel(request))
  }

  /** What the query a key leads to is: the current one of the key's connection. */
  function Target(s: State, key: Key): Option<QueryId> {
    if key in s.entries && s.entries[key] in s.current then s.current[s.entries[key]] else None
  }

  predicate SameButRequests(s: State, t: State) {
    t.queries == s.queries && t.current == s.current
  }

  lemma LookedUpNext(s: State, request: RequestId, key: Key)
    requires request !in s.requests
    ensures var t := Step(s, Lookup(request, key));
            && SameButRequests(s, t) && t.now == s.now + 1 && request in t.requests
            && t.requests[request] == if key in s.entries then LookedUp(key, s.entries[key]) else Done
  {
  }

  lemma ReadNext(s: State, request: RequestId)
    requires request in s.requests
    requires s.requests[request].LookedUp? ==> s.requests[request].conn in s.current
    ensures var t := Step(s, Read(request));
            && SameButRequests(s, t) && request in t.requests
            && t.requests[request] ==
               if !s.requests[request].LookedUp? then s.requests[request]
               else match s.current[s.requests[request].conn]
                    case None => Done
                    case Some(q) => ReadQuery(s.requests[request].key, q, s.now)
  {
  }

  lemma CancelledNext(s: State, request: RequestId)
    requires request in s.requests
    requires s.requests[request].ReadQuery? ==> s.requests[request].query in s.queries
    ensures var t := Step(s, RequestCancel(request));
            t.queries == if s.requests[request].ReadQuery? then WithCause(s, s.requests[request]) else s.queries
  {
  }

  /** The queries once the one a request read has been cancelled by it. */
  function WithCause(s: State, r: Request): map<QueryId, Query>
    requires r.ReadQuery? && r.query in s.queries
  {
    var v := s.queries[r.query];
    s.queries[r.query := v.(causes := v.causes + {ByRequest(r.key, r.readAt)})]
  }

  /** Undisturbed, a request cancels the current query of the connection with its key, and
      nothing else. */
  lemma UndisturbedCancels(s: State, request: RequestId, key: Key)
    requires Inv(s) && request !in s.requests
    ensures Target(s, key).Some? ==> Target(s, key).value in s.queries
    ensures Undisturbed(s, request, key).queries ==
            if Target(s, key).Some? then WithCause(s, ReadQuery(key, Target(s, key).value, s.now + 1)) else s.queries
  {
    if key in s.entries {
      assert EntryInOrder(s, key);
      assert ConnInOrder(s, s.entries[key]);
    }
    LookedUpNext(s, request, key);
    var s1 := Step(s, Lookup(request, key));
    ReadNext(s1, request);
    CancelledNext(Step(s1, Read(request)), request);
  }
}
