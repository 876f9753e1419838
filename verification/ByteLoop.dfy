/** The message loop on the bytes of the connection (cmd/execdb/pgwire.go), with what the
    disconnect watcher reads of them while a Query runs. */
module ByteLoop {
  import opened Bytes
  import opened Options
  import opened PgTypes
  import opened Wire
  import P = Protocol
  import C = Connection
  import S = Server
  import T = TransactionLaws

  /** What a message says.  Its texts are characters, its bytes are not, so how the one comes
      from the other is left open. */
  type Decoder = Message -> P.Request

  /** Whether something sent after the n-th message arrives while that is still handled. */
  type Early = nat -> bool

  /** What is left for the loop: the watcher of a Query takes one byte of what arrives early,
      and does not give it back. */
  function LeftOver(r: P.Request, early: bool, rest: Data): (left: Data)
    ensures |left| <= |rest|
  {
    if r.Query? && early && rest != [] then rest[1..] else rest
  }

  /** handleConnection's loop on the bytes `s`, starting with the n-th message.  It waits where
      no whole message is left. */
  function Serve(w: C.World, decode: Decoder, early: Early, c: C.Conn, s: Data, n: nat): (C.Conn, seq<P.Reply>)
    decreases |s|
  {
    if !c.alive then (c, [])
    else match ReadFrame(s)
         case None => (c, [])
         case Some(f) =>
           var r := decode(f.0);
           var (c1, out) := C.Step(w, c, r);
           var (c2, more) := Serve(w, decode, early, c1, LeftOver(r, early(n), f.1), n + 1);
           (c2, out + more)
  }

  function DecodeAll(decode: Decoder, ms: seq<Message>): seq<P.Request> {
    if ms == [] then [] else [decode(ms[0])] + DecodeAll(decode, ms[1..])
  }

  /** Nothing is sent between a Query and its ReadyForQuery. */
  ghost predicate Patient(decode: Decoder, early: Early, ms: seq<Message>, n: nat) {
    forall i :: 0 <= i < |ms| - 1 && decode(ms[i]).Query? ==> !early(n + i)
  }

  /** A client that waits for the answer to each Query is served as the runs of `Connection`
      say, whatever it pipelines otherwise: its bytes are read as the messages it sent. */
  lemma {:induction false} PatientIsServed(w: C.World, decode: Decoder, early: Early, c: C.Conn, ms: seq<Message>,
      n: nat)
    requires (forall m :: m in ms ==> |m.body| + 4 < TWO_31) && Patient(decode, early, ms, n)
    ensures var (c1, outs) := C.Run(w, c, DecodeAll(decode, ms));
            Serve(w, decode, early, c, Frames(ms), n) == (c1, P.Stream(outs))
    decreases |ms|
  {
    var rs := DecodeAll(decode, ms);
    if !c.alive {
      S.DeadIsSilent(w, c, rs);
    } else if ms != [] {
      var r, rest := decode(ms[0]), Frames(ms[1..]);
      assert ms[0] in ms && rs[0] == r && rs[1..] == DecodeAll(decode, ms[1..]);
      FrameRoundTrip(ms[0], rest);
      var c1 := C.Step(w, c, r).0;
      PatientLater(decode, early, ms, n);
      if |ms| > 1 {
        assert r.Query? ==> !early(n + 0);
      }
      assert LeftOver(r, early(n), rest) == rest;
      PatientIsServed(w, decode, early, c1, ms[1..], n + 1);
      S.StreamOfRun(w, c, rs);
    }
  }

  lemma PatientLater(decode: Decoder, early: Early, ms: seq<Message>, n: nat)
    requires ms != [] && Patient(decode, early, ms, n)
    ensures Patient(decode, early, ms[1..], n + 1)
  {
    forall i | 0 <= i < |ms[1..]| - 1 && decode(ms[1..][i]).Query? ensures !early(n + 1 + i) {
      assert ms[1..][i] == ms[i + 1] && n + 1 + i == n + (i + 1);
    }
  }

  /** The type byte of Sync. */
  const SYNC: Byte := 83

  /** A Sync sent right behind a Query, before the answer, can lose its first byte to the
      watcher: it then is no message any more, and its ReadyForQuery never comes, which the run
      of the same two messages has. */
  lemma OvertakenSyncIsLost(w: C.World, decode: Decoder, early: Early, c: C.Conn, q: Message, n: nat)
    requires |q.body| + 4 < TWO_31 && decode(q).Query? && decode(Message(SYNC, [])) == P.Sync && early(n)
    requires c.alive
    ensures var (c1, out) := C.Step(w, c, decode(q));
            && Serve(w, decode, early, c, Frame(q) + Frame(Message(SYNC, [])), n) == (c1, out)
            && C.Run(w, c, [decode(q), P.Sync]).1 == [out, [P.ReadyForQuery(c1.txState)]]
  {
    var (c1, out) := C.Step(w, c, decode(q));
    var sync := Frame(Message(SYNC, []));
    FrameRoundTrip(q, sync);
    QueryStays(w, c, decode(q));
    assert ReadFrame(sync[1..]) == None;
    assert Serve(w, decode, early, c1, sync[1..], n + 1) == (c1, []);
    assert out + [] == out;
    assert [decode(q), P.Sync][1..] == [P.Sync] && [P.Sync][1..] == [];
    var c2 := C.Step(w, c1, P.Sync).0;
    assert C.Run(w, c2, []) == (c2, []);
    assert C.Run(w, c1, [P.Sync]).1 == [[P.ReadyForQuery(c1.txState)]];
  }

  lemma QueryStays(w: C.World, c: C.Conn, r: P.Request)
    requires c.alive && r.Query?
    ensures C.Step(w, c, r).0.alive
  {
    T.QueryKeepsMaps(w, c, r.sql);
  }
}
