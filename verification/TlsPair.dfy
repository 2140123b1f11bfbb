/** Two connections with an in-order channel each way: what is on its way, and whose turn it is. */
module TlsPair {
  import opened Wrappers
  import opened TlsTranscript

  function Pending(to: Conn, from: Conn): seq<Msg> {
    to.inbox + from.outbox
  }

  /** One side's messages are the other's, up to what is on its way, and only one side's messages are on their way. */
  ghost predicate Aligned(cc: Conn, sc: Conn) {
    || (sc.log + Pending(sc, cc) == cc.log && Pending(cc, sc) == [])
    || (cc.log + Pending(cc, sc) == sc.log && Pending(sc, cc) == [])
  }

  ghost predicate Paired(cc: Conn, sc: Conn) {
    && Aligned(cc, sc)
    && AllFrom(Pending(cc, sc), true) && AllFrom(Pending(sc, cc), false)
    && Truthful(cc.log) && Truthful(sc.log) && InTurn(cc.log) && InTurn(sc.log)
  }

  /** On its turn a side has nothing on its way to it. */
  lemma NothingComing(cc: Conn, sc: Conn)
    requires Paired(cc, sc)
    ensures TurnAfter(cc.log) != ServerTurn ==> Pending(cc, sc) == []
    ensures TurnAfter(sc.log) != ClientTurn ==> Pending(sc, cc) == []
  {
    hide TurnAfter;
    var p, q := Pending(cc, sc), Pending(sc, cc);
    if p != [] {
      assert sc.log[|cc.log|] == p[0] && sc.log[..|cc.log|] == cc.log;
    }
    if q != [] {
      assert cc.log[|sc.log|] == q[0] && cc.log[..|sc.log|] == sc.log;
    }
  }

  ghost predicate Sends(c: Conn, d: Conn, m: Msg) {
    d.log == c.log + [m] && d.outbox == c.outbox + [m] && d.inbox == c.inbox
  }

  ghost predicate Reads(c: Conn, d: Conn) {
    c.inbox != [] && d.log == c.log + [c.inbox[0]] && d.inbox == c.inbox[1..] && d.outbox == c.outbox
  }

  lemma ClientSends(cc: Conn, sc: Conn, m: Msg, dc: Conn)
    requires Paired(cc, sc) && TurnAfter(cc.log) == ClientTurn && !m.fromServer && TruthfulAt(m, cc.log)
             && Sends(cc, dc, m)
    ensures Paired(dc, sc)
  {
    hide TurnAfter, TruthfulAt;
    NothingComing(cc, sc);
    LogMore(cc.log, m);
    hide Truthful, InTurn;
    assert Pending(sc, dc) == Pending(sc, cc) + [m];
    assert sc.log + Pending(sc, cc) == cc.log;
    assert sc.log + (Pending(sc, cc) + [m]) == (sc.log + Pending(sc, cc)) + [m];
  }

  lemma ServerSends(cc: Conn, sc: Conn, m: Msg, dc: Conn)
    requires Paired(cc, sc) && TurnAfter(sc.log) == ServerTurn && m.fromServer && TruthfulAt(m, sc.log)
             && Sends(sc, dc, m)
    ensures Paired(cc, dc)
  {
    hide TurnAfter, TruthfulAt;
    NothingComing(cc, sc);
    LogMore(sc.log, m);
    hide Truthful, InTurn;
    assert Pending(cc, dc) == Pending(cc, sc) + [m];
    assert cc.log + Pending(cc, sc) == sc.log;
    assert cc.log + (Pending(cc, sc) + [m]) == (cc.log + Pending(cc, sc)) + [m];
  }

  lemma FrontHolds(log: seq<Msg>, n: nat)
    requires n <= |log| && Truthful(log) && InTurn(log)
    ensures Truthful(log[..n]) && InTurn(log[..n])
  {
    hide TurnAfter, TruthfulAt;
    forall i | 0 <= i < n
      ensures log[..n][..i] == log[..i]
    {
    }
  }

  lemma ClientReads(cc: Conn, sc: Conn, dc: Conn)
    requires Paired(cc, sc) && Reads(cc, dc)
    ensures Paired(dc, sc)
    ensures TurnAfter(cc.log) == ServerTurn && TruthfulAt(cc.inbox[0], cc.log) && |cc.log| < |sc.log|
            && sc.log[|cc.log|] == cc.inbox[0]
  {
    hide TurnAfter, TruthfulAt;
    var p := Pending(cc, sc);
    assert p[0] == cc.inbox[0] && Pending(dc, sc) == p[1..];
    assert sc.log == cc.log + ([p[0]] + p[1..]) == dc.log + p[1..];
    assert sc.log[|cc.log|] == p[0] && sc.log[..|cc.log|] == cc.log && dc.log == sc.log[..|dc.log|];
    FrontHolds(sc.log, |dc.log|);
  }

  lemma ServerReads(cc: Conn, sc: Conn, dc: Conn)
    requires Paired(cc, sc) && Reads(sc, dc)
    ensures Paired(cc, dc)
    ensures TurnAfter(sc.log) == ClientTurn && TruthfulAt(sc.inbox[0], sc.log) && |sc.log| < |cc.log|
            && cc.log[|sc.log|] == sc.inbox[0]
  {
    hide TurnAfter, TruthfulAt;
    var p := Pending(sc, cc);
    assert p[0] == sc.inbox[0] && Pending(dc, cc) == p[1..];
    assert cc.log == sc.log + ([p[0]] + p[1..]) == dc.log + p[1..];
    assert cc.log[|sc.log|] == p[0] && cc.log[..|sc.log|] == sc.log && dc.log == cc.log[..|dc.log|];
    FrontHolds(cc.log, |dc.log|);
  }

  /** A message moves from one side's outbox to the other's inbox. */
  lemma Moves(to: Conn, from: Conn)
    requires from.outbox != []
    ensures Pending(to.(inbox := to.inbox + [from.outbox[0]]), from.(outbox := from.outbox[1..])) == Pending(to, from)
  {
  }

  lemma SameMessages(cc: Conn, sc: Conn, dc: Conn)
    requires dc.log == cc.log && dc.inbox == cc.inbox && dc.outbox == cc.outbox
    ensures Paired(cc, sc) ==> Paired(dc, sc)
    ensures Paired(sc, cc) ==> Paired(sc, dc)
  {
  }
}
