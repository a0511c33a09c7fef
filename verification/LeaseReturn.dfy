/**
 The other half of the supervisor's script: what each read and the start lead
 to in every play, and that a supervisor whose registration was acknowledged can
 always go on to return normally once Racket has exited and left nobody behind.
 */
module LeaseReturn {
  import opened Prelude
  import opened LeaseModel
  import opened LeaseInvariants
  import opened LeaseSupervisor
  import T = LeaseTaking

  /** What the guard has said to the supervisor. */
  function Said(y: System): seq<Reply> { if y.sup.conn.None? then [] else Replies(y.guard.sent, y.sup.conn.value) }

  lemma {:induction false} PlayTalk(ys: seq<System>, ms: seq<Move>, k: nat)
    requires IsPlay(ys, ms) && k < |ys|
    ensures var y := ys[k];
            && Said(y) in {[], [Go], [Stop], [Go, Release]} && Stream(y) == Bytes(Said(y))
            && (y.sup.phase in {Connecting, Waiting} ==> y.sup.taken == 0)
            && (y.sup.phase in {Cleared, Running, Finished} ==> y.sup.taken == 3 && Go in Said(y))
  {
    hide IsPlay, Inv, Talk, Replies, Bytes;
    PlaySound(ys, ms, k);
    var y := ys[k];
    if y.sup.conn.Some? {
      TalkScript(y.guard, y.guard.history, y.sup.conn.value, y.sup.pid);
    } else {
      BytesNothing();
    }
  }

  lemma {:induction false} FirstRead(said: seq<Reply>, n: nat)
    requires said in {[], [Go], [Stop], [Go, Release]} && n <= |Bytes(said)|
    ensures Bytes(said)[0..n] == "go\n" <==> n == 3 && Go in said
  {
    hide Bytes;
    BytesOf();
    if Bytes(said)[0..n] == "go\n" { HeardGo(said, n); }
  }

  lemma {:induction false} SecondRead(said: seq<Reply>, n: nat)
    requires said in {[], [Go], [Stop], [Go, Release]} && Go in said && 3 + n <= |Bytes(said)|
    ensures Bytes(said)[3..3 + n] == "release\n" <==> n == 8
  {
    hide Bytes;
    BytesOf();
    assert |Bytes(said)[3..3 + n]| == n;
    if n == 8 {
      assert said == [Go, Release];
      assert "go\nrelease\n"[3..11] == "release\n";
    }
  }

  /**
   Every read of every play: a waiting supervisor is cleared exactly by the three bytes of a `go`, one that has reported
   completion returns exactly on the eight bytes of a `release`, and any other read makes it kill its group.
   */
  lemma {:induction false} ReadMeans(ys: seq<System>, ms: seq<Move>, k: nat, n: nat)
    requires IsPlay(ys, ms) && k < |ys| && CanMove(ys[k], Recv(n))
    ensures
      var y, z := ys[k], Moved(ys[k], Recv(n));
      && z.guard == y.guard && z.sup == y.sup.(taken := y.sup.taken + n, phase := z.sup.phase)
      && z.sup.phase in {Cleared, Returned, Killing}
      && (z.sup.phase == Cleared <==> y.sup.phase == Waiting && n == 3 && Go in Said(y))
      && (z.sup.phase == Returned <==> y.sup.phase == Finished && n == 8 && Release in Said(y))
  {
    hide IsPlay, Bytes, Replies;
    PlayTalk(ys, ms, k);
    var y := ys[k];
    if y.sup.phase == Waiting { FirstRead(Said(y), n); }
    if y.sup.phase == Finished {
      SecondRead(Said(y), n);
      MoreMeansRelease(Said(y), n);
    }
  }

  lemma {:induction false} MoreMeansRelease(said: seq<Reply>, n: nat)
    requires said in {[], [Go], [Stop], [Go, Release]} && Go in said && 1 <= n && 3 + n <= |Bytes(said)|
    ensures Release in said
  {
    hide Bytes;
    BytesOf();
  }

  /** Racket starts exactly if the guard has said nothing after its `go`; otherwise the group is killed. */
  lemma {:induction false} StartMeans(ys: seq<System>, ms: seq<Move>, k: nat)
    requires IsPlay(ys, ms) && k < |ys| && CanMove(ys[k], Start)
    ensures
      var y, z := ys[k], Moved(ys[k], Start);
      && z.guard == y.guard
      && z.sup == if Said(y) == [Go] then y.sup.(phase := Running, started := true) else y.sup.(phase := Killing)
  {
    hide IsPlay, Bytes, Replies;
    PlayTalk(ys, ms, k);
    BytesOf();
  }

  // ---- A normal return -------------------------------------------------------------------

  /** The supervisor's registration is acknowledged, everything it sent was read and handled, and only it is left of its group. */
  ghost predicate Ready(y: System, c: Conn, rows: Snapshot, nonce: Nonce) {
    && y.sup.conn == Some(c) && c in y.guard.peers && y.guard.peers[c].role.Leader?
    && y.guard.peers[c].role.index < |y.guard.groups| && y.guard.groups[y.guard.peers[c].role.index].status == Acknowledged
    && y.guard.peers[c].inbox == [] && y.sup.delivered == |y.sup.out|
    && Fresh(y.guard, nonce) && T.Alone(rows, y.sup.pid)
  }

  lemma {:induction false} Extend(ys: seq<System>, ms: seq<Move>, m: Move)
    requires IsPlay(ys, ms) && CanMove(ys[|ms|], m)
    ensures IsPlay(ys + [Moved(ys[|ms|], m)], ms + [m])
  {
    hide CanMove, Moved;
    var zs, ns := ys + [Moved(ys[|ms|], m)], ms + [m];
    forall k | 0 <= k < |ns| ensures CanMove(zs[k], ns[k]) && zs[k + 1] == Moved(zs[k], ns[k]) {
      if k < |ms| { assert zs[k] == ys[k] && zs[k + 1] == ys[k + 1] && ns[k] == ms[k]; }
    }
  }

  lemma {:induction false} ReadySaid(ys: seq<System>, ms: seq<Move>, c: Conn, rows: Snapshot, nonce: Nonce)
    requires IsPlay(ys, ms) && Ready(ys[|ms|], c, rows, nonce)
    ensures Said(ys[|ms|]) == [Go] && Inv(ys[|ms|].guard) && ys[|ms|].guard.peers[c].pid == ys[|ms|].sup.pid
  {
    hide IsPlay, Inv, Replies, Fresh, SawAlone, T.Alone;
    PlaySize(ys, ms);
    PlaySound(ys, ms, |ms|);
  }

  /** Reading the `go`, starting Racket, and reaping it. */
  lemma {:induction false} PlayLaunches(ys: seq<System>, ms: seq<Move>, code: int)
    requires IsPlay(ys, ms) && ys[|ms|].sup.phase == Waiting && Said(ys[|ms|]) == [Go]
    ensures
      var y, zs, ns := ys[|ms|], Launched(ys, ms, code), ms + [Recv(3), Start, Reap(code)];
      IsPlay(zs, ns) && |zs| == |ys| + 3
  {
    hide IsPlay, Bytes, Replies;
    PlaySize(ys, ms);
    var y := ys[|ms|];
    PlayTalk(ys, ms, |ms|);
    BytesOf();
    ReadMeans(ys, ms, |ms|, 3);
    Extend(ys, ms, Recv(3));
    var y1, ys1, ms1 := y.(sup := y.sup.(taken := 3, phase := Cleared)), ys + [Moved(y, Recv(3))], ms + [Recv(3)];
    assert ys1[|ms1|] == y1;
    StartMeans(ys1, ms1, |ms1|);
    Extend(ys1, ms1, Start);
    var y2 := y1.(sup := y1.sup.(phase := Running, started := true));
    PlaySize(ys1, ms1);
    LaunchReaps(ys1 + [y2], ms1 + [Start], y2, code);
    assert ys1 + [y2] + [Reaped(y2, code)] == Launched(ys, ms, code);
    assert ms1 + [Start] + [Reap(code)] == ms + [Recv(3), Start, Reap(code)];
  }

  lemma {:induction false} PlaySize(ys: seq<System>, ms: seq<Move>)
    requires IsPlay(ys, ms)
    ensures |ys| == |ms| + 1
  {
  }

  function Reaped(y: System, code: int): System {
    y.(sup := y.sup.(phase := Finished, reaped := true, out := y.sup.out + [Done(Some(code))]))
  }

  lemma {:induction false} LaunchReaps(ys: seq<System>, ms: seq<Move>, y: System, code: int)
    requires IsPlay(ys, ms) && |ys| == |ms| + 1 && ys[|ms|] == y && y.sup.phase == Running
    ensures IsPlay(ys + [Reaped(y, code)], ms + [Reap(code)])
  {
    hide IsPlay;
    Extend(ys, ms, Reap(code));
  }

  /** The play while Racket runs. */
  function Launched(ys: seq<System>, ms: seq<Move>, code: int): seq<System>
    requires |ys| > |ms|
  {
    var y := ys[|ms|];
    var y1 := y.(sup := y.sup.(taken := 3, phase := Cleared));
    var y2 := y1.(sup := y1.sup.(phase := Running, started := true));
    ys + [y1, y2, Reaped(y2, code)]
  }

  /** The guard after it read the completion. */
  function Notified(s: State, c: Conn, code: int): State
    requires c in s.peers
  {
    s.(peers := s.peers[c := s.peers[c].(inbox := [Done(Some(code))])], history := s.history + [Receive(c, [Done(Some(code))], false)])
  }

  lemma {:induction false} Delivers(y: System, c: Conn, code: int)
    requires y.sup.conn == Some(c) && c in y.guard.peers && y.guard.peers[c].inbox == [] && Linked(y.guard)
    requires 0 < |y.sup.out| == y.sup.delivered + 1 && y.sup.out[y.sup.delivered] == Done(Some(code))
    ensures CanMove(y, Guard(Receive(c, [Done(Some(code))], false)))
    ensures Moved(y, Guard(Receive(c, [Done(Some(code))], false))) ==
            System(Notified(y.guard, c, code), y.sup.(delivered := |y.sup.out|))
  {
    var a := Receive(c, [Done(Some(code))], false);
    assert y.sup.out[y.sup.delivered..][..1] == [Done(Some(code))];
    assert [] + [Done(Some(code))] == [Done(Some(code))];
    assert Enabled(y.guard, a);
  }

  lemma {:induction false} NotifiedFresh(s: State, c: Conn, code: int, nonce: Nonce)
    requires c in s.peers && Fresh(s, nonce)
    ensures Fresh(Notified(s, c, code), nonce)
  {
  }

  /** The line that completes the lease. */
  function Completion(c: Conn, rows: Snapshot, nonce: Nonce, code: int): Action {
    Line(c, Done(Some(code)), rows, false, nonce, true)
  }

  lemma {:induction false} Completes(y: System, c: Conn, rows: Snapshot, nonce: Nonce, code: int)
    requires Inv(y.guard) && Linked(y.guard) && y.sup.conn == Some(c) && c in y.guard.peers && y.guard.peers[c].inbox == [Done(Some(code))]
    requires y.guard.peers[c].role.Leader? && y.guard.peers[c].role.index < |y.guard.groups|
    requires y.guard.groups[y.guard.peers[c].role.index].status == Acknowledged && y.guard.peers[c].pid == y.sup.pid
    requires Fresh(y.guard, nonce) && T.Alone(rows, y.sup.pid) && Said(y) == [Go]
    ensures CanMove(y, Guard(Completion(c, rows, nonce, code)))
    ensures Moved(y, Guard(Completion(c, rows, nonce, code))).sup == y.sup
    ensures Said(Moved(y, Guard(Completion(c, rows, nonce, code)))) == [Go, Release]
  {
    hide Groups, T.Alone, Launches, Unique, PendingLed, OnLine, Replies;
    var a, s := Completion(c, rows, nonce, code), y.guard;
    assert LeaderOk(s, c);
    T.LineDone(s, c, Done(Some(code)), rows, false, nonce, true);
    assert Enabled(s, a);
    RepliesSnoc(s.sent, Sent(c, Release, s.groups[s.peers[c].role.index].reservation, |s.history|), c);
    assert [Go] + [Release] == [Go, Release];
  }

  /** The moves from an acknowledged registration to a normal return. */
  function Homeward(c: Conn, rows: Snapshot, nonce: Nonce, code: int): seq<Move> {
    [Recv(3), Start, Reap(code)] + [Guard(Receive(c, [Done(Some(code))], false)), Guard(Completion(c, rows, nonce, code)), Recv(8)]
  }

  /**
   Every play in which the supervisor waits and its registration is acknowledged goes on to a normal return: it reads the
   `go`, starts and reaps Racket, the guard takes its `done` because nobody else of the group is alive, and it reads the
   `release`.
   */
  lemma {:induction false} AcknowledgedReturns(ys: seq<System>, ms: seq<Move>, c: Conn, rows: Snapshot, nonce: Nonce, code: int)
    requires IsPlay(ys, ms) && ys[|ms|].sup.phase == Waiting && Ready(ys[|ms|], c, rows, nonce)
    ensures exists zs: seq<System> :: IsPlay(zs, ms + Homeward(c, rows, nonce, code)) && ys <= zs && zs[|zs| - 1].sup.phase == Returned
  {
    hide IsPlay, Inv, Said, Fresh, T.Alone, Launched;
    PlaySize(ys, ms);
    ReadySaid(ys, ms, c, rows, nonce);
    PlayLaunches(ys, ms, code);
    var zs, ns := Launched(ys, ms, code), ms + [Recv(3), Start, Reap(code)];
    LaunchedEnd(ys, ms, code);
    Finishes(zs, ns, ys[|ms|], c, rows, nonce, code);
    var us: seq<System> :| IsPlay(us, ns + [Guard(Receive(c, [Done(Some(code))], false)), Guard(Completion(c, rows, nonce, code)), Recv(8)])
              && zs <= us && us[|us| - 1].sup.phase == Returned;
    assert ns + [Guard(Receive(c, [Done(Some(code))], false)), Guard(Completion(c, rows, nonce, code)), Recv(8)]
           == ms + Homeward(c, rows, nonce, code);
  }

  lemma {:induction false} LaunchedEnd(ys: seq<System>, ms: seq<Move>, code: int)
    requires |ys| == |ms| + 1
    ensures
      var y, zs := ys[|ms|], Launched(ys, ms, code);
      && |zs| == |ys| + 3 && ys <= zs
      && zs[|zs| - 1] == y.(sup := y.sup.(taken := 3, phase := Finished, started := true, reaped := true, out := y.sup.out + [Done(Some(code))]))
  {
  }

  /** From the reported completion on. */
  lemma {:induction false} Finishes(zs: seq<System>, ns: seq<Move>, y: System, c: Conn, rows: Snapshot, nonce: Nonce, code: int)
    requires IsPlay(zs, ns) && |zs| == |ns| + 1 && Ready(y, c, rows, nonce) && Inv(y.guard) && y.guard.peers[c].pid == y.sup.pid && Said(y) == [Go]
    requires zs[|ns|] == y.(sup := y.sup.(taken := 3, phase := Finished, started := true, reaped := true, out := y.sup.out + [Done(Some(code))]))
    ensures exists us: seq<System> :: IsPlay(us, ns + [Guard(Receive(c, [Done(Some(code))], false)), Guard(Completion(c, rows, nonce, code)), Recv(8)])
                         && zs <= us && us[|us| - 1].sup.phase == Returned
  {
    hide IsPlay, Inv, Fresh, T.Alone, Replies, CanMove, Moved, Linked, Said;
    var z, m1, m2 := zs[|ns|], Guard(Receive(c, [Done(Some(code))], false)), Guard(Completion(c, rows, nonce, code));
    InvParts(y.guard);
    Delivers(z, c, code);
    Extend(zs, ns, m1);
    var y1, zs1, ns1 := Moved(z, m1), zs + [Moved(z, m1)], ns + [m1];
    PlaySound(zs1, ns1, |ns1|);
    SoundInv(y1);
    InvParts(y1.guard);
    NotifiedFresh(y.guard, c, code, nonce);
    SameSaid(y, y1);
    Completes(y1, c, rows, nonce, code);
    Extend(zs1, ns1, m2);
    var y2, zs2, ns2 := Moved(y1, m2), zs1 + [Moved(y1, m2)], ns1 + [m2];
    LastRead(zs2, ns2, y2);
    var zs3 := zs2 + [Moved(y2, Recv(8))];
    assert ns2 + [Recv(8)] == ns + [m1, m2, Recv(8)];
    assert zs <= zs3 && zs3[|zs3| - 1].sup.phase == Returned;
  }

  lemma {:induction false} SameSaid(y: System, z: System)
    requires y.guard.sent == z.guard.sent && y.sup.conn == z.sup.conn
    ensures Said(y) == Said(z)
  {
  }

  lemma {:induction false} LastRead(ys: seq<System>, ms: seq<Move>, y: System)
    requires IsPlay(ys, ms) && |ys| == |ms| + 1 && ys[|ms|] == y && y.sup.phase == Finished && Said(y) == [Go, Release]
    ensures CanMove(y, Recv(8)) && Moved(y, Recv(8)).sup.phase == Returned && IsPlay(ys + [Moved(y, Recv(8))], ms + [Recv(8)])
  {
    hide IsPlay, Bytes, Replies;
    PlayTalk(ys, ms, |ms|);
    BytesOf();
    ReadMeans(ys, ms, |ms|, 8);
    Extend(ys, ms, Recv(8));
  }
}
