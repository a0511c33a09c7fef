/**
 The guard and one supervisor together.  The supervisor sends a registration,
 waits for exactly `go`, starts Racket only if nothing else has arrived, reports
 `done` once Racket is reaped, and returns only on exactly `release`; on every
 other path it kills its own group.  The other peers of the guard are arbitrary.
 */
module LeaseSupervisor {
  import opened Prelude
  import opened LeaseModel
  import opened LeaseInvariants
  import opened LeaseHistory

  // ---- What the guard says on one connection -------------------------------------------

  /** The replies sent on connection `c`, in order. */
  function Replies(sent: seq<Sent>, c: Conn): seq<Reply> {
    if sent == [] then []
    else
      var x := sent[|sent| - 1];
      Replies(sent[..|sent| - 1], c) + if x.conn == c then [x.reply] else []
  }

  lemma {:induction false} RepliesSnoc(sent: seq<Sent>, x: Sent, c: Conn)
    ensures Replies(sent + [x], c) == Replies(sent, c) + if x.conn == c then [x.reply] else []
  {
    assert (sent + [x])[..|sent|] == sent;
  }

  /** The messages a supervisor sends. */
  predicate SupervisorTalk(ms: seq<Message>) {
    forall m :: m in ms ==> m.Register? || m.Done?
  }

  /** Connection `c` carries only a supervisor's messages. */
  predicate Lawful(a: Action, c: Conn) {
    a.Receive? && a.conn == c ==> SupervisorTalk(a.messages)
  }

  /** The guard took a `done` from `c` when its peer was the only live member of its group. */
  ghost predicate SawAlone(h: seq<Action>, c: Conn, pid: int) {
    exists k :: 0 <= k < |h| && h[k].Line? && h[k].conn == c && h[k].message.Done? && Live(h[k].rows, pid) == {pid}
  }

  predicate Spoken(status: GroupStatus, said: seq<Reply>) {
    match status
    case Pending => said == []
    case Acknowledged => said == [Go]
    case Releasing => said == [Go, Release]
    case Refused => said == [Stop]
    case _ => false
  }

  /** What was said to a supervisor's connection, by how far its registration has come. */
  ghost predicate Talk(s: State, h: seq<Action>, c: Conn, pid: int) {
    var said := Replies(s.sent, c);
    && said in {[], [Go], [Stop], [Go, Release]}
    && (Release in said ==> SawAlone(h, c, pid))
    && (c >= s.accepted ==> said == [])
    && (c in s.peers ==>
          && s.peers[c].pid == pid && SupervisorTalk(s.peers[c].inbox) && !s.peers[c].role.Parent?
          && (s.peers[c].role.NoRole? ==> said == [])
          && (s.peers[c].role.Leader? && s.peers[c].role.index < |s.groups| ==> Spoken(s.groups[s.peers[c].role.index].status, said)))
  }

  lemma {:induction false} SawAloneGrows(h: seq<Action>, a: Action, c: Conn, pid: int)
    requires SawAlone(h, c, pid)
    ensures SawAlone(h + [a], c, pid)
  {
    var k :| 0 <= k < |h| && h[k].Line? && h[k].conn == c && h[k].message.Done? && Live(h[k].rows, pid) == {pid};
    assert (h + [a])[k] == h[k];
  }

  lemma {:induction false} TalkGrows(s: State, h: seq<Action>, a: Action, c: Conn, pid: int)
    requires Talk(s, h, c, pid)
    ensures Talk(s, h + [a], c, pid)
  {
    hide SawAlone;
    if Release in Replies(s.sent, c) { SawAloneGrows(h, a, c, pid); }
  }

  /** Nothing happened on `c`. */
  predicate SameView(s: State, t: State, c: Conn) {
    && Replies(t.sent, c) == Replies(s.sent, c)
    && (c in t.peers ==> c in s.peers && t.peers[c] == s.peers[c])
    && (c in t.peers && t.peers[c].role.Leader? && t.peers[c].role.index < |t.groups| ==>
          t.peers[c].role.index < |s.groups| && t.groups[t.peers[c].role.index].status == s.groups[t.peers[c].role.index].status)
    && s.accepted <= t.accepted
  }

  lemma {:induction false} SameViewTalk(s: State, t: State, h: seq<Action>, c: Conn, pid: int)
    requires Talk(s, h, c, pid) && SameView(s, t, c)
    ensures Talk(t, h, c, pid)
  {
  }

  lemma {:induction false} SameViewTrans(s: State, t: State, u: State, c: Conn)
    requires SameView(s, t, c) && SameView(t, u, c)
    ensures SameView(s, u, c)
  {
  }

  /** A line says at most one thing, to its own peer. */
  lemma {:induction false} LineSays(s: State, d: Conn, m: Message, rows: Snapshot, stopping: bool, nonce: Nonce, sendOk: bool)
    requires Linked(s) && d in s.peers && s.peers[d].inbox != []
    ensures
      var t := OnLine(s, d, m, rows, stopping, nonce, sendOk).s;
      t.sent == s.sent || (|t.sent| == |s.sent| + 1 && t.sent[..|s.sent|] == s.sent && t.sent[|s.sent|].conn == d)
  {
  }

  /** A line changes no group but its own peer's. */
  lemma {:induction false} LineGroups(s: State, d: Conn, m: Message, rows: Snapshot, stopping: bool, nonce: Nonce, sendOk: bool, i: nat)
    requires Linked(s) && d in s.peers && s.peers[d].inbox != [] && i < |s.groups| && s.peers[d].role != Leader(i)
    ensures
      var t := OnLine(s, d, m, rows, stopping, nonce, sendOk).s;
      i < |t.groups| && t.groups[i].status == s.groups[i].status
  {
  }

  lemma {:induction false} LinePeers(s: State, d: Conn, m: Message, rows: Snapshot, stopping: bool, nonce: Nonce, sendOk: bool, c: Conn)
    requires Linked(s) && d in s.peers && s.peers[d].inbox != [] && c != d
    ensures
      var t := OnLine(s, d, m, rows, stopping, nonce, sendOk).s;
      t.accepted == s.accepted && (c in t.peers <==> c in s.peers) && (c in s.peers ==> t.peers[c] == s.peers[c])
  {
  }

  /** A line of another connection. */
  lemma {:induction false} OtherLine(s: State, d: Conn, m: Message, rows: Snapshot, stopping: bool, nonce: Nonce, sendOk: bool, c: Conn)
    requires Inv(s) && d in s.peers && s.peers[d].inbox != [] && c != d
    ensures SameView(s, OnLine(s, d, m, rows, stopping, nonce, sendOk).s, c)
  {
    hide OnLine, Inv, Replies;
    InvParts(s);
    var t := OnLine(s, d, m, rows, stopping, nonce, sendOk).s;
    LineSays(s, d, m, rows, stopping, nonce, sendOk);
    LinePeers(s, d, m, rows, stopping, nonce, sendOk, c);
    if t.sent != s.sent {
      RepliesSnoc(s.sent, t.sent[|s.sent|], c);
      assert t.sent == s.sent + [t.sent[|s.sent|]];
    }
    if c in s.peers && s.peers[c].role.Leader? {
      assert LeaderOk(s, c);
      LineGroups(s, d, m, rows, stopping, nonce, sendOk, s.peers[c].role.index);
    }
  }

  /** A line of the supervisor itself: its registration, or its `done`. */
  lemma {:induction false} OwnLine(s: State, a: Action, c: Conn, pid: int)
    requires Inv(s) && a.Line? && Enabled(s, a) && a.conn == c && Talk(s, s.history, c, pid)
    ensures Talk(OnLine(s, c, a.message, a.rows, a.stopping, a.nonce, a.sendOk).s, s.history + [a], c, pid)
  {
    hide SawAlone, Replies;
    TalkGrows(s, s.history, a, c, pid);
    var m := a.message;
    assert m in s.peers[c].inbox;
    assert LeaderOk(s, c);
    var t := OnLine(s, c, m, a.rows, a.stopping, a.nonce, a.sendOk).s;
    var tail := s.peers[c].inbox[1..];
    assert forall x :: x in tail ==> x in s.peers[c].inbox;
    assert SupervisorTalk(t.peers[c].inbox);
    if t.sent != s.sent {
      var i := s.peers[c].role.index;
      RepliesSnoc(s.sent, Sent(c, Release, s.groups[i].reservation, |s.history|), c);
      assert [Go] + [Release] == [Go, Release];
      assert SawAlone(s.history + [a], c, pid) by { DoneSawAlone(s.history, a, c, pid); }
    }
  }

  lemma {:induction false} DoneSawAlone(h: seq<Action>, a: Action, c: Conn, pid: int)
    requires a.Line? && a.conn == c && a.message.Done? && Live(a.rows, pid) == {pid}
    ensures SawAlone(h + [a], c, pid)
  {
    assert (h + [a])[|h|] == a;
  }

  lemma {:induction false} AnswerTalk(s: State, d: Conn, stopping: bool, h: seq<Action>, c: Conn, pid: int)
    requires Inv(s) && Answered(s, d, stopping) && Talk(s, h, c, pid)
    ensures Talk(Answer(s, d, stopping), h, c, pid)
  {
    hide SawAlone, Replies;
    var i := s.peers[d].role.index;
    RepliesSnoc(s.sent, Sent(d, if stopping then Stop else Go, s.groups[i].reservation, |s.history|), c);
    assert [] + [Go] == [Go] && [] + [Stop] == [Stop] && Replies(s.sent, c) + [] == Replies(s.sent, c);
    if c in s.peers { assert LeaderOk(s, c); }
    assert LeaderOk(s, d);
  }

  lemma {:induction false} AckTalk(s: State, d: Conn, stopping: bool, failing: set<Conn>, h: seq<Action>, c: Conn, pid: int)
    requires Inv(s) && Talk(s, h, c, pid)
    ensures Talk(AckFrom(s, d, stopping, failing).s, h, c, pid)
    decreases s.accepted - d
  {
    hide Inv, Talk, Answer, Answered;
    InvParts(s);
    if d < s.accepted {
      if !Answered(s, d, stopping) {
        AckTalk(s, d + 1, stopping, failing, h, c, pid);
      } else {
        AnswerTalk(s, d, stopping, h, c, pid);
        AnswerKeeps(s, d, stopping);
        AnswerLinked(s, d, stopping);
        if d !in failing { AckTalk(Answer(s, d, stopping), d + 1, stopping, failing, h, c, pid); }
      }
    }
  }

  lemma {:induction false} DrainView(s: State, i: nat, rows: Snapshot, now: int, c: Conn)
    requires Inv(s) && Settled(s)
    ensures SameView(s, DrainFrom(s, i, rows, now).s, c)
    decreases |s.groups| - i
  {
    hide Inv, Settled, Live, SameView, Forward;
    InvParts(s);
    SameViewRefl(s, c);
    if i < |s.groups| {
      if s.groups[i].status == Leaving && Live(rows, s.groups[i].pid) == {} {
        DrainStep(s, i);
        var t := Advance(s, i, Left, Drained, s.groups[i].deadline);
        DrainStepView(s, i, c);
        DrainView(t, i + 1, rows, now, c);
        SameViewTrans(s, t, DrainFrom(t, i + 1, rows, now).s, c);
      } else {
        DrainView(s, i + 1, rows, now, c);
      }
    }
  }

  lemma {:induction false} SameViewRefl(s: State, c: Conn)
    ensures SameView(s, s, c)
  {
  }

  lemma {:induction false} DrainStepView(s: State, i: nat, c: Conn)
    requires Inv(s) && i < |s.groups| && s.groups[i].status == Leaving
    ensures SameView(s, Advance(s, i, Left, Drained, s.groups[i].deadline), c)
  {
    if c in s.peers { assert LeaderOk(s, c); }
  }

  lemma {:induction false} FinishTalk(s: State, rows: Snapshot, stopping: bool, now: int, failing: set<Conn>, h: seq<Action>, c: Conn, pid: int)
    requires Inv(s) && Talk(s, h, c, pid)
    ensures Talk(OnFinish(s, rows, stopping, now, failing).s, h, c, pid)
  {
    hide Inv, Talk, AckFrom, DrainFrom, Settled, SameView, Forward;
    InvParts(s);
    AckTalk(s, 0, stopping, failing, h, c, pid);
    AckKeeps(s, 0, stopping, failing);
    var acked := AckFrom(s, 0, stopping, failing);
    if acked.ok {
      AckSettles(s, stopping, failing);
      InvParts(acked.s);
      DrainView(acked.s, 0, rows, now, c);
      var drained := DrainFrom(acked.s, 0, rows, now);
      SameViewTalk(acked.s, drained.s, h, c, pid);
      if drained.ok {
        RetireView(drained.s, rows, c);
        SameViewTalk(drained.s, Retire(drained.s, rows), h, c, pid);
      }
    }
  }

  lemma {:induction false} RetireView(s: State, rows: Snapshot, c: Conn)
    ensures SameView(s, Retire(s, rows), c)
  {
  }

  lemma {:induction false} HangupView(s: State, d: Conn, rows: Snapshot, now: int, c: Conn)
    requires Inv(s) && d in s.peers
    ensures SameView(s, OnHangup(s, d, rows, now), c)
  {
    if c in s.peers { assert LeaderOk(s, c); }
    assert LeaderOk(s, d);
  }

  lemma {:induction false} RevokeView(s: State, c: Conn)
    ensures SameView(s, OnRevoke(s), c)
  {
  }

  lemma {:induction false} ReceiveTalk(s: State, a: Action, h: seq<Action>, c: Conn, pid: int)
    requires a.Receive? && Enabled(s, a) && Lawful(a, c) && Talk(s, h, c, pid)
    ensures Talk(Effect(s, a).s, h, c, pid)
  {
    hide SawAlone, Replies;
    if a.conn == c {
      assert SupervisorTalk(s.peers[c].inbox + a.messages);
    }
  }

  lemma {:induction false} AcceptTalk(s: State, a: Action, h: seq<Action>, c: Conn, pid: int)
    requires Inv(s) && a.Accept? && Enabled(s, a) && (a.conn == c ==> a.pid == pid) && Talk(s, h, c, pid)
    ensures Talk(Effect(s, a).s, h, c, pid)
  {
    hide SawAlone, Replies;
    if c in s.peers { assert LeaderOk(s, c); }
  }

  /** Whatever the other peers do, the guard keeps to the script on a supervisor's connection. */
  lemma {:induction false} StepTalk(s: State, a: Action, c: Conn, pid: int)
    requires Inv(s) && Enabled(s, a) && Lawful(a, c) && (a.Accept? && a.conn == c ==> a.pid == pid)
    requires Talk(s, s.history, c, pid)
    ensures Talk(Step(s, a).s, s.history + [a], c, pid)
  {
    hide Inv, Talk, OnLine, OnFinish, OnHangup, OnRevoke, SameView;
    InvParts(s);
    TalkGrows(s, s.history, a, c, pid);
    var h, t := s.history + [a], Effect(s, a).s;
    match a {
      case Bind(_) => PlainView(s, t, c); SameViewTalk(s, t, h, c, pid);
      case Accept(_, _) => AcceptTalk(s, a, h, c, pid);
      case Receive(_, _, _) => ReceiveTalk(s, a, h, c, pid);
      case Drop(_) => PlainView(s, t, c); SameViewTalk(s, t, h, c, pid);
      case Line(d, m, rows, stopping, nonce, sendOk) =>
        if d == c {
          OwnLine(s, a, c, pid);
        } else {
          OtherLine(s, d, m, rows, stopping, nonce, sendOk, c);
          SameViewTalk(s, t, h, c, pid);
        }
      case Hangup(d, rows, now) => HangupView(s, d, rows, now, c); SameViewTalk(s, t, h, c, pid);
      case Finish(rows, stopping, now, failing) => FinishTalk(s, rows, stopping, now, failing, h, c, pid);
      case Revoke => RevokeView(s, c); SameViewTalk(s, t, h, c, pid);
    }
    TalkIgnoresHistory(t, h, c, pid);
  }

  lemma {:induction false} PlainView(s: State, t: State, c: Conn)
    requires t.sent == s.sent && t.groups == s.groups && t.accepted == s.accepted
    requires forall d :: d in t.peers ==> d in s.peers && t.peers[d] == s.peers[d]
    ensures SameView(s, t, c)
  {
  }

  lemma {:induction false} TalkIgnoresHistory(t: State, h: seq<Action>, c: Conn, pid: int)
    requires Talk(t, h, c, pid)
    ensures Talk(t.(history := h), h, c, pid)
  {
  }

  // ---- The supervisor ---------------------------------------------------------------------

  /**
   Where `supervise` is: before its registration, waiting for the first answer, cleared to start,
   running Racket, waiting for the release, returned, or killing its own group.
   */
  datatype Phase = Connecting | Waiting | Cleared | Running | Finished | Returned | Killing

  /** `out` is what it has sent, `delivered` how much of that the guard has read, `taken` the bytes it has read. */
  datatype Supervisor = Supervisor(pid: int, conn: Option<Conn>, phase: Phase, started: bool, reaped: bool,
                                   out: seq<Message>, delivered: nat, taken: nat)

  datatype System = System(guard: State, sup: Supervisor)

  function Wire(r: Reply): string {
    match r
    case Token(n) => n + "\n"
    case Stop => "stop\n"
    case Recorded => "recorded\n"
    case Go => "go\n"
    case Release => "release\n"
  }

  function Bytes(rs: seq<Reply>): string {
    if rs == [] then "" else Bytes(rs[..|rs| - 1]) + Wire(rs[|rs| - 1])
  }

  /** All bytes the guard has sent to the supervisor. */
  function Stream(y: System): string {
    if y.sup.conn.None? then "" else Bytes(Replies(y.guard.sent, y.sup.conn.value))
  }

  datatype Move =
    | Guard(a: Action)                                 // any action of the guard
    | Connect                                          // the supervisor's connection is accepted
    | SendRegister(reservation: Nonce)
    | Recv(n: nat)                                     // a read of 1 to 64 of the bytes sent
    | Start                                            // nothing readable, and Racket starts
    | Reap(returncode: int)                            // Racket has exited: report it
    | Fail                                             // end of file, timeout, signal or any other exception

  /** The guard reads from the supervisor's connection exactly what the supervisor sent, in order. */
  predicate Faithful(y: System, a: Action) {
    && (a.Receive? && Some(a.conn) == y.sup.conn ==>
          y.sup.delivered + |a.messages| <= |y.sup.out| && a.messages == y.sup.out[y.sup.delivered..][..|a.messages|])
    && (a.Accept? ==> Some(a.conn) != y.sup.conn)
  }

  predicate CanMove(y: System, m: Move) {
    match m
    case Guard(a) => Enabled(y.guard, a) && Faithful(y, a)
    case Connect => y.sup.phase == Connecting && y.sup.conn.None? && Enabled(y.guard, Accept(y.guard.accepted, y.sup.pid))
    case SendRegister(_) => y.sup.phase == Connecting && y.sup.conn.Some?
    case Recv(n) => y.sup.phase in {Waiting, Running, Finished} && 1 <= n <= 64 && y.sup.taken + n <= |Stream(y)|
    case Start => y.sup.phase == Cleared
    case Reap(_) => y.sup.phase == Running
    case Fail => y.sup.phase != Returned
  }

  function Moved(y: System, m: Move): System
    requires CanMove(y, m)
  {
    var p := y.sup;
    match m
    case Guard(a) =>
      System(Step(y.guard, a).s,
             if a.Receive? && Some(a.conn) == p.conn then p.(delivered := p.delivered + |a.messages|) else p)
    case Connect => System(Step(y.guard, Accept(y.guard.accepted, p.pid)).s, p.(conn := Some(y.guard.accepted)))
    case SendRegister(n) => y.(sup := p.(out := p.out + [Register(n, Some(p.pid), CONTRACT, true)], phase := Waiting))
    case Recv(n) =>
      var read := Stream(y)[p.taken..p.taken + n];
      y.(sup := p.(taken := p.taken + n,
                   phase := if p.phase == Waiting && read == "go\n" then Cleared
                            else if p.phase == Finished && read == "release\n" then Returned
                            else Killing))
    case Start =>
      if p.taken < |Stream(y)| then y.(sup := p.(phase := Killing))
      else y.(sup := p.(phase := Running, started := true))
    case Reap(code) => y.(sup := p.(reaped := true, out := p.out + [Done(Some(code))], phase := Finished))
    case Fail => y.(sup := p.(phase := Killing))
  }

  ghost predicate IsPlay(ys: seq<System>, ms: seq<Move>) {
    && |ys| == |ms| + 1
    && ys[0].guard == INITIAL && ys[0].sup == Supervisor(ys[0].sup.pid, None, Connecting, false, false, [], 0, 0)
    && forall k :: 0 <= k < |ms| ==> CanMove(ys[k], ms[k]) && ys[k + 1] == Moved(ys[k], ms[k])
  }

  /** Racket runs only under a consumed `go`; `done` is sent only after Racket was reaped. */
  ghost predicate Sound(y: System) {
    && Inv(y.guard)
    && SupervisorTalk(y.sup.out)
    && (y.sup.conn.None? ==> y.sup.phase in {Connecting, Killing} && y.sup.out == [] && y.sup.taken == 0)
    && (y.sup.conn.Some? ==> Talk(y.guard, y.guard.history, y.sup.conn.value, y.sup.pid) && y.sup.conn.value < y.guard.accepted)
    && (y.sup.phase in {Connecting, Waiting} ==> y.sup.taken == 0)
    && (y.sup.phase in {Cleared, Running, Finished} ==> y.sup.taken == 3)
    && (y.sup.phase in {Cleared, Running, Finished, Returned} || y.sup.started ==>
          y.sup.conn.Some? && Go in Replies(y.guard.sent, y.sup.conn.value))
    && (y.sup.phase in {Running, Finished, Returned} || y.sup.reaped ==> y.sup.started)
    && (y.sup.phase in {Finished, Returned} || (exists m :: m in y.sup.out && m.Done?) ==> y.sup.reaped)
    && (y.sup.phase == Returned ==> y.sup.conn.Some? && SawAlone(y.guard.history, y.sup.conn.value, y.sup.pid))
  }

  lemma {:induction false} BytesOf()
    ensures Bytes([]) == "" && Bytes([Go]) == "go\n" && Bytes([Stop]) == "stop\n" && Bytes([Go, Release]) == "go\nrelease\n"
  {
    hide Bytes;
    BytesNothing();
    BytesSnoc([], Go);
    BytesSnoc([], Stop);
    BytesSnoc([Go], Release);
    assert [] + [Go] == [Go] && [] + [Stop] == [Stop] && [Go] + [Release] == [Go, Release];
    assert "" + "go\n" == "go\n" && "" + "stop\n" == "stop\n" && "go\n" + "release\n" == "go\nrelease\n";
  }

  lemma {:induction false} BytesNothing()
    ensures Bytes([]) == ""
  {
  }

  lemma {:induction false} BytesSnoc(rs: seq<Reply>, r: Reply)
    ensures Bytes(rs + [r]) == Bytes(rs) + Wire(r)
  {
    assert (rs + [r])[..|rs|] == rs;
  }

  lemma {:induction false} SoundRecv(y: System, n: nat)
    requires Sound(y) && CanMove(y, Recv(n))
    ensures Sound(Moved(y, Recv(n)))
  {
    hide Inv, SawAlone, Replies, Bytes, Talk;
    var said := Replies(y.guard.sent, y.sup.conn.value);
    TalkScript(y.guard, y.guard.history, y.sup.conn.value, y.sup.pid);
    var read := Stream(y)[y.sup.taken..y.sup.taken + n];
    if y.sup.phase == Waiting && read == "go\n" { HeardGo(said, n); }
    if y.sup.phase == Finished && read == "release\n" { HeardRelease(said, n); }
  }

  lemma {:induction false} HeardGo(said: seq<Reply>, n: nat)
    requires said in {[], [Go], [Stop], [Go, Release]} && n <= |Bytes(said)| && Bytes(said)[0..n] == "go\n"
    ensures Go in said && n == 3
  {
    hide Bytes;
    BytesOf();
    assert |Bytes(said)[0..n]| == 3 && Bytes(said)[0..n][0] == 'g' == Bytes(said)[0];
    assert said != [] && said != [Stop];
  }

  lemma {:induction false} HeardRelease(said: seq<Reply>, n: nat)
    requires said in {[], [Go], [Stop], [Go, Release]} && Go in said
    requires 3 + n <= |Bytes(said)| && Bytes(said)[3..3 + n] == "release\n"
    ensures Release in said
  {
    hide Bytes;
    BytesOf();
    assert |Bytes(said)[3..3 + n]| == 8;
  }

  lemma {:induction false} TalkScript(s: State, h: seq<Action>, c: Conn, pid: int)
    requires Talk(s, h, c, pid)
    ensures Replies(s.sent, c) in {[], [Go], [Stop], [Go, Release]} && (Release in Replies(s.sent, c) ==> SawAlone(h, c, pid))
  {
  }

  /** Replies on a connection are only ever added. */
  lemma {:induction false} RepliesGrow(s: seq<Sent>, t: seq<Sent>, c: Conn)
    requires s <= t
    ensures Replies(s, c) <= Replies(t, c)
    decreases |t|
  {
    if s == t {
    } else {
      RepliesGrow(s, t[..|t| - 1], c);
    }
  }

  lemma {:induction false} SoundGuard(y: System, a: Action)
    requires Sound(y) && CanMove(y, Guard(a))
    ensures Sound(Moved(y, Guard(a)))
  {
    hide Inv, SawAlone, Replies, Talk, Forward, Enabled, Effect;
    StepKeeps(y.guard, a);
    AcceptedGrows(y.guard, a);
    if y.sup.conn.Some? {
      var c := y.sup.conn.value;
      LawfulDelivery(y, a, c);
      StepTalk(y.guard, a, c, y.sup.pid);
      SentGrows(y.guard, Step(y.guard, a).s);
      RepliesGrow(y.guard.sent, Step(y.guard, a).s.sent, c);
      if y.sup.phase == Returned { SawAloneGrows(y.guard.history, a, c, y.sup.pid); }
    }
  }

  lemma {:induction false} SentGrows(s: State, t: State)
    requires Forward(s, t)
    ensures s.sent <= t.sent
  {
  }

  lemma {:induction false} LawfulDelivery(y: System, a: Action, c: Conn)
    requires SupervisorTalk(y.sup.out) && Faithful(y, a) && y.sup.conn == Some(c)
    ensures Lawful(a, c)
  {
    if a.Receive? && a.conn == c {
      forall m | m in a.messages ensures m in y.sup.out { assert m in y.sup.out[y.sup.delivered..][..|a.messages|]; }
    }
  }

  lemma {:induction false} FreshTalk(s: State, pid: int)
    requires Inv(s) && Enabled(s, Accept(s.accepted, pid)) && Replies(s.sent, s.accepted) == []
    ensures Talk(Step(s, Accept(s.accepted, pid)).s, s.history + [Accept(s.accepted, pid)], s.accepted, pid)
  {
  }

  /** Nothing is ever said to a connection that was not accepted yet. */
  ghost predicate NothingAhead(s: State) {
    forall k :: 0 <= k < |s.sent| ==> s.sent[k].conn < s.accepted
  }

  lemma {:induction false} AheadIsSilent(sent: seq<Sent>, c: Conn)
    requires forall k :: 0 <= k < |sent| ==> sent[k].conn != c
    ensures Replies(sent, c) == []
  {
    if sent != [] { AheadIsSilent(sent[..|sent| - 1], c); }
  }

  lemma {:induction false} AckAhead(s: State, c: Conn, stopping: bool, failing: set<Conn>)
    requires Inv(s) && NothingAhead(s)
    ensures NothingAhead(AckFrom(s, c, stopping, failing).s)
    decreases s.accepted - c
  {
    hide Inv, Answer, Answered;
    InvParts(s);
    if c < s.accepted {
      if !Answered(s, c, stopping) {
        AckAhead(s, c + 1, stopping, failing);
      } else {
        AnswerKeeps(s, c, stopping);
        AnswerLinked(s, c, stopping);
        AnswerFacts(s, c, stopping);
        if c !in failing { AckAhead(Answer(s, c, stopping), c + 1, stopping, failing); }
      }
    }
  }

  lemma {:induction false} StepAhead(s: State, a: Action)
    requires Inv(s) && NothingAhead(s) && Enabled(s, a)
    ensures NothingAhead(Step(s, a).s)
  {
    hide Inv, OnLine, AckFrom, DrainFrom, Retire, Settled, Forward;
    InvParts(s);
    if a.Line? {
      LineSays(s, a.conn, a.message, a.rows, a.stopping, a.nonce, a.sendOk);
      LineAccepted(s, a.conn, a.message, a.rows, a.stopping, a.nonce, a.sendOk);
      var t := OnLine(s, a.conn, a.message, a.rows, a.stopping, a.nonce, a.sendOk).s;
      assert forall k :: 0 <= k < |s.sent| ==> t.sent[..|s.sent|][k] == t.sent[k];
    } else if a.Finish? {
      AckAhead(s, 0, a.stopping, a.failing);
      AckKeeps(s, 0, a.stopping, a.failing);
      var acked := AckFrom(s, 0, a.stopping, a.failing);
      if acked.ok {
        AckSettles(s, a.stopping, a.failing);
        InvParts(acked.s);
        DrainKeeps(acked.s, 0, a.rows, a.now);
        DrainAccepted(acked.s, 0, a.rows, a.now);
        RetireFrame(DrainFrom(acked.s, 0, a.rows, a.now).s, a.rows);
      }
    }
  }

  lemma {:induction false} LineAccepted(s: State, c: Conn, m: Message, rows: Snapshot, stopping: bool, nonce: Nonce, sendOk: bool)
    requires Linked(s) && c in s.peers && s.peers[c].inbox != []
    ensures OnLine(s, c, m, rows, stopping, nonce, sendOk).s.accepted == s.accepted && c < s.accepted
  {
  }

  lemma {:induction false} SoundMove(y: System, m: Move)
    requires Sound(y) && NothingAhead(y.guard) && CanMove(y, m)
    ensures Sound(Moved(y, m)) && NothingAhead(Moved(y, m).guard)
  {
    hide Inv, SawAlone, Replies, Talk, Forward, Effect, Enabled, NothingAhead;
    match m {
      case Guard(a) => SoundGuard(y, a); StepAhead(y.guard, a);
      case Connect =>
        var a := Accept(y.guard.accepted, y.sup.pid);
        StepKeeps(y.guard, a);
        AcceptedGrows(y.guard, a);
        StepAhead(y.guard, a);
        AheadSilent(y.guard);
        FreshTalk(y.guard, y.sup.pid);
      case SendRegister(_) =>
      case Recv(n) => SoundRecv(y, n);
      case Start =>
      case Reap(_) =>
      case Fail =>
    }
  }

  lemma {:induction false} AheadSilent(s: State)
    requires NothingAhead(s)
    ensures Replies(s.sent, s.accepted) == []
  {
    AheadIsSilent(s.sent, s.accepted);
  }

  lemma {:induction false} PlaySound(ys: seq<System>, ms: seq<Move>, k: nat)
    requires IsPlay(ys, ms) && k < |ys|
    ensures Sound(ys[k]) && NothingAhead(ys[k].guard)
  {
    hide Sound, NothingAhead, CanMove, Moved;
    if k == 0 {
      InitialInv();
      StartSound(ys[0]);
    } else {
      PlaySound(ys, ms, k - 1);
      assert CanMove(ys[k - 1], ms[k - 1]) && ys[k - 1 + 1] == Moved(ys[k - 1], ms[k - 1]);
      SoundMove(ys[k - 1], ms[k - 1]);
    }
  }

  lemma {:induction false} StartSound(y: System)
    requires y.guard == INITIAL && y.sup == Supervisor(y.sup.pid, None, Connecting, false, false, [], 0, 0)
    ensures Sound(y) && NothingAhead(y.guard)
  {
  }

  lemma {:induction false} PlayEvidence(ys: seq<System>, ms: seq<Move>, k: nat)
    requires IsPlay(ys, ms) && k < |ys|
    ensures Evidence(ys[k].guard)
  {
    hide Sound, NothingAhead, Evidence, Enabled, Effect, Records;
    if k == 0 {
      NoEvidenceNeeded(ys[0].guard);
    } else {
      PlayEvidence(ys, ms, k - 1);
      PlaySound(ys, ms, k - 1);
      var y, m := ys[k - 1], ms[k - 1];
      assert CanMove(y, m) && ys[k - 1 + 1] == Moved(y, m);
      SoundInv(y);
      if m.Guard? { StepEvidence(y.guard, m.a); }
      if m.Connect? { StepEvidence(y.guard, Accept(y.guard.accepted, y.sup.pid)); }
    }
  }

  lemma {:induction false} NoEvidenceNeeded(s: State)
    requires s == INITIAL
    ensures Evidence(s)
  {
  }

  lemma {:induction false} SoundInv(y: System)
    requires Sound(y)
    ensures Inv(y.guard)
  {
  }

  lemma {:induction false} SaidTo(sent: seq<Sent>, c: Conn, r: Reply)
    requires r in Replies(sent, c)
    ensures exists x :: x in sent && x.conn == c && x.reply == r
  {
    var n := |sent| - 1;
    if r in Replies(sent[..n], c) {
      SaidTo(sent[..n], c, r);
      var x :| x in sent[..n] && x.conn == c && x.reply == r;
      assert x in sent;
    } else {
      assert sent[n] in sent;
    }
  }

  /**
   A supervisor returns normally only after the guard sent it a justified `go`, Racket was started and
   reaped, and the guard took its `done` while it was the only live member of its group.
   */
  lemma {:induction false} NormalReturn(ys: seq<System>, ms: seq<Move>, k: nat)
    requires IsPlay(ys, ms) && k < |ys| && ys[k].sup.phase == Returned
    ensures ys[k].sup.conn.Some? && ys[k].sup.started && ys[k].sup.reaped
    ensures exists x :: x in ys[k].guard.sent && x.conn == ys[k].sup.conn.value && x.reply == Go
                        && Justified(ys[k].guard.history, x, ys[k].guard.root)
    ensures SawAlone(ys[k].guard.history, ys[k].sup.conn.value, ys[k].sup.pid)
  {
    hide IsPlay, Inv, Talk, Justified, Records;
    PlaySound(ys, ms, k);
    PlayEvidence(ys, ms, k);
    SaidTo(ys[k].guard.sent, ys[k].sup.conn.value, Go);
  }

  /** Racket runs only under a `go`, and its supervisor reports completion only after reaping it. */
  lemma {:induction false} NoLaunchWithoutGo(ys: seq<System>, ms: seq<Move>, k: nat)
    requires IsPlay(ys, ms) && k < |ys|
    ensures ys[k].sup.started ==> ys[k].sup.conn.Some? && Go in Replies(ys[k].guard.sent, ys[k].sup.conn.value)
    ensures (exists m :: m in ys[k].sup.out && m.Done?) ==> ys[k].sup.reaped && ys[k].sup.started
  {
    hide IsPlay, Inv, Talk;
    PlaySound(ys, ms, k);
  }

  /** A supervisor that kills its group does not return, and one that returned does not kill it. */
  lemma {:induction false} EndIsFinal(ys: seq<System>, ms: seq<Move>, j: nat, k: nat)
    requires IsPlay(ys, ms) && j <= k < |ys| && ys[j].sup.phase in {Returned, Killing}
    ensures ys[k].sup.phase == ys[j].sup.phase && ys[k].sup.started == ys[j].sup.started
  {
    hide Enabled, Step, Stream, Faithful;
    if j < k {
      EndIsFinal(ys, ms, j, k - 1);
      assert CanMove(ys[k - 1], ms[k - 1]) && ys[k - 1 + 1] == Moved(ys[k - 1], ms[k - 1]);
    }
  }
}
