/**
 Permission to launch.  Every `go` the guard ever sends is justified by what
 happened before it: the reservation came from a process of the guarded root
 group, its parent reported a successful fork of exactly the PID the kernel
 authenticates for the supervisor, the supervisor led its own group when it
 registered, and the exchange that sent the `go` was not stopping.
 */
module LeaseHistory {
  import opened Prelude
  import opened LeaseModel
  import opened LeaseInvariants

  // ---- What a history says ------------------------------------------------------

  /** The kernel said that the peer of connection `c` is `pid`. */
  predicate Kernel(h: seq<Action>, c: Conn, pid: int) {
    Accept(c, pid) in h
  }

  /** Action `i` asked for reservation `n` on connection `p`, from a process in group `root`. */
  predicate Reserves(h: seq<Action>, i: nat, n: Nonce, p: Conn, pid: int, root: int) {
    && i < |h| && h[i].Line? && h[i].conn == p && h[i].message.Reserve? && h[i].nonce == n && !h[i].stopping
    && Kernel(h, p, pid) && root in h[i].rows && pid in h[i].rows && h[i].rows[pid].group == root
  }

  predicate Reports(h: seq<Action>, j: nat, p: Conn, pid: int) {
    j < |h| && h[j].Line? && h[j].conn == p && h[j].message == Spawned(Some(pid)) && pid > 0
  }

  /** Action `k` registered `pid` for `n` on connection `c`, and `pid` led its own group then. */
  predicate Registers(h: seq<Action>, k: nat, c: Conn, n: Nonce, pid: int) {
    && k < |h| && h[k].Line? && h[k].conn == c
    && h[k].message == Register(n, Some(pid), CONTRACT, true)
    && Kernel(h, c, pid) && pid in h[k].rows && h[k].rows[pid].group == pid
  }

  ghost predicate Born(h: seq<Action>, n: Nonce, p: Conn, root: Option<int>) {
    root.Some? && exists i, pid :: Reserves(h, i, n, p, pid, root.value)
  }

  /** The reservation was made and later its parent reported the fork of `child`. */
  ghost predicate Forked(h: seq<Action>, n: Nonce, child: int, root: Option<int>) {
    root.Some? && exists i, j, p, pid :: i < j && Reserves(h, i, n, p, pid, root.value) && Reports(h, j, p, child)
  }

  /** The reservation was made and later the supervisor registered for it on `c`. */
  ghost predicate Joined(h: seq<Action>, c: Conn, n: Nonce, child: int, root: Option<int>) {
    root.Some? && exists i, k, p, pid :: i < k && Reserves(h, i, n, p, pid, root.value) && Registers(h, k, c, n, child)
  }

  /** All four conditions of a `go`, each established strictly before it was sent. */
  ghost predicate Justified(h: seq<Action>, x: Sent, root: Option<int>) {
    && x.at < |h| && h[x.at].Finish? && !h[x.at].stopping
    && exists child ::
         Forked(h[..x.at], x.reservation, child, root) && Joined(h[..x.at], x.conn, x.reservation, child, root)
  }

  // ---- The evidence behind a state -------------------------------------------------

  ghost predicate PeerEv(h: seq<Action>, s: State, c: Conn)
    requires c in s.peers
  {
    && Kernel(h, c, s.peers[c].pid)
    && (s.peers[c].role.Parent? ==> Born(h, s.peers[c].role.reservation, c, s.root))
    && (s.peers[c].role.Leader? && s.peers[c].role.index < |s.groups| ==>
          var g := s.groups[s.peers[c].role.index]; Joined(h, c, g.reservation, g.pid, s.root))
  }

  ghost predicate LaunchEv(h: seq<Action>, n: Nonce, l: Launch, root: Option<int>) {
    && (exists p :: Born(h, n, p, root))
    && (l.reported && l.pid.Some? ==> Forked(h, n, l.pid.value, root))
  }

  ghost predicate Records(h: seq<Action>, s: State) {
    && (forall c :: c in s.peers ==> PeerEv(h, s, c))
    && (forall n :: n in s.launches ==> LaunchEv(h, n, s.launches[n], s.root))
  }

  ghost predicate Gos(h: seq<Action>, s: State) {
    forall k :: 0 <= k < |s.sent| && s.sent[k].reply.Go? ==> Justified(h, s.sent[k], s.root)
  }

  ghost predicate Evidence(s: State) {
    Records(s.history, s) && Gos(s.history, s)
  }

  // ---- Evidence only grows -----------------------------------------------------------

  lemma {:induction false} ReservesGrow(h: seq<Action>, a: Action, i: nat, n: Nonce, p: Conn, pid: int, root: int)
    requires Reserves(h, i, n, p, pid, root)
    ensures Reserves(h + [a], i, n, p, pid, root)
  {
  }

  lemma {:induction false} BornGrows(h: seq<Action>, a: Action, n: Nonce, p: Conn, root: Option<int>)
    requires Born(h, n, p, root)
    ensures Born(h + [a], n, p, root)
  {
    var i, pid :| Reserves(h, i, n, p, pid, root.value);
    ReservesGrow(h, a, i, n, p, pid, root.value);
  }

  lemma {:induction false} ForkedGrows(h: seq<Action>, a: Action, n: Nonce, child: int, root: Option<int>)
    requires Forked(h, n, child, root)
    ensures Forked(h + [a], n, child, root)
  {
    var i, j, p, pid :| i < j && Reserves(h, i, n, p, pid, root.value) && Reports(h, j, p, child);
    ReservesGrow(h, a, i, n, p, pid, root.value);
    assert Reports(h + [a], j, p, child);
  }

  lemma {:induction false} JoinedGrows(h: seq<Action>, a: Action, c: Conn, n: Nonce, child: int, root: Option<int>)
    requires Joined(h, c, n, child, root)
    ensures Joined(h + [a], c, n, child, root)
  {
    var i, k, p, pid :| i < k && Reserves(h, i, n, p, pid, root.value) && Registers(h, k, c, n, child);
    ReservesGrow(h, a, i, n, p, pid, root.value);
    assert Registers(h + [a], k, c, n, child);
  }

  lemma {:induction false} LaunchEvGrows(h: seq<Action>, a: Action, n: Nonce, l: Launch, root: Option<int>)
    requires LaunchEv(h, n, l, root)
    ensures LaunchEv(h + [a], n, l, root)
  {
    var p :| Born(h, n, p, root);
    BornGrows(h, a, n, p, root);
    if l.reported && l.pid.Some? { ForkedGrows(h, a, n, l.pid.value, root); }
  }

  lemma {:induction false} PeerEvGrows(h: seq<Action>, a: Action, s: State, c: Conn)
    requires c in s.peers && PeerEv(h, s, c)
    ensures PeerEv(h + [a], s, c)
  {
    hide Born, Joined;
    var role := s.peers[c].role;
    if role.Parent? { BornGrows(h, a, role.reservation, c, s.root); }
    if role.Leader? && role.index < |s.groups| {
      JoinedGrows(h, a, c, s.groups[role.index].reservation, s.groups[role.index].pid, s.root);
    }
  }

  lemma {:induction false} EvidenceGrows(s: State, a: Action)
    requires Evidence(s)
    ensures Records(s.history + [a], s) && Gos(s.history + [a], s)
  {
    hide PeerEv, LaunchEv, Forked, Joined;
    forall c | c in s.peers ensures PeerEv(s.history + [a], s, c) { PeerEvGrows(s.history, a, s, c); }
    forall n | n in s.launches ensures LaunchEv(s.history + [a], n, s.launches[n], s.root) {
      LaunchEvGrows(s.history, a, n, s.launches[n], s.root);
    }
    forall k | 0 <= k < |s.sent| && s.sent[k].reply.Go? ensures Justified(s.history + [a], s.sent[k], s.root) {
      assert (s.history + [a])[..s.sent[k].at] == s.history[..s.sent[k].at];
    }
  }

  /** A reservation's nonce names one action only. */
  predicate DistinctNonces(h: seq<Action>) {
    forall i, j :: 0 <= i < j < |h| && h[i].Line? && h[j].Line? ==> h[i].nonce != h[j].nonce
  }

  /** One connection, one kernel PID. */
  predicate DistinctConns(h: seq<Action>, accepted: nat) {
    && (forall i :: 0 <= i < |h| && h[i].Accept? ==> h[i].conn < accepted)
    && (forall i, j :: 0 <= i < j < |h| && h[i].Accept? && h[j].Accept? ==> h[i].conn != h[j].conn)
  }

  // ---- Each action keeps the evidence ----------------------------------------------------

  /** `t` has no peer, launch fact or group that `s` did not have, apart from statuses. */
  predicate SameFacts(s: State, t: State) {
    && (forall c :: c in t.peers ==> c in s.peers && t.peers[c].pid == s.peers[c].pid && t.peers[c].role == s.peers[c].role)
    && (forall n :: n in t.launches ==>
          n in s.launches && t.launches[n].reported == s.launches[n].reported && t.launches[n].pid == s.launches[n].pid)
    && |t.groups| == |s.groups|
    && (forall i :: 0 <= i < |s.groups| ==> t.groups[i].pid == s.groups[i].pid && t.groups[i].reservation == s.groups[i].reservation)
    && t.root == s.root
  }

  lemma {:induction false} FactsKeepRecords(h: seq<Action>, s: State, t: State)
    requires Records(h, s) && SameFacts(s, t)
    ensures Records(h, t)
  {
    hide Born, Forked, Joined;
    forall c | c in t.peers ensures PeerEv(h, t, c) { assert PeerEv(h, s, c); }
    forall n | n in t.launches ensures LaunchEv(h, n, t.launches[n], t.root) { assert LaunchEv(h, n, s.launches[n], s.root); }
  }

  lemma {:induction false} FactsTrans(s: State, t: State, u: State)
    requires SameFacts(s, t) && SameFacts(t, u)
    ensures SameFacts(s, u)
  {
  }

  lemma {:induction false} ReserveEvidence(s: State, c: Conn, rows: Snapshot, nonce: Nonce, sendOk: bool, h: seq<Action>)
    requires Records(h, s) && c in s.peers && s.peers[c].role.NoRole? && nonce !in s.launches
    requires OnReserve(s, c, rows, false, nonce, sendOk).s != s
    requires h != [] && Last(h) == Line(c, Reserve, rows, false, nonce, sendOk)
    ensures Records(h, OnReserve(s, c, rows, false, nonce, sendOk).s)
  {
    hide Forked, Joined;
    var t := OnReserve(s, c, rows, false, nonce, sendOk).s;
    assert PeerEv(h, s, c);
    assert Reserves(h, |h| - 1, nonce, c, s.peers[c].pid, s.root.value);
    forall d | d in t.peers ensures PeerEv(h, t, d) { assert PeerEv(h, s, d); }
    forall n | n in t.launches ensures LaunchEv(h, n, t.launches[n], t.root) {
      if n != nonce { assert LaunchEv(h, n, s.launches[n], s.root); } else { assert Born(h, n, c, t.root); }
    }
  }

  function Last(h: seq<Action>): Action requires h != [] { h[|h| - 1] }

  lemma {:induction false} ReportEvidence(s: State, c: Conn, m: Message, sendOk: bool, h: seq<Action>, a: Action)
    requires Records(h, s) && Records(h + [a], s) && c in s.peers && s.peers[c].role.Parent? && s.peers[c].role.reservation in s.launches
    requires (m.Spawned? || m.SpawnFailed?) && a.Line? && a.conn == c && a.message == m
    ensures Records(h + [a], OnReport(s, c, m, sendOk).s)
  {
    hide Joined, Born;
    var t := OnReport(s, c, m, sendOk).s;
    var n := s.peers[c].role.reservation;
    forall d | d in t.peers ensures PeerEv(h + [a], t, d) { assert PeerEv(h + [a], s, d); }
    forall x | x in t.launches ensures LaunchEv(h + [a], x, t.launches[x], t.root) {
      assert LaunchEv(h + [a], x, s.launches[x], s.root);
      if x == n && t.launches[n] != s.launches[n] && m.Spawned? {
        assert PeerEv(h, s, c);
        ReportMakesFork(h, a, n, c, m.child.value, s.root);
      }
    }
  }

  lemma {:induction false} ReportMakesFork(h: seq<Action>, a: Action, n: Nonce, p: Conn, child: int, root: Option<int>)
    requires Born(h, n, p, root) && a.Line? && a.conn == p && a.message == Spawned(Some(child)) && child > 0
    ensures Forked(h + [a], n, child, root)
  {
    var i, pid :| Reserves(h, i, n, p, pid, root.value);
    ReservesGrow(h, a, i, n, p, pid, root.value);
    assert Reports(h + [a], |h|, p, child);
  }

  lemma {:induction false} RegisterMakesJoin(h: seq<Action>, a: Action, c: Conn, n: Nonce, p: Conn, child: int, root: Option<int>)
    requires Born(h, n, p, root) && Kernel(h, c, child)
    requires a.Line? && a.conn == c && a.message == Register(n, Some(child), CONTRACT, true)
    requires child in a.rows && a.rows[child].group == child
    ensures Joined(h + [a], c, n, child, root)
  {
    var i, pid :| Reserves(h, i, n, p, pid, root.value);
    ReservesGrow(h, a, i, n, p, pid, root.value);
    assert Registers(h + [a], |h|, c, n, child);
  }

  lemma {:induction false} RegisterEvidence(s: State, c: Conn, m: Message, rows: Snapshot, h: seq<Action>, a: Action)
    requires Inv(s) && Records(h, s) && Records(h + [a], s) && c in s.peers && s.peers[c].role.NoRole? && m.Register?
    requires a.Line? && a.conn == c && a.message == m && a.rows == rows
    ensures Records(h + [a], OnRegister(s, c, m, rows).s)
  {
    hide Inv, Born, Forked, Joined;
    InvParts(s);
    if Registrable(s, c, m, rows) {
      var t := OnRegister(s, c, m, rows).s;
      var n, pid := m.reservation, s.peers[c].pid;
      assert PeerEv(h, s, c) && LaunchEv(h, n, s.launches[n], s.root) && LaunchOk(s.launches[n]);
      var p :| Born(h, n, p, s.root);
      RegisterMakesJoin(h, a, c, n, p, pid, s.root);
      forall d | d in t.peers ensures PeerEv(h + [a], t, d) { assert PeerEv(h + [a], s, d) && LeaderOk(s, d); }
      forall x | x in t.launches ensures LaunchEv(h + [a], x, t.launches[x], t.root) {
        assert LaunchEv(h + [a], x, s.launches[x], s.root);
      }
    }
  }

  /** The part of a line's effect that stays on the wire: only the acknowledgment loop says `go`. */
  lemma {:induction false} LineSaysNoGo(s: State, c: Conn, m: Message, rows: Snapshot, stopping: bool, nonce: Nonce, sendOk: bool)
    requires Linked(s) && c in s.peers && s.peers[c].inbox != []
    ensures
      var t := OnLine(s, c, m, rows, stopping, nonce, sendOk).s;
      && t.root == s.root && t.history == s.history && s.sent <= t.sent
      && forall k :: |s.sent| <= k < |t.sent| ==> !t.sent[k].reply.Go?
  {
  }

  lemma {:induction false} LineEvidence(s: State, a: Action)
    requires Inv(s) && Records(s.history, s) && Records(s.history + [a], s) && a.Line? && Enabled(s, a)
    ensures Records(s.history + [a], Effect(s, a).s)
  {
    hide Inv, Born, Forked, Joined, PeerEv, LaunchEv, OnReserve, OnReport, OnRegister, OnDone, Records;
    InvParts(s);
    var c, m, h := a.conn, a.message, s.history;
    var p := s.peers[c];
    var s1 := s.(peers := s.peers[c := p.(inbox := p.inbox[1..])]);
    PeerChanged(s, c, p.inbox[1..], p.eof);
    FactsKeepRecords(h, s, s1);
    FactsKeepRecords(h + [a], s, s1);
    if m.Reserve? && p.role.NoRole? {
      ReserveLine(s1, c, a, h);
    } else if (m.Spawned? || m.SpawnFailed?) && p.role.Parent? {
      ReportEvidence(s1, c, m, a.sendOk, h, a);
    } else if m.Register? && p.role.NoRole? {
      RegisterEvidence(s1, c, m, a.rows, h, a);
    } else if m.Done? && p.role.Leader? {
      DoneFacts(s1, c, m, a.rows, a.sendOk);
      FactsKeepRecords(h + [a], s1, OnDone(s1, c, m, a.rows, a.sendOk).s);
    }
  }

  lemma {:induction false} ReserveLine(s: State, c: Conn, a: Action, h: seq<Action>)
    requires Records(h + [a], s) && c in s.peers && s.peers[c].role.NoRole? && a.Line? && a.nonce !in s.launches
    requires a.conn == c && a.message.Reserve?
    ensures Records(h + [a], OnReserve(s, c, a.rows, a.stopping, a.nonce, a.sendOk).s)
  {
    hide Records;
    var t := OnReserve(s, c, a.rows, a.stopping, a.nonce, a.sendOk).s;
    if a.stopping {
      FactsKeepRecords(h + [a], s, t);
    } else if t != s {
      ReserveEvidence(s, c, a.rows, a.nonce, a.sendOk, h + [a]);
    }
  }

  lemma {:induction false} DoneFacts(s: State, c: Conn, m: Message, rows: Snapshot, sendOk: bool)
    requires Linked(s) && c in s.peers && s.peers[c].role.Leader? && m.Done?
    ensures SameFacts(s, OnDone(s, c, m, rows, sendOk).s)
  {
  }

  /** A `go` about to be sent by an exchange that is not stopping. */
  ghost predicate Earned(h: seq<Action>, x: Sent, stopping: bool, root: Option<int>) {
    && !stopping && x.at == |h|
    && exists child :: Forked(h, x.reservation, child, root) && Joined(h, x.conn, x.reservation, child, root)
  }

  ghost predicate NewGosEarned(s: State, t: State, stopping: bool) {
    && s.sent <= t.sent
    && forall k :: |s.sent| <= k < |t.sent| && t.sent[k].reply.Go? ==> Earned(s.history, t.sent[k], stopping, s.root)
  }

  lemma {:induction false} AnswerFacts(s: State, c: Conn, stopping: bool)
    requires Linked(s) && Answered(s, c, stopping)
    ensures SameFacts(s, Answer(s, c, stopping)) && s.sent < Answer(s, c, stopping).sent
    ensures Answer(s, c, stopping).sent ==
            s.sent + [Sent(c, if stopping then Stop else Go, s.groups[s.peers[c].role.index].reservation, |s.history|)]
  {
  }

  lemma {:induction false} AnswerEarned(s: State, c: Conn, stopping: bool)
    requires Inv(s) && Records(s.history, s) && Answered(s, c, stopping)
    ensures NewGosEarned(s, Answer(s, c, stopping), stopping)
  {
    hide Inv, Forked, Joined, Born, Answer;
    InvParts(s);
    AnswerFacts(s, c, stopping);
    if !stopping {
      var g := s.groups[s.peers[c].role.index];
      assert PeerEv(s.history, s, c) && GroupOk(s, g);
      assert LaunchEv(s.history, g.reservation, s.launches[g.reservation], s.root);
      assert Forked(s.history, g.reservation, g.pid, s.root) && Joined(s.history, c, g.reservation, g.pid, s.root);
    }
  }

  lemma {:induction false} EarnedTrans(s: State, t: State, u: State, stopping: bool)
    requires NewGosEarned(s, t, stopping) && NewGosEarned(t, u, stopping) && t.history == s.history && t.root == s.root
    ensures NewGosEarned(s, u, stopping)
  {
    hide Earned;
  }

  lemma {:induction false} AckEarned(s: State, c: Conn, stopping: bool, failing: set<Conn>)
    requires Inv(s) && Records(s.history, s)
    ensures
      var t := AckFrom(s, c, stopping, failing).s;
      SameFacts(s, t) && NewGosEarned(s, t, stopping)
    decreases s.accepted - c
  {
    hide Inv, Records, SameFacts, NewGosEarned, Answer, Answered;
    InvParts(s);
    NothingSaid(s, stopping);
    if c < s.accepted {
      if !Answered(s, c, stopping) {
        AckEarned(s, c + 1, stopping, failing);
      } else {
        var t := Answer(s, c, stopping);
        AnswerKeeps(s, c, stopping);
        AnswerLinked(s, c, stopping);
        AnswerFacts(s, c, stopping);
        AnswerEarned(s, c, stopping);
        if c !in failing {
          FactsKeepRecords(s.history, s, t);
          AckEarned(t, c + 1, stopping, failing);
          var u := AckFrom(t, c + 1, stopping, failing).s;
          FactsTrans(s, t, u);
          EarnedTrans(s, t, u, stopping);
        }
      }
    }
  }

  lemma {:induction false} NothingSaid(s: State, stopping: bool)
    ensures SameFacts(s, s) && NewGosEarned(s, s, stopping)
  {
  }

  lemma {:induction false} DrainFacts(s: State, i: nat, rows: Snapshot, now: int)
    requires Linked(s)
    ensures SameFacts(s, DrainFrom(s, i, rows, now).s)
    decreases |s.groups| - i
  {
    if i < |s.groups| {
      if s.groups[i].status == Leaving && Live(rows, s.groups[i].pid) == {} {
        AdvanceLinked(s, i, Left, Drained, s.groups[i].deadline);
        var t := Advance(s, i, Left, Drained, s.groups[i].deadline);
        DrainFacts(t, i + 1, rows, now);
        FactsTrans(s, t, DrainFrom(t, i + 1, rows, now).s);
      } else {
        DrainFacts(s, i + 1, rows, now);
      }
    }
  }

  lemma {:induction false} RetireFacts(s: State, rows: Snapshot)
    ensures SameFacts(s, Retire(s, rows))
  {
  }

  lemma {:induction false} FinishEarned(s: State, rows: Snapshot, stopping: bool, now: int, failing: set<Conn>)
    requires Inv(s) && Records(s.history, s)
    ensures
      var t := OnFinish(s, rows, stopping, now, failing).s;
      SameFacts(s, t) && NewGosEarned(s, t, stopping)
  {
    hide Inv, Records, SameFacts, NewGosEarned, AckFrom, DrainFrom, Retire, Settled;
    InvParts(s);
    AckEarned(s, 0, stopping, failing);
    var acked := AckFrom(s, 0, stopping, failing);
    AckKeeps(s, 0, stopping, failing);
    if acked.ok {
      AckSettles(s, stopping, failing);
      InvParts(acked.s);
      DrainKeeps(acked.s, 0, rows, now);
      DrainFacts(acked.s, 0, rows, now);
      var drained := DrainFrom(acked.s, 0, rows, now);
      FactsTrans(s, acked.s, drained.s);
      SameSent(s, acked.s, drained.s, stopping);
      if drained.ok {
        RetireFacts(drained.s, rows);
        RetireFrame(drained.s, rows);
        FactsTrans(s, drained.s, Retire(drained.s, rows));
        SameSent(s, drained.s, Retire(drained.s, rows), stopping);
      }
    }
  }

  lemma {:induction false} SameSent(s: State, t: State, u: State, stopping: bool)
    requires NewGosEarned(s, t, stopping) && t.sent == u.sent
    ensures NewGosEarned(s, u, stopping)
  {
  }

  lemma {:induction false} EarnedIsJustified(h: seq<Action>, a: Action, x: Sent, root: Option<int>)
    requires a.Finish? && Earned(h, x, a.stopping, root)
    ensures Justified(h + [a], x, root)
  {
    assert (h + [a])[..x.at] == h;
  }

  lemma {:induction false} FinishGos(s: State, a: Action, t: State)
    requires a.Finish? && Gos(s.history + [a], s) && NewGosEarned(s, t, a.stopping) && t.root == s.root
    ensures Gos(s.history + [a], t)
  {
    hide Justified, Earned;
    forall k | 0 <= k < |t.sent| && t.sent[k].reply.Go? ensures Justified(s.history + [a], t.sent[k], t.root) {
      if k >= |s.sent| { EarnedIsJustified(s.history, a, t.sent[k], s.root); }
    }
  }

  lemma {:induction false} OldGos(h: seq<Action>, s: State, t: State)
    requires Gos(h, s) && s.sent <= t.sent && t.root == s.root
    requires forall k :: |s.sent| <= k < |t.sent| ==> !t.sent[k].reply.Go?
    ensures Gos(h, t)
  {
    hide Justified;
  }

  /** Without a root nothing was ever reserved. */
  lemma {:induction false} UnboundIsEmpty(h: seq<Action>, s: State, r: int)
    requires Records(h, s) && Gos(h, s) && (s.root.None? || s.root.value == r)
    ensures Records(h, s.(root := Some(r))) && Gos(h, s.(root := Some(r)))
  {
    var t := s.(root := Some(r));
    if s.root.Some? {
      assert t == s;
    } else {
      forall c | c in t.peers ensures PeerEv(h, t, c) { assert PeerEv(h, s, c); }
      assert forall n, l :: !LaunchEv(h, n, l, s.root);
    }
  }

  lemma {:induction false} AcceptEvidence(s: State, a: Action)
    requires Inv(s) && Records(s.history + [a], s) && a.Accept? && Enabled(s, a)
    ensures Records(s.history + [a], Effect(s, a).s)
  {
    hide Born, Joined, LaunchEv;
    var h, t := s.history + [a], Effect(s, a).s;
    assert a == h[|h| - 1];
    forall c | c in t.peers ensures PeerEv(h, t, c) {
      if c != a.conn { assert PeerEv(h, s, c); }
    }
  }

  lemma {:induction false} HangupFacts(s: State, c: Conn, rows: Snapshot, now: int)
    requires Linked(s) && c in s.peers
    ensures SameFacts(s, OnHangup(s, c, rows, now)) && OnHangup(s, c, rows, now).sent == s.sent
  {
  }

  lemma {:induction false} RevokeFacts(s: State)
    ensures SameFacts(s, OnRevoke(s)) && OnRevoke(s).sent == s.sent
  {
  }

  lemma {:induction false} StepEvidence(s: State, a: Action)
    requires Inv(s) && Evidence(s) && Enabled(s, a)
    ensures Evidence(Step(s, a).s)
  {
    hide Inv, Records, Gos, SameFacts, NewGosEarned, OnLine, OnHangup, OnFinish, OnRevoke;
    InvParts(s);
    EvidenceGrows(s, a);
    var h, t := s.history + [a], Effect(s, a).s;
    match a {
      case Bind(r) => UnboundIsEmpty(h, s, r);
      case Accept(_, _) => AcceptEvidence(s, a); OldGos(h, s, t);
      case Receive(c, ms, eof) => ReceiveFacts(s, c, ms, eof); FactsKeepRecords(h, s, t); OldGos(h, s, t);
      case Drop(c) => DropFacts(s, c); FactsKeepRecords(h, s, t); OldGos(h, s, t);
      case Line(c, m, rows, stopping, nonce, sendOk) =>
        LineEvidence(s, a);
        LineSaysNoGo(s, c, m, rows, stopping, nonce, sendOk);
        OldGos(h, s, t);
      case Hangup(c, rows, now) => HangupFacts(s, c, rows, now); FactsKeepRecords(h, s, t); SameRoot(s, t); OldGos(h, s, t);
      case Finish(rows, stopping, now, failing) =>
        FinishEarned(s, rows, stopping, now, failing);
        FactsKeepRecords(h, s, t);
        SameRoot(s, t);
        FinishGos(s, a, t);
      case Revoke => RevokeFacts(s); FactsKeepRecords(h, s, t); SameRoot(s, t); OldGos(h, s, t);
    }
    HistoryIsApart(h, t);
  }

  lemma {:induction false} SameRoot(s: State, t: State)
    requires SameFacts(s, t)
    ensures t.root == s.root
  {
  }

  lemma {:induction false} ReceiveFacts(s: State, c: Conn, ms: seq<Message>, eof: bool)
    requires c in s.peers
    ensures SameFacts(s, s.(peers := s.peers[c := s.peers[c].(inbox := s.peers[c].inbox + ms, eof := s.peers[c].eof || eof)]))
  {
  }

  lemma {:induction false} DropFacts(s: State, c: Conn)
    ensures SameFacts(s, s.(peers := s.peers - {c}))
  {
  }

  lemma {:induction false} HistoryIsApart(h: seq<Action>, t: State)
    requires Records(h, t) && Gos(h, t)
    ensures Evidence(t.(history := h))
  {
    hide Born, Joined, Forked, Justified, LaunchEv;
    var u := t.(history := h);
    forall c | c in u.peers ensures PeerEv(h, u, c) { assert PeerEv(h, t, c); }
  }

  // ---- The theorems ------------------------------------------------------------------------

  lemma {:induction false} RunEvidence(states: seq<State>, actions: seq<Action>, k: nat)
    requires IsRun(states, actions) && k < |states|
    ensures Evidence(states[k])
  {
    hide Inv, Step, Enabled;
    if k > 0 {
      RunEvidence(states, actions, k - 1);
      RunKeeps(states, actions, k - 1);
      assert states[k - 1 + 1] == Step(states[k - 1], actions[k - 1]).s;
      StepEvidence(states[k - 1], actions[k - 1]);
    }
  }

  lemma {:induction false} HistoryIsActions(states: seq<State>, actions: seq<Action>, k: nat)
    requires IsRun(states, actions) && k < |states|
    ensures states[k].history == actions[..k]
  {
    if k > 0 {
      HistoryIsActions(states, actions, k - 1);
      assert states[k - 1 + 1] == Step(states[k - 1], actions[k - 1]).s;
      assert actions[..k] == actions[..k - 1] + [actions[k - 1]];
    }
  }

  /**
   Permission to launch: in every run, a `go` was preceded by the root-group reservation it belongs to,
   by the parent's report of a successful fork of some PID and by the registration of exactly that
   kernel-authenticated, group-leading PID on the connection it goes to, and the exchange was not stopping.
   */
  lemma {:induction false} GoIsJustified(states: seq<State>, actions: seq<Action>, k: nat, x: Sent)
    requires IsRun(states, actions) && k < |states| && x in states[k].sent && x.reply.Go?
    ensures Justified(actions[..k], x, states[k].root)
  {
    hide Justified, Records, IsRun;
    RunEvidence(states, actions, k);
    HistoryIsActions(states, actions, k);
  }

  // ---- What makes the evidence unambiguous -----------------------------------------------------

  /** Accepted connections are numbered in order, so each has one kernel PID. */
  lemma {:induction false} ConnsAreDistinct(states: seq<State>, actions: seq<Action>, k: nat)
    requires IsRun(states, actions) && k < |states|
    ensures DistinctConns(actions[..k], states[k].accepted) && DistinctNonces(actions[..k])
  {
    if k > 0 {
      ConnsAreDistinct(states, actions, k - 1);
      HistoryIsActions(states, actions, k - 1);
      RunKeeps(states, actions, k - 1);
      var s, a := states[k - 1], actions[k - 1];
      assert states[k - 1 + 1] == Step(s, a).s && Enabled(s, a);
      AcceptedGrows(s, a);
      assert actions[..k] == actions[..k - 1] + [a];
      DistinctSnoc(actions[..k - 1], a, s, states[k].accepted);
    }
  }

  lemma {:induction false} AcceptedGrows(s: State, a: Action)
    requires Inv(s) && Enabled(s, a)
    ensures Step(s, a).s.accepted == s.accepted + if a.Accept? then 1 else 0
  {
    hide Inv, OnFinish;
    if a.Finish? { FinishKeeps(s, a.rows, a.stopping, a.now, a.failing); }
  }

  lemma {:induction false} DistinctSnoc(h: seq<Action>, a: Action, s: State, accepted: nat)
    requires h == s.history && Enabled(s, a) && DistinctConns(h, s.accepted) && DistinctNonces(h)
    requires accepted == s.accepted + if a.Accept? then 1 else 0
    ensures DistinctConns(h + [a], accepted) && DistinctNonces(h + [a])
  {
  }

  /** The kernel PID of a connection is unambiguous. */
  lemma {:induction false} OneKernelPid(states: seq<State>, actions: seq<Action>, k: nat, c: Conn, p: int, q: int)
    requires IsRun(states, actions) && k < |states| && Kernel(actions[..k], c, p) && Kernel(actions[..k], c, q)
    ensures p == q
  {
    ConnsAreDistinct(states, actions, k);
    var h := actions[..k];
    var i :| 0 <= i < |h| && h[i] == Accept(c, p);
    var j :| 0 <= j < |h| && h[j] == Accept(c, q);
    assert i == j;
  }

  /** One reservation is one action, so the fork report and the registration of a `go` are for the same one. */
  lemma {:induction false} OneReservation(states: seq<State>, actions: seq<Action>, k: nat, n: Nonce,
                                          i: nat, p: Conn, pid: int, j: nat, q: Conn, qid: int, root: int)
    requires IsRun(states, actions) && k < |states|
    requires Reserves(actions[..k], i, n, p, pid, root) && Reserves(actions[..k], j, n, q, qid, root)
    ensures i == j && p == q && pid == qid
  {
    hide IsRun;
    ConnsAreDistinct(states, actions, k);
    OneKernelPid(states, actions, k, p, pid, pid);
    if p == q { OneKernelPid(states, actions, k, p, pid, qid); }
  }

  // ---- At most one go per reservation -------------------------------------------------------------

  predicate WasAnswered(s: State, n: Nonce) {
    exists i :: 0 <= i < |s.groups| && s.groups[i].reservation == n && s.groups[i].status != Pending
  }

  ghost predicate GoOnce(s: State) {
    && (forall k :: 0 <= k < |s.sent| && s.sent[k].reply.Go? ==> WasAnswered(s, s.sent[k].reservation))
    && (forall j, k :: 0 <= j < k < |s.sent| && s.sent[j].reply.Go? && s.sent[k].reply.Go? ==> s.sent[j].reservation != s.sent[k].reservation)
  }

  lemma {:induction false} AnsweredPersists(s: State, t: State, n: Nonce)
    requires Forward(s, t) && WasAnswered(s, n)
    ensures WasAnswered(t, n)
  {
    var i :| 0 <= i < |s.groups| && s.groups[i].reservation == n && s.groups[i].status != Pending;
    assert GroupForward(s.groups[i], t.groups[i]);
  }

  lemma {:induction false} QuietKeepsGoOnce(s: State, t: State)
    requires GoOnce(s) && Forward(s, t) && forall k :: |s.sent| <= k < |t.sent| ==> !t.sent[k].reply.Go?
    ensures GoOnce(t)
  {
    hide WasAnswered;
    forall k | 0 <= k < |t.sent| && t.sent[k].reply.Go? ensures WasAnswered(t, t.sent[k].reservation) {
      assert s.sent[k] == t.sent[k];
      AnsweredPersists(s, t, s.sent[k].reservation);
    }
  }

  lemma {:induction false} AnswerGoOnce(s: State, c: Conn, stopping: bool)
    requires Inv(s) && GoOnce(s) && Answered(s, c, stopping)
    ensures GoOnce(Answer(s, c, stopping))
  {
    hide Inv, Forward, Answer;
    InvParts(s);
    AnswerKeeps(s, c, stopping);
    AnswerFacts(s, c, stopping);
    var t := Answer(s, c, stopping);
    InvParts(t);
    if stopping {
      QuietKeepsGoOnce(s, t);
    } else {
      var i := s.peers[c].role.index;
      var n := s.groups[i].reservation;
      assert !WasAnswered(s, n);
      AnswerReports(s, c, stopping);
      assert t.groups[i].reservation == n && t.groups[i].status != Pending;
      forall k | 0 <= k < |t.sent| && t.sent[k].reply.Go? ensures WasAnswered(t, t.sent[k].reservation) {
        if k < |s.sent| {
          assert t.sent[k] == s.sent[k];
          AnsweredPersists(s, t, s.sent[k].reservation);
        }
      }
    }
  }

  lemma {:induction false} AckGoOnce(s: State, c: Conn, stopping: bool, failing: set<Conn>)
    requires Inv(s) && GoOnce(s)
    ensures GoOnce(AckFrom(s, c, stopping, failing).s)
    decreases s.accepted - c
  {
    hide Inv, GoOnce, Answer, Answered;
    InvParts(s);
    if c < s.accepted {
      if !Answered(s, c, stopping) {
        AckGoOnce(s, c + 1, stopping, failing);
      } else {
        AnswerKeeps(s, c, stopping);
        AnswerLinked(s, c, stopping);
        AnswerGoOnce(s, c, stopping);
        if c !in failing { AckGoOnce(Answer(s, c, stopping), c + 1, stopping, failing); }
      }
    }
  }

  lemma {:induction false} FinishGoOnce(s: State, rows: Snapshot, stopping: bool, now: int, failing: set<Conn>)
    requires Inv(s) && GoOnce(s)
    ensures GoOnce(OnFinish(s, rows, stopping, now, failing).s)
  {
    hide Inv, GoOnce, Forward, AckFrom, DrainFrom, Retire, Settled;
    InvParts(s);
    AckGoOnce(s, 0, stopping, failing);
    AckKeeps(s, 0, stopping, failing);
    var acked := AckFrom(s, 0, stopping, failing);
    if acked.ok {
      AckSettles(s, stopping, failing);
      InvParts(acked.s);
      DrainKeeps(acked.s, 0, rows, now);
      var drained := DrainFrom(acked.s, 0, rows, now);
      QuietKeepsGoOnce(acked.s, drained.s);
      if drained.ok {
        RetireKeeps(drained.s, rows);
        RetireFrame(drained.s, rows);
        QuietKeepsGoOnce(drained.s, Retire(drained.s, rows));
      }
    }
  }

  /** What an action other than the end of an exchange says is never `go`. */
  lemma {:induction false} OnlyFinishSaysGo(s: State, a: Action)
    requires Enabled(s, a) && !a.Finish?
    ensures s.sent <= Step(s, a).s.sent
    ensures forall k :: |s.sent| <= k < |Step(s, a).s.sent| ==> !Step(s, a).s.sent[k].reply.Go?
  {
    hide OnLine;
    if a.Line? { LineSaysNoGo(s, a.conn, a.message, a.rows, a.stopping, a.nonce, a.sendOk); }
  }

  lemma {:induction false} StepGoOnce(s: State, a: Action)
    requires Inv(s) && GoOnce(s) && Enabled(s, a)
    ensures GoOnce(Step(s, a).s)
  {
    hide Inv, GoOnce, Forward, OnFinish;
    StepKeeps(s, a);
    if a.Finish? {
      FinishGoOnce(s, a.rows, a.stopping, a.now, a.failing);
      GoOnceIgnoresHistory(Effect(s, a).s, s.history + [a]);
    } else {
      OnlyFinishSaysGo(s, a);
      QuietKeepsGoOnce(s, Step(s, a).s);
    }
  }

  lemma {:induction false} GoOnceIgnoresHistory(s: State, h: seq<Action>)
    requires GoOnce(s)
    ensures GoOnce(s.(history := h))
  {
    forall k | 0 <= k < |s.sent| && s.sent[k].reply.Go? ensures WasAnswered(s.(history := h), s.sent[k].reservation) {
      var i :| 0 <= i < |s.groups| && s.groups[i].reservation == s.sent[k].reservation && s.groups[i].status != Pending;
      assert s.(history := h).groups[i].reservation == s.sent[k].reservation;
    }
  }

  lemma {:induction false} RunGoOnce(states: seq<State>, actions: seq<Action>, k: nat)
    requires IsRun(states, actions) && k < |states|
    ensures GoOnce(states[k])
  {
    hide Inv, Step, Enabled;
    if k > 0 {
      RunGoOnce(states, actions, k - 1);
      RunKeeps(states, actions, k - 1);
      assert states[k - 1 + 1] == Step(states[k - 1], actions[k - 1]).s;
      StepGoOnce(states[k - 1], actions[k - 1]);
    }
  }

  /** In every run a reservation yields at most one group record and at most one `go`. */
  lemma {:induction false} OneGroupOneGo(states: seq<State>, actions: seq<Action>, k: nat)
    requires IsRun(states, actions) && k < |states|
    ensures forall i, j :: 0 <= i < j < |states[k].groups| ==> states[k].groups[i].reservation != states[k].groups[j].reservation
    ensures forall i, j :: 0 <= i < j < |states[k].sent| && states[k].sent[i].reply.Go? && states[k].sent[j].reply.Go?
              ==> states[k].sent[i].reservation != states[k].sent[j].reservation
    ensures forall i, j :: 0 <= i < j < |states[k].groups| && states[k].groups[i].pid == states[k].groups[j].pid
              ==> states[k].groups[i].retired || states[k].groups[j].retired
  {
    hide IsRun;
    RunGoOnce(states, actions, k);
    RunKeeps(states, actions, k);
  }
}
