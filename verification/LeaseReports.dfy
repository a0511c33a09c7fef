/**
 When the fork report of a reservation is accepted: exactly while it is the
 first one and the registration, if there is one, is still unanswered and for the
 same PID.  A closing exchange answers every registration, so a report that
 comes after it is an error and closing fails; a run that does this is given.
 */
module LeaseReports {
  import opened Prelude
  import opened LeaseModel
  import opened LeaseInvariants

  predicate Ungrouped(s: State, n: Nonce) {
    forall i :: 0 <= i < |s.groups| ==> s.groups[i].reservation != n
  }

  /** Where a launch can be that nobody registered for. */
  predicate Unmoved(l: Launch) { l.status == Reserved || (l.reported && l.status in {Reported, Failed, Drained}) }

  /** A launch anywhere else was moved by the registration of a group. */
  predicate Backed(s: State) {
    forall n :: n in s.launches ==> Unmoved(s.launches[n]) || !Ungrouped(s, n)
  }

  /** Groups keep their reservations, and launches without a group are left alone. */
  predicate Spares(s: State, t: State) {
    && t.launches.Keys == s.launches.Keys && |t.groups| == |s.groups|
    && (forall i :: 0 <= i < |s.groups| ==> t.groups[i].reservation == s.groups[i].reservation)
    && (forall n :: n in s.launches && Ungrouped(s, n) ==> t.launches[n] == s.launches[n])
  }

  lemma {:induction false} SparesTrans(s: State, t: State, u: State)
    requires Spares(s, t) && Spares(t, u)
    ensures Spares(s, u)
  {
    forall n | n in s.launches && Ungrouped(s, n) ensures u.launches[n] == s.launches[n] {
      assert Ungrouped(t, n);
    }
  }

  lemma {:induction false} SparesRefl(s: State)
    ensures Spares(s, s)
  {
  }

  lemma {:induction false} SameGroups(s: State, t: State, n: Nonce)
    requires |t.groups| >= |s.groups| && forall i :: 0 <= i < |s.groups| ==> t.groups[i].reservation == s.groups[i].reservation
    ensures !Ungrouped(s, n) ==> !Ungrouped(t, n)
  {
    if !Ungrouped(s, n) {
      var i :| 0 <= i < |s.groups| && s.groups[i].reservation == n;
      assert t.groups[i].reservation == n;
    }
  }

  lemma {:induction false} SparesBacks(s: State, t: State)
    requires Spares(s, t) && Backed(s) && Forward(s, t)
    ensures Backed(t)
  {
    forall n | n in t.launches ensures Unmoved(t.launches[n]) || !Ungrouped(t, n) {
      SameGroups(s, t, n);
      assert n in s.launches && LaunchForward(s.launches[n], t.launches[n]);
    }
  }

  lemma {:induction false} AdvanceSpares(s: State, i: nat, gs: GroupStatus, ls: LaunchStatus, deadline: int)
    requires Linked(s) && i < |s.groups|
    ensures Spares(s, Advance(s, i, gs, ls, deadline))
  {
  }

  lemma {:induction false} AckSparesUngrouped(s: State, c: Conn, stopping: bool, failing: set<Conn>)
    requires Linked(s)
    ensures Spares(s, AckFrom(s, c, stopping, failing).s)
    decreases s.accepted - c
  {
    hide Spares, Answered, Advance;
    SparesRefl(s);
    if c < s.accepted {
      if !Answered(s, c, stopping) {
        AckSparesUngrouped(s, c + 1, stopping, failing);
      } else {
        AnswerSparesUngrouped(s, c, stopping);
        AnswerLinked(s, c, stopping);
        if c !in failing {
          var t := Answer(s, c, stopping);
          AckSparesUngrouped(t, c + 1, stopping, failing);
          SparesTrans(s, t, AckFrom(t, c + 1, stopping, failing).s);
        }
      }
    }
  }

  lemma {:induction false} AnswerSparesUngrouped(s: State, c: Conn, stopping: bool)
    requires Linked(s) && Answered(s, c, stopping)
    ensures Spares(s, Answer(s, c, stopping))
  {
  }

  lemma {:induction false} DrainSparesUngrouped(s: State, i: nat, rows: Snapshot, now: int)
    requires Linked(s)
    ensures Spares(s, DrainFrom(s, i, rows, now).s)
    decreases |s.groups| - i
  {
    hide Spares, Advance, Live;
    SparesRefl(s);
    if i < |s.groups| {
      AdvanceLinked(s, i, Left, Drained, s.groups[i].deadline);
      var t := Advance(s, i, Left, Drained, s.groups[i].deadline);
      AdvanceSpares(s, i, Left, Drained, s.groups[i].deadline);
      SparesSize(s, t);
      DrainSparesUngrouped(t, i + 1, rows, now);
      SparesTrans(s, t, DrainFrom(t, i + 1, rows, now).s);
      DrainSparesUngrouped(s, i + 1, rows, now);
    }
  }

  lemma {:induction false} SparesSize(s: State, t: State)
    requires Spares(s, t)
    ensures |t.groups| == |s.groups|
  {
  }

  /** Retirement only marks reported launches. */
  lemma {:induction false} RetireBacks(s: State, rows: Snapshot)
    requires Inv(s) && Backed(s)
    ensures Backed(Retire(s, rows))
  {
    hide Inv;
    InvParts(s);
    var t := Retire(s, rows);
    forall n | n in t.launches ensures Unmoved(t.launches[n]) || !Ungrouped(t, n) {
      assert LaunchOk(s.launches[n]);
      SameGroups(s, t, n);
    }
  }

  lemma {:induction false} FinishBacks(s: State, rows: Snapshot, stopping: bool, now: int, failing: set<Conn>)
    requires Inv(s) && Backed(s)
    ensures Backed(OnFinish(s, rows, stopping, now, failing).s)
  {
    hide Inv, Backed, AckFrom, DrainFrom, Forward, Settled, Spares, Retire;
    InvParts(s);
    AckKeeps(s, 0, stopping, failing);
    AckSparesUngrouped(s, 0, stopping, failing);
    var acked := AckFrom(s, 0, stopping, failing);
    SparesBacks(s, acked.s);
    if acked.ok {
      AckSettles(s, stopping, failing);
      InvParts(acked.s);
      DrainKeeps(acked.s, 0, rows, now);
      DrainSparesUngrouped(acked.s, 0, rows, now);
      SparesBacks(acked.s, DrainFrom(acked.s, 0, rows, now).s);
      RetireBacks(DrainFrom(acked.s, 0, rows, now).s, rows);
    }
  }

  lemma {:induction false} LineBacks(s: State, c: Conn, m: Message, rows: Snapshot, stopping: bool, nonce: Nonce, sendOk: bool)
    requires Linked(s) && Backed(s) && c in s.peers && s.peers[c].inbox != []
    ensures Backed(OnLine(s, c, m, rows, stopping, nonce, sendOk).s)
  {
    var t := OnLine(s, c, m, rows, stopping, nonce, sendOk).s;
    if m.Register? && s.peers[c].role.NoRole? && |t.groups| > |s.groups| { assert t.groups[|s.groups|].reservation == m.reservation; }
    forall n | n in t.launches ensures Unmoved(t.launches[n]) || !Ungrouped(t, n) {
      SameGroups(s, t, n);
    }
  }

  lemma {:induction false} HangupBacks(s: State, c: Conn, rows: Snapshot, now: int)
    requires Linked(s) && Backed(s) && c in s.peers
    ensures Backed(OnHangup(s, c, rows, now))
  {
    hide Live;
    var t := OnHangup(s, c, rows, now);
    forall n | n in t.launches ensures Unmoved(t.launches[n]) || !Ungrouped(t, n) {
      SameGroups(s, t, n);
      if s.peers[c].role.Leader? {
        var i := s.peers[c].role.index;
        assert t.groups[i].reservation == s.groups[i].reservation;
      }
    }
  }

  lemma {:induction false} BackedByRecords(s: State, t: State)
    requires Backed(s) && t.launches == s.launches && |t.groups| == |s.groups|
    requires forall i :: 0 <= i < |s.groups| ==> t.groups[i].reservation == s.groups[i].reservation
    ensures Backed(t)
  {
    forall n | n in t.launches ensures Unmoved(t.launches[n]) || !Ungrouped(t, n) {
      SameGroups(s, t, n);
    }
  }

  lemma {:induction false} StepBacks(s: State, a: Action)
    requires Inv(s) && Backed(s) && Enabled(s, a)
    ensures Backed(Step(s, a).s)
  {
    hide Inv, Backed, OnLine, OnHangup, OnFinish;
    InvParts(s);
    var t := Effect(s, a).s;
    match a {
      case Line(c, m, rows, stopping, nonce, sendOk) => LineBacks(s, c, m, rows, stopping, nonce, sendOk);
      case Hangup(c, rows, now) => HangupBacks(s, c, rows, now);
      case Finish(rows, stopping, now, failing) => FinishBacks(s, rows, stopping, now, failing);
      case Revoke => BackedByRecords(s, t);
      case Bind(_) => BackedByRecords(s, t);
      case Accept(_, _) => BackedByRecords(s, t);
      case Receive(_, _, _) => BackedByRecords(s, t);
      case Drop(_) => BackedByRecords(s, t);
    }
    BackedByRecords(t, Step(s, a).s);
  }

  /** In every state of every run. */
  lemma {:induction false} RunBacks(states: seq<State>, actions: seq<Action>, k: nat)
    requires IsRun(states, actions) && k < |states|
    ensures Backed(states[k])
  {
    hide Inv, Step, Enabled;
    if k > 0 {
      RunBacks(states, actions, k - 1);
      RunKeeps(states, actions, k - 1);
      assert states[k - 1 + 1] == Step(states[k - 1], actions[k - 1]).s;
      StepBacks(states[k - 1], actions[k - 1]);
    }
  }

  // ---- Exactly when a report is taken ------------------------------------------------------

  predicate IsReport(m: Message) { m.Spawned? || m.SpawnFailed? }

  /** The report can still be made: it was not, and no registration of the reservation has been answered. */
  predicate OpenTo(s: State, n: Nonce, m: Message)
    requires n in s.launches
  {
    && !s.launches[n].reported
    && (forall i :: 0 <= i < |s.groups| && s.groups[i].reservation == n ==> s.groups[i].status == Pending)
    && (m.Spawned? ==>
          && m.child.Some? && m.child.value > 0
          && forall i :: 0 <= i < |s.groups| && s.groups[i].reservation == n ==> s.groups[i].pid == m.child.value)
    && (m.SpawnFailed? ==> Ungrouped(s, n))
  }

  lemma {:induction false} TakenIsOpen(s: State, n: Nonce, l: Launch)
    requires Inv(s) && n in s.launches && l == s.launches[n] && !l.reported && l.status in {Reserved, Registering}
    ensures forall i :: 0 <= i < |s.groups| && s.groups[i].reservation == n ==> s.groups[i].status == Pending && l.pid == Some(s.groups[i].pid)
  {
    assert LaunchOk(l);
    forall i | 0 <= i < |s.groups| && s.groups[i].reservation == n ensures s.groups[i].status == Pending && l.pid == Some(s.groups[i].pid) {
      assert GroupOk(s, s.groups[i]);
    }
  }

  lemma {:induction false} OpenStatus(s: State, n: Nonce)
    requires Inv(s) && Backed(s) && n in s.launches && !s.launches[n].reported
    requires forall i :: 0 <= i < |s.groups| && s.groups[i].reservation == n ==> s.groups[i].status == Pending
    ensures s.launches[n].status in {Reserved, Registering}
    ensures Ungrouped(s, n) ==> s.launches[n].pid.None?
    ensures forall i :: 0 <= i < |s.groups| && s.groups[i].reservation == n ==> s.launches[n].pid == Some(s.groups[i].pid)
  {
    assert LaunchOk(s.launches[n]);
    forall i | 0 <= i < |s.groups| && s.groups[i].reservation == n
      ensures s.launches[n].pid == Some(s.groups[i].pid) && s.launches[n].status == Registering
    {
      assert GroupOk(s, s.groups[i]);
    }
  }

  /**
   In every reachable state the parent's report is taken if and only if it is the first one, no registration of the
   reservation has been answered, and a forked PID is the registered one or a failed fork has no registration.
   */
  lemma {:induction false} ReportTaken(s: State, p: Conn, m: Message, rows: Snapshot, stopping: bool, nonce: Nonce)
    requires Inv(s) && Backed(s) && p in s.peers && s.peers[p].role.Parent? && s.peers[p].inbox != [] && (m.Spawned? || m.SpawnFailed?)
    ensures s.peers[p].role.reservation in s.launches
    ensures OnLine(s, p, m, rows, stopping, nonce, true).ok <==> OpenTo(s, s.peers[p].role.reservation, m)
  {
    hide Inv, Backed;
    InvParts(s);
    var n := s.peers[p].role.reservation;
    var l := s.launches[n];
    if !l.reported && l.status in {Reserved, Registering} {
      TakenIsOpen(s, n, l);
      if l.pid.Some? && Ungrouped(s, n) { OpenStatus(s, n); }
    }
    if OpenTo(s, n, m) {
      OpenStatus(s, n);
      if !Ungrouped(s, n) { var i :| 0 <= i < |s.groups| && s.groups[i].reservation == n; }
    }
  }

  /** The same, for the states of a run. */
  lemma {:induction false} RunReportTaken(states: seq<State>, actions: seq<Action>, k: nat, p: Conn, m: Message, rows: Snapshot,
                                          stopping: bool, nonce: Nonce)
    requires IsRun(states, actions) && k < |states| && p in states[k].peers && states[k].peers[p].role.Parent?
    requires states[k].peers[p].inbox != [] && IsReport(m)
    ensures Linked(states[k]) && states[k].peers[p].role.reservation in states[k].launches
    ensures OnLine(states[k], p, m, rows, stopping, nonce, true).ok <==> OpenTo(states[k], states[k].peers[p].role.reservation, m)
  {
    hide Inv, Backed, IsRun, OnLine, OpenTo;
    RunKeeps(states, actions, k);
    RunBacks(states, actions, k);
    InvParts(states[k]);
    ReportTaken(states[k], p, m, rows, stopping, nonce);
  }

  // ---- Reports that come too late ------------------------------------------------------------

  /** Reported already, or its registration answered: neither is ever undone. */
  predicate Shut(s: State, n: Nonce) {
    n in s.launches && (s.launches[n].reported || exists i :: 0 <= i < |s.groups| && s.groups[i].reservation == n && s.groups[i].status != Pending)
  }

  lemma {:induction false} ShutStays(s: State, t: State, n: Nonce)
    requires Shut(s, n) && Forward(s, t)
    ensures Shut(t, n)
  {
    assert LaunchForward(s.launches[n], t.launches[n]);
    if !s.launches[n].reported {
      var i :| 0 <= i < |s.groups| && s.groups[i].reservation == n && s.groups[i].status != Pending;
      assert GroupForward(s.groups[i], t.groups[i]);
      assert t.groups[i].reservation == n && t.groups[i].status != Pending;
    }
  }

  /** The next line of a connection is a report that comes too late. */
  predicate Overdue(s: State, p: Conn) {
    && p in s.peers && s.peers[p].role.Parent? && s.peers[p].inbox != [] && IsReport(s.peers[p].inbox[0])
    && Shut(s, s.peers[p].role.reservation)
  }

  /** An exchange is about to read such a report. */
  predicate Late(s: State, received: map<Conn, (seq<Message>, bool)>, p: Conn) {
    && p in s.peers && s.peers[p].role.Parent? && s.peers[p].inbox == [] && Shut(s, s.peers[p].role.reservation)
    && p in received && received[p].0 != [] && IsReport(received[p].0[0])
  }

  lemma {:induction false} OverdueFails(s: State, p: Conn, rows: Snapshot, stopping: bool, nonce: Nonce, sendOk: bool)
    requires Inv(s) && Overdue(s, p)
    ensures Linked(s) && !OnLine(s, p, s.peers[p].inbox[0], rows, stopping, nonce, sendOk).ok
  {
    hide Inv;
    InvParts(s);
    var n := s.peers[p].role.reservation;
    if !s.launches[n].reported {
      var i :| 0 <= i < |s.groups| && s.groups[i].reservation == n && s.groups[i].status != Pending;
      assert GroupOk(s, s.groups[i]);
    }
  }

  lemma {:induction false} OverdueStays(s: State, t: State, p: Conn)
    requires Overdue(s, p) && Forward(s, t) && p in t.peers && t.peers[p] == s.peers[p]
    ensures Overdue(t, p)
  {
    hide Forward, Shut;
    ShutStays(s, t, s.peers[p].role.reservation);
  }

  // ---- A run in which closing meets one --------------------------------------------------------

  /** Root 1, its child 2 that launches, and the supervisor 3 leading its own group. */
  const ROWS: Snapshot := map[1 := Process(1, false), 2 := Process(1, false), 3 := Process(3, false)]
  const SPAWNED := Spawned(Some(3))
  const REGISTER := Register("n", Some(3), CONTRACT, true)

  /** Reserve; register and refuse in the first closing exchange; revoke; then the fork report arrives. */
  const STORY: seq<Action> := [
    Bind(1), Accept(0, 2), Receive(0, [Reserve], false), Line(0, Reserve, ROWS, false, "n", true), Finish(ROWS, false, 0, {}),
    Accept(1, 3), Receive(1, [REGISTER], false), Line(1, REGISTER, ROWS, true, "r", true), Finish(ROWS, true, 0, {}),
    Revoke, Receive(0, [SPAWNED], false)]

  const PARENT := Peer(2, Parent("n"), [], false)
  const RESERVED := Launch(2, Reserved, false, None)
  const GRANTED := [Sent(0, Token("n"), "n", 3)]

  function After(accepted: nat, peers: map<Conn, Peer>, launches: map<Nonce, Launch>, groups: seq<Group>, sent: seq<Sent>, k: nat): State
    requires k <= |STORY|
  {
    State(accepted, peers, launches, groups, if k == 0 then None else Some(1), sent, STORY[..k])
  }

  lemma {:induction false} Tell(s: State, k: nat, t: State)
    requires Reachable(s) && k < |STORY| && s.history == STORY[..k] && Enabled(s, STORY[k])
    requires Effect(s, STORY[k]).ok && Effect(s, STORY[k]).s.(history := STORY[..k + 1]) == t
    ensures Reachable(t) && Step(s, STORY[k]) == Outcome(t, true)
  {
    hide Reachable, Enabled, Effect;
    ReachStep(s, STORY[k]);
    assert STORY[..k + 1] == STORY[..k] + [STORY[k]];
  }

  const S4 := After(1, map[0 := PARENT], map["n" := RESERVED], [], GRANTED, 4)
  const S8 := After(2, map[0 := PARENT, 1 := Peer(3, Leader(0), [], false)], map["n" := Launch(2, Registering, false, Some(3))],
                    [Group(3, Pending, "n", false, 0)], GRANTED, 8)
  const REFUSAL := GRANTED + [Sent(1, Stop, "n", 8)]
  const S9 := After(2, map[0 := PARENT, 1 := Peer(3, Leader(0), [], false)], map["n" := Launch(2, Registered, false, Some(3))],
                    [Group(3, Refused, "n", false, 0)], REFUSAL, 9)
  const S10 := After(2, map[0 := PARENT], map["n" := Launch(2, Registered, false, Some(3))], [Group(3, Revoked, "n", false, 0)], REFUSAL, 10)
  const S11 := S10.(peers := map[0 := PARENT.(inbox := [SPAWNED])], history := STORY)

  lemma {:induction false} StoryReserves()
    ensures Reachable(S4)
  {
    hide Reachable;
    ReachInitial();
    var s0 := After(0, map[], map[], [], [], 0);
    assert s0 == INITIAL by { assert STORY[..0] == []; }
    var s1 := After(0, map[], map[], [], [], 1);
    Tell(s0, 0, s1);
    var s2 := After(1, map[0 := Peer(2, NoRole, [], false)], map[], [], [], 2);
    Tell(s1, 1, s2);
    var s3 := After(1, map[0 := Peer(2, NoRole, [Reserve], false)], map[], [], [], 3);
    assert [] + [Reserve] == [Reserve];
    Tell(s2, 2, s3);
    StoryLine3(s3);
  }

  lemma {:induction false} StoryLine3(s: State)
    requires Reachable(s) && s == After(1, map[0 := Peer(2, NoRole, [Reserve], false)], map[], [], [], 3)
    ensures Reachable(S4)
  {
    hide Reachable;
    assert |s.history| == 3;
    assert STORY[3] == Line(0, Reserve, ROWS, false, "n", true);
    forall j | 0 <= j < 3 ensures !s.history[j].Line? { assert s.history[j] == STORY[j]; }
    assert Enabled(s, STORY[3]);
    assert [Reserve][1..] == [];
    var o := OnLine(s, 0, Reserve, ROWS, false, "n", true);
    assert o.s.sent == GRANTED;
    assert o.ok && o.s.(history := STORY[..4]) == S4;
    Tell(s, 3, S4);
  }

  lemma {:induction false} StoryFinish4()
    ensures Enabled(S4, STORY[4]) && OnFinish(S4, ROWS, false, 0, {}) == Outcome(S4, true)
  {
    assert !Answered(S4, 0, false);
    assert AckFrom(S4, 1, false, {}) == Outcome(S4, true);
    assert AckFrom(S4, 0, false, {}) == Outcome(S4, true);
    assert DrainFrom(S4, 0, ROWS, 0) == Outcome(S4, true);
    assert Retire(S4, ROWS).launches == S4.launches;
  }

  lemma {:induction false} StoryRegisters()
    ensures Reachable(S8)
  {
    hide Reachable, OnFinish;
    StoryReserves();
    StoryFinish4();
    var s5 := After(1, S4.peers, S4.launches, [], GRANTED, 5);
    Tell(S4, 4, s5);
    StoryConnects(s5);
  }

  lemma {:induction false} StoryConnects(s: State)
    requires Reachable(s) && s == After(1, map[0 := PARENT], map["n" := RESERVED], [], GRANTED, 5)
    ensures Reachable(S8)
  {
    hide Reachable, OnFinish, OnLine;
    assert STORY[5] == Accept(1, 3);
    var s6 := After(2, map[0 := PARENT, 1 := Peer(3, NoRole, [], false)], s.launches, [], GRANTED, 6);
    Tell(s, 5, s6);
    StorySpeaks(s6);
  }

  lemma {:induction false} StorySpeaks(s: State)
    requires Reachable(s) && s == After(2, map[0 := PARENT, 1 := Peer(3, NoRole, [], false)], map["n" := RESERVED], [], GRANTED, 6)
    ensures Reachable(S8)
  {
    hide Reachable, OnFinish, OnLine;
    assert STORY[6] == Receive(1, [REGISTER], false);
    var s7 := After(2, map[0 := PARENT, 1 := Peer(3, NoRole, [REGISTER], false)], s.launches, [], GRANTED, 7);
    assert [] + [REGISTER] == [REGISTER];
    Tell(s, 6, s7);
    StoryLine7(s7);
  }

  lemma {:induction false} StoryLine7(s: State)
    requires Reachable(s) && s == After(2, map[0 := PARENT, 1 := Peer(3, NoRole, [REGISTER], false)], map["n" := RESERVED], [], GRANTED, 7)
    ensures Reachable(S8)
  {
    hide Reachable;
    assert STORY[7] == Line(1, REGISTER, ROWS, true, "r", true);
    forall j | 0 <= j < 7 && s.history[j].Line? ensures s.history[j].nonce != "r" { assert s.history[j] == STORY[j]; }
    assert Enabled(s, STORY[7]);
    assert [REGISTER][1..] == [] && [] + [Group(3, Pending, "n", false, 0)] == [Group(3, Pending, "n", false, 0)];
    var o := OnLine(s, 1, REGISTER, ROWS, true, "r", true);
    assert o.ok;
    assert o.s.(history := STORY[..8]) == S8;
    Tell(s, 7, S8);
  }

  const ANSWERED := S9.(history := STORY[..8])

  lemma {:induction false} StoryAnswer()
    ensures Linked(S8) && Linked(ANSWERED) && !Answered(S8, 0, true) && Answered(S8, 1, true) && Answer(S8, 1, true) == ANSWERED
  {
    assert |S8.history| == 8;
  }

  lemma {:induction false} StoryAck()
    ensures Linked(S8) && AckFrom(S8, 0, true, {}) == Outcome(ANSWERED, true)
  {
    hide Answered, Answer, Linked;
    StoryAnswer();
    assert AckFrom(ANSWERED, 2, true, {}) == Outcome(ANSWERED, true);
    assert AckFrom(S8, 1, true, {}) == Outcome(ANSWERED, true);
  }

  lemma {:induction false} StoryDrain()
    ensures Linked(ANSWERED) && DrainFrom(ANSWERED, 0, ROWS, 0) == Outcome(ANSWERED, true) && Retire(ANSWERED, ROWS) == ANSWERED
  {
    hide Live;
    assert DrainFrom(ANSWERED, 1, ROWS, 0) == Outcome(ANSWERED, true);
    assert Retire(ANSWERED, ROWS).launches == ANSWERED.launches;
  }

  /** The first closing exchange completes: it refuses the supervisor. */
  lemma {:induction false} StoryRefuses()
    ensures Enabled(S8, STORY[8]) && OnFinish(S8, ROWS, true, 0, {}).ok && OnFinish(S8, ROWS, true, 0, {}).s.(history := STORY[..9]) == S9
  {
    hide AckFrom, DrainFrom, Retire, Linked;
    StoryAck();
    StoryDrain();
  }

  lemma {:induction false} StoryRevokes()
    ensures Enabled(S9, STORY[9]) && OnRevoke(S9).(history := STORY[..10]) == S10
  {
    assert S9.peers[1].role == Leader(0) && 1 in S9.peers;
    assert RevokedGroups(S9) == S10.groups;
    assert OnRevoke(S9).peers == S10.peers;
  }

  /**
   Closing can fail on a fork report: a reachable state in which the first closing exchange has completed and its
   leases are revoked, the parent's report is still to come, and reading it makes the next closing line fail.
   */
  lemma {:induction false} LateReportRun()
    ensures Reachable(S10) && S10.history == STORY[..10] && Late(S10, map[0 := ([SPAWNED], false)], 0)
    ensures Reachable(S11) && S11.history == STORY
    ensures Enabled(S11, Line(0, SPAWNED, ROWS, true, "s", true))
    ensures !Step(S11, Line(0, SPAWNED, ROWS, true, "s", true)).ok
  {
    hide Reachable, Enabled, Step;
    StoryCloses();
    StoryReports();
    StoryFails();
    assert S10.groups[0].reservation == "n" && S10.groups[0].status != Pending;
  }

  lemma {:induction false} StoryCloses()
    ensures Reachable(S10)
  {
    hide Reachable, OnFinish, OnRevoke, Enabled;
    StoryRegisters();
    StoryRefuses();
    assert STORY[8] == Finish(ROWS, true, 0, {}) && STORY[9] == Revoke;
    Tell(S8, 8, S9);
    StoryRevokes();
    Tell(S9, 9, S10);
  }

  lemma {:induction false} StoryReports()
    requires Reachable(S10)
    ensures Reachable(S11)
  {
    hide Reachable;
    assert STORY[10] == Receive(0, [SPAWNED], false);
    assert [] + [SPAWNED] == [SPAWNED] && STORY[..11] == STORY;
    assert Effect(S10, STORY[10]).s.peers == S11.peers;
    Tell(S10, 10, S11);
  }

  lemma {:induction false} StoryFails()
    requires Reachable(S11)
    ensures Enabled(S11, Line(0, SPAWNED, ROWS, true, "s", true)) && !Step(S11, Line(0, SPAWNED, ROWS, true, "s", true)).ok
  {
    hide Reachable, Inv;
    ReachInv(S11);
    InvParts(S11);
    assert Overdue(S11, 0) by { assert S11.groups[0].reservation == "n" && S11.groups[0].status != Pending; }
    OverdueFails(S11, 0, ROWS, true, "s", true);
  }
}
