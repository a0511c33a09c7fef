/**
 What every action of the guard keeps, including an action that aborts its
 exchange: the bookkeeping invariant `Inv`, and that records only ever move
 forward (`Forward`).
 */
module LeaseInvariants {
  import opened Prelude
  import opened LeaseModel

  /** The status of a group and of the launch it was registered for agree. */
  predicate Agrees(gs: GroupStatus, l: Launch) {
    match gs
    case Pending => l.status == if l.reported then Reported else Registering
    case Acknowledged => l.status == Registered && l.reported
    case Releasing => l.status == Registered && l.reported
    case Refused => l.status == Registered
    case Revoked => l.status == Registered
    case Leaving => l.status == Draining
    case Left => l.status == Drained
  }

  predicate GroupOk(s: State, g: Group) {
    && g.reservation in s.launches
    && s.launches[g.reservation].pid == Some(g.pid)
    && Agrees(g.status, s.launches[g.reservation])
    && (g.retired <==> g.status == Left)
  }

  predicate Groups(s: State) {
    forall i :: 0 <= i < |s.groups| ==> GroupOk(s, s.groups[i])
  }

  predicate LaunchOk(l: Launch) {
    match l.status
    case Reserved => l.pid.None? && !l.reported
    case Registering => l.pid.Some? && !l.reported
    case Reported => l.pid.Some? && l.reported
    case Failed => l.pid.None? && l.reported
    case _ => l.pid.Some?
  }

  predicate Launches(s: State) {
    forall n :: n in s.launches ==> LaunchOk(s.launches[n])
  }

  /** A connected leader holds its own live group. */
  predicate LeaderOk(s: State, c: Conn)
    requires c in s.peers
  {
    s.peers[c].role.Leader? ==>
      && s.peers[c].role.index < |s.groups|
      && s.groups[s.peers[c].role.index].pid == s.peers[c].pid
      && s.groups[s.peers[c].role.index].status in {Pending, Acknowledged, Refused, Releasing}
  }

  predicate Leaders(s: State) {
    && (forall c :: c in s.peers ==> LeaderOk(s, c))
    && (forall c, d :: c in s.peers && d in s.peers && c != d && s.peers[c].role.Leader? ==> s.peers[c].role != s.peers[d].role)
  }

  /** A reservation has at most one group, and a PID at most one group that is not retired. */
  predicate Unique(s: State) {
    && (forall i, j :: 0 <= i < j < |s.groups| ==> s.groups[i].reservation != s.groups[j].reservation)
    && (forall i, j :: 0 <= i < j < |s.groups| && s.groups[i].pid == s.groups[j].pid ==> s.groups[i].retired || s.groups[j].retired)
  }

  predicate Led(s: State, i: nat) {
    exists c :: c in s.peers && s.peers[c].role == Leader(i)
  }

  /** A group waits for its acknowledgment only while its supervisor is connected. */
  predicate PendingLed(s: State) {
    forall i :: 0 <= i < |s.groups| && s.groups[i].status == Pending ==> Led(s, i)
  }

  predicate Inv(s: State) {
    Linked(s) && Groups(s) && Launches(s) && Leaders(s) && Unique(s) && PendingLed(s)
  }

  lemma {:induction false} InvParts(s: State)
    requires Inv(s)
    ensures Linked(s) && Groups(s) && Launches(s) && Leaders(s) && Unique(s) && PendingLed(s)
  {
  }

  // ---- Forward motion ----------------------------------------------------------

  function Rank(st: LaunchStatus): nat {
    match st
    case Reserved => 0
    case Registering => 1
    case Reported => 2
    case Registered => 3
    case Draining => 4
    case Drained => 5
    case Failed => 6
  }

  /** A launch keeps its parent, its PID once known and its report once made, and its status only advances. */
  predicate LaunchForward(a: Launch, b: Launch) {
    && a.parent == b.parent
    && (a.pid.Some? ==> b.pid == a.pid)
    && (a.reported ==> b.reported)
    && Rank(a.status) <= Rank(b.status)
    && (b.status == Failed ==> a.status in {Reserved, Failed})
  }

  function GroupRank(st: GroupStatus): nat {
    match st
    case Pending => 0
    case Acknowledged => 1
    case Refused => 1
    case Releasing => 2
    case Leaving => 3
    case Left => 4
    case Revoked => 5
  }

  /** A group keeps its PID and reservation, and its status only advances; once retired nothing changes it. */
  predicate GroupForward(a: Group, b: Group) {
    && a.pid == b.pid && a.reservation == b.reservation
    && (a.retired ==> b.retired && b.status == a.status)
    && (b.status == a.status || GroupRank(a.status) < GroupRank(b.status))
  }

  predicate Forward(s: State, t: State) {
    && (forall n :: n in s.launches ==> n in t.launches && LaunchForward(s.launches[n], t.launches[n]))
    && |s.groups| <= |t.groups|
    && (forall i :: 0 <= i < |s.groups| ==> GroupForward(s.groups[i], t.groups[i]))
    && s.accepted <= t.accepted
    && s.sent <= t.sent
  }

  lemma {:induction false} ForwardRefl(s: State)
    ensures Forward(s, s)
  {
  }

  lemma {:induction false} ForwardTrans(s: State, t: State, u: State)
    requires Forward(s, t) && Forward(t, u)
    ensures Forward(s, u)
  {
    forall n | n in s.launches ensures n in u.launches && LaunchForward(s.launches[n], u.launches[n]) {
      assert LaunchForward(t.launches[n], u.launches[n]);
    }
    forall i | 0 <= i < |s.groups| ensures GroupForward(s.groups[i], u.groups[i]) {
      assert GroupForward(t.groups[i], u.groups[i]);
    }
  }

  // ---- Messages ------------------------------------------------------------------

  /** Groups that still wait were waiting before, and their leaders are still there. */
  lemma {:induction false} StillLed(s: State, t: State)
    requires PendingLed(s)
    requires forall i :: 0 <= i < |t.groups| && t.groups[i].status == Pending ==> i < |s.groups| && s.groups[i].status == Pending
    requires forall d :: d in s.peers && s.peers[d].role.Leader? && s.peers[d].role.index < |t.groups| && t.groups[s.peers[d].role.index].status == Pending
               ==> d in t.peers && t.peers[d].role == s.peers[d].role
    ensures PendingLed(t)
  {
    forall i | 0 <= i < |t.groups| && t.groups[i].status == Pending ensures Led(t, i) {
      assert Led(s, i);
      var d :| d in s.peers && s.peers[d].role == Leader(i);
      assert d in t.peers && t.peers[d].role == Leader(i);
    }
  }

  /** Reading from a peer, or only writing to it, touches no record. */
  lemma {:induction false} PeerChanged(s: State, c: Conn, inbox: seq<Message>, eof: bool)
    requires Inv(s) && c in s.peers
    ensures Inv(s.(peers := s.peers[c := s.peers[c].(inbox := inbox, eof := eof)]))
  {
    var t := s.(peers := s.peers[c := s.peers[c].(inbox := inbox, eof := eof)]);
    assert forall d :: d in t.peers ==> d in s.peers && t.peers[d].role == s.peers[d].role && t.peers[d].pid == s.peers[d].pid;
    StillLed(s, t);
  }

  lemma {:induction false} SayKeeps(s: State, c: Conn, reply: Reply, n: Nonce, ok: bool)
    requires Inv(s)
    ensures Inv(Say(s, c, reply, n, ok).s) && Forward(s, Say(s, c, reply, n, ok).s)
  {
    var t := Say(s, c, reply, n, ok).s;
    StillLed(s, t);
  }

  /** Nothing refers to a nonce that was never recorded. */
  lemma {:induction false} NewLaunch(s: State, c: Conn, n: Nonce, l: Launch)
    requires Inv(s) && c in s.peers && s.peers[c].role.NoRole? && n !in s.launches && LaunchOk(l)
    ensures
      var t := WithRole(WithLaunch(s, n, l), c, Parent(n));
      Inv(t) && Forward(s, t)
  {
    var t := WithRole(WithLaunch(s, n, l), c, Parent(n));
    assert Groups(t) by {
      forall i | 0 <= i < |t.groups| ensures GroupOk(t, t.groups[i]) { assert GroupOk(s, s.groups[i]); }
    }
    assert Leaders(t) by {
      forall d | d in t.peers ensures LeaderOk(t, d) { assert LeaderOk(s, d); }
    }
    assert Forward(s, t) && Linked(t) && Launches(t);
    StillLed(s, t);
  }

  /** A launch record moves on while every group registered for it still agrees with it. */
  lemma {:induction false} LaunchMoves(s: State, n: Nonce, l: Launch)
    requires Inv(s) && n in s.launches && LaunchOk(l) && LaunchForward(s.launches[n], l)
    requires forall i :: 0 <= i < |s.groups| && s.groups[i].reservation == n ==> l.pid == Some(s.groups[i].pid) && Agrees(s.groups[i].status, l)
    ensures Inv(WithLaunch(s, n, l)) && Forward(s, WithLaunch(s, n, l))
  {
    var t := WithLaunch(s, n, l);
    assert Groups(t) by {
      forall i | 0 <= i < |t.groups| ensures GroupOk(t, t.groups[i]) { assert GroupOk(s, s.groups[i]); }
    }
    StillLed(s, t);
  }

  lemma {:induction false} ReportKeeps(s: State, c: Conn, m: Message, sendOk: bool)
    requires Inv(s) && c in s.peers && s.peers[c].role.Parent? && (m.Spawned? || m.SpawnFailed?)
    ensures Inv(OnReport(s, c, m, sendOk).s) && Forward(s, OnReport(s, c, m, sendOk).s)
  {
    hide Inv, Forward, PendingLed, Unique, Leaders;
    ForwardRefl(s);
    var n := s.peers[c].role.reservation;
    InvParts(s);
    var l := s.launches[n];
    if l.reported || l.status !in {Reserved, Registering} {
    } else if m.Spawned? && m.child.Some? && m.child.value > 0 && (l.pid.None? || l.pid == m.child) {
      var l' := l.(status := Reported, pid := m.child, reported := true);
      forall i | 0 <= i < |s.groups| && s.groups[i].reservation == n
        ensures l'.pid == Some(s.groups[i].pid) && Agrees(s.groups[i].status, l')
      {
        assert GroupOk(s, s.groups[i]);
      }
      LaunchMoves(s, n, l');
      SayKeeps(WithLaunch(s, n, l'), c, Recorded, n, sendOk);
      ForwardTrans(s, WithLaunch(s, n, l'), OnReport(s, c, m, sendOk).s);
    } else if m.SpawnFailed? && l.pid.None? {
      var l' := l.(status := Failed, reported := true);
      forall i | 0 <= i < |s.groups| ensures s.groups[i].reservation != n { assert GroupOk(s, s.groups[i]); }
      LaunchMoves(s, n, l');
      SayKeeps(WithLaunch(s, n, l'), c, Recorded, n, sendOk);
      ForwardTrans(s, WithLaunch(s, n, l'), OnReport(s, c, m, sendOk).s);
    }
  }

  lemma {:induction false} ReserveKeeps(s: State, c: Conn, rows: Snapshot, stopping: bool, nonce: Nonce, sendOk: bool)
    requires Inv(s) && c in s.peers && s.peers[c].role.NoRole? && nonce !in s.launches
    ensures
      var t := OnReserve(s, c, rows, stopping, nonce, sendOk).s;
      Inv(t) && Forward(s, t)
  {
    hide Inv, Forward;
    ForwardRefl(s);
    if stopping {
      SayKeeps(s, c, Stop, "", sendOk);
    } else {
      var l := Launch(s.peers[c].pid, Reserved, false, None);
      NewLaunch(s, c, nonce, l);
      var t := WithRole(WithLaunch(s, nonce, l), c, Parent(nonce));
      SayKeeps(t, c, Token(nonce), nonce, sendOk);
      ForwardTrans(s, t, Say(t, c, Token(nonce), nonce, sendOk).s);
    }
  }

  /** A registrable reservation has no group yet: a live one would share the supervisor's PID. */
  lemma {:induction false} Unregistered(s: State, c: Conn, m: Message, rows: Snapshot, i: nat)
    requires Inv(s) && c in s.peers && m.Register? && Registrable(s, c, m, rows) && i < |s.groups|
    ensures s.groups[i].reservation != m.reservation
  {
    assert GroupOk(s, s.groups[i]) && LaunchOk(s.launches[m.reservation]);
  }

  lemma {:induction false} RegisterKeeps(s: State, c: Conn, m: Message, rows: Snapshot)
    requires Inv(s) && c in s.peers && s.peers[c].role.NoRole? && m.Register?
    ensures Inv(OnRegister(s, c, m, rows).s) && Forward(s, OnRegister(s, c, m, rows).s)
  {
    ForwardRefl(s);
    if Registrable(s, c, m, rows) {
      var t := OnRegister(s, c, m, rows).s;
      forall i | 0 <= i < |s.groups| ensures s.groups[i].reservation != m.reservation { Unregistered(s, c, m, rows, i); }
      assert LaunchOk(s.launches[m.reservation]);
      RegisterParts(s, c, m, t);
      assert Linked(t) && Launches(t);
    }
  }

  /** `t` is `s` with the supervisor on `c` registered for `m`. */
  ghost predicate Enrolled(s: State, c: Conn, m: Message, t: State) {
    && Inv(s) && c in s.peers && s.peers[c].role.NoRole? && m.Register? && m.reservation in s.launches
    && (forall i :: 0 <= i < |s.groups| ==> s.groups[i].reservation != m.reservation)
    && var l := s.launches[m.reservation];
    && l.status in {Reserved, Reported} && (l.pid.Some? ==> l.pid.value == s.peers[c].pid) && LaunchOk(l)
    && t == WithRole(WithLaunch(s.(groups := s.groups + [Group(s.peers[c].pid, Pending, m.reservation, false, 0)]),
                                m.reservation,
                                l.(pid := Some(s.peers[c].pid), status := if l.reported then Reported else Registering)),
                     c, Leader(|s.groups|))
  }

  lemma {:induction false} RegisterParts(s: State, c: Conn, m: Message, t: State)
    requires Enrolled(s, c, m, t)
    ensures Groups(t) && Leaders(t) && PendingLed(t) && Forward(s, t)
  {
    hide Enrolled;
    RegisterGroups(s, c, m, t);
    RegisterLeaders(s, c, m, t);
    RegisterLed(s, c, m, t);
    RegisterForward(s, c, m, t);
  }

  lemma {:induction false} RegisterGroups(s: State, c: Conn, m: Message, t: State)
    requires Enrolled(s, c, m, t)
    ensures Groups(t)
  {
    forall i | 0 <= i < |t.groups| ensures GroupOk(t, t.groups[i]) {
      if i < |s.groups| { assert GroupOk(s, s.groups[i]); }
    }
  }

  lemma {:induction false} RegisterLeaders(s: State, c: Conn, m: Message, t: State)
    requires Enrolled(s, c, m, t)
    ensures Leaders(t)
  {
    forall d | d in t.peers ensures LeaderOk(t, d) { assert d in s.peers && LeaderOk(s, d); }
    forall d, e | d in t.peers && e in t.peers && d != e && t.peers[d].role.Leader? ensures t.peers[d].role != t.peers[e].role {
      assert d in s.peers && e in s.peers && LeaderOk(s, d) && LeaderOk(s, e);
    }
  }

  lemma {:induction false} RegisterLed(s: State, c: Conn, m: Message, t: State)
    requires Enrolled(s, c, m, t)
    ensures PendingLed(t)
  {
    forall i | 0 <= i < |t.groups| && t.groups[i].status == Pending ensures Led(t, i) {
      if i < |s.groups| {
        assert Led(s, i);
        var d :| d in s.peers && s.peers[d].role == Leader(i);
        assert d in t.peers && t.peers[d].role == Leader(i);
      } else {
        assert c in t.peers && t.peers[c].role == Leader(i);
      }
    }
  }

  lemma {:induction false} RegisterForward(s: State, c: Conn, m: Message, t: State)
    requires Enrolled(s, c, m, t)
    ensures Forward(s, t)
  {
    hide Inv;
  }

  /** A group moves on together with its launch. */
  lemma {:induction false} GroupMoves(s: State, i: nat, g: Group, l: Launch)
    requires Inv(s) && i < |s.groups| && GroupForward(s.groups[i], g) && g.status != Pending
    requires LaunchForward(s.launches[g.reservation], l) && LaunchOk(l)
    requires l.pid == Some(g.pid) && Agrees(g.status, l) && (g.retired <==> g.status == Left)
    requires g.status in {Acknowledged, Refused, Releasing} || !Led(s, i)
    ensures
      var t := WithLaunch(WithGroup(s, i, g), g.reservation, l);
      Inv(t) && Forward(s, t)
  {
    var t := WithLaunch(WithGroup(s, i, g), g.reservation, l);
    assert Groups(t) by {
      forall j | 0 <= j < |t.groups| ensures GroupOk(t, t.groups[j]) { assert GroupOk(s, s.groups[j]); }
    }
    assert Leaders(t) by {
      forall d | d in t.peers ensures LeaderOk(t, d) { assert LeaderOk(s, d); }
    }
    StillLed(s, t);
  }

  lemma {:induction false} DoneKeeps(s: State, c: Conn, m: Message, rows: Snapshot, sendOk: bool)
    requires Inv(s) && c in s.peers && s.peers[c].role.Leader? && m.Done?
    ensures Inv(OnDone(s, c, m, rows, sendOk).s) && Forward(s, OnDone(s, c, m, rows, sendOk).s)
  {
    hide Forward;
    ForwardRefl(s);
    var i := s.peers[c].role.index;
    assert LeaderOk(s, c) && GroupOk(s, s.groups[i]);
    var o := OnDone(s, c, m, rows, sendOk);
    if o.s != s {
      var g := s.groups[i].(status := Releasing);
      var l := s.launches[g.reservation];
      assert LaunchOk(l);
      GroupMoves(s, i, g, l);
      var t := WithGroup(s, i, g);
      assert WithLaunch(t, g.reservation, l) == t by { assert t.launches[g.reservation := l] == t.launches; }
      SayKeeps(t, c, Release, g.reservation, sendOk);
      ForwardTrans(s, t, o.s);
    }
  }

  lemma {:induction false} LineKeeps(s: State, c: Conn, m: Message, rows: Snapshot, stopping: bool, nonce: Nonce, sendOk: bool)
    requires Inv(s) && c in s.peers && s.peers[c].inbox != [] && nonce !in s.launches
    ensures
      var t := OnLine(s, c, m, rows, stopping, nonce, sendOk).s;
      Inv(t) && Forward(s, t)
  {
    hide Inv, Forward, OnReserve, OnReport, OnRegister, OnDone;
    InvParts(s);
    var p := s.peers[c];
    PeerChanged(s, c, p.inbox[1..], p.eof);
    var s1 := s.(peers := s.peers[c := p.(inbox := p.inbox[1..])]);
    PeersOnly(s, s1.peers);
    if m.Reserve? && p.role.NoRole? {
      ReserveKeeps(s1, c, rows, stopping, nonce, sendOk);
    } else if (m.Spawned? || m.SpawnFailed?) && p.role.Parent? {
      ReportKeeps(s1, c, m, sendOk);
    } else if m.Register? && p.role.NoRole? {
      RegisterKeeps(s1, c, m, rows);
    } else if m.Done? && p.role.Leader? {
      DoneKeeps(s1, c, m, rows, sendOk);
    }
    var t := OnLine(s, c, m, rows, stopping, nonce, sendOk).s;
    ForwardRefl(s1);
    ForwardTrans(s, s1, t);
  }

  lemma {:induction false} PeersOnly(s: State, peers: map<Conn, Peer>)
    ensures Forward(s, s.(peers := peers))
  {
  }

  // ---- Connections come and go ---------------------------------------------------

  lemma {:induction false} PeerLeaves(s: State, c: Conn)
    requires Inv(s) && c in s.peers && !s.peers[c].role.Leader?
    ensures Inv(s.(peers := s.peers - {c}))
  {
    var t := s.(peers := s.peers - {c});
    StillLed(s, t);
  }

  lemma {:induction false} PeerArrives(s: State, pid: int)
    requires Inv(s)
    ensures
      var t := s.(accepted := s.accepted + 1, peers := s.peers[s.accepted := Peer(pid, NoRole, [], false)]);
      Inv(t) && Forward(s, t)
  {
    var t := s.(accepted := s.accepted + 1, peers := s.peers[s.accepted := Peer(pid, NoRole, [], false)]);
    assert s.accepted !in s.peers;
    StillLed(s, t);
  }

  /** A leader leaves: its group and launch drain, or have already drained. */
  lemma {:induction false} HangupKeeps(s: State, c: Conn, rows: Snapshot, now: int)
    requires Inv(s) && c in s.peers
    ensures Inv(OnHangup(s, c, rows, now)) && Forward(s, OnHangup(s, c, rows, now))
  {
    var p := s.peers[c];
    if !p.role.Leader? {
      PeerLeaves(s, c);
    } else {
      var i := p.role.index;
      assert LeaderOk(s, c) && GroupOk(s, s.groups[i]);
      var drained := Live(rows, p.pid) == {};
      var g := s.groups[i].(status := if drained then Left else Leaving,
                            retired := s.groups[i].retired || drained,
                            deadline := if drained then s.groups[i].deadline else now + 1);
      var l := s.launches[g.reservation].(status := if drained then Drained else Draining);
      LeaderLeaves(s, c, i, g, l);
    }
  }

  lemma {:induction false} LeaderLeaves(s: State, c: Conn, i: nat, g: Group, l: Launch)
    requires Inv(s) && c in s.peers && s.peers[c].role == Leader(i) && i < |s.groups|
    requires GroupForward(s.groups[i], g) && g.status != Pending
    requires LaunchForward(s.launches[g.reservation], l) && LaunchOk(l)
    requires l.pid == Some(g.pid) && Agrees(g.status, l) && (g.retired <==> g.status == Left)
    ensures
      var t := WithLaunch(WithGroup(s.(peers := s.peers - {c}), i, g), g.reservation, l);
      Inv(t) && Forward(s, t)
  {
    hide Leaders, PendingLed;
    var t := WithLaunch(WithGroup(s.(peers := s.peers - {c}), i, g), g.reservation, l);
    assert Groups(t) by {
      forall j | 0 <= j < |t.groups| ensures GroupOk(t, t.groups[j]) { assert GroupOk(s, s.groups[j]); }
    }
    LeadersWithout(s, c, i, g, t);
  }

  lemma {:induction false} LeadersWithout(s: State, c: Conn, i: nat, g: Group, t: State)
    requires Leaders(s) && PendingLed(s) && c in s.peers && s.peers[c].role == Leader(i) && i < |s.groups|
    requires g.pid == s.groups[i].pid && g.status != Pending
    requires t.peers == s.peers - {c} && t.groups == s.groups[i := g]
    ensures Leaders(t) && PendingLed(t)
  {
    forall d | d in t.peers ensures LeaderOk(t, d) { assert LeaderOk(s, d); }
    StillLed(s, t);
  }

  // ---- Finishing an exchange -------------------------------------------------------

  lemma {:induction false} AnswerKeeps(s: State, c: Conn, stopping: bool)
    requires Inv(s) && Answered(s, c, stopping)
    ensures Inv(Answer(s, c, stopping)) && Forward(s, Answer(s, c, stopping))
  {
    hide Forward;
    var i := s.peers[c].role.index;
    var g0 := s.groups[i];
    assert GroupOk(s, g0);
    var l0 := s.launches[g0.reservation];
    assert LaunchOk(l0);
    var g, l := g0.(status := if stopping then Refused else Acknowledged), l0.(status := Registered);
    GroupMoves(s, i, g, l);
    var t := WithLaunch(WithGroup(s, i, g), g.reservation, l);
    SayKeeps(t, c, if stopping then Stop else Go, g.reservation, true);
    ForwardTrans(s, t, Answer(s, c, stopping));
  }

  lemma {:induction false} AckKeeps(s: State, c: Conn, stopping: bool, failing: set<Conn>)
    requires Inv(s)
    ensures
      var t := AckFrom(s, c, stopping, failing).s;
      && Inv(t) && Forward(s, t)
      && t.accepted == s.accepted && t.peers == s.peers && t.history == s.history && t.root == s.root
    decreases s.accepted - c
  {
    hide Inv, Forward, Answer, Answered;
    InvParts(s);
    ForwardRefl(s);
    if c < s.accepted {
      if !Answered(s, c, stopping) {
        AckKeeps(s, c + 1, stopping, failing);
      } else {
        AnswerKeeps(s, c, stopping);
        AnswerLinked(s, c, stopping);
        var t := Answer(s, c, stopping);
        if c !in failing {
          AckKeeps(t, c + 1, stopping, failing);
          ForwardTrans(s, t, AckFrom(t, c + 1, stopping, failing).s);
        }
      }
    }
  }

  /** No group with a reported launch is still waiting. */
  predicate Settled(s: State) {
    forall i :: 0 <= i < |s.groups| && s.groups[i].status == Pending && s.groups[i].reservation in s.launches
      ==> !s.launches[s.groups[i].reservation].reported
  }

  /** The acknowledgment loop leaves reports and reservations alone. */
  predicate SameReports(s: State, t: State) {
    && (forall n :: n in s.launches ==> n in t.launches && t.launches[n].reported == s.launches[n].reported)
    && |t.groups| == |s.groups|
    && (forall i :: 0 <= i < |s.groups| ==> t.groups[i].reservation == s.groups[i].reservation)
    && (forall i :: 0 <= i < |s.groups| && t.groups[i].status == Pending ==> s.groups[i].status == Pending)
    && t.peers == s.peers && t.launches.Keys == s.launches.Keys
  }

  lemma {:induction false} AnswerReports(s: State, c: Conn, stopping: bool)
    requires Linked(s) && Answered(s, c, stopping)
    ensures SameReports(s, Answer(s, c, stopping)) && !Waiting(Answer(s, c, stopping), c)
  {
  }

  lemma {:induction false} StaysUnanswered(s: State, t: State, d: Conn, stopping: bool)
    requires Linked(s) && Linked(t) && SameReports(s, t) && !Answered(s, d, stopping)
    ensures !Answered(t, d, stopping)
  {
  }

  lemma {:induction false} AckAnswersAll(s: State, c: Conn, stopping: bool, failing: set<Conn>)
    requires Linked(s)
    ensures
      var o := AckFrom(s, c, stopping, failing);
      && Linked(o.s) && SameReports(s, o.s)
      && (o.ok ==> forall d :: c <= d < s.accepted ==> !Answered(o.s, d, stopping))
    decreases s.accepted - c
  {
    hide Answer, Answered, Linked, SameReports;
    AckLinked(s, c, stopping, failing);
    SameRefl(s);
    var o := AckFrom(s, c, stopping, failing);
    if c < s.accepted {
      if !Answered(s, c, stopping) {
        AckAnswersAll(s, c + 1, stopping, failing);
        StaysUnanswered(s, o.s, c, stopping);
      } else {
        var t := Answer(s, c, stopping);
        AnswerLinked(s, c, stopping);
        AnswerReports(s, c, stopping);
        if c !in failing {
          AckAnswersAll(t, c + 1, stopping, failing);
          SameTrans(s, t, o.s);
          NotWaitingNotAnswered(t, c, stopping);
          StaysUnanswered(t, o.s, c, stopping);
        }
      }
    }
  }

  lemma {:induction false} NotWaitingNotAnswered(s: State, c: Conn, stopping: bool)
    requires Linked(s) && !Waiting(s, c)
    ensures !Answered(s, c, stopping)
  {
  }

  lemma {:induction false} SameRefl(s: State)
    ensures SameReports(s, s)
  {
  }

  lemma {:induction false} SameTrans(s: State, t: State, u: State)
    requires SameReports(s, t) && SameReports(t, u)
    ensures SameReports(s, u)
  {
  }

  /** A complete acknowledgment loop leaves no group waiting that it was allowed to answer. */
  lemma {:induction false} AckSettles(s: State, stopping: bool, failing: set<Conn>)
    requires Inv(s) && AckFrom(s, 0, stopping, failing).ok
    ensures
      var t := AckFrom(s, 0, stopping, failing).s;
      Settled(t) && (stopping ==> forall i :: 0 <= i < |t.groups| ==> t.groups[i].status != Pending)
  {
    AckAnswersAll(s, 0, stopping, failing);
    AckKeeps(s, 0, stopping, failing);
    var t := AckFrom(s, 0, stopping, failing).s;
    forall i | 0 <= i < |t.groups| && t.groups[i].status == Pending && t.groups[i].reservation in t.launches
      ensures !t.launches[t.groups[i].reservation].reported && !stopping
    {
      assert Led(t, i);
      var c :| c in t.peers && t.peers[c].role == Leader(i);
      assert c < t.accepted && Waiting(t, c) && !Answered(t, c, stopping);
    }
    forall i | 0 <= i < |t.groups| ensures t.groups[i].reservation in t.launches { assert GroupOk(t, t.groups[i]); }
  }

  lemma {:induction false} DrainStep(s: State, i: nat)
    requires Inv(s) && Settled(s) && i < |s.groups| && s.groups[i].status == Leaving
    ensures
      var t := Advance(s, i, Left, Drained, s.groups[i].deadline);
      && Inv(t) && Forward(s, t) && Settled(t)
      && t.peers == s.peers && t.history == s.history && t.root == s.root && t.sent == s.sent && t.launches.Keys == s.launches.Keys
  {
    var g0 := s.groups[i];
    assert GroupOk(s, g0) && LaunchOk(s.launches[g0.reservation]);
    var g, l := g0.(status := Left, retired := true), s.launches[g0.reservation].(status := Drained);
    forall c | c in s.peers ensures s.peers[c].role != Leader(i) { assert LeaderOk(s, c); }
    GroupMoves(s, i, g, l);
  }

  lemma {:induction false} DrainKeeps(s: State, i: nat, rows: Snapshot, now: int)
    requires Inv(s) && Settled(s)
    ensures
      var t := DrainFrom(s, i, rows, now).s;
      && Inv(t) && Forward(s, t) && Settled(t)
      && t.peers == s.peers && t.history == s.history && t.root == s.root && t.sent == s.sent && t.launches.Keys == s.launches.Keys
    decreases |s.groups| - i
  {
    hide Inv, Forward, Settled, Live;
    InvParts(s);
    ForwardRefl(s);
    if i < |s.groups| {
      if s.groups[i].status == Leaving && Live(rows, s.groups[i].pid) == {} {
        DrainStep(s, i);
        var t := Advance(s, i, Left, Drained, s.groups[i].deadline);
        DrainKeeps(t, i + 1, rows, now);
        ForwardTrans(s, t, DrainFrom(t, i + 1, rows, now).s);
      } else {
        DrainKeeps(s, i + 1, rows, now);
      }
    }
  }

  /** Only launches without a group are retired by number. */
  lemma {:induction false} RetireKeeps(s: State, rows: Snapshot)
    requires Inv(s) && Settled(s)
    ensures Inv(Retire(s, rows)) && Forward(s, Retire(s, rows))
  {
    var t := Retire(s, rows);
    assert Groups(t) by {
      forall i | 0 <= i < |t.groups| ensures GroupOk(t, t.groups[i]) { assert GroupOk(s, s.groups[i]); }
    }
    assert Launches(t) by {
      forall n | n in t.launches ensures LaunchOk(t.launches[n]) { assert LaunchOk(s.launches[n]); }
    }
    assert Leaders(t) by {
      forall d | d in t.peers ensures LeaderOk(t, d) { assert LeaderOk(s, d); }
    }
    StillLed(s, t);
  }

  lemma {:induction false} FinishKeeps(s: State, rows: Snapshot, stopping: bool, now: int, failing: set<Conn>)
    requires Inv(s)
    ensures
      var o := OnFinish(s, rows, stopping, now, failing);
      && Inv(o.s) && Forward(s, o.s)
      && o.s.peers == s.peers && o.s.history == s.history && o.s.root == s.root && o.s.launches.Keys == s.launches.Keys
      && o.s.accepted == s.accepted
  {
    hide Inv, Forward, Settled, AckFrom, DrainFrom, Retire, SameReports;
    InvParts(s);
    AckKeeps(s, 0, stopping, failing);
    AckAnswersAll(s, 0, stopping, failing);
    var acked := AckFrom(s, 0, stopping, failing);
    AckKeys(s, acked.s);
    if acked.ok {
      AckSettles(s, stopping, failing);
      InvParts(acked.s);
      DrainKeeps(acked.s, 0, rows, now);
      var drained := DrainFrom(acked.s, 0, rows, now);
      ForwardTrans(s, acked.s, drained.s);
      DrainAccepted(acked.s, 0, rows, now);
      if drained.ok {
        RetireKeeps(drained.s, rows);
        RetireFrame(drained.s, rows);
        ForwardTrans(s, drained.s, Retire(drained.s, rows));
      }
    }
  }

  lemma {:induction false} AckKeys(s: State, t: State)
    requires SameReports(s, t)
    ensures t.launches.Keys == s.launches.Keys
  {
  }

  lemma {:induction false} RetireFrame(s: State, rows: Snapshot)
    ensures var t := Retire(s, rows); t == s.(launches := t.launches) && t.launches.Keys == s.launches.Keys
  {
  }

  lemma {:induction false} DrainAccepted(s: State, i: nat, rows: Snapshot, now: int)
    requires Linked(s)
    ensures DrainFrom(s, i, rows, now).s.accepted == s.accepted
    decreases |s.groups| - i
  {
    if i < |s.groups| {
      AdvanceLinked(s, i, Left, Drained, s.groups[i].deadline);
      DrainAccepted(Advance(s, i, Left, Drained, s.groups[i].deadline), i + 1, rows, now);
      DrainAccepted(s, i + 1, rows, now);
    }
  }

  /** Revoking closes the leases of groups that were already answered. */
  lemma {:induction false} RevokeKeeps(s: State)
    requires Inv(s) && forall c :: c in s.peers ==> !Waiting(s, c)
    ensures Inv(OnRevoke(s)) && Forward(s, OnRevoke(s))
  {
    var t := OnRevoke(s);
    forall i | 0 <= i < |t.groups| ensures GroupOk(t, t.groups[i]) && GroupForward(s.groups[i], t.groups[i]) {
      assert GroupOk(s, s.groups[i]);
      if t.groups[i].status == Revoked && s.groups[i].status != Revoked {
        var c :| c in s.peers && s.peers[c].role == Leader(i);
        assert LeaderOk(s, c) && !Waiting(s, c);
      }
    }
    forall i | 0 <= i < |t.groups| ensures t.groups[i].status != Pending {
    }
  }

  // ---- Every action ------------------------------------------------------------------

  /** The invariant and forward motion hold across every action, whether or not it aborts. */
  lemma {:induction false} StepKeeps(s: State, a: Action)
    requires Inv(s) && Enabled(s, a)
    ensures Inv(Step(s, a).s) && Forward(s, Step(s, a).s)
  {
    hide Inv, Forward, OnLine, OnHangup, OnFinish, OnRevoke;
    ForwardRefl(s);
    match a {
    case Bind(r) => RootBound(s, r);
    case Accept(c, pid) => PeerArrives(s, pid);
    case Receive(c, ms, eof) =>
      PeerChanged(s, c, s.peers[c].inbox + ms, s.peers[c].eof || eof);
      PeersOnly(s, s.peers[c := s.peers[c].(inbox := s.peers[c].inbox + ms, eof := s.peers[c].eof || eof)]);
    case Drop(c) =>
      PeerLeaves(s, c);
      PeersOnly(s, s.peers - {c});
    case Line(c, m, rows, stopping, nonce, sendOk) => LineKeeps(s, c, m, rows, stopping, nonce, sendOk);
    case Hangup(c, rows, now) => HangupKeeps(s, c, rows, now);
    case Finish(rows, stopping, now, failing) => FinishKeeps(s, rows, stopping, now, failing);
    case Revoke => RevokeKeeps(s);
    }
    Logged(Effect(s, a).s, s, s.history + [a]);
  }

  lemma {:induction false} RootBound(s: State, r: int)
    requires Inv(s)
    ensures Inv(s.(root := Some(r))) && Forward(s, s.(root := Some(r)))
  {
    StillLed(s, s.(root := Some(r)));
  }

  lemma {:induction false} Logged(t: State, s: State, history: seq<Action>)
    requires Inv(t) && Forward(s, t)
    ensures Inv(t.(history := history)) && Forward(s, t.(history := history))
  {
    StillLed(t, t.(history := history));
  }

  /** Safety over whole runs: every reachable state satisfies the invariant. */
  lemma {:induction false} RunKeeps(states: seq<State>, actions: seq<Action>, k: nat)
    requires IsRun(states, actions) && k < |states|
    ensures Inv(states[k])
  {
    hide Inv, Step, Enabled;
    if k == 0 {
      InitialInv();
    } else {
      RunKeeps(states, actions, k - 1);
      assert states[k - 1 + 1] == Step(states[k - 1], actions[k - 1]).s;
      StepKeeps(states[k - 1], actions[k - 1]);
    }
  }

  lemma {:induction false} InitialInv()
    ensures Inv(INITIAL)
  {
  }

  /** Along a run no launch, group or reply ever moves backwards. */
  lemma {:induction false} RunForward(states: seq<State>, actions: seq<Action>, j: nat, k: nat)
    requires IsRun(states, actions) && j <= k < |states|
    ensures Forward(states[j], states[k])
    decreases k - j
  {
    hide Inv, Forward, Step, Enabled;
    if j == k {
      ForwardRefl(states[j]);
    } else {
      RunForward(states, actions, j, k - 1);
      RunKeeps(states, actions, k - 1);
      assert states[k - 1 + 1] == Step(states[k - 1], actions[k - 1]).s;
      StepKeeps(states[k - 1], actions[k - 1]);
      ForwardTrans(states[j], states[k - 1], states[k]);
    }
  }

  /** A state some run reaches. */
  ghost predicate Reachable(s: State) {
    exists states, actions :: IsRun(states, actions) && states[|actions|] == s
  }

  lemma {:induction false} ReachStep(s: State, a: Action)
    requires Reachable(s) && Enabled(s, a)
    ensures Reachable(Step(s, a).s)
  {
    var states, actions :| IsRun(states, actions) && states[|actions|] == s;
    var t := Step(s, a).s;
    var ss, aa := states + [t], actions + [a];
    assert IsRun(ss, aa) by {
      forall k | 0 <= k < |aa| ensures Enabled(ss[k], aa[k]) && ss[k + 1] == Step(ss[k], aa[k]).s {
        if k < |actions| { assert ss[k] == states[k] && ss[k + 1] == states[k + 1] && aa[k] == actions[k]; }
      }
    }
    assert ss[|aa|] == t;
  }

  lemma {:induction false} ReachInitial()
    ensures Reachable(INITIAL)
  {
    var actions: seq<Action> := [];
    assert IsRun([INITIAL], actions) && [INITIAL][|actions|] == INITIAL;
  }

  lemma {:induction false} ReachInv(s: State)
    requires Reachable(s)
    ensures Inv(s)
  {
    hide Inv;
    var states, actions :| IsRun(states, actions) && states[|actions|] == s;
    RunKeeps(states, actions, |actions|);
  }
}
