/**
 What each line of a peer does in every state of every run: exactly when it is
 taken, what the books then show, and that a line that is not taken leaves every
 record as it was.  Conditions and effects are written on the records and the
 process rows themselves.
 */
module LeaseTaking {
  import opened Prelude
  import opened LeaseModel
  import opened LeaseInvariants
  import opened LeaseReports

  /** The peer has one line less; what it is and what it leads is as given. */
  function Read(p: Peer, role: Role): Peer
    requires p.inbox != []
  {
    Peer(p.pid, role, p.inbox[1..], p.eof)
  }

  /** Action `k` of a run is a line of connection `c`. */
  ghost predicate Hears(states: seq<State>, actions: seq<Action>, k: nat, c: Conn) {
    IsRun(states, actions) && k < |actions| && actions[k].Line? && actions[k].conn == c
  }

  lemma {:induction false} HeardHere(states: seq<State>, actions: seq<Action>, k: nat, c: Conn)
    requires Hears(states, actions, k, c)
    ensures Inv(states[k]) && Linked(states[k]) && Backed(states[k]) && Enabled(states[k], actions[k])
    ensures c in states[k].peers && states[k].peers[c].inbox != [] && states[k].peers[c].inbox[0] == actions[k].message
    ensures actions[k].nonce !in states[k].launches
    ensures states[k + 1] == Step(states[k], actions[k]).s
  {
    hide Inv, Backed, Effect;
    RunKeeps(states, actions, k);
    RunBacks(states, actions, k);
    InvParts(states[k]);
  }

  // ---- A completion ---------------------------------------------------------------------

  /** The process rows of group `group` that are no zombies are exactly `group` itself. */
  ghost predicate Alone(rows: Snapshot, group: int) {
    forall p :: (p in rows && rows[p].group == group && !rows[p].zombie) <==> p == group
  }

  lemma {:induction false} AloneIsLive(rows: Snapshot, group: int)
    ensures Alone(rows, group) <==> Live(rows, group) == {group}
  {
    if Alone(rows, group) {
      assert forall p :: p in Live(rows, group) <==> p == group;
    } else {
      var p :| !((p in rows && rows[p].group == group && !rows[p].zombie) <==> p == group);
      assert p in Live(rows, group) <==> p != group;
    }
  }

  lemma {:induction false} LineDone(s: State, c: Conn, m: Message, rows: Snapshot, stopping: bool, nonce: Nonce, sendOk: bool)
    requires Inv(s) && Linked(s) && c in s.peers && s.peers[c].inbox != [] && m.Done? && s.peers[c].role.Leader?
    ensures
      var i := s.peers[c].role.index;
      && i < |s.groups|
      && var g := s.groups[i];
      var taken := g.status == Acknowledged && Alone(rows, g.pid) && m.returncode.Some?;
      OnLine(s, c, m, rows, stopping, nonce, sendOk) ==
      Outcome(State(s.accepted, s.peers[c := Read(s.peers[c], Leader(i))], s.launches,
                    if taken then s.groups[i := Group(g.pid, Releasing, g.reservation, g.retired, g.deadline)] else s.groups,
                    s.root, s.sent + if taken then [Sent(c, Release, g.reservation, |s.history|)] else [], s.history),
              taken && sendOk)
  {
    hide Live, Groups, Launches, Unique, PendingLed;
    assert LeaderOk(s, c);
    AloneIsLive(rows, s.peers[c].pid);
  }

  /**
   In every state of every run a `done` line of a leader is taken if and only if its group is acknowledged, the process
   rows of the group that are no zombies are exactly its own PID and the line has a return code.  The group is then
   releasing and one `release` goes to the connection; otherwise no record changes and nothing is sent.
   */
  lemma {:induction false} RunDoneTaken(states: seq<State>, actions: seq<Action>, k: nat, c: Conn)
    requires Hears(states, actions, k, c) && actions[k].message.Done? && c in states[k].peers && states[k].peers[c].role.Leader?
    ensures
      var s, t, a, i := states[k], states[k + 1], actions[k], states[k].peers[c].role.index;
      && Enabled(s, a) && i < |s.groups| && s.peers[c].inbox != []
      && var g := s.groups[i];
      var taken := g.status == Acknowledged && Alone(a.rows, g.pid) && a.message.returncode.Some?;
      && (Step(s, a).ok <==> taken && a.sendOk)
      && t == State(s.accepted, s.peers[c := Read(s.peers[c], Leader(i))], s.launches,
                    if taken then s.groups[i := Group(g.pid, Releasing, g.reservation, g.retired, g.deadline)] else s.groups,
                    s.root, s.sent + if taken then [Sent(c, Release, g.reservation, |s.history|)] else [], s.history + [a])
  {
    hide Inv, Backed, OnLine, Linked, Alone, Enabled;
    HeardHere(states, actions, k, c);
    var s, a := states[k], actions[k];
    LineDone(s, c, a.message, a.rows, a.stopping, a.nonce, a.sendOk);
  }

  // ---- A reservation ---------------------------------------------------------------------

  /** The root is watched and alive, and the process is in its group. */
  predicate InRootGroup(s: State, pid: int, rows: Snapshot) {
    s.root.Some? && s.root.value in rows && pid in rows && rows[pid].group == s.root.value
  }

  /**
   In every state of every run a `reserve` of a peer without a role is granted if and only if the guard is not stopping
   and the peer is in the group of the watched root.  The launch is then recorded under the nonce, which no launch had,
   and the nonce sent.  A stopping guard only says `stop`; a peer elsewhere is an error without effect.
   */
  lemma {:induction false} RunReserveTaken(states: seq<State>, actions: seq<Action>, k: nat, c: Conn)
    requires Hears(states, actions, k, c) && actions[k].message.Reserve? && c in states[k].peers && states[k].peers[c].role.NoRole?
    ensures
      var s, t, a := states[k], states[k + 1], actions[k];
      && Enabled(s, a) && s.peers[c].inbox != [] && a.nonce !in s.launches
      && var p := s.peers[c];
      var granted := !a.stopping && InRootGroup(s, p.pid, a.rows);
      && (Step(s, a).ok <==> (a.stopping || granted) && a.sendOk)
      && t == State(s.accepted, s.peers[c := Read(p, if granted then Parent(a.nonce) else NoRole)],
                    if granted then s.launches[a.nonce := Launch(p.pid, Reserved, false, None)] else s.launches,
                    s.groups, s.root,
                    s.sent + (if a.stopping then [Sent(c, Stop, "", |s.history|)]
                              else if granted then [Sent(c, Token(a.nonce), a.nonce, |s.history|)] else []),
                    s.history + [a])
  {
    hide Inv, Backed, OnLine, Linked, Enabled;
    HeardHere(states, actions, k, c);
    var s, a := states[k], actions[k];
    LineReserve(s, c, a.rows, a.stopping, a.nonce, a.sendOk);
  }

  lemma {:induction false} LineReserve(s: State, c: Conn, rows: Snapshot, stopping: bool, nonce: Nonce, sendOk: bool)
    requires Linked(s) && c in s.peers && s.peers[c].inbox != [] && s.peers[c].role.NoRole?
    ensures
      var p := s.peers[c];
      var granted := !stopping && InRootGroup(s, p.pid, rows);
      OnLine(s, c, Reserve, rows, stopping, nonce, sendOk) ==
      Outcome(State(s.accepted, s.peers[c := Read(p, if granted then Parent(nonce) else NoRole)],
                    if granted then s.launches[nonce := Launch(p.pid, Reserved, false, None)] else s.launches,
                    s.groups, s.root,
                    s.sent + (if stopping then [Sent(c, Stop, "", |s.history|)]
                              else if granted then [Sent(c, Token(nonce), nonce, |s.history|)] else []),
                    s.history),
              (stopping || granted) && sendOk)
  {
  }

  // ---- A registration ---------------------------------------------------------------------

  /**
   A supervisor may register: its reservation exists, nobody registered for it, its fork did not fail and its child is
   not gone; a reported child is this peer; the line names the peer's own PID and the contract and is complete; the peer
   leads its own process group and no group of its PID is still in use.
   */
  predicate MayRegister(s: State, pid: int, m: Message, rows: Snapshot)
    requires m.Register?
  {
    && m.reservation in s.launches && Ungrouped(s, m.reservation)
    && s.launches[m.reservation].status != Failed && s.launches[m.reservation].status != Drained
    && (s.launches[m.reservation].reported ==> s.launches[m.reservation].pid == Some(pid))
    && m.pid == Some(pid) && m.contract == "misaal-racket-lease-v1" && m.complete
    && pid in rows && rows[pid].group == pid
    && forall i :: 0 <= i < |s.groups| && s.groups[i].pid == pid ==> s.groups[i].status == Left
  }

  lemma {:induction false} MayMeansRegistrable(s: State, c: Conn, m: Message, rows: Snapshot)
    requires Inv(s) && Backed(s) && c in s.peers && m.Register? && MayRegister(s, s.peers[c].pid, m, rows)
    ensures Registrable(s, c, m, rows)
  {
    assert LaunchOk(s.launches[m.reservation]);
    forall i | 0 <= i < |s.groups| ensures s.groups[i].pid != s.peers[c].pid || s.groups[i].retired { assert GroupOk(s, s.groups[i]); }
  }

  lemma {:induction false} RegistrableMeansMay(s: State, c: Conn, m: Message, rows: Snapshot)
    requires Inv(s) && c in s.peers && m.Register? && Registrable(s, c, m, rows)
    ensures MayRegister(s, s.peers[c].pid, m, rows)
  {
    assert LaunchOk(s.launches[m.reservation]);
    forall i | 0 <= i < |s.groups| ensures s.groups[i].reservation != m.reservation { Unregistered(s, c, m, rows, i); }
    forall i | 0 <= i < |s.groups| && s.groups[i].pid == s.peers[c].pid ensures s.groups[i].status == Left { assert GroupOk(s, s.groups[i]); }
  }

  /** Taking the line off the inbox changes no record. */
  lemma {:induction false} RegistrableRead(s: State, c: Conn, m: Message, rows: Snapshot)
    requires c in s.peers && s.peers[c].inbox != [] && m.Register?
    ensures var t := s.(peers := s.peers[c := s.peers[c].(inbox := s.peers[c].inbox[1..])]); Registrable(t, c, m, rows) <==> Registrable(s, c, m, rows)
  {
  }

  function Enlisted(l: Launch, pid: int): Launch { Launch(l.parent, if l.reported then Reported else Registering, l.reported, Some(pid)) }

  lemma {:induction false} LineRegister(s: State, c: Conn, m: Message, rows: Snapshot, stopping: bool, nonce: Nonce, sendOk: bool)
    requires Linked(s) && c in s.peers && s.peers[c].inbox != [] && m.Register? && s.peers[c].role.NoRole?
    ensures
      var p := s.peers[c];
      var taken := Registrable(s, c, m, rows);
      OnLine(s, c, m, rows, stopping, nonce, sendOk) ==
      Outcome(State(s.accepted, s.peers[c := Read(p, if taken then Leader(|s.groups|) else NoRole)],
                    if taken then s.launches[m.reservation := Enlisted(s.launches[m.reservation], p.pid)] else s.launches,
                    if taken then s.groups + [Group(p.pid, Pending, m.reservation, false, 0)] else s.groups,
                    s.root, s.sent, s.history),
              taken)
  {
    hide Linked;
    RegistrableRead(s, c, m, rows);
    hide Registrable;
    RegistrableKnown(s, c, m, rows);
  }

  lemma {:induction false} RegistrableKnown(s: State, c: Conn, m: Message, rows: Snapshot)
    requires c in s.peers && m.Register?
    ensures Registrable(s, c, m, rows) ==> m.reservation in s.launches
  {
  }

  /**
   In every state of every run a `register` line of a peer without a role is taken if and only if the supervisor may
   register.  A waiting group with its PID and reservation is then appended, which the peer leads, and the launch has
   its PID; no reply is sent yet.  Otherwise no record changes.
   */
  lemma {:induction false} RunRegisterTaken(states: seq<State>, actions: seq<Action>, k: nat, c: Conn)
    requires Hears(states, actions, k, c) && actions[k].message.Register? && c in states[k].peers && states[k].peers[c].role.NoRole?
    ensures
      var s, t, a, m := states[k], states[k + 1], actions[k], actions[k].message;
      && Enabled(s, a) && s.peers[c].inbox != []
      && var p := s.peers[c];
      var taken := MayRegister(s, p.pid, m, a.rows);
      && (Step(s, a).ok <==> taken)
      && t == State(s.accepted, s.peers[c := Read(p, if taken then Leader(|s.groups|) else NoRole)],
                    if taken then s.launches[m.reservation := Enlisted(s.launches[m.reservation], p.pid)] else s.launches,
                    if taken then s.groups + [Group(p.pid, Pending, m.reservation, false, 0)] else s.groups,
                    s.root, s.sent, s.history + [a])
  {
    hide Inv, Backed, OnLine, Linked, Enabled, Registrable, MayRegister;
    HeardHere(states, actions, k, c);
    var s, a := states[k], actions[k];
    LineRegister(s, c, a.message, a.rows, a.stopping, a.nonce, a.sendOk);
    if Registrable(s, c, a.message, a.rows) { RegistrableMeansMay(s, c, a.message, a.rows); }
    if MayRegister(s, s.peers[c].pid, a.message, a.rows) { MayMeansRegistrable(s, c, a.message, a.rows); }
    MayBeKnown(s, s.peers[c].pid, a.message, a.rows);
  }

  lemma {:induction false} MayBeKnown(s: State, pid: int, m: Message, rows: Snapshot)
    requires m.Register?
    ensures MayRegister(s, pid, m, rows) ==> m.reservation in s.launches
  {
  }

  // ---- A fork report ---------------------------------------------------------------------------

  /** The launch after its fork report. */
  function Answering(l: Launch, m: Message): Launch
    requires IsReport(m)
  {
    if m.Spawned? then Launch(l.parent, Reported, true, m.child) else Launch(l.parent, Failed, true, None)
  }

  lemma {:induction false} LineReport(s: State, c: Conn, m: Message, rows: Snapshot, stopping: bool, nonce: Nonce, sendOk: bool)
    requires Linked(s) && c in s.peers && s.peers[c].inbox != [] && IsReport(m) && s.peers[c].role.Parent?
    ensures
      var p := s.peers[c];
      && p.role.reservation in s.launches
      && var taken := OnLine(s, c, m, rows, stopping, nonce, true).ok;
      OnLine(s, c, m, rows, stopping, nonce, sendOk) ==
      Outcome(State(s.accepted, s.peers[c := Read(p, p.role)],
                    if taken then s.launches[p.role.reservation := Answering(s.launches[p.role.reservation], m)] else s.launches,
                    s.groups, s.root, s.sent + if taken then [Sent(c, Recorded, p.role.reservation, |s.history|)] else [], s.history),
              taken && sendOk)
  {
  }

  /**
   The effect of a fork report in every state of every run: taken exactly when the reservation is still open to it, it
   settles the launch as reported with that child or as failed, and `recorded` goes to the parent.
   */
  lemma {:induction false} RunReportEffect(states: seq<State>, actions: seq<Action>, k: nat, c: Conn)
    requires Hears(states, actions, k, c) && IsReport(actions[k].message) && c in states[k].peers && states[k].peers[c].role.Parent?
    ensures
      var s, t, a := states[k], states[k + 1], actions[k];
      && Enabled(s, a) && s.peers[c].inbox != [] && s.peers[c].role.reservation in s.launches
      && var p := s.peers[c];
      var taken := OpenTo(s, p.role.reservation, a.message);
      && (Step(s, a).ok <==> taken && a.sendOk)
      && t == State(s.accepted, s.peers[c := Read(p, p.role)],
                    if taken then s.launches[p.role.reservation := Answering(s.launches[p.role.reservation], a.message)] else s.launches,
                    s.groups, s.root, s.sent + if taken then [Sent(c, Recorded, p.role.reservation, |s.history|)] else [],
                    s.history + [a])
  {
    hide Inv, Backed, OnLine, Linked, Enabled, OpenTo;
    HeardHere(states, actions, k, c);
    var s, a := states[k], actions[k];
    LineReport(s, c, a.message, a.rows, a.stopping, a.nonce, a.sendOk);
    ReportTaken(s, c, a.message, a.rows, a.stopping, a.nonce);
  }

  // ---- Anything else ------------------------------------------------------------------------------

  /** The lines a peer may send in its role. */
  predicate Expected(role: Role, m: Message) {
    match role
    case NoRole => m.Reserve? || m.Register?
    case Parent(_) => m.Spawned? || m.SpawnFailed?
    case Leader(_) => m.Done?
  }

  /** A line the peer may not send in its role is an error that changes no record. */
  lemma {:induction false} RunUnexpected(states: seq<State>, actions: seq<Action>, k: nat, c: Conn)
    requires Hears(states, actions, k, c) && c in states[k].peers && !Expected(states[k].peers[c].role, actions[k].message)
    ensures
      var s, t, a := states[k], states[k + 1], actions[k];
      && Enabled(s, a) && s.peers[c].inbox != [] && !Step(s, a).ok
      && t == s.(peers := s.peers[c := Read(s.peers[c], s.peers[c].role)], history := s.history + [a])
  {
    hide Inv, Backed, Linked;
    HeardHere(states, actions, k, c);
  }

  // ---- Connecting and reading -------------------------------------------------------------------------

  /**
   Binding the root, accepting, reading and dropping, in every run: each succeeds and does one thing.  An accepted peer
   has its kernel PID, no role and an empty inbox; a reading appends its lines and remembers an end of file for good;
   only a peer without a role is dropped before its lines are read.
   */
  lemma {:induction false} RunInputMeans(states: seq<State>, actions: seq<Action>, k: nat)
    requires IsRun(states, actions) && k < |actions| && (actions[k].Bind? || actions[k].Accept? || actions[k].Receive? || actions[k].Drop?)
    ensures
      var s, t, a := states[k], states[k + 1], actions[k];
      && Enabled(s, a) && Step(s, a).ok && t.launches == s.launches && t.groups == s.groups && t.sent == s.sent
      && t.history == s.history + [a]
      && t.root == (if a.Bind? then Some(a.root) else s.root) && t.accepted == (if a.Accept? then s.accepted + 1 else s.accepted)
      && match a
         case Bind(r) => (s.root.None? || s.root == Some(r)) && t.peers == s.peers
         case Accept(c, pid) => c == s.accepted && t.peers == s.peers[c := Peer(pid, NoRole, [], false)]
         case Receive(c, ms, eof) =>
           c in s.peers
           && t.peers == s.peers[c := Peer(s.peers[c].pid, s.peers[c].role, s.peers[c].inbox + ms, s.peers[c].eof || eof)]
         case Drop(c) => c in s.peers && s.peers[c].eof && s.peers[c].role.NoRole? && t.peers == s.peers - {c}
         case _ => true
  {
    hide Linked, Fresh;
    assert Enabled(states[k], actions[k]) && states[k + 1] == Step(states[k], actions[k]).s;
  }
}
