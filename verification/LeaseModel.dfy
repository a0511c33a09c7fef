/**
 The guard of the Racket launch lease as a state machine.  One action is one
 thing the guard does between two foreign calls: accept a peer, read from it,
 handle one message, notice that it hung up, finish an exchange (acknowledge,
 drain, retire), or revoke the leases while closing.  The kernel's answers (peer
 PIDs, process snapshots, nonces, the clock, failing sends) are inputs of the
 actions.  An action may abort the exchange: its outcome then is not `ok`, and
 what was already written stays written.
 */
module LeaseModel {
  import opened Prelude

  type Conn = nat
  type Nonce = string

  datatype Process = Process(group: int, zombie: bool)
  type Snapshot = map<int, Process>

  /** The members of a process group that are not zombies. */
  function Live(rows: Snapshot, group: int): set<int> {
    set p | p in rows && rows[p].group == group && !rows[p].zombie
  }

  /** Decoded protocol lines; `child` and `pid` are `None` when the field is not a plain integer, `returncode` when it is missing. */
  datatype Message =
    | Reserve
    | Spawned(child: Option<int>)
    | SpawnFailed
    | Register(reservation: Nonce, pid: Option<int>, contract: string, complete: bool)
    | Done(returncode: Option<int>)
    | Other

  datatype Reply = Token(nonce: Nonce) | Stop | Recorded | Go | Release

  datatype LaunchStatus = Reserved | Registering | Reported | Failed | Registered | Draining | Drained
  datatype Launch = Launch(parent: int, status: LaunchStatus, reported: bool, pid: Option<int>)

  datatype GroupStatus = Pending | Acknowledged | Refused | Releasing | Leaving | Left | Revoked
  datatype Group = Group(pid: int, status: GroupStatus, reservation: Nonce, retired: bool, deadline: int)

  datatype Role = NoRole | Parent(reservation: Nonce) | Leader(index: nat)
  datatype Peer = Peer(pid: int, role: Role, inbox: seq<Message>, eof: bool)

  /** A reply with the reservation it is about and the number of the action that sent it. */
  datatype Sent = Sent(conn: Conn, reply: Reply, reservation: Nonce, at: nat)

  datatype Action =
    | Bind(root: int)
    | Accept(conn: Conn, pid: int)
    | Receive(conn: Conn, messages: seq<Message>, eof: bool)
    | Drop(conn: Conn)
    | Line(conn: Conn, message: Message, rows: Snapshot, stopping: bool, nonce: Nonce, sendOk: bool)
    | Hangup(conn: Conn, rows: Snapshot, now: int)
    | Finish(rows: Snapshot, stopping: bool, now: int, failing: set<Conn>)
    | Revoke

  datatype State = State(
    accepted: nat, peers: map<Conn, Peer>, launches: map<Nonce, Launch>, groups: seq<Group>, root: Option<int>,
    sent: seq<Sent>, history: seq<Action>)

  datatype Outcome = Outcome(s: State, ok: bool)

  const CONTRACT := "misaal-racket-lease-v1"
  const INITIAL := State(0, map[], map[], [], None, [], [])

  // ---- Small updates ---------------------------------------------------------

  /** Every role refers to something recorded, and every group to its reservation. */
  predicate Linked(s: State) {
    && (forall c :: c in s.peers ==> c < s.accepted)
    && (forall c :: c in s.peers && s.peers[c].role.Leader? ==> s.peers[c].role.index < |s.groups|)
    && (forall c :: c in s.peers && s.peers[c].role.Parent? ==> s.peers[c].role.reservation in s.launches)
    && (forall i :: 0 <= i < |s.groups| ==> s.groups[i].reservation in s.launches)
  }

  function Say(s: State, c: Conn, reply: Reply, n: Nonce, ok: bool): Outcome {
    Outcome(s.(sent := s.sent + [Sent(c, reply, n, |s.history|)]), ok)
  }

  function WithRole(s: State, c: Conn, role: Role): State
    requires c in s.peers
  {
    s.(peers := s.peers[c := s.peers[c].(role := role)])
  }

  function WithLaunch(s: State, n: Nonce, l: Launch): State {
    s.(launches := s.launches[n := l])
  }

  function WithGroup(s: State, i: nat, g: Group): State
    requires i < |s.groups|
  {
    s.(groups := s.groups[i := g])
  }

  /** Put group `i` and its launch into their next statuses. */
  function Advance(s: State, i: nat, gs: GroupStatus, ls: LaunchStatus, deadline: int): State
    requires i < |s.groups| && s.groups[i].reservation in s.launches
  {
    var g := s.groups[i];
    WithLaunch(WithGroup(s, i, g.(status := gs, retired := g.retired || gs == Left, deadline := deadline)),
               g.reservation, s.launches[g.reservation].(status := ls))
  }

  // ---- Messages --------------------------------------------------------------

  function OnReserve(s: State, c: Conn, rows: Snapshot, stopping: bool, nonce: Nonce, sendOk: bool): Outcome
    requires c in s.peers
  {
    var pid := s.peers[c].pid;
    if stopping then Say(s, c, Stop, "", sendOk)
    else if s.root.None? || s.root.value !in rows || pid !in rows || rows[pid].group != s.root.value then Outcome(s, false)
    else
      Say(WithRole(WithLaunch(s, nonce, Launch(pid, Reserved, false, None)), c, Parent(nonce)), c, Token(nonce), nonce, sendOk)
  }

  function OnReport(s: State, c: Conn, m: Message, sendOk: bool): Outcome
    requires c in s.peers && s.peers[c].role.Parent? && s.peers[c].role.reservation in s.launches
  {
    var n := s.peers[c].role.reservation;
    var l := s.launches[n];
    if l.reported || l.status !in {Reserved, Registering} then Outcome(s, false)
    else if m.Spawned? then
      if m.child.None? || m.child.value <= 0 || (l.pid.Some? && l.pid != m.child) then Outcome(s, false)
      else Say(WithLaunch(s, n, l.(status := Reported, pid := m.child, reported := true)), c, Recorded, n, sendOk)
    else if l.pid.Some? then Outcome(s, false)
    else Say(WithLaunch(s, n, l.(status := Failed, reported := true)), c, Recorded, n, sendOk)
  }

  predicate Registrable(s: State, c: Conn, m: Message, rows: Snapshot)
    requires c in s.peers && m.Register?
  {
    var pid := s.peers[c].pid;
    && m.reservation in s.launches
    && var l := s.launches[m.reservation];
       && l.status in {Reserved, Reported}
       && (l.pid.Some? ==> l.pid.value == pid)
       && m.pid == Some(pid)
       && m.contract == CONTRACT
       && pid in rows && rows[pid].group == pid
       && (forall i :: 0 <= i < |s.groups| ==> s.groups[i].pid != pid || s.groups[i].retired)
       && m.complete
  }

  function OnRegister(s: State, c: Conn, m: Message, rows: Snapshot): Outcome
    requires c in s.peers && m.Register?
  {
    if !Registrable(s, c, m, rows) then Outcome(s, false)
    else
      var pid := s.peers[c].pid;
      var l := s.launches[m.reservation];
      var s1 := s.(groups := s.groups + [Group(pid, Pending, m.reservation, false, 0)]);
      var s2 := WithLaunch(s1, m.reservation, l.(pid := Some(pid), status := if l.reported then Reported else Registering));
      Outcome(WithRole(s2, c, Leader(|s.groups|)), true)
  }

  function OnDone(s: State, c: Conn, m: Message, rows: Snapshot, sendOk: bool): Outcome
    requires c in s.peers && s.peers[c].role.Leader? && s.peers[c].role.index < |s.groups| && m.Done?
  {
    var i := s.peers[c].role.index;
    var pid := s.peers[c].pid;
    if s.groups[i].status != Acknowledged || Live(rows, pid) != {pid} || m.returncode.None? then Outcome(s, false)
    else Say(WithGroup(s, i, s.groups[i].(status := Releasing)), c, Release, s.groups[i].reservation, sendOk)
  }

  /** One message of one peer, taken off its inbox first. */
  function OnLine(s: State, c: Conn, m: Message, rows: Snapshot, stopping: bool, nonce: Nonce, sendOk: bool): Outcome
    requires Linked(s) && c in s.peers && s.peers[c].inbox != []
  {
    var p := s.peers[c];
    var s1 := s.(peers := s.peers[c := p.(inbox := p.inbox[1..])]);
    if m.Reserve? && p.role.NoRole? then OnReserve(s1, c, rows, stopping, nonce, sendOk)
    else if (m.Spawned? || m.SpawnFailed?) && p.role.Parent? then OnReport(s1, c, m, sendOk)
    else if m.Register? && p.role.NoRole? then OnRegister(s1, c, m, rows)
    else if m.Done? && p.role.Leader? then OnDone(s1, c, m, rows, sendOk)
    else Outcome(s1, false)
  }

  /** A peer at end of file: its group starts to drain, or has already gone. */
  function OnHangup(s: State, c: Conn, rows: Snapshot, now: int): State
    requires Linked(s) && c in s.peers
  {
    var p := s.peers[c];
    var s1 := s.(peers := s.peers - {c});
    if !p.role.Leader? then s1
    else if Live(rows, p.pid) != {} then Advance(s1, p.role.index, Leaving, Draining, now + 1)
    else Advance(s1, p.role.index, Left, Drained, s.groups[p.role.index].deadline)
  }

  // ---- The end of an exchange --------------------------------------------------

  predicate Waiting(s: State, c: Conn) {
    && c in s.peers && s.peers[c].role.Leader?
    && s.peers[c].role.index < |s.groups|
    && s.groups[s.peers[c].role.index].status == Pending
  }

  /** Whether the acknowledgment loop answers this connection. */
  predicate Answered(s: State, c: Conn, stopping: bool)
    requires Linked(s)
  {
    Waiting(s, c) && (stopping || s.launches[s.groups[s.peers[c].role.index].reservation].reported)
  }

  function Answer(s: State, c: Conn, stopping: bool): State
    requires Linked(s) && Answered(s, c, stopping)
  {
    var i := s.peers[c].role.index;
    var s1 := Advance(s, i, if stopping then Refused else Acknowledged, Registered, s.groups[i].deadline);
    Say(s1, c, if stopping then Stop else Go, s.groups[i].reservation, true).s
  }

  lemma {:induction false} AnswerLinked(s: State, c: Conn, stopping: bool)
    requires Linked(s) && Answered(s, c, stopping)
    ensures Linked(Answer(s, c, stopping)) && Answer(s, c, stopping).accepted == s.accepted
    ensures Answer(s, c, stopping).peers == s.peers && Answer(s, c, stopping).history == s.history
    ensures Answer(s, c, stopping).root == s.root
  {
  }

  function AckFrom(s: State, c: Conn, stopping: bool, failing: set<Conn>): Outcome
    requires Linked(s)
    decreases s.accepted - c
  {
    if c >= s.accepted then Outcome(s, true)
    else if !Answered(s, c, stopping) then AckFrom(s, c + 1, stopping, failing)
    else if c in failing then Outcome(Answer(s, c, stopping), false)
    else
      AnswerLinked(s, c, stopping);
      AckFrom(Answer(s, c, stopping), c + 1, stopping, failing)
  }

  lemma {:induction false} AdvanceLinked(s: State, i: nat, gs: GroupStatus, ls: LaunchStatus, deadline: int)
    requires Linked(s) && i < |s.groups|
    ensures Linked(Advance(s, i, gs, ls, deadline))
  {
  }

  function DrainFrom(s: State, i: nat, rows: Snapshot, now: int): Outcome
    requires Linked(s)
    decreases |s.groups| - i
  {
    if i >= |s.groups| then Outcome(s, true)
    else
      var g := s.groups[i];
      if g.status != Leaving then DrainFrom(s, i + 1, rows, now)
      else if Live(rows, g.pid) == {} then
        AdvanceLinked(s, i, Left, Drained, g.deadline);
        DrainFrom(Advance(s, i, Left, Drained, g.deadline), i + 1, rows, now)
      else if now >= g.deadline then Outcome(s, false)
      else DrainFrom(s, i + 1, rows, now)
  }

  /** A reported child whose group number nobody uses any more. */
  predicate Gone(l: Launch, rows: Snapshot) {
    l.status == Reported && l.pid.Some? && forall p :: p in rows ==> rows[p].group != l.pid.value
  }

  function Retire(s: State, rows: Snapshot): State {
    s.(launches := map n | n in s.launches ::
         if Gone(s.launches[n], rows) then s.launches[n].(status := Drained) else s.launches[n])
  }

  lemma {:induction false} AckLinked(s: State, c: Conn, stopping: bool, failing: set<Conn>)
    requires Linked(s)
    ensures Linked(AckFrom(s, c, stopping, failing).s)
    decreases s.accepted - c
  {
    if c < s.accepted {
      if !Answered(s, c, stopping) {
        AckLinked(s, c + 1, stopping, failing);
      } else {
        AnswerLinked(s, c, stopping);
        if c !in failing { AckLinked(Answer(s, c, stopping), c + 1, stopping, failing); }
      }
    }
  }

  function OnFinish(s: State, rows: Snapshot, stopping: bool, now: int, failing: set<Conn>): Outcome
    requires Linked(s)
  {
    var acked := AckFrom(s, 0, stopping, failing);
    if !acked.ok then acked
    else
      AckLinked(s, 0, stopping, failing);
      var drained := DrainFrom(acked.s, 0, rows, now);
      if !drained.ok then drained else Outcome(Retire(drained.s, rows), true)
  }

  /** While closing: every leased connection is dropped and its group marked revoked. */
  function RevokedGroups(s: State): seq<Group> {
    seq(|s.groups|, i requires 0 <= i < |s.groups| =>
      if exists c :: c in s.peers && s.peers[c].role == Leader(i) then s.groups[i].(status := Revoked) else s.groups[i])
  }

  function OnRevoke(s: State): State {
    s.(groups := RevokedGroups(s), peers := map c | c in s.peers && !s.peers[c].role.Leader? :: s.peers[c])
  }

  // ---- Actions -----------------------------------------------------------------

  /** A nonce drawn for this action and for no other. */
  predicate Fresh(s: State, nonce: Nonce) {
    nonce !in s.launches && forall j :: 0 <= j < |s.history| && s.history[j].Line? ==> s.history[j].nonce != nonce
  }

  predicate Enabled(s: State, a: Action) {
    && Linked(s)
    && match a
       case Bind(r) => s.root.None? || s.root.value == r
       case Accept(c, _) => c == s.accepted
       case Receive(c, _, _) => c in s.peers
       case Drop(c) => c in s.peers && s.peers[c].eof && s.peers[c].role.NoRole?
       case Line(c, m, _, _, nonce, _) =>
         c in s.peers && s.peers[c].inbox != [] && s.peers[c].inbox[0] == m && Fresh(s, nonce)
       case Hangup(c, _, _) => c in s.peers && s.peers[c].eof && s.peers[c].inbox == []
       case Finish(_, _, _, _) => true
       case Revoke => forall c :: c in s.peers ==> !Waiting(s, c)
  }

  function Effect(s: State, a: Action): Outcome
    requires Enabled(s, a)
  {
    match a
    case Bind(r) => Outcome(s.(root := Some(r)), true)
    case Accept(c, pid) => Outcome(s.(accepted := c + 1, peers := s.peers[c := Peer(pid, NoRole, [], false)]), true)
    case Receive(c, ms, eof) =>
      var p := s.peers[c];
      Outcome(s.(peers := s.peers[c := p.(inbox := p.inbox + ms, eof := p.eof || eof)]), true)
    case Drop(c) => Outcome(s.(peers := s.peers - {c}), true)
    case Line(c, m, rows, stopping, nonce, sendOk) => OnLine(s, c, m, rows, stopping, nonce, sendOk)
    case Hangup(c, rows, now) => Outcome(OnHangup(s, c, rows, now), true)
    case Finish(rows, stopping, now, failing) => OnFinish(s, rows, stopping, now, failing)
    case Revoke => Outcome(OnRevoke(s), true)
  }

  /** One action, entered into the history whether or not it aborts the exchange. */
  function Step(s: State, a: Action): Outcome
    requires Enabled(s, a)
  {
    var o := Effect(s, a);
    Outcome(o.s.(history := s.history + [a]), o.ok)
  }

  /** A run: actions one after another, each enabled where it happens. */
  ghost predicate IsRun(states: seq<State>, actions: seq<Action>) {
    && |states| == |actions| + 1
    && states[0] == INITIAL
    && forall k :: 0 <= k < |actions| ==> Enabled(states[k], actions[k]) && states[k + 1] == Step(states[k], actions[k]).s
  }
}
