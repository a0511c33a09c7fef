/**
 The guard as the object it is: connections, launches and groups updated in
 place by the message loops of an exchange, and the draining loop of `Close`.
 Every method is tied to the state machine, so what is proved of runs holds of
 the object.
 */
module LeaseGuard {
  import opened Prelude
  import opened LeaseModel
  import opened LeaseInvariants
  import opened LeaseHistory
  import opened LeaseReports

  /** What the kernel and the peers hand to one exchange. */
  datatype Input = Input(
    arrivals: seq<int>,                         // kernel PIDs of the accepted connections
    arrivalFails: bool,                         // authenticating a further connection raised
    received: map<Conn, (seq<Message>, bool)>,     // decoded lines and end of file per connection
    oversized: bool,                            // some peer overran its buffer
    snapshot: Option<Snapshot>,                 // None: the process table could not be read
    deaf: set<Conn>,                            // connections on which sending raises
    now: int)

  ghost predicate Injective(token: nat -> Nonce) {
    forall i, j :: 0 <= i < j ==> token(i) != token(j)
  }

  /** Nothing a closing guard may not do: no new launch, no `go`. */
  ghost predicate Quiet(s: State, t: State) {
    && t.launches.Keys == s.launches.Keys && s.sent <= t.sent
    && forall k :: |s.sent| <= k < |t.sent| ==> !t.sent[k].reply.Go?
  }

  lemma {:induction false} QuietRefl(s: State)
    ensures Quiet(s, s)
  {
  }

  lemma {:induction false} QuietTrans(s: State, t: State, u: State)
    requires Quiet(s, t) && Quiet(t, u)
    ensures Quiet(s, u)
  {
  }

  /** An action that could add a launch or send a `go` says whether the guard is stopping. */
  predicate Stopping(a: Action) {
    match a
    case Line(_, _, _, stopping, _, _) => stopping
    case Finish(_, stopping, _, _) => stopping
    case _ => true
  }

  lemma {:induction false} LineQuiet(s: State, c: Conn, m: Message, rows: Snapshot, nonce: Nonce, sendOk: bool)
    requires Linked(s) && c in s.peers && s.peers[c].inbox != []
    ensures OnLine(s, c, m, rows, true, nonce, sendOk).s.launches.Keys == s.launches.Keys
  {
  }

  lemma {:induction false} HangupQuiet(s: State, c: Conn, rows: Snapshot, now: int)
    requires Linked(s) && c in s.peers
    ensures OnHangup(s, c, rows, now).launches.Keys == s.launches.Keys
  {
  }

  /** A stopping guard reserves nothing and permits nothing. */
  lemma {:induction false} StoppingIsQuiet(s: State, a: Action)
    requires Inv(s) && Evidence(s) && Enabled(s, a) && Stopping(a)
    ensures Quiet(s, Step(s, a).s)
  {
    hide Inv, Evidence, Records, OnLine, OnFinish, OnHangup, NewGosEarned;
    InvParts(s);
    if a.Finish? {
      FinishKeeps(s, a.rows, true, a.now, a.failing);
      EvidenceParts(s);
      FinishEarned(s, a.rows, true, a.now, a.failing);
      EarnedStopping(s, OnFinish(s, a.rows, true, a.now, a.failing).s);
    } else {
      OnlyFinishSaysGo(s, a);
      if a.Line? { LineQuiet(s, a.conn, a.message, a.rows, a.nonce, a.sendOk); }
      if a.Hangup? { HangupQuiet(s, a.conn, a.rows, a.now); }
    }
  }

  lemma {:induction false} EvidenceParts(s: State)
    requires Evidence(s)
    ensures Records(s.history, s)
  {
  }

  lemma {:induction false} EarnedStopping(s: State, t: State)
    requires NewGosEarned(s, t, true)
    ensures s.sent <= t.sent && forall k :: |s.sent| <= k < |t.sent| ==> !t.sent[k].reply.Go?
  {
  }

  lemma {:induction false} ReachEvidence(s: State)
    requires Reachable(s)
    ensures Evidence(s)
  {
    hide Evidence;
    var states, actions :| IsRun(states, actions) && states[|actions|] == s;
    RunEvidence(states, actions, |actions|);
  }

  // ---- What one exchange may do ------------------------------------------------------

  /** The actions of one exchange all see its one snapshot and its one stopping flag. */
  predicate Stamp(a: Action, stopping: bool, snapshot: Option<Snapshot>) {
    match a
    case Line(_, _, rows, st, _, _) => st == stopping && snapshot == Some(rows)
    case Hangup(_, rows, _) => snapshot == Some(rows)
    case Finish(rows, st, _, _) => st == stopping && snapshot == Some(rows)
    case Bind(_) => false
    case Revoke => false
    case _ => true
  }

  /** Everything from `before` to `s` is the work of one exchange. */
  ghost predicate Within(before: State, s: State, stopping: bool, snapshot: Option<Snapshot>) {
    && Forward(before, s) && (stopping ==> Quiet(before, s)) && s.root == before.root
    && before.history <= s.history
    && forall k :: |before.history| <= k < |s.history| ==> Stamp(s.history[k], stopping, snapshot)
  }

  lemma {:induction false} WithinStart(s: State, stopping: bool, snapshot: Option<Snapshot>)
    ensures Within(s, s, stopping, snapshot)
  {
  }

  lemma {:induction false} StepRoot(s: State, a: Action)
    requires Inv(s) && Enabled(s, a) && !a.Bind?
    ensures Step(s, a).s.root == s.root
  {
    hide Inv, OnFinish;
    if a.Finish? { FinishKeeps(s, a.rows, a.stopping, a.now, a.failing); }
  }

  lemma {:induction false} WithinStep(before: State, s: State, a: Action, stopping: bool, snapshot: Option<Snapshot>)
    requires Within(before, s, stopping, snapshot) && Reachable(s) && Enabled(s, a) && Stamp(a, stopping, snapshot)
    ensures Within(before, Step(s, a).s, stopping, snapshot)
  {
    hide Inv, Evidence, Forward, Quiet, Reachable, Enabled, Effect;
    ReachInv(s);
    ReachEvidence(s);
    StepKeeps(s, a);
    StepRoot(s, a);
    ForwardTrans(before, s, Step(s, a).s);
    if stopping {
      StoppingIsQuiet(s, a);
      QuietTrans(before, s, Step(s, a).s);
    }
  }

  // ---- What an exchange reads, and where it stops -------------------------------------------

  /** The connections accepted and the lines read, in order. */
  function Inputs(h: seq<Action>): seq<Action> {
    if h == [] then []
    else
      var a := h[|h| - 1];
      Inputs(h[..|h| - 1]) + if a.Accept? || a.Receive? then [a] else []
  }

  lemma {:induction false} InputsSnoc(h: seq<Action>, a: Action)
    ensures Inputs(h + [a]) == Inputs(h) + if a.Accept? || a.Receive? then [a] else []
  {
    assert (h + [a])[..|h|] == h;
  }

  function Arrivals(first: Conn, pids: seq<int>): seq<Action> {
    if pids == [] then []
    else
      var n := |pids| - 1;
      Arrivals(first, pids[..n]) + [Accept(first + n, pids[n])]
  }

  /** What is read from the old connections and from those accepted from `first` on, all below `limit`, in their order. */
  function Readings(connected: set<Conn>, first: Conn, limit: nat, io: Input): seq<Action> {
    if limit == 0 then []
    else
      var c := limit - 1;
      Readings(connected, first, c, io) +
      if (c in connected || first <= c) && c in io.received then [Receive(c, io.received[c].0, io.received[c].1)] else []
  }

  /** The inputs of one exchange: every arrival, then, unless an arrival fails, one reading per connection that sent anything. */
  function InputsOf(connected: set<Conn>, accepted: nat, io: Input): seq<Action> {
    Arrivals(accepted, io.arrivals) +
    if io.arrivalFails then [] else Readings(connected, accepted, accepted + |io.arrivals|, io)
  }

  /** The exchange could not read its input. */
  predicate Faulty(io: Input) { io.arrivalFails || io.oversized || io.snapshot.None? }

  /** The last thing that happened is an action that failed. */
  ghost predicate Stuck(t: State) {
    exists s, a :: Reachable(s) && Enabled(s, a) && Step(s, a) == Outcome(t, false)
  }

  lemma {:induction false} StuckAt(s: State, a: Action, t: State)
    requires Reachable(s) && Enabled(s, a) && Step(s, a) == Outcome(t, false)
    ensures Stuck(t)
  {
  }

  /** Only a line or the end of an exchange can fail. */
  lemma {:induction false} StuckMeans(t: State)
    requires Stuck(t)
    ensures t.history != [] && (t.history[|t.history| - 1].Line? || t.history[|t.history| - 1].Finish?)
  {
    hide Enabled, Reachable, OnLine, OnFinish, OnHangup, OnRevoke;
    var s, a :| Reachable(s) && Enabled(s, a) && Step(s, a) == Outcome(t, false);
    assert t.history == s.history + [a];
    EffectFails(s, a);
  }

  lemma {:induction false} EffectFails(s: State, a: Action)
    requires Enabled(s, a) && !Effect(s, a).ok
    ensures a.Line? || a.Finish?
  {
    hide OnLine, OnFinish, OnHangup, OnRevoke;
  }

  /** Something of a launch is left: it may still be forked, or its group has a live member. */
  ghost predicate LeftOver(s: State, rows: Snapshot) {
    || (exists n :: n in s.launches && s.launches[n].pid.None? && !s.launches[n].reported)
    || (exists n, p :: n in s.launches && s.launches[n].pid.Some? && s.launches[n].status != Drained
                       && p in rows && rows[p].group == s.launches[n].pid.value && !rows[p].zombie)
  }

  lemma {:induction false} LeftOverSets(s: State, rows: Snapshot, pending: set<Nonce>, owned: set<int>, remaining: set<int>)
    requires pending == set n | n in s.launches && s.launches[n].pid.None? && !s.launches[n].reported
    requires owned == set n | n in s.launches && s.launches[n].pid.Some? && s.launches[n].status != Drained :: s.launches[n].pid.value
    requires remaining == set p | p in rows && rows[p].group in owned && !rows[p].zombie
    ensures LeftOver(s, rows) <==> pending != {} || remaining != {}
  {
    if n :| n in s.launches && s.launches[n].pid.None? && !s.launches[n].reported { assert n in pending; }
    if n, p :| n in s.launches && s.launches[n].pid.Some? && s.launches[n].status != Drained
               && p in rows && rows[p].group == s.launches[n].pid.value && !rows[p].zombie
    {
      assert p in remaining;
    }
    if !LeftOver(s, rows) {
      assert forall n :: n !in pending;
      assert forall p :: p !in remaining;
    }
  }

  /** A line changes only its own peer, and takes one message off it. */
  lemma {:induction false} LineOthers(s: State, c: Conn, m: Message, rows: Snapshot, stopping: bool, nonce: Nonce, sendOk: bool)
    requires Linked(s) && c in s.peers && s.peers[c].inbox != []
    ensures
      var t := OnLine(s, c, m, rows, stopping, nonce, sendOk).s;
      && t.peers.Keys == s.peers.Keys && t.accepted == s.accepted
      && t.peers[c].inbox == s.peers[c].inbox[1..] && t.peers[c].eof == s.peers[c].eof
      && forall d :: d in s.peers && d != c ==> t.peers[d] == s.peers[d]
  {
  }

  lemma {:induction false} FinishSettles(s: State, rows: Snapshot, stopping: bool, now: int, failing: set<Conn>)
    requires Inv(s) && OnFinish(s, rows, stopping, now, failing).ok
    ensures
      var t := OnFinish(s, rows, stopping, now, failing).s;
      Settled(t) && (stopping ==> forall i :: 0 <= i < |t.groups| ==> t.groups[i].status != Pending)
  {
    hide Inv, AckFrom, DrainFrom, Forward;
    InvParts(s);
    AckSettles(s, stopping, failing);
    AckKeeps(s, 0, stopping, failing);
    var acked := AckFrom(s, 0, stopping, failing).s;
    InvParts(acked);
    DrainKeeps(acked, 0, rows, now);
    var drained := DrainFrom(acked, 0, rows, now).s;
    if stopping { DrainFacts(acked, 0, rows, now); NonePending(acked, drained); }
    RetireSettled(drained, rows);
  }

  lemma {:induction false} NonePending(s: State, t: State)
    requires Forward(s, t) && |s.groups| == |t.groups|
    requires forall i :: 0 <= i < |s.groups| ==> s.groups[i].status != Pending
    ensures forall i :: 0 <= i < |t.groups| ==> t.groups[i].status != Pending
  {
    forall i | 0 <= i < |t.groups| ensures t.groups[i].status != Pending { assert GroupForward(s.groups[i], t.groups[i]); }
  }

  lemma {:induction false} RetireSettled(s: State, rows: Snapshot)
    requires Settled(s)
    ensures Settled(Retire(s, rows)) && Retire(s, rows).groups == s.groups
  {
  }

  class RacketGroups {
    const token: nat -> Nonce                 // the random nonces, one per drawing
    var drawn: nat
    var accepted: nat
    var connections: map<Conn, Peer>
    var launches: map<Nonce, Launch>
    var groups: seq<Group>
    var root: Option<int>
    var closed: bool
    ghost var sent: seq<Sent>
    ghost var history: seq<Action>

    ghost function Books(): State
      reads this
    {
      State(accepted, connections, launches, groups, root, sent, history)
    }

    /** Nonces are taken in order from the injective supply. */
    ghost predicate Drawn()
      reads this
    {
      && Injective(token) && drawn == |history|
      && (forall j :: 0 <= j < |history| && history[j].Line? ==> history[j].nonce == token(j))
      && (forall n :: n in launches ==> exists j :: 0 <= j < drawn && n == token(j))
    }

    ghost predicate Valid()
      reads this
    {
      Reachable(Books()) && Drawn()
    }

    lemma {:induction false} NextIsFresh()
      requires Valid()
      ensures Fresh(Books(), token(drawn)) && Linked(Books()) && Inv(Books())
    {
      hide Inv;
      ReachInv(Books());
      InvParts(Books());
    }

    constructor (token: nat -> Nonce)
      requires Injective(token)
      ensures Valid() && Books() == INITIAL && !closed
    {
      this.token := token;
      drawn, accepted, connections, launches, groups, root, closed := 0, 0, map[], map[], [], None, false;
      sent, history := [], [];
      new;
      ReachInitial();
    }

    /** Enter an action into the history; the books must already show its effect. */
    method Log(ghost before: State, ghost a: Action)
      requires Reachable(before) && Enabled(before, a) && Effect(before, a).s == Books()
      requires Injective(token) && drawn == |history|
      requires forall j :: 0 <= j < |history| && history[j].Line? ==> history[j].nonce == token(j)
      requires forall n :: n in launches ==> exists j :: 0 <= j <= drawn && n == token(j)
      requires history == before.history && (a.Line? ==> a.nonce == token(drawn))
      modifies this`drawn, this`history
      ensures Valid() && Books() == Step(before, a).s && history == old(history) + [a]
    {
      hide Enabled, Effect, Reachable;
      ReachStep(before, a);
      drawn := drawn + 1;
      history := history + [a];
    }

    // ---- One message ---------------------------------------------------------------

    method TakeReserve(c: Conn, rows: Snapshot, stopping: bool, nonce: Nonce, sendOk: bool) returns (ok: bool)
      requires c in connections
      modifies this`connections, this`launches, this`sent
      ensures Outcome(Books(), ok) == old(OnReserve(Books(), c, rows, stopping, nonce, sendOk))
    {
      var peer := connections[c];
      if stopping {
        sent := sent + [Sent(c, Stop, "", |history|)];
        return sendOk;
      }
      if root.None? || root.value !in rows || peer.pid !in rows || rows[peer.pid].group != root.value {
        return false;
      }
      launches := launches[nonce := Launch(peer.pid, Reserved, false, None)];
      connections := connections[c := peer.(role := Parent(nonce))];
      sent := sent + [Sent(c, Token(nonce), nonce, |history|)];
      ok := sendOk;
    }

    method TakeReport(c: Conn, m: Message, sendOk: bool) returns (ok: bool)
      requires c in connections && connections[c].role.Parent? && connections[c].role.reservation in launches
      requires m.Spawned? || m.SpawnFailed?
      modifies this`launches, this`sent
      ensures Outcome(Books(), ok) == old(OnReport(Books(), c, m, sendOk))
    {
      var n := connections[c].role.reservation;
      var launch := launches[n];
      if launch.reported || launch.status !in {Reserved, Registering} {
        return false;
      }
      if m.Spawned? {
        if m.child.None? || m.child.value <= 0 || (launch.pid.Some? && launch.pid != m.child) {
          return false;
        }
        launches := launches[n := launch.(status := Reported, pid := m.child, reported := true)];
      } else {
        if launch.pid.Some? {
          return false;
        }
        launches := launches[n := launch.(status := Failed, reported := true)];
      }
      sent := sent + [Sent(c, Recorded, n, |history|)];
      ok := sendOk;
    }

    method TakeRegister(c: Conn, m: Message, rows: Snapshot) returns (ok: bool)
      requires c in connections && m.Register?
      modifies this`connections, this`launches, this`groups
      ensures Outcome(Books(), ok) == old(OnRegister(Books(), c, m, rows))
    {
      var pid := connections[c].pid;
      if m.reservation !in launches {
        return false;
      }
      var launch := launches[m.reservation];
      if launch.status !in {Reserved, Reported} || (launch.pid.Some? && launch.pid.value != pid)
         || m.pid != Some(pid) || m.contract != CONTRACT
      {
        return false;
      }
      if pid !in rows || rows[pid].group != pid {
        return false;
      }
      for i := 0 to |groups|
        invariant forall j :: 0 <= j < i ==> groups[j].pid != pid || groups[j].retired
      {
        if groups[i].pid == pid && !groups[i].retired {
          return false;
        }
      }
      if !m.complete {
        return false;
      }
      connections := connections[c := connections[c].(role := Leader(|groups|))];
      groups := groups + [Group(pid, Pending, m.reservation, false, 0)];
      launches := launches[m.reservation := launch.(pid := Some(pid), status := if launch.reported then Reported else Registering)];
      ok := true;
    }

    method TakeDone(c: Conn, m: Message, rows: Snapshot, sendOk: bool) returns (ok: bool)
      requires c in connections && connections[c].role.Leader? && connections[c].role.index < |groups| && m.Done?
      modifies this`groups, this`sent
      ensures Outcome(Books(), ok) == old(OnDone(Books(), c, m, rows, sendOk))
    {
      var i := connections[c].role.index;
      var pid := connections[c].pid;
      if groups[i].status != Acknowledged || Live(rows, pid) != {pid} || m.returncode.None? {
        return false;
      }
      groups := groups[i := groups[i].(status := Releasing)];
      sent := sent + [Sent(c, Release, groups[i].reservation, |history|)];
      ok := sendOk;
    }

    method Dispatch(c: Conn, rows: Snapshot, stopping: bool, nonce: Nonce, sendOk: bool) returns (ok: bool)
      requires Linked(Books()) && c in connections && connections[c].inbox != []
      modifies this`connections, this`launches, this`groups, this`sent
      ensures Outcome(Books(), ok) == old(OnLine(Books(), c, connections[c].inbox[0], rows, stopping, nonce, sendOk))
    {
      hide OnReserve, OnReport, OnRegister, OnDone;
      var peer, m := connections[c], connections[c].inbox[0];
      connections := connections[c := peer.(inbox := peer.inbox[1..])];
      if m.Reserve? && peer.role.NoRole? {
        ok := TakeReserve(c, rows, stopping, nonce, sendOk);
      } else if (m.Spawned? || m.SpawnFailed?) && peer.role.Parent? {
        ok := TakeReport(c, m, sendOk);
      } else if m.Register? && peer.role.NoRole? {
        ok := TakeRegister(c, m, rows);
      } else if m.Done? && peer.role.Leader? {
        ok := TakeDone(c, m, rows, sendOk);
      } else {
        ok := false;
      }
    }

    /** The next line of connection `c`, as an action. */
    ghost function NextLine(c: Conn, rows: Snapshot, stopping: bool, sendOk: bool): Action
      requires c in connections && connections[c].inbox != []
      reads this
    {
      Line(c, connections[c].inbox[0], rows, stopping, token(drawn), sendOk)
    }

    method TakeLine(c: Conn, rows: Snapshot, stopping: bool, sendOk: bool) returns (ok: bool)
      requires Valid() && c in connections && connections[c].inbox != []
      modifies this
      ensures old(Enabled(Books(), NextLine(c, rows, stopping, sendOk)))
      ensures Valid() && Outcome(Books(), ok) == old(Step(Books(), NextLine(c, rows, stopping, sendOk))) && closed == old(closed)
      ensures (!ok ==> Stuck(Books())) && Inputs(history) == old(Inputs(history))
    {
      hide OnLine, Reachable, Inv, Linked, Stuck;
      NextIsFresh();
      ghost var before, a := Books(), NextLine(c, rows, stopping, sendOk);
      LineNames(before, c, a.message, rows, stopping, a.nonce, sendOk);
      ok := Dispatch(c, rows, stopping, token(drawn), sendOk);
      Log(before, a);
      InputsSnoc(before.history, a);
      if !ok { StuckAt(before, a, Books()); }
    }

    // ---- Connections -----------------------------------------------------------------

    method AcceptPeer(pid: int)
      requires Valid()
      modifies this
      ensures old(Enabled(Books(), Accept(accepted, pid)))
      ensures Valid() && Books() == old(Step(Books(), Accept(accepted, pid)).s) && closed == old(closed)
    {
      hide Reachable, Inv, Linked;
      NextIsFresh();
      ghost var before := Books();
      connections := connections[accepted := Peer(pid, NoRole, [], false)];
      accepted := accepted + 1;
      Log(before, Accept(before.accepted, pid));
    }

    method ReceiveFrom(c: Conn, messages: seq<Message>, eof: bool)
      requires Valid() && c in connections
      modifies this
      ensures old(Enabled(Books(), Receive(c, messages, eof)))
      ensures Valid() && Books() == old(Step(Books(), Receive(c, messages, eof)).s) && closed == old(closed)
    {
      hide Reachable, Inv, Linked;
      NextIsFresh();
      ghost var before := Books();
      var peer := connections[c];
      connections := connections[c := peer.(inbox := peer.inbox + messages, eof := peer.eof || eof)];
      Log(before, Receive(c, messages, eof));
    }

    method DropPeer(c: Conn)
      requires Valid() && c in connections && connections[c].eof && connections[c].role.NoRole?
      modifies this
      ensures old(Enabled(Books(), Drop(c)))
      ensures Valid() && Books() == old(Step(Books(), Drop(c)).s) && closed == old(closed)
    {
      hide Reachable, Inv, Linked;
      NextIsFresh();
      ghost var before := Books();
      connections := connections - {c};
      Log(before, Drop(c));
    }

    method Disconnect(c: Conn, rows: Snapshot, now: int)
      requires Linked(Books()) && c in connections
      modifies this`connections, this`groups, this`launches
      ensures Books() == old(OnHangup(Books(), c, rows, now))
    {
      var peer := connections[c];
      connections := connections - {c};
      if peer.role.Leader? {
        var i := peer.role.index;
        var group := groups[i];
        var launch := launches[group.reservation];
        if Live(rows, peer.pid) != {} {
          groups := groups[i := group.(status := Leaving, deadline := now + 1)];
          launches := launches[group.reservation := launch.(status := Draining)];
        } else {
          groups := groups[i := group.(status := Left, retired := true)];
          launches := launches[group.reservation := launch.(status := Drained)];
        }
      }
    }

    method HangUp(c: Conn, rows: Snapshot, now: int)
      requires Valid() && c in connections && connections[c].eof && connections[c].inbox == []
      modifies this
      ensures old(Enabled(Books(), Hangup(c, rows, now)))
      ensures Valid() && Books() == old(Step(Books(), Hangup(c, rows, now)).s) && closed == old(closed)
    {
      hide Reachable, Inv, Linked, OnHangup;
      NextIsFresh();
      ghost var before := Books();
      HangupQuiet(before, c, rows, now);
      Disconnect(c, rows, now);
      Log(before, Hangup(c, rows, now));
    }

    // ---- The end of an exchange ----------------------------------------------------------

    method Acknowledge(stopping: bool, deaf: set<Conn>) returns (ok: bool)
      requires Linked(Books())
      modifies this`launches, this`groups, this`sent
      ensures Outcome(Books(), ok) == old(AckFrom(Books(), 0, stopping, deaf))
    {
      hide Answer, Answered;
      for c := 0 to accepted
        invariant Linked(Books()) && AckFrom(Books(), c, stopping, deaf) == old(AckFrom(Books(), 0, stopping, deaf))
      {
        var answered := AnswerOne(c, stopping);
        if answered && c in deaf {
          return false;
        }
      }
      ok := true;
    }

    method AnswerOne(c: Conn, stopping: bool) returns (answered: bool)
      requires Linked(Books()) && c < accepted
      modifies this`launches, this`groups, this`sent
      ensures answered == old(Answered(Books(), c, stopping)) && Linked(Books())
      ensures Books() == if answered then old(Answer(Books(), c, stopping)) else old(Books())
    {
      if c !in connections || !connections[c].role.Leader? || groups[connections[c].role.index].status != Pending {
        return false;
      }
      var i := connections[c].role.index;
      var n := groups[i].reservation;
      if !stopping && !launches[n].reported {
        return false;
      }
      AnswerLinked(Books(), c, stopping);
      groups := groups[i := groups[i].(status := if stopping then Refused else Acknowledged)];
      launches := launches[n := launches[n].(status := Registered)];
      sent := sent + [Sent(c, if stopping then Stop else Go, n, |history|)];
      answered := true;
    }

    method DrainGroups(rows: Snapshot, now: int) returns (ok: bool)
      requires Linked(Books())
      modifies this`launches, this`groups
      ensures Outcome(Books(), ok) == old(DrainFrom(Books(), 0, rows, now))
    {
      for i := 0 to |groups|
        invariant |groups| == old(|groups|)
        invariant Linked(Books()) && DrainFrom(Books(), i, rows, now) == old(DrainFrom(Books(), 0, rows, now))
      {
        var group := groups[i];
        if group.status == Leaving {
          if Live(rows, group.pid) == {} {
            AdvanceLinked(Books(), i, Left, Drained, group.deadline);
            groups := groups[i := group.(status := Left, retired := true)];
            launches := launches[group.reservation := launches[group.reservation].(status := Drained)];
          } else if now >= group.deadline {
            return false;
          }
        }
      }
      ok := true;
    }

    method RetireUnused(rows: Snapshot)
      modifies this`launches
      ensures Books() == old(Retire(Books(), rows))
    {
      ghost var goal := Retire(Books(), rows).launches;
      var waiting := launches.Keys;
      while waiting != {}
        invariant waiting <= launches.Keys == old(launches).Keys
        invariant forall n :: n in launches ==> launches[n] == if n in waiting then old(launches[n]) else goal[n]
        decreases waiting
      {
        var n :| n in waiting;
        if Gone(launches[n], rows) {
          launches := launches[n := launches[n].(status := Drained)];
        }
        waiting := waiting - {n};
      }
      assert launches == goal;
    }

    method FinishExchange(rows: Snapshot, stopping: bool, now: int, deaf: set<Conn>) returns (ok: bool)
      requires Valid()
      modifies this
      ensures old(Enabled(Books(), Finish(rows, stopping, now, deaf)))
      ensures Valid() && Outcome(Books(), ok) == old(Step(Books(), Finish(rows, stopping, now, deaf))) && closed == old(closed)
      ensures !ok ==> Stuck(Books())
      ensures Inputs(history) == old(Inputs(history))
    {
      hide Reachable, Inv, Linked, AckFrom, DrainFrom, Retire;
      NextIsFresh();
      ghost var before := Books();
      AckLinked(before, 0, stopping, deaf);
      FinishKeeps(before, rows, stopping, now, deaf);
      ok := Acknowledge(stopping, deaf);
      if ok {
        ok := DrainGroups(rows, now);
        if ok {
          RetireUnused(rows);
        }
      }
      assert Books() == OnFinish(before, rows, stopping, now, deaf).s;
      Log(before, Finish(rows, stopping, now, deaf));
      InputsSnoc(before.history, Finish(rows, stopping, now, deaf));
      if !ok { StuckAt(before, Finish(rows, stopping, now, deaf), Books()); }
    }

    // ---- An exchange -------------------------------------------------------------------------

    /** Nothing but connection `c` changed among the connections. */
    twostate predicate OnlyPeer(c: Conn)
      reads this
    {
      && (forall d :: d in connections && d != c ==> d in old(connections) && connections[d] == old(connections[d]))
      && (forall d :: d in old(connections) && d != c ==> d in connections)
    }

    /** One message of connection `c`. */
    method ServeLine(c: Conn, io: Input, rows: Snapshot, stopping: bool, ghost before: State) returns (ok: bool)
      requires Valid() && io.snapshot == Some(rows) && Within(before, Books(), stopping, io.snapshot)
      requires c in connections && connections[c].inbox != []
      modifies this
      ensures Valid() && Within(before, Books(), stopping, io.snapshot) && closed == old(closed) && accepted == old(accepted)
      ensures OnlyPeer(c) && c in connections && connections[c].inbox == old(connections[c].inbox[1..])
      ensures Forward(old(Books()), Books()) && (old(Overdue(Books(), c)) ==> !ok)
      ensures (!ok ==> Stuck(Books())) && Inputs(history) == old(Inputs(history))
    {
      hide Reachable, Inv, Linked, OnLine, Within, Forward, Overdue, Stuck, Inputs;
      NextIsFresh();
      ghost var here, a := Books(), NextLine(c, rows, stopping, c !in io.deaf);
      LineOthers(here, c, a.message, rows, stopping, a.nonce, a.sendOk);
      WithinStep(before, here, a, stopping, io.snapshot);
      StepKeeps(here, a);
      if Overdue(here, c) { OverdueFails(here, c, rows, stopping, a.nonce, a.sendOk); }
      ok := TakeLine(c, rows, stopping, c !in io.deaf);
    }

    /** Connection `c` at end of file. */
    method ServeEnd(c: Conn, io: Input, rows: Snapshot, stopping: bool, ghost before: State)
      requires Valid() && io.snapshot == Some(rows) && Within(before, Books(), stopping, io.snapshot)
      requires c in connections && connections[c].eof && (connections[c].inbox == [] || connections[c].role.NoRole?)
      modifies this
      ensures Valid() && Within(before, Books(), stopping, io.snapshot) && closed == old(closed) && accepted == old(accepted)
      ensures OnlyPeer(c) && c !in connections && Forward(old(Books()), Books())
      ensures Inputs(history) == old(Inputs(history))
    {
      hide Reachable, Inv, Linked, Within, OnHangup, Forward;
      NextIsFresh();
      ghost var here := Books();
      if connections[c].role.NoRole? {
        WithinStep(before, here, Drop(c), stopping, io.snapshot);
        StepKeeps(here, Drop(c));
        InputsSnoc(here.history, Drop(c));
        DropPeer(c);
      } else {
        HangupOthers(here, c, rows, io.now);
        WithinStep(before, here, Hangup(c, rows, io.now), stopping, io.snapshot);
        StepKeeps(here, Hangup(c, rows, io.now));
        InputsSnoc(here.history, Hangup(c, rows, io.now));
        HangUp(c, rows, io.now);
      }
    }

    /** Every message of connection `c`, then its end of file. */
    method Serve(c: Conn, io: Input, rows: Snapshot, stopping: bool, ghost before: State) returns (ok: bool)
      requires Valid() && io.snapshot == Some(rows) && Within(before, Books(), stopping, io.snapshot) && c in connections
      modifies this
      ensures Valid() && Within(before, Books(), stopping, io.snapshot) && closed == old(closed) && accepted == old(accepted)
      ensures OnlyPeer(c)
      ensures ok ==> c in connections ==> connections[c].inbox == [] && !connections[c].eof
      ensures Forward(old(Books()), Books()) && (old(Overdue(Books(), c)) ==> !ok)
      ensures (!ok ==> Stuck(Books())) && Inputs(history) == old(Inputs(history))
    {
      hide Valid, Within, Forward, Shut, Stuck, Inputs;
      ForwardRefl(Books());
      ghost var overdue := Overdue(Books(), c);
      if connections[c].eof && connections[c].role.NoRole? {
        ServeEnd(c, io, rows, stopping, before);
        return true;
      }
      while connections[c].inbox != []
        invariant Valid() && Within(before, Books(), stopping, io.snapshot) && closed == old(closed) && accepted == old(accepted)
        invariant c in connections && OnlyPeer(c)
        invariant Forward(old(Books()), Books()) && (overdue ==> Overdue(Books(), c))
        invariant Inputs(history) == old(Inputs(history))
        decreases |connections[c].inbox|
      {
        ghost var here := Books();
        ok := ServeLine(c, io, rows, stopping, before);
        ForwardTrans(old(Books()), here, Books());
        if !ok {
          return;
        }
      }
      if connections[c].eof {
        ghost var here := Books();
        ServeEnd(c, io, rows, stopping, before);
        ForwardTrans(old(Books()), here, Books());
      }
      ok := true;
    }

    /** One new connection. */
    method ArriveOne(pid: int, stopping: bool, ghost snapshot: Option<Snapshot>, ghost before: State)
      requires Valid() && Within(before, Books(), stopping, snapshot)
      modifies this
      ensures Valid() && Within(before, Books(), stopping, snapshot) && closed == old(closed) && accepted == old(accepted) + 1
      ensures connections == old(connections)[old(accepted) := Peer(pid, NoRole, [], false)]
      ensures Inputs(history) == old(Inputs(history)) + [Accept(old(accepted), pid)]
    {
      hide Reachable, Inv, Linked, Within, Inputs;
      NextIsFresh();
      InputsSnoc(history, Accept(accepted, pid));
      WithinStep(before, Books(), Accept(accepted, pid), stopping, snapshot);
      AcceptPeer(pid);
    }

    /** The new connections. */
    method Arrive(io: Input, stopping: bool)
      requires Valid()
      modifies this
      ensures Valid() && Within(old(Books()), Books(), stopping, io.snapshot) && closed == old(closed)
      ensures forall p :: p in old(connections) ==> p in connections && connections[p] == old(connections[p])
      ensures accepted == old(accepted) + |io.arrivals|
      ensures forall c :: c in connections <==> c in old(connections) || old(accepted) <= c < accepted
      ensures Inputs(history) == old(Inputs(history)) + Arrivals(old(accepted), io.arrivals)
    {
      hide Valid, Inv, Linked, Within, Inputs;
      NextIsFresh();
      AllBelow(Books());
      WithinStart(Books(), stopping, io.snapshot);
      for i := 0 to |io.arrivals|
        invariant Valid() && Within(old(Books()), Books(), stopping, io.snapshot) && closed == old(closed)
        invariant accepted == old(accepted) + i && forall p :: p in old(connections) ==> p in connections && connections[p] == old(connections[p])
        invariant forall c :: c in connections <==> c in old(connections) || old(accepted) <= c < accepted
        invariant Inputs(history) == old(Inputs(history)) + Arrivals(old(accepted), io.arrivals[..i])
      {
        assert io.arrivals[..i + 1][..i] == io.arrivals[..i];
        ArriveOne(io.arrivals[i], stopping, io.snapshot, old(Books()));
      }
      assert io.arrivals[..|io.arrivals|] == io.arrivals;
    }

    /** Accept and read, before the one snapshot is taken. */
    method Listen(io: Input, stopping: bool)
      requires Valid()
      modifies this
      ensures Valid() && Within(old(Books()), Books(), stopping, io.snapshot) && closed == old(closed)
      ensures !io.arrivalFails ==> forall p :: p in old(connections) ==> Heard(old(Books()), Books(), io, p)
      ensures Inputs(history) == old(Inputs(history)) + InputsOf(old(connections.Keys), old(accepted), io)
    {
      hide Valid, Inv, Linked, Within, Inputs, Arrivals, Readings, Told, Heard;
      NextIsFresh();
      AllBelow(Books());
      Arrive(io, stopping);
      if io.arrivalFails {
        return;
      }
      ghost var peers, limit := connections, accepted;
      ReadAll(io, stopping, old(Books()));
      forall p | p in old(connections) ensures Heard(old(Books()), Books(), io, p) { ToldHeard(old(Books()), Books(), peers, io, limit, p); }
    }

    /** Read from every connection, in the order they were accepted. */
    method ReadAll(io: Input, stopping: bool, ghost before: State)
      requires Valid() && Within(before, Books(), stopping, io.snapshot) && before.accepted <= accepted
      requires forall c :: c in connections <==> c in before.peers || before.accepted <= c < accepted
      modifies this
      ensures Valid() && Within(before, Books(), stopping, io.snapshot) && closed == old(closed)
      ensures connections == Told(old(connections), io, old(accepted))
      ensures Inputs(history) == old(Inputs(history)) + Readings(before.peers.Keys, before.accepted, old(accepted), io)
    {
      hide Valid, Inv, Linked, Within, Inputs, Informed, Told, Readings;
      ghost var peers, read := connections, Inputs(history);
      ToldStart(peers, io);
      ReadingsStart(before.peers.Keys, before.accepted, io);
      var limit := accepted;
      for c := 0 to limit
        invariant Valid() && Within(before, Books(), stopping, io.snapshot) && closed == old(closed)
        invariant connections == Told(peers, io, c)
        invariant Inputs(history) == read + Readings(before.peers.Keys, before.accepted, c, io)
      {
        ToldStep(peers, io, c);
        ReadingsStep(before.peers.Keys, before.accepted, c, io);
        if c in connections {
          ReadFrom(c, io, stopping, before);
        }
      }
    }

    /** What connection `c` sent, if anything. */
    method ReadFrom(c: Conn, io: Input, stopping: bool, ghost before: State)
      requires Valid() && Within(before, Books(), stopping, io.snapshot) && c in connections
      modifies this
      ensures Valid() && Within(before, Books(), stopping, io.snapshot) && closed == old(closed) && accepted == old(accepted)
      ensures connections == old(connections)[c := Informed(old(connections[c]), io, c)]
      ensures Inputs(history) == old(Inputs(history)) + if c in io.received then [Receive(c, io.received[c].0, io.received[c].1)] else []
    {
      hide Reachable, Inv, Linked, Within, Inputs;
      if c in io.received {
        NextIsFresh();
        InputsSnoc(history, Receive(c, io.received[c].0, io.received[c].1));
        WithinStep(before, Books(), Receive(c, io.received[c].0, io.received[c].1), stopping, io.snapshot);
        ReceiveFrom(c, io.received[c].0, io.received[c].1);
      }
    }

    /**
     One exchange.  On success every message was taken and every peer at end of file is gone, no reported
     registration is left waiting, and a stopping exchange leaves none waiting at all; a failure keeps what
     was done so far.  Either way records only moved forward, and a stopping exchange reserved and permitted nothing.
     */
    method Exchange(stopping: bool, io: Input) returns (ok: bool)
      requires Valid()
      modifies this
      ensures Valid() && Within(old(Books()), Books(), stopping, io.snapshot) && closed == old(closed)
      ensures ok ==> io.snapshot.Some? && Settled(Books())
      ensures ok ==> forall c :: c in connections ==> connections[c].inbox == [] && !connections[c].eof
      ensures ok && stopping ==> forall i :: 0 <= i < |groups| ==> groups[i].status != Pending
      ensures (exists p: Conn :: old(Late(Books(), io.received, p))) ==> !ok
      ensures (Faulty(io) ==> !ok) && (!ok ==> Faulty(io) || Stuck(Books()))
      ensures Inputs(history) == old(Inputs(history)) + InputsOf(old(connections.Keys), old(accepted), io)
    {
      hide Valid, Inv, Linked, Within, OnFinish, Settled, Forward, Late, Overdue, Stuck, Inputs, InputsOf;
      Listen(io, stopping);
      if io.arrivalFails || io.oversized || io.snapshot.None? {
        return false;
      }
      var rows := io.snapshot.value;
      WithinForward(old(Books()), Books(), stopping, io.snapshot);
      forall p: Conn | old(Late(Books(), io.received, p)) ensures Overdue(Books(), p) {
        LatePeer(old(Books()), io.received, p);
        LateIsOverdue(old(Books()), Books(), io, p);
      }
      ok := ServeAll(io, rows, stopping, old(Books()));
      if !ok {
        return;
      }
      NextIsFresh();
      WithinStep(old(Books()), Books(), Finish(rows, stopping, io.now, io.deaf), stopping, io.snapshot) by { ValidReachable(); }
      FinishKeeps(Books(), rows, stopping, io.now, io.deaf);
      ghost var mid := Books();
      ok := FinishExchange(rows, stopping, io.now, io.deaf);
      if ok {
        FinishSettles(mid, rows, stopping, io.now, io.deaf);
        SettledIgnoresHistory(OnFinish(mid, rows, stopping, io.now, io.deaf).s, history);
      }
    }

    lemma {:induction false} ValidReachable()
      requires Valid()
      ensures Reachable(Books())
    {
    }

    /** Every connection in turn; a report that comes too late makes the exchange fail. */
    method ServeAll(io: Input, rows: Snapshot, stopping: bool, ghost before: State) returns (ok: bool)
      requires Valid() && io.snapshot == Some(rows) && Within(before, Books(), stopping, io.snapshot)
      modifies this
      ensures Valid() && Within(before, Books(), stopping, io.snapshot) && closed == old(closed)
      ensures ok ==> forall c :: c in connections ==> connections[c].inbox == [] && !connections[c].eof
      ensures (exists p: Conn :: old(Overdue(Books(), p))) ==> !ok
      ensures (!ok ==> Stuck(Books())) && Inputs(history) == old(Inputs(history))
    {
      hide Valid, Inv, Within, Forward, Shut, Stuck, Inputs;
      ghost var late := exists p: Conn :: Overdue(Books(), p);
      ghost var p: Conn := if late then var q: Conn :| Overdue(Books(), q); q else 0;
      var limit := accepted;
      NextIsFresh();
      AllBelow(Books());
      for c := 0 to limit
        invariant Valid() && Within(before, Books(), stopping, io.snapshot) && closed == old(closed)
        invariant accepted == limit && forall d :: d in connections ==> d < limit
        invariant forall d :: d in connections && d < c ==> connections[d].inbox == [] && !connections[d].eof
        invariant late ==> c <= p && Overdue(Books(), p)
        invariant Inputs(history) == old(Inputs(history))
      {
        if c in connections {
          ghost var here := Books();
          ok := Serve(c, io, rows, stopping, before);
          if late && c != p { OverdueStays(here, Books(), p); }
          if !ok {
            return;
          }
        }
      }
      ok := true;
    }

    /** Watch the guarded root; the root never changes and a closed guard watches nothing. */
    method Monitor(process: int, io: Input) returns (ok: bool)
      requires Valid()
      modifies this
      ensures Valid() && closed == old(closed)
      ensures closed || (old(root).Some? && old(root) != Some(process)) ==> !ok && Books() == old(Books())
      ensures !closed && (old(root).None? || old(root) == Some(process)) ==>
                root == Some(process) && Forward(old(Books()), Books())
      ensures ok ==> Settled(Books()) && forall c :: c in connections ==> connections[c].inbox == [] && !connections[c].eof
      ensures !ok ==> closed || (old(root).Some? && old(root) != Some(process)) || Faulty(io) || Stuck(Books())
      ensures ok ==> Inputs(history) == old(Inputs(history)) + InputsOf(old(connections.Keys), old(accepted), io)
    {
      hide Reachable, Inv, Linked, Settled, Forward, Stuck, InputsOf;
      if closed || (root.Some? && root.value != process) {
        return false;
      }
      NextIsFresh();
      ghost var before := Books();
      StepKeeps(before, Bind(process));
      root := Some(process);
      Log(before, Bind(process));
      InputsSnoc(before.history, Bind(process));
      ghost var bound := Books();
      ok := Exchange(false, io);
      ForwardTrans(before, bound, Books());
    }

    /** Close every lease: its group is revoked and its connection dropped. */
    method RevokeLeases()
      requires Valid() && forall i :: 0 <= i < |groups| ==> groups[i].status != Pending
      modifies this
      ensures Valid() && closed == old(closed) && Books() == old(OnRevoke(Books())).(history := old(history) + [Revoke])
      ensures Forward(old(Books()), Books())
    {
      hide Reachable, Inv, Forward;
      NextIsFresh();
      ghost var before := Books();
      assert Enabled(before, Revoke);
      for c := 0 to accepted
        invariant Books() == RevokedBelow(before, c)
        invariant accepted == before.accepted && drawn == old(drawn) && closed == old(closed)
      {
        RevokeOne(before, c);
        if c in connections && connections[c].role.Leader? {
          var i := connections[c].role.index;
          groups := groups[i := groups[i].(status := Revoked)];
          connections := connections - {c};
        }
      }
      RevokedAll(before);
      StepKeeps(before, Revoke);
      Log(before, Revoke);
    }

    /**
     Refuse new reservations and drain.  Whatever happens, no launch is added and no `go` is sent after
     closing began.  Success means that every launch reported a failed fork or has a known PID, and that in
     the last snapshot no launch that is not drained still has a live member in its group; closing fails only
     if an exchange did, or if something of this kind is left after the last one.
     */
    method Close(rounds: seq<Input>) returns (success: bool, last: Snapshot, ghost trail: seq<State>)
      requires Valid() && !closed && rounds != []
      modifies this
      ensures Valid() && closed && Quiet(old(Books()), Books()) && Forward(old(Books()), Books())
      ensures success ==> exists k :: 0 <= k < |rounds| && rounds[k].snapshot == Some(last)
      ensures success ==> forall n :: n in launches ==> launches[n].status == Failed || launches[n].pid.Some?
      ensures success ==> forall n :: n in launches && launches[n].pid.Some? ==>
                launches[n].status == Drained || Live(last, launches[n].pid.value) == {}
      ensures success ==> forall c :: c in connections ==> !connections[c].role.Leader?
      ensures 0 < |trail| <= |rounds| && trail[0] == old(Books())
      ensures success ==> forall k, p: Conn :: 0 <= k < |trail| ==> !Late(trail[k], rounds[k].received, p)
      ensures success ==> !LeftOver(Books(), last)
      ensures !success ==> Faulty(rounds[|trail| - 1]) || Stuck(Books()) || (|trail| == |rounds| && LeftOver(Books(), last))
    {
      hide Reachable, Inv, Forward, Quiet, Late, AllDrained, Stuck, LeftOver;
      trail := [];
      QuietRefl(Books());
      ForwardRefl(Books());
      var failed, done := false, false;
      last := map[];
      var i := 0;
      while i < |rounds| && !failed && !done
        invariant Valid() && Quiet(old(Books()), Books()) && Forward(old(Books()), Books()) && 0 <= i <= |rounds|
        invariant done ==> i < |rounds| && rounds[i].snapshot == Some(last) && AllDrained(Books(), last)
        invariant done ==> forall c :: c in connections ==> !connections[c].role.Leader?
        invariant |trail| == (if failed || done then i + 1 else i) && (trail != [] ==> trail[0] == old(Books()))
        invariant failed ==> i < |rounds| && (Faulty(rounds[i]) || Stuck(Books()))
        invariant done ==> !LeftOver(Books(), last)
        invariant i > 0 && !failed && !done ==> LeftOver(Books(), last)
        invariant !(failed && done) && (failed || done ==> i < |rounds|) && (trail == [] ==> Books() == old(Books()))
        invariant !failed ==> forall k, p: Conn :: 0 <= k < |trail| ==> !Late(trail[k], rounds[k].received, p)
        decreases |rounds| - i, !failed, !done
      {
        ghost var before := Books();
        trail := trail + [before];
        var ok;
        ok, done, last := CloseRound(rounds[i]);
        QuietTrans(old(Books()), before, Books());
        ForwardTrans(old(Books()), before, Books());
        failed := !ok;
        if ok && !done {
          i := i + 1;
        }
      }
      if done { DrainedParts(Books(), last); }
      closed := true;
      success := done;
    }

    /** One closing exchange, the revocation of the leases, and what is left after it. */
    method CloseRound(io: Input) returns (ok: bool, done: bool, last: Snapshot)
      requires Valid()
      modifies this
      ensures Valid() && closed == old(closed) && Quiet(old(Books()), Books()) && Forward(old(Books()), Books())
      ensures done ==> ok && io.snapshot == Some(last) && AllDrained(Books(), last)
      ensures done ==> forall c :: c in connections ==> !connections[c].role.Leader?
      ensures (exists p: Conn :: old(Late(Books(), io.received, p))) ==> !ok
      ensures !ok ==> !done && (Faulty(io) || Stuck(Books()))
      ensures ok ==> io.snapshot == Some(last) && (done <==> !LeftOver(Books(), last))
    {
      hide Valid, Inv, Linked, Settled, Forward, Quiet, Within, Late, Stuck, Inputs, InputsOf, LeftOver;
      done, last := false, map[];
      ok := Exchange(true, io);
      WithinParts(old(Books()), Books(), io.snapshot);
      if !ok {
        return;
      }
      ghost var mid := Books();
      RevokeLeases();
      RevokeQuiet(mid, Books());
      QuietTrans(old(Books()), mid, Books());
      ForwardTrans(old(Books()), mid, Books());
      last := io.snapshot.value;
      var pending := set n | n in launches && launches[n].pid.None? && !launches[n].reported;
      var owned := set n | n in launches && launches[n].pid.Some? && launches[n].status != Drained :: launches[n].pid.value;
      var remaining := set p | p in last && last[p].group in owned && !last[p].zombie;
      LeftOverSets(Books(), last, pending, owned, remaining);
      if pending == {} && remaining == {} {
        NextIsFresh();
        InvParts(Books());
        NothingLeft(Books(), last, pending, owned, remaining);
        done := true;
      }
    }
  }

  lemma {:induction false} DrainedParts(s: State, rows: Snapshot)
    requires AllDrained(s, rows)
    ensures forall n :: n in s.launches ==> s.launches[n].status == Failed || s.launches[n].pid.Some?
    ensures forall n :: n in s.launches && s.launches[n].pid.Some? ==>
              s.launches[n].status == Drained || Live(rows, s.launches[n].pid.value) == {}
  {
  }

  /** A peer after reading from it. */
  function Informed(p: Peer, io: Input, c: Conn): Peer {
    if c in io.received then Peer(p.pid, p.role, p.inbox + io.received[c].0, p.eof || io.received[c].1) else p
  }

  /** The peers after reading from those below `limit`. */
  function Told(peers: map<Conn, Peer>, io: Input, limit: nat): map<Conn, Peer> {
    map c | c in peers :: if c < limit then Informed(peers[c], io, c) else peers[c]
  }

  lemma {:induction false} ToldStart(peers: map<Conn, Peer>, io: Input)
    ensures Told(peers, io, 0) == peers
  {
  }

  lemma {:induction false} ToldStep(peers: map<Conn, Peer>, io: Input, c: Conn)
    ensures Told(peers, io, c).Keys == peers.Keys
    ensures Told(peers, io, c + 1) ==
            if c in peers then Told(peers, io, c)[c := Informed(Told(peers, io, c)[c], io, c)] else Told(peers, io, c)
  {
    hide Informed;
  }

  lemma {:induction false} ReadingsStart(connected: set<Conn>, first: Conn, io: Input)
    ensures Readings(connected, first, 0, io) == []
  {
  }

  lemma {:induction false} ReadingsStep(connected: set<Conn>, first: Conn, c: Conn, io: Input)
    ensures Readings(connected, first, c + 1, io) == Readings(connected, first, c, io) +
            if (c in connected || first <= c) && c in io.received then [Receive(c, io.received[c].0, io.received[c].1)] else []
  {
  }

  lemma {:induction false} ToldHeard(s: State, t: State, peers: map<Conn, Peer>, io: Input, limit: nat, p: Conn)
    requires p in s.peers && p in peers && peers[p] == s.peers[p] && p < limit && t.peers == Told(peers, io, limit)
    ensures Heard(s, t, io, p)
  {
  }

  /** What a connection has after listening: its messages, then those read from it. */
  ghost predicate Heard(s: State, t: State, io: Input, p: Conn)
    requires p in s.peers
  {
    p in t.peers && t.peers[p].role == s.peers[p].role
    && t.peers[p].inbox == s.peers[p].inbox + if p in io.received then io.received[p].0 else []
  }

  lemma {:induction false} LatePeer(s: State, received: map<Conn, (seq<Message>, bool)>, p: Conn)
    requires Late(s, received, p)
    ensures p in s.peers
  {
  }

  lemma {:induction false} LateIsOverdue(s: State, t: State, io: Input, p: Conn)
    requires Late(s, io.received, p) && Heard(s, t, io, p) && Forward(s, t)
    ensures Overdue(t, p)
  {
    hide Forward, Shut;
    ShutStays(s, t, s.peers[p].role.reservation);
    assert [] + io.received[p].0 == io.received[p].0;
  }

  lemma {:induction false} WithinForward(before: State, s: State, stopping: bool, snapshot: Option<Snapshot>)
    requires Within(before, s, stopping, snapshot)
    ensures Forward(before, s)
  {
  }

  /** What a successful closing has established. */
  predicate AllDrained(s: State, rows: Snapshot) {
    forall n :: n in s.launches ==>
      && (s.launches[n].status == Failed || s.launches[n].pid.Some?)
      && (s.launches[n].pid.Some? ==> s.launches[n].status == Drained || Live(rows, s.launches[n].pid.value) == {})
  }

  lemma {:induction false} NothingLeft(s: State, rows: Snapshot, pending: set<Nonce>, owned: set<int>, remaining: set<int>)
    requires Launches(s)
    requires pending == set n | n in s.launches && s.launches[n].pid.None? && !s.launches[n].reported
    requires owned == set n | n in s.launches && s.launches[n].pid.Some? && s.launches[n].status != Drained :: s.launches[n].pid.value
    requires remaining == set p | p in rows && rows[p].group in owned && !rows[p].zombie
    requires pending == {} && remaining == {}
    ensures AllDrained(s, rows)
  {
    forall n | n in s.launches
      ensures s.launches[n].status == Failed || s.launches[n].pid.Some?
      ensures s.launches[n].pid.Some? ==> s.launches[n].status == Drained || Live(rows, s.launches[n].pid.value) == {}
    {
      assert LaunchOk(s.launches[n]) && n !in pending;
      if s.launches[n].pid.Some? && s.launches[n].status != Drained {
        assert s.launches[n].pid.value in owned;
        assert forall p :: p in Live(rows, s.launches[n].pid.value) ==> p in remaining;
      }
    }
  }

  lemma {:induction false} WithinParts(before: State, s: State, snapshot: Option<Snapshot>)
    requires Within(before, s, true, snapshot)
    ensures Forward(before, s) && Quiet(before, s)
  {
  }

  lemma {:induction false} RevokeQuiet(s: State, t: State)
    requires t == OnRevoke(s).(history := s.history + [Revoke])
    ensures Quiet(s, t) && forall c :: c in t.peers ==> !t.peers[c].role.Leader?
  {
  }

  /** The books after the leases of connections below `c` were revoked. */
  ghost function RevokedBelow(s: State, c: Conn): State {
    s.(groups := seq(|s.groups|, i requires 0 <= i < |s.groups| =>
         if exists d :: d in s.peers && d < c && s.peers[d].role == Leader(i) then s.groups[i].(status := Revoked) else s.groups[i]),
       peers := map d | d in s.peers && (d >= c || !s.peers[d].role.Leader?) :: s.peers[d])
  }

  lemma {:induction false} RevokeOne(s: State, c: Conn)
    requires Linked(s)
    ensures
      var t, u := RevokedBelow(s, c), RevokedBelow(s, c + 1);
      if c in t.peers && t.peers[c].role.Leader? then
        && t.peers[c].role.index < |t.groups|
        && u == t.(groups := t.groups[t.peers[c].role.index := t.groups[t.peers[c].role.index].(status := Revoked)],
                   peers := t.peers - {c})
      else u == t
  {
    var t, u := RevokedBelow(s, c), RevokedBelow(s, c + 1);
    if c in t.peers && t.peers[c].role.Leader? {
      var i := t.peers[c].role.index;
      assert c in s.peers && s.peers[c].role == Leader(i);
      assert u.groups == t.groups[i := t.groups[i].(status := Revoked)];
      assert u.peers == t.peers - {c};
    } else {
      assert u.groups == t.groups;
      assert u.peers == t.peers;
    }
  }

  lemma {:induction false} RevokedAll(s: State)
    requires Linked(s)
    ensures RevokedBelow(s, s.accepted) == OnRevoke(s)
  {
    assert RevokedBelow(s, s.accepted).groups == RevokedGroups(s);
    assert RevokedBelow(s, s.accepted).peers == OnRevoke(s).peers;
  }

  lemma {:induction false} HangupOthers(s: State, c: Conn, rows: Snapshot, now: int)
    requires Linked(s) && c in s.peers
    ensures OnHangup(s, c, rows, now).peers == s.peers - {c} && OnHangup(s, c, rows, now).accepted == s.accepted
  {
  }

  lemma {:induction false} AllBelow(s: State)
    requires Linked(s)
    ensures forall c :: c in s.peers ==> c < s.accepted
  {
  }

  lemma {:induction false} SettledIgnoresHistory(s: State, h: seq<Action>)
    requires Settled(s)
    ensures Settled(s.(history := h))
  {
  }

  /** A line adds at most its own nonce to the launches. */
  lemma {:induction false} LineNames(s: State, c: Conn, m: Message, rows: Snapshot, stopping: bool, nonce: Nonce, sendOk: bool)
    requires Linked(s) && c in s.peers && s.peers[c].inbox != []
    ensures
      var t := OnLine(s, c, m, rows, stopping, nonce, sendOk).s;
      t.history == s.history && forall n :: n in t.launches ==> n in s.launches || n == nonce
  {
  }
}
