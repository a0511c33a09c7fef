/**
 The fork report and the registration of a reservation may arrive in either
 order, in one exchange or in two: the launch ends up acknowledged all the same.
 */
module LeaseOrders {
  import opened Prelude
  import opened LeaseModel
  import opened LeaseInvariants
  import opened LeaseHistory

  /** The guard's books: everything but the wire and the history. */
  predicate SameBooks(s: State, t: State) {
    s.accepted == t.accepted && s.peers == t.peers && s.launches == t.launches && s.groups == t.groups && s.root == t.root
  }

  /** A reservation `n` held by parent `p`, and a supervisor `child` on `c` about to register for it. */
  predicate Ripe(s: State, p: Conn, c: Conn, n: Nonce, child: int, rows: Snapshot) {
    && p in s.peers && c in s.peers && p != c
    && s.peers[p].role == Parent(n) && s.peers[p].inbox != [] && s.peers[p].inbox[0] == Spawned(Some(child))
    && s.peers[c].role.NoRole? && s.peers[c].pid == child && s.peers[c].inbox != []
    && s.peers[c].inbox[0] == Register(n, Some(child), CONTRACT, true)
    && n in s.launches && s.launches[n].status == Reserved
    && child > 0 && child in rows && rows[child].group == child
    && forall i :: 0 <= i < |s.groups| ==> s.groups[i].pid != child || s.groups[i].retired
  }

  /** The state in which both messages have been taken. */
  function Both(s: State, p: Conn, c: Conn, n: Nonce, child: int): State
    requires p in s.peers && c in s.peers && n in s.launches && s.peers[p].inbox != [] && s.peers[c].inbox != []
  {
    s.(peers := s.peers[p := s.peers[p].(inbox := s.peers[p].inbox[1..])]
                       [c := s.peers[c].(inbox := s.peers[c].inbox[1..], role := Leader(|s.groups|))],
       launches := s.launches[n := s.launches[n].(status := Reported, pid := Some(child), reported := true)],
       groups := s.groups + [Group(child, Pending, n, false, 0)])
  }

  lemma {:induction false} ReportThenRegister(s: State, p: Conn, c: Conn, n: Nonce, child: int, rows: Snapshot, m1: Nonce, m2: Nonce)
    requires Inv(s) && Ripe(s, p, c, n, child, rows)
    ensures
      var a := OnLine(s, p, Spawned(Some(child)), rows, false, m1, true);
      && a.ok && Linked(a.s) && c in a.s.peers && a.s.peers[c].inbox != []
      && var b := OnLine(a.s, c, Register(n, Some(child), CONTRACT, true), rows, false, m2, true);
      && b.ok && SameBooks(b.s, Both(s, p, c, n, child))
  {
    assert LaunchOk(s.launches[n]);
    var a := OnLine(s, p, Spawned(Some(child)), rows, false, m1, true);
    var l := s.launches[n].(status := Reported, pid := Some(child), reported := true);
    assert a.s.launches == s.launches[n := l] && a.s.groups == s.groups;
    assert a.s.peers == s.peers[p := s.peers[p].(inbox := s.peers[p].inbox[1..])];
    var b := OnLine(a.s, c, Register(n, Some(child), CONTRACT, true), rows, false, m2, true);
    assert b.s.launches == s.launches[n := l];
  }

  lemma {:induction false} RegisterThenReport(s: State, p: Conn, c: Conn, n: Nonce, child: int, rows: Snapshot, m1: Nonce, m2: Nonce)
    requires Inv(s) && Ripe(s, p, c, n, child, rows)
    ensures
      var a := OnLine(s, c, Register(n, Some(child), CONTRACT, true), rows, false, m1, true);
      && a.ok && Linked(a.s) && p in a.s.peers && a.s.peers[p].inbox != []
      && var b := OnLine(a.s, p, Spawned(Some(child)), rows, false, m2, true);
      && b.ok && SameBooks(b.s, Both(s, p, c, n, child))
  {
    assert LaunchOk(s.launches[n]);
    var a := OnLine(s, c, Register(n, Some(child), CONTRACT, true), rows, false, m1, true);
    assert a.ok;
    assert a.s.peers == s.peers[c := s.peers[c].(inbox := s.peers[c].inbox[1..], role := Leader(|s.groups|))];
    var b := OnLine(a.s, p, Spawned(Some(child)), rows, false, m2, true);
    assert b.s.launches == s.launches[n := s.launches[n].(status := Reported, pid := Some(child), reported := true)];
    assert b.s.peers == Both(s, p, c, n, child).peers;
  }

  // ---- The acknowledgment loop, seen from one group ------------------------------------------

  lemma {:induction false} AnswerSpares(s: State, d: Conn, stopping: bool, i: nat)
    requires Inv(s) && Answered(s, d, stopping) && i < |s.groups| && s.peers[d].role != Leader(i)
    ensures
      var t := Answer(s, d, stopping);
      && t.groups[i] == s.groups[i] && t.launches[s.groups[i].reservation] == s.launches[s.groups[i].reservation]
      && |t.groups| == |s.groups|
  {
    assert GroupOk(s, s.groups[i]);
  }

  /** A group that is not waiting, or may not be answered yet, is left as it is. */
  lemma {:induction false} AckSpares(s: State, c: Conn, stopping: bool, failing: set<Conn>, i: nat)
    requires Inv(s) && i < |s.groups|
    requires s.groups[i].status != Pending || (!stopping && !s.launches[s.groups[i].reservation].reported)
    ensures
      var t := AckFrom(s, c, stopping, failing).s;
      && |t.groups| == |s.groups| && t.groups[i] == s.groups[i]
      && s.groups[i].reservation in t.launches && t.launches[s.groups[i].reservation] == s.launches[s.groups[i].reservation]
    decreases s.accepted - c
  {
    hide Inv, Answer;
    InvParts(s);
    if c < s.accepted {
      if !Answered(s, c, stopping) {
        AckSpares(s, c + 1, stopping, failing, i);
      } else {
        AnswerSpares(s, c, stopping, i);
        AnswerKeeps(s, c, stopping);
        AnswerLinked(s, c, stopping);
        InvParts(Answer(s, c, stopping));
        if c !in failing { AckSpares(Answer(s, c, stopping), c + 1, stopping, failing, i); }
      }
    }
  }

  lemma {:induction false} AnswerResult(s: State, c: Conn)
    requires Inv(s) && Answered(s, c, false)
    ensures
      var i := s.peers[c].role.index;
      var t := Answer(s, c, false);
      && |t.groups| == |s.groups| && t.groups[i] == s.groups[i].(status := Acknowledged)
      && t.launches[s.groups[i].reservation] == s.launches[s.groups[i].reservation].(status := Registered)
  {
    assert GroupOk(s, s.groups[s.peers[c].role.index]);
  }

  /** The loop reaches every answerable connection when no send fails. */
  lemma {:induction false} AckReaches(s: State, d: Conn, c: Conn)
    requires Inv(s) && d <= c && Answered(s, c, false)
    ensures
      var i := s.peers[c].role.index;
      var n := s.groups[i].reservation;
      var o := AckFrom(s, d, false, {});
      && |o.s.groups| == |s.groups| && o.s.groups[i] == s.groups[i].(status := Acknowledged)
      && n in o.s.launches && o.s.launches[n] == s.launches[n].(status := Registered)
      && Sent(c, Go, n, |s.history|) in o.s.sent
    decreases s.accepted - d
  {
    hide Inv, Answer, Forward;
    InvParts(s);
    var i := s.peers[c].role.index;
    if d == c {
      var t := Answer(s, c, false);
      AnswerResult(s, c);
      AnswerKeeps(s, c, false);
      AnswerLinked(s, c, false);
      AnswerFacts(s, c, false);
      assert Sent(c, Go, s.groups[i].reservation, |s.history|) == t.sent[|s.sent|];
      AckSpares(t, c + 1, false, {}, i);
      AckKeeps(t, c + 1, false, {});
      SentKept(t, AckFrom(t, c + 1, false, {}).s, |s.sent|);
    } else if !Answered(s, d, false) {
      AckReaches(s, d + 1, c);
    } else {
      var t := Answer(s, d, false);
      AnswerKeeps(s, d, false);
      AnswerLinked(s, d, false);
      AnswerSpares(s, d, false, i);
      InvParts(t);
      AckReaches(t, d + 1, c);
    }
  }

  lemma {:induction false} SentKept(s: State, t: State, k: nat)
    requires Forward(s, t) && k < |s.sent|
    ensures s.sent[k] in t.sent
  {
    assert t.sent[k] == s.sent[k];
  }

  lemma {:induction false} AckSucceeds(s: State, c: Conn, stopping: bool)
    requires Linked(s)
    ensures AckFrom(s, c, stopping, {}).ok
    decreases s.accepted - c
  {
    hide Linked, Answer, Answered;
    if c < s.accepted {
      if Answered(s, c, stopping) {
        AnswerLinked(s, c, stopping);
        AckSucceeds(Answer(s, c, stopping), c + 1, stopping);
      } else {
        AckSucceeds(s, c + 1, stopping);
      }
    }
  }

  // ---- The rest of an exchange, seen from one reservation -----------------------------------------

  lemma {:induction false} DrainSpares(s: State, k: nat, rows: Snapshot, now: int, n: Nonce)
    requires Linked(s) && n in s.launches
    requires forall i :: 0 <= i < |s.groups| && s.groups[i].reservation == n ==> s.groups[i].status != Leaving
    ensures
      var t := DrainFrom(s, k, rows, now).s;
      && n in t.launches && t.launches[n] == s.launches[n] && |t.groups| == |s.groups|
      && forall i :: 0 <= i < |s.groups| && s.groups[i].reservation == n ==> t.groups[i] == s.groups[i]
    decreases |s.groups| - k
  {
    if k < |s.groups| {
      if s.groups[k].status == Leaving && Live(rows, s.groups[k].pid) == {} {
        AdvanceLinked(s, k, Left, Drained, s.groups[k].deadline);
        DrainSpares(Advance(s, k, Left, Drained, s.groups[k].deadline), k + 1, rows, now, n);
      } else {
        DrainSpares(s, k + 1, rows, now, n);
      }
    }
  }

  /** Reservation `n` is not for this exchange: no group yet, or one that still waits for the report. */
  predicate NotYet(s: State, n: Nonce) {
    && n in s.launches
    && forall i :: 0 <= i < |s.groups| && s.groups[i].reservation == n ==> s.groups[i].status == Pending && !s.launches[n].reported
  }

  predicate Untouched(s: State, t: State, n: Nonce)
    requires n in s.launches
  {
    && n in t.launches && t.launches[n] == s.launches[n]
    && |t.groups| == |s.groups|
    && (forall i :: 0 <= i < |s.groups| ==> t.groups[i].pid == s.groups[i].pid && t.groups[i].reservation == s.groups[i].reservation
                                            && (s.groups[i].retired ==> t.groups[i].retired))
    && (forall i :: 0 <= i < |s.groups| && s.groups[i].reservation == n ==> t.groups[i] == s.groups[i])
  }

  lemma {:induction false} AckSparesLaunch(s: State, c: Conn, stopping: bool, failing: set<Conn>, n: Nonce)
    requires Inv(s) && n in s.launches && forall i :: 0 <= i < |s.groups| ==> s.groups[i].reservation != n
    ensures
      var t := AckFrom(s, c, stopping, failing).s;
      n in t.launches && t.launches[n] == s.launches[n]
    decreases s.accepted - c
  {
    hide Inv, Answer;
    InvParts(s);
    if c < s.accepted {
      if !Answered(s, c, stopping) {
        AckSparesLaunch(s, c + 1, stopping, failing, n);
      } else {
        AnswerElsewhere(s, c, stopping, n);
        AnswerKeeps(s, c, stopping);
        AnswerLinked(s, c, stopping);
        if c !in failing { AckSparesLaunch(Answer(s, c, stopping), c + 1, stopping, failing, n); }
      }
    }
  }

  lemma {:induction false} AnswerElsewhere(s: State, c: Conn, stopping: bool, n: Nonce)
    requires Inv(s) && Answered(s, c, stopping) && n in s.launches
    requires forall i :: 0 <= i < |s.groups| ==> s.groups[i].reservation != n
    ensures
      var t := Answer(s, c, stopping);
      n in t.launches && t.launches[n] == s.launches[n] && forall i :: 0 <= i < |t.groups| ==> t.groups[i].reservation != n
  {
  }

  /** An exchange in between leaves such a reservation alone, as long as its group is visible. */
  lemma {:induction false} FinishSpares(s: State, rows: Snapshot, now: int, failing: set<Conn>, n: Nonce)
    requires Inv(s) && NotYet(s, n) && !Gone(s.launches[n], rows)
    ensures Untouched(s, OnFinish(s, rows, false, now, failing).s, n)
  {
    hide Inv, AckFrom, DrainFrom, Settled, Forward;
    InvParts(s);
    AckKeeps(s, 0, false, failing);
    var acked := AckFrom(s, 0, false, failing);
    AckLeavesNotYet(s, failing, n);
    UntouchedBooks(s, acked.s, n);
    if acked.ok {
      AckSettles(s, false, failing);
      InvParts(acked.s);
      DrainSpares(acked.s, 0, rows, now, n);
      DrainKeeps(acked.s, 0, rows, now);
      var drained := DrainFrom(acked.s, 0, rows, now);
      ForwardTrans(s, acked.s, drained.s);
      UntouchedBooks(s, drained.s, n);
    }
  }

  lemma {:induction false} AckLeavesNotYet(s: State, failing: set<Conn>, n: Nonce)
    requires Inv(s) && NotYet(s, n)
    ensures
      var t := AckFrom(s, 0, false, failing).s;
      && n in t.launches && t.launches[n] == s.launches[n] && |t.groups| == |s.groups|
      && forall i :: 0 <= i < |s.groups| && s.groups[i].reservation == n ==> t.groups[i] == s.groups[i]
  {
    hide AckFrom;
    InvParts(s);
    AckAnswersAll(s, 0, false, failing);
    if i :| 0 <= i < |s.groups| && s.groups[i].reservation == n {
      AckSpares(s, 0, false, failing, i);
    } else {
      AckSparesLaunch(s, 0, false, failing, n);
    }
  }

  lemma {:induction false} UntouchedBooks(s: State, t: State, n: Nonce)
    requires Forward(s, t) && n in s.launches && n in t.launches && t.launches[n] == s.launches[n] && |t.groups| == |s.groups|
    requires forall i :: 0 <= i < |s.groups| && s.groups[i].reservation == n ==> t.groups[i] == s.groups[i]
    ensures Untouched(s, t, n)
  {
    forall i | 0 <= i < |s.groups|
      ensures t.groups[i].pid == s.groups[i].pid && t.groups[i].reservation == s.groups[i].reservation
              && (s.groups[i].retired ==> t.groups[i].retired)
    {
      assert GroupForward(s.groups[i], t.groups[i]);
    }
  }

  // ---- The theorem -----------------------------------------------------------------------------------

  /** The launch is acknowledged: its records say so and `go` went to its supervisor. */
  predicate Launched(t: State, c: Conn, n: Nonce, child: int, parent: int) {
    && n in t.launches && t.launches[n] == Launch(parent, Registered, true, Some(child))
    && c in t.peers && t.peers[c].role.Leader? && t.peers[c].role.index < |t.groups|
    && t.groups[t.peers[c].role.index] == Group(child, Acknowledged, n, false, 0)
    && exists k :: 0 <= k < |t.sent| && t.sent[k].reply.Go? && t.sent[k].conn == c && t.sent[k].reservation == n
  }

  /** Both messages are in: the supervisor of `n` waits and its fork is reported. */
  predicate BothIn(t: State, c: Conn, n: Nonce, child: int, parent: int) {
    && n in t.launches && t.launches[n] == Launch(parent, Reported, true, Some(child))
    && c in t.peers && t.peers[c].role.Leader? && t.peers[c].role.index < |t.groups|
    && t.groups[t.peers[c].role.index] == Group(child, Pending, n, false, 0)
  }

  lemma {:induction false} BothInLaunches(t: State, c: Conn, n: Nonce, child: int, parent: int, rows: Snapshot, now: int)
    requires Inv(t) && BothIn(t, c, n, child, parent)
    ensures Launched(OnFinish(t, rows, false, now, {}).s, c, n, child, parent)
  {
    hide Inv, AckFrom, DrainFrom, Forward, Settled;
    InvParts(t);
    var i := t.peers[c].role.index;
    AckReaches(t, 0, c);
    AckSucceeds(t, 0, false);
    AckKeeps(t, 0, false, {});
    var acked := AckFrom(t, 0, false, {}).s;
    AckSettles(t, false, {});
    InvParts(acked);
    forall j | 0 <= j < |acked.groups| && acked.groups[j].reservation == n ensures acked.groups[j].status != Leaving {
      assert j == i;
    }
    DrainSpares(acked, 0, rows, now, n);
    DrainKeeps(acked, 0, rows, now);
    var x := Sent(c, Go, n, |t.history|);
    var k :| 0 <= k < |acked.sent| && acked.sent[k] == x;
    assert OnFinish(t, rows, false, now, {}).s.sent[k] == x;
  }

  /** First message: the fork report. */
  lemma {:induction false} ReportFirst(s: State, p: Conn, c: Conn, n: Nonce, child: int, rows: Snapshot, m1: Nonce)
    requires Inv(s) && Ripe(s, p, c, n, child, rows) && m1 !in s.launches
    ensures
      var a := OnLine(s, p, Spawned(Some(child)), rows, false, m1, true);
      && a.ok && Inv(a.s) && NotYet(a.s, n) && a.s.launches[n] == Launch(s.launches[n].parent, Reported, true, Some(child))
      && a.s.groups == s.groups && c in a.s.peers && a.s.peers[c] == s.peers[c]
  {
    LineKeeps(s, p, Spawned(Some(child)), rows, false, m1, true);
    assert LaunchOk(s.launches[n]);
    forall i | 0 <= i < |s.groups| ensures s.groups[i].reservation != n { assert GroupOk(s, s.groups[i]); }
  }

  /** First message: the registration. */
  lemma {:induction false} RegisterFirst(s: State, p: Conn, c: Conn, n: Nonce, child: int, rows: Snapshot, m1: Nonce)
    requires Inv(s) && Ripe(s, p, c, n, child, rows) && m1 !in s.launches
    ensures
      var a := OnLine(s, c, Register(n, Some(child), CONTRACT, true), rows, false, m1, true);
      && a.ok && Inv(a.s) && NotYet(a.s, n) && a.s.launches[n] == Launch(s.launches[n].parent, Registering, false, Some(child))
      && a.s.groups == s.groups + [Group(child, Pending, n, false, 0)]
      && p in a.s.peers && a.s.peers[p] == s.peers[p]
      && c in a.s.peers && a.s.peers[c].role == Leader(|s.groups|)
  {
    LineKeeps(s, c, Register(n, Some(child), CONTRACT, true), rows, false, m1, true);
    assert LaunchOk(s.launches[n]);
    forall i | 0 <= i < |s.groups| ensures s.groups[i].reservation != n { assert GroupOk(s, s.groups[i]); }
  }

  lemma {:induction false} RegisterSecond(t: State, c: Conn, n: Nonce, child: int, parent: int, rows: Snapshot, m: Nonce)
    requires Inv(t) && c in t.peers && t.peers[c].role.NoRole? && t.peers[c].pid == child && t.peers[c].inbox != []
    requires n in t.launches && t.launches[n] == Launch(parent, Reported, true, Some(child)) && m !in t.launches
    requires child in rows && rows[child].group == child
    requires forall i :: 0 <= i < |t.groups| ==> t.groups[i].pid != child || t.groups[i].retired
    ensures
      var b := OnLine(t, c, Register(n, Some(child), CONTRACT, true), rows, false, m, true);
      b.ok && Inv(b.s) && BothIn(b.s, c, n, child, parent)
  {
    LineKeeps(t, c, Register(n, Some(child), CONTRACT, true), rows, false, m, true);
  }

  lemma {:induction false} ReportSecond(t: State, p: Conn, c: Conn, n: Nonce, child: int, parent: int, rows: Snapshot, m: Nonce)
    requires Inv(t) && p in t.peers && t.peers[p].role == Parent(n) && t.peers[p].inbox != [] && child > 0 && m !in t.launches
    requires c in t.peers && t.peers[c].role.Leader? && t.peers[c].role.index < |t.groups|
    requires t.groups[t.peers[c].role.index] == Group(child, Pending, n, false, 0)
    requires n in t.launches && t.launches[n] == Launch(parent, Registering, false, Some(child))
    ensures
      var b := OnLine(t, p, Spawned(Some(child)), rows, false, m, true);
      b.ok && Inv(b.s) && BothIn(b.s, c, n, child, parent)
  {
    LineKeeps(t, p, Spawned(Some(child)), rows, false, m, true);
  }

  /**
   Whichever of the two messages comes first, and with a whole exchange in between, the launch ends up
   acknowledged in the same way.  `rows` and `next` are what the two exchanges see, in both of which the supervisor
   leads its group; the first may fail to answer the peers in `deaf`.
   */
  lemma {:induction false} EitherOrderLaunches(s: State, p: Conn, c: Conn, n: Nonce, child: int, rows: Snapshot, next: Snapshot,
                                               now: int, later: int, deaf: set<Conn>, m1: Nonce, m2: Nonce)
    requires Inv(s) && Ripe(s, p, c, n, child, rows) && m1 !in s.launches && m2 !in s.launches
    requires child in next && next[child].group == child
    ensures
      var parent := s.launches[n].parent;
      var a := OnLine(s, p, Spawned(Some(child)), rows, false, m1, true).s;
      Linked(a) && var mid := OnFinish(a, rows, false, now, deaf).s;
      && Linked(mid) && c in mid.peers && mid.peers[c].inbox != []
      && var b := OnLine(mid, c, Register(n, Some(child), CONTRACT, true), next, false, m2, true).s;
      && Linked(b) && Launched(OnFinish(b, next, false, later, {}).s, c, n, child, parent)
    ensures
      var parent := s.launches[n].parent;
      var a := OnLine(s, c, Register(n, Some(child), CONTRACT, true), rows, false, m1, true).s;
      Linked(a) && var mid := OnFinish(a, rows, false, now, deaf).s;
      && Linked(mid) && p in mid.peers && mid.peers[p].inbox != []
      && var b := OnLine(mid, p, Spawned(Some(child)), next, false, m2, true).s;
      && Linked(b) && Launched(OnFinish(b, next, false, later, {}).s, c, n, child, parent)
  {
    hide Inv, OnLine, OnFinish, Launched, Forward;
    ReportThenWait(s, p, c, n, child, rows, next, now, later, deaf, m1, m2);
    RegisterThenWait(s, p, c, n, child, rows, next, now, later, deaf, m1, m2);
  }

  lemma {:induction false} ReportThenWait(s: State, p: Conn, c: Conn, n: Nonce, child: int, rows: Snapshot, next: Snapshot,
                                          now: int, later: int, deaf: set<Conn>, m1: Nonce, m2: Nonce)
    requires Inv(s) && Ripe(s, p, c, n, child, rows) && m1 !in s.launches && m2 !in s.launches
    requires child in next && next[child].group == child
    ensures
      var parent := s.launches[n].parent;
      var a := OnLine(s, p, Spawned(Some(child)), rows, false, m1, true).s;
      Linked(a) && var mid := OnFinish(a, rows, false, now, deaf).s;
      && Linked(mid) && c in mid.peers && mid.peers[c].inbox != []
      && var b := OnLine(mid, c, Register(n, Some(child), CONTRACT, true), next, false, m2, true).s;
      && Linked(b) && Launched(OnFinish(b, next, false, later, {}).s, c, n, child, parent)
  {
    hide Inv, OnLine, OnFinish, Launched, Forward;
    InvParts(s);
    var parent := s.launches[n].parent;
    ReportFirst(s, p, c, n, child, rows, m1);
    var a := OnLine(s, p, Spawned(Some(child)), rows, false, m1, true).s;
    InvParts(a);
    FinishSpares(a, rows, now, deaf, n);
    FinishKeeps(a, rows, false, now, deaf);
    var mid := OnFinish(a, rows, false, now, deaf).s;
    InvParts(mid);
    LineKeys(s, p, Spawned(Some(child)), rows, m1);
    RegisterSecond(mid, c, n, child, parent, next, m2);
    var b := OnLine(mid, c, Register(n, Some(child), CONTRACT, true), next, false, m2, true).s;
    InvParts(b);
    BothInLaunches(b, c, n, child, parent, next, later);
  }

  lemma {:induction false} LineKeys(s: State, c: Conn, m: Message, rows: Snapshot, nonce: Nonce)
    requires Linked(s) && c in s.peers && s.peers[c].inbox != [] && !m.Reserve?
    ensures OnLine(s, c, m, rows, false, nonce, true).s.launches.Keys == s.launches.Keys
  {
  }

  lemma {:induction false} RegisterThenWait(s: State, p: Conn, c: Conn, n: Nonce, child: int, rows: Snapshot, next: Snapshot,
                                            now: int, later: int, deaf: set<Conn>, m1: Nonce, m2: Nonce)
    requires Inv(s) && Ripe(s, p, c, n, child, rows) && m1 !in s.launches && m2 !in s.launches
    requires child in next && next[child].group == child
    ensures
      var parent := s.launches[n].parent;
      var a := OnLine(s, c, Register(n, Some(child), CONTRACT, true), rows, false, m1, true).s;
      Linked(a) && var mid := OnFinish(a, rows, false, now, deaf).s;
      && Linked(mid) && p in mid.peers && mid.peers[p].inbox != []
      && var b := OnLine(mid, p, Spawned(Some(child)), next, false, m2, true).s;
      && Linked(b) && Launched(OnFinish(b, next, false, later, {}).s, c, n, child, parent)
  {
    hide Inv, OnLine, OnFinish, Launched, Forward;
    InvParts(s);
    var parent := s.launches[n].parent;
    RegisterFirst(s, p, c, n, child, rows, m1);
    var a := OnLine(s, c, Register(n, Some(child), CONTRACT, true), rows, false, m1, true).s;
    InvParts(a);
    FinishSpares(a, rows, now, deaf, n);
    FinishKeeps(a, rows, false, now, deaf);
    var mid := OnFinish(a, rows, false, now, deaf).s;
    InvParts(mid);
    LineKeys(s, c, Register(n, Some(child), CONTRACT, true), rows, m1);
    ReportSecond(mid, p, c, n, child, parent, next, m2);
    var b := OnLine(mid, p, Spawned(Some(child)), next, false, m2, true).s;
    InvParts(b);
    BothInLaunches(b, c, n, child, parent, next, later);
  }
}
