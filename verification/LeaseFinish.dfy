/**
 What the end of an exchange, a hang-up and a revocation do to each group and
 launch: exactly when the finishing loops succeed, and the whole effect of one
 that does, record by record.
 */
module LeaseFinish {
  import opened Prelude
  import opened LeaseModel
  import opened LeaseInvariants
  import opened LeaseReports

  /** Group `i` waits for an answer that may be given now. */
  predicate Due(s: State, i: nat, stopping: bool)
    requires Linked(s) && i < |s.groups|
  {
    s.groups[i].status == Pending && (stopping || s.launches[s.groups[i].reservation].reported)
  }

  /** Some process of the group is there and no zombie. */
  predicate Peopled(rows: Snapshot, group: int) {
    exists p :: p in rows && rows[p].group == group && !rows[p].zombie
  }

  lemma {:induction false} PeopledIsLive(rows: Snapshot, group: int)
    ensures Peopled(rows, group) <==> Live(rows, group) != {}
  {
    if Peopled(rows, group) {
      var p :| p in rows && rows[p].group == group && !rows[p].zombie;
      assert p in Live(rows, group);
    }
    if !Peopled(rows, group) {
      assert forall p :: p in rows && rows[p].group == group ==> rows[p].zombie;
      assert forall p :: p !in Live(rows, group);
    }
  }

  // ---- The acknowledgment loop ------------------------------------------------------------

  predicate Heads(s: State, c: Conn, i: nat) { c in s.peers && s.peers[c].role == Leader(i) }

  /** A connection from `c` on leads group `i`. */
  ghost predicate LedFrom(s: State, c: Conn, i: nat) { exists d :: c <= d && Heads(s, d, i) }

  lemma {:induction false} AnsweredIsDue(s: State, c: Conn, stopping: bool)
    requires Linked(s)
    ensures Answered(s, c, stopping) <==> c in s.peers && s.peers[c].role.Leader? && Due(s, s.peers[c].role.index, stopping)
  {
  }

  /** Answering one connection settles its own group and leaves the others as they were. */
  lemma {:induction false} AnswerMeans(s: State, c: Conn, stopping: bool, j: nat)
    requires Inv(s) && Linked(s) && Answered(s, c, stopping) && j < |s.groups|
    ensures
      var t, i := Answer(s, c, stopping), s.peers[c].role.index;
      && Linked(t) && |t.groups| == |s.groups| && t.groups[j].reservation == s.groups[j].reservation
      && t.groups[j] == (if j == i then s.groups[j].(status := if stopping then Refused else Acknowledged) else s.groups[j])
      && t.launches[s.groups[j].reservation] ==
         (if j == i then s.launches[s.groups[j].reservation].(status := Registered) else s.launches[s.groups[j].reservation])
      && (Due(t, j, stopping) <==> j != i && Due(s, j, stopping))
  {
    hide Groups, Launches, Leaders, PendingLed;
    AnswerLinked(s, c, stopping);
  }

  lemma {:induction false} AnswerOthers(s: State, c: Conn, stopping: bool, d: Conn)
    requires Inv(s) && Linked(s) && Answered(s, c, stopping) && d != c
    ensures
      var t := Answer(s, c, stopping);
      && Linked(t) && t.peers == s.peers && t.accepted == s.accepted && t.history == s.history
      && (Answered(t, d, stopping) <==> Answered(s, d, stopping))
      && (Answered(s, d, stopping) ==> t.groups[s.peers[d].role.index].reservation == s.groups[s.peers[d].role.index].reservation)
  {
    hide Answer, Answered, Inv, Linked, Due;
    AnswerLinked(s, c, stopping);
    InvParts(s);
    var t := Answer(s, c, stopping);
    AnsweredIsDue(s, d, stopping);
    AnsweredIsDue(t, d, stopping);
    AnsweredIsDue(s, c, stopping);
    if d in s.peers && s.peers[d].role.Leader? {
      assert LeaderOk(s, d);
      AnswerMeans(s, c, stopping, s.peers[d].role.index);
    }
  }

  /** The loop fails exactly at a connection it answers but cannot send to. */
  lemma {:induction false} AckOk(s: State, c: Conn, stopping: bool, failing: set<Conn>)
    requires Inv(s) && Linked(s)
    ensures AckFrom(s, c, stopping, failing).ok <==> forall d :: d in failing && c <= d ==> !Answered(s, d, stopping)
    decreases s.accepted - c
  {
    hide Answer, Answered, Inv;
    if c >= s.accepted {
      forall d | d in failing && c <= d ensures !Answered(s, d, stopping) { AnsweredIsDue(s, d, stopping); }
    } else if !Answered(s, c, stopping) {
      AckOk(s, c + 1, stopping, failing);
    } else if c !in failing {
      AckOkAnswered(s, c, stopping, failing);
    }
  }

  lemma {:induction false} AckOkAnswered(s: State, c: Conn, stopping: bool, failing: set<Conn>)
    requires Inv(s) && Linked(s) && c < s.accepted && Answered(s, c, stopping) && c !in failing
    ensures AckFrom(s, c, stopping, failing).ok <==> forall d :: d in failing && c <= d ==> !Answered(s, d, stopping)
    decreases s.accepted - c, 0
  {
    hide Answer, Answered, Inv, Linked;
    var t := Answer(s, c, stopping);
    AnswerKeeps(s, c, stopping);
    AnswerLinked(s, c, stopping);
    AckOk(t, c + 1, stopping, failing);
    forall d | d in failing && c <= d ensures Answered(t, d, stopping) <==> Answered(s, d, stopping) { AnswerOthers(s, c, stopping, d); }
  }

  lemma {:induction false} LedFromStep(s: State, c: Conn, i: nat)
    ensures LedFrom(s, c, i) <==> Heads(s, c, i) || LedFrom(s, c + 1, i)
  {
  }

  lemma {:induction false} LedBelow(s: State, c: Conn, i: nat)
    requires Linked(s) && LedFrom(s, c, i)
    ensures c < s.accepted
  {
  }

  ghost predicate Settling(s: State, c: Conn, stopping: bool, j: nat)
    requires Linked(s) && j < |s.groups|
  {
    LedFrom(s, c, j) && Due(s, j, stopping)
  }

  /** A complete loop answers every group that is due, and touches no other. */
  lemma {:induction false} AckMeans(s: State, c: Conn, stopping: bool, failing: set<Conn>, j: nat)
    requires Inv(s) && Linked(s) && j < |s.groups| && AckFrom(s, c, stopping, failing).ok
    ensures
      var t, n := AckFrom(s, c, stopping, failing).s, s.groups[j].reservation;
      && |t.groups| == |s.groups| && n in t.launches
      && t.groups[j] == (if Settling(s, c, stopping, j) then s.groups[j].(status := if stopping then Refused else Acknowledged) else s.groups[j])
      && t.launches[n] == (if Settling(s, c, stopping, j) then s.launches[n].(status := Registered) else s.launches[n])
    decreases s.accepted - c
  {
    hide Answer, Answered, Inv, Due, LedFrom;
    LedFromStep(s, c, j);
    AnsweredIsDue(s, c, stopping);
    if c >= s.accepted {
      if LedFrom(s, c, j) { LedBelow(s, c, j); }
    } else if !Answered(s, c, stopping) {
      AckMeans(s, c + 1, stopping, failing, j);
    } else {
      AckMeansAnswered(s, c, stopping, failing, j);
    }
  }

  lemma {:induction false} AckMeansAnswered(s: State, c: Conn, stopping: bool, failing: set<Conn>, j: nat)
    requires Inv(s) && Linked(s) && j < |s.groups| && c < s.accepted && Answered(s, c, stopping) && AckFrom(s, c, stopping, failing).ok
    ensures
      var t, n := AckFrom(s, c, stopping, failing).s, s.groups[j].reservation;
      && |t.groups| == |s.groups| && n in t.launches
      && t.groups[j] == (if Settling(s, c, stopping, j) then s.groups[j].(status := if stopping then Refused else Acknowledged) else s.groups[j])
      && t.launches[n] == (if Settling(s, c, stopping, j) then s.launches[n].(status := Registered) else s.launches[n])
    decreases s.accepted - c, 0
  {
    hide Answer, Answered, Inv, Due, LedFrom, Linked;
    var t := Answer(s, c, stopping);
    AnswerKeeps(s, c, stopping);
    AnswerLinked(s, c, stopping);
    AnswerMeans(s, c, stopping, j);
    AckMeans(t, c + 1, stopping, failing, j);
    LedFromStep(s, c, j);
    SameLed(s, t, c + 1, j);
    AnsweredIsDue(s, c, stopping);
  }

  lemma {:induction false} SameLed(s: State, t: State, c: Conn, i: nat)
    requires s.peers == t.peers
    ensures LedFrom(s, c, i) <==> LedFrom(t, c, i)
  {
    if LedFrom(s, c, i) { var d :| c <= d && Heads(s, d, i); assert Heads(t, d, i); }
    if LedFrom(t, c, i) { var d :| c <= d && Heads(t, d, i); assert Heads(s, d, i); }
  }

  // ---- What the loop says --------------------------------------------------------------------

  function ReplyTo(s: State, c: Conn, stopping: bool): Sent
    requires Linked(s) && c in s.peers && s.peers[c].role.Leader?
  {
    Sent(c, if stopping then Stop else Go, s.groups[s.peers[c].role.index].reservation, |s.history|)
  }

  /** The answers from connection `c` on. */
  function Replies(s: State, c: Conn, stopping: bool): seq<Sent>
    requires Linked(s)
    decreases s.accepted - c
  {
    if c >= s.accepted then []
    else (if Answered(s, c, stopping) then [ReplyTo(s, c, stopping)] else []) + Replies(s, c + 1, stopping)
  }

  lemma {:induction false} SameReplies(s: State, c: Conn, stopping: bool, d: Conn)
    requires Inv(s) && Linked(s) && Answered(s, c, stopping) && c < d
    ensures Linked(Answer(s, c, stopping)) && Replies(Answer(s, c, stopping), d, stopping) == Replies(s, d, stopping)
    decreases s.accepted - d
  {
    hide Answer, Answered, Inv, Linked;
    AnswerOthers(s, c, stopping, d);
    if d < s.accepted { SameReplies(s, c, stopping, d + 1); }
    AnsweredIsDue(s, d, stopping);
  }

  lemma {:induction false} AckSays(s: State, c: Conn, stopping: bool, failing: set<Conn>)
    requires Inv(s) && Linked(s) && AckFrom(s, c, stopping, failing).ok
    ensures AckFrom(s, c, stopping, failing).s.sent == s.sent + Replies(s, c, stopping)
    decreases s.accepted - c
  {
    hide Answer, Answered, Inv, Linked;
    if c < s.accepted {
      if !Answered(s, c, stopping) {
        AckSays(s, c + 1, stopping, failing);
      } else {
        var t := Answer(s, c, stopping);
        AnswerKeeps(s, c, stopping);
        AnswerLinked(s, c, stopping);
        AckSays(t, c + 1, stopping, failing);
        SameReplies(s, c, stopping, c + 1);
        AnswerSays(s, c, stopping);
      }
    }
  }

  lemma {:induction false} AnswerSays(s: State, c: Conn, stopping: bool)
    requires Linked(s) && Answered(s, c, stopping)
    ensures Answer(s, c, stopping).sent == s.sent + [ReplyTo(s, c, stopping)]
  {
  }

  /** A reply of the loop from `c` on. */
  predicate Proper(s: State, c: Conn, stopping: bool, x: Sent)
    requires Linked(s)
  {
    c <= x.conn && Answered(s, x.conn, stopping) && x == ReplyTo(s, x.conn, stopping)
  }

  lemma {:induction false} RepliesProper(s: State, c: Conn, stopping: bool, x: Sent)
    requires Linked(s)
    ensures x in Replies(s, c, stopping) <==> Proper(s, c, stopping, x)
    decreases s.accepted - c
  {
    hide Linked, Answered;
    if c < s.accepted {
      RepliesProper(s, c + 1, stopping, x);
    } else if Proper(s, c, stopping, x) {
      AnsweredIsDue(s, x.conn, stopping);
      AllAccepted(s, x.conn);
    }
  }

  lemma {:induction false} AllAccepted(s: State, c: Conn)
    requires Linked(s) && c in s.peers
    ensures c < s.accepted
  {
  }

  lemma {:induction false} RepliesOrdered(s: State, c: Conn, stopping: bool)
    requires Linked(s)
    ensures var r := Replies(s, c, stopping); forall j, k :: 0 <= j < k < |r| ==> r[j].conn < r[k].conn
    decreases s.accepted - c
  {
    hide Linked, Answered;
    if c < s.accepted {
      RepliesOrdered(s, c + 1, stopping);
      var rest, r := Replies(s, c + 1, stopping), Replies(s, c, stopping);
      var skip := |r| - |rest|;
      assert forall k :: skip <= k < |r| ==> r[k] == rest[k - skip];
      forall j, k | 0 <= j < k < |r| ensures r[j].conn < r[k].conn {
        RepliesProper(s, c + 1, stopping, rest[k - skip]);
        if skip <= j { assert rest[j - skip].conn < rest[k - skip].conn; }
      }
    }
  }

  /** Exactly the leaders of groups that are due are answered, once each and in the order they connected. */
  lemma {:induction false} RepliesMean(s: State, stopping: bool)
    requires Linked(s)
    ensures
      var r := Replies(s, 0, stopping);
      && (forall x :: x in r <==>
            && x.conn in s.peers && s.peers[x.conn].role.Leader?
            && var i := s.peers[x.conn].role.index;
               Due(s, i, stopping) && x == Sent(x.conn, if stopping then Stop else Go, s.groups[i].reservation, |s.history|))
      && (forall j, k :: 0 <= j < k < |r| ==> r[j].conn < r[k].conn)
  {
    hide Answered, Due, Replies;
    RepliesOrdered(s, 0, stopping);
    forall x: Sent ensures x in Replies(s, 0, stopping) <==> Proper(s, 0, stopping, x) { RepliesProper(s, 0, stopping, x); }
    forall c: Conn
      ensures Answered(s, c, stopping) <==> c in s.peers && s.peers[c].role.Leader? && Due(s, s.peers[c].role.index, stopping)
    {
      AnsweredIsDue(s, c, stopping);
    }
  }

  // ---- The draining loop ------------------------------------------------------------------------

  /** Group `i` still has members when its time is up. */
  predicate Overstays(s: State, i: nat, rows: Snapshot, now: int)
    requires i < |s.groups|
  {
    s.groups[i].status == Leaving && Peopled(rows, s.groups[i].pid) && now >= s.groups[i].deadline
  }

  /** Group `i` has drained. */
  predicate Empties(s: State, i: nat, rows: Snapshot)
    requires i < |s.groups|
  {
    s.groups[i].status == Leaving && !Peopled(rows, s.groups[i].pid)
  }

  predicate OneEach(s: State) { forall i, j :: 0 <= i < j < |s.groups| ==> s.groups[i].reservation != s.groups[j].reservation }

  function Emptied(s: State, i: nat): State
    requires Linked(s) && i < |s.groups|
  {
    Advance(s, i, Left, Drained, s.groups[i].deadline)
  }

  lemma {:induction false} EmptiedMeans(s: State, i: nat, j: nat)
    requires Linked(s) && OneEach(s) && i < |s.groups| && j < |s.groups|
    ensures
      var t, n := Emptied(s, i), s.groups[j].reservation;
      && Linked(t) && OneEach(t) && |t.groups| == |s.groups| && t.groups[j].reservation == n
      && t.groups[j] == (if j == i then s.groups[j].(status := Left, retired := true) else s.groups[j])
      && t.launches[n] == (if j == i then s.launches[n].(status := Drained) else s.launches[n])
  {
    AdvanceLinked(s, i, Left, Drained, s.groups[i].deadline);
  }

  /** The draining loop fails exactly when some group overstays. */
  lemma {:induction false} DrainOk(s: State, i: nat, rows: Snapshot, now: int)
    requires Linked(s) && OneEach(s)
    ensures DrainFrom(s, i, rows, now).ok <==> forall j :: i <= j < |s.groups| ==> !Overstays(s, j, rows, now)
    decreases |s.groups| - i
  {
    hide Live, Peopled, Linked, OneEach, Advance;
    if i < |s.groups| {
      PeopledIsLive(rows, s.groups[i].pid);
      if Empties(s, i, rows) {
        DrainOkEmpty(s, i, rows, now);
      } else {
        DrainOk(s, i + 1, rows, now);
        assert Overstays(s, i, rows, now) ==> !DrainFrom(s, i, rows, now).ok;
        assert !Overstays(s, i, rows, now) ==> DrainFrom(s, i, rows, now) == DrainFrom(s, i + 1, rows, now);
      }
    }
  }

  lemma {:induction false} DrainOkEmpty(s: State, i: nat, rows: Snapshot, now: int)
    requires Linked(s) && OneEach(s) && i < |s.groups| && Empties(s, i, rows)
    ensures DrainFrom(s, i, rows, now).ok <==> forall j :: i <= j < |s.groups| ==> !Overstays(s, j, rows, now)
    decreases |s.groups| - i, 0
  {
    hide Live, Peopled, Linked, OneEach, Emptied, Advance;
    PeopledIsLive(rows, s.groups[i].pid);
    EmptiedMeans(s, i, i);
    var t := Emptied(s, i);
    EmptiedDrains(s, i, rows, now);
    DrainOk(t, i + 1, rows, now);
    forall j | i + 1 <= j < |s.groups| ensures Overstays(t, j, rows, now) <==> Overstays(s, j, rows, now) { EmptiedMeans(s, i, j); }
  }

  lemma {:induction false} EmptiedDrains(s: State, i: nat, rows: Snapshot, now: int)
    requires Linked(s) && i < |s.groups| && s.groups[i].status == Leaving && Live(rows, s.groups[i].pid) == {}
    ensures Linked(Emptied(s, i)) && |Emptied(s, i).groups| == |s.groups| && DrainFrom(s, i, rows, now) == DrainFrom(Emptied(s, i), i + 1, rows, now)
  {
    hide Live, Linked;
    AdvanceLinked(s, i, Left, Drained, s.groups[i].deadline);
  }

  lemma {:induction false} DrainMeans(s: State, i: nat, rows: Snapshot, now: int, j: nat)
    requires Linked(s) && OneEach(s) && j < |s.groups| && DrainFrom(s, i, rows, now).ok
    ensures
      var t, n := DrainFrom(s, i, rows, now).s, s.groups[j].reservation;
      && |t.groups| == |s.groups| && n in t.launches
      && t.groups[j] == (if i <= j && Empties(s, j, rows) then s.groups[j].(status := Left, retired := true) else s.groups[j])
      && t.launches[n] == (if i <= j && Empties(s, j, rows) then s.launches[n].(status := Drained) else s.launches[n])
    decreases |s.groups| - i
  {
    hide Live, Peopled, Linked, OneEach, Advance;
    GroupKnown(s, j);
    if i < |s.groups| {
      PeopledIsLive(rows, s.groups[i].pid);
      if Empties(s, i, rows) {
        DrainMeansEmpty(s, i, rows, now, j);
      } else {
        DrainMeans(s, i + 1, rows, now, j);
      }
    }
  }

  lemma {:induction false} GroupKnown(s: State, j: nat)
    requires Linked(s) && j < |s.groups|
    ensures s.groups[j].reservation in s.launches
  {
  }

  lemma {:induction false} DrainMeansEmpty(s: State, i: nat, rows: Snapshot, now: int, j: nat)
    requires Linked(s) && OneEach(s) && i < |s.groups| && Empties(s, i, rows) && j < |s.groups| && DrainFrom(s, i, rows, now).ok
    ensures
      var t, n := DrainFrom(s, i, rows, now).s, s.groups[j].reservation;
      && |t.groups| == |s.groups| && n in t.launches
      && t.groups[j] == (if i <= j && Empties(s, j, rows) then s.groups[j].(status := Left, retired := true) else s.groups[j])
      && t.launches[n] == (if i <= j && Empties(s, j, rows) then s.launches[n].(status := Drained) else s.launches[n])
    decreases |s.groups| - i, 0
  {
    hide Live, Peopled, Linked, OneEach, Emptied, DrainFrom;
    PeopledIsLive(rows, s.groups[i].pid);
    EmptiedDrains(s, i, rows, now);
    EmptiedMeans(s, i, j);
    DrainMeans(Emptied(s, i), i + 1, rows, now, j);
  }

  // ---- The whole end of an exchange ----------------------------------------------------------------

  /** A connection the loop has to answer cannot be sent to. */
  predicate Unreachable(s: State, stopping: bool, failing: set<Conn>)
    requires Linked(s)
  {
    exists c :: c in failing && c in s.peers && s.peers[c].role.Leader? && Due(s, s.peers[c].role.index, stopping)
  }

  /** The record of a group after it. */
  function GroupAfter(s: State, i: nat, rows: Snapshot, stopping: bool): Group
    requires Linked(s) && i < |s.groups|
  {
    var g := s.groups[i];
    if Due(s, i, stopping) then Group(g.pid, if stopping then Refused else Acknowledged, g.reservation, g.retired, g.deadline)
    else if Empties(s, i, rows) then Group(g.pid, Left, g.reservation, true, g.deadline)
    else g
  }

  /** The status of its launch after it. */
  function LaunchAfter(s: State, i: nat, rows: Snapshot, stopping: bool): LaunchStatus
    requires Linked(s) && i < |s.groups|
  {
    if Due(s, i, stopping) then Registered
    else if Empties(s, i, rows) then Drained
    else s.launches[s.groups[i].reservation].status
  }

  /** The status of a launch nobody registered for: a reported child no process has as its group any more is drained. */
  function OrphanAfter(l: Launch, rows: Snapshot): LaunchStatus {
    if l.status == Reported && l.pid.Some? && (forall p :: p in rows ==> rows[p].group != l.pid.value) then Drained else l.status
  }

  /** The two loops before launches are retired by number. */
  lemma {:induction false} LoopsOk(s: State, rows: Snapshot, stopping: bool, now: int, failing: set<Conn>)
    requires Inv(s) && Linked(s)
    ensures OnFinish(s, rows, stopping, now, failing).ok
            <==> !Unreachable(s, stopping, failing) && forall i :: 0 <= i < |s.groups| ==> !Overstays(s, i, rows, now)
  {
    hide Inv, AckFrom, DrainFrom, Retire, Due, Peopled, Answered, OneEach;
    AckOk(s, 0, stopping, failing);
    forall c | c in failing ensures Answered(s, c, stopping) <==> c in s.peers && s.peers[c].role.Leader? && Due(s, s.peers[c].role.index, stopping) {
      AnsweredIsDue(s, c, stopping);
    }
    assert AckFrom(s, 0, stopping, failing).ok <==> !Unreachable(s, stopping, failing);
    if AckFrom(s, 0, stopping, failing).ok {
      AckLinked(s, 0, stopping, failing);
      AckStill(s, rows, stopping, now, failing);
      DrainOk(AckFrom(s, 0, stopping, failing).s, 0, rows, now);
    }
  }

  lemma {:induction false} InvOneEach(s: State)
    requires Inv(s)
    ensures OneEach(s)
  {
  }

  /** Answering moves no group into or out of draining. */
  lemma {:induction false} AckStill(s: State, rows: Snapshot, stopping: bool, now: int, failing: set<Conn>)
    requires Inv(s) && Linked(s) && AckFrom(s, 0, stopping, failing).ok
    ensures
      var t := AckFrom(s, 0, stopping, failing).s;
      && |t.groups| == |s.groups| && OneEach(t)
      && forall i :: 0 <= i < |s.groups| ==>
           (Overstays(t, i, rows, now) <==> Overstays(s, i, rows, now)) && (Empties(t, i, rows) <==> Empties(s, i, rows))
  {
    hide Inv, AckFrom, Peopled, Linked, OneEach, Settling, Forward;
    AckKeeps(s, 0, stopping, failing);
    InvOneEach(AckFrom(s, 0, stopping, failing).s);
    AckAnswersAll(s, 0, stopping, failing);
    forall i | 0 <= i < |s.groups|
      ensures var t := AckFrom(s, 0, stopping, failing).s;
              (Overstays(t, i, rows, now) <==> Overstays(s, i, rows, now)) && (Empties(t, i, rows) <==> Empties(s, i, rows))
    {
      AckMeans(s, 0, stopping, failing, i);
      SettlingIsPending(s, stopping, i);
    }
  }

  lemma {:induction false} SettlingIsPending(s: State, stopping: bool, i: nat)
    requires Inv(s) && Linked(s) && i < |s.groups|
    ensures Settling(s, 0, stopping, i) <==> Due(s, i, stopping)
    ensures Due(s, i, stopping) ==> s.groups[i].status == Pending
  {
    if s.groups[i].status == Pending {
      assert Led(s, i);
      var c :| c in s.peers && s.peers[c].role == Leader(i);
      assert 0 <= c && Heads(s, c, i);
    }
  }

  /** The loops, group by group. */
  lemma {:induction false} LoopsMean(s: State, rows: Snapshot, stopping: bool, now: int, failing: set<Conn>, i: nat)
    requires Inv(s) && Linked(s) && i < |s.groups| && OnFinish(s, rows, stopping, now, failing).ok
    ensures
      var a, n := AckFrom(s, 0, stopping, failing).s, s.groups[i].reservation;
      && Linked(a)
      && var t := DrainFrom(a, 0, rows, now).s;
      && |t.groups| == |s.groups| && n in t.launches
      && t.groups[i] == GroupAfter(s, i, rows, stopping)
      && t.launches[n] == s.launches[n].(status := LaunchAfter(s, i, rows, stopping))
  {
    hide Inv, AckFrom, DrainFrom, Retire, Due, Peopled, Linked, OneEach, Settling;
    AckLinked(s, 0, stopping, failing);
    AckMeans(s, 0, stopping, failing, i);
    SettlingIsPending(s, stopping, i);
    AckStill(s, rows, stopping, now, failing);
    DrainMeans(AckFrom(s, 0, stopping, failing).s, 0, rows, now, i);
  }

  /** A grouped launch is not retired by its number. */
  lemma {:induction false} GroupedNotGone(s: State, rows: Snapshot, stopping: bool, i: nat)
    requires Inv(s) && Linked(s) && i < |s.groups|
    ensures LaunchAfter(s, i, rows, stopping) != Reported
  {
    assert GroupOk(s, s.groups[i]);
  }

  lemma {:induction false} FinishGroup(s: State, rows: Snapshot, stopping: bool, now: int, failing: set<Conn>, i: nat)
    requires Inv(s) && Linked(s) && i < |s.groups| && OnFinish(s, rows, stopping, now, failing).ok
    ensures
      var t, n := OnFinish(s, rows, stopping, now, failing).s, s.groups[i].reservation;
      && |t.groups| == |s.groups| && n in t.launches
      && t.groups[i] == GroupAfter(s, i, rows, stopping)
      && t.launches[n] == s.launches[n].(status := LaunchAfter(s, i, rows, stopping))
  {
    hide Inv, AckFrom, DrainFrom, Due, Peopled, Linked, GroupAfter, LaunchAfter;
    LoopsMean(s, rows, stopping, now, failing, i);
    GroupedNotGone(s, rows, stopping, i);
    AckLinked(s, 0, stopping, failing);
  }

  lemma {:induction false} FinishOrphan(s: State, rows: Snapshot, stopping: bool, now: int, failing: set<Conn>, n: Nonce)
    requires Inv(s) && Linked(s) && n in s.launches && Ungrouped(s, n) && OnFinish(s, rows, stopping, now, failing).ok
    ensures
      var t := OnFinish(s, rows, stopping, now, failing).s;
      n in t.launches && t.launches[n] == s.launches[n].(status := OrphanAfter(s.launches[n], rows))
  {
    hide Inv, AckFrom, DrainFrom, Linked;
    AckLinked(s, 0, stopping, failing);
    AckSparesUngrouped(s, 0, stopping, failing);
    DrainSparesUngrouped(AckFrom(s, 0, stopping, failing).s, 0, rows, now);
    SparesTrans(s, AckFrom(s, 0, stopping, failing).s, DrainFrom(AckFrom(s, 0, stopping, failing).s, 0, rows, now).s);
  }

  lemma {:induction false} FinishSays(s: State, rows: Snapshot, stopping: bool, now: int, failing: set<Conn>)
    requires Inv(s) && Linked(s) && OnFinish(s, rows, stopping, now, failing).ok
    ensures OnFinish(s, rows, stopping, now, failing).s.sent == s.sent + Replies(s, 0, stopping)
  {
    hide Inv, AckFrom, DrainFrom, Linked, Replies, Settled, Forward;
    AckLinked(s, 0, stopping, failing);
    AckSays(s, 0, stopping, failing);
    AckKeeps(s, 0, stopping, failing);
    AckSettles(s, stopping, failing);
    DrainKeeps(AckFrom(s, 0, stopping, failing).s, 0, rows, now);
  }

  /**
   In every state of every run, finishing an exchange succeeds if and only if every connection it has to answer can be
   sent to and no draining group still has a member at its deadline.  Then every waiting group that is reported, or every
   waiting group of a stopping guard, is answered; every draining group without members has left and is retired; a
   reported child nobody registered for and no process uses is drained; and nothing else about a group or launch changes.
   */
  lemma {:induction false} RunFinishMeans(states: seq<State>, actions: seq<Action>, k: nat)
    requires IsRun(states, actions) && k < |actions| && actions[k].Finish?
    ensures
      var s, t, a := states[k], states[k + 1], actions[k];
      && Enabled(s, a) && Linked(s)
      && (Step(s, a).ok <==> !Unreachable(s, a.stopping, a.failing) && forall i :: 0 <= i < |s.groups| ==> !Overstays(s, i, a.rows, a.now))
      && t.peers == s.peers && t.root == s.root && t.accepted == s.accepted && t.history == s.history + [a]
      && t.launches.Keys == s.launches.Keys
      && (Step(s, a).ok ==>
            && t.sent == s.sent + Replies(s, 0, a.stopping)
            && |t.groups| == |s.groups|
            && (forall i :: 0 <= i < |s.groups| ==>
                  && t.groups[i] == GroupAfter(s, i, a.rows, a.stopping)
                  && t.launches[s.groups[i].reservation]
                     == s.launches[s.groups[i].reservation].(status := LaunchAfter(s, i, a.rows, a.stopping)))
            && (forall n :: n in s.launches && Ungrouped(s, n) ==>
                  t.launches[n] == s.launches[n].(status := OrphanAfter(s.launches[n], a.rows))))
  {
    hide Inv, OnFinish, GroupAfter, LaunchAfter, OrphanAfter, Ungrouped, Unreachable, Overstays, Replies;
    RunKeeps(states, actions, k);
    var s, a := states[k], actions[k];
    InvParts(s);
    FinishMeans(s, a.rows, a.stopping, a.now, a.failing);
  }

  lemma {:induction false} FinishMeans(s: State, rows: Snapshot, stopping: bool, now: int, failing: set<Conn>)
    requires Inv(s) && Linked(s)
    ensures
      var o := OnFinish(s, rows, stopping, now, failing);
      && (o.ok <==> !Unreachable(s, stopping, failing) && forall i :: 0 <= i < |s.groups| ==> !Overstays(s, i, rows, now))
      && o.s.peers == s.peers && o.s.root == s.root && o.s.accepted == s.accepted && o.s.history == s.history
      && o.s.launches.Keys == s.launches.Keys
      && (o.ok ==>
            && o.s.sent == s.sent + Replies(s, 0, stopping)
            && |o.s.groups| == |s.groups|
            && (forall i :: 0 <= i < |s.groups| ==>
                  && s.groups[i].reservation in o.s.launches && o.s.groups[i] == GroupAfter(s, i, rows, stopping)
                  && o.s.launches[s.groups[i].reservation]
                     == s.launches[s.groups[i].reservation].(status := LaunchAfter(s, i, rows, stopping)))
            && (forall n :: n in s.launches && Ungrouped(s, n) ==>
                  o.s.launches[n] == s.launches[n].(status := OrphanAfter(s.launches[n], rows))))
  {
    hide Inv, OnFinish, GroupAfter, LaunchAfter, OrphanAfter, Ungrouped, Unreachable, Overstays, Replies, Linked, Forward;
    LoopsOk(s, rows, stopping, now, failing);
    FinishKeeps(s, rows, stopping, now, failing);
    var o := OnFinish(s, rows, stopping, now, failing);
    if o.ok {
      FinishSays(s, rows, stopping, now, failing);
      FinishSize(s, rows, stopping, now, failing);
      forall i | 0 <= i < |s.groups|
        ensures s.groups[i].reservation in o.s.launches && o.s.groups[i] == GroupAfter(s, i, rows, stopping)
        ensures o.s.launches[s.groups[i].reservation] == s.launches[s.groups[i].reservation].(status := LaunchAfter(s, i, rows, stopping))
      {
        FinishGroup(s, rows, stopping, now, failing, i);
      }
      forall n | n in s.launches && Ungrouped(s, n)
        ensures o.s.launches[n] == s.launches[n].(status := OrphanAfter(s.launches[n], rows))
      {
        FinishOrphan(s, rows, stopping, now, failing, n);
      }
    }
  }

  lemma {:induction false} FinishSize(s: State, rows: Snapshot, stopping: bool, now: int, failing: set<Conn>)
    requires Inv(s) && Linked(s) && OnFinish(s, rows, stopping, now, failing).ok
    ensures |OnFinish(s, rows, stopping, now, failing).s.groups| == |s.groups|
  {
    hide Inv, AckFrom, DrainFrom, Linked;
    AckLinked(s, 0, stopping, failing);
    AckSparesUngrouped(s, 0, stopping, failing);
    DrainSparesUngrouped(AckFrom(s, 0, stopping, failing).s, 0, rows, now);
  }

  // ---- Hanging up and revoking ------------------------------------------------------------------------

  /**
   In every state of every run, a connection at end of file is gone after its hang-up.  A group it led is draining with
   one second to go while a process of it lives, and has left for good otherwise; its launch follows.
   */
  lemma {:induction false} RunHangupMeans(states: seq<State>, actions: seq<Action>, k: nat)
    requires IsRun(states, actions) && k < |actions| && actions[k].Hangup?
    ensures
      var s, t, a := states[k], states[k + 1], actions[k];
      && Enabled(s, a) && Step(s, a).ok && a.conn in s.peers && t.accepted == s.accepted && t.sent == s.sent && t.root == s.root
      && t.peers == s.peers - {a.conn}
      && (!s.peers[a.conn].role.Leader? ==> t.groups == s.groups && t.launches == s.launches)
      && (s.peers[a.conn].role.Leader? ==>
            && var i := s.peers[a.conn].role.index;
            && i < |s.groups|
            && var g := s.groups[i];
            && g.reservation in s.launches
            && var l := s.launches[g.reservation];
            if Peopled(a.rows, g.pid) then
              && t.groups == s.groups[i := Group(g.pid, Leaving, g.reservation, g.retired, a.now + 1)]
              && t.launches == s.launches[g.reservation := Launch(l.parent, Draining, l.reported, l.pid)]
            else
              && t.groups == s.groups[i := Group(g.pid, Left, g.reservation, true, g.deadline)]
              && t.launches == s.launches[g.reservation := Launch(l.parent, Drained, l.reported, l.pid)])
  {
    hide Inv, Live, Peopled;
    RunKeeps(states, actions, k);
    var s, a := states[k], actions[k];
    InvParts(s);
    assert LeaderOk(s, a.conn);
    PeopledIsLive(a.rows, s.peers[a.conn].pid);
  }

  /** Revoking marks exactly the groups of connected leaders, drops those connections and keeps everything else. */
  lemma {:induction false} RevokeMeans(s: State)
    requires Enabled(s, Revoke)
    ensures
      var t := Step(s, Revoke).s;
      && Step(s, Revoke).ok && t.launches == s.launches && t.sent == s.sent && t.root == s.root && t.accepted == s.accepted
      && (forall c :: c in t.peers <==> c in s.peers && !s.peers[c].role.Leader?)
      && (forall c :: c in t.peers ==> t.peers[c] == s.peers[c])
      && |t.groups| == |s.groups|
      && (forall i :: 0 <= i < |s.groups| ==>
            t.groups[i] == if LedFrom(s, 0, i) then s.groups[i].(status := Revoked) else s.groups[i])
  {
    hide Linked;
    forall i | 0 <= i < |s.groups| ensures LedFrom(s, 0, i) <==> exists c :: c in s.peers && s.peers[c].role == Leader(i) {
      if c :| c in s.peers && s.peers[c].role == Leader(i) { assert 0 <= c && Heads(s, c, i); }
    }
  }
}
