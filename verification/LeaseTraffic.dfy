/**
 What is read from a connection and what is handled of it, over whole runs:
 every line is handled once, in the order it was read, and the rest is still in
 the inbox.
 */
module LeaseTraffic {
  import opened Prelude
  import opened LeaseModel
  import opened LeaseInvariants
  import opened LeaseGuard

  function LineOf(a: Action, c: Conn): seq<Message> { if a.Line? && a.conn == c then [a.message] else [] }

  function ReadingOf(a: Action, c: Conn): seq<Message> { if a.Receive? && a.conn == c then a.messages else [] }

  /** The lines of connection `c` that were handled. */
  function Handled(h: seq<Action>, c: Conn): seq<Message> {
    if h == [] then [] else Handled(h[..|h| - 1], c) + LineOf(h[|h| - 1], c)
  }

  /** The lines that were read from it. */
  function Gathered(h: seq<Action>, c: Conn): seq<Message> {
    if h == [] then [] else Gathered(h[..|h| - 1], c) + ReadingOf(h[|h| - 1], c)
  }

  lemma {:induction false} TrafficSnoc(h: seq<Action>, a: Action, c: Conn)
    ensures Handled(h + [a], c) == Handled(h, c) + LineOf(a, c)
    ensures Gathered(h + [a], c) == Gathered(h, c) + ReadingOf(a, c)
  {
    assert (h + [a])[..|h|] == h;
  }

  /** What an open connection has read is what was handled of it and what is in its inbox; of others nothing extra was handled. */
  ghost predicate Accounted(s: State, c: Conn) {
    && Handled(s.history, c) <= Gathered(s.history, c)
    && (c in s.peers ==> Gathered(s.history, c) == Handled(s.history, c) + s.peers[c].inbox)
    && (c >= s.accepted ==> Gathered(s.history, c) == [])
  }

  /** The inbox of a connection after an action. */
  ghost predicate Moves(s: State, a: Action, t: State, c: Conn) {
    && s.accepted <= t.accepted && (c in t.peers ==> c in s.peers || (c >= s.accepted && t.peers[c].inbox == []))
    && (c in s.peers && c in t.peers ==>
          && (LineOf(a, c) != [] ==> s.peers[c].inbox != [] && a.message == s.peers[c].inbox[0])
          && t.peers[c].inbox == s.peers[c].inbox[|LineOf(a, c)|..] + ReadingOf(a, c))
    && (LineOf(a, c) != [] || ReadingOf(a, c) != [] ==> c in s.peers && c in t.peers && c < s.accepted)
    && (LineOf(a, c) == [] || ReadingOf(a, c) == [])
  }

  lemma {:induction false} LineMoves(s: State, a: Action, c: Conn)
    requires Enabled(s, a) && Linked(s) && a.Line?
    ensures Moves(s, a, Step(s, a).s, c)
  {
    hide OnLine;
    LineOthers(s, a.conn, a.message, a.rows, a.stopping, a.nonce, a.sendOk);
  }

  lemma {:induction false} StepMoves(s: State, a: Action, c: Conn)
    requires Inv(s) && Linked(s) && Enabled(s, a)
    ensures Moves(s, a, Step(s, a).s, c)
  {
    hide Inv, OnLine, OnFinish, OnHangup;
    if a.Line? {
      LineMoves(s, a, c);
    } else if a.Finish? {
      FinishKeeps(s, a.rows, a.stopping, a.now, a.failing);
    } else if a.Hangup? {
      HangupOthers(s, a.conn, a.rows, a.now);
    }
  }

  lemma {:induction false} Shift(got: seq<Message>, done: seq<Message>, inbox: seq<Message>, line: seq<Message>, more: seq<Message>)
    requires got == done + inbox && line <= inbox
    ensures got + more == (done + line) + (inbox[|line|..] + more) && done + line <= got + more
  {
    assert inbox == line + inbox[|line|..];
  }

  lemma {:induction false} MovesOpen(s: State, a: Action, t: State, c: Conn)
    requires Accounted(s, c) && Moves(s, a, t, c) && t.history == s.history + [a] && c in s.peers && c in t.peers
    ensures Accounted(t, c)
  {
    hide Handled, Gathered;
    TrafficSnoc(s.history, a, c);
    Shift(Gathered(s.history, c), Handled(s.history, c), s.peers[c].inbox, LineOf(a, c), ReadingOf(a, c));
  }

  lemma {:induction false} MovesShut(s: State, a: Action, t: State, c: Conn)
    requires Accounted(s, c) && Moves(s, a, t, c) && t.history == s.history + [a] && !(c in s.peers && c in t.peers)
    ensures Accounted(t, c)
  {
    hide Handled, Gathered;
    TrafficSnoc(s.history, a, c);
    assert LineOf(a, c) == [] && ReadingOf(a, c) == [];
    assert Handled(t.history, c) == Handled(s.history, c) && Gathered(t.history, c) == Gathered(s.history, c);
  }

  lemma {:induction false} MovesAccount(s: State, a: Action, t: State, c: Conn)
    requires Accounted(s, c) && Moves(s, a, t, c) && t.history == s.history + [a]
    ensures Accounted(t, c)
  {
    hide Accounted, Moves;
    if c in s.peers && c in t.peers { MovesOpen(s, a, t, c); } else { MovesShut(s, a, t, c); }
  }

  lemma {:induction false} StepAccounts(s: State, a: Action, c: Conn)
    requires Inv(s) && Enabled(s, a) && Accounted(s, c)
    ensures Accounted(Step(s, a).s, c)
  {
    hide Inv, Moves, Accounted, Effect;
    InvParts(s);
    StepMoves(s, a, c);
    MovesAccount(s, a, Step(s, a).s, c);
  }

  /**
   In every state of every run, the lines handled of a connection are the first ones read from it, in order and once
   each; while it is open, the others are in its inbox.
   */
  lemma {:induction false} RunAccounts(states: seq<State>, actions: seq<Action>, k: nat, c: Conn)
    requires IsRun(states, actions) && k < |states|
    ensures Handled(states[k].history, c) <= Gathered(states[k].history, c)
    ensures c in states[k].peers ==> Gathered(states[k].history, c) == Handled(states[k].history, c) + states[k].peers[c].inbox
    ensures Accounted(states[k], c)
  {
    hide Inv, Step, Enabled;
    if k > 0 {
      RunAccounts(states, actions, k - 1, c);
      RunKeeps(states, actions, k - 1);
      assert states[k - 1 + 1] == Step(states[k - 1], actions[k - 1]).s;
      StepAccounts(states[k - 1], actions[k - 1], c);
    }
  }
}
