/**
 Every observed selection is checked where its extraction occurred: the edited
 text reads as the original commands with exactly one check right after each
 extraction, and the native output contract always holds of it.
 */
module SelectionChecks {
  import opened Prelude
  import opened EgglogText
  import opened HardboiledReplay

  datatype Selection = Selection(root: string, selected: string, check: string)

  predicate Headed(c: Command, head: string) { |c| >= 2 && c[1] == head }
  predicate IsExtract(c: Command) { Headed(c, "extract") }

  /** The positions of the extractions. */
  function Extracts(cmds: seq<Command>): seq<nat> {
    if cmds == [] then []
    else
      var n := |cmds| - 1;
      Extracts(cmds[..n]) + if IsExtract(cmds[n]) then [n] else []
  }

  lemma {:induction false} ExtractsAre(cmds: seq<Command>)
    ensures
      var ex := Extracts(cmds);
      && (forall j :: 0 <= j < |ex| ==> ex[j] < |cmds| && IsExtract(cmds[ex[j]]))
      && (forall i, j :: 0 <= i < j < |ex| ==> ex[i] < ex[j])
      && (forall i :: 0 <= i < |cmds| && IsExtract(cmds[i]) ==> i in ex)
  {
    hide IsExtract, Extracts;
    ExtractsOrdered(cmds);
    forall i | 0 <= i < |cmds| && IsExtract(cmds[i]) ensures i in Extracts(cmds) { ExtractsFind(cmds, i); }
  }

  lemma {:induction false} ExtractsOrdered(cmds: seq<Command>)
    ensures
      var ex := Extracts(cmds);
      && (forall j :: 0 <= j < |ex| ==> ex[j] < |cmds| && IsExtract(cmds[ex[j]]))
      && (forall i, j :: 0 <= i < j < |ex| ==> ex[i] < ex[j])
  {
    hide IsExtract, Extracts;
    var ex := Extracts(cmds);
    forall j | 0 <= j < |ex| ensures ex[j] < |cmds| && IsExtract(cmds[ex[j]]) { ExtractAt(cmds, j); }
    forall i, j | 0 <= i < j < |ex| ensures ex[i] < ex[j] { ExtractBefore(cmds, i, j); }
  }

  lemma {:induction false} ExtractAt(cmds: seq<Command>, j: nat)
    requires j < |Extracts(cmds)|
    ensures Extracts(cmds)[j] < |cmds| && IsExtract(cmds[Extracts(cmds)[j]])
  {
    hide IsExtract;
    var n := |cmds| - 1;
    if j < |Extracts(cmds[..n])| { ExtractAt(cmds[..n], j); }
  }

  lemma {:induction false} ExtractBefore(cmds: seq<Command>, i: nat, j: nat)
    requires i < j < |Extracts(cmds)|
    ensures Extracts(cmds)[i] < Extracts(cmds)[j]
  {
    hide IsExtract;
    var n := |cmds| - 1;
    if j < |Extracts(cmds[..n])| { ExtractBefore(cmds[..n], i, j); } else { ExtractAt(cmds[..n], i); }
  }

  lemma {:induction false} ExtractsFind(cmds: seq<Command>, i: nat)
    requires i < |cmds| && IsExtract(cmds[i])
    ensures i in Extracts(cmds)
  {
    hide IsExtract;
    var n := |cmds| - 1;
    if i < n {
      assert cmds[..n][i] == cmds[i];
      ExtractsFind(cmds[..n], i);
    }
  }

  /** Each extraction followed by its check. */
  function Weave(cmds: seq<Command>, checks: seq<Command>): seq<Command> {
    if cmds == [] then []
    else if IsExtract(cmds[0]) && checks != [] then [cmds[0], checks[0]] + Weave(cmds[1..], checks[1..])
    else [cmds[0]] + Weave(cmds[1..], checks)
  }

  /** Drop the command after every extraction. */
  function Unweave(cmds: seq<Command>): seq<Command> {
    if cmds == [] then []
    else if IsExtract(cmds[0]) && |cmds| > 1 then [cmds[0]] + Unweave(cmds[2..])
    else [cmds[0]] + Unweave(cmds[1..])
  }

  function Count(cmds: seq<Command>): nat {
    if cmds == [] then 0 else (if IsExtract(cmds[0]) then 1 else 0) + Count(cmds[1..])
  }

  /** Deleting the inserted checks gives back the original commands. */
  lemma {:induction false} UnweaveWeave(cmds: seq<Command>, checks: seq<Command>)
    requires Count(cmds) == |checks|
    ensures Unweave(Weave(cmds, checks)) == cmds
  {
    if cmds != [] {
      if IsExtract(cmds[0]) {
        UnweaveWeave(cmds[1..], checks[1..]);
        assert ([cmds[0], checks[0]] + Weave(cmds[1..], checks[1..]))[2..] == Weave(cmds[1..], checks[1..]);
      } else {
        UnweaveWeave(cmds[1..], checks);
        assert ([cmds[0]] + Weave(cmds[1..], checks))[1..] == Weave(cmds[1..], checks);
      }
      assert cmds == [cmds[0]] + cmds[1..];
    }
  }

  lemma {:induction false} WeavePlain(a: seq<Command>, b: seq<Command>, checks: seq<Command>)
    requires forall i :: 0 <= i < |a| ==> !IsExtract(a[i])
    ensures Weave(a + b, checks) == a + Weave(b, checks)
  {
    if a == [] {
      assert a + b == b && a + Weave(b, checks) == Weave(b, checks);
    } else {
      assert (a + b)[1..] == a[1..] + b && (a + b)[0] == a[0];
      WeavePlain(a[1..], b, checks);
      assert a == [a[0]] + a[1..];
    }
  }

  lemma {:induction false} WeaveStep(cmds: seq<Command>, e: nat, q: nat, checks: seq<Command>)
    requires e < q <= |cmds| && IsExtract(cmds[e]) && checks != []
    requires forall i :: e < i < q ==> !IsExtract(cmds[i])
    ensures Weave(cmds[e..], checks) == [cmds[e], checks[0]] + cmds[e + 1..q] + Weave(cmds[q..], checks[1..])
  {
    assert cmds[e..][0] == cmds[e] && cmds[e..][1..] == cmds[e + 1..q] + cmds[q..];
    WeavePlain(cmds[e + 1..q], cmds[q..], checks[1..]);
  }

  /** One form of a text, cut out of it. */
  lemma {:induction false} FormText(s: string, i: nat)
    requires Forms(s).Some? && i < |Forms(s).value|
    ensures
      var f := Forms(s).value[i];
      && f.start <= f.end <= |s| && Closed(s[f.start..f.end])
      && Forms(s[f.start..f.end]) == Some([Form(0, f.end - f.start, f.tokens)])
  {
    hide Forms, Closed;
    var fs := Forms(s).value;
    var f := fs[i];
    FormSpan(s, i);
    CutBefore(s, i);
    var t := s[f.start..];
    var gs := Forms(t).value;
    assert ShiftForms(gs, f.start)[0] == fs[i..][0] == f;
    CutAfter(t, 0);
    assert t[..gs[0].end] == s[f.start..f.end];
    assert gs[..1] == [gs[0]];
  }

  // ---- The edit --------------------------------------------------------------------------

  const PROHIBITED := {"let", "rule", "rewrite", "birewrite", "union", "set", "check", "run", "run-schedule", "include"}

  /** A closed expression: no command word, and no global. */
  predicate ClosedExpression(c: Command) {
    |c| >= 2 && c[1] !in PROHIBITED && forall i :: 0 <= i < |c| ==> c[i] == [] || c[i][0] != '$'
  }

  predicate NamedRoot(x: string) {
    x != "(" && x != ")" && (x == [] || x[0] != '"')
  }

  /** The words a selection may not start with, written out. */
  lemma {:induction false} ClosedMeans(c: Command)
    ensures ClosedExpression(c) <==>
            && |c| >= 2 && c[1] != "let" && c[1] != "rule" && c[1] != "rewrite" && c[1] != "birewrite" && c[1] != "union" && c[1] != "set"
            && c[1] != "check" && c[1] != "run" && c[1] != "run-schedule" && c[1] != "include"
            && forall x :: x in c && x != [] ==> x[0] != '$'
  {
    forall i | 0 <= i < |c| ensures c[i] in c { }
  }

  /** The texts the edit accepts: every extraction names one root, and every output is a closed expression. */
  predicate Admissible(source: string, stdout: string) {
    && Commands(source).Some? && Commands(stdout).Some?
    && var cmds, outs := Commands(source).value, Commands(stdout).value;
    && var ex := Extracts(cmds);
    && ex != [] && |outs| == |ex|
    && (forall j :: 0 <= j < |ex| ==> ex[j] < |cmds| && |cmds[ex[j]]| == 4 && NamedRoot(cmds[ex[j]][2]))
    && (forall j :: 0 <= j < |outs| ==> ClosedExpression(outs[j]))
  }

  /** The check commands the edit is to insert. */
  function ChecksOf(cmds: seq<Command>, ex: seq<nat>, outs: seq<Command>): seq<Command>
    requires |outs| == |ex| && forall j :: 0 <= j < |ex| ==> ex[j] < |cmds| && |cmds[ex[j]]| == 4
  {
    seq(|ex|, j requires 0 <= j < |ex| => CheckCommand(cmds[ex[j]][2], outs[j]))
  }

  /** What one insertion does to the text edited so far. */
  ghost predicate Edited(cur: string, fs: seq<Form>, q: nat, checks: seq<Command>) {
    && Forms(cur).Some? && q <= |fs| && q <= |Forms(cur).value|
    && Forms(cur).value[..q] == fs[..q]
    && TokensOf(Forms(cur).value) == TokensOf(fs[..q]) + Weave(TokensOf(fs[q..]), checks)
  }

  lemma {:induction false} EditStart(s: string)
    requires Forms(s).Some?
    ensures Edited(s, Forms(s).value, |Forms(s).value|, [])
  {
    var fs := Forms(s).value;
    assert fs[..|fs|] == fs && TokensOf(fs[|fs|..]) == [] && TokensOf(fs) + [] == TokensOf(fs);
  }

  lemma {:induction false} EditStep(cur: string, fs: seq<Form>, e: nat, q: nat, x: string, check: Command, checks: seq<Command>)
    requires Edited(cur, fs, q, checks) && e < q && IsExtract(fs[e].tokens)
    requires forall i :: e < i < q ==> !IsExtract(fs[i].tokens)
    requires Closed(x) && Forms(x).Some? && TokensOf(Forms(x).value) == [check]
    ensures fs[e].end <= |cur| && Edited(cur[..fs[e].end] + x + cur[fs[e].end..], fs, e, [check] + checks)
  {
    hide Forms, Closed, Weave;
    var gs := Forms(cur).value;
    assert gs[..q][e] == gs[e] == fs[e] by { assert fs[..q][e] == fs[e]; }
    InsertAfter(cur, e, x);
    var p := fs[e].end;
    var next := cur[..p] + x + cur[p..];
    var hs := Forms(next).value;
    assert hs[..e] == gs[..e] == gs[..q][..e] == fs[..e];
    ShiftTwice(Forms(x).value, p, 0);
    ShiftTwice(gs[e + 1..], |x|, 0);
    EditTokens(gs, fs, e, q, check, checks, hs, ShiftForms(Forms(x).value, p), ShiftForms(gs[e + 1..], |x|));
  }

  lemma {:induction false} EditTokens(gs: seq<Form>, fs: seq<Form>, e: nat, q: nat, check: Command, checks: seq<Command>,
                                      hs: seq<Form>, mid: seq<Form>, rest: seq<Form>)
    requires e < q <= |fs| && q <= |gs| && gs[..q] == fs[..q] && IsExtract(fs[e].tokens)
    requires TokensOf(gs) == TokensOf(fs[..q]) + Weave(TokensOf(fs[q..]), checks)
    requires forall i :: e < i < q ==> !IsExtract(fs[i].tokens)
    requires hs == gs[..e + 1] + mid + rest && TokensOf(mid) == [check] && TokensOf(rest) == TokensOf(gs[e + 1..])
    ensures TokensOf(hs) == TokensOf(fs[..e]) + Weave(TokensOf(fs[e..]), [check] + checks)
  {
    hide Weave, TokensOf, IsExtract;
    var cmds, w := TokensOf(fs), Weave(TokensOf(fs[q..]), checks);
    TokensOfSlices(fs, e);
    TokensOfSlices(fs, q);
    TokensOfSlices(gs, e + 1);
    TokensOfSlices(gs, q);
    WeaveStep(cmds, e, q, [check] + checks);
    assert ([check] + checks)[1..] == checks;
    TokensOfConcat(gs[..e + 1], mid);
    TokensOfConcat(gs[..e + 1] + mid, rest);
    assert gs[..e + 1] == fs[..e + 1] by { assert gs[..q][..e + 1] == gs[..e + 1] && fs[..q][..e + 1] == fs[..e + 1]; }
    TokensOfSlices(fs, e + 1);
    EditAlgebra(cmds, w, e, q, check);
  }

  lemma {:induction false} TokensOfSlices(fs: seq<Form>, k: nat)
    requires k <= |fs|
    ensures |TokensOf(fs)| == |fs| && TokensOf(fs[..k]) == TokensOf(fs)[..k] && TokensOf(fs[k..]) == TokensOf(fs)[k..]
    ensures forall i :: 0 <= i < |fs| ==> TokensOf(fs)[i] == fs[i].tokens
  {
  }

  lemma {:induction false} TokensOfConcat(a: seq<Form>, b: seq<Form>)
    ensures TokensOf(a + b) == TokensOf(a) + TokensOf(b)
  {
  }

  lemma {:induction false} EditAlgebra(cmds: seq<Command>, w: seq<Command>, e: nat, q: nat, check: Command)
    requires e < q <= |cmds|
    ensures cmds[..e + 1] + [check] + (cmds[..q] + w)[e + 1..] == cmds[..e] + ([cmds[e], check] + cmds[e + 1..q] + w)
  {
    assert (cmds[..q] + w)[e + 1..] == cmds[e + 1..q] + w;
    assert cmds[..e + 1] + [check] == cmds[..e] + [cmds[e], check];
  }

  // ---- Checking every selection -------------------------------------------------------------

  lemma {:induction false} InsertionForms(root: string, selected: string, g: Form)
    requires IsAtom(root) && Closed(selected) && Forms(selected) == Some([g])
    ensures
      var x := "\n" + CheckText(root, selected);
      Closed(x) && Forms(x).Some? && TokensOf(Forms(x).value) == [CheckCommand(root, g.tokens)]
  {
    hide Forms, Closed;
    CheckForms(root, selected, g);
    NewlineForms();
    ConcatForms("\n", CheckText(root, selected));
    ClosedConcat("\n", CheckText(root, selected));
    var f := Form(0, |CheckText(root, selected)|, CheckCommand(root, g.tokens));
    assert TokensOf([] + ShiftForms([f], 1)) == [f.tokens];
  }

  lemma {:induction false} NewlineForms()
    ensures Closed("\n") && Forms("\n") == Some([])
  {
    LexSpace("\n", 0);
    LexNothing(1);
    assert "\n"[1..] == [];
  }

  /** The root of an admissible extraction is an atom. */
  lemma {:induction false} RootIsAtom(source: string, i: nat)
    requires Forms(source).Some? && i < |Forms(source).value| && |Forms(source).value[i].tokens| == 4
    requires NamedRoot(Forms(source).value[i].tokens[2])
    ensures IsAtom(Forms(source).value[i].tokens[2])
  {
    hide Forms;
    FormKinds(source, i);
    assert Kind(Forms(source).value[i].tokens[2]);
  }

  /** The selections an admissible edit reports. */
  ghost predicate Reported(source: string, stdout: string, selections: seq<Selection>)
    requires Admissible(source, stdout)
  {
    var cmds, outs := Commands(source).value, Commands(stdout).value;
    var ex := Extracts(cmds);
    && |selections| == |ex|
    && forall j :: 0 <= j < |ex| ==>
         && selections[j].root == cmds[ex[j]][2]
         && selections[j].check == CheckText(selections[j].root, selections[j].selected)
         && Forms(selections[j].check).Some?
         && TokensOf(Forms(selections[j].check).value) == [CheckCommand(cmds[ex[j]][2], outs[j])]
  }

  /**
   Insert one check after every extraction, last one first so that earlier offsets stay true.  The result reads
   as the original commands, each extraction followed by the check of its own selection.
   */
  method CheckObservedSelections(source: string, stdout: string) returns (r: Result<(string, seq<Selection>)>)
    ensures r.Success? <==> Admissible(source, stdout)
    ensures r.Success? ==> Reported(source, stdout, r.value.1)
    ensures r.Success? ==>
              var cmds := Commands(source).value;
              Commands(r.value.0) == Some(Weave(cmds, ChecksOf(cmds, Extracts(cmds), Commands(stdout).value)))
  {
    hide Forms, Closed, Extracts, Weave, ClosedExpression, NamedRoot, CheckCommand, CheckText;
    var parsed := EgglogForms(source);
    var printed := EgglogForms(stdout);
    if parsed.None? || printed.None? {
      return Failure("not a sequence of forms");
    }
    var fs, gs := parsed.value, printed.value;
    ghost var cmds, outs := TokensOf(fs), TokensOf(gs);
    TokensOfSlices(fs, 0);
    TokensOfSlices(gs, 0);
    var extractions := FindExtractions(fs);
    ExtractsAre(cmds);
    var good := Verify(fs, extractions, gs);
    if !good {
      return Failure("sidecar extractions and selections do not match");
    }
    var selections := Selections(source, fs, extractions, stdout, gs);
    ghost var checks := ChecksOf(cmds, extractions, outs);
    forall j | 0 <= j < |extractions| ensures Inserts(selections[j], checks[j]) {
      assert ReadyFor(selections[j], fs[extractions[j]].tokens[2], gs[j].tokens);
    }
    var text := InsertChecks(source, fs, extractions, selections, checks);
    r := Success((text, selections));
  }

  /** The text inserted for a selection is exactly one check. */
  ghost predicate Inserts(s: Selection, check: Command) {
    Closed("\n" + s.check) && Forms("\n" + s.check).Some? && TokensOf(Forms("\n" + s.check).value) == [check]
  }

  lemma {:induction false} BeforeExtracts(cmds: seq<Command>, q: nat)
    requires q == if Extracts(cmds) == [] then |cmds| else Extracts(cmds)[0]
    ensures q <= |cmds| && forall i :: 0 <= i < q ==> !IsExtract(cmds[i])
  {
    hide Extracts, IsExtract;
    ExtractsAre(cmds);
    var ex := Extracts(cmds);
    assert forall k :: 0 <= k < |ex| ==> q <= ex[k];
    assert forall i :: 0 <= i < q ==> i !in ex;
  }

  /** The insertions, last one first. */
  method InsertChecks(source: string, fs: seq<Form>, extractions: seq<nat>, selections: seq<Selection>, ghost checks: seq<Command>)
    returns (text: string)
    requires Forms(source) == Some(fs) && extractions == Extracts(TokensOf(fs))
    requires |selections| == |extractions| == |checks|
    requires forall j :: 0 <= j < |extractions| ==> Inserts(selections[j], checks[j])
    ensures Commands(text) == Some(Weave(TokensOf(fs), checks))
  {
    hide Forms, Closed, Extracts, Weave;
    ghost var cmds := TokensOf(fs);
    TokensOfSlices(fs, 0);
    text := source;
    EditStart(source);
    var j := |extractions|;
    ghost var q := |fs|;
    assert checks[j..] == [];
    while j > 0
      invariant 0 <= j <= |extractions| && q == if j == |extractions| then |fs| else extractions[j]
      invariant Edited(text, fs, q, checks[j..])
    {
      j := j - 1;
      var e := extractions[j];
      var x := "\n" + selections[j].check;
      assert [checks[j]] + checks[j + 1..] == checks[j..];
      BetweenExtracts(cmds, j);
      EditStep(text, fs, e, q, x, checks[j], checks[j + 1..]);
      text := text[..fs[e].end] + x + text[fs[e].end..];
      q := e;
    }
    assert checks[0..] == checks;
    BeforeExtracts(cmds, q);
    EditEnd(text, fs, q, checks);
  }

  method FindExtractions(fs: seq<Form>) returns (extractions: seq<nat>)
    ensures extractions == Extracts(TokensOf(fs))
  {
    hide TokensOf;
    extractions := [];
    TokensOfSlices(fs, 0);
    for i := 0 to |fs|
      invariant extractions == Extracts(TokensOf(fs)[..i])
    {
      assert TokensOf(fs)[..i + 1][..i] == TokensOf(fs)[..i];
      if IsExtract(fs[i].tokens) {
        extractions := extractions + [i];
      }
    }
    assert TokensOf(fs)[..|fs|] == TokensOf(fs);
  }

  method Verify(fs: seq<Form>, extractions: seq<nat>, gs: seq<Form>) returns (good: bool)
    requires forall j :: 0 <= j < |extractions| ==> extractions[j] < |fs|
    ensures good <==>
              && extractions != [] && |gs| == |extractions|
              && (forall j :: 0 <= j < |extractions| ==> |fs[extractions[j]].tokens| == 4 && NamedRoot(fs[extractions[j]].tokens[2]))
              && (forall j :: 0 <= j < |gs| ==> ClosedExpression(gs[j].tokens))
  {
    if extractions == [] || |gs| != |extractions| {
      return false;
    }
    for j := 0 to |extractions|
      invariant forall i :: 0 <= i < j ==>
        |fs[extractions[i]].tokens| == 4 && NamedRoot(fs[extractions[i]].tokens[2]) && ClosedExpression(gs[i].tokens)
    {
      var tokens := fs[extractions[j]].tokens;
      if |tokens| != 4 || !NamedRoot(tokens[2]) || !ClosedExpression(gs[j].tokens) {
        return false;
      }
    }
    good := true;
  }

  /** A selection ready to be inserted: its check is the one command expected of it. */
  ghost predicate ReadyFor(s: Selection, root: string, out: Command) {
    && s.root == root && s.check == CheckText(root, s.selected)
    && Forms(s.check).Some? && TokensOf(Forms(s.check).value) == [CheckCommand(root, out)]
    && Closed("\n" + s.check) && Forms("\n" + s.check).Some?
    && TokensOf(Forms("\n" + s.check).value) == [CheckCommand(root, out)]
  }

  method Selections(source: string, fs: seq<Form>, extractions: seq<nat>, stdout: string, gs: seq<Form>)
    returns (selections: seq<Selection>)
    requires Forms(source) == Some(fs) && Forms(stdout) == Some(gs) && |gs| == |extractions|
    requires forall j :: 0 <= j < |extractions| ==>
               extractions[j] < |fs| && |fs[extractions[j]].tokens| == 4 && NamedRoot(fs[extractions[j]].tokens[2])
    ensures |selections| == |extractions|
    ensures forall j :: 0 <= j < |extractions| ==> ReadyFor(selections[j], fs[extractions[j]].tokens[2], gs[j].tokens)
  {
    hide Forms, Closed, NamedRoot, CheckText, ReadyFor;
    selections := [];
    for j := 0 to |extractions|
      invariant |selections| == j
      invariant forall i :: 0 <= i < j ==> ReadyFor(selections[i], fs[extractions[i]].tokens[2], gs[i].tokens)
    {
      var root := fs[extractions[j]].tokens[2];
      FormText(stdout, j);
      RootIsAtom(source, extractions[j]);
      var selected := stdout[gs[j].start..gs[j].end];
      var selection := Selection(root, selected, CheckText(root, selected));
      MakesReady(selection, root, gs[j].tokens);
      selections := selections + [selection];
    }
  }

  lemma {:induction false} MakesReady(s: Selection, root: string, out: Command)
    requires s == Selection(root, s.selected, CheckText(root, s.selected)) && IsAtom(root)
    requires Closed(s.selected) && Forms(s.selected) == Some([Form(0, |s.selected|, out)])
    ensures ReadyFor(s, root, out)
  {
    hide Forms, Closed, CheckText;
    CheckForms(root, s.selected, Form(0, |s.selected|, out));
    InsertionForms(root, s.selected, Form(0, |s.selected|, out));
    assert TokensOf([Form(0, |s.check|, CheckCommand(root, out))]) == [CheckCommand(root, out)];
  }

  lemma {:induction false} BetweenExtracts(cmds: seq<Command>, j: nat)
    requires j < |Extracts(cmds)|
    ensures
      var ex := Extracts(cmds);
      && ex[j] < |cmds| && IsExtract(cmds[ex[j]])
      && ex[j] < (if j + 1 == |ex| then |cmds| else ex[j + 1])
      && forall i :: ex[j] < i < (if j + 1 == |ex| then |cmds| else ex[j + 1]) ==> i < |cmds| && !IsExtract(cmds[i])
  {
    hide Extracts;
    ExtractsAre(cmds);
    var ex := Extracts(cmds);
    hide IsExtract;
    var top := if j + 1 == |ex| then |cmds| else ex[j + 1];
    assert forall k :: 0 <= k < |ex| ==> ex[k] <= ex[j] || top <= ex[k];
    assert forall i :: ex[j] < i < top ==> i !in ex;
  }

  lemma {:induction false} EditEnd(text: string, fs: seq<Form>, q: nat, checks: seq<Command>)
    requires Edited(text, fs, q, checks) && q <= |fs| && forall i :: 0 <= i < q ==> !IsExtract(fs[i].tokens)
    ensures Commands(text) == Some(Weave(TokensOf(fs), checks))
  {
    hide Forms, Weave;
    WeavePlain(TokensOf(fs[..q]), TokensOf(fs[q..]), checks);
    assert TokensOf(fs) == TokensOf(fs[..q]) + TokensOf(fs[q..]);
  }

  // ---- The native output contract --------------------------------------------------------------

  /** One check bound to its position and to everything before it. */
  datatype CheckRecord = CheckRecord(position: nat, tokens: Command, prefix: seq<Command>)

  predicate BoundAt(cmds: seq<Command>, position: nat, check: string) {
    && Commands(check).Some? && |Commands(check).value| == 1 && Headed(Commands(check).value[0], "check")
    && position < |cmds| && cmds[position] == Commands(check).value[0]
  }

  predicate Contract(cmds: seq<Command>, checks: seq<(nat, string)>) {
    && checks != []
    && (forall i :: 0 <= i < |checks| ==> BoundAt(cmds, checks[i].0, checks[i].1))
    && (forall i, j :: 0 <= i < j < |checks| ==> checks[i].0 < checks[j].0)
  }

  /** Whether a text is one check command, the one at a position. */
  method CheckPresent(cmds: seq<Command>, position: nat, check: string) returns (present: bool)
    ensures present <==> BoundAt(cmds, position, check)
  {
    hide Forms;
    var command := EgglogForms(check);
    if command.None? || |command.value| != 1 || !Headed(command.value[0].tokens, "check") {
      return false;
    }
    assert TokensOf(command.value)[0] == command.value[0].tokens;
    present := position < |cmds| && cmds[position] == command.value[0].tokens;
  }

  method NativeCheckContract(source: string, checks: seq<(nat, string)>, roots: seq<Selection>) returns (r: Result<seq<CheckRecord>>)
    ensures r.Success? <==> Commands(source).Some? && Contract(Commands(source).value, checks) && roots != []
    ensures r.Success? ==> |r.value| == |checks| && forall i :: 0 <= i < |checks| ==>
              var cmds := Commands(source).value;
              checks[i].0 < |cmds| && r.value[i] == CheckRecord(checks[i].0, cmds[checks[i].0], cmds[..checks[i].0])
  {
    hide Forms, Headed, BoundAt, Recorded, Contract;
    var parsed := EgglogForms(source);
    if parsed.None? {
      return Failure("not a sequence of forms");
    }
    var cmds := TokensOf(parsed.value);
    var records: seq<CheckRecord> := [];
    RecordedNothing(cmds, checks);
    for i := 0 to |checks|
      invariant |records| == i && Recorded(cmds, checks, i, records)
    {
      var position := checks[i].0;
      var present := CheckPresent(cmds, position, checks[i].1);
      if !present || (i > 0 && position <= checks[i - 1].0) {
        ContractFails(cmds, checks, i);
        return Failure("native output checks must be single ordered check commands at their intended boundaries");
      }
      RecordedStep(cmds, checks, i, records);
      records := records + [CheckRecord(position, cmds[position], cmds[..position])];
    }
    RecordedAll(cmds, checks, records);
    if records == [] || roots == [] {
      return Failure("native output contract requires all roots and checks");
    }
    r := Success(records);
  }

  /** The first `i` checks are bound, in order, and recorded. */
  ghost predicate Recorded(cmds: seq<Command>, checks: seq<(nat, string)>, i: nat, records: seq<CheckRecord>) {
    && i <= |checks| && |records| == i
    && (forall k :: 0 <= k < i ==> BoundAt(cmds, checks[k].0, checks[k].1))
    && (forall k :: 0 <= k < i ==> checks[k].0 < |cmds| && records[k] == CheckRecord(checks[k].0, cmds[checks[k].0], cmds[..checks[k].0]))
    && (forall k, l :: 0 <= k < l < i ==> checks[k].0 < checks[l].0)
  }

  lemma {:induction false} RecordedNothing(cmds: seq<Command>, checks: seq<(nat, string)>)
    ensures Recorded(cmds, checks, 0, [])
  {
  }

  lemma {:induction false} RecordedAll(cmds: seq<Command>, checks: seq<(nat, string)>, records: seq<CheckRecord>)
    requires Recorded(cmds, checks, |checks|, records)
    ensures Contract(cmds, checks) <==> checks != []
    ensures forall i :: 0 <= i < |checks| ==>
              checks[i].0 < |cmds| && records[i] == CheckRecord(checks[i].0, cmds[checks[i].0], cmds[..checks[i].0])
  {
    hide BoundAt;
  }

  lemma {:induction false} ContractFails(cmds: seq<Command>, checks: seq<(nat, string)>, i: nat)
    requires i < |checks| && (!BoundAt(cmds, checks[i].0, checks[i].1) || (i > 0 && checks[i].0 <= checks[i - 1].0))
    ensures !Contract(cmds, checks)
  {
    hide BoundAt;
  }

  lemma {:induction false} RecordedStep(cmds: seq<Command>, checks: seq<(nat, string)>, i: nat, records: seq<CheckRecord>)
    requires Recorded(cmds, checks, i, records) && i < |checks| && BoundAt(cmds, checks[i].0, checks[i].1)
    requires i > 0 ==> checks[i - 1].0 < checks[i].0
    ensures checks[i].0 < |cmds|
    ensures |records| == i && Recorded(cmds, checks, i + 1, records + [CheckRecord(checks[i].0, cmds[checks[i].0], cmds[..checks[i].0])])
  {
    hide Commands, Headed;
    assert checks[i].0 < |cmds|;
    forall k | 0 <= k < i ensures checks[k].0 < checks[i].0 { }
  }

  /** The positions of the extractions, counted from `base`, front first. */
  function Marks(cmds: seq<Command>, base: nat): seq<nat> {
    if cmds == [] then [] else (if IsExtract(cmds[0]) then [base] else []) + Marks(cmds[1..], base + 1)
  }

  lemma {:induction false} MarksSnoc(cmds: seq<Command>, c: Command, base: nat)
    ensures Marks(cmds + [c], base) == Marks(cmds, base) + if IsExtract(c) then [base + |cmds|] else []
  {
    hide IsExtract, Marks;
    if cmds == [] {
      assert cmds + [c] == [c] + [];
      MarksCons(c, [], base);
      MarksNothing(base);
      MarksNothing(base + 1);
    } else {
      assert (cmds + [c]) == [cmds[0]] + (cmds[1..] + [c]) && cmds == [cmds[0]] + cmds[1..];
      MarksCons(cmds[0], cmds[1..] + [c], base);
      MarksCons(cmds[0], cmds[1..], base);
      MarksSnoc(cmds[1..], c, base + 1);
    }
  }

  lemma {:induction false} MarksNothing(base: nat)
    ensures Marks([], base) == []
  {
  }

  lemma {:induction false} MarksCons(c: Command, cmds: seq<Command>, base: nat)
    ensures Marks([c] + cmds, base) == (if IsExtract(c) then [base] else []) + Marks(cmds, base + 1)
  {
    hide IsExtract;
    assert ([c] + cmds)[1..] == cmds;
  }

  lemma {:induction false} MarksAreExtracts(cmds: seq<Command>)
    ensures Marks(cmds, 0) == Extracts(cmds) && |Extracts(cmds)| == Count(cmds)
  {
    MarksCount(cmds, 0);
    if cmds != [] {
      var n := |cmds| - 1;
      MarksAreExtracts(cmds[..n]);
      MarksSnoc(cmds[..n], cmds[n], 0);
      assert cmds == cmds[..n] + [cmds[n]];
    }
  }

  lemma {:induction false} MarksCount(cmds: seq<Command>, base: nat)
    ensures |Marks(cmds, base)| == Count(cmds)
  {
    if cmds != [] { MarksCount(cmds[1..], base + 1); }
  }

  /** The command after each marked one, counted from `base`, is its check. */
  predicate Marked(w: seq<Command>, m: seq<nat>, checks: seq<Command>, base: nat) {
    && |m| == |checks|
    && (forall j :: 0 <= j < |m| ==> base <= m[j] && m[j] + 1 - base < |w| && w[m[j] + 1 - base] == checks[j])
    && (forall i, j :: 0 <= i < j < |m| ==> m[i] + 1 < m[j])
  }

  lemma {:induction false} MarkedCons(c: Command, w: seq<Command>, m: seq<nat>, checks: seq<Command>, base: nat)
    requires Marked(w, m, checks, base + 1)
    ensures Marked([c] + w, m, checks, base)
  {
    forall j | 0 <= j < |m| ensures m[j] + 1 - base < |[c] + w| && ([c] + w)[m[j] + 1 - base] == checks[j] {
      assert ([c] + w)[m[j] + 1 - base] == w[m[j] + 1 - (base + 1)];
    }
  }

  lemma {:induction false} MarkedPair(c: Command, k: Command, w: seq<Command>, m: seq<nat>, checks: seq<Command>, base: nat)
    requires Marked(w, m, checks, base + 2)
    ensures Marked([c, k] + w, [base] + m, [k] + checks, base)
  {
    MarkedCons(k, w, m, checks, base + 1);
    MarkedCons(c, [k] + w, m, checks, base);
    assert [c] + ([k] + w) == [c, k] + w;
  }

  /** In the woven text the command after each extraction is its own check. */
  lemma {:induction false} WovenMarks(cmds: seq<Command>, checks: seq<Command>, base: nat)
    requires Count(cmds) == |checks| && forall i :: 0 <= i < |checks| ==> !IsExtract(checks[i])
    ensures Marked(Weave(cmds, checks), Marks(Weave(cmds, checks), base), checks, base)
  {
    hide Marked;
    if cmds == [] {
      NothingMarked(base);
    } else if IsExtract(cmds[0]) {
      var rest := Weave(cmds[1..], checks[1..]);
      WovenMarks(cmds[1..], checks[1..], base + 2);
      MarkedPair(cmds[0], checks[0], rest, Marks(rest, base + 2), checks[1..], base);
      MarksPair(cmds[0], checks[0], rest, base);
      assert checks == [checks[0]] + checks[1..];
    } else {
      var rest := Weave(cmds[1..], checks);
      WovenMarks(cmds[1..], checks, base + 1);
      MarkedCons(cmds[0], rest, Marks(rest, base + 1), checks, base);
      assert ([cmds[0]] + rest)[1..] == rest && [] + Marks(rest, base + 1) == Marks(rest, base + 1);
    }
  }

  lemma {:induction false} NothingMarked(base: nat)
    ensures Marked([], [], [], base)
  {
  }

  lemma {:induction false} MarksPair(c: Command, k: Command, rest: seq<Command>, base: nat)
    requires IsExtract(c) && !IsExtract(k)
    ensures Marks([c, k] + rest, base) == [base] + Marks(rest, base + 2)
  {
    assert ([c, k] + rest)[1..] == [k] + rest && ([k] + rest)[1..] == rest;
    assert [] + Marks(rest, base + 2) == Marks(rest, base + 2);
  }

  /** The edited replay with its selections and its contract. */
  datatype Replay = Replay(text: string, selections: seq<Selection>, contract: seq<CheckRecord>)

  /**
   Package one backend call.  Whenever the edit succeeds, the contract at the positions right after the
   extractions of the edited text succeeds too, and records exactly the inserted checks.
   */
  method MaterializeInvocation(source: string, stdout: string) returns (r: Result<Replay>)
    ensures r.Success? <==> Admissible(source, stdout)
    ensures r.Success? ==>
              var cmds, outs := Commands(source).value, Commands(stdout).value;
              var checks := ChecksOf(cmds, Extracts(cmds), outs);
              && Commands(r.value.text).Some? && Unweave(Commands(r.value.text).value) == cmds
              && |r.value.contract| == |checks|
              && forall i :: 0 <= i < |checks| ==> r.value.contract[i].tokens == checks[i]
  {
    hide Forms, Extracts, Weave, Unweave, Marks, CheckText, CheckCommand, Reported;
    var edited := CheckObservedSelections(source, stdout);
    if edited.Failure? {
      return Failure(edited.error);
    }
    var (text, selections) := edited.value;
    ghost var cmds, outs := Commands(source).value, Commands(stdout).value;
    ghost var checks := ChecksOf(cmds, Extracts(cmds), outs);
    var parsed := EgglogForms(text);
    var extracts := FindExtractions(parsed.value);
    ghost var woven := Weave(cmds, checks);
    MarksAreExtracts(cmds);
    MarksAreExtracts(woven);
    ChecksAreChecks(cmds, Extracts(cmds), outs);
    UnweaveWeave(cmds, checks);
    WovenMarks(cmds, checks, 0);
    ReportedParts(source, stdout, selections);
    var positions: seq<(nat, string)> := [];
    for i := 0 to |extracts|
      invariant |positions| == i
      invariant forall k :: 0 <= k < i ==> positions[k] == (extracts[k] + 1, selections[k].check)
    {
      positions := positions + [(extracts[i] + 1, selections[i].check)];
    }
    PositionsHold(woven, positions, checks, extracts);
    var contract := NativeCheckContract(text, positions, selections);
    r := Success(Replay(text, selections, contract.value));
  }

  lemma {:induction false} ChecksAreChecks(cmds: seq<Command>, ex: seq<nat>, outs: seq<Command>)
    requires |outs| == |ex| && forall j :: 0 <= j < |ex| ==> ex[j] < |cmds| && |cmds[ex[j]]| == 4
    ensures
      var checks := ChecksOf(cmds, ex, outs);
      forall j :: 0 <= j < |checks| ==> Headed(checks[j], "check") && !IsExtract(checks[j])
  {
  }

  lemma {:induction false} ReportedParts(source: string, stdout: string, selections: seq<Selection>)
    requires Admissible(source, stdout) && Reported(source, stdout, selections)
    ensures
      var cmds, outs := Commands(source).value, Commands(stdout).value;
      var ex := Extracts(cmds);
      && |selections| == |ex| && ex != []
      && forall j :: 0 <= j < |ex| ==> Commands(selections[j].check) == Some([ChecksOf(cmds, ex, outs)[j]])
  {
    hide Forms, Extracts, CheckText, CheckCommand;
  }

  lemma {:induction false} PositionsHold(woven: seq<Command>, positions: seq<(nat, string)>, checks: seq<Command>, m: seq<nat>)
    requires |positions| == |m| == |checks| && positions != []
    requires forall j :: 0 <= j < |m| ==> m[j] + 1 < |woven| && woven[m[j] + 1] == checks[j] && Headed(checks[j], "check")
    requires forall i, j :: 0 <= i < j < |m| ==> m[i] + 1 < m[j]
    requires forall j :: 0 <= j < |m| ==> positions[j].0 == m[j] + 1 && Commands(positions[j].1) == Some([checks[j]])
    ensures Contract(woven, positions)
  {
    hide Forms;
    forall i | 0 <= i < |positions| ensures BoundAt(woven, positions[i].0, positions[i].1) {
      assert woven[m[i] + 1] == checks[i];
    }
  }
}
