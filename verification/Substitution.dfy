/**
 Whole-atom substitution in a recorded command, and what it means: reading the
 substituted text and evaluating it in the outer environment is reading the
 original and evaluating it where every substituted name stands for its term.
 */
module Substitution {
  import opened Prelude
  import T = EgglogText

  // ---- The scanner -----------------------------------------------------------------

  /** Recorder atoms end only at white space, parentheses and quotes. */
  predicate InWord(c: char) { !T.IsSpace(c) && c !in {'(', ')', '"'} }

  function WordLength(s: string): (n: nat)
    ensures n <= |s|
  {
    if s == [] || !InWord(s[0]) then 0 else 1 + WordLength(s[1..])
  }

  /** What a quotation takes after its opening quote, and whether it is closed. */
  function QuoteLength(s: string): (r: (nat, bool))
    ensures r.0 <= |s|
  {
    if s == [] then (0, false)
    else if s[0] == '"' then (1, true)
    else if s[0] == '\\' then
      if |s| < 2 then (1, false) else var q := QuoteLength(s[2..]); (2 + q.0, q.1)
    else var q := QuoteLength(s[1..]); (1 + q.0, q.1)
  }

  function PieceLength(s: string): (n: nat)
    requires s != []
    ensures 1 <= n <= |s|
  {
    if s[0] == '"' then 1 + QuoteLength(s[1..]).0
    else if InWord(s[0]) then WordLength(s)
    else 1
  }

  function Value(m: map<string, string>, a: string): string {
    if a in m then m[a] else a
  }

  /** Every complete atom replaced; white space, parentheses and quotations kept. */
  function Substitute(s: string, m: map<string, string>): string
    decreases |s|
  {
    if s == [] then []
    else
      var n := PieceLength(s);
      (if InWord(s[0]) then Value(m, s[..n]) else s[..n]) + Substitute(s[n..], m)
  }

  lemma {:induction false} WordStep(s: string, i: nat, e: nat)
    requires i <= e < |s| && InWord(s[e]) && WordLength(s[i..]) == e - i + WordLength(s[e..])
    ensures WordLength(s[i..]) == e + 1 - i + WordLength(s[e + 1..])
  {
    assert s[e..][1..] == s[e + 1..];
  }

  lemma {:induction false} QuoteStep(s: string, e: nat)
    requires e < |s| && s[e] != '"'
    ensures
      var d := if s[e] == '\\' then 2 else 1;
      if e + d > |s| then QuoteLength(s[e..]).0 == |s| - e
      else QuoteLength(s[e..]).0 == d + QuoteLength(s[e + d..]).0
  {
    assert s[e..][1..] == s[e + 1..];
    if s[e] == '\\' && e + 2 <= |s| { assert s[e..][2..] == s[e + 2..]; }
  }

  /** The index-driven scan. */
  method SubstituteAtoms(source: string, replacements: map<string, string>) returns (output: string)
    ensures output == Substitute(source, replacements)
  {
    hide Substitute, T.IsSpace;
    output := [];
    var index := 0;
    assert source[0..] == source;
    while index < |source|
      invariant 0 <= index <= |source|
      invariant output + Substitute(source[index..], replacements) == Substitute(source, replacements)
      decreases |source| - index
    {
      var character := source[index];
      var end: nat;
      var piece: string;
      if character == '"' {
        end := ScanQuote(source, index);
        piece := source[index..end];
      } else if T.IsSpace(character) || character in {'(', ')'} {
        end := index + 1;
        piece := [character];
        assert piece == source[index..end];
      } else {
        end := ScanWord(source, index);
        piece := source[index..end];
        if piece in replacements {
          piece := replacements[piece];
        }
      }
      ScanStep(source, replacements, output, index, end, piece);
      output := output + piece;
      index := end;
    }
    assert source[index..] == [];
    SubstituteStart([], replacements);
  }

  /** One turn of the scan takes one piece. */
  lemma {:induction false} ScanStep(s: string, m: map<string, string>, out: string, index: nat, end: nat, piece: string)
    requires index < end <= |s|
    requires end == index + if s[index] == '"' then 1 + QuoteLength(s[index + 1..]).0
                            else if InWord(s[index]) then WordLength(s[index..]) else 1
    requires piece == if InWord(s[index]) then Value(m, s[index..end]) else s[index..end]
    ensures out + piece + Substitute(s[end..], m) == out + Substitute(s[index..], m)
  {
    hide Value, QuoteLength, WordLength, InWord;
    var rest := s[index..];
    assert rest[1..] == s[index + 1..];
    assert rest[..end - index] == s[index..end] && rest[end - index..] == s[end..];
  }

  method ScanQuote(source: string, index: nat) returns (end: nat)
    requires index < |source| && source[index] == '"'
    ensures index < end <= |source| && end == index + 1 + QuoteLength(source[index + 1..]).0
  {
    end := index + 1;
    while end < |source|
      invariant index < end <= |source|
      invariant QuoteLength(source[index + 1..]).0 == end - (index + 1) + QuoteLength(source[end..]).0
      decreases |source| - end
    {
      if source[end] == '"' {
        return end + 1;
      }
      QuoteStep(source, end);
      if source[end] == '\\' {
        if end + 2 > |source| {
          return |source|;
        }
        end := end + 2;
      } else {
        end := end + 1;
      }
    }
    assert source[end..] == [];
  }

  method ScanWord(source: string, index: nat) returns (end: nat)
    requires index < |source|
    ensures index <= end <= |source| && end == index + WordLength(source[index..])
  {
    end := index;
    while end < |source| && InWord(source[end])
      invariant index <= end <= |source|
      invariant WordLength(source[index..]) == end - index + WordLength(source[end..])
    {
      WordStep(source, index, end);
      end := end + 1;
    }
    assert WordLength(source[end..]) == 0 by { assert end < |source| ==> source[end..][0] == source[end]; }
  }

  // ---- Reading ------------------------------------------------------------------------

  datatype Symbol = Open | Close | Quoted(text: string) | Name(text: string)

  function SymbolOf(piece: string): Symbol
    requires piece != []
  {
    if piece[0] == '(' then Open
    else if piece[0] == ')' then Close
    else if piece[0] == '"' then Quoted(piece)
    else Name(piece)
  }

  /** Whether the piece a text starts with is complete. */
  predicate Complete(s: string)
    requires s != []
  {
    s[0] == '"' ==> QuoteLength(s[1..]).1
  }

  /** The symbols of a line; `None` for an unterminated quotation. */
  function Read(s: string): Option<seq<Symbol>>
    decreases |s|
  {
    if s == [] then Some([])
    else if T.IsSpace(s[0]) then Read(s[1..])
    else if !Complete(s) then None
    else
      var n := PieceLength(s);
      var rest := Read(s[n..]);
      if rest.None? then None else Some([SymbolOf(s[..n])] + rest.value)
  }

  function Both(a: Option<seq<Symbol>>, b: Option<seq<Symbol>>): Option<seq<Symbol>> {
    if a.None? || b.None? then None else Some(a.value + b.value)
  }

  lemma {:induction false} WordStops(a: string, b: string)
    requires b == [] || !InWord(b[0])
    ensures WordLength(a + b) == WordLength(a)
  {
    if a == [] {
      assert a + b == b;
    } else if InWord(a[0]) {
      assert (a + b)[1..] == a[1..] + b;
      WordStops(a[1..], b);
    }
  }

  lemma {:induction false} QuoteStops(a: string, b: string)
    requires QuoteLength(a).1
    ensures QuoteLength(a + b) == QuoteLength(a)
  {
    if a[0] != '"' {
      if a[0] == '\\' {
        assert (a + b)[2..] == a[2..] + b;
        QuoteStops(a[2..], b);
      } else {
        assert (a + b)[1..] == a[1..] + b;
        QuoteStops(a[1..], b);
      }
    }
  }

  lemma {:induction false} PieceStops(a: string, b: string)
    requires a != [] && Complete(a) && (b == [] || !InWord(b[0]))
    ensures Complete(a + b) && PieceLength(a + b) == PieceLength(a)
  {
    assert (a + b)[1..] == a[1..] + b && (a + b)[0] == a[0];
    if a[0] == '"' {
      QuoteStops(a[1..], b);
    } else if InWord(a[0]) {
      WordStops(a, b);
    }
  }

  /** Reading a readable text and then one that does not continue its last atom. */
  lemma {:induction false} ReadConcat(a: string, b: string)
    requires Read(a).Some? && (b == [] || !InWord(b[0]))
    ensures Read(a + b) == Both(Read(a), Read(b))
    decreases |a|
  {
    if a == [] {
      assert a + b == b;
      assert Read(b).Some? ==> [] + Read(b).value == Read(b).value;
    } else if T.IsSpace(a[0]) {
      assert (a + b)[1..] == a[1..] + b;
      ReadConcat(a[1..], b);
    } else {
      PieceStops(a, b);
      ReadPiece(a, b);
    }
  }

  lemma {:induction false} ReadPiece(a: string, b: string)
    requires a != [] && !T.IsSpace(a[0]) && Read(a).Some? && (b == [] || !InWord(b[0]))
    requires Complete(a + b) && PieceLength(a + b) == PieceLength(a)
    ensures Read(a + b) == Both(Read(a), Read(b))
    decreases |a|, 0
  {
    hide Complete, PieceLength, SymbolOf, T.IsSpace, InWord;
    var n := PieceLength(a);
    assert (a + b)[n..] == a[n..] + b && (a + b)[..n] == a[..n] && (a + b)[0] == a[0];
    ReadConcat(a[n..], b);
    if Read(b).Some? {
      assert [SymbolOf(a[..n])] + (Read(a[n..]).value + Read(b).value) == Read(a).value + Read(b).value;
    }
  }

  /** What a name stands for, read. */
  function Meant(m: map<string, string>, x: Symbol): seq<Symbol> {
    if x.Name? && x.text in m && Read(m[x.text]).Some? then Read(m[x.text]).value else [x]
  }

  function Replaced(ts: seq<Symbol>, m: map<string, string>): seq<Symbol> {
    if ts == [] then [] else Meant(m, ts[0]) + Replaced(ts[1..], m)
  }

  ghost predicate Readable(m: map<string, string>) {
    forall a :: a in m ==> Read(m[a]).Some?
  }

  /** A text starting with an atom: the atom is all word characters, and what follows it is not one. */
  lemma {:induction false} WordPiece(s: string)
    requires s != [] && InWord(s[0])
    ensures forall i :: 0 <= i < WordLength(s) ==> InWord(s[i])
    ensures WordLength(s) < |s| ==> !InWord(s[WordLength(s)])
  {
    if |s| > 1 && InWord(s[1]) {
      WordPiece(s[1..]);
      forall i | 0 < i < WordLength(s) ensures InWord(s[i]) { assert s[i] == s[1..][i - 1]; }
    }
  }

  lemma {:induction false} ReadWord(a: string)
    requires a != [] && forall i :: 0 <= i < |a| ==> InWord(a[i])
    ensures Read(a) == Some([Name(a)])
  {
    AllWord(a);
    assert InWord(a[0]);
    assert a[..|a|] == a && a[|a|..] == [];
    assert Read([]) == Some([]) && [Name(a)] + [] == [Name(a)];
  }

  lemma {:induction false} AllWord(a: string)
    requires forall i :: 0 <= i < |a| ==> InWord(a[i])
    ensures WordLength(a) == |a|
  {
    if a != [] { AllWord(a[1..]); }
  }

  lemma {:induction false} SubstituteStart(s: string, m: map<string, string>)
    ensures s == [] ==> Substitute(s, m) == []
    ensures s != [] && !InWord(s[0]) ==> Substitute(s, m) != [] && Substitute(s, m)[0] == s[0]
  {
  }

  /** Reading the substituted text is replacing the names in what was read. */
  lemma {:induction false} ReadSubstitute(s: string, m: map<string, string>)
    requires Readable(m) && Read(s).Some?
    ensures Read(Substitute(s, m)) == Some(Replaced(Read(s).value, m))
    decreases |s|
  {
    if s == [] {
    } else if T.IsSpace(s[0]) {
      ReadSubstitute(s[1..], m);
      assert s[..1] + Substitute(s[1..], m) == Substitute(s, m);
      assert Substitute(s, m)[1..] == Substitute(s[1..], m);
    } else if InWord(s[0]) {
      ReadSubstituteWord(s, m);
    } else {
      ReadSubstituteMark(s, m);
    }
  }

  lemma {:induction false} ReplacedCons(x: Symbol, ts: seq<Symbol>, m: map<string, string>)
    ensures Replaced([x] + ts, m) == Meant(m, x) + Replaced(ts, m)
  {
    assert ([x] + ts)[1..] == ts;
  }

  lemma {:induction false} ReadHead(s: string)
    requires s != [] && !T.IsSpace(s[0]) && Read(s).Some?
    ensures Complete(s) && Read(s[PieceLength(s)..]).Some?
    ensures Read(s).value == [SymbolOf(s[..PieceLength(s)])] + Read(s[PieceLength(s)..]).value
  {
  }

  lemma {:induction false} ReadSubstituteWord(s: string, m: map<string, string>)
    requires Readable(m) && Read(s).Some? && s != [] && InWord(s[0])
    ensures Read(Substitute(s, m)) == Some(Replaced(Read(s).value, m))
    decreases |s|, 0
  {
    hide Read, Replaced;
    ReadHead(s);
    WordPiece(s);
    var n := PieceLength(s);
    var a, rest := s[..n], s[n..];
    assert a[0] == s[0];
    ReadWord(a);
    ReadSubstitute(rest, m);
    SubstituteStart(rest, m);
    assert rest != [] ==> rest[0] == s[n];
    ReadConcat(Value(m, a), Substitute(rest, m));
    ReplacedCons(Name(a), Read(rest).value, m);
  }

  lemma {:induction false} ReadSubstituteMark(s: string, m: map<string, string>)
    requires Readable(m) && Read(s).Some? && s != [] && !InWord(s[0]) && !T.IsSpace(s[0])
    ensures Read(Substitute(s, m)) == Some(Replaced(Read(s).value, m))
    decreases |s|, 0
  {
    hide Read, Replaced;
    ReadHead(s);
    var n := PieceLength(s);
    var a, rest := s[..n], s[n..];
    var out := Substitute(rest, m);
    assert a[0] == s[0];
    ReadSubstitute(rest, m);
    ReplacedCons(SymbolOf(a), Read(rest).value, m);
    assert Meant(m, SymbolOf(a)) == [SymbolOf(a)];
    MarkPiece(s, out);
    assert (a + out)[..n] == a && (a + out)[n..] == out;
    ReadCons(a + out);
  }

  lemma {:induction false} ReadCons(s: string)
    requires s != [] && !T.IsSpace(s[0]) && Complete(s) && Read(s[PieceLength(s)..]).Some?
    ensures Read(s) == Some([SymbolOf(s[..PieceLength(s)])] + Read(s[PieceLength(s)..]).value)
  {
  }

  /** A parenthesis or a complete quotation is read the same whatever follows it. */
  lemma {:induction false} MarkPiece(s: string, out: string)
    requires s != [] && !InWord(s[0]) && !T.IsSpace(s[0]) && Complete(s)
    ensures var n := PieceLength(s); Complete(s[..n] + out) && PieceLength(s[..n] + out) == n
  {
    var n := PieceLength(s);
    var a := s[..n];
    assert (a + out)[0] == s[0] && (a + out)[1..] == a[1..] + out;
    if s[0] == '"' {
      QuotePrefix(s[1..]);
      assert a[1..] == s[1..][..n - 1];
      QuoteStops(a[1..], out);
    }
  }

  lemma {:induction false} QuotePrefix(s: string)
    requires QuoteLength(s).1
    ensures var n := QuoteLength(s).0; QuoteLength(s[..n]) == (n, true)
  {
    var n := QuoteLength(s).0;
    if s[0] == '"' {
    } else if s[0] == '\\' {
      QuotePrefix(s[2..]);
      assert s[..n][2..] == s[2..][..n - 2];
    } else {
      QuotePrefix(s[1..]);
      assert s[..n][1..] == s[1..][..n - 1];
    }
  }

  /** Text that cannot be read stays so. */
  lemma {:induction false} UnreadableStays(s: string, m: map<string, string>)
    requires Readable(m) && Read(s).None?
    ensures Read(Substitute(s, m)).None?
    decreases |s|
  {
    var n := PieceLength(s);
    var rest := s[n..];
    var out := Substitute(rest, m);
    if T.IsSpace(s[0]) {
      UnreadableStays(s[1..], m);
      assert (s[..1] + out)[1..] == out && (s[..1] + out)[0] == s[0];
    } else if InWord(s[0]) {
      UnreadableAfterWord(s, m);
    } else {
      UnreadableAfterMark(s, m);
    }
  }

  lemma {:induction false} UnreadableAfterWord(s: string, m: map<string, string>)
    requires Readable(m) && Read(s).None? && s != [] && InWord(s[0])
    ensures Read(Substitute(s, m)).None?
    decreases |s|, 0
  {
    var n := PieceLength(s);
    var a, rest := s[..n], s[n..];
    WordPiece(s);
    UnreadableStays(rest, m);
    SubstituteStart(rest, m);
    assert a[0] == s[0] && (rest != [] ==> rest[0] == s[n]);
    ReadWord(a);
    ReadConcat(Value(m, a), Substitute(rest, m));
  }

  lemma {:induction false} UnreadableAfterMark(s: string, m: map<string, string>)
    requires Readable(m) && Read(s).None? && s != [] && !InWord(s[0]) && !T.IsSpace(s[0])
    ensures Read(Substitute(s, m)).None?
    decreases |s|, 0
  {
    var n := PieceLength(s);
    var a, out := s[..n], Substitute(s[n..], m);
    assert (a + out)[0] == s[0];
    if Complete(s) {
      UnreadableStays(s[n..], m);
      MarkPiece(s, out);
      assert (a + out)[n..] == out;
    } else {
      OpenQuote(s[1..]);
      assert a + [] == s && s[n..] == [];
    }
  }

  lemma {:induction false} OpenQuote(s: string)
    requires !QuoteLength(s).1
    ensures QuoteLength(s).0 == |s|
  {
    if |s| >= 2 {
      if s[0] == '\\' { OpenQuote(s[2..]); } else { OpenQuote(s[1..]); }
    }
  }

  // ---- What the scanner replaces, written on the text ----------------------------------------

  /** The inside of a quotation: a backslash takes the character after it. */
  predicate QuotedText(s: string)
    decreases |s|
  {
    || s == []
    || (s[0] != '"' && s[0] != '\\' && QuotedText(s[1..]))
    || (|s| >= 2 && s[0] == '\\' && QuotedText(s[2..]))
  }

  lemma {:induction false} QuoteCloses(s: string, rest: string)
    requires QuotedText(s)
    ensures QuoteLength(s + ("\"" + rest)) == (|s| + 1, true)
    ensures QuoteLength(s) == (|s|, false) && QuoteLength(s + "\\") == (|s| + 1, false)
    decreases |s|
  {
    var t := "\"" + rest;
    if s == [] {
      assert s + t == t && s + "\\" == "\\";
    } else if s[0] == '\\' {
      QuoteCloses(s[2..], rest);
      assert (s + t)[2..] == s[2..] + t && (s + "\\")[2..] == s[2..] + "\\";
    } else {
      QuoteCloses(s[1..], rest);
      assert (s + t)[1..] == s[1..] + t && (s + "\\")[1..] == s[1..] + "\\";
    }
  }

  /** A maximal run of characters other than white space, parentheses and quotes is replaced if it is a name of the map. */
  lemma {:induction false} SubstituteAtom(w: string, rest: string, m: map<string, string>)
    requires w != [] && forall i :: 0 <= i < |w| ==> !T.IsSpace(w[i]) && w[i] != '(' && w[i] != ')' && w[i] != '"'
    requires rest == [] || T.IsSpace(rest[0]) || rest[0] == '(' || rest[0] == ')' || rest[0] == '"'
    ensures Substitute(w + rest, m) == (if w in m then m[w] else w) + Substitute(rest, m)
  {
    AllWord(w);
    WordStops(w, rest);
    assert (w + rest)[0] == w[0] && (w + rest)[..|w|] == w && (w + rest)[|w|..] == rest;
  }

  /** White space and parentheses stay. */
  lemma {:induction false} SubstituteGap(c: char, rest: string, m: map<string, string>)
    requires T.IsSpace(c) || c == '(' || c == ')'
    ensures Substitute([c] + rest, m) == [c] + Substitute(rest, m)
  {
    assert ([c] + rest)[..1] == [c] && ([c] + rest)[1..] == rest;
  }

  /** A quotation stays, whatever it contains. */
  lemma {:induction false} SubstituteQuotation(s: string, rest: string, m: map<string, string>)
    requires QuotedText(s)
    ensures Substitute("\"" + s + "\"" + rest, m) == "\"" + s + "\"" + Substitute(rest, m)
  {
    hide QuoteLength;
    QuoteCloses(s, rest);
    var x := "\"" + s + "\"" + rest;
    assert x[1..] == s + ("\"" + rest);
    assert x[..|s| + 2] == "\"" + s + "\"" && x[|s| + 2..] == rest;
  }

  /** And so does one that is never closed. */
  lemma {:induction false} SubstituteUnclosed(s: string, m: map<string, string>)
    requires QuotedText(s)
    ensures Substitute("\"" + s, m) == "\"" + s && Substitute("\"" + s + "\\", m) == "\"" + s + "\\"
  {
    hide QuoteLength;
    QuoteCloses(s, "");
    var x, y := "\"" + s, "\"" + s + "\\";
    assert x[1..] == s && x[..|x|] == x && x[|x|..] == [];
    assert y[1..] == s + "\\" && y[..|y|] == y && y[|y|..] == [];
  }

  // ---- Evaluation ------------------------------------------------------------------------

  /** Any interpretation of applications and quotations. */
  datatype Algebra<!V> = Algebra(apply: seq<V> -> V, quoted: string -> V)

  /** One more value in the innermost argument list. */
  function AddTop<V>(st: seq<seq<V>>, v: V): seq<seq<V>>
    requires st != []
  {
    var n := |st| - 1;
    st[..n] + [st[n] + [v]]
  }

  /** One symbol on a stack of argument lists. */
  function Push<V>(g: Algebra<V>, env: string -> V, x: Symbol, st: seq<seq<V>>): Option<seq<seq<V>>>
    requires st != []
    ensures Push(g, env, x, st).Some? ==> Push(g, env, x, st).value != []
  {
    var n := |st| - 1;
    match x
    case Open => Some(st + [[]])
    case Close => if n == 0 then None else Some(AddTop(st[..n], g.apply(st[n])))
    case Quoted(t) => Some(AddTop(st, g.quoted(t)))
    case Name(t) => Some(AddTop(st, env(t)))
  }

  function Eval<V>(g: Algebra<V>, env: string -> V, ts: seq<Symbol>, st: seq<seq<V>>): Option<seq<seq<V>>>
    requires st != []
    ensures Eval(g, env, ts, st).Some? ==> Eval(g, env, ts, st).value != []
  {
    if ts == [] then Some(st)
    else
      var next := Push(g, env, ts[0], st);
      if next.None? then None else Eval(g, env, ts[1..], next.value)
  }

  /** The values of a balanced text. */
  function Denote<V>(g: Algebra<V>, env: string -> V, ts: seq<Symbol>): Option<seq<V>> {
    var r := Eval(g, env, ts, [[]]);
    if r.Some? && |r.value| == 1 then Some(r.value[0]) else None
  }

  /** `st` on top of an unfinished evaluation. */
  function Under<V>(lo: seq<seq<V>>, pre: seq<V>, st: seq<seq<V>>): seq<seq<V>>
    requires st != []
  {
    lo + [pre + st[0]] + st[1..]
  }

  lemma {:induction false} PushUnder<V>(g: Algebra<V>, env: string -> V, x: Symbol, lo: seq<seq<V>>, pre: seq<V>, st: seq<seq<V>>)
    requires st != [] && Push(g, env, x, st).Some?
    ensures Push(g, env, x, Under(lo, pre, st)) == Some(Under(lo, pre, Push(g, env, x, st).value))
  {
    hide AddTop;
    var n, u := |st| - 1, Under(lo, pre, st);
    assert |u| == |lo| + |st|;
    match x {
      case Open => assert u + [[]] == Under(lo, pre, st + [[]]);
      case Close =>
        assert u[|u| - 1] == st[n] && u[..|u| - 1] == Under(lo, pre, st[..n]);
        AddUnder(lo, pre, st[..n], g.apply(st[n]));
      case Quoted(t) => AddUnder(lo, pre, st, g.quoted(t));
      case Name(t) => AddUnder(lo, pre, st, env(t));
    }
  }

  lemma {:induction false} AddUnder<V>(lo: seq<seq<V>>, pre: seq<V>, st: seq<seq<V>>, v: V)
    requires st != []
    ensures AddTop(Under(lo, pre, st), v) == Under(lo, pre, AddTop(st, v))
  {
    var n := |st| - 1;
    assert n == 0 ==> pre + st[0] + [v] == pre + (st[0] + [v]);
  }

  lemma {:induction false} EvalUnder<V>(g: Algebra<V>, env: string -> V, ts: seq<Symbol>, lo: seq<seq<V>>, pre: seq<V>, st: seq<seq<V>>)
    requires st != [] && Eval(g, env, ts, st).Some?
    ensures Eval(g, env, ts, Under(lo, pre, st)) == Some(Under(lo, pre, Eval(g, env, ts, st).value))
    decreases |ts|
  {
    hide Push, Under;
    if ts != [] {
      PushUnder(g, env, ts[0], lo, pre, st);
      EvalUnder(g, env, ts[1..], lo, pre, Push(g, env, ts[0], st).value);
    }
  }

  lemma {:induction false} EvalConcat<V>(g: Algebra<V>, env: string -> V, a: seq<Symbol>, b: seq<Symbol>, st: seq<seq<V>>)
    requires st != []
    ensures Eval(g, env, a + b, st) == if Eval(g, env, a, st).None? then None else Eval(g, env, b, Eval(g, env, a, st).value)
    decreases |a|
  {
    hide Push;
    if a == [] {
      assert a + b == b;
    } else {
      assert (a + b)[1..] == a[1..] + b;
      if Push(g, env, a[0], st).Some? { EvalConcat(g, env, a[1..], b, Push(g, env, a[0], st).value); }
    }
  }

  /** A text that denotes one value adds that value to any argument list, as a name of that value does. */
  lemma {:induction false} EvalTerm<V>(g: Algebra<V>, env: string -> V, ts: seq<Symbol>, v: V, st: seq<seq<V>>)
    requires st != [] && Denote(g, env, ts) == Some([v])
    ensures Eval(g, env, ts, st) == Some(AddTop(st, v))
  {
    hide Eval;
    var n := |st| - 1;
    EvalUnder(g, env, ts, st[..n], st[n], [[]]);
    assert st[n] + [] == st[n];
    assert Under(st[..n], st[n], [[]]) == st by { var one: seq<seq<V>> := [[]]; assert one[1..] == []; }
    assert Under(st[..n], st[n], [[v]]) == st[..n] + [st[n] + [v]] by { assert [[v]][1..] == []; }
  }

  /** `env` gives every substituted name the value of its term in `base`, and other names their own. */
  ghost predicate Resolves<V>(g: Algebra<V>, base: string -> V, env: string -> V, m: map<string, string>) {
    && Readable(m)
    && (forall a :: a in m ==> Denote(g, base, Read(m[a]).value) == Some([env(a)]))
    && (forall a: string :: a !in m ==> env(a) == base(a))
  }

  lemma {:induction false} MeantStep<V>(g: Algebra<V>, base: string -> V, env: string -> V, m: map<string, string>, x: Symbol, st: seq<seq<V>>)
    requires st != [] && Resolves(g, base, env, m)
    ensures Eval(g, base, Meant(m, x), st) == Push(g, env, x, st)
  {
    hide Read, Denote;
    if x.Name? && x.text in m {
      EvalTerm(g, base, Read(m[x.text]).value, env(x.text), st);
    } else {
      assert Meant(m, x) == [x];
      EvalOne(g, base, x, st);
    }
  }

  lemma {:induction false} EvalOne<V>(g: Algebra<V>, env: string -> V, x: Symbol, st: seq<seq<V>>)
    requires st != []
    ensures Eval(g, env, [x], st) == Push(g, env, x, st)
  {
    assert [x][1..] == [];
  }

  /** The substitution lemma on symbols. */
  lemma {:induction false} EvalReplaced<V>(g: Algebra<V>, base: string -> V, env: string -> V, m: map<string, string>, ts: seq<Symbol>, st: seq<seq<V>>)
    requires st != [] && Resolves(g, base, env, m)
    ensures Eval(g, base, Replaced(ts, m), st) == Eval(g, env, ts, st)
    decreases |ts|
  {
    hide Resolves, Push, Meant;
    if ts != [] {
      MeantStep(g, base, env, m, ts[0], st);
      EvalConcat(g, base, Meant(m, ts[0]), Replaced(ts[1..], m), st);
      if Push(g, env, ts[0], st).Some? {
        EvalReplaced(g, base, env, m, ts[1..], Push(g, env, ts[0], st).value);
      }
    }
  }

  /** The substituted text denotes in the outer environment what the text denotes under the bindings. */
  lemma {:induction false} SubstitutionPreservesMeaning<V>(g: Algebra<V>, base: string -> V, env: string -> V, m: map<string, string>, s: string)
    requires Resolves(g, base, env, m) && Read(s).Some?
    ensures Read(Substitute(s, m)).Some?
    ensures Denote(g, base, Read(Substitute(s, m)).value) == Denote(g, env, Read(s).value)
  {
    hide Eval, Read, Substitute, Replaced;
    ReadSubstitute(s, m);
    EvalReplaced(g, base, env, m, Read(s).value, [[]]);
  }
}
