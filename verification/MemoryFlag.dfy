/**
 The memory-limit option as the launcher writes it and the native engines read
 it.  Reading gives back the command and the limit exactly when the command holds
 no such option of its own and the limit is a positive 64-bit number.
 */
module MemoryFlag {
  import opened Prelude
  import opened Decimal

  /** An argument; `Raw` is one that is not valid text. */
  datatype Arg = Text(text: string) | Raw(bytes: seq<bv8>)

  const OPTION := "--memory-limit-bytes"
  const STOP := Text("--")
  const LIMIT := 0x1_0000_0000_0000_0000

  // ---- Writing ---------------------------------------------------------------------------

  function Flag(n: int): Arg { Text(OPTION + "=" + Format(n)) }

  /** The option goes right after the executable. */
  function Command(command: seq<Arg>, limit: Option<int>): seq<Arg> {
    if limit.None? then command
    else
      var k := if |command| < 1 then |command| else 1;
      command[..k] + [Flag(limit.value)] + command[k..]
  }

  /**
   Without a limit the command is passed on as it is.  With one, the option stands right behind the executable and the
   arguments follow unchanged; and the native engine reads back command and limit exactly when it can.
   */
  method NativeMemoryCommand(command: seq<Arg>, limit: Option<int>) returns (args: seq<Arg>)
    ensures limit.None? ==> args == command
    ensures limit.Some? && command == [] ==> args == [Text("--memory-limit-bytes=" + Format(limit.value))]
    ensures limit.Some? && command != [] ==>
              && |args| == |command| + 1 && args[0] == command[0] && args[1] == Text("--memory-limit-bytes=" + Format(limit.value))
              && args[2..] == command[1..]
    ensures Parse(args) == Some((command, limit)) <==> command != [] && Unflagged(command[1..]) && InRange(limit)
  {
    hide Parse, Unflagged, Format;
    args := command;
    assert OPTION + "=" == "--memory-limit-bytes=";
    if limit.Some? {
      var k := if |args| < 1 then |args| else 1;
      args := args[..k] + [Flag(limit.value)] + args[k..];
    }
    assert args == Command(command, limit);
    RoundTrip(command, limit);
  }

  // ---- Reading ---------------------------------------------------------------------------

  /** The value glued to the option's name. */
  function Glued(arg: Arg): Option<Arg> {
    if arg.Text? && |arg.text| > |OPTION| && arg.text[..|OPTION| + 1] == OPTION + "=" then Some(Text(arg.text[|OPTION| + 1..]))
    else None
  }

  /** A positive number below two to the sixty-fourth. */
  function Number(value: Arg): Option<nat> {
    if value.Text? && AllDigits(value.text) && 0 < ValueOf(value.text) < LIMIT then Some(ValueOf(value.text)) else None
  }

  /** The arguments after the executable, with the limit read so far. */
  function Read(rest: seq<Arg>, limit: Option<nat>): Option<(seq<Arg>, Option<nat>)>
    decreases |rest|
  {
    if rest == [] || rest[0] == STOP then Some((rest, limit))
    else if rest[0] == Text(OPTION) then
      if |rest| < 2 || limit.Some? || Number(rest[1]).None? then None
      else Read(rest[2..], Number(rest[1]))
    else if Glued(rest[0]).Some? then
      if limit.Some? || Number(Glued(rest[0]).value).None? then None
      else Read(rest[1..], Number(Glued(rest[0]).value))
    else
      var r := Read(rest[1..], limit);
      if r.None? then None else Some(([rest[0]] + r.value.0, r.value.1))
  }

  function Parse(args: seq<Arg>): Option<(seq<Arg>, Option<nat>)> {
    if args == [] then None
    else
      var r := Read(args[1..], None);
      if r.None? then None else Some(([args[0]] + r.value.0, r.value.1))
  }

  method ParseArguments(args: seq<Arg>) returns (r: Option<(seq<Arg>, Option<nat>)>)
    ensures r == Parse(args)
  {
    hide Glued, Number;
    if args == [] {
      return None;
    }
    var filtered, limit: Option<nat>, i := [args[0]], None, 1;
    while i < |args|
      invariant 1 <= i <= |args|
      invariant Parse(args) == Kept(filtered, Read(args[i..], limit))
      decreases |args| - i
    {
      var arg := args[i];
      var rest := args[i..];
      assert rest[1..] == args[i + 1..] && (i + 2 <= |args| ==> rest[2..] == args[i + 2..]);
      if arg == STOP {
        return Some((filtered + args[i..], limit));
      }
      var value := Glued(arg);
      var next := i + 1;
      if arg == Text(OPTION) {
        if i + 1 >= |args| {
          return None;
        }
        value := Some(args[i + 1]);
        next := i + 2;
      }
      if value.Some? {
        if limit.Some? || Number(value.value).None? {
          return None;
        }
        limit := Number(value.value);
      } else {
        KeepOne(filtered, arg, Read(args[i + 1..], limit));
        filtered := filtered + [arg];
      }
      i := next;
    }
    assert args[i..] == [];
    assert filtered + [] == filtered;
    r := Some((filtered, limit));
  }

  function Kept(filtered: seq<Arg>, r: Option<(seq<Arg>, Option<nat>)>): Option<(seq<Arg>, Option<nat>)> {
    if r.None? then None else Some((filtered + r.value.0, r.value.1))
  }

  lemma {:induction false} KeepOne(filtered: seq<Arg>, arg: Arg, r: Option<(seq<Arg>, Option<nat>)>)
    ensures Kept(filtered, if r.None? then None else Some(([arg] + r.value.0, r.value.1))) == Kept(filtered + [arg], r)
  {
    if r.Some? { assert filtered + ([arg] + r.value.0) == filtered + [arg] + r.value.0; }
  }

  // ---- Reading back what was written -------------------------------------------------------

  /** No argument before the first stop is the option. */
  predicate Unflagged(rest: seq<Arg>) {
    rest == [] || rest[0] == STOP || (rest[0] != Text(OPTION) && Glued(rest[0]).None? && Unflagged(rest[1..]))
  }

  /** Without the option everything is kept, and only then. */
  lemma {:induction false} ReadUnflagged(rest: seq<Arg>, limit: Option<nat>)
    ensures Read(rest, limit) == Some((rest, limit)) <==> Unflagged(rest)
    ensures Read(rest, limit).Some? && !Unflagged(rest) ==> |Read(rest, limit).value.0| < |rest|
    ensures limit.Some? && !Unflagged(rest) ==> Read(rest, limit).None?
    decreases |rest|
  {
    hide Glued, Number;
    if rest != [] && rest[0] != STOP {
      if rest[0] == Text(OPTION) {
        if |rest| >= 2 && limit.None? && Number(rest[1]).Some? { ReadShorter(rest[2..], Number(rest[1])); }
      } else if Glued(rest[0]).Some? {
        if limit.None? && Number(Glued(rest[0]).value).Some? { ReadShorter(rest[1..], Number(Glued(rest[0]).value)); }
      } else {
        ReadUnflagged(rest[1..], limit);
        assert rest == [rest[0]] + rest[1..];
      }
    }
  }

  lemma {:induction false} ReadShorter(rest: seq<Arg>, limit: Option<nat>)
    ensures Read(rest, limit).Some? ==> |Read(rest, limit).value.0| <= |rest|
    decreases |rest|
  {
    hide Glued, Number;
    if rest != [] && rest[0] != STOP {
      if rest[0] == Text(OPTION) {
        if |rest| >= 2 && limit.None? && Number(rest[1]).Some? { ReadShorter(rest[2..], Number(rest[1])); }
      } else if Glued(rest[0]).Some? {
        if limit.None? && Number(Glued(rest[0]).value).Some? { ReadShorter(rest[1..], Number(Glued(rest[0]).value)); }
      } else {
        ReadShorter(rest[1..], limit);
      }
    }
  }

  /** The written option is read as its number, if it is one. */
  lemma {:induction false} FlagReads(n: int)
    ensures Flag(n) != STOP && Flag(n) != Text(OPTION) && Glued(Flag(n)).Some?
    ensures Number(Glued(Flag(n)).value) == if 0 < n < LIMIT then Some(n) else None
  {
    hide Digits, AllDigits, ValueOf;
    var f := Flag(n).text;
    assert f[..|OPTION| + 1] == OPTION + "=" && f[|OPTION| + 1..] == Format(n);
    assert |f| > |OPTION| + 0 && f != OPTION && f != "--" by { assert |f| >= |OPTION| + 1; }
    if n < 0 {
      NegativeIsNoDigits(n);
    } else {
      ReadsBack(n);
    }
  }

  predicate InRange(limit: Option<int>) { limit.Some? ==> 0 < limit.value < LIMIT }

  lemma {:induction false} WithFlag(command: seq<Arg>, n: int)
    requires command != []
    ensures
      var r := if 0 < n < LIMIT then Read(command[1..], Some(n)) else None;
      Parse(Command(command, Some(n))) == if r.None? then None else Some(([command[0]] + r.value.0, r.value.1))
  {
    hide Glued, Number;
    FlagReads(n);
    var args := Command(command, Some(n));
    assert args == [command[0]] + ([Flag(n)] + command[1..]) by { assert command[..1] == [command[0]]; }
    assert args[1..] == [Flag(n)] + command[1..] && args[1..][1..] == command[1..];
  }

  lemma {:induction false} TailOf(command: seq<Arg>, tail: seq<Arg>)
    requires command != []
    ensures [command[0]] + tail == command <==> tail == command[1..]
  {
    assert command == [command[0]] + command[1..];
    assert ([command[0]] + tail)[1..] == tail;
  }

  /** Writing then reading gives back command and limit, exactly in the cases the option allows. */
  lemma {:induction false} RoundTrip(command: seq<Arg>, limit: Option<int>)
    ensures Parse(Command(command, limit)) == Some((command, limit)) <==> command != [] && Unflagged(command[1..]) && InRange(limit)
  {
    hide Read, Unflagged, Flag, Glued, Number;
    if command == [] {
      EmptyCommand(limit);
    } else if limit.None? {
      ReadUnflagged(command[1..], None);
      var r := Read(command[1..], None);
      if r.Some? { TailOf(command, r.value.0); }
    } else {
      var n := limit.value;
      WithFlag(command, n);
      if 0 < n < LIMIT {
        ReadUnflagged(command[1..], Some(n));
        var r := Read(command[1..], Some(n));
        if r.Some? { TailOf(command, r.value.0); }
      }
    }
  }

  /** An empty command does not come back. */
  lemma {:induction false} EmptyCommand(limit: Option<int>)
    ensures Parse(Command([], limit)) != Some(([], limit))
  {
    hide Read;
    var args := Command([], limit);
    if args != [] {
      var r := Read(args[1..], None);
      assert r.Some? ==> |[args[0]] + r.value.0| > 0;
    }
  }

  // ---- What is read, written on the arguments -------------------------------------------------

  /** The option with its value, glued to it or in the next argument. */
  ghost predicate Spells(w: seq<Arg>, n: nat) {
    exists d :: AllDigits(d) && ValueOf(d) == n && 0 < n < 0x1_0000_0000_0000_0000 && Spelled(w, d)
  }

  predicate Spelled(w: seq<Arg>, d: string) {
    w == [Text("--memory-limit-bytes=" + d)] || w == [Text("--memory-limit-bytes"), Text(d)]
  }

  /** Neither the stop nor the option. */
  predicate Ordinary(arg: Arg) {
    arg.Text? ==> && arg.text != "--" && arg.text != "--memory-limit-bytes"
                  && !(|arg.text| >= 21 && arg.text[..21] == "--memory-limit-bytes=")
  }

  predicate AllOrdinary(a: seq<Arg>) { forall i :: 0 <= i < |a| ==> Ordinary(a[i]) }

  /** Ordinary arguments, then a stop and anything, or nothing. */
  ghost predicate OptionFree(rest: seq<Arg>) {
    exists k :: 0 <= k <= |rest| && AllOrdinary(rest[..k]) && (k == |rest| || rest[k] == Text("--"))
  }

  lemma {:induction false} OrdinaryIs(arg: Arg)
    ensures Ordinary(arg) <==> arg != STOP && arg != Text(OPTION) && Glued(arg).None?
  {
    assert OPTION + "=" == "--memory-limit-bytes=" && |OPTION| == 20;
  }

  lemma {:induction false} UnflaggedIsFree(rest: seq<Arg>)
    ensures Unflagged(rest) <==> OptionFree(rest)
  {
    hide Ordinary, Glued;
    if rest == [] || rest[0] == STOP {
      assert AllOrdinary(rest[..0]);
    } else {
      OrdinaryIs(rest[0]);
      UnflaggedIsFree(rest[1..]);
      if OptionFree(rest) {
        var k :| 0 <= k <= |rest| && AllOrdinary(rest[..k]) && (k == |rest| || rest[k] == Text("--"));
        assert k > 0 && rest[..k][0] == rest[0];
        var later := rest[1..][..k - 1];
        forall i | 0 <= i < |later| ensures Ordinary(later[i]) { assert later[i] == rest[..k][i + 1]; }
        assert AllOrdinary(later);
      }
      if Unflagged(rest) {
        var k :| 0 <= k <= |rest[1..]| && AllOrdinary(rest[1..][..k]) && (k == |rest[1..]| || rest[1..][k] == Text("--"));
        var before := rest[..k + 1];
        forall i | 0 <= i < |before| ensures Ordinary(before[i]) { if i > 0 { assert before[i] == rest[1..][..k][i - 1]; } }
        assert AllOrdinary(before);
      }
    }
  }

  lemma {:induction false} SpelledReads(w: seq<Arg>, b: seq<Arg>, n: nat)
    requires Spells(w, n)
    ensures Read(w + b, None) == Read(b, Some(n))
  {
    hide ValueOf;
    var d :| AllDigits(d) && ValueOf(d) == n && 0 < n < LIMIT && Spelled(w, d);
    var text := "--memory-limit-bytes=" + d;
    assert OPTION + "=" == "--memory-limit-bytes=" && text[..21] == "--memory-limit-bytes=" && text[21..] == d;
    if w == [Text(text)] {
      assert (w + b)[0] == Text(text) && (w + b)[1..] == b;
      assert Glued(Text(text)) == Some(Text(d)) && text != OPTION && text != "--";
    } else {
      assert (w + b)[0] == Text(OPTION) && (w + b)[1] == Text(d) && (w + b)[2..] == b;
    }
  }

  lemma {:induction false} OrdinaryReads(a: seq<Arg>, rest: seq<Arg>)
    requires AllOrdinary(a)
    ensures Read(a + rest, None) == Kept(a, Read(rest, None))
  {
    hide Ordinary, Glued, Number;
    if a == [] {
      assert a + rest == rest;
      KeptNothing(Read(rest, None));
    } else {
      OrdinaryIs(a[0]);
      assert (a + rest)[1..] == a[1..] + rest && (a + rest)[0] == a[0];
      OrdinaryReads(a[1..], rest);
      assert a == [a[0]] + a[1..];
      KeepOne([], a[0], Kept(a[1..], Read(rest, None)));
      KeepAll([a[0]], a[1..], Read(rest, None));
      KeptNothing(Read(a + rest, None));
      assert [] + [a[0]] == [a[0]];
    }
  }

  lemma {:induction false} KeptNothing(r: Option<(seq<Arg>, Option<nat>)>)
    ensures Kept([], r) == r
  {
    if r.Some? { assert [] + r.value.0 == r.value.0; }
  }

  lemma {:induction false} KeepAll(a: seq<Arg>, b: seq<Arg>, r: Option<(seq<Arg>, Option<nat>)>)
    ensures Kept(a, Kept(b, r)) == Kept(a + b, r)
  {
    if r.Some? { assert a + (b + r.value.0) == a + b + r.value.0; }
  }

  /** What `Read` returns when the option is there. */
  ghost predicate Taken(rest: seq<Arg>, out: seq<Arg>, n: nat) {
    exists a, w, b :: AllOrdinary(a) && Spells(w, n) && OptionFree(b) && rest == a + w + b && out == a + b
  }

  lemma {:induction false} TakenIsRead(a: seq<Arg>, w: seq<Arg>, b: seq<Arg>, n: nat)
    requires AllOrdinary(a) && Spells(w, n) && OptionFree(b)
    ensures Read(a + w + b, None) == Some((a + b, Some(n)))
  {
    hide Spells, OptionFree, Read, AllOrdinary;
    assert a + w + b == a + (w + b);
    OrdinaryReads(a, w + b);
    SpelledReads(w, b, n);
    UnflaggedIsFree(b);
    ReadUnflagged(b, Some(n));
  }

  lemma {:induction false} SpelledHere(rest: seq<Arg>, k: nat, d: string, n: nat)
    requires k <= |rest| && Spelled(rest[..k], d) && AllDigits(d) && n == ValueOf(d) && 0 < n < LIMIT && OptionFree(rest[k..])
    ensures Taken(rest, rest[k..], n)
  {
    hide OptionFree, AllDigits, ValueOf, Spelled;
    var a: seq<Arg>, w, b := [], rest[..k], rest[k..];
    assert rest == a + w + b && b == a + b && AllOrdinary(a) && Spells(w, n);
  }

  lemma {:induction false} ReadIsTaken(rest: seq<Arg>)
    requires Read(rest, None).Some?
    ensures
      var r := Read(rest, None).value;
      if r.1.None? then OptionFree(rest) && r.0 == rest else Taken(rest, r.0, r.1.value)
    decreases |rest|
  {
    hide OptionFree, Taken, AllDigits, ValueOf;
    if rest == [] || rest[0] == STOP {
      UnflaggedIsFree(rest);
    } else if rest[0] == Text(OPTION) {
      ReadAfter(rest[2..], Number(rest[1]).value);
      assert rest[..2] == [rest[0], rest[1]];
      SpelledHere(rest, 2, rest[1].text, Number(rest[1]).value);
    } else if Glued(rest[0]).Some? {
      var d := Glued(rest[0]).value;
      ReadAfter(rest[1..], Number(d).value);
      GluedSpells(rest[0]);
      assert rest[..1] == [rest[0]];
      SpelledHere(rest, 1, d.text, Number(d).value);
    } else {
      ReadIsTakenLater(rest);
    }
  }

  lemma {:induction false} GluedSpells(arg: Arg)
    requires Glued(arg).Some?
    ensures arg == Text("--memory-limit-bytes=" + Glued(arg).value.text)
  {
    assert OPTION + "=" == "--memory-limit-bytes=";
    assert arg.text == arg.text[..|OPTION| + 1] + arg.text[|OPTION| + 1..];
  }

  /** After the option nothing else is taken out. */
  lemma {:induction false} ReadAfter(rest: seq<Arg>, n: nat)
    requires Read(rest, Some(n)).Some?
    ensures Read(rest, Some(n)) == Some((rest, Some(n))) && OptionFree(rest)
  {
    hide Read, Unflagged, OptionFree;
    ReadUnflagged(rest, Some(n));
    UnflaggedIsFree(rest);
  }

  lemma {:induction false} ReadIsTakenLater(rest: seq<Arg>)
    requires rest != [] && rest[0] != STOP && rest[0] != Text(OPTION) && Glued(rest[0]).None? && Read(rest, None).Some?
    ensures
      var r := Read(rest, None).value;
      if r.1.None? then OptionFree(rest) && r.0 == rest else Taken(rest, r.0, r.1.value)
    decreases |rest|, 0
  {
    hide OptionFree, Glued, Number, Spells, Ordinary;
    ReadIsTaken(rest[1..]);
    OrdinaryIs(rest[0]);
    var r := Read(rest[1..], None).value;
    assert rest == [rest[0]] + rest[1..];
    if r.1.None? {
      UnflaggedIsFree(rest[1..]);
      UnflaggedIsFree(rest);
    } else {
      var a, w, b :| AllOrdinary(a) && Spells(w, r.1.value) && OptionFree(b) && rest[1..] == a + w + b && r.0 == a + b;
      assert rest == ([rest[0]] + a) + w + b && [rest[0]] + r.0 == ([rest[0]] + a) + b;
      assert AllOrdinary([rest[0]] + a);
    }
  }

  /**
   Parsing succeeds exactly on two kinds of argument lists.  Without the option before the first stop, everything is
   returned and there is no limit; with it once, spelled either way and with a positive 64-bit number, everything else is
   returned, in order, with that limit.
   */
  lemma {:induction false} ParseIff(args: seq<Arg>, command: seq<Arg>, limit: Option<nat>)
    ensures Parse(args) == Some((command, limit)) <==>
            && args != [] && command != [] && command[0] == args[0]
            && if limit.None? then OptionFree(args[1..]) && command == args else Taken(args[1..], command[1..], limit.value)
  {
    hide Read, OptionFree, Taken;
    if Parse(args) == Some((command, limit)) {
      ReadIsTaken(args[1..]);
      assert command[1..] == Read(args[1..], None).value.0;
      assert args == [args[0]] + args[1..];
    }
    if args != [] && command != [] && command[0] == args[0] {
      assert command == [command[0]] + command[1..];
      if limit.None? && OptionFree(args[1..]) && command == args {
        UnflaggedIsFree(args[1..]);
        ReadUnflagged(args[1..], None);
      }
      if limit.Some? && Taken(args[1..], command[1..], limit.value) { TakenParses(args[1..], command[1..], limit.value); }
    }
  }

  lemma {:induction false} TakenParses(rest: seq<Arg>, out: seq<Arg>, n: nat)
    requires Taken(rest, out, n)
    ensures Read(rest, None) == Some((out, Some(n)))
  {
    hide Spells, OptionFree, Read, AllOrdinary;
    var a, w, b :| AllOrdinary(a) && Spells(w, n) && OptionFree(b) && rest == a + w + b && out == a + b;
    TakenIsRead(a, w, b, n);
  }
}
