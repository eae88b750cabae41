/**
 * The emergency-command scanner that runs on every byte received from the
 * display link, inside the receive interrupt. It recognises `M108`, `M112`
 * and `M410` at the start of a line (after optional spaces and an optional
 * `N<line number>`), and fires the matching effect when the line ends.
 *
 * `Step` is the transition of the firmware's switch; `Run` folds it over a
 * byte stream. `Classify` is an independent, declarative description of the
 * state reached after a line prefix, and `RunLine` proves the two agree.
 */
module EmergencyParser {
  import opened Bits
  import opened Wrappers

  datatype State = Reset | LineNumber | M | M1 | M10 | M108 | M11 | M112 | M4 | M41 | M410 | Ignore

  /** The global effects a completed command triggers. */
  datatype Effect =
    | ClearWaits  // M108: wait_for_user = wait_for_heatup = false
    | KillM112    // M112: kill_type = M112_KILL, then kill()
    | QuickStop   // M410: quickstop_stepper()

  const NL: byte := 10

  predicate IsDigit(c: byte)
  {
    Ch('0') <= c <= Ch('9')
  }

  /** The three states in which a whole command has been recognised. */
  predicate Completed(s: State)
  {
    s == M108 || s == M112 || s == M410
  }

  function Fired(s: State): Effect
    requires Completed(s)
  {
    match s
    case M108 => ClearWaits
    case M112 => KillM112
    case M410 => QuickStop
  }

  function OptSeq(e: Option<Effect>): seq<Effect>
  {
    if e.Some? then [e.value] else []
  }

  /** One transition of the scanner on byte c, and the effect it fires, if any. */
  function Step(s: State, c: byte): (State, Option<Effect>)
  {
    match s
    case Reset =>
      (if c == Ch(' ') then Reset
       else if c == Ch('N') then LineNumber
       else if c == Ch('M') then M
       else Ignore, None)
    case LineNumber =>
      (if IsDigit(c) || c == Ch('-') || c == Ch(' ') then LineNumber
       else if c == Ch('M') then M
       else Ignore, None)
    case M =>
      (if c == Ch(' ') then M
       else if c == Ch('1') then M1
       else if c == Ch('4') then M4
       else Ignore, None)
    case M1 =>
      (if c == Ch('0') then M10 else if c == Ch('1') then M11 else Ignore, None)
    case M10 => (if c == Ch('8') then M108 else Ignore, None)
    case M11 => (if c == Ch('2') then M112 else Ignore, None)
    case M4 => (if c == Ch('1') then M41 else Ignore, None)
    case M41 => (if c == Ch('0') then M410 else Ignore, None)
    case Ignore => (if c == NL then Reset else Ignore, None)
    case M108 | M112 | M410 =>
      if c == NL then (Reset, Some(Fired(s))) else (s, None)
  }

  /** The final state and the effects fired, in order, after feeding `input` from state s. */
  function Run(s: State, input: seq<byte>): (State, seq<Effect>)
    decreases |input|
  {
    if input == [] then (s, [])
    else
      var st := Step(s, input[0]);
      var rest := Run(st.0, input[1..]);
      (rest.0, if st.1.Some? then [st.1.value] + rest.1 else rest.1)
  }

  predicate NoNewline(l: seq<byte>)
  {
    forall i :: 0 <= i < |l| ==> l[i] != NL
  }

  // ----- declarative description of a line prefix -----

  function SkipSpaces(l: seq<byte>): (r: seq<byte>)
    ensures |r| <= |l|
  {
    if l != [] && l[0] == Ch(' ') then SkipSpaces(l[1..]) else l
  }

  function SkipLineNumber(l: seq<byte>): (r: seq<byte>)
    ensures |r| <= |l|
  {
    if l != [] && (IsDigit(l[0]) || l[0] == Ch('-') || l[0] == Ch(' ')) then SkipLineNumber(l[1..]) else l
  }

  predicate StartsWith(b: seq<byte>, p: seq<byte>)
  {
    |p| <= |b| && b[..|p|] == p
  }

  const T108: seq<byte> := [Ch('1'), Ch('0'), Ch('8')]
  const T112: seq<byte> := [Ch('1'), Ch('1'), Ch('2')]
  const T410: seq<byte> := [Ch('4'), Ch('1'), Ch('0')]

  /**
   * The state after the command number text b (what follows `M` and its
   * spaces): a completed command if b starts with one of the three numbers,
   * a partial state if b is a proper prefix of one, Ignore otherwise.
   */
  function TokenState(b: seq<byte>): State
  {
    if StartsWith(b, T108) then M108
    else if StartsWith(b, T112) then M112
    else if StartsWith(b, T410) then M410
    else if b == [] then M
    else if b == [Ch('1')] then M1
    else if b == [Ch('1'), Ch('0')] then M10
    else if b == [Ch('1'), Ch('1')] then M11
    else if b == [Ch('4')] then M4
    else if b == [Ch('4'), Ch('1')] then M41
    else Ignore
  }

  function AfterM(l: seq<byte>): State
  {
    TokenState(SkipSpaces(l))
  }

  function AfterN(l: seq<byte>): State
  {
    var b := SkipLineNumber(l);
    if b == [] then LineNumber
    else if b[0] == Ch('M') then AfterM(b[1..])
    else Ignore
  }

  /** The state reached from Reset after the line prefix l. */
  function Classify(l: seq<byte>): State
  {
    var a := SkipSpaces(l);
    if a == [] then Reset
    else if a[0] == Ch('N') then AfterN(a[1..])
    else if a[0] == Ch('M') then AfterM(a[1..])
    else Ignore
  }

  /** What a whole line l followed by a newline does, starting from Reset. */
  function LineOutcome(l: seq<byte>): (State, seq<Effect>)
  {
    var s := Classify(l);
    if Completed(s) then (Reset, [Fired(s)])
    else if s == Ignore then (Reset, [])
    else (Ignore, [])
  }

  // ----- lemmas -----

  /** Feeding a + b is feeding a, then b from where a left off. */
  lemma {:induction false} RunAppend(s: State, a: seq<byte>, b: seq<byte>)
    ensures Run(s, a + b).0 == Run(Run(s, a).0, b).0
    ensures Run(s, a + b).1 == Run(s, a).1 + Run(Run(s, a).0, b).1
    decreases |a|
  {
    if a == [] {
      assert a + b == b;
    } else {
      assert (a + b)[0] == a[0];
      assert (a + b)[1..] == a[1..] + b;
      var st := Step(s, a[0]);
      RunAppend(st.0, a[1..], b);
      var e := if st.1.Some? then [st.1.value] else [];
      assert Run(s, a).1 == e + Run(st.0, a[1..]).1;
      assert Run(s, a + b).1 == e + Run(st.0, a[1..] + b).1;
    }
  }

  /** Feeding one more byte is one more Step. */
  lemma RunSnoc(s: State, a: seq<byte>, c: byte)
    ensures Run(s, a + [c]).0 == Step(Run(s, a).0, c).0
    ensures Run(s, a + [c]).1 == Run(s, a).1 + OptSeq(Step(Run(s, a).0, c).1)
  {
    RunAppend(s, a, [c]);
    assert [c][1..] == [];
  }

  lemma {:induction false} RunIgnore(l: seq<byte>)
    requires NoNewline(l)
    ensures Run(Ignore, l) == (Ignore, [])
    decreases |l|
  {
    if l != [] {
      RunIgnore(l[1..]);
    }
  }

  /** A completed command stays completed, firing nothing, until the newline. */
  lemma {:induction false} RunCompleted(s: State, l: seq<byte>)
    requires Completed(s) && NoNewline(l)
    ensures Run(s, l) == (s, [])
    decreases |l|
  {
    if l != [] {
      RunCompleted(s, l[1..]);
    }
  }

  lemma TokenMiss(x: byte, rest: seq<byte>, p: seq<byte>)
    requires |p| > 0 && x != p[0]
    ensures !StartsWith([x] + rest, p)
  {
    assert ([x] + rest)[0] == x;
  }

  lemma {:induction false} RunM10(l: seq<byte>)
    requires NoNewline(l)
    ensures Run(M10, l) == (TokenState([Ch('1'), Ch('0')] + l), [])
  {
    var b := [Ch('1'), Ch('0')] + l;
    if l != [] {
      assert b[..3] == [Ch('1'), Ch('0'), l[0]];
      if l[0] == Ch('8') {
        RunCompleted(M108, l[1..]);
      } else {
        RunIgnore(l[1..]);
        assert !StartsWith(b, T108);
      }
    }
  }

  lemma {:induction false} RunM11(l: seq<byte>)
    requires NoNewline(l)
    ensures Run(M11, l) == (TokenState([Ch('1'), Ch('1')] + l), [])
  {
    var b := [Ch('1'), Ch('1')] + l;
    if l != [] {
      assert b[..3] == [Ch('1'), Ch('1'), l[0]];
      if l[0] == Ch('2') {
        RunCompleted(M112, l[1..]);
      } else {
        RunIgnore(l[1..]);
        assert !StartsWith(b, T112);
      }
    }
  }

  lemma {:induction false} RunM41(l: seq<byte>)
    requires NoNewline(l)
    ensures Run(M41, l) == (TokenState([Ch('4'), Ch('1')] + l), [])
  {
    var b := [Ch('4'), Ch('1')] + l;
    assert b[0] == Ch('4');
    if l != [] {
      assert b[..3] == [Ch('4'), Ch('1'), l[0]];
      if l[0] == Ch('0') {
        RunCompleted(M410, l[1..]);
      } else {
        RunIgnore(l[1..]);
        assert !StartsWith(b, T410);
      }
    }
  }

  lemma {:induction false} RunM1(l: seq<byte>)
    requires NoNewline(l)
    ensures Run(M1, l) == (TokenState([Ch('1')] + l), [])
  {
    var b := [Ch('1')] + l;
    if l != [] {
      assert b[1] == l[0];
      if l[0] == Ch('0') {
        RunM10(l[1..]);
        assert [Ch('1'), Ch('0')] + l[1..] == b;
      } else if l[0] == Ch('1') {
        RunM11(l[1..]);
        assert [Ch('1'), Ch('1')] + l[1..] == b;
      } else {
        RunIgnore(l[1..]);
        assert b[..2] == [Ch('1'), l[0]];
        assert !StartsWith(b, T108) && !StartsWith(b, T112);
      }
    }
  }

  lemma {:induction false} RunM4(l: seq<byte>)
    requires NoNewline(l)
    ensures Run(M4, l) == (TokenState([Ch('4')] + l), [])
  {
    var b := [Ch('4')] + l;
    assert b[0] == Ch('4');
    if l != [] {
      assert b[1] == l[0];
      if l[0] == Ch('1') {
        RunM41(l[1..]);
        assert [Ch('4'), Ch('1')] + l[1..] == b;
      } else {
        RunIgnore(l[1..]);
        assert b[..2] == [Ch('4'), l[0]];
        assert !StartsWith(b, T410);
      }
    }
  }

  /** After `M`, the scanner reaches the state the command text describes. */
  lemma {:induction false} RunAfterM(l: seq<byte>)
    requires NoNewline(l)
    ensures Run(M, l) == (AfterM(l), [])
    decreases |l|
  {
    if l != [] {
      var x := l[0];
      assert l == [x] + l[1..];
      if x == Ch(' ') {
        RunAfterM(l[1..]);
      } else if x == Ch('1') {
        RunM1(l[1..]);
      } else if x == Ch('4') {
        RunM4(l[1..]);
      } else {
        RunIgnore(l[1..]);
        TokenMiss(x, l[1..], T108);
        TokenMiss(x, l[1..], T112);
        TokenMiss(x, l[1..], T410);
      }
    }
  }

  /** After `N`, the scanner skips the line number and then reads the command. */
  lemma {:induction false} RunAfterN(l: seq<byte>)
    requires NoNewline(l)
    ensures Run(LineNumber, l) == (AfterN(l), [])
    decreases |l|
  {
    if l != [] {
      var x := l[0];
      if IsDigit(x) || x == Ch('-') || x == Ch(' ') {
        RunAfterN(l[1..]);
      } else if x == Ch('M') {
        RunAfterM(l[1..]);
      } else {
        RunIgnore(l[1..]);
      }
    }
  }

  /**
   * Within a line, the firmware's state machine is in exactly the state the
   * declarative description gives, and fires nothing.
   */
  lemma {:induction false} RunLine(l: seq<byte>)
    requires NoNewline(l)
    ensures Run(Reset, l) == (Classify(l), [])
    decreases |l|
  {
    if l != [] {
      var x := l[0];
      if x == Ch(' ') {
        RunLine(l[1..]);
      } else if x == Ch('N') {
        RunAfterN(l[1..]);
      } else if x == Ch('M') {
        RunAfterM(l[1..]);
      } else {
        RunIgnore(l[1..]);
      }
    }
  }

  /**
   * A line ending in a newline, from Reset, fires exactly the effect of the
   * command it starts with, if any. A line that is not a command and not
   * already ignored (for instance an empty line, or `M1`) leaves the scanner
   * ignoring the next line.
   */
  lemma LineEffect(l: seq<byte>)
    requires NoNewline(l)
    ensures Run(Reset, l + [NL]) == LineOutcome(l)
  {
    RunLine(l);
    RunSnoc(Reset, l, NL);
    var st := Step(Classify(l), NL);
    assert st == (LineOutcome(l).0, if Completed(Classify(l)) then Some(Fired(Classify(l))) else None);
    assert [] + OptSeq(st.1) == OptSeq(st.1);
  }

  /** An ignored line ends at its newline and fires nothing. */
  lemma IgnoredLine(l: seq<byte>)
    requires NoNewline(l)
    ensures Run(Ignore, l + [NL]) == (Reset, [])
  {
    RunIgnore(l);
    RunSnoc(Ignore, l, NL);
  }

  /** `N0 M112` on a line of its own fires the kill path once. */
  lemma KillLine()
    ensures Run(Reset, [Ch('N'), Ch('0'), Ch(' '), Ch('M'), Ch('1'), Ch('1'), Ch('2'), NL]) == (Reset, [KillM112])
  {
    var l := [Ch('N'), Ch('0'), Ch(' '), Ch('M'), Ch('1'), Ch('1'), Ch('2')];
    assert l + [NL] == [Ch('N'), Ch('0'), Ch(' '), Ch('M'), Ch('1'), Ch('1'), Ch('2'), NL];
    LineEffect(l);
    assert SkipSpaces(l) == l;
    assert SkipLineNumber(l[3..]) == l[3..];
    assert SkipLineNumber(l[2..]) == l[3..];
    assert SkipLineNumber(l[1..]) == l[3..];
    assert l[4..] == T112;
    assert SkipSpaces(T112) == T112;
    assert T112[..3] == T112;
    assert TokenState(T112) == M112;
    assert Classify(l) == M112;
  }

  /** The same command after other text on the line fires nothing. */
  lemma MidLineIgnored(pre: seq<byte>, l: seq<byte>)
    requires NoNewline(pre + l) && pre != [] && pre[0] != Ch(' ') && pre[0] != Ch('N') && pre[0] != Ch('M')
    ensures Run(Reset, pre + l + [NL]) == (Reset, [])
  {
    LineEffect(pre + l);
    assert (pre + l)[0] == pre[0];
  }

  /** An empty line makes the scanner ignore the whole next line, command or not. */
  lemma BlankLineSwallowsNext(l: seq<byte>)
    requires NoNewline(l)
    ensures Run(Reset, [NL] + l + [NL]) == (Reset, [])
  {
    RunAppend(Reset, [NL], l + [NL]);
    assert [NL] + l + [NL] == [NL] + (l + [NL]);
    IgnoredLine(l);
  }
}
