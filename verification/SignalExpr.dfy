/** Strategy expressions, interpreted at a bar and compiled to flags. */
module SignalExpr {
  import opened Wrappers
  import opened Structure
  import opened Kernels
  import opened SeriesCache

  /* The interpreter splits a name on `&`, then on `|`, and asks each atom. The compiler does the
     same split over per-bar flag arrays kept in the cache. */

  // ----- text

  /** What `strip` drops: the white space of ASCII. */
  const SPACES := {
    ' ', '\t', '\n', '\r', '\U{0B}', '\U{0C}', '\U{1C}', '\U{1D}', '\U{1E}', '\U{1F}'
  }
  const PARENS := {'(', ')', ' '}

  function Trim(s: string, drop: set<char>): (t: string)
    ensures forall c :: c in t ==> c in s
    ensures forall c :: c in s && c !in drop ==> c in t
    decreases |s|
  {
    if s == "" then ""
    else if s[0] in drop then
      assert forall c :: c in s ==> c == s[0] || c in s[1..];
      Trim(s[1..], drop)
    else if s[|s| - 1] in drop then
      assert forall c :: c in s ==> c == s[|s| - 1] || c in s[..|s| - 1];
      Trim(s[..|s| - 1], drop)
    else s
  }

  /** The parts of `s` between occurrences of `sep`; at least one, possibly empty. */
  function Split(s: string, sep: char): (parts: seq<string>)
    ensures |parts| >= 1
    ensures forall p :: p in parts ==> forall c :: c in p ==> c in s && c != sep
  {
    if s == "" then [""]
    else
      var rest := Split(s[1..], sep);
      if s[0] == sep then [""] + rest
      else
        var head := [s[0]] + rest[0];
        assert rest[0] in rest && forall c :: c in head ==> c == s[0] || c in rest[0];
        assert forall p :: p in [head] + rest[1..] ==> p == head || p in rest;
        [head] + rest[1..]
  }

  function Join(parts: seq<string>, sep: char): string
    requires |parts| >= 1
  {
    if |parts| == 1 then parts[0] else parts[0] + [sep] + Join(parts[1..], sep)
  }

  /** Nothing is lost in a split: joining the parts gives the text back. */
  lemma {:induction false} SplitJoins(s: string, sep: char)
    ensures Join(Split(s, sep), sep) == s
  {
    if s != "" {
      SplitJoins(s[1..], sep);
      var rest := Split(s[1..], sep);
      if s[0] == sep {
        assert Split(s, sep)[1..] == rest;
      } else {
        assert Split(s, sep)[1..] == rest[1..];
      }
      assert s == [s[0]] + s[1..];
    }
  }

  function Inner(spec: string): string {
    if |spec| <= 2 then "" else spec[1..|spec| - 1]
  }

  /** The split test with its exemption for one pair of enclosing parentheses. */
  predicate SplitsOn(spec: string, op: char) {
    op in spec && !(spec[0] == '(' && spec[|spec| - 1] == ')' && op !in Inner(spec))
  }

  /** The exemption never applies: an operator in `(...)` is always inside it. */
  lemma ExemptionIsDead(spec: string, op: char)
    requires op != '(' && op != ')'
    ensures SplitsOn(spec, op) <==> op in spec
  {
    if op in spec && spec[0] == '(' && spec[|spec| - 1] == ')' {
      var k :| 0 <= k < |spec| && spec[k] == op;
      assert Inner(spec)[k - 1] == op;
    }
  }

  function Operands(spec: string, op: char): (parts: seq<string>)
    ensures |parts| >= 1
    ensures forall p :: p in parts ==> forall c :: c in p ==> c in spec && c != op
  {
    var raw := Split(spec, op);
    assert forall k :: 0 <= k < |raw| ==> raw[k] in raw;
    TrimEach(raw)
  }

  function TrimEach(raw: seq<string>): (parts: seq<string>)
    ensures |parts| == |raw| && forall k :: 0 <= k < |raw| ==> parts[k] == Trim(raw[k], PARENS)
    ensures forall p :: p in parts ==> exists k :: 0 <= k < |raw| && p == Trim(raw[k], PARENS)
  {
    seq(|raw|, k requires 0 <= k < |raw| => Trim(raw[k], PARENS))
  }

  function Level(s: string): nat {
    if '&' in s then 2 else if '|' in s then 1 else 0
  }

  lemma OperandsShrink(expr: string)
    ensures var spec := Trim(expr, SPACES);
            && (SplitsOn(spec, '&') ==> forall p :: p in Operands(spec, '&') ==> Level(p) < Level(expr))
            && (!SplitsOn(spec, '&') && SplitsOn(spec, '|') ==>
                  forall p :: p in Operands(spec, '|') ==> Level(p) < Level(expr))
  {
    ExemptionIsDead(Trim(expr, SPACES), '&');
  }

  // ----- meaning

  /** The names the parser knows. `atom` gives the vectorised ones; `other` is the predicate
      of every remaining name, false for a name that means nothing. */
  datatype Grammar = Grammar(atom: string -> Option<Atom>, other: (string, Tape, int) -> bool)

  ghost predicate Sound(g: Grammar) {
    && (forall s :: g.atom(s).Some? ==> WellFormed(g.atom(s).value))
    && g.atom("") == None
    && (forall tape, i :: !g.other("", tape, i))
  }

  ghost predicate AtomMeaning(g: Grammar, name: string, tape: Tape, i: nat)
    requires Sound(g) && NonzeroCloses(tape) && i < |tape.closes|
  {
    match g.atom(name)
    case Some(a) => AtomHolds(a, tape, i)
    case None => g.other(name, tape, i)
  }

  /** The parsed predicate at bar `i`: all operands of `&`, any operand of `|`. */
  ghost predicate Meaning(g: Grammar, expr: string, tape: Tape, i: nat)
    requires Sound(g) && NonzeroCloses(tape) && i < |tape.closes|
    decreases Level(expr)
  {
    OperandsShrink(expr);
    var spec := Trim(expr, SPACES);
    if SplitsOn(spec, '&') then forall p | p in Operands(spec, '&') :: Meaning(g, p, tape, i)
    else if SplitsOn(spec, '|') then exists p | p in Operands(spec, '|') :: Meaning(g, p, tape, i)
    else AtomMeaning(g, spec, tape, i)
  }

  // ----- the interpreter's own order, and where it fails

  /** One name at bar `i`. An atom may divide by zero. */
  ghost function InterpretName(g: Grammar, name: string, tape: Tape, i: nat): Result<bool, Fault>
    requires Sound(g) && NonzeroCloses(tape) && i < |tape.closes|
  {
    match g.atom(name)
    case Some(a) => if Evaluates(a) then Success(AtomHolds(a, tape, i)) else Failure(ZeroDivision)
    case None => Success(g.other(name, tape, i))
  }

  /** What the interpreter answers at bar `i`: operands from the left, up to the first that decides. */
  ghost function Interpret(g: Grammar, expr: string, tape: Tape, i: nat): Result<bool, Fault>
    requires Sound(g) && NonzeroCloses(tape) && i < |tape.closes|
    decreases Level(expr), 1, 0
  {
    OperandsShrink(expr);
    var spec := Trim(expr, SPACES);
    if SplitsOn(spec, '&') then InterpretParts(g, Operands(spec, '&'), true, tape, i, Level(expr))
    else if SplitsOn(spec, '|') then InterpretParts(g, Operands(spec, '|'), false, tape, i, Level(expr))
    else InterpretName(g, spec, tape, i)
  }

  ghost function InterpretParts(
    g: Grammar, parts: seq<string>, both: bool, tape: Tape, i: nat, level: nat): Result<bool, Fault>
    requires Sound(g) && NonzeroCloses(tape) && i < |tape.closes|
    requires forall p :: p in parts ==> Level(p) < level
    decreases level, 0, |parts|
  {
    if parts == [] then Success(both)
    else
      var first := Interpret(g, parts[0], tape, i);
      if first.Failure? || first.value != both then first
      else InterpretParts(g, parts[1..], both, tape, i, level)
  }

  /** Whatever the interpreter answers is the predicate. */
  lemma {:induction false} InterpretMeans(g: Grammar, expr: string, tape: Tape, i: nat)
    requires Sound(g) && NonzeroCloses(tape) && i < |tape.closes|
    ensures var r := Interpret(g, expr, tape, i); r.Success? ==> (r.value <==> Meaning(g, expr, tape, i))
    decreases Level(expr), 1, 0
  {
    var spec := Trim(expr, SPACES);
    OperandsShrink(expr);
    if SplitsOn(spec, '&') {
      PartsMean(g, Operands(spec, '&'), true, tape, i, Level(expr));
    } else if SplitsOn(spec, '|') {
      PartsMean(g, Operands(spec, '|'), false, tape, i, Level(expr));
    }
  }

  lemma {:induction false} PartsMean(g: Grammar, parts: seq<string>, both: bool, tape: Tape, i: nat, level: nat)
    requires Sound(g) && NonzeroCloses(tape) && i < |tape.closes|
    requires forall p :: p in parts ==> Level(p) < level
    ensures var r := InterpretParts(g, parts, both, tape, i, level);
            r.Success? ==>
              (r.value <==> if both then forall p | p in parts :: Meaning(g, p, tape, i)
                            else exists p | p in parts :: Meaning(g, p, tape, i))
    decreases level, 0, |parts|
  {
    hide Meaning, Interpret, Sound, NonzeroCloses;
    if parts != [] {
      var first, rest := parts[0], parts[1..];
      assert first in parts && parts == [first] + rest;
      assert forall p :: p in parts <==> p == first || p in rest;
      InterpretMeans(g, first, tape, i);
      PartsMean(g, rest, both, tape, i, level);
    }
  }

  /** The interpreter has a definite answer for every name of the expression. */
  ghost predicate Faultless(g: Grammar, expr: string)
    decreases Level(expr)
  {
    OperandsShrink(expr);
    var spec := Trim(expr, SPACES);
    if SplitsOn(spec, '&') then forall p | p in Operands(spec, '&') :: Faultless(g, p)
    else if SplitsOn(spec, '|') then forall p | p in Operands(spec, '|') :: Faultless(g, p)
    else g.atom(spec).Some? ==> Evaluates(g.atom(spec).value)
  }

  /** It fails only over a name of the expression that divides by zero. */
  lemma {:induction false} FaultlessAnswers(g: Grammar, expr: string, tape: Tape, i: nat)
    requires Sound(g) && NonzeroCloses(tape) && i < |tape.closes| && Faultless(g, expr)
    ensures Interpret(g, expr, tape, i).Success?
    decreases Level(expr), 1, 0
  {
    var spec := Trim(expr, SPACES);
    OperandsShrink(expr);
    if SplitsOn(spec, '&') {
      PartsAnswer(g, Operands(spec, '&'), true, tape, i, Level(expr));
    } else if SplitsOn(spec, '|') {
      PartsAnswer(g, Operands(spec, '|'), false, tape, i, Level(expr));
    }
  }

  lemma {:induction false} PartsAnswer(g: Grammar, parts: seq<string>, both: bool, tape: Tape, i: nat, level: nat)
    requires Sound(g) && NonzeroCloses(tape) && i < |tape.closes|
    requires forall p :: p in parts ==> Level(p) < level && Faultless(g, p)
    ensures InterpretParts(g, parts, both, tape, i, level).Success?
    decreases level, 0, |parts|
  {
    hide Interpret, Faultless, Sound, NonzeroCloses;
    if parts != [] {
      var first, rest := parts[0], parts[1..];
      assert first in parts && forall p :: p in rest ==> p in parts;
      FaultlessAnswers(g, first, tape, i);
      PartsAnswer(g, rest, both, tape, i, level);
    }
  }

  // ----- the compiled meaning

  /** The compiled flag at bar `i`: empty operands are dropped, and nothing left is false. */
  ghost predicate Compiled(g: Grammar, expr: string, tape: Tape, i: nat)
    requires Sound(g) && NonzeroCloses(tape) && i < |tape.closes|
    decreases Level(expr)
  {
    OperandsShrink(expr);
    var spec := Trim(expr, SPACES);
    if SplitsOn(spec, '&') then
      && (exists p :: p in Operands(spec, '&') && p != "")
      && forall p | p in Operands(spec, '&') && p != "" :: Compiled(g, p, tape, i)
    else if SplitsOn(spec, '|') then
      exists p | p in Operands(spec, '|') && p != "" :: Compiled(g, p, tape, i)
    else AtomMeaning(g, spec, tape, i)
  }

  /** An operand of a top-level `&` that is blank once its parentheses are stripped. */
  predicate HasEmptyOperand(expr: string) {
    var spec := Trim(expr, SPACES);
    '&' in spec && "" in Operands(spec, '&')
  }

  lemma EmptyMeansFalse(g: Grammar, tape: Tape, i: nat)
    requires Sound(g) && NonzeroCloses(tape) && i < |tape.closes|
    ensures !Meaning(g, "", tape, i)
  {
    assert Trim("", SPACES) == "";
  }

  /** Without `&` the compiler and the interpreter agree: dropping an empty operand of `|`
      drops a false. */
  lemma {:induction false} CompiledWithoutAnd(g: Grammar, expr: string, tape: Tape, i: nat)
    requires Sound(g) && NonzeroCloses(tape) && i < |tape.closes| && '&' !in expr
    ensures Compiled(g, expr, tape, i) <==> Meaning(g, expr, tape, i)
    decreases Level(expr)
  {
    var spec := Trim(expr, SPACES);
    ExemptionIsDead(spec, '&');
    OperandsShrink(expr);
    EmptyMeansFalse(g, tape, i);
    if SplitsOn(spec, '|') {
      forall p | p in Operands(spec, '|')
        ensures Compiled(g, p, tape, i) <==> Meaning(g, p, tape, i)
      {
        assert '&' !in p;
        CompiledWithoutAnd(g, p, tape, i);
      }
    }
  }

  /** Exactly when compiling preserves the meaning at a bar: unless an operand of `&` is
      empty and the others all hold there. The interpreter reads that empty operand as
      false; the compiler has dropped it. */
  lemma CompilerCorrect(g: Grammar, expr: string, tape: Tape, i: nat)
    requires Sound(g) && NonzeroCloses(tape) && i < |tape.closes|
    ensures (Compiled(g, expr, tape, i) <==> Meaning(g, expr, tape, i))
            <==> !(HasEmptyOperand(expr) && Compiled(g, expr, tape, i))
    ensures HasEmptyOperand(expr) ==> !Meaning(g, expr, tape, i)
  {
    var spec := Trim(expr, SPACES);
    ExemptionIsDead(spec, '&');
    EmptyMeansFalse(g, tape, i);
    if '&' in spec {
      var parts := Operands(spec, '&');
      forall p | p in parts
        ensures Compiled(g, p, tape, i) <==> Meaning(g, p, tape, i)
      {
        CompiledWithoutAnd(g, p, tape, i);
      }
      if !HasEmptyOperand(expr) {
        assert parts[0] in parts && parts[0] != "";
      }
    } else if '&' in expr {
      assert false;
    } else {
      CompiledWithoutAnd(g, expr, tape, i);
    }
  }

  /** Nothing in the operand names an atom: it is blank, or blank around every `|`. */
  predicate Nameless(expr: string) {
    var spec := Trim(expr, SPACES);
    if '|' in spec then forall p | p in Operands(spec, '|') :: Trim(p, SPACES) == "" else spec == ""
  }

  /** An operand of `&` is empty, another is not, and each of those names something. */
  predicate LosesAFalse(expr: string) {
    var spec := Trim(expr, SPACES);
    && HasEmptyOperand(expr)
    && (exists p | p in Operands(spec, '&') :: p != "")
    && forall p | p in Operands(spec, '&') && p != "" :: !Nameless(p)
  }

  lemma NamelessIsFalse(g: Grammar, expr: string, tape: Tape, i: nat)
    requires Sound(g) && NonzeroCloses(tape) && i < |tape.closes| && '&' !in expr && Nameless(expr)
    ensures !Compiled(g, expr, tape, i)
  {
    var spec := Trim(expr, SPACES);
    ExemptionIsDead(spec, '|');
    if '|' in spec {
      forall p | p in Operands(spec, '|')
        ensures !Compiled(g, p, tape, i)
      {
        assert '&' !in p && '|' !in p;
      }
    }
  }

  /** The grammar in which every name holds everywhere. */
  ghost function AllTrue(): (g: Grammar)
    ensures Sound(g)
  {
    Grammar(_ => None, (name, _, _) => name != "")
  }

  lemma NamedIsTrue(expr: string, tape: Tape, i: nat)
    requires NonzeroCloses(tape) && i < |tape.closes| && '&' !in expr && !Nameless(expr)
    ensures Compiled(AllTrue(), expr, tape, i)
  {
    var spec := Trim(expr, SPACES);
    ExemptionIsDead(spec, '|');
    if '|' in spec {
      var p :| p in Operands(spec, '|') && Trim(p, SPACES) != "";
      assert '&' !in p && '|' !in p && p != "";
      assert Compiled(AllTrue(), p, tape, i);
    }
  }

  /** Wherever the interpreter answers, under any grammar, the compiled flag is its answer. */
  ghost predicate Preserved(expr: string) {
    forall g, tape, i: nat :: Sound(g) && NonzeroCloses(tape) && i < |tape.closes| ==> AgreeAt(g, expr, tape, i)
  }

  ghost predicate AgreeAt(g: Grammar, expr: string, tape: Tape, i: nat)
    requires Sound(g) && NonzeroCloses(tape) && i < |tape.closes|
  {
    var r := Interpret(g, expr, tape, i);
    r.Success? ==> (Compiled(g, expr, tape, i) <==> r.value)
  }

  lemma {:induction false} AllTrueIsFaultless(expr: string)
    ensures Faultless(AllTrue(), expr)
    decreases Level(expr)
  {
    var spec := Trim(expr, SPACES);
    OperandsShrink(expr);
    if SplitsOn(spec, '&') {
      forall p | p in Operands(spec, '&') ensures Faultless(AllTrue(), p) {
        AllTrueIsFaultless(p);
      }
    } else if SplitsOn(spec, '|') {
      forall p | p in Operands(spec, '|') ensures Faultless(AllTrue(), p) {
        AllTrueIsFaultless(p);
      }
    }
  }

  lemma LossFlags(expr: string, tape: Tape, i: nat)
    requires NonzeroCloses(tape) && i < |tape.closes| && LosesAFalse(expr)
    ensures Compiled(AllTrue(), expr, tape, i)
  {
    var spec := Trim(expr, SPACES);
    ExemptionIsDead(spec, '&');
    forall p | p in Operands(spec, '&') && p != ""
      ensures Compiled(AllTrue(), p, tape, i)
    {
      NamedIsTrue(p, tape, i);
    }
  }

  lemma NoLossAgrees(g: Grammar, expr: string, tape: Tape, i: nat)
    requires Sound(g) && NonzeroCloses(tape) && i < |tape.closes| && !LosesAFalse(expr)
    ensures Compiled(g, expr, tape, i) <==> Meaning(g, expr, tape, i)
  {
    var spec := Trim(expr, SPACES);
    CompilerCorrect(g, expr, tape, i);
    ExemptionIsDead(spec, '&');
    if HasEmptyOperand(expr) && exists p | p in Operands(spec, '&') :: p != "" {
      var p :| p in Operands(spec, '&') && p != "" && Nameless(p);
      NamelessIsFalse(g, p, tape, i);
    }
  }

  /** Which expressions compile faithfully, read off the text: all but those with an empty operand
      of `&` beside operands that each name something. */
  lemma PreservedIff(expr: string)
    ensures Preserved(expr) <==> !LosesAFalse(expr)
  {
    if LosesAFalse(expr) {
      var tape := Tape([1.0], [1.0], [1.0]);
      LossFlags(expr, tape, 0);
      CompilerCorrect(AllTrue(), expr, tape, 0);
      AllTrueIsFaultless(expr);
      FaultlessAnswers(AllTrue(), expr, tape, 0);
      InterpretMeans(AllTrue(), expr, tape, 0);
      hide Interpret, Compiled, Meaning, Faultless;
      assert !AgreeAt(AllTrue(), expr, tape, 0);
    } else {
      forall g, tape, i: nat | Sound(g) && NonzeroCloses(tape) && i < |tape.closes|
        ensures AgreeAt(g, expr, tape, i)
      {
        NoLossAgrees(g, expr, tape, i);
        InterpretMeans(g, expr, tape, i);
      }
    }
  }

  // ----- a trailing `&`

  /** A name as it stands in an expression: no operator and nothing to strip. */
  predicate Bare(name: string) {
    && name != "" && '&' !in name && '|' !in name
    && name[0] !in SPACES + PARENS && name[|name| - 1] !in SPACES + PARENS
  }

  lemma {:induction false} SplitTrailing(name: string)
    requires '&' !in name
    ensures Split(name + "&", '&') == [name, ""]
  {
    if name == "" {
      assert name + "&" == "&" && "&"[1..] == "";
      assert Split("", '&') == [""];
    } else {
      assert (name + "&")[1..] == name[1..] + "&";
      SplitTrailing(name[1..]);
      assert [name[0]] + name[1..] == name;
    }
  }

  lemma TrailingOperands(name: string)
    requires Bare(name)
    ensures Trim(name + "&", SPACES) == name + "&" && Operands(name + "&", '&') == [name, ""]
    ensures Trim(name, SPACES) == name
  {
    SplitTrailing(name);
    var spec := name + "&";
    assert spec[0] == name[0] && spec[|spec| - 1] == '&';
    assert Trim(name, PARENS) == name && Trim("", PARENS) == "";
    assert Operands(spec, '&') == [name, ""];
  }

  /** A trailing `&` after a name: the interpreter never holds, the compiler flags as if the `&`
      were not there. */
  lemma TrailingAnd(g: Grammar, name: string, tape: Tape, i: nat)
    requires Sound(g) && NonzeroCloses(tape) && i < |tape.closes| && Bare(name)
    ensures !Meaning(g, name + "&", tape, i)
    ensures Compiled(g, name + "&", tape, i) <==> AtomMeaning(g, name, tape, i)
    ensures LosesAFalse(name + "&")
  {
    var spec := name + "&";
    TrailingOperands(name);
    assert spec[|name|] == '&';
    ExemptionIsDead(spec, '&');
    var parts := Operands(spec, '&');
    assert parts[0] == name && parts[1] == "" && forall p :: p in parts ==> p == name || p == "";
    assert name in parts && "" in parts && !Nameless(name);
    CompilerCorrect(g, spec, tape, i);
    assert Compiled(g, name, tape, i) <==> AtomMeaning(g, name, tape, i);
  }

  lemma TrailingAnswers(g: Grammar, name: string, tape: Tape, i: nat)
    requires Sound(g) && NonzeroCloses(tape) && i < |tape.closes| && Bare(name)
    requires g.atom(name).Some? ==> Evaluates(g.atom(name).value)
    ensures Interpret(g, name + "&", tape, i) == Success(false)
  {
    var spec := name + "&";
    TrailingOperands(name);
    assert spec[|name|] == '&';
    ExemptionIsDead(spec, '&');
    OperandsShrink(spec);
    BareIsFaultless(g, name);
    var parts := Operands(spec, '&');
    assert forall p :: p in parts ==> Faultless(g, p) by {
      assert forall p :: p in parts ==> p == name || p == "";
    }
    hide Interpret, Faultless;
    PartsAnswer(g, parts, true, tape, i, Level(spec));
    TrailingAnd(g, name, tape, i);
    InterpretsAnd(g, spec, tape, i);
    InterpretMeans(g, spec, tape, i);
  }

  lemma InterpretsAnd(g: Grammar, spec: string, tape: Tape, i: nat)
    requires Sound(g) && NonzeroCloses(tape) && i < |tape.closes|
    requires Trim(spec, SPACES) == spec && SplitsOn(spec, '&')
    ensures forall p :: p in Operands(spec, '&') ==> Level(p) < Level(spec)
    ensures Interpret(g, spec, tape, i) == InterpretParts(g, Operands(spec, '&'), true, tape, i, Level(spec))
  {
    OperandsShrink(spec);
  }

  lemma BareIsFaultless(g: Grammar, name: string)
    requires Sound(g) && Bare(name) && (g.atom(name).Some? ==> Evaluates(g.atom(name).value))
    ensures Faultless(g, name) && Faultless(g, "")
  {
    TrailingOperands(name);
    assert Trim("", SPACES) == "";
  }

  const RSI_UNDER_100 := "rsi_1_<100"

  /** The index lies in its range wherever it is defined, so this name holds past its lookback. */
  lemma RsiUnder100(tape: Tape, i: nat)
    requires NonzeroCloses(tape) && 1 <= i < |tape.closes|
    ensures AtomHolds(RsiAtom(1, -1.0, 100.0), tape, i)
  {
    var gains, losses := GainSum(tape.closes, i, i + 1), LossSum(tape.closes, i, i + 1);
    RsiInRange(gains, losses, 1);
  }

  /** `rsi_1_<100&`: from the second bar on the compiler flags every bar and the interpreter none. */
  lemma TrailingAndDiffers(g: Grammar, tape: Tape, i: nat)
    requires Sound(g) && g.atom(RSI_UNDER_100) == Some(RsiAtom(1, -1.0, 100.0))
    requires NonzeroCloses(tape) && 1 <= i < |tape.closes|
    ensures Compiled(g, RSI_UNDER_100 + "&", tape, i)
    ensures Interpret(g, RSI_UNDER_100 + "&", tape, i) == Success(false)
  {
    TrailingAnswers(g, RSI_UNDER_100, tape, i);
    assert RSI_UNDER_100[0] == 'r' && RSI_UNDER_100[|RSI_UNDER_100| - 1] == '0';
    TrailingAnd(g, RSI_UNDER_100, tape, i);
    RsiUnder100(tape, i);
  }

  // ----- expressions as they are written

  lemma SplitHead(s: string, sep: char)
    requires s != "" && s[0] != sep
    ensures Split(s, sep) == [[s[0]] + Split(s[1..], sep)[0]] + Split(s[1..], sep)[1..]
  {
  }

  /** One more part in front. */
  lemma {:induction false} SplitFirst(part: string, rest: string, sep: char)
    requires sep !in part
    ensures Split(part + [sep] + rest, sep) == [part] + Split(rest, sep)
  {
    var s := part + [sep] + rest;
    if part == "" {
      assert s[0] == sep && s[1..] == rest;
    } else {
      assert s[1..] == part[1..] + [sep] + rest;
      SplitFirst(part[1..], rest, sep);
      SplitHead(s, sep);
      assert [part[0]] + part[1..] == part;
    }
  }

  lemma {:induction false} SplitNone(s: string, sep: char)
    requires sep !in s
    ensures Split(s, sep) == [s]
  {
    if s != "" {
      SplitNone(s[1..], sep);
      SplitHead(s, sep);
      assert [s[0]] + s[1..] == s;
    }
  }

  /** Splitting what was joined gives the parts back. */
  lemma {:induction false} JoinSplits(parts: seq<string>, sep: char)
    requires |parts| >= 1 && forall k :: 0 <= k < |parts| ==> sep !in parts[k]
    ensures Split(Join(parts, sep), sep) == parts
  {
    if |parts| == 1 {
      SplitNone(parts[0], sep);
    } else {
      JoinSplits(parts[1..], sep);
      SplitFirst(parts[0], Join(parts[1..], sep), sep);
      assert [parts[0]] + parts[1..] == parts;
    }
  }

  /** A text that begins and ends with something no trimming drops. */
  predicate Firm(s: string) {
    s != "" && s[0] !in SPACES + PARENS && s[|s| - 1] !in SPACES + PARENS
  }

  lemma {:induction false} JoinIsFirm(parts: seq<string>, sep: char)
    requires |parts| >= 1 && forall k :: 0 <= k < |parts| ==> Firm(parts[k])
    ensures var s := Join(parts, sep);
            && Firm(s) && Firm(parts[0]) && s[0] == parts[0][0]
            && forall c :: c in s ==> c == sep || exists k :: 0 <= k < |parts| && c in parts[k]
  {
    if |parts| > 1 {
      var rest := parts[1..];
      JoinIsFirm(rest, sep);
      var s := Join(parts, sep);
      assert s[|s| - 1] == Join(rest, sep)[|Join(rest, sep)| - 1];
      forall c | c in s && c != sep ensures exists k :: 0 <= k < |parts| && c in parts[k] {
        if c !in parts[0] {
          var k :| 0 <= k < |rest| && c in rest[k];
          assert c in parts[k + 1];
        }
      }
    }
  }

  lemma FirmStays(s: string)
    requires Firm(s)
    ensures Trim(s, SPACES) == s && Trim(s, PARENS) == s
  {
  }

  lemma {:induction false} SepInJoin(parts: seq<string>, sep: char)
    requires |parts| >= 2
    ensures sep in Join(parts, sep)
  {
    assert Join(parts, sep)[|parts[0]|] == sep;
  }

  /** The operands of a joined text are its parts, trimmed. */
  lemma JoinedOperands(parts: seq<string>, sep: char)
    requires |parts| >= 1 && forall k :: 0 <= k < |parts| ==> sep !in parts[k]
    ensures |Operands(Join(parts, sep), sep)| == |parts|
    ensures forall k :: 0 <= k < |parts| ==> Operands(Join(parts, sep), sep)[k] == Trim(parts[k], PARENS)
  {
    JoinSplits(parts, sep);
  }

  /** Names joined by `|`. */
  predicate Alternatives(names: seq<string>) {
    |names| >= 1 && forall k :: 0 <= k < |names| ==> Bare(names[k])
  }

  ghost predicate AnyHolds(g: Grammar, names: seq<string>, tape: Tape, i: nat)
    requires Sound(g) && NonzeroCloses(tape) && i < |tape.closes|
  {
    exists k :: 0 <= k < |names| && AtomMeaning(g, names[k], tape, i)
  }

  lemma NameMeans(g: Grammar, name: string, tape: Tape, i: nat)
    requires Sound(g) && NonzeroCloses(tape) && i < |tape.closes| && Bare(name)
    ensures Meaning(g, name, tape, i) <==> AtomMeaning(g, name, tape, i)
  {
    FirmStays(name);
  }

  lemma AlternativesText(names: seq<string>)
    requires Alternatives(names)
    ensures var s := Join(names, '|');
            Firm(s) && '&' !in s && (|names| >= 2 ==> '|' in s) && s[0] == names[0][0]
  {
    JoinIsFirm(names, '|');
    if |names| >= 2 {
      SepInJoin(names, '|');
    }
  }

  lemma AnyOfOperands(
    g: Grammar, parts: seq<string>, names: seq<string>, tape: Tape, i: nat)
    requires Sound(g) && NonzeroCloses(tape) && i < |tape.closes| && parts == names && Alternatives(names)
    ensures (exists p | p in parts :: Meaning(g, p, tape, i)) <==> AnyHolds(g, names, tape, i)
  {
    hide Meaning, AtomMeaning, Sound, NonzeroCloses, Bare;
    forall k | 0 <= k < |names| ensures Meaning(g, names[k], tape, i) <==> AtomMeaning(g, names[k], tape, i) {
      NameMeans(g, names[k], tape, i);
    }
    if p :| p in parts && Meaning(g, p, tape, i) {
      var k :| 0 <= k < |names| && names[k] == p;
      assert AtomMeaning(g, names[k], tape, i);
    }
    if k :| 0 <= k < |names| && AtomMeaning(g, names[k], tape, i) {
      assert names[k] in parts;
    }
  }

  /** Alternatives hold when one of them does. */
  lemma AlternativesMean(g: Grammar, names: seq<string>, tape: Tape, i: nat)
    requires Sound(g) && NonzeroCloses(tape) && i < |tape.closes| && Alternatives(names)
    ensures Meaning(g, Join(names, '|'), tape, i) <==> AnyHolds(g, names, tape, i)
  {
    var s := Join(names, '|');
    AlternativesText(names);
    FirmStays(s);
    ExemptionIsDead(s, '&');
    ExemptionIsDead(s, '|');
    if |names| == 1 {
      NameMeans(g, names[0], tape, i);
      assert AnyHolds(g, names, tape, i) <==> AtomMeaning(g, names[0], tape, i);
    } else {
      BareOperands(names);
      JoinedOperands(names, '|');
      assert Operands(s, '|') == names;
      AnyOfOperands(g, Operands(s, '|'), names, tape, i);
    }
  }

  lemma BareOperands(names: seq<string>)
    requires Alternatives(names)
    ensures forall k :: 0 <= k < |names| ==> '|' !in names[k] && Trim(names[k], PARENS) == names[k]
  {
    forall k | 0 <= k < |names| ensures Trim(names[k], PARENS) == names[k] {
      FirmStays(names[k]);
    }
  }
  /** One operand of `&`: alternatives, with spaces or parentheses around them or not. */
  datatype Group = Group(names: seq<string>, before: string, after: string) {
    predicate Valid() {
      Alternatives(names) && Padding(before) && Padding(after)
    }

    function Text(): string
      requires Valid()
    {
      before + Join(names, '|') + after
    }
  }

  predicate Padding(s: string) {
    forall k :: 0 <= k < |s| ==> s[k] in PARENS
  }

  /** An expression without a space before or behind it. */
  predicate Flush(groups: seq<Group>) {
    && groups != [] && AllGroups(groups)
    && (groups[0].before != "" ==> groups[0].before[0] != ' ')
    && var last := groups[|groups| - 1].after; last != "" ==> last[|last| - 1] != ' '
  }

  lemma {:induction false} TrimFront(before: string, s: string)
    requires s != "" && s[0] !in PARENS && Padding(before)
    ensures Trim(before + s, PARENS) == Trim(s, PARENS)
  {
    if before == "" {
      assert before + s == s;
    } else {
      assert (before + s)[1..] == before[1..] + s;
      TrimFront(before[1..], s);
    }
  }

  lemma {:induction false} TrimBack(s: string, after: string)
    requires Firm(s) && Padding(after)
    ensures Trim(s + after, PARENS) == s
  {
    if after == "" {
      assert s + after == s;
    } else {
      assert (s + after)[..|s + after| - 1] == s + after[..|after| - 1];
      TrimBack(s, after[..|after| - 1]);
    }
  }

  lemma TrimPadding(before: string, s: string, after: string)
    requires Firm(s) && Padding(before) && Padding(after)
    ensures Trim(before + s + after, PARENS) == s
  {
    hide Trim, Padding;
    assert before + s + after == before + (s + after);
    TrimFront(before, s + after);
    TrimBack(s, after);
  }

  predicate AllGroups(groups: seq<Group>) {
    forall k :: 0 <= k < |groups| ==> groups[k].Valid()
  }

  function Texts(groups: seq<Group>): (texts: seq<string>)
    requires AllGroups(groups)
    ensures |texts| == |groups| && forall k :: 0 <= k < |texts| ==> texts[k] == groups[k].Text()
  {
    seq(|groups|, k requires 0 <= k < |groups| => groups[k].Text())
  }

  lemma GroupText(group: Group)
    requires group.Valid()
    ensures var s, inner := group.Text(), Join(group.names, '|');
            && '&' !in s && Trim(s, PARENS) == inner && s != ""
            && (group.before == "" || group.before[0] != ' ' ==> s[0] !in SPACES)
            && (group.after == "" || group.after[|group.after| - 1] != ' ' ==> s[|s| - 1] !in SPACES)
  {
    hide Trim, Join, Bare;
    var inner := Join(group.names, '|');
    AlternativesText(group.names);
    TrimPadding(group.before, inner, group.after);
    var s := group.Text();
    assert s == group.before + inner + group.after;
    assert forall c :: c in s ==> c in inner || c in group.before || c in group.after;
    assert group.before != "" ==> s[0] == group.before[0] && group.before[0] in group.before;
    assert group.after != "" ==>
        s[|s| - 1] == group.after[|group.after| - 1] && group.after[|group.after| - 1] in group.after;
  }

  lemma {:induction false} JoinEnds(parts: seq<string>, sep: char)
    requires |parts| >= 1 && forall k :: 0 <= k < |parts| ==> parts[k] != ""
    ensures var s := Join(parts, sep);
            s != "" && s[0] == parts[0][0] && s[|s| - 1] == parts[|parts| - 1][|parts[|parts| - 1]| - 1]
  {
    if |parts| > 1 {
      JoinEnds(parts[1..], sep);
    }
  }

  lemma TextsOfGroups(groups: seq<Group>)
    requires |groups| >= 2 && Flush(groups)
    ensures var texts := Texts(groups);
            && (forall k :: 0 <= k < |groups| ==>
                  '&' !in texts[k] && Trim(texts[k], PARENS) == Join(groups[k].names, '|') && texts[k] != "")
            && texts[0][0] !in SPACES
            && var last := texts[|groups| - 1]; last[|last| - 1] !in SPACES
  {
    hide Trim, Join, Group.Text, Padding, Bare;
    var texts := Texts(groups);
    forall k | 0 <= k < |groups|
      ensures '&' !in texts[k] && Trim(texts[k], PARENS) == Join(groups[k].names, '|') && texts[k] != ""
    {
      GroupText(groups[k]);
    }
    GroupText(groups[0]);
    GroupText(groups[|groups| - 1]);
  }

  lemma JoinedByAnd(texts: seq<string>)
    requires |texts| >= 2 && forall k :: 0 <= k < |texts| ==> '&' !in texts[k] && texts[k] != ""
    requires texts[0][0] !in SPACES && var last := texts[|texts| - 1]; last[|last| - 1] !in SPACES
    ensures var s := Join(texts, '&');
            && Trim(s, SPACES) == s && SplitsOn(s, '&') && |Operands(s, '&')| == |texts|
            && forall k :: 0 <= k < |texts| ==> Operands(s, '&')[k] == Trim(texts[k], PARENS)
  {
    hide Join, Trim, Operands, SplitsOn;
    var s := Join(texts, '&');
    JoinEnds(texts, '&');
    TrimStays(s);
    SepInJoin(texts, '&');
    ExemptionIsDead(s, '&');
    JoinedOperands(texts, '&');
  }

  lemma GroupsText(groups: seq<Group>)
    requires |groups| >= 2 && Flush(groups)
    ensures var s := Join(Texts(groups), '&');
            && Trim(s, SPACES) == s && SplitsOn(s, '&') && |Operands(s, '&')| == |groups|
            && forall k :: 0 <= k < |groups| ==> Operands(s, '&')[k] == Join(groups[k].names, '|')
  {
    hide Join, Trim, Operands, SplitsOn, Bare, Padding, Group.Text;
    TextsOfGroups(groups);
    JoinedByAnd(Texts(groups));
  }

  lemma TrimStays(s: string)
    requires s != "" && s[0] !in SPACES && s[|s| - 1] !in SPACES
    ensures Trim(s, SPACES) == s
  {
  }

  lemma AllOfOperands(g: Grammar, parts: seq<string>, groups: seq<Group>, tape: Tape, i: nat)
    requires Sound(g) && NonzeroCloses(tape) && i < |tape.closes| && AllGroups(groups) && |parts| == |groups|
    requires forall k :: 0 <= k < |groups| ==> parts[k] == Join(groups[k].names, '|')
    ensures (forall p | p in parts :: Meaning(g, p, tape, i)) <==>
            forall k :: 0 <= k < |groups| ==> AnyHolds(g, groups[k].names, tape, i)
  {
    hide Meaning, AnyHolds, Sound, NonzeroCloses, Bare, Join;
    forall k | 0 <= k < |groups|
      ensures Meaning(g, parts[k], tape, i) <==> AnyHolds(g, groups[k].names, tape, i)
    {
      assert groups[k].Valid();
      AlternativesMean(g, groups[k].names, tape, i);
    }
    if forall p | p in parts :: Meaning(g, p, tape, i) {
      forall k | 0 <= k < |groups| ensures AnyHolds(g, groups[k].names, tape, i) {
        assert parts[k] in parts;
      }
    }
  }

  lemma MeaningOfAnd(g: Grammar, s: string, tape: Tape, i: nat)
    requires Sound(g) && NonzeroCloses(tape) && i < |tape.closes| && Trim(s, SPACES) == s && SplitsOn(s, '&')
    ensures forall p :: p in Operands(s, '&') ==> Level(p) < Level(s)
    ensures Meaning(g, s, tape, i) <==> forall p | p in Operands(s, '&') :: Meaning(g, p, tape, i)
  {
    OperandsShrink(s);
  }

  /** `a & (b|c) & d`: groups of names joined by `|`, joined by `&`, spaced and in parentheses or not,
      hold at a bar when some name of every group does. */
  lemma GroupsMean(g: Grammar, groups: seq<Group>, tape: Tape, i: nat)
    requires Sound(g) && NonzeroCloses(tape) && i < |tape.closes| && |groups| >= 2 && Flush(groups)
    ensures Meaning(g, Join(Texts(groups), '&'), tape, i) <==>
            forall k :: 0 <= k < |groups| ==> AnyHolds(g, groups[k].names, tape, i)
  {
    var s := Join(Texts(groups), '&');
    hide Meaning, Join, Texts, Trim, Operands, SplitsOn, AnyHolds;
    GroupsText(groups);
    MeaningOfAnd(g, s, tape, i);
    AllOfOperands(g, Operands(s, '&'), groups, tape, i);
  }

  // ----- the compiler over cached buffers

  datatype Key = AtomKey(tape: Tape, spec: string) | SigKey(tape: Tape, spec: string)

  type Buffers = seq<Entry<Key, array<bool>>>

  ghost function BuffersOf(store: Buffers): set<array<bool>> {
    set e | e in store :: e.value
  }

  /** The buffer holds what its key names: an atom's meaning or a compiled expression. */
  ghost predicate Holds(g: Grammar, key: Key, value: array<bool>)
    requires Sound(g)
    reads value
  {
    && NonzeroCloses(key.tape) && value.Length == |key.tape.closes|
    && forall i :: 0 <= i < value.Length ==>
         (value[i] <==> if key.AtomKey? then AtomMeaning(g, key.spec, key.tape, i)
                        else Compiled(g, key.spec, key.tape, i))
  }

  ghost predicate AllHold(g: Grammar, store: Buffers)
    requires Sound(g)
    reads BuffersOf(store)
  {
    forall e :: e in store ==> Holds(g, e.key, e.value)
  }

  lemma TouchedSubset(store: Buffers, key: Key)
    ensures forall e :: e in Touched(store, key) ==> e in store
    ensures forall e :: e in Removed(store, key) ==> e in store
  {
  }

  lemma StoredSubset(store: Buffers, key: Key, value: array<bool>, size: int, budget: int)
    ensures forall e :: e in Stored(store, key, value, size, budget) ==> e in store || e == Entry(key, value, size)
  {
    TouchedSubset(store, key);
  }

  /** The bytes the cache counts for a flag buffer. */
  function FlagBytes(n: nat): int { n + 64 }

  method Lookup(g: Grammar, cache: Cache<Key, array<bool>>, key: Key) returns (hit: Option<array<bool>>)
    requires Sound(g) && cache.Valid() && AllHold(g, cache.store)
    modifies cache
    ensures cache.Valid() && AllHold(g, cache.store)
    ensures hit.Some? ==> Holds(g, key, hit.value)
  {
    TouchedSubset(cache.store, key);
    ghost var was := cache.store;
    hit := cache.Get(key);
    assert hit.Some? ==> was[Find(was, key).value] in was;
  }

  method Remember(g: Grammar, cache: Cache<Key, array<bool>>, key: Key, value: array<bool>)
    requires Sound(g) && cache.Valid() && AllHold(g, cache.store) && Holds(g, key, value)
    modifies cache
    ensures cache.Valid() && AllHold(g, cache.store)
  {
    StoredSubset(cache.store, key, value, FlagBytes(value.Length), cache.budget);
    var _ := cache.Put(key, value, FlagBytes(value.Length));
  }

  /** Fold the parts into a copy of the first. No part is written. */
  method Combine(parts: seq<array<bool>>, both: bool, n: nat) returns (acc: array<bool>)
    requires forall k :: 0 <= k < |parts| ==> parts[k].Length == n
    ensures fresh(acc) && acc.Length == if parts == [] then 0 else n
    ensures forall i :: 0 <= i < acc.Length ==>
              (acc[i] <==> if both then forall k :: 0 <= k < |parts| ==> parts[k][i]
                           else exists k :: 0 <= k < |parts| && parts[k][i])
  {
    if parts == [] {
      acc := new bool[0];
      return;
    }
    acc := new bool[n](i requires 0 <= i < n reads parts[0] => parts[0][i]);
    for k := 1 to |parts|
      invariant forall i :: 0 <= i < n ==>
                  (acc[i] <==> if both then forall j :: 0 <= j < k ==> parts[j][i]
                               else exists j :: 0 <= j < k && parts[j][i])
    {
      FoldIn(acc, parts[k], both);
    }
  }

  method FoldIn(acc: array<bool>, extra: array<bool>, both: bool)
    requires acc.Length == extra.Length && acc != extra
    modifies acc
    ensures forall i :: 0 <= i < acc.Length ==>
              acc[i] == if both then old(acc[i]) && extra[i] else old(acc[i]) || extra[i]
  {
    for i := 0 to acc.Length
      invariant forall m :: 0 <= m < i ==>
                  acc[m] == if both then old(acc[m]) && extra[m] else old(acc[m]) || extra[m]
      invariant forall m :: i <= m < acc.Length ==> acc[m] == old(acc[m])
    {
      if both {
        if !extra[i] {
          acc[i] := false;
        }
      } else if extra[i] {
        acc[i] := true;
      }
    }
  }

  /** One pass of a name's own predicate over the bars. */
  method FallbackSignal(g: Grammar, spec: string, tape: Tape) returns (out: array<bool>)
    ensures fresh(out) && out.Length == |tape.closes|
    ensures forall i :: 0 <= i < out.Length ==> out[i] == g.other(spec, tape, i)
  {
    var n := |tape.closes|;
    out := new bool[n](_ => false);
    for i := 0 to n
      invariant forall m :: 0 <= m < i ==> out[m] == g.other(spec, tape, m)
      invariant forall m :: i <= m < n ==> !out[m]
    {
      if g.other(spec, tape, i) {
        out[i] := true;
      }
    }
  }

  method BuildAtom(g: Grammar, cache: Cache<Key, array<bool>>, spec: string, tape: Tape) returns (flags: array<bool>)
    requires Sound(g) && NonzeroCloses(tape) && cache.Valid() && AllHold(g, cache.store)
    modifies cache
    ensures cache.Valid() && AllHold(g, cache.store) && Holds(g, AtomKey(tape, spec), flags)
  {
    var key := AtomKey(tape, spec);
    var hit := Lookup(g, cache, key);
    if hit.Some? {
      return hit.value;
    }
    match g.atom(spec)
    case Some(a) => flags := AtomSignal(a, tape);
    case None => flags := FallbackSignal(g, spec, tape);
    Remember(g, cache, key, flags);
  }

  /** Compile one expression to flags. Nothing but the cache is written: the buffers it
      already holds, and every other array, keep their contents. */
  method Build(g: Grammar, cache: Cache<Key, array<bool>>, expr: string, tape: Tape) returns (flags: array<bool>)
    requires Sound(g) && NonzeroCloses(tape) && cache.Valid() && AllHold(g, cache.store)
    modifies cache
    ensures cache.Valid() && AllHold(g, cache.store)
    ensures flags.Length == |tape.closes|
    ensures forall i :: 0 <= i < flags.Length ==> (flags[i] <==> Compiled(g, expr, tape, i))
    decreases Level(expr), 1
  {
    var spec := Trim(expr, SPACES);
    OperandsShrink(expr);
    if SplitsOn(spec, '&') {
      flags := BuildParts(g, cache, Operands(spec, '&'), true, tape, Level(expr));
    } else if SplitsOn(spec, '|') {
      flags := BuildParts(g, cache, Operands(spec, '|'), false, tape, Level(expr));
    } else {
      flags := BuildAtom(g, cache, spec, tape);
    }
  }

  /** The compiled flag of a split: empty operands are dropped, and nothing left is false. */
  ghost predicate PartsFlag(g: Grammar, parts: seq<string>, both: bool, tape: Tape, i: nat)
    requires Sound(g) && NonzeroCloses(tape) && i < |tape.closes|
  {
    if both then (exists p :: p in parts && p != "") && forall p | p in parts && p != "" :: Compiled(g, p, tape, i)
    else exists p | p in parts && p != "" :: Compiled(g, p, tape, i)
  }

  /** `names` lists the operands that are not empty. */
  ghost predicate Named(names: seq<string>, parts: seq<string>) {
    forall p :: p in names <==> p in parts && p != ""
  }

  lemma FoldIsPartsFlag(
    g: Grammar, parts: seq<string>, names: seq<string>, values: seq<bool>, both: bool, tape: Tape, i: nat)
    requires Sound(g) && NonzeroCloses(tape) && i < |tape.closes| && Named(names, parts)
    requires |values| == |names| > 0 && forall m :: 0 <= m < |names| ==> (values[m] <==> Compiled(g, names[m], tape, i))
    ensures PartsFlag(g, parts, both, tape, i) <==>
            if both then forall m :: 0 <= m < |values| ==> values[m] else exists m :: 0 <= m < |values| && values[m]
  {
    hide Compiled, Sound, NonzeroCloses;
    assert names[0] in names;
    assert forall m :: 0 <= m < |names| ==> names[m] in names;
  }

  lemma NoneNamed(g: Grammar, parts: seq<string>, both: bool, tape: Tape, i: nat)
    requires Sound(g) && NonzeroCloses(tape) && i < |tape.closes| && Named([], parts)
    ensures !PartsFlag(g, parts, both, tape, i)
  {
    hide Compiled, Sound, NonzeroCloses;
    assert forall p :: p in parts && p != "" ==> p in [];
  }

  /** The buffer holds the compiled flags of an expression. */
  ghost predicate Flags(g: Grammar, expr: string, tape: Tape, flags: array<bool>)
    requires Sound(g) && NonzeroCloses(tape)
    reads flags
  {
    flags.Length == |tape.closes| && forall i :: 0 <= i < flags.Length ==> (flags[i] <==> Compiled(g, expr, tape, i))
  }

  ghost predicate AllFlags(g: Grammar, names: seq<string>, tape: Tape, built: seq<array<bool>>)
    requires Sound(g) && NonzeroCloses(tape)
    reads set b | b in built
  {
    |built| == |names| && forall m :: 0 <= m < |built| ==> Flags(g, names[m], tape, built[m])
  }

  /** What the buffers say of one bar. */
  ghost function Column(built: seq<array<bool>>, i: nat): (column: seq<bool>)
    requires forall m :: 0 <= m < |built| ==> i < built[m].Length
    reads set b | b in built
    ensures |column| == |built| && forall m :: 0 <= m < |built| ==> column[m] == built[m][i]
  {
    if built == [] then [] else Column(built[..|built| - 1], i) + [built[|built| - 1][i]]
  }

  lemma FoldedFlag(
    g: Grammar, parts: seq<string>, names: seq<string>, built: seq<array<bool>>, both: bool, tape: Tape, i: nat)
    requires Sound(g) && NonzeroCloses(tape) && i < |tape.closes| && Named(names, parts)
    requires AllFlags(g, names, tape, built) && built != []
    ensures forall m :: 0 <= m < |built| ==> built[m].Length == |tape.closes|
    ensures PartsFlag(g, parts, both, tape, i) <==>
            if both then forall m :: 0 <= m < |built| ==> built[m][i] else exists m :: 0 <= m < |built| && built[m][i]
  {
    hide Compiled, PartsFlag, Sound, NonzeroCloses, Named;
    forall m | 0 <= m < |built| ensures built[m].Length == |tape.closes| {
      assert Flags(g, names[m], tape, built[m]);
    }
    var column := Column(built, i);
    forall m | 0 <= m < |names| ensures column[m] <==> Compiled(g, names[m], tape, i) {
      assert Flags(g, names[m], tape, built[m]);
    }
    FoldIsPartsFlag(g, parts, names, column, both, tape, i);
    assert forall m :: 0 <= m < |built| ==> column[m] == built[m][i];
  }

  /** The flags of every operand that is not empty, in order. */
  method BuildEach(g: Grammar, cache: Cache<Key, array<bool>>, parts: seq<string>, tape: Tape, ghost level: nat)
    returns (built: seq<array<bool>>, ghost names: seq<string>)
    requires Sound(g) && NonzeroCloses(tape) && cache.Valid() && AllHold(g, cache.store)
    requires forall p :: p in parts ==> Level(p) < level
    modifies cache
    ensures cache.Valid() && AllHold(g, cache.store)
    ensures Named(names, parts) && AllFlags(g, names, tape, built)
    decreases level, 0, 0
  {
    hide Compiled, Sound, NonzeroCloses;
    built, names := [], [];
    assert parts[..0] == [];
    for k := 0 to |parts|
      invariant cache.Valid() && AllHold(g, cache.store)
      invariant Named(names, parts[..k]) && AllFlags(g, names, tape, built)
    {
      assert parts[..k + 1] == parts[..k] + [parts[k]];
      if parts[k] != "" {
        var flagsOfPart := Build(g, cache, parts[k], tape);
        assert Flags(g, parts[k], tape, flagsOfPart);
        built := built + [flagsOfPart];
        names := names + [parts[k]];
      }
    }
    assert parts[..|parts|] == parts;
  }

  /** Nothing to fold is false at every bar. */
  method FoldParts(
    g: Grammar, parts: seq<string>, ghost names: seq<string>, built: seq<array<bool>>, both: bool, tape: Tape)
    returns (flags: array<bool>)
    requires Sound(g) && NonzeroCloses(tape) && Named(names, parts) && AllFlags(g, names, tape, built)
    ensures fresh(flags) && flags.Length == |tape.closes|
    ensures forall i :: 0 <= i < flags.Length ==> (flags[i] <==> PartsFlag(g, parts, both, tape, i))
  {
    hide Compiled, PartsFlag, Sound, NonzeroCloses, Named;
    var n := |tape.closes|;
    if built == [] {
      flags := new bool[n](_ => false);
      assert names == [];
      forall i | 0 <= i < n ensures !PartsFlag(g, parts, both, tape, i) {
        NoneNamed(g, parts, both, tape, i);
      }
    } else {
      assert forall m :: 0 <= m < |built| ==> Flags(g, names[m], tape, built[m]);
      flags := Combine(built, both, n);
      forall i | 0 <= i < n
        ensures flags[i] <==> PartsFlag(g, parts, both, tape, i)
      {
        FoldedFlag(g, parts, names, built, both, tape, i);
      }
    }
  }

  method BuildParts(
    g: Grammar, cache: Cache<Key, array<bool>>, parts: seq<string>, both: bool, tape: Tape, ghost level: nat)
    returns (flags: array<bool>)
    requires Sound(g) && NonzeroCloses(tape) && cache.Valid() && AllHold(g, cache.store)
    requires forall p :: p in parts ==> Level(p) < level
    modifies cache
    ensures cache.Valid() && AllHold(g, cache.store)
    ensures flags.Length == |tape.closes|
    ensures forall i :: 0 <= i < flags.Length ==> (flags[i] <==> PartsFlag(g, parts, both, tape, i))
    decreases level, 0, 1
  {
    hide Compiled, PartsFlag, Sound, NonzeroCloses, Named, Flags;
    ghost var names: seq<string>;
    var built: seq<array<bool>>;
    built, names := BuildEach(g, cache, parts, tape, level);
    flags := FoldParts(g, parts, names, built, both, tape);
  }

  /** Wherever the interpreter answers, the flag is its answer. */
  ghost predicate Answers(g: Grammar, expr: string, tape: Tape, flags: seq<bool>)
    requires Sound(g) && NonzeroCloses(tape) && |flags| == |tape.closes|
  {
    forall i :: 0 <= i < |flags| ==>
                  var r := Interpret(g, expr, tape, i); r.Success? ==> (flags[i] <==> r.value)
  }

  lemma CompiledAnswers(g: Grammar, expr: string, tape: Tape, flags: seq<bool>)
    requires Sound(g) && NonzeroCloses(tape) && |flags| == |tape.closes| && !LosesAFalse(expr)
    requires forall i :: 0 <= i < |flags| ==> (flags[i] <==> Compiled(g, expr, tape, i))
    ensures Answers(g, expr, tape, flags)
  {
    hide Compiled, Interpret, Meaning, Sound, LosesAFalse;
    forall i | 0 <= i < |flags|
      ensures var r := Interpret(g, expr, tape, i); r.Success? ==> (flags[i] <==> r.value)
    {
      NoLossAgrees(g, expr, tape, i);
      InterpretMeans(g, expr, tape, i);
    }
  }

  /** The entry flag at every bar, from the cache or compiled and cached. */
  method SignalSeries(g: Grammar, cache: Cache<Key, array<bool>>, expr: string, tape: Tape) returns (flags: array<bool>)
    requires Sound(g) && NonzeroCloses(tape) && cache.Valid() && AllHold(g, cache.store)
    modifies cache
    ensures cache.Valid() && AllHold(g, cache.store)
    ensures flags.Length == |tape.closes|
    ensures forall i :: 0 <= i < flags.Length ==> (flags[i] <==> Compiled(g, expr, tape, i))
    ensures !LosesAFalse(expr) ==> Answers(g, expr, tape, flags[..])
  {
    hide Compiled, Interpret, Meaning, Sound, LosesAFalse, Answers, Trim;
    var spec := Trim(expr, SPACES);
    var key := SigKey(tape, spec);
    TrimTwice(g, expr, tape);
    var hit := Lookup(g, cache, key);
    if hit.Some? {
      flags := hit.value;
    } else {
      flags := Build(g, cache, spec, tape);
      hit := Lookup(g, cache, key);
      if hit.None? {
        Remember(g, cache, key, flags);
      }
    }
    if !LosesAFalse(expr) {
      CompiledAnswers(g, expr, tape, flags[..]);
    }
  }

  lemma {:induction false} TrimIdempotent(s: string, drop: set<char>)
    ensures Trim(Trim(s, drop), drop) == Trim(s, drop)
    decreases |s|
  {
    if s != "" && s[0] in drop {
      TrimIdempotent(s[1..], drop);
    } else if s != "" && s[|s| - 1] in drop {
      TrimIdempotent(s[..|s| - 1], drop);
    }
  }

  lemma TrimTwice(g: Grammar, expr: string, tape: Tape)
    requires Sound(g) && NonzeroCloses(tape)
    ensures forall i :: 0 <= i < |tape.closes| ==>
              (Compiled(g, Trim(expr, SPACES), tape, i) <==> Compiled(g, expr, tape, i))
  {
    TrimIdempotent(expr, SPACES);
  }
}
