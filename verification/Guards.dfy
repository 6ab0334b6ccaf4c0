/** The step guard language of the workflow engine: `key`, `!key`, `a == b`, `a != b`.

    `EvalWhen` follows the evaluator branch by branch.  Beside it stand an abstract syntax
    (`Guard`) with its own meaning, a printer and the parser hidden in the evaluator; the
    lemmas say exactly which guards survive printing and re-reading.

    A variable's value is represented by the text that formatting it yields, which is the
    only thing a guard can observe. */
module Guards {

  type Vars = map<string, string>

  // ---- the library functions the evaluator calls -----------------------------------------

  /** The white space that trimming removes: Unicode's White_Space property. */
  predicate IsSpace(c: char) {
    || c in {'\t', '\n', '\U{0B}', '\U{0C}', '\r', ' ', '\U{85}', '\U{A0}', '\U{1680}'}
    || '\U{2000}' <= c <= '\U{200A}'
    || c in {'\U{2028}', '\U{2029}', '\U{202F}', '\U{205F}', '\U{3000}'}
  }

  function TrimLeft(s: string): string {
    if s != "" && IsSpace(s[0]) then TrimLeft(s[1..]) else s
  }

  function TrimRight(s: string): string {
    if s != "" && IsSpace(s[|s| - 1]) then TrimRight(s[..|s| - 1]) else s
  }

  function Trim(s: string): string { TrimRight(TrimLeft(s)) }

  /** The two-character operator `op` stands at position `j` of `s`. */
  predicate At(s: string, op: string, j: int)
    requires |op| == 2
  {
    0 <= j && j + 2 <= |s| && s[j] == op[0] && s[j + 1] == op[1]
  }

  /** The position of the first occurrence of `op` in `s`, or -1. */
  function Index(s: string, op: string): (i: int)
    requires |op| == 2
    ensures i == -1 || At(s, op, i)
    ensures forall j :: At(s, op, j) ==> 0 <= i <= j
  {
    IndexFrom(s, op, 0)
  }

  function IndexFrom(s: string, op: string, k: nat): (i: int)
    requires |op| == 2
    ensures i == -1 || (k <= i && At(s, op, i))
    ensures forall j :: k <= j && At(s, op, j) ==> 0 <= i <= j
    decreases |s| - k
  {
    if k + 2 > |s| then -1
    else if At(s, op, k) then k
    else IndexFrom(s, op, k + 1)
  }

  /** Lower case, on the ASCII letters.  No other letter's lower case occurs in a false word. */
  function ToLower(s: string): string {
    seq(|s|, i requires 0 <= i < |s| => if 'A' <= s[i] <= 'Z' then s[i] - 'A' + 'a' else s[i])
  }

  // ---- the evaluator -----------------------------------------------------------------------

  function EvalWhen(text: string, vars: Vars): bool {
    var expr := Trim(text);
    if expr == "" then true
    else
      var i := Index(expr, "==");
      if i >= 0 then ResolveToken(expr[..i], vars) == ResolveToken(expr[i + 2..], vars)
      else
        var j := Index(expr, "!=");
        if j >= 0 then ResolveToken(expr[..j], vars) != ResolveToken(expr[j + 2..], vars)
        else if "!" <= expr then !VarTruthy(expr[1..], vars)
        else VarTruthy(expr, vars)
  }

  predicate IsQuoted(s: string) {
    |s| >= 2 && (s[0] == '"' || s[0] == '\'') && s[|s| - 1] == s[0]
  }

  function ResolveToken(token: string, vars: Vars): string {
    var s := Trim(token);
    if IsQuoted(s) then s[1..|s| - 1]
    else if s in vars then vars[s]
    else s
  }

  predicate VarTruthy(key: string, vars: Vars) {
    var k := Trim(key);
    k in vars && ToLower(Trim(vars[k])) !in {"", "false", "0", "no", "off"}
  }

  // ---- abstract syntax, meaning, printer, parser -------------------------------------------

  datatype Guard =
    | Unguarded
    | Eq(left: string, right: string)
    | Ne(left: string, right: string)
    | Not(key: string)
    | Var(key: string)

  /** What a guard means, stated on its syntax rather than on text. */
  predicate Meaning(g: Guard, vars: Vars) {
    match g
    case Unguarded => true
    case Eq(l, r) => ResolveToken(l, vars) == ResolveToken(r, vars)
    case Ne(l, r) => ResolveToken(l, vars) != ResolveToken(r, vars)
    case Not(k) => !VarTruthy(k, vars)
    case Var(k) => VarTruthy(k, vars)
  }

  function Print(g: Guard): string {
    match g
    case Unguarded => ""
    case Eq(l, r) => l + " == " + r
    case Ne(l, r) => l + " != " + r
    case Not(k) => "!" + k
    case Var(k) => k
  }

  function Parse(text: string): Guard {
    var expr := Trim(text);
    var i, j := Index(expr, "=="), Index(expr, "!=");
    if expr == "" then Unguarded
    else if i >= 0 then Eq(Trim(expr[..i]), Trim(expr[i + 2..]))
    else if j >= 0 then Ne(Trim(expr[..j]), Trim(expr[j + 2..]))
    else if expr[0] == '!' then Not(Trim(expr[1..]))
    else Var(Trim(expr))
  }

  predicate Trimmed(s: string) {
    s == "" || (!IsSpace(s[0]) && !IsSpace(s[|s| - 1]))
  }

  ghost predicate Occurs(op: string, s: string)
    requires |op| == 2
  {
    exists j :: At(s, op, j)
  }

  /** The guards whose printed form reads back as themselves. */
  ghost predicate Printable(g: Guard) {
    match g
    case Unguarded => true
    case Eq(l, r) => Trimmed(l) && Trimmed(r) && !Occurs("==", l)
    case Ne(l, r) => Trimmed(l) && Trimmed(r) && !Occurs("==", l) && !Occurs("==", r) && !Occurs("!=", l)
    case Not(k) => Trimmed(k) && !Occurs("==", k) && !Occurs("!=", k) && !("=" <= k)
    case Var(k) => k != "" && Trimmed(k) && !Occurs("==", k) && !Occurs("!=", k) && !("!" <= k)
  }

  // ---- trimming ------------------------------------------------------------------------------

  predicate AllSpace(s: string) { forall i :: 0 <= i < |s| ==> IsSpace(s[i]) }

  lemma {:induction false} TrimLeftSkips(a: string, t: string)
    requires AllSpace(a)
    ensures TrimLeft(a + t) == TrimLeft(t)
  {
    if a == "" {
      assert a + t == t;
    } else {
      assert (a + t)[1..] == a[1..] + t;
      TrimLeftSkips(a[1..], t);
    }
  }

  lemma {:induction false} TrimRightSkips(t: string, b: string)
    requires AllSpace(b)
    ensures TrimRight(t + b) == TrimRight(t)
  {
    if b == "" {
      assert t + b == t;
    } else {
      assert (t + b)[..|t + b| - 1] == t + b[..|b| - 1];
      TrimRightSkips(t, b[..|b| - 1]);
    }
  }

  lemma {:induction false} TrimLeftStops(s: string)
    ensures TrimLeft(s) == "" || !IsSpace(TrimLeft(s)[0])
    ensures |TrimLeft(s)| <= |s|
  {
    if s != "" && IsSpace(s[0]) { TrimLeftStops(s[1..]); }
  }

  lemma {:induction false} TrimRightStops(s: string)
    ensures TrimRight(s) <= s
    ensures TrimRight(s) == "" || !IsSpace(TrimRight(s)[|TrimRight(s)| - 1])
  {
    if s != "" && IsSpace(s[|s| - 1]) { TrimRightStops(s[..|s| - 1]); }
  }

  lemma TrimIsTrimmed(s: string)
    ensures Trimmed(Trim(s)) && |Trim(s)| <= |s|
  {
    TrimLeftStops(s);
    TrimRightStops(TrimLeft(s));
  }

  /** Trimming removes white space on both sides and nothing else. */
  lemma TrimUnique(a: string, s: string, b: string)
    requires Trimmed(s) && AllSpace(a) && AllSpace(b)
    ensures Trim(a + s + b) == s
  {
    assert a + s + b == a + (s + b);
    TrimLeftSkips(a, s + b);
    if s == "" {
      TrimLeftSkips(b, "");
      assert s + b == b == b + "";
    } else {
      TrimRightSkips(s, b);
    }
  }

  lemma TrimOfTrimmed(s: string)
    requires Trimmed(s)
    ensures Trim(s) == s
  {
    TrimUnique("", s, "");
    assert "" + s + "" == s;
  }

  // ---- reading back what was printed ----------------------------------------------------------

  function Before(l: string): string { if l == "" then "" else l + " " }
  function After(r: string): string { if r == "" then "" else " " + r }

  lemma TrimOfBefore(l: string)
    requires Trimmed(l)
    ensures Trim(Before(l)) == l && Trim(After(l)) == l
  {
    if l != "" {
      TrimUnique("", l, " ");
      assert "" + l + " " == Before(l);
      TrimUnique(" ", l, "");
      assert " " + l + "" == After(l);
    }
  }

  lemma BinaryTrimmed(l: string, op: string, r: string)
    requires Trimmed(l) && Trimmed(r) && (op == "==" || op == "!=")
    ensures Trimmed(Before(l) + op + After(r))
  {
    var e := Before(l) + op + After(r);
    assert e[0] == if l == "" then op[0] else l[0];
    assert e[|e| - 1] == if r == "" then op[1] else r[|r| - 1];
  }

  lemma BinaryText(l: string, op: string, r: string)
    ensures (if l == "" then " " else "") + (Before(l) + op + After(r)) + (if r == "" then " " else "")
         == l + " " + op + " " + r
  {
  }

  lemma TrimOfBinary(l: string, op: string, r: string)
    requires Trimmed(l) && Trimmed(r) && (op == "==" || op == "!=")
    ensures Trim(l + " " + op + " " + r) == Before(l) + op + After(r)
  {
    BinaryTrimmed(l, op, r);
    BinaryText(l, op, r);
    TrimUnique(if l == "" then " " else "", Before(l) + op + After(r), if r == "" then " " else "");
  }

  /** In `l op r`, the operator is found after `l` unless `l` itself holds one. */
  lemma IndexOfOp(l: string, op: string, r: string)
    requires op == "==" || op == "!="
    ensures !Occurs(op, l) ==> Index(Before(l) + op + After(r), op) == |Before(l)|
    ensures Occurs(op, l) ==> 0 <= Index(Before(l) + op + After(r), op) <= |l| - 2
  {
    var e := Before(l) + op + After(r);
    assert At(e, op, |Before(l)|);
    if Occurs(op, l) {
      var j :| At(l, op, j);
      assert At(e, op, j);
    } else {
      forall j | At(e, op, j) && j + 2 <= |l| ensures false { assert At(l, op, j); }
    }
  }

  lemma NoEqualsInNe(l: string, r: string)
    ensures Occurs("==", Before(l) + "!=" + After(r)) <==> Occurs("==", l) || Occurs("==", r)
  {
    var e := Before(l) + "!=" + After(r);
    var d := |Before(l)| + 3;
    forall j | At(l, "==", j) ensures At(e, "==", j) {}
    forall j | At(r, "==", j) ensures At(e, "==", d + j) {}
    forall j | At(e, "==", j) ensures At(l, "==", j) || At(r, "==", j - d) {}
  }

  lemma PrintBinary(l: string, r: string)
    ensures Print(Eq(l, r)) == l + " " + "==" + " " + r
    ensures Print(Ne(l, r)) == l + " " + "!=" + " " + r
  {
  }

  lemma EqIff(l: string, r: string)
    ensures Parse(Print(Eq(l, r))) == Eq(l, r) <==> Printable(Eq(l, r))
  {
    if Trimmed(l) && Trimmed(r) {
      PrintBinary(l, r);
      TrimOfBinary(l, "==", r);
      ParseBinary(Print(Eq(l, r)), l, "==", r);
    } else {
      ParseTrims(Print(Eq(l, r)));
    }
  }

  lemma NeIff(l: string, r: string)
    ensures Parse(Print(Ne(l, r))) == Ne(l, r) <==> Printable(Ne(l, r))
  {
    if Trimmed(l) && Trimmed(r) {
      PrintBinary(l, r);
      TrimOfBinary(l, "!=", r);
      ParseBinary(Print(Ne(l, r)), l, "!=", r);
    } else {
      ParseTrims(Print(Ne(l, r)));
    }
  }

  lemma ParseBinary(text: string, l: string, op: string, r: string)
    requires Trimmed(l) && Trimmed(r) && (op == "==" || op == "!=")
    requires Trim(text) == Before(l) + op + After(r)
    ensures op == "==" ==> (Parse(text) == Eq(l, r) <==> !Occurs("==", l))
    ensures op == "!=" ==> (Parse(text) == Ne(l, r) <==> !Occurs("==", l) && !Occurs("==", r) && !Occurs("!=", l))
  {
    var expr := Trim(text);
    var i, j := Index(expr, "=="), Index(expr, "!=");
    IndexOfOp(l, op, r);
    NoEqualsInNe(l, r);
    assert op == "==" || (i >= 0 <==> Occurs("==", l) || Occurs("==", r));
    var k := if op == "==" then i else j;
    SplitTrims(expr, l, op, r, k);
  }

  lemma SplitTrims(expr: string, l: string, op: string, r: string, k: int)
    requires Trimmed(l) && Trimmed(r) && (op == "==" || op == "!=")
    requires expr == Before(l) + op + After(r)
    requires k == |Before(l)| || 0 <= k < |l|
    ensures k == |Before(l)| ==> Trim(expr[..k]) == l && Trim(expr[k + 2..]) == r
    ensures k < |l| ==> Trim(expr[..k]) != l
  {
    if k == |Before(l)| {
      assert expr[..k] == Before(l) && expr[k + 2..] == After(r);
      TrimOfBefore(l);
      TrimOfBefore(r);
    } else {
      TrimIsTrimmed(expr[..k]);
    }
  }

  lemma ParseTrims(text: string)
    ensures match Parse(text)
            case Unguarded => true
            case Eq(l, r) => Trimmed(l) && Trimmed(r)
            case Ne(l, r) => Trimmed(l) && Trimmed(r)
            case Not(k) => Trimmed(k)
            case Var(k) => Trimmed(k)
  {
    forall t ensures Trimmed(Trim(t)) { TrimIsTrimmed(t); }
  }

  lemma KeyIff(k: string)
    ensures Parse(k) == Var(k) <==> Printable(Var(k))
  {
    if Trimmed(k) { TrimOfTrimmed(k); } else { ParseTrims(k); }
  }

  lemma PrefixIff(k: string)
    ensures Parse("!" + k) == Not(k) <==> Printable(Not(k))
  {
    if Trimmed(k) {
      var e := "!" + k;
      TrimOfTrimmed(e);
      TrimOfTrimmed(k);
      assert e[1..] == k;
      forall op, j | (op == "==" || op == "!=") && At(k, op, j) ensures At(e, op, j + 1) {}
      forall op, j | (op == "==" || op == "!=") && At(e, op, j)
        ensures At(k, op, j - 1) || (j == 0 && op == "!=" && "=" <= k)
      {}
      if "=" <= k { assert At(e, "!=", 0); }
    } else {
      ParseTrims("!" + k);
    }
  }

  // ---- theorems --------------------------------------------------------------------------------

  lemma MeaningIgnoresOuterSpace(t: string, vars: Vars)
    ensures ResolveToken(Trim(t), vars) == ResolveToken(t, vars)
    ensures VarTruthy(Trim(t), vars) == VarTruthy(t, vars)
  {
    TrimIsTrimmed(t);
    TrimOfTrimmed(Trim(t));
  }

  /** The evaluator is the meaning of the guard it implicitly parses. */
  lemma EvalIsMeaningOfParse(text: string, vars: Vars)
    ensures EvalWhen(text, vars) == Meaning(Parse(text), vars)
  {
    var expr := Trim(text);
    var i, j := Index(expr, "=="), Index(expr, "!=");
    if expr == "" {
    } else if i >= 0 {
      MeaningIgnoresOuterSpace(expr[..i], vars);
      MeaningIgnoresOuterSpace(expr[i + 2..], vars);
    } else if j >= 0 {
      MeaningIgnoresOuterSpace(expr[..j], vars);
      MeaningIgnoresOuterSpace(expr[j + 2..], vars);
    } else {
      assert "!" <= expr <==> expr[0] == '!';
      MeaningIgnoresOuterSpace(expr[1..], vars);
      MeaningIgnoresOuterSpace(expr, vars);
    }
  }

  /** Evaluating a printed guard gives its meaning, whatever the variables are. */
  lemma EvalOfPrinted(g: Guard, vars: Vars)
    requires Printable(g)
    ensures EvalWhen(Print(g), vars) == Meaning(g, vars)
  {
    EvalIsMeaningOfParse(Print(g), vars);
    ParsePrintIff(g);
  }

  /** Printing then parsing returns the same guard exactly for the printable guards. */
  lemma ParsePrintIff(g: Guard)
    ensures Parse(Print(g)) == g <==> Printable(g)
  {
    match g
    case Unguarded => TrimOfTrimmed("");
    case Eq(l, r) => EqIff(l, r);
    case Ne(l, r) => NeIff(l, r);
    case Not(k) => PrefixIff(k);
    case Var(k) => KeyIff(k);
  }

  /** `==` and `!=` between the same tokens are complements as texts. */
  lemma {:induction false} ComparisonsComplement(l: string, r: string, vars: Vars)
    requires Printable(Ne(l, r))
    ensures EvalWhen(Print(Ne(l, r)), vars) == !EvalWhen(Print(Eq(l, r)), vars)
  {
    EvalOfPrinted(Ne(l, r), vars);
    EvalOfPrinted(Eq(l, r), vars);
  }

  /** So are `key` and `!key`. */
  lemma {:induction false} KeysComplement(k: string, vars: Vars)
    requires Printable(Not(k)) && Printable(Var(k))
    ensures EvalWhen(Print(Not(k)), vars) == !EvalWhen(Print(Var(k)), vars)
  {
    EvalOfPrinted(Not(k), vars);
    EvalOfPrinted(Var(k), vars);
  }
}
