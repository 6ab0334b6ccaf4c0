/** What the tokens and keys of a guard denote, stated without the evaluator's helpers, and so what a
    guard's text means. */
module GuardTokens {
  import opened Guards

  /** What a trimmed token stands for: the text between its quotes, else the value of the variable
      of that name, else itself. */
  ghost predicate Denotes(token: string, vars: Vars, text: string) {
    || token == "\"" + text + "\"" || token == "'" + text + "'"
    || (!Quoted(token) && token in vars && vars[token] == text)
    || (!Quoted(token) && token !in vars && token == text)
  }

  ghost predicate Quoted(token: string) {
    exists inner :: token == "\"" + inner + "\"" || token == "'" + inner + "'"
  }

  lemma QuotesOff(q: string, inner: string)
    requires q == "\"" || q == "'"
    ensures IsQuoted(q + inner + q) && (q + inner + q)[1..|inner| + 1] == inner
  {
  }

  lemma QuotedIs(s: string)
    ensures Quoted(s) <==> IsQuoted(s)
  {
    if IsQuoted(s) {
      var inner := s[1..|s| - 1];
      assert s == [s[0]] + inner + [s[0]];
    }
    if inner :| s == "\"" + inner + "\"" || s == "'" + inner + "'" {
      QuotesOff(if s == "\"" + inner + "\"" then "\"" else "'", inner);
    }
  }

  lemma QuotedDenotes(token: string, vars: Vars, text: string)
    requires IsQuoted(token)
    ensures Denotes(token, vars, text) <==> text == token[1..|token| - 1]
  {
    var inner := token[1..|token| - 1];
    assert token == [token[0]] + inner + [token[0]];
    QuotedIs(token);
    QuotesOff("\"", text);
    QuotesOff("'", text);
  }

  lemma PlainDenotes(token: string, vars: Vars, text: string)
    requires !IsQuoted(token)
    ensures Denotes(token, vars, text) <==> text == if token in vars then vars[token] else token
  {
    QuotedIs(token);
    QuotesOff("\"", text);
    QuotesOff("'", text);
  }

  /** Whatever white space surrounds it, a token resolves to exactly what it denotes. */
  lemma ResolvesIff(a: string, token: string, b: string, vars: Vars, text: string)
    requires AllSpace(a) && AllSpace(b) && Trimmed(token)
    ensures ResolveToken(a + token + b, vars) == text <==> Denotes(token, vars, text)
  {
    TrimUnique(a, token, b);
    if IsQuoted(token) { QuotedDenotes(token, vars, text); } else { PlainDenotes(token, vars, text); }
  }

  /** `a` and `b` differ at most in the case of letters that are small in `b`. */
  ghost predicate SameUpToCase(a: string, b: string) {
    |a| == |b| && forall i :: 0 <= i < |a| ==> a[i] == b[i] || ('a' <= b[i] <= 'z' && a[i] == b[i] - 'a' + 'A')
  }

  ghost predicate SaysNo(value: string) {
    || value == "" || value == "0"
    || SameUpToCase(value, "false") || SameUpToCase(value, "no") || SameUpToCase(value, "off")
  }

  lemma LowerIs(a: string, word: string)
    requires forall i :: 0 <= i < |word| ==> !('A' <= word[i] <= 'Z')
    ensures ToLower(a) == word <==> SameUpToCase(a, word)
  {
    assert |ToLower(a)| == |a|;
    if SameUpToCase(a, word) {
      assert forall i :: 0 <= i < |a| ==> ToLower(a)[i] == word[i];
    }
    if ToLower(a) == word {
      forall i | 0 <= i < |a| ensures a[i] == word[i] || ('a' <= word[i] <= 'z' && a[i] == word[i] - 'a' + 'A') {
        assert ToLower(a)[i] == word[i];
      }
    }
  }

  lemma SaysNoIff(value: string)
    ensures ToLower(value) in {"", "false", "0", "no", "off"} <==> SaysNo(value)
  {
    LowerIs(value, "");
    LowerIs(value, "0");
    LowerIs(value, "false");
    LowerIs(value, "no");
    LowerIs(value, "off");
    assert SameUpToCase(value, "") <==> value == "";
    assert SameUpToCase(value, "0") <==> value == "0";
  }

  /** A key is truthy exactly when it is bound to a value that, white space around it and the case
      of its letters aside, is not one of the five that say no. */
  lemma TruthyIff(a: string, key: string, b: string, vars: Vars, c: string, value: string, d: string)
    requires AllSpace(a) && AllSpace(b) && Trimmed(key) && AllSpace(c) && AllSpace(d) && Trimmed(value)
    requires key in vars ==> vars[key] == c + value + d
    ensures VarTruthy(a + key + b, vars) <==> key in vars && !SaysNo(value)
  {
    TrimUnique(a, key, b);
    TrimUnique(c, value, d);
    SaysNoIff(value);
  }

  // ---- guards as texts ---------------------------------------------------------------------------

  lemma DenotedIs(token: string, vars: Vars, text: string)
    requires Trimmed(token) && Denotes(token, vars, text)
    ensures ResolveToken(token, vars) == text
  {
    ResolvesIff("", token, "", vars, text);
    assert "" + token + "" == token;
  }

  /** A comparison holds exactly when what its tokens denote is equal, or different. */
  lemma {:induction false} EqualMeans(l: string, r: string, vars: Vars, x: string, y: string)
    requires Printable(Eq(l, r)) && Denotes(l, vars, x) && Denotes(r, vars, y)
    ensures EvalWhen(l + " == " + r, vars) <==> x == y
  {
    DenotedIs(l, vars, x);
    DenotedIs(r, vars, y);
    EvalOfPrinted(Eq(l, r), vars);
  }

  lemma {:induction false} DifferentMeans(l: string, r: string, vars: Vars, x: string, y: string)
    requires Printable(Ne(l, r)) && Denotes(l, vars, x) && Denotes(r, vars, y)
    ensures EvalWhen(l + " != " + r, vars) <==> x != y
  {
    DenotedIs(l, vars, x);
    DenotedIs(r, vars, y);
    EvalOfPrinted(Ne(l, r), vars);
  }

  /** A key as a guard holds exactly when its value does not say no, a negated one exactly when
      the key is missing or its value says no; white space alone is no guard. */
  lemma {:induction false} KeyMeans(k: string, vars: Vars, c: string, value: string, d: string)
    requires AllSpace(c) && AllSpace(d) && Trimmed(value) && (k in vars ==> vars[k] == c + value + d)
    ensures Printable(Var(k)) ==> (EvalWhen(k, vars) <==> k in vars && !SaysNo(value))
    ensures Printable(Not(k)) ==> (EvalWhen("!" + k, vars) <==> k !in vars || SaysNo(value))
    ensures EvalWhen(c, vars)
  {
    assert "" + k + "" == k;
    if Trimmed(k) { TruthyIff("", k, "", vars, c, value, d); }
    if Printable(Var(k)) { EvalOfPrinted(Var(k), vars); }
    if Printable(Not(k)) { EvalOfPrinted(Not(k), vars); }
    TrimUnique(c, "", "");
    assert c + "" + "" == c;
  }
}
