/** `${...}` references in config values, resolved in one pass or in stages. */
module VariableResolution {
  import opened Sequences

  /** What a reference can name besides the environment; `""` stands for a member that is unset or
      empty, which the source treats alike. */
  datatype Context = Context(projectPath: string, checkoutPath: string, checkoutBranch: string, baseBranch: string, sessionId: string)

  /** What an expression resolves to, if anything. */
  type Values = string -> Option<string>

  function NonEmpty(s: string): Option<string> {
    if s == "" then None else Some(s)
  }

  /** An environment reference resolves to whatever is set, empty or not. */
  function ValueOf(env: map<string, string>, ctx: Context, expr: string): Option<string> {
    if "env." <= expr then (if expr[4..] in env then Some(env[expr[4..]]) else None)
    else if expr == "project.path" then NonEmpty(ctx.projectPath)
    else if expr == "checkout.path" then NonEmpty(ctx.checkoutPath)
    else if expr == "checkout.branch" then NonEmpty(ctx.checkoutBranch)
    else if expr == "base.branch" then NonEmpty(ctx.baseBranch)
    else if expr == "session.id" then NonEmpty(ctx.sessionId)
    else None
  }

  /** How many characters precede the first `}`: all of them if there is none. */
  function BeforeClose(s: string): (n: nat)
    ensures n <= |s| && '}' !in s[..n] && (n < |s| ==> s[n] == '}')
  {
    if s == "" || s[0] == '}' then 0 else 1 + BeforeClose(s[1..])
  }

  /** `/\$\{([^}]+)\}/` matches at the start. */
  predicate Matches(s: string) {
    |s| >= 2 && s[0] == '$' && s[1] == '{' && 0 < BeforeClose(s[2..]) < |s| - 2
  }

  function Expr(s: string): string
    requires Matches(s)
  {
    s[2..2 + BeforeClose(s[2..])]
  }

  function AfterMatch(s: string): (rest: string)
    requires Matches(s)
    ensures |rest| < |s| && s == "${" + Expr(s) + "}" + rest
  {
    s[3 + BeforeClose(s[2..])..]
  }

  /** `raw.replace(...)`: leftmost matches in turn, a replacement never scanned again. */
  function Replace(values: Values, raw: string): string
    decreases |raw|
  {
    if raw == "" then ""
    else if Matches(raw) then
      (match values(Expr(raw)) case Some(v) => v case None => "${" + Expr(raw) + "}") + Replace(values, AfterMatch(raw))
    else [raw[0]] + Replace(values, raw[1..])
  }

  function ResolveVariables(env: map<string, string>, ctx: Context, raw: string): string {
    Replace(expr => ValueOf(env, ctx, expr), raw)
  }

  // ---------------------------------------------------------------- what a value is made of

  datatype Token = Literal(c: char) | Ref(expr: string)

  function Tokens(raw: string): seq<Token>
    decreases |raw|
  {
    if raw == "" then []
    else if Matches(raw) then [Ref(Expr(raw))] + Tokens(AfterMatch(raw))
    else [Literal(raw[0])] + Tokens(raw[1..])
  }

  function Rendered(t: Token): string {
    match t case Literal(c) => [c] case Ref(expr) => "${" + expr + "}"
  }

  function Render(ts: seq<Token>): string {
    if ts == [] then "" else Rendered(ts[0]) + Render(ts[1..])
  }

  /** Every reference that resolves gives way to its value, and nothing else changes. */
  function Substitute(values: Values, ts: seq<Token>): string {
    if ts == [] then ""
    else (if ts[0].Ref? && values(ts[0].expr).Some? then values(ts[0].expr).value else Rendered(ts[0])) + Substitute(values, ts[1..])
  }

  lemma {:induction false} TokensRender(raw: string)
    ensures Render(Tokens(raw)) == raw
    decreases |raw|
  {
    if raw != "" {
      if Matches(raw) {
        TokensRender(AfterMatch(raw));
        assert Tokens(raw)[1..] == Tokens(AfterMatch(raw));
      } else {
        TokensRender(raw[1..]);
        assert Tokens(raw)[1..] == Tokens(raw[1..]);
      }
    }
  }

  lemma {:induction false} ReplaceSubstitutes(values: Values, raw: string)
    ensures Replace(values, raw) == Substitute(values, Tokens(raw))
    decreases |raw|
  {
    if raw != "" {
      if Matches(raw) {
        ReplaceSubstitutes(values, AfterMatch(raw));
        assert Tokens(raw)[1..] == Tokens(AfterMatch(raw));
      } else {
        ReplaceSubstitutes(values, raw[1..]);
        assert Tokens(raw)[1..] == Tokens(raw[1..]);
      }
    }
  }

  lemma {:induction false} SubstituteNothing(values: Values, ts: seq<Token>)
    requires forall t | t in ts && t.Ref? :: values(t.expr) == None
    ensures Substitute(values, ts) == Render(ts)
  {
    if ts != [] {
      SubstituteNothing(values, ts[1..]);
    }
  }

  /** What cannot be resolved comes through verbatim. */
  lemma UnresolvableIsVerbatim(values: Values, raw: string)
    requires forall t | t in Tokens(raw) && t.Ref? :: values(t.expr) == None
    ensures Replace(values, raw) == raw
  {
    ReplaceSubstitutes(values, raw);
    SubstituteNothing(values, Tokens(raw));
    TokensRender(raw);
  }

  // ---------------------------------------------------------------- stages

  /** Whatever follows, no reference starts at `i`: what comes there is other than `{`, or `{}`. */
  predicate SettledAt(s: string, i: nat) {
    i + 1 < |s| && (s[i + 1] != '{' || (i + 2 < |s| && s[i + 2] == '}'))
  }

  /** No reference starts in here. */
  predicate Settled(s: string) {
    forall i | 0 <= i < |s| && s[i] == '$' :: SettledAt(s, i)
  }

  /** A value that makes no reference with what stands around it, even right after a `$`. */
  predicate Harmless(v: string) {
    Settled("$" + v)
  }

  function Literals(s: string): seq<Token> {
    if s == "" then [] else [Literal(s[0])] + Literals(s[1..])
  }

  /** One stage, token by token. */
  function Resolved(values: Values, ts: seq<Token>): seq<Token> {
    if ts == [] then []
    else (if ts[0].Ref? && values(ts[0].expr).Some? then Literals(values(ts[0].expr).value) else [ts[0]]) + Resolved(values, ts[1..])
  }

  ghost predicate AllHarmless(values: Values, raw: string) {
    forall t | t in Tokens(raw) && t.Ref? && values(t.expr).Some? :: Harmless(values(t.expr).value)
  }

  lemma SettledTail(v: string)
    requires v != "" && Settled(v)
    ensures Settled(v[1..])
  {
    var t := v[1..];
    forall i | 0 <= i < |t| && t[i] == '$' ensures SettledAt(t, i) {
      assert SettledAt(v, i + 1);
    }
  }

  lemma SettledStart(v: string, rest: string)
    requires v != "" && Settled(v)
    ensures !Matches(v + rest)
  {
    var s := v + rest;
    if v[0] == '$' {
      assert SettledAt(v, 0);
      assert v[1] == '{' ==> s[2..] != "" && s[2..][0] == '}';
    }
  }

  lemma {:induction false} TokensOfPlain(v: string, rest: string)
    requires Settled(v)
    ensures Tokens(v + rest) == Literals(v) + Tokens(rest)
  {
    if v == "" {
      Nothing(rest);
      Nothing(Tokens(rest));
    } else {
      assert (v + rest)[1..] == v[1..] + rest;
      SettledStart(v, rest);
      SettledTail(v);
      TokensOfPlain(v[1..], rest);
      Assoc([Literal(v[0])], Literals(v[1..]), Tokens(rest));
    }
  }

  lemma {:induction false} CloseAfter(e: string, rest: string)
    requires '}' !in e
    ensures BeforeClose(e + "}" + rest) == |e|
  {
    if e != "" {
      assert (e + "}" + rest)[1..] == e[1..] + "}" + rest;
      CloseAfter(e[1..], rest);
    }
  }

  lemma TokensOfRef(e: string, rest: string)
    requires e != "" && '}' !in e
    ensures Tokens("${" + e + "}" + rest) == [Ref(e)] + Tokens(rest)
  {
    var s := "${" + e + "}" + rest;
    assert s[2..] == e + "}" + rest;
    CloseAfter(e, rest);
    assert s[2..2 + |e|] == e && s[3 + |e|..] == rest;
  }

  lemma MatchHasClose(raw: string)
    requires Matches(raw)
    ensures '}' in raw
  {
    assert raw[2 + BeforeClose(raw[2..])] == '}';
  }

  /** Without a `}` there is nothing to replace. */
  lemma {:induction false} NoCloseNoChange(values: Values, raw: string)
    requires '}' !in raw
    ensures Replace(values, raw) == raw
    decreases |raw|
  {
    if raw != "" {
      if Matches(raw) {
        MatchHasClose(raw);
        assert false;
      } else {
        NoCloseNoChange(values, raw[1..]);
      }
    }
  }

  lemma HarmlessIsSettled(v: string)
    requires Harmless(v)
    ensures v != "" && Settled(v) && (v[0] == '{' ==> |v| > 1 && v[1] == '}')
  {
    var w := "$" + v;
    assert w[0] == '$' && w[1..] == v && SettledAt(w, 0);
    SettledTail(w);
  }

  /** After a `$`, a value that gave way to a reference still starts none. */
  lemma ValueAfterDollar(v: string, more: string)
    requires Harmless(v)
    ensures !Matches("$" + (v + more))
  {
    Assoc("$", v, more);
    SettledStart("$" + v, more);
  }

  /** A character that starts no reference still starts none once the rest is replaced. */
  lemma LiteralStays(values: Values, raw: string)
    requires raw != "" && !Matches(raw) && AllHarmless(values, raw[1..])
    ensures !Matches([raw[0]] + Replace(values, raw[1..]))
  {
    var rest := raw[1..];
    var after := [raw[0]] + Replace(values, rest);
    if raw[0] == '$' && rest != "" {
      if Matches(rest) {
        assert Tokens(rest)[0] == Ref(Expr(rest));
        if values(Expr(rest)).Some? {
          ValueAfterDollar(values(Expr(rest)).value, Replace(values, AfterMatch(rest)));
        } else {
          assert after[1] == '$';
        }
      } else if rest[0] == '{' {
        BraceStays(values, raw);
      } else {
        assert after[1] == rest[0];
      }
    }
  }

  lemma BraceStays(values: Values, raw: string)
    requires |raw| >= 2 && raw[0] == '$' && raw[1] == '{' && !Matches(raw)
    ensures !Matches("$" + Replace(values, raw[1..]))
  {
    var inner := raw[2..];
    var after := "$" + Replace(values, raw[1..]);
    assert raw[1..][1..] == inner && after[2..] == Replace(values, inner);
    if BeforeClose(inner) == |inner| {
      NoCloseNoChange(values, inner);
    } else {
      assert inner[0] == '}' && Replace(values, inner)[0] == '}';
    }
  }

  lemma {:induction false} TokensOfReplaced(values: Values, raw: string)
    requires AllHarmless(values, raw)
    ensures Tokens(Replace(values, raw)) == Resolved(values, Tokens(raw))
    decreases |raw|
  {
    if raw != "" {
      if Matches(raw) {
        var e, rest := Expr(raw), AfterMatch(raw);
        assert Tokens(raw)[1..] == Tokens(rest) && Tokens(raw)[0] == Ref(e);
        assert forall t | t in Tokens(rest) :: t in Tokens(raw);
        TokensOfReplaced(values, rest);
        if values(e).Some? {
          HarmlessIsSettled(values(e).value);
          TokensOfPlain(values(e).value, Replace(values, rest));
        } else {
          TokensOfRef(e, Replace(values, rest));
        }
      } else {
        assert Tokens(raw)[1..] == Tokens(raw[1..]);
        assert forall t | t in Tokens(raw[1..]) :: t in Tokens(raw);
        TokensOfReplaced(values, raw[1..]);
        LiteralStays(values, raw);
        var after := [raw[0]] + Replace(values, raw[1..]);
        assert after[1..] == Replace(values, raw[1..]);
      }
    }
  }

  function OrElse(first: Values, second: Values): Values {
    expr => if first(expr).Some? then first(expr) else second(expr)
  }

  lemma SubstituteLiteral(values: Values, c: char, rest: seq<Token>)
    ensures Substitute(values, [Literal(c)] + rest) == [c] + Substitute(values, rest)
  {
    assert ([Literal(c)] + rest)[1..] == rest;
  }

  lemma {:induction false} SubstituteLiterals(values: Values, s: string, rest: seq<Token>)
    ensures Substitute(values, Literals(s) + rest) == s + Substitute(values, rest)
  {
    if s == "" {
      Nothing(rest);
    } else {
      SubstituteLiterals(values, s[1..], rest);
      Assoc([Literal(s[0])], Literals(s[1..]), rest);
      SubstituteLiteral(values, s[0], Literals(s[1..]) + rest);
      Assoc([s[0]], s[1..], Substitute(values, rest));
      assert s == [s[0]] + s[1..];
    }
  }

  lemma {:induction false} SubstituteInStages(first: Values, second: Values, ts: seq<Token>)
    ensures Substitute(second, Resolved(first, ts)) == Substitute(OrElse(first, second), ts)
  {
    if ts != [] {
      SubstituteInStages(first, second, ts[1..]);
      if ts[0].Ref? && first(ts[0].expr).Some? {
        SubstituteLiterals(second, first(ts[0].expr).value, Resolved(first, ts[1..]));
      } else {
        var after := [ts[0]] + Resolved(first, ts[1..]);
        assert after[1..] == Resolved(first, ts[1..]);
      }
    }
  }

  /** Two stages are one pass in which the first stage's answers win. */
  lemma ReplaceInStages(first: Values, second: Values, raw: string)
    requires AllHarmless(first, raw)
    ensures Replace(second, Replace(first, raw)) == Replace(OrElse(first, second), raw)
  {
    ReplaceSubstitutes(second, Replace(first, raw));
    TokensOfReplaced(first, raw);
    SubstituteInStages(first, second, Tokens(raw));
    ReplaceSubstitutes(OrElse(first, second), raw);
  }

  function Merge(a: Context, b: Context): Context {
    Context(if a.projectPath != "" then a.projectPath else b.projectPath,
            if a.checkoutPath != "" then a.checkoutPath else b.checkoutPath,
            if a.checkoutBranch != "" then a.checkoutBranch else b.checkoutBranch,
            if a.baseBranch != "" then a.baseBranch else b.baseBranch,
            if a.sessionId != "" then a.sessionId else b.sessionId)
  }

  lemma {:induction false} ReplaceCongruent(v: Values, w: Values, raw: string)
    requires forall e :: v(e) == w(e)
    ensures Replace(v, raw) == Replace(w, raw)
    decreases |raw|
  {
    if raw != "" {
      if Matches(raw) {
        ReplaceCongruent(v, w, AfterMatch(raw));
      } else {
        ReplaceCongruent(v, w, raw[1..]);
      }
    }
  }

  /** Resolving against one context and later against another is resolving once against both, the
      earlier one winning, whenever the earlier one's values are harmless. */
  lemma StagedResolution(env: map<string, string>, a: Context, b: Context, raw: string)
    requires AllHarmless(expr => ValueOf(env, a, expr), raw)
    ensures ResolveVariables(env, b, ResolveVariables(env, a, raw)) == ResolveVariables(env, Merge(a, b), raw)
  {
    var first: Values := expr => ValueOf(env, a, expr);
    var second: Values := expr => ValueOf(env, b, expr);
    ReplaceInStages(first, second, raw);
    ReplaceCongruent(OrElse(first, second), expr => ValueOf(env, Merge(a, b), expr), raw);
  }

  lemma NoDollarIsSettled(v: string)
    requires '$' !in v
    ensures Settled(v)
  {
  }

  lemma ReplacePlain(values: Values, v: string, rest: string)
    requires Settled(v)
    ensures Replace(values, v + rest) == v + Replace(values, rest)
  {
    ReplaceSubstitutes(values, v + rest);
    TokensOfPlain(v, rest);
    SubstituteLiterals(values, v, Tokens(rest));
    ReplaceSubstitutes(values, rest);
  }

  lemma ReplaceRef(values: Values, e: string, rest: string)
    requires e != "" && '}' !in e
    ensures Replace(values, "${" + e + "}" + rest)
            == (match values(e) case Some(v) => v case None => "${" + e + "}") + Replace(values, rest)
  {
    ReplaceSubstitutes(values, "${" + e + "}" + rest);
    TokensOfRef(e, rest);
    assert ([Ref(e)] + Tokens(rest))[1..] == Tokens(rest);
    ReplaceSubstitutes(values, rest);
  }

  lemma ValueInPlace(values: Values, e: string, v: string, tail: string)
    requires e != "" && '}' !in e && values(e) == Some(v) && '$' !in tail
    ensures Replace(values, "$" + ("${" + e + "}" + tail)) == "$" + v + tail
  {
    var ref := "${" + e + "}" + tail;
    var raw := "$" + ref;
    assert raw[1..] == ref && raw[1] == '$' && !Matches(raw);
    ReplaceRef(values, e, tail);
    NoDollarIsSettled(tail);
    ReplacePlain(values, tail, "");
    Nothing(tail);
    Assoc("$", v, tail);
  }

  const Unset := Context("", "", "", "", "")

  lemma EmptyEnvironmentValue(env: map<string, string>, ctx: Context, name: string, tail: string)
    requires name in env && env[name] == "" && '}' !in name && '$' !in tail
    ensures ResolveVariables(env, ctx, "$" + ("${" + ("env." + name) + "}" + tail)) == "$" + tail
  {
    var e := "env." + name;
    assert e[4..] == name;
    ValueInPlace(expr => ValueOf(env, ctx, expr), e, "", tail);
    Nothing("$");
  }

  const CHECKOUT_PATH := "checkout.path"

  lemma ValueOfCheckoutPath(env: map<string, string>, ctx: Context)
    requires ctx.checkoutPath != ""
    ensures ValueOf(env, ctx, CHECKOUT_PATH) == Some(ctx.checkoutPath)
  {
    assert CHECKOUT_PATH[0] == 'c' && "project.path"[0] == 'p';
  }

  lemma CheckoutPathIsPlain()
    ensures CHECKOUT_PATH != "" && '}' !in CHECKOUT_PATH && '$' !in CHECKOUT_PATH
  {
    assert forall i | 0 <= i < |CHECKOUT_PATH| :: CHECKOUT_PATH[i] != '}' && CHECKOUT_PATH[i] != '$';
  }

  /** An environment value that is set but empty, between a `$` and a `{`, leaves a reference that
      was not in the text, and the later stage resolves it. */
  lemma EmptyValueMakesAReference(env: map<string, string>, name: string, path: string)
    requires name in env && env[name] == "" && path != "" && '}' !in name
    ensures var tail := "{" + CHECKOUT_PATH + "}";
            var raw := "$" + ("${" + ("env." + name) + "}" + tail);
            var later := Unset.(checkoutPath := path);
            && ResolveVariables(env, later, ResolveVariables(env, Unset, raw)) == path
            && ResolveVariables(env, Merge(Unset, later), raw) == "$" + tail
  {
    var later := Unset.(checkoutPath := path);
    var tail := "{" + CHECKOUT_PATH + "}";
    CheckoutPathIsPlain();
    EmptyEnvironmentValue(env, Unset, name, tail);
    EmptyEnvironmentValue(env, Merge(Unset, later), name, tail);
    ValueOfCheckoutPath(env, later);
    ReferenceResolves(expr => ValueOf(env, later, expr), CHECKOUT_PATH, path);
    assert "$" + tail == "${" + CHECKOUT_PATH + "}";
  }

  lemma ReferenceResolves(values: Values, e: string, v: string)
    requires e != "" && '}' !in e && values(e) == Some(v)
    ensures Replace(values, "${" + e + "}") == v
  {
    ReplaceRef(values, e, "");
    Nothing("${" + e + "}");
    Nothing(v);
  }

  // ---------------------------------------------------------------- exactly which values are harmless

  /** The first stage resolves one expression and nothing else. */
  function Only(e: string, v: string): Values {
    x => if x == e then Some(v) else None
  }

  /** A later context that resolves every reference there is to nothing. */
  const Erase: Values := x => Some("")

  /** Somewhere a reference starts. */
  ghost predicate HasMatch(s: string) {
    exists i :: 0 <= i < |s| && Matches(s[i..])
  }

  lemma {:induction false} EraseShrinks(s: string)
    ensures |Replace(Erase, s)| <= |s| && (HasMatch(s) ==> |Replace(Erase, s)| < |s|)
    decreases |s|
  {
    if s != "" {
      if Matches(s) {
        EraseShrinks(AfterMatch(s));
      } else {
        EraseShrinks(s[1..]);
        if i :| 0 <= i < |s| && Matches(s[i..]) {
          assert i > 0 by { assert s[0..] == s; }
          assert s[1..][i - 1..] == s[i..];
        }
      }
    }
  }

  /** What a text can go on with so that a `$` left open becomes a reference. */
  lemma OpenDollarMatches(w: string, i: nat) returns (tail: string)
    requires i < |w| && w[i] == '$'
    requires !SettledAt(w, i)
    ensures '$' !in tail && HasMatch(w + tail)
  {
    if i + 1 == |w| {
      tail := "{q}";
    } else if i + 2 == |w| {
      tail := "q}";
    } else {
      tail := "}";
    }
    var s := w + tail;
    var inner := s[i..][2..];
    assert inner != "" && inner[0] != '}' && '}' in inner by { assert inner[|inner| - 1] == '}'; }
    CloseIsInside(inner);
    assert Matches(s[i..]);
  }

  lemma {:induction false} CloseIsInside(s: string)
    requires '}' in s
    ensures BeforeClose(s) < |s| && (s[0] != '}' ==> BeforeClose(s) > 0)
  {
    if s[0] != '}' {
      CloseIsInside(s[1..]);
    }
  }

  /** Any other value has a text around it on which the stages and the single pass differ. */
  lemma HarmfulDiffers(e: string, v: string) returns (raw: string)
    requires e != "" && '}' !in e && !Harmless(v)
    ensures Replace(Erase, Replace(Only(e, v), raw)) != Replace(OrElse(Only(e, v), Erase), raw)
  {
    var w := "$" + v;
    var i :| 0 <= i < |w| && w[i] == '$' && !SettledAt(w, i);
    var tail := OpenDollarMatches(w, i);
    raw := "$" + ("${" + e + "}" + tail);
    ValueInPlace(Only(e, v), e, v, tail);
    ValueInPlace(OrElse(Only(e, v), Erase), e, v, tail);
    EraseShrinks(w + tail);
  }

  /** Over all texts, and whatever later stages may resolve: a value resolved in an earlier stage
      never changes what a later one makes of the text, exactly when it is harmless. */
  lemma StagesAgreeIffHarmless(e: string, v: string)
    requires e != "" && '}' !in e
    ensures (forall raw: string, later: Values ::
               Replace(later, Replace(Only(e, v), raw)) == Replace(OrElse(Only(e, v), later), raw))
            <==> Harmless(v)
  {
    if Harmless(v) {
      forall raw: string, later: Values
        ensures Replace(later, Replace(Only(e, v), raw)) == Replace(OrElse(Only(e, v), later), raw)
      {
        ReplaceInStages(Only(e, v), later, raw);
      }
    } else {
      var raw := HarmfulDiffers(e, v);
    }
  }
}
