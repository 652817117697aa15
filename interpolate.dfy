/**
 * `${name}` interpolation (src/runner/interpolate.rs).
 *
 * The placeholder pattern is the regular expression `\$\{([^}]+)\}`: a
 * dollar sign, an opening brace, one or more characters other than a closing
 * brace (the name), and a closing brace. One pass replaces the leftmost
 * non-overlapping matches from left to right; passes repeat until one of them
 * substitutes nothing. The process environment is a parameter `env`.
 */
module Interpolator {
  import opened Errors

  type Vars = map<string, string>

  /** No closing brace in s[i..j]. */
  predicate NoClose(s: string, i: nat, j: nat)
    requires i <= j <= |s|
  {
    forall k :: i <= k < j ==> s[k] != '}'
  }

  /** The regular expression matches s[..j+1], with the name s[2..j]. */
  predicate IsMatch(s: string, j: nat) {
    3 <= j < |s| && s[0] == '$' && s[1] == '{' && s[j] == '}' && NoClose(s, 2, j)
  }

  /** A name the pattern can capture: non-empty, without a closing brace. */
  predicate ValidName(n: string) {
    |n| > 0 && '}' !in n
  }

  /** The literal text `${name}`. */
  function Placeholder(n: string): string {
    "${" + n + "}"
  }

  /** Text without a dollar sign: no match can start inside it. */
  predicate Plain(p: string) {
    forall k :: 0 <= k < |p| ==> p[k] != '$'
  }

  /** Index of the first closing brace at or after i. */
  function CloseFrom(s: string, i: nat): (r: Option<nat>)
    requires i <= |s|
    ensures r.Some? ==> i <= r.value < |s| && s[r.value] == '}' && NoClose(s, i, r.value)
    ensures r.None? ==> NoClose(s, i, |s|)
    decreases |s| - i
  {
    if i == |s| then None
    else if s[i] == '}' then Some(i)
    else CloseFrom(s, i + 1)
  }

  /** Index of the closing brace of the match that starts at s[0], if one does. */
  function MatchEnd(s: string): (r: Option<nat>)
    ensures r.Some? ==> IsMatch(s, r.value)
    ensures r.None? ==> forall j :: !IsMatch(s, j)
  {
    if |s| >= 2 && s[0] == '$' && s[1] == '{' then
      match CloseFrom(s, 2)
      case Some(j) => if j > 2 then Some(j) else None
      case None => None
    else None
  }

  /** Some position of s starts a match. */
  predicate HasPlaceholder(s: string) {
    exists i :: 0 <= i < |s| && MatchEnd(s[i..]).Some?
  }

  lemma MatchOfPlaceholder(n: string, t: string)
    requires ValidName(n)
    ensures MatchEnd(Placeholder(n) + t) == Some(|n| + 2)
    ensures (Placeholder(n) + t)[2..|n| + 2] == n
    ensures (Placeholder(n) + t)[..|n| + 3] == Placeholder(n)
    ensures (Placeholder(n) + t)[|n| + 3..] == t
  {
    var s := Placeholder(n) + t;
    assert s[|n| + 2] == '}';
    forall k | 2 <= k < |n| + 2 ensures s[k] != '}' {
      assert s[k] == n[k - 2];
    }
    assert IsMatch(s, |n| + 2);
  }

  lemma SubsetCard<T>(a: set<T>, b: set<T>)
    requires a <= b
    ensures |a| <= |b|
  {
    assert b == a + (b - a);
  }

  lemma ProperSubsetCard<T>(a: set<T>, b: set<T>)
    requires a <= b && exists x :: x in b && x !in a
    ensures |a| < |b|
  {
    var x :| x in b && x !in a;
    assert b == a + (b - a);
    assert x in b - a;
  }

  /** What one `replace_all` pass produces: the new text, the grown `seen` set, and `changed`. */
  datatype PassResult = PassResult(out: string, seen: set<string>, changed: bool)

  /**
   * One pass: every match, left to right, records its name in `seen`; a name
   * already seen stays literal; otherwise the vars value, else the env value,
   * else the literal placeholder. `changed` is set only by a substitution.
   */
  function Pass(s: string, vars: Vars, env: Vars, seen: set<string>): (p: PassResult)
    ensures seen <= p.seen
    ensures p.changed ==> |seen| < |p.seen|
    ensures !p.changed ==> p.out == s
    decreases |s|
  {
    if s == [] then PassResult([], seen, false)
    else match MatchEnd(s)
      case Some(j) =>
        var name := s[2..j];
        var rest := Pass(s[j + 1..], vars, env, seen + {name});
        assert s[..j + 1] + s[j + 1..] == s;
        SubsetCard(seen, seen + {name});
        if name in seen then
          assert seen + {name} == seen;
          PassResult(s[..j + 1] + rest.out, rest.seen, rest.changed)
        else if name in vars then
          ProperSubsetCard(seen, rest.seen);
          PassResult(vars[name] + rest.out, rest.seen, true)
        else if name in env then
          ProperSubsetCard(seen, rest.seen);
          PassResult(env[name] + rest.out, rest.seen, true)
        else PassResult(s[..j + 1] + rest.out, rest.seen, rest.changed)
      case None =>
        var rest := Pass(s[1..], vars, env, seen);
        assert [s[0]] + s[1..] == s;
        PassResult([s[0]] + rest.out, rest.seen, rest.changed)
  }

  /**
   * The loop of `interpolate` from a given `seen` set: stop after a pass that
   * changes nothing; fail once a changing pass leaves more than 100 names seen.
   */
  function Resolve(s: string, vars: Vars, env: Vars, seen: set<string>): (r: Result<string, InterpolationError>)
    requires |seen| <= 100
    ensures r.Err? ==> r.error == RecursiveInterpolation
    decreases 100 - |seen|
  {
    var p := Pass(s, vars, env, seen);
    if !p.changed then Ok(p.out)
    else if |p.seen| > 100 then Err(RecursiveInterpolation)
    else Resolve(p.out, vars, env, p.seen)
  }

  /** The value `interpolate(s, vars)` returns, with `env` standing for the process environment. */
  function Interpolation(s: string, vars: Vars, env: Vars): Result<string, InterpolationError> {
    Resolve(s, vars, env, {})
  }

  /** Falls back to the raw text when interpolation fails (`unwrap_or_else(|_| raw)`). */
  function Lenient(s: string, vars: Vars, env: Vars): string {
    match Interpolation(s, vars, env)
    case Ok(v) => v
    case Err(_) => s
  }

  /** `interpolate`: the pass loop, with `seen` growing in place for the whole call. */
  method Interpolate(s: string, vars: Vars, env: Vars) returns (r: Result<string, InterpolationError>)
    ensures r == Interpolation(s, vars, env)
  {
    var result := s;
    var seen: set<string> := {};
    while true
      invariant |seen| <= 100
      invariant Resolve(result, vars, env, seen) == Interpolation(s, vars, env)
      decreases 100 - |seen|
    {
      var p := Pass(result, vars, env, seen);
      result, seen := p.out, p.seen;
      if !p.changed {
        return Ok(result);
      }
      if |seen| > 100 {
        return Err(RecursiveInterpolation);
      }
    }
  }

  /** The name captured by the leftmost match, as `Regex::captures` finds it. */
  function FirstPlaceholder(s: string): (r: Option<string>)
    ensures r.None? <==> !HasPlaceholder(s)
    ensures r.Some? ==> exists i :: 0 <= i < |s| && MatchEnd(s[i..]).Some? && s[i..][2..MatchEnd(s[i..]).value] == r.value &&
                                  forall k :: 0 <= k < i ==> MatchEnd(s[k..]).None?
    decreases |s|
  {
    if s == [] then None
    else match MatchEnd(s)
      case Some(j) =>
        assert s[0..] == s;
        Some(s[2..j])
      case None =>
        var rest := FirstPlaceholder(s[1..]);
        assert forall i :: 0 <= i < |s| - 1 ==> s[1..][i..] == s[i + 1..];
        assert s[0..] == s;
        assert HasPlaceholder(s) ==> HasPlaceholder(s[1..]) by {
          if HasPlaceholder(s) {
            var i :| 0 <= i < |s| && MatchEnd(s[i..]).Some?;
            assert i > 0;
            assert MatchEnd(s[1..][i - 1..]).Some?;
          }
        }
        if rest.Some? then
          var i :| 0 <= i < |s| - 1 && MatchEnd(s[1..][i..]).Some? && s[1..][i..][2..MatchEnd(s[1..][i..]).value] == rest.value &&
                   forall k :: 0 <= k < i ==> MatchEnd(s[1..][k..]).None?;
          assert MatchEnd(s[i + 1..]).Some?;
          assert forall k :: 0 <= k < i + 1 ==> MatchEnd(s[k..]).None? by {
            forall k | 0 <= k < i + 1
              ensures MatchEnd(s[k..]).None?
            {
              if k > 0 {
                assert s[k..] == s[1..][k - 1..];
              }
            }
          }
          rest
        else rest
  }

  /** `interpolate_strict`: lenient interpolation, then an error naming the first placeholder left. */
  function InterpolateStrict(s: string, vars: Vars, env: Vars): (r: Result<string, InterpolationError>)
    ensures r.Ok? <==> Interpolation(s, vars, env).Ok? && !HasPlaceholder(Interpolation(s, vars, env).value)
    ensures r.Ok? ==> r.value == Interpolation(s, vars, env).value && !HasPlaceholder(r.value)
    ensures Interpolation(s, vars, env).Err? ==> r == Err(RecursiveInterpolation)
    ensures Interpolation(s, vars, env).Ok? && r.Err? ==>
              r == Err(UndefinedVariable(FirstPlaceholder(Interpolation(s, vars, env).value).value))
  {
    var result :- Interpolation(s, vars, env);
    match FirstPlaceholder(result)
    case Some(name) => Err(UndefinedVariable(name))
    case None => Ok(result)
  }

  /** `interpolate_list`: element by element, in order; the first failure aborts. */
  function InterpolateList(list: seq<string>, vars: Vars, env: Vars): (r: Result<seq<string>, InterpolationError>)
    ensures r.Ok? ==> (|r.value| == |list| &&
              forall i :: 0 <= i < |list| ==> Interpolation(list[i], vars, env) == Ok(r.value[i]))
    ensures r.Err? <==> exists i :: 0 <= i < |list| && Interpolation(list[i], vars, env).Err?
    ensures r.Err? ==> r.error == RecursiveInterpolation
  {
    if list == [] then Ok([])
    else
      var head :- Interpolation(list[0], vars, env);
      var tail :- InterpolateList(list[1..], vars, env);
      assert forall i :: 1 <= i < |list| ==> list[1..][i - 1] == list[i];
      Ok([head] + tail)
  }

  /** `interpolate_map`: every value interpolated under the same key; the first failure aborts. */
  method InterpolateMap(m: Vars, vars: Vars, env: Vars) returns (r: Result<Vars, InterpolationError>)
    ensures r.Ok? ==> (r.value.Keys == m.Keys &&
              forall k :: k in m ==> Interpolation(m[k], vars, env) == Ok(r.value[k]))
    ensures r.Err? <==> exists k :: k in m && Interpolation(m[k], vars, env).Err?
    ensures r.Err? ==> r.error == RecursiveInterpolation
  {
    var result: Vars := map[];
    var todo := m.Keys;
    while todo != {}
      invariant todo <= m.Keys
      invariant result.Keys == m.Keys - todo
      invariant forall k :: k in result ==> Interpolation(m[k], vars, env) == Ok(result[k])
      decreases |todo|
    {
      var key :| key in todo;
      var v := Interpolate(m[key], vars, env);
      if v.Err? {
        return Err(v.error);
      }
      result := result[key := v.value];
      todo := todo - {key};
    }
    return Ok(result);
  }

  // ---------------------------------------------------------------------
  // Properties of one pass

  lemma {:induction false} PassWithoutMatch(s: string, vars: Vars, env: Vars, seen: set<string>)
    requires !HasPlaceholder(s)
    ensures Pass(s, vars, env, seen) == PassResult(s, seen, false)
    decreases |s|
  {
    if s != [] {
      assert s[0..] == s;
      assert MatchEnd(s).None?;
      forall i | 0 <= i < |s[1..]| ensures MatchEnd(s[1..][i..]).None? {
        assert s[1..][i..] == s[i + 1..];
        assert MatchEnd(s[i + 1..]).None?;
      }
      PassWithoutMatch(s[1..], vars, env, seen);
    }
  }

  lemma {:induction false} PassPlainPrefix(p: string, t: string, vars: Vars, env: Vars, seen: set<string>)
    requires Plain(p)
    ensures Pass(p + t, vars, env, seen) ==
            var q := Pass(t, vars, env, seen); PassResult(p + q.out, q.seen, q.changed)
    decreases |p|
  {
    if p != [] {
      var s := p + t;
      assert s[0] == p[0] && s[0] != '$';
      assert MatchEnd(s).None?;
      assert s[1..] == p[1..] + t;
      PassPlainPrefix(p[1..], t, vars, env, seen);
      var q := Pass(t, vars, env, seen);
      var r := Pass(s[1..], vars, env, seen);
      assert r == PassResult(p[1..] + q.out, q.seen, q.changed);
      assert Pass(s, vars, env, seen) == PassResult([s[0]] + r.out, r.seen, r.changed);
      assert [p[0]] + (p[1..] + q.out) == p + q.out;
    } else {
      assert p + t == t;
    }
  }

  lemma PlainHasNoPlaceholder(p: string)
    requires Plain(p)
    ensures !HasPlaceholder(p)
  {
    forall i | 0 <= i < |p| ensures MatchEnd(p[i..]).None? {
      assert p[i..][0] == p[i];
    }
  }

  /** A placeholder pass over `${n}` followed by t. */
  lemma PassOverPlaceholder(n: string, t: string, vars: Vars, env: Vars, seen: set<string>)
    requires ValidName(n)
    ensures Pass(Placeholder(n) + t, vars, env, seen) ==
            var rest := Pass(t, vars, env, seen + {n});
            if n in seen then PassResult(Placeholder(n) + rest.out, rest.seen, rest.changed)
            else if n in vars then PassResult(vars[n] + rest.out, rest.seen, true)
            else if n in env then PassResult(env[n] + rest.out, rest.seen, true)
            else PassResult(Placeholder(n) + rest.out, rest.seen, rest.changed)
  {
    MatchOfPlaceholder(n, t);
  }

  // ---------------------------------------------------------------------
  // Properties of interpolation

  /** A string without any match is returned unchanged, whatever vars and env hold. */
  lemma NoPlaceholderUnchanged(s: string, vars: Vars, env: Vars)
    requires !HasPlaceholder(s)
    ensures Interpolation(s, vars, env) == Ok(s)
  {
    PassWithoutMatch(s, vars, env, {});
  }

  /** Interpolating a fully resolved result again gives the same result. */
  lemma ResolvedIsFixpoint(s: string, vars: Vars, env: Vars)
    requires Interpolation(s, vars, env).Ok?
    requires !HasPlaceholder(Interpolation(s, vars, env).value)
    ensures Interpolation(Interpolation(s, vars, env).value, vars, env) == Interpolation(s, vars, env)
  {
    NoPlaceholderUnchanged(Interpolation(s, vars, env).value, vars, env);
  }

  /** `${}` has an empty name and is plain text: it never matches. */
  lemma EmptyBracesStayLiteral(p: string, vars: Vars, env: Vars)
    requires Plain(p)
    ensures Interpolation(p + "${}", vars, env) == Ok(p + "${}")
  {
    var s := p + "${}";
    forall i | 0 <= i < |s| ensures MatchEnd(s[i..]).None? {
      if i < |p| {
        assert s[i..][0] == p[i];
      } else if i == |p| {
        assert s[i..] == "${}";
        assert CloseFrom("${}", 2) == Some(2);
      } else {
        assert s[i..][0] != '$';
      }
    }
    NoPlaceholderUnchanged(s, vars, env);
  }

  /**
   * Precedence for one placeholder: the vars entry, else the env entry,
   * else the placeholder itself; an undefined name is never an error.
   */
  lemma Precedence(n: string, vars: Vars, env: Vars)
    requires ValidName(n)
    ensures n in vars && !HasPlaceholder(vars[n]) ==>
              Interpolation(Placeholder(n), vars, env) == Ok(vars[n])
    ensures n !in vars && n in env && !HasPlaceholder(env[n]) ==>
              Interpolation(Placeholder(n), vars, env) == Ok(env[n])
    ensures n !in vars && n !in env ==>
              Interpolation(Placeholder(n), vars, env) == Ok(Placeholder(n))
  {
    PassOverPlaceholder(n, [], vars, env, {});
    assert Placeholder(n) + [] == Placeholder(n);
    if n in vars && !HasPlaceholder(vars[n]) {
      PassWithoutMatch(vars[n], vars, env, {n});
      assert vars[n] + [] == vars[n];
    } else if n !in vars && n in env && !HasPlaceholder(env[n]) {
      PassWithoutMatch(env[n], vars, env, {n});
      assert env[n] + [] == env[n];
    }
  }

  /** A match at t[0], if any, names something neither vars nor env defines. */
  predicate UndefinedAt(t: string, vars: Vars, env: Vars) {
    MatchEnd(t).Some? ==> t[2..MatchEnd(t).value] !in vars && t[2..MatchEnd(t).value] !in env
  }

  /** Every match of s names something neither vars nor env defines. */
  predicate Unresolvable(s: string, vars: Vars, env: Vars) {
    forall i :: 0 <= i < |s| ==> UndefinedAt(s[i..], vars, env)
  }

  lemma {:induction false} PassUnresolvable(s: string, vars: Vars, env: Vars, seen: set<string>)
    requires Unresolvable(s, vars, env)
    ensures !Pass(s, vars, env, seen).changed
    decreases |s|
  {
    if s != [] {
      assert s[0..] == s;
      match MatchEnd(s)
      case Some(j) =>
        assert UndefinedAt(s[0..], vars, env);
        var t := s[j + 1..];
        forall i | 0 <= i < |t| ensures UndefinedAt(t[i..], vars, env) {
          assert t[i..] == s[j + 1 + i..];
          assert UndefinedAt(s[j + 1 + i..], vars, env);
        }
        PassUnresolvable(t, vars, env, seen + {s[2..j]});
      case None =>
        forall i | 0 <= i < |s[1..]| ensures UndefinedAt(s[1..][i..], vars, env) {
          assert s[1..][i..] == s[1 + i..];
          assert UndefinedAt(s[1 + i..], vars, env);
        }
        PassUnresolvable(s[1..], vars, env, seen);
    }
  }

  /** Lenient mode: placeholders that nothing defines are kept, and the call succeeds. */
  lemma UnresolvableStaysLiteral(s: string, vars: Vars, env: Vars)
    requires Unresolvable(s, vars, env)
    ensures Interpolation(s, vars, env) == Ok(s)
  {
    PassUnresolvable(s, vars, env, {});
  }

  /**
   * `seen` lives for the whole call: the second `${n}` stays literal although
   * n is defined, and the next pass leaves it alone.
   */
  lemma RepeatedNameStaysLiteral(n: string, v: string, env: Vars)
    requires ValidName(n) && Plain(v)
    ensures Interpolation(Placeholder(n) + Placeholder(n), map[n := v], env) == Ok(v + Placeholder(n))
  {
    var vars := map[n := v];
    PassOverPlaceholder(n, Placeholder(n), vars, env, {});
    PassOverPlaceholder(n, [], vars, env, {n});
    assert Placeholder(n) + [] == Placeholder(n);
    PassPlainPrefix(v, Placeholder(n), vars, env, {n});
  }

  /** A variable that refers to itself is substituted once, then left alone. */
  lemma SelfReferenceTerminates(n: string, env: Vars)
    requires ValidName(n)
    ensures Interpolation(Placeholder(n), map[n := Placeholder(n)], env) == Ok(Placeholder(n))
  {
    var vars := map[n := Placeholder(n)];
    PassOverPlaceholder(n, [], vars, env, {});
    PassOverPlaceholder(n, [], vars, env, {n});
    assert Placeholder(n) + [] == Placeholder(n);
  }

  /** One pass over plain text followed by `${n}`, where n is defined in vars and not yet seen. */
  lemma PassSubstitutesTail(p: string, n: string, vars: Vars, env: Vars, seen: set<string>)
    requires Plain(p) && ValidName(n) && n in vars && n !in seen
    ensures Pass(p + Placeholder(n), vars, env, seen) == PassResult(p + vars[n], seen + {n}, true)
  {
    PassOverPlaceholder(n, [], vars, env, seen);
    assert Placeholder(n) + [] == Placeholder(n);
    assert vars[n] + [] == vars[n];
    PassPlainPrefix(p, Placeholder(n), vars, env, seen);
  }

  /** A value that is itself a placeholder resolves on the next pass (`outer` -> `${inner}` -> value). */
  lemma ChainedResolution(p: string, outer: string, inner: string, v: string, env: Vars)
    requires ValidName(outer) && ValidName(inner) && outer != inner
    requires Plain(p) && Plain(v)
    ensures Interpolation(p + Placeholder(outer), map[outer := Placeholder(inner), inner := v], env) == Ok(p + v)
  {
    var vars := map[outer := Placeholder(inner), inner := v];
    PassSubstitutesTail(p, outer, vars, env, {});
    assert {} + {outer} == {outer};
    PassSubstitutesTail(p, inner, vars, env, {outer});
    assert |{outer} + {inner}| == 2;
    assert Plain(p + v);
    PlainHasNoPlaceholder(p + v);
    PassWithoutMatch(p + v, vars, env, {outer} + {inner});
    assert Resolve(p + v, vars, env, {outer} + {inner}) == Ok(p + v);
    assert Resolve(p + Placeholder(inner), vars, env, {outer}) == Ok(p + v);
  }
}
