/**
 * `{{id}}` placeholder substitution, the loop shared by the webSearch,
 * summarize and calculate tools (services/toolService.ts).
 *
 * The source visits the dependency ids one after another and replaces all
 * occurrences of each id's placeholder by that dependency's JSON text
 * (`SubstituteAll`). Next to it this module defines a simultaneous
 * substitution (`Subst`) that rewrites every placeholder of a known id in
 * one left-to-right scan, and proves the two agree when the replacement
 * texts are safe (`SafeEnv`); order independence and idempotence of the
 * source's loop follow from that.
 */
module Placeholders {
  import opened Wrappers
  import opened Strings

  predicate IsBrace(c: char) {
    c == '{' || c == '}'
  }

  /** An id holding neither `{` nor `}`; ids with regular expression metacharacters are outside the model. */
  predicate BraceFree(id: string) {
    forall i :: 0 <= i < |id| ==> !IsBrace(id[i])
  }

  /** The placeholder text that stands for dependency `id`. */
  function Placeholder(id: string): (p: string)
    ensures |p| == |id| + 4
  {
    "{{" + id + "}}"
  }

  /** The position of the first brace in `s` at or after `k`, or `|s|` when there is none. */
  function FirstBrace(s: string, k: nat): (r: nat)
    requires k <= |s|
    ensures k <= r <= |s|
    ensures forall i :: k <= i < r ==> !IsBrace(s[i])
    ensures r < |s| ==> IsBrace(s[r])
    decreases |s| - k
  {
    if k == |s| || IsBrace(s[k]) then k else FirstBrace(s, k + 1)
  }

  /**
   * The id whose placeholder `s` starts with, if any. Because an id holds no
   * brace, at most one brace-free id can match.
   */
  function PlaceholderAt(s: string): (r: Option<string>)
    ensures r.Some? ==> BraceFree(r.value) && StartsWith(s, Placeholder(r.value))
    ensures forall id {:trigger Placeholder(id)} ::
      BraceFree(id) && StartsWith(s, Placeholder(id)) ==> r == Some(id)
  {
    if |s| >= 2 && s[0] == '{' && s[1] == '{' then
      var k := FirstBrace(s, 2);
      if k + 1 < |s| && s[k] == '}' && s[k + 1] == '}' then
        assert s[..k + 2] == Placeholder(s[2..k]);
        assert forall id :: BraceFree(id) && StartsWith(s, Placeholder(id)) ==> id == s[2..k] by {
          forall id | BraceFree(id) && StartsWith(s, Placeholder(id)) ensures id == s[2..k] {
            PlaceholderShape(s, id, k);
            assert s[..k + 2][2..k] == id;
          }
        }
        Some(s[2..k])
      else
        assert forall id :: BraceFree(id) && StartsWith(s, Placeholder(id)) ==> false by {
          forall id | BraceFree(id) && StartsWith(s, Placeholder(id)) ensures false {
            PlaceholderShape(s, id, k);
          }
        }
        None
    else
      None
  }

  lemma PlaceholderShape(s: string, id: string, k: nat)
    requires BraceFree(id) && StartsWith(s, Placeholder(id))
    requires 2 <= k <= |s| && k == FirstBrace(s, 2)
    ensures k == |id| + 2 && s[k] == '}' && s[k + 1] == '}'
  {
    var p := Placeholder(id);
    assert forall i :: 2 <= i < |id| + 2 ==> s[i] == p[i] == id[i - 2];
    assert s[|id| + 2] == p[|id| + 2] == '}';
    assert s[|id| + 3] == p[|id| + 3] == '}';
  }

  /** Replacement text per dependency id. */
  type Env = map<string, string>

  /** A known placeholder starts `s`. */
  predicate EnvMatch(s: string, env: Env) {
    var m := PlaceholderAt(s);
    m.Some? && m.value in env
  }

  /**
   * Simultaneous substitution: one left-to-right scan that replaces each
   * placeholder of an id in `env` by its text and copies everything else.
   */
  function Subst(s: string, env: Env): string
    decreases |s|
  {
    if s == [] then []
    else if EnvMatch(s, env) then
      var id := PlaceholderAt(s).value;
      env[id] + Subst(s[|id| + 4..], env)
    else [s[0]] + Subst(s[1..], env)
  }

  /** `c` appears in no placeholder of an id of `ids`. */
  predicate Guard(c: char, ids: set<string>) {
    !IsBrace(c) && forall id :: id in ids ==> c !in id
  }

  /** A non-empty text whose first and last characters are guards. */
  predicate Guarded(r: string, ids: set<string>) {
    |r| > 0 && Guard(r[0], ids) && Guard(r[|r| - 1], ids)
  }

  /**
   * The replacement texts cannot produce a placeholder: ids are brace-free,
   * every text is guarded at both ends and holds no placeholder itself. The
   * JSON text of a string value starts and ends with a double quote, so it is
   * guarded whenever no id contains a double quote.
   */
  ghost predicate SafeEnv(env: Env) {
    && (forall id :: id in env ==> BraceFree(id))
    && (forall id :: id in env ==> Guarded(env[id], env.Keys))
    && (forall id, y :: id in env && y in env ==> !Contains(env[id], Placeholder(y)))
  }

  lemma SafeEnvSub(small: Env, big: Env)
    requires SafeEnv(big)
    requires forall id :: id in small ==> id in big && small[id] == big[id]
    ensures SafeEnv(small)
  {
  }

  /** No character of a known id's placeholder is a guard. */
  lemma PlaceholderHasNoGuard(y: string, ids: set<string>, i: int)
    requires y in ids && 0 <= i < |Placeholder(y)|
    ensures !Guard(Placeholder(y)[i], ids)
  {
    var p := Placeholder(y);
    if 2 <= i < |y| + 2 {
      assert p[i] == y[i - 2];
    }
  }

  /**
   * A guarded text without a known placeholder inside it: no known
   * placeholder starts within it, whatever follows it.
   */
  lemma NoStraddle(a: string, b: string, y: string, ids: set<string>, i: int)
    requires y in ids && Guarded(a, ids) && !Contains(a, Placeholder(y))
    requires 0 <= i < |a|
    ensures !OccursAt(a + b, Placeholder(y), i)
  {
    var p := Placeholder(y);
    if OccursAt(a + b, p, i) {
      if i + |p| <= |a| {
        assert a[i..i + |p|] == (a + b)[i..i + |p|];
        assert OccursAt(a, p, i);
      } else {
        var k := |a| - 1 - i;
        assert (a + b)[i..i + |p|][k] == a[|a| - 1];
        PlaceholderHasNoGuard(y, ids, k);
      }
    }
  }

  /** When no known placeholder starts inside `a`, substitution copies `a`. */
  lemma {:induction false} SubstKeepsPrefix(a: string, b: string, env: Env)
    requires forall i :: 0 <= i < |a| ==> !EnvMatch((a + b)[i..], env)
    ensures Subst(a + b, env) == a + Subst(b, env)
    decreases |a|
  {
    if a == [] {
      assert a + b == b;
    } else {
      var s := a + b;
      assert s[0..] == s;
      assert s[1..] == a[1..] + b;
      forall i | 0 <= i < |a[1..]| ensures !EnvMatch((a[1..] + b)[i..], env) {
        assert (a[1..] + b)[i..] == s[i + 1..];
      }
      SubstKeepsPrefix(a[1..], b, env);
      assert [s[0]] + (a[1..] + Subst(b, env)) == a + Subst(b, env);
    }
  }

  /** Substitution with no known ids copies the text. */
  lemma {:induction false} SubstNothing(s: string)
    ensures Subst(s, map[]) == s
    decreases |s|
  {
    if s != [] {
      SubstNothing(s[1..]);
      assert [s[0]] + s[1..] == s;
    }
  }

  /**
   * Every replacement starts with a guard, so a prefix of the output
   * without guards was copied verbatim from the input.
   */
  lemma {:induction false} UnguardedPrefixIsCopied(s: string, env: Env, ids: set<string>, L: nat)
    requires forall id :: id in env ==> Guarded(env[id], ids)
    requires L <= |Subst(s, env)|
    requires forall j :: 0 <= j < L ==> !Guard(Subst(s, env)[j], ids)
    ensures L <= |s| && s[..L] == Subst(s, env)[..L]
    decreases |s|
  {
    if s != [] && L > 0 && EnvMatch(s, env) {
      ReplacementStartsWithGuard(s, env, ids);
      assert false;
    } else if s != [] && L > 0 {
      var out := Subst(s, env);
      assert out == [s[0]] + Subst(s[1..], env);
      forall j | 0 <= j < L - 1 ensures !Guard(Subst(s[1..], env)[j], ids) {
        assert Subst(s[1..], env)[j] == out[j + 1];
      }
      UnguardedPrefixIsCopied(s[1..], env, ids, L - 1);
      assert s[..L] == [s[0]] + s[1..][..L - 1];
      assert out[..L] == [s[0]] + Subst(s[1..], env)[..L - 1];
    }
  }

  lemma ReplacementStartsWithGuard(s: string, env: Env, ids: set<string>)
    requires forall id :: id in env ==> Guarded(env[id], ids)
    requires s != [] && EnvMatch(s, env)
    ensures |Subst(s, env)| > 0 && Guard(Subst(s, env)[0], ids)
  {
    var id := PlaceholderAt(s).value;
    assert Subst(s, env) == env[id] + Subst(s[|id| + 4..], env);
  }

  /** A placeholder of an id of `ids` at the start of the output was already at the start of the input. */
  lemma OutputPlaceholderWasInInput(s: string, env: Env, ids: set<string>, y: string)
    requires forall id :: id in env ==> Guarded(env[id], ids)
    requires y in ids
    requires StartsWith(Subst(s, env), Placeholder(y))
    ensures StartsWith(s, Placeholder(y))
  {
    var p := Placeholder(y);
    var out := Subst(s, env);
    forall j | 0 <= j < |p| ensures !Guard(out[j], ids) {
      assert out[j] == p[j];
      PlaceholderHasNoGuard(y, ids, j);
    }
    UnguardedPrefixIsCopied(s, env, ids, |p|);
  }

  /** An unknown placeholder at the start of the input is copied through unchanged. */
  lemma SubstSkipsUnknown(s: string, env: Env, x: string)
    requires PlaceholderAt(s) == Some(x) && x !in env
    ensures Subst(s, env) == Placeholder(x) + Subst(s[|x| + 4..], env)
  {
    var p := Placeholder(x);
    assert s == p + s[|p|..];
    forall i | 0 <= i < |p| ensures !EnvMatch((p + s[|p|..])[i..], env) {
      if i > 0 {
        assert s[i] == p[i];
        if i == 1 {
          assert s[i + 1] == p[2];
          if |x| > 0 { assert p[2] == x[0]; }
        } else if i < |x| + 2 {
          assert p[i] == x[i - 2];
        }
      }
    }
    SubstKeepsPrefix(p, s[|p|..], env);
  }

  /**
   * Replacing one more id's placeholders in the output of a simultaneous
   * substitution is the simultaneous substitution with that id added.
   */
  lemma {:induction false} ReplaceAfterSubst(s: string, env: Env, x: string, rx: string)
    requires x !in env
    requires SafeEnv(env[x := rx])
    ensures ReplaceAll(Subst(s, env), Placeholder(x), rx) == Subst(s, env[x := rx])
    decreases |s|
  {
    if s == [] {
    } else if EnvMatch(s, env) {
      var y := PlaceholderAt(s).value;
      ReplaceAfterSubst(s[|y| + 4..], env, x, rx);
      ReplaceAfterKnown(s, env, x, rx);
    } else if PlaceholderAt(s) == Some(x) {
      ReplaceAfterSubst(s[|x| + 4..], env, x, rx);
      ReplaceAfterOwn(s, env, x, rx);
    } else {
      ReplaceAfterSubst(s[1..], env, x, rx);
      ReplaceAfterCopy(s, env, x, rx);
    }
  }

  /** The step of ReplaceAfterSubst where `s` starts with a placeholder already in `env`. */
  lemma ReplaceAfterKnown(s: string, env: Env, x: string, rx: string)
    requires x !in env
    requires SafeEnv(env[x := rx])
    requires s != [] && EnvMatch(s, env)
    requires var t := s[|PlaceholderAt(s).value| + 4..];
      ReplaceAll(Subst(t, env), Placeholder(x), rx) == Subst(t, env[x := rx])
    ensures ReplaceAll(Subst(s, env), Placeholder(x), rx) == Subst(s, env[x := rx])
  {
    var env' := env[x := rx];
    var p := Placeholder(x);
    var y := PlaceholderAt(s).value;
    var t := s[|y| + 4..];
    assert Subst(s, env) == env[y] + Subst(t, env);
    assert EnvMatch(s, env');
    assert Subst(s, env') == env'[y] + Subst(t, env');
    forall i | 0 <= i < |env[y]| ensures !OccursAt(env[y] + Subst(t, env), p, i) {
      NoStraddle(env[y], Subst(t, env), x, env'.Keys, i);
    }
    ReplaceAllKeepsPrefix(env[y], Subst(t, env), p, rx);
  }

  /** The step of ReplaceAfterSubst where `s` starts with the placeholder of `x` itself. */
  lemma ReplaceAfterOwn(s: string, env: Env, x: string, rx: string)
    requires x !in env
    requires SafeEnv(env[x := rx])
    requires s != [] && PlaceholderAt(s) == Some(x)
    requires var t := s[|x| + 4..];
      ReplaceAll(Subst(t, env), Placeholder(x), rx) == Subst(t, env[x := rx])
    ensures ReplaceAll(Subst(s, env), Placeholder(x), rx) == Subst(s, env[x := rx])
  {
    var env' := env[x := rx];
    var p := Placeholder(x);
    var t := s[|x| + 4..];
    SubstSkipsUnknown(s, env, x);
    var u := p + Subst(t, env);
    assert u[..|p|] == p && u[|p|..] == Subst(t, env);
    assert ReplaceAll(u, p, rx) == rx + ReplaceAll(Subst(t, env), p, rx);
    assert EnvMatch(s, env');
    assert Subst(s, env') == rx + Subst(t, env');
  }

  /** The step of ReplaceAfterSubst where `s` starts with no placeholder of `env` or `x`. */
  lemma ReplaceAfterCopy(s: string, env: Env, x: string, rx: string)
    requires x !in env
    requires SafeEnv(env[x := rx])
    requires s != [] && !EnvMatch(s, env) && PlaceholderAt(s) != Some(x)
    requires ReplaceAll(Subst(s[1..], env), Placeholder(x), rx) == Subst(s[1..], env[x := rx])
    ensures ReplaceAll(Subst(s, env), Placeholder(x), rx) == Subst(s, env[x := rx])
  {
    var env' := env[x := rx];
    var p := Placeholder(x);
    var out := Subst(s, env);
    assert out == [s[0]] + Subst(s[1..], env);
    if OccursAt(out, p, 0) {
      OccursAtStartsWith(out, p, 0);
      assert out[0..] == out;
      assert forall id :: id in env ==> env[id] == env'[id];
      OutputPlaceholderWasInInput(s, env, env'.Keys, x);
      assert false;
    }
    ReplaceAllKeepsPrefix([s[0]], Subst(s[1..], env), p, rx);
    assert !EnvMatch(s, env');
    assert Subst(s, env') == [s[0]] + Subst(s[1..], env');
  }

  /** Dependency ids with the JSON text of their values, in the order the source visits them. */
  type Texts = seq<(string, string)>

  ghost predicate DistinctIds(texts: Texts) {
    forall i, j :: 0 <= i < j < |texts| ==> texts[i].0 != texts[j].0
  }

  /** The id-to-text map the visiting order enumerates. */
  function EnvOf(texts: Texts): (env: Env)
    ensures env.Keys == set i | 0 <= i < |texts| :: texts[i].0
  {
    if texts == [] then map[]
    else
      var init := texts[..|texts| - 1];
      var last := texts[|texts| - 1];
      assert forall i :: 0 <= i < |init| ==> init[i] == texts[i];
      var e := EnvOf(init)[last.0 := last.1];
      assert e.Keys == set i | 0 <= i < |texts| :: texts[i].0 by {
        forall k | k in e.Keys ensures k in set i | 0 <= i < |texts| :: texts[i].0 {
          if k != last.0 {
            var i :| 0 <= i < |init| && init[i].0 == k;
            assert texts[i].0 == k;
          }
        }
      }
      e
  }

  lemma EnvOfEntry(texts: Texts, i: int)
    requires DistinctIds(texts) && 0 <= i < |texts|
    ensures texts[i].0 in EnvOf(texts) && EnvOf(texts)[texts[i].0] == texts[i].1
    decreases |texts|
  {
    if i < |texts| - 1 {
      var init := texts[..|texts| - 1];
      assert init[i] == texts[i];
      EnvOfEntry(init, i);
    }
  }

  /** One turn of the source's loop: replace the id's placeholders if the text includes one. */
  function SubstStep(s: string, id: string, text: string): string {
    if Contains(s, Placeholder(id)) then ReplaceAll(s, Placeholder(id), text) else s
  }

  /** The `includes` test only saves work: a step is always a global replace. */
  lemma SubstStepIsReplaceAll(s: string, id: string, text: string)
    ensures SubstStep(s, id, text) == ReplaceAll(s, Placeholder(id), text)
  {
    if !Contains(s, Placeholder(id)) {
      ReplaceAllAbsent(s, Placeholder(id), text);
    }
  }

  /** The source's loop: one substitution step per dependency, in visiting order. */
  function SubstituteAll(s: string, texts: Texts): string
    decreases |texts|
  {
    if texts == [] then s
    else
      var last := texts[|texts| - 1];
      SubstStep(SubstituteAll(s, texts[..|texts| - 1]), last.0, last.1)
  }

  /** Without any dependency placeholder in it, the text comes back unchanged. */
  lemma {:induction false} SubstituteAllWithoutPlaceholders(s: string, texts: Texts)
    requires forall i :: 0 <= i < |texts| ==> !Contains(s, Placeholder(texts[i].0))
    ensures SubstituteAll(s, texts) == s
    decreases |texts|
  {
    if texts != [] {
      var init := texts[..|texts| - 1];
      assert forall i :: 0 <= i < |init| ==> init[i] == texts[i];
      SubstituteAllWithoutPlaceholders(s, init);
    }
  }

  /** Under safe texts, the source's sequential loop computes the simultaneous substitution. */
  lemma {:induction false} SequentialIsSimultaneous(s: string, texts: Texts)
    requires DistinctIds(texts)
    requires SafeEnv(EnvOf(texts))
    ensures SubstituteAll(s, texts) == Subst(s, EnvOf(texts))
    decreases |texts|
  {
    if texts == [] {
      SubstNothing(s);
    } else {
      var init := texts[..|texts| - 1];
      var last := texts[|texts| - 1];
      assert forall i :: 0 <= i < |init| ==> init[i] == texts[i];
      assert forall i :: 0 <= i < |init| ==> init[i].0 != last.0;
      assert last.0 !in EnvOf(init);
      SafeEnvSub(EnvOf(init), EnvOf(texts));
      SequentialIsSimultaneous(s, init);
      SubstStepIsReplaceAll(SubstituteAll(s, init), last.0, last.1);
      ReplaceAfterSubst(s, EnvOf(init), last.0, last.1);
    }
  }

  /**
   * Under safe texts the visiting order does not matter: any two orders of
   * the same dependencies give the same text.
   */
  lemma SubstituteAllOrderIrrelevant(s: string, texts1: Texts, texts2: Texts)
    requires DistinctIds(texts1) && DistinctIds(texts2)
    requires EnvOf(texts1) == EnvOf(texts2)
    requires SafeEnv(EnvOf(texts1))
    ensures SubstituteAll(s, texts1) == SubstituteAll(s, texts2)
  {
    SequentialIsSimultaneous(s, texts1);
    SequentialIsSimultaneous(s, texts2);
  }

  /** No known placeholder starts inside a replacement text, whatever follows it. */
  lemma NoMatchInReplacement(a: string, b: string, env: Env, i: int)
    requires SafeEnv(env)
    requires a in env.Values && 0 <= i < |a|
    ensures !EnvMatch((a + b)[i..], env)
  {
    var id :| id in env && env[id] == a;
    var m := PlaceholderAt((a + b)[i..]);
    if m.Some? && m.value in env {
      OccursAtStartsWith(a + b, Placeholder(m.value), i);
      NoStraddle(a, b, m.value, env.Keys, i);
    }
  }

  /** Simultaneous substitution is idempotent under safe texts. */
  lemma {:induction false} SubstIdempotent(s: string, env: Env)
    requires SafeEnv(env)
    ensures Subst(Subst(s, env), env) == Subst(s, env)
    decreases |s|
  {
    if s == [] {
    } else if EnvMatch(s, env) {
      var y := PlaceholderAt(s).value;
      var t := s[|y| + 4..];
      assert Subst(s, env) == env[y] + Subst(t, env);
      forall i | 0 <= i < |env[y]| ensures !EnvMatch((env[y] + Subst(t, env))[i..], env) {
        NoMatchInReplacement(env[y], Subst(t, env), env, i);
      }
      SubstKeepsPrefix(env[y], Subst(t, env), env);
      SubstIdempotent(t, env);
    } else {
      var out := Subst(s, env);
      assert out == [s[0]] + Subst(s[1..], env);
      assert out[0..] == out;
      if EnvMatch(out, env) {
        OutputPlaceholderWasInInput(s, env, env.Keys, PlaceholderAt(out).value);
        assert false;
      }
      SubstKeepsPrefix([s[0]], Subst(s[1..], env), env);
      SubstIdempotent(s[1..], env);
    }
  }

  /** Under safe texts a second pass of the source's loop changes nothing. */
  lemma SubstituteAllIdempotent(s: string, texts: Texts)
    requires DistinctIds(texts)
    requires SafeEnv(EnvOf(texts))
    ensures SubstituteAll(SubstituteAll(s, texts), texts) == SubstituteAll(s, texts)
  {
    SequentialIsSimultaneous(s, texts);
    SequentialIsSimultaneous(Subst(s, EnvOf(texts)), texts);
    SubstIdempotent(s, EnvOf(texts));
  }

  lemma OccursShift(a: string, b: string, p: string, i: int)
    requires |a| <= i && OccursAt(a + b, p, i)
    ensures OccursAt(b, p, i - |a|)
  {
    assert (a + b)[i..i + |p|] == b[i - |a|..i - |a| + |p|];
  }

  /** Under safe texts no placeholder of a known id survives substitution. */
  lemma {:induction false} SubstReplacesEvery(s: string, env: Env, y: string)
    requires SafeEnv(env) && y in env
    ensures !Contains(Subst(s, env), Placeholder(y))
    decreases |s|
  {
    var p := Placeholder(y);
    var out := Subst(s, env);
    if s != [] && EnvMatch(s, env) {
      var z := PlaceholderAt(s).value;
      var t := s[|z| + 4..];
      assert out == env[z] + Subst(t, env);
      SubstReplacesEvery(t, env, y);
      forall i | OccursAt(out, p, i) ensures false {
        if i < |env[z]| {
          NoStraddle(env[z], Subst(t, env), y, env.Keys, i);
        } else {
          OccursShift(env[z], Subst(t, env), p, i);
        }
      }
    } else if s != [] {
      assert out == [s[0]] + Subst(s[1..], env);
      SubstReplacesEvery(s[1..], env, y);
      forall i | OccursAt(out, p, i) ensures false {
        if i == 0 {
          OccursAtStartsWith(out, p, 0);
          assert out[0..] == out;
          OutputPlaceholderWasInInput(s, env, env.Keys, y);
        } else {
          OccursShift([s[0]], Subst(s[1..], env), p, i);
        }
      }
    }
  }

  /** Under safe texts the source's loop leaves no placeholder of any dependency behind. */
  lemma SubstituteAllReplacesEvery(s: string, texts: Texts, k: int)
    requires DistinctIds(texts) && SafeEnv(EnvOf(texts))
    requires 0 <= k < |texts|
    ensures !Contains(SubstituteAll(s, texts), Placeholder(texts[k].0))
  {
    SequentialIsSimultaneous(s, texts);
    EnvOfEntry(texts, k);
    SubstReplacesEvery(s, EnvOf(texts), texts[k].0);
  }

  /** No known placeholder starting inside `a` reaches past its end. */
  ghost predicate NoCrossing(a: string, c: string, env: Env) {
    forall i :: 0 <= i < |a| ==>
      var m := PlaceholderAt((a + c)[i..]);
      !(m.Some? && m.value in env && i + |m.value| + 4 > |a|)
  }

  /** Substitution splits at a point no known placeholder crosses. */
  lemma {:induction false} SubstSplits(a: string, c: string, env: Env)
    requires NoCrossing(a, c, env)
    ensures Subst(a + c, env) == Subst(a, env) + Subst(c, env)
    decreases |a|
  {
    if a == [] {
      assert a + c == c;
    } else if EnvMatch(a + c, env) {
      var k := |PlaceholderAt(a + c).value| + 4;
      SplitAtKnown(a, c, env);
      SubstSplits(a[k..], c, env);
    } else {
      SplitAtCopy(a, c, env);
      SubstSplits(a[1..], c, env);
    }
  }

  /** The step of SubstSplits where `a + c` starts with a known placeholder. */
  lemma SplitAtKnown(a: string, c: string, env: Env)
    requires NoCrossing(a, c, env)
    requires a != [] && EnvMatch(a + c, env)
    ensures var k := |PlaceholderAt(a + c).value| + 4;
      && k <= |a|
      && NoCrossing(a[k..], c, env)
      && (Subst(a[k..] + c, env) == Subst(a[k..], env) + Subst(c, env) ==>
          Subst(a + c, env) == Subst(a, env) + Subst(c, env))
  {
    var s := a + c;
    var z := PlaceholderAt(s).value;
    var k := |z| + 4;
    assert s[0..] == s;
    assert k <= |a|;
    assert a[..k] == s[..k];
    assert PlaceholderAt(a) == Some(z);
    assert s[k..] == a[k..] + c;
    forall i | 0 <= i < |a[k..]| ensures
      var m := PlaceholderAt((a[k..] + c)[i..]);
      !(m.Some? && m.value in env && i + |m.value| + 4 > |a[k..]|)
    {
      assert (a[k..] + c)[i..] == s[i + k..];
    }
  }

  /** The step of SubstSplits where `a + c` starts with no known placeholder. */
  lemma SplitAtCopy(a: string, c: string, env: Env)
    requires NoCrossing(a, c, env)
    requires a != [] && !EnvMatch(a + c, env)
    ensures NoCrossing(a[1..], c, env)
    ensures Subst(a[1..] + c, env) == Subst(a[1..], env) + Subst(c, env) ==>
      Subst(a + c, env) == Subst(a, env) + Subst(c, env)
  {
    var s := a + c;
    if PlaceholderAt(a).Some? {
      var z := PlaceholderAt(a).value;
      assert s[..|z| + 4] == a[..|z| + 4];
    }
    assert !EnvMatch(a, env);
    assert s[1..] == a[1..] + c;
    forall i | 0 <= i < |a[1..]| ensures
      var m := PlaceholderAt((a[1..] + c)[i..]);
      !(m.Some? && m.value in env && i + |m.value| + 4 > |a[1..]|)
    {
      assert (a[1..] + c)[i..] == s[i + 1..];
    }
  }

  /** Inside a brace-free placeholder, a `{` is only ever the second character, and no `{` follows it. */
  lemma NoOpeningPairInside(t: string, z: string, k: int)
    requires BraceFree(z) && StartsWith(t, Placeholder(z))
    requires 1 <= k < |Placeholder(z)| && k + 1 < |t|
    ensures !(t[k] == '{' && t[k + 1] == '{')
  {
    var p := Placeholder(z);
    assert t[k] == p[k];
    if k >= 2 && k < |z| + 2 {
      assert p[k] == z[k - 2];
    }
    if k == 1 {
      assert t[2] == p[2];
      if |z| > 0 {
        assert p[2] == z[0];
      }
    }
  }

  /** No brace-free placeholder crosses into a following placeholder. */
  lemma NoCrossingBeforePlaceholder(a: string, x: string, b: string, env: Env)
    ensures NoCrossing(a, Placeholder(x) + b, env)
  {
    var c := Placeholder(x) + b;
    forall i | 0 <= i < |a| ensures
      var m := PlaceholderAt((a + c)[i..]);
      !(m.Some? && m.value in env && i + |m.value| + 4 > |a|)
    {
      var t := (a + c)[i..];
      var m := PlaceholderAt(t);
      if m.Some? && i + |m.value| + 4 > |a| {
        var k := |a| - i;
        assert t[k] == c[0] == '{';
        assert t[k + 1] == c[1] == '{';
        NoOpeningPairInside(t, m.value, k);
      }
    }
  }

  /** A placeholder whose id is not a dependency is copied verbatim, and no error is raised. */
  lemma SubstKeepsUnknown(a: string, x: string, b: string, env: Env)
    requires BraceFree(x) && x !in env
    ensures Subst(a + Placeholder(x) + b, env) == Subst(a, env) + Placeholder(x) + Subst(b, env)
  {
    var c := Placeholder(x) + b;
    assert a + Placeholder(x) + b == a + c;
    NoCrossingBeforePlaceholder(a, x, b, env);
    SubstSplits(a, c, env);
    assert StartsWith(c, Placeholder(x));
    SubstSkipsUnknown(c, env, x);
    assert c[|x| + 4..] == b;
  }

  /** The source's loop copies a placeholder of a non-dependency id verbatim. */
  lemma SubstituteAllKeepsUnknown(a: string, x: string, b: string, texts: Texts)
    requires DistinctIds(texts) && SafeEnv(EnvOf(texts))
    requires BraceFree(x) && forall i :: 0 <= i < |texts| ==> texts[i].0 != x
    ensures SubstituteAll(a + Placeholder(x) + b, texts)
         == SubstituteAll(a, texts) + Placeholder(x) + SubstituteAll(b, texts)
  {
    SequentialIsSimultaneous(a + Placeholder(x) + b, texts);
    SequentialIsSimultaneous(a, texts);
    SequentialIsSimultaneous(b, texts);
    SubstKeepsUnknown(a, x, b, EnvOf(texts));
  }

  /**
   * Requiring only that no JSON text holds a placeholder is not enough for a
   * second pass to change nothing: a replacement can complete a placeholder
   * with the braces around it. Here the dependency `null` has the value
   * `null`, whose JSON text is its own id.
   */
  lemma SecondPassCanChangeUnguardedText()
    ensures !Contains("null", Placeholder("null"))
    ensures SubstituteAll("{{{{null}}}}", [("null", "null")]) == "{{null}}"
    ensures SubstituteAll(SubstituteAll("{{{{null}}}}", [("null", "null")]), [("null", "null")]) == "null"
  {
    assert Placeholder("null") == "{{null}}";
    NullFirstPass();
    NullSecondPass();
    assert SubstituteAll("{{{{null}}}}", [("null", "null")]) == SubstStep("{{{{null}}}}", "null", "null");
    SubstStepIsReplaceAll("{{{{null}}}}", "null", "null");
    assert SubstituteAll("{{null}}", [("null", "null")]) == SubstStep("{{null}}", "null", "null");
    SubstStepIsReplaceAll("{{null}}", "null", "null");
  }

  lemma NullFirstPass()
    ensures ReplaceAll("{{{{null}}}}", "{{null}}", "null") == "{{null}}"
  {
    var p := "{{null}}";
    var s := "{{{{null}}}}";
    assert s[..8] != p by { assert s[2] != p[2]; }
    assert s[1..][..8] != p by { assert s[1..][2] != p[2]; }
    assert s[2..][..8] == p;
    assert s[2..][8..] == "}}";
    assert ReplaceAll("}}", p, "null") == "}}";
    assert ReplaceAll(s[2..], p, "null") == "null}}";
    assert ReplaceAll(s[1..], p, "null") == "{null}}";
  }

  lemma NullSecondPass()
    ensures ReplaceAll("{{null}}", "{{null}}", "null") == "null"
  {
    assert ReplaceAll("{{null}}", "{{null}}", "null") == "null" + ReplaceAll("", "{{null}}", "null");
  }

  /**
   * Nor is it enough for order independence: a replacement can complete the
   * placeholder of a dependency visited later.
   */
  lemma OrderMattersForUnguardedText()
    ensures SubstituteAll("{{t{{x}}2}}", [("x", "1"), ("t12", "\"v\"")]) == "\"v\""
    ensures SubstituteAll("{{t{{x}}2}}", [("t12", "\"v\""), ("x", "1")]) == "{{t12}}"
  {
    var s := "{{t{{x}}2}}";
    ReplacingXCompletesT12();
    T12AbsentBeforehand();
    var one := [("x", "1"), ("t12", "\"v\"")];
    assert one[..1] == [("x", "1")];
    assert SubstituteAll(s, one[..1]) == SubstStep(s, "x", "1");
    var two := [("t12", "\"v\""), ("x", "1")];
    assert two[..1] == [("t12", "\"v\"")];
    assert SubstituteAll(s, two[..1]) == SubstStep(s, "t12", "\"v\"");
  }

  lemma ReplacingXCompletesT12()
    ensures SubstStep("{{t{{x}}2}}", "x", "1") == "{{t12}}"
    ensures SubstStep("{{t12}}", "t12", "\"v\"") == "\"v\""
  {
    var s := "{{t{{x}}2}}";
    var px := Placeholder("x");
    var pt := Placeholder("t12");
    assert px == "{{x}}" && pt == "{{t12}}";
    assert OccursAt(s, px, 3);
    assert s[..5] != px && s[1..][..5] != px && s[2..][..5] != px && s[3..][..5] == px;
    assert ReplaceAll(s[3..][5..], px, "1") == "2}}";
    assert ReplaceAll(s, px, "1") == "{{t12}}";
    assert OccursAt("{{t12}}", pt, 0);
    assert ReplaceAll("{{t12}}", pt, "\"v\"") == "\"v\"" + ReplaceAll("", pt, "\"v\"");
  }

  lemma T12AbsentBeforehand()
    ensures !Contains("{{t{{x}}2}}", Placeholder("t12"))
  {
    var s := "{{t{{x}}2}}";
    var pt := Placeholder("t12");
    forall i | 0 <= i <= |s| - |pt| ensures !OccursAt(s, pt, i) {
      assert pt[2] == 't' && pt[3] == '1';
    }
  }
}
