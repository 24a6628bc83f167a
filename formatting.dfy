/**
 * Python's `str.format` on a template that has already been cut into its
 * literal text and its replacement fields (`{query}`, `{0}`, ...).
 * A field whose name the arguments do not supply raises in Python
 * (`KeyError`, `IndexError`); here that is `None`.
 */
module Formatting {
  import opened Wrappers

  datatype Piece = Literal(text: string) | Field(name: string)

  type Template = seq<Piece>

  /** The names of the replacement fields, in template order, repeats kept. */
  function FieldNames(t: Template): (r: seq<string>)
    ensures |r| <= |t|
    decreases |t|
  {
    if |t| == 0 then []
    else (if t[0].Field? then [t[0].name] else []) + FieldNames(t[1..])
  }

  /** Every field of `t` has a value in `env`. */
  predicate Supplies(env: map<string, string>, t: Template) {
    forall i :: 0 <= i < |t| && t[i].Field? ==> t[i].name in env
  }

  /** `t.format(**env)`: literal text copied, each field replaced by its
      value verbatim (no escaping of any kind). */
  function Format(t: Template, env: map<string, string>): Option<string>
    decreases |t|
  {
    if |t| == 0 then Some("")
    else Fill(t[0], Format(t[1..], env), env)
  }

  /** Put the text of one piece in front of the already formatted rest. */
  function Fill(p: Piece, rest: Option<string>, env: map<string, string>): Option<string> {
    if rest.None? then None
    else if p.Literal? then Some(p.text + rest.value)
    else if p.name in env then Some(env[p.name] + rest.value)
    else None
  }

  /** Formatting succeeds exactly when every field has a value. */
  lemma {:induction false} FormatDefined(t: Template, env: map<string, string>)
    ensures Format(t, env).Some? <==> Supplies(env, t)
    decreases |t|
  {
    if |t| > 0 {
      FormatDefined(t[1..], env);
      assert Supplies(env, t) <==> Supplies(env, t[1..]) && (t[0].Field? ==> t[0].name in env) by {
        if Supplies(env, t[1..]) && (t[0].Field? ==> t[0].name in env) {
          forall i | 0 <= i < |t| && t[i].Field? ensures t[i].name in env {
            if i > 0 { assert t[i] == t[1..][i - 1]; }
          }
        }
        if Supplies(env, t) {
          forall i | 0 <= i < |t[1..]| && t[1..][i].Field? ensures t[1..][i].name in env {
            assert t[1..][i] == t[i + 1];
          }
        }
      }
    }
  }

  /** Formatting a template made of two parts formats each part and
      concatenates the results: fields are filled in place, in order. */
  lemma {:induction false} FormatAppend(t1: Template, t2: Template, env: map<string, string>)
    ensures Format(t1 + t2, env) ==
      if Format(t1, env).Some? && Format(t2, env).Some?
      then Some(Format(t1, env).value + Format(t2, env).value)
      else None
    decreases |t1|
  {
    if |t1| == 0 {
      assert t1 + t2 == t2;
      if Format(t2, env).Some? {
        assert "" + Format(t2, env).value == Format(t2, env).value;
      }
    } else {
      assert (t1 + t2)[0] == t1[0];
      assert (t1 + t2)[1..] == t1[1..] + t2;
      FormatAppend(t1[1..], t2, env);
      var r1, r2 := Format(t1[1..], env), Format(t2, env);
      if r1.Some? && r2.Some? {
        if t1[0].Literal? {
          assert t1[0].text + (r1.value + r2.value) == (t1[0].text + r1.value) + r2.value;
        } else if t1[0].name in env {
          assert env[t1[0].name] + (r1.value + r2.value) == (env[t1[0].name] + r1.value) + r2.value;
        }
      }
    }
  }

  /** Only the values of the template's own fields matter. */
  lemma {:induction false} FormatAgrees(t: Template, e1: map<string, string>, e2: map<string, string>)
    requires forall i :: 0 <= i < |t| && t[i].Field? ==>
               (t[i].name in e1 <==> t[i].name in e2) &&
               (t[i].name in e1 ==> e1[t[i].name] == e2[t[i].name])
    ensures Format(t, e1) == Format(t, e2)
    decreases |t|
  {
    if |t| > 0 {
      forall i | 0 <= i < |t[1..]| && t[1..][i].Field?
        ensures (t[1..][i].name in e1 <==> t[1..][i].name in e2) &&
                (t[1..][i].name in e1 ==> e1[t[1..][i].name] == e2[t[1..][i].name])
      {
        assert t[1..][i] == t[i + 1];
      }
      FormatAgrees(t[1..], e1, e2);
    }
  }

  /** One step of formatting, for templates written as a piece followed by
      the rest. */
  lemma FormatCons(p: Piece, t: Template, env: map<string, string>)
    ensures Format([p] + t, env) == Fill(p, Format(t, env), env)
  {
    assert ([p] + t)[0] == p;
    assert ([p] + t)[1..] == t;
  }

  /** One step of listing the field names, for the same form of template. */
  lemma FieldNamesCons(p: Piece, t: Template)
    ensures FieldNames([p] + t) == (if p.Field? then [p.name] else []) + FieldNames(t)
  {
    assert ([p] + t)[0] == p;
    assert ([p] + t)[1..] == t;
  }
}
