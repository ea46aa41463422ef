/** How the driver pairs positional placeholders with bound values: the
    k-th `?` of the statement text takes the k-th value of the parameter list. */
module Binding {
  import opened Text
  import opened Values

  /** One position of a statement after binding: a character of the text,
      or a placeholder replaced by its value. */
  datatype Token = Lit(c: char) | Param(v: Value)

  /** The text `s` with its placeholders bound, left to right, to `vs`. A
      placeholder with no value left stays a literal `?`; values left over
      after the last placeholder are bound to nothing. */
  function Bind(s: string, vs: seq<Value>): (ts: seq<Token>)
    ensures |ts| == |s|
  {
    if s == [] then []
    else if s[0] == '?' && vs != [] then [Param(vs[0])] + Bind(s[1..], vs[1..])
    else [Lit(s[0])] + Bind(s[1..], vs)
  }

  /** A text with nothing bound into it. */
  function Literal(s: string): (ts: seq<Token>)
    ensures |ts| == |s| && forall i :: 0 <= i < |s| ==> ts[i] == Lit(s[i])
  {
    if s == [] then [] else [Lit(s[0])] + Literal(s[1..])
  }

  /** The values a bound statement carries, in text order. */
  function Params(ts: seq<Token>): seq<Value>
  {
    if ts == [] then []
    else if ts[0].Param? then [ts[0].v] + Params(ts[1..])
    else Params(ts[1..])
  }

  /** Binding replaces placeholders only: every other character of the
      text stays in its place, and a value appears only where a `?` was. */
  lemma {:induction false} BindKeepsText(s: string, vs: seq<Value>)
    ensures forall i :: 0 <= i < |s| ==>
              (Bind(s, vs)[i].Lit? ==> Bind(s, vs)[i].c == s[i]) &&
              (Bind(s, vs)[i].Param? ==> s[i] == '?')
  {
    if s != [] {
      var vs' := if s[0] == '?' && vs != [] then vs[1..] else vs;
      BindKeepsText(s[1..], vs');
      assert Bind(s, vs)[1..] == Bind(s[1..], vs');
    }
  }

  /** A placeholder-free text binds nothing and is left as it is. */
  lemma {:induction false} BindQuestionFree(s: string, vs: seq<Value>)
    requires QuestionFree(s)
    ensures Bind(s, vs) == Literal(s)
  {
    if s != [] {
      BindQuestionFree(s[1..], vs);
    }
  }

  /** When the text so far has exactly as many placeholders as there are
      values so far, what is appended next binds exactly the values pushed
      next: each clause's values land in that clause's own placeholders. */
  lemma {:induction false} BindAppend(a: string, b: string, va: seq<Value>, vb: seq<Value>)
    requires Placeholders(a) == |va|
    ensures Bind(a + b, va + vb) == Bind(a, va) + Bind(b, vb)
  {
    if a == [] {
      assert a + b == b;
      assert va + vb == vb;
    } else {
      assert (a + b)[0] == a[0] && (a + b)[1..] == a[1..] + b;
      if a[0] == '?' {
        assert va != [];
        assert (va + vb)[0] == va[0] && (va + vb)[1..] == va[1..] + vb;
        BindAppend(a[1..], b, va[1..], vb);
        assert Bind(a + b, va + vb) == [Param(va[0])] + Bind(a[1..] + b, va[1..] + vb);
      } else {
        BindAppend(a[1..], b, va, vb);
        assert Bind(a + b, va + vb) == [Lit(a[0])] + Bind(a[1..] + b, va + vb);
      }
    }
  }

  /** A text with as many placeholders as values binds every value, once
      and in order. */
  lemma {:induction false} BindParams(s: string, vs: seq<Value>)
    requires Placeholders(s) == |vs|
    ensures Params(Bind(s, vs)) == vs
  {
    if s != [] {
      if s[0] == '?' {
        BindParams(s[1..], vs[1..]);
        assert [vs[0]] + vs[1..] == vs;
      } else {
        BindParams(s[1..], vs);
      }
    }
  }

  /** A text with more placeholders than values leaves a `?` unbound. */
  lemma {:induction false} BindLeavesPlaceholder(s: string, vs: seq<Value>)
    requires Placeholders(s) > |vs|
    ensures Lit('?') in Bind(s, vs)
  {
    if s[0] == '?' && vs != [] {
      BindLeavesPlaceholder(s[1..], vs[1..]);
    } else if s[0] == '?' {
      assert Bind(s, vs)[0] == Lit('?');
    } else {
      BindLeavesPlaceholder(s[1..], vs);
    }
  }
}
