/** String helpers the builder's SQL fragments are made of: JavaScript's
    `Array.prototype.join`, its inverse for a one-character separator,
    the count of `?` placeholders in a text, and `getQuestionMarks`. */
module Text {

  /** `parts.join(sep)`: the parts with `sep` between neighbours. */
  function Join(parts: seq<string>, sep: string): string
  {
    if |parts| == 0 then ""
    else if |parts| == 1 then parts[0]
    else parts[0] + sep + Join(parts[1..], sep)
  }

  /** `s.split(c)`: the pieces of `s` between occurrences of `c`. */
  function Split(s: string, c: char): (r: seq<string>)
    ensures |r| > 0
  {
    if s == [] then [""]
    else
      var rest := Split(s[1..], c);
      if s[0] == c then [""] + rest
      else [[s[0]] + rest[0]] + rest[1..]
  }

  /** The number of `?` placeholders in `s`. */
  function Placeholders(s: string): nat
  {
    if s == [] then 0
    else (if s[0] == '?' then 1 else 0) + Placeholders(s[1..])
  }

  /** Text holding no placeholder, e.g. a trusted table or column name. */
  predicate QuestionFree(s: string)
  {
    '?' !in s
  }

  /** The placeholder counts of a list of parts, added up. */
  function SumPlaceholders(parts: seq<string>): nat
  {
    if parts == [] then 0 else Placeholders(parts[0]) + SumPlaceholders(parts[1..])
  }

  /** `n` copies of `s`, as `values.map(v => s)` builds them. */
  function Repeat(s: string, n: nat): (r: seq<string>)
    ensures |r| == n && forall i :: 0 <= i < n ==> r[i] == s
  {
    if n == 0 then [] else [s] + Repeat(s, n - 1)
  }

  /** `getQuestionMarks` of an array of `n` elements: `n` placeholders
      separated by commas, `"?,?,?"` for three. */
  function QuestionMarks(n: nat): (r: string)
    ensures Placeholders(r) == n
    ensures |r| == if n == 0 then 0 else 2 * n - 1
    ensures forall i :: 0 <= i < |r| ==> r[i] == if i % 2 == 0 then '?' else ','
  {
    if n == 0 then ""
    else if n == 1 then "?"
    else
      var rest := QuestionMarks(n - 1);
      var r := "?," + rest;
      PlaceholdersAppend("?,", rest);
      assert forall i :: 2 <= i < |r| ==> r[i] == rest[i - 2] && (i - 2) % 2 == i % 2;
      r
  }

  lemma {:induction false} PlaceholdersAppend(a: string, b: string)
    ensures Placeholders(a + b) == Placeholders(a) + Placeholders(b)
  {
    if a != [] {
      assert (a + b)[1..] == a[1..] + b;
      PlaceholdersAppend(a[1..], b);
    } else {
      assert a + b == b;
    }
  }

  lemma {:induction false} QuestionFreeHasNoPlaceholders(s: string)
    requires QuestionFree(s)
    ensures Placeholders(s) == 0
  {
    if s != [] {
      assert s[0] != '?';
      QuestionFreeHasNoPlaceholders(s[1..]);
    }
  }

  /** With a placeholder-free separator, the placeholders of a joined text
      are exactly those of its parts. */
  lemma {:induction false} PlaceholdersJoin(parts: seq<string>, sep: string)
    requires QuestionFree(sep)
    ensures Placeholders(Join(parts, sep)) == SumPlaceholders(parts)
  {
    if |parts| == 1 {
      assert parts[1..] == [];
    } else if |parts| > 1 {
      PlaceholdersJoin(parts[1..], sep);
      QuestionFreeHasNoPlaceholders(sep);
      PlaceholdersAppend(parts[0] + sep, Join(parts[1..], sep));
      PlaceholdersAppend(parts[0], sep);
    }
  }

  /** Parts that each hold `k` placeholders hold `k` per part in all. */
  lemma {:induction false} SumPlaceholdersUniform(parts: seq<string>, k: nat)
    requires forall i :: 0 <= i < |parts| ==> Placeholders(parts[i]) == k
    ensures SumPlaceholders(parts) == k * |parts|
  {
    if parts != [] {
      SumPlaceholdersUniform(parts[1..], k);
    }
  }

  /** Splitting a text with no separator in it gives the text back whole. */
  lemma {:induction false} SplitWithout(p: string, c: char)
    requires c !in p
    ensures Split(p, c) == [p]
  {
    if p != [] {
      SplitWithout(p[1..], c);
      assert [p[0]] + p[1..] == p;
    }
  }

  /** A separator-free piece followed by the separator is split off as one part. */
  lemma {:induction false} SplitAfter(p: string, c: char, t: string)
    requires c !in p
    ensures Split(p + [c] + t, c) == [p] + Split(t, c)
  {
    if p == [] {
      assert p + [c] + t == [c] + t;
      assert ([c] + t)[1..] == t;
    } else {
      assert (p + [c] + t)[1..] == p[1..] + [c] + t;
      SplitAfter(p[1..], c, t);
      assert [p[0]] + p[1..] == p;
    }
  }

  /** Joining with a one-character separator that no part contains is
      undone by splitting on it: the column list `${Object.keys(...)}` reads
      back as the key sequence it was built from. */
  lemma {:induction false} SplitJoin(parts: seq<string>, c: char)
    requires |parts| > 0
    requires forall i :: 0 <= i < |parts| ==> c !in parts[i]
    ensures Split(Join(parts, [c]), c) == parts
  {
    if |parts| == 1 {
      SplitWithout(parts[0], c);
    } else {
      SplitJoin(parts[1..], c);
      SplitAfter(parts[0], c, Join(parts[1..], [c]));
      assert [parts[0]] + parts[1..] == parts;
    }
  }

  /** `values.map(v => "?").join(",")`, as `in` writes its placeholder list,
      is the same text as `getQuestionMarks` of those values. */
  lemma {:induction false} QuestionMarksIsJoin(n: nat)
    ensures QuestionMarks(n) == Join(Repeat("?", n), ",")
  {
    if n > 1 {
      QuestionMarksIsJoin(n - 1);
      assert Repeat("?", n)[1..] == Repeat("?", n - 1);
    }
  }
}
