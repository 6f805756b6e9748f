/**
 * The string helpers the who-can report relies on: Go's byte-wise string
 * order, the sorted listing of a string set (sets.String.List), strings.Join,
 * and the split of printed text into lines.
 */
module Strings {

  /**
   * Go's string comparison: lexicographic on bytes. Dafny characters are
   * Unicode scalar values, and UTF-8 byte order coincides with code-point
   * order, so comparing characters gives the same order.
   */
  predicate LessEq(a: string, b: string)
  {
    |a| == 0 || (|b| > 0 && (a[0] < b[0] || (a[0] == b[0] && LessEq(a[1..], b[1..]))))
  }

  lemma {:induction false} LessEqReflexive(a: string)
    ensures LessEq(a, a)
  {
    if |a| > 0 { LessEqReflexive(a[1..]); }
  }

  lemma {:induction false} LessEqTotal(a: string, b: string)
    ensures LessEq(a, b) || LessEq(b, a)
  {
    if |a| > 0 && |b| > 0 && a[0] == b[0] {
      LessEqTotal(a[1..], b[1..]);
    }
  }

  lemma {:induction false} LessEqAntisymmetric(a: string, b: string)
    requires LessEq(a, b) && LessEq(b, a)
    ensures a == b
  {
    if |a| > 0 && |b| > 0 {
      LessEqAntisymmetric(a[1..], b[1..]);
      assert a == [a[0]] + a[1..] && b == [b[0]] + b[1..];
    }
  }

  lemma {:induction false} LessEqTransitive(a: string, b: string, c: string)
    requires LessEq(a, b) && LessEq(b, c)
    ensures LessEq(a, c)
  {
    if |a| > 0 && |b| > 0 && |c| > 0 && a[0] == b[0] && b[0] == c[0] {
      LessEqTransitive(a[1..], b[1..], c[1..]);
    }
  }

  /** `m` is the smallest member of `s`. */
  predicate IsLeast(m: string, s: set<string>)
  {
    m in s && forall y :: y in s ==> LessEq(m, y)
  }

  /** Every non-empty finite set of strings has a least member. */
  lemma {:induction false} LeastExists(s: set<string>)
    requires s != {}
    ensures exists m :: IsLeast(m, s)
    decreases |s|
  {
    var x :| x in s;
    var rest := s - {x};
    if rest == {} {
      assert s == {x};
      LessEqReflexive(x);
      assert IsLeast(x, s);
    } else {
      LeastExists(rest);
      var m :| IsLeast(m, rest);
      LessEqTotal(x, m);
      if LessEq(x, m) {
        forall y | y in s ensures LessEq(x, y) {
          if y == x { LessEqReflexive(x); } else { LessEqTransitive(x, m, y); }
        }
        assert IsLeast(x, s);
      } else {
        assert IsLeast(m, s);
      }
    }
  }

  /** The least member is unique. */
  lemma LeastUnique(s: set<string>)
    ensures forall m, m' :: IsLeast(m, s) && IsLeast(m', s) ==> m == m'
  {
    forall m, m' | IsLeast(m, s) && IsLeast(m', s) ensures m == m' {
      LessEqAntisymmetric(m, m');
    }
  }

  /** Strictly ascending: sorted in Go's order, and no member repeated. */
  predicate StrictlyAscending(r: seq<string>)
  {
    forall i, j :: 0 <= i < j < |r| ==> LessEq(r[i], r[j]) && r[i] != r[j]
  }

  /**
   * sets.String.List: the members of the set, each once, in ascending order.
   * Built by repeatedly taking the least member.
   */
  function SortedList(s: set<string>): (r: seq<string>)
    ensures |r| == |s|
    ensures forall x :: x in r <==> x in s
    ensures StrictlyAscending(r)
    decreases |s|
  {
    if s == {} then []
    else
      LeastExists(s);
      LeastUnique(s);
      var m :| IsLeast(m, s);
      [m] + SortedList(s - {m})
  }

  /** strings.Join. */
  function Join(parts: seq<string>, sep: string): string
  {
    if |parts| == 0 then ""
    else if |parts| == 1 then parts[0]
    else parts[0] + sep + Join(parts[1..], sep)
  }

  /** strings.Split(s, "\n"): the lines of a text; never an empty list. */
  function SplitLines(s: string): (r: seq<string>)
    ensures |r| >= 1
    ensures forall i :: 0 <= i < |r| ==> '\n' !in r[i]
  {
    if |s| == 0 then [""]
    else if s[0] == '\n' then [""] + SplitLines(s[1..])
    else
      var rest := SplitLines(s[1..]);
      [[s[0]] + rest[0]] + rest[1..]
  }

  predicate NoNewlines(lines: seq<string>)
  {
    forall i :: 0 <= i < |lines| ==> '\n' !in lines[i]
  }

  lemma NoNewlinesAppend(a: seq<string>, b: seq<string>)
    requires NoNewlines(a) && NoNewlines(b)
    ensures NoNewlines(a + b)
  {
    forall i | 0 <= i < |a + b| ensures '\n' !in (a + b)[i] {
      if i >= |a| { assert (a + b)[i] == b[i - |a|]; }
    }
  }

  /** A newline-free prefix joins the first line of what follows it. */
  lemma {:induction false} SplitAfterPrefix(a: string, t: string)
    requires '\n' !in a
    ensures SplitLines(a + t) == [a + SplitLines(t)[0]] + SplitLines(t)[1..]
  {
    if |a| > 0 {
      assert (a + t)[1..] == a[1..] + t;
      SplitAfterPrefix(a[1..], t);
      assert [a[0]] + (a[1..] + SplitLines(t)[0]) == a + SplitLines(t)[0];
    } else {
      var r := SplitLines(t);
      assert a + t == t && a + r[0] == r[0];
      assert r == [r[0]] + r[1..];
    }
  }

  /** Joining newline-free lines with "\n" and splitting again gives the lines back. */
  lemma {:induction false} SplitJoinedLines(lines: seq<string>)
    requires |lines| >= 1 && NoNewlines(lines)
    ensures SplitLines(Join(lines, "\n")) == lines
  {
    if |lines| == 1 {
      SplitAfterPrefix(lines[0], "");
      assert lines[0] + "" == lines[0];
    } else {
      var t := Join(lines[1..], "\n");
      SplitJoinedLines(lines[1..]);
      assert Join(lines, "\n") == lines[0] + ("\n" + t);
      SplitAfterPrefix(lines[0], "\n" + t);
      assert ("\n" + t)[0] == '\n' && ("\n" + t)[1..] == t;
      assert SplitLines("\n" + t) == [""] + SplitLines(t);
      assert lines[0] + "" == lines[0];
      assert lines == [lines[0]] + lines[1..];
    }
  }

  /** Joining two non-empty lists puts one separator between their joins. */
  lemma {:induction false} JoinAppend(a: seq<string>, b: seq<string>, sep: string)
    requires |a| >= 1 && |b| >= 1
    ensures Join(a + b, sep) == Join(a, sep) + sep + Join(b, sep)
  {
    if |a| == 1 {
      assert (a + b)[1..] == b;
    } else {
      assert (a + b)[1..] == a[1..] + b;
      JoinAppend(a[1..], b, sep);
    }
  }

  /** Joining a part in front of a non-empty list. */
  lemma JoinCons(first: string, rest: seq<string>, sep: string)
    requires |rest| >= 1
    ensures Join([first] + rest, sep) == first + (sep + Join(rest, sep))
  {
    assert ([first] + rest)[1..] == rest;
  }

  /** Text written before a join lands on the join's first part. */
  lemma PrefixFirst(p: string, parts: seq<string>, sep: string)
    requires |parts| >= 1
    ensures p + Join(parts, sep) == Join([p + parts[0]] + parts[1..], sep)
  {
    var q := [p + parts[0]] + parts[1..];
    assert q[1..] == parts[1..];
  }

  /** The continuation lines: each part after the first, behind the pad. */
  function Padded(pad: string, parts: seq<string>): seq<string>
  {
    seq(|parts|, i requires 0 <= i < |parts| => pad + parts[i])
  }

  /** Every padded line lacks a newline when the pad and the parts lack one. */
  lemma PaddedNoNewlines(pad: string, parts: seq<string>)
    requires '\n' !in pad && NoNewlines(parts)
    ensures NoNewlines(Padded(pad, parts))
  {
    var r := Padded(pad, parts);
    forall i | 0 <= i < |r| ensures '\n' !in r[i] {
      assert r[i] == pad + parts[i];
    }
  }

  /**
   * Joining with "\n" followed by a pad is joining with "\n" the first part
   * and the padded rest: the text shows one part per line, continuation lines
   * indented by the pad.
   */
  lemma {:induction false} JoinIndented(parts: seq<string>, pad: string)
    requires |parts| >= 1
    ensures Join(parts, "\n" + pad) == Join([parts[0]] + Padded(pad, parts[1..]), "\n")
  {
    if |parts| > 1 {
      var rest := parts[1..];
      JoinIndented(rest, pad);
      var lines := [rest[0]] + Padded(pad, rest[1..]);
      PrefixFirst(pad, lines, "\n");
      assert [pad + rest[0]] + Padded(pad, rest[1..]) == Padded(pad, rest);
      var all := [parts[0]] + Padded(pad, rest);
      assert all[1..] == Padded(pad, rest);
    }
  }
}
