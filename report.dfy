/**
 * The text who-can prints for a review response: five sections (Namespace,
 * Verb, Resource, Users, Groups). Report gives the text as Go's Printf calls
 * produce it; ReportLines gives the same output line by line, and
 * ReportSplitsIntoLines connects the two.
 */
module Report {
  import opened Strings
  import opened Resource
  import opened Authorization

  /** kapi.NamespaceAll: the blank namespace that means "every namespace". */
  const NamespaceAll: string := ""

  /** Continuation of a member list: a newline and eight spaces, under the first member. */
  const Pad: string := "        "

  /** The namespace as printed: the all-namespaces sentinel shows as "<all>". */
  function NamespaceDisplay(ns: string): (r: string)
    ensures r != ""
    ensures r == "<all>" <==> ns == NamespaceAll || ns == "<all>"
    ensures ns != NamespaceAll ==> r == ns
  {
    if ns == NamespaceAll then "<all>" else ns
  }

  /** Undo ResourceDisplay: split at the first '.'. */
  function SplitAtFirstDot(d: string): (string, string)
  {
    if |d| == 0 then ("", "")
    else if d[0] == '.' then ("", d[1..])
    else
      var rest := SplitAtFirstDot(d[1..]);
      ([d[0]] + rest.0, rest.1)
  }

  lemma {:induction false} SplitAtFirstDotJoined(a: string, b: string, dotted: bool)
    ensures '.' !in a ==> SplitAtFirstDot(if dotted then a + "." + b else a) == (a, if dotted then b else "")
  {
    var d := if dotted then a + "." + b else a;
    if '.' in a {
    } else if |a| > 0 {
      assert d[0] == a[0] && d[1..] == if dotted then a[1..] + "." + b else a[1..];
      SplitAtFirstDotJoined(a[1..], b, dotted);
      assert [a[0]] + a[1..] == a;
    } else if dotted {
      assert d == "." + b && d[1..] == b;
    }
  }

  /**
   * The resource as printed: "resource", or "resource.group" when the group
   * is not blank. For a resource name without dots (every plural resource
   * name) the printed form determines resource and group.
   */
  function ResourceDisplay(gvr: GroupVersionResource): (r: string)
    ensures |gvr.group| == 0 ==> r == gvr.resource
    ensures |gvr.group| > 0 ==> r == gvr.resource + "." + gvr.group
    ensures '.' !in gvr.resource ==> SplitAtFirstDot(r) == (gvr.resource, gvr.group)
  {
    SplitAtFirstDotJoined(gvr.resource, gvr.group, |gvr.group| > 0);
    if |gvr.group| > 0 then gvr.resource + "." + gvr.group else gvr.resource
  }

  /**
   * A member list as printed: "none" for an empty set, otherwise the members
   * in ascending order, one per line. The word "none" is also what a set whose
   * only member is "none" prints.
   */
  function MembersText(s: set<string>): (r: string)
    ensures r == "none" <==> s == {} || s == {"none"}
  {
    if |s| == 0 then "none"
    else
      JoinedMembersAreNone(s);
      Join(SortedList(s), "\n" + Pad)
  }

  /** Two or more members print on several lines; a single member prints as itself. */
  lemma JoinedMembersAreNone(s: set<string>)
    requires s != {}
    ensures Join(SortedList(s), "\n" + Pad) == "none" <==> s == {"none"}
    ensures |s| >= 2 ==> '\n' in Join(SortedList(s), "\n" + Pad)
  {
    var sorted := SortedList(s);
    var text := Join(sorted, "\n" + Pad);
    if |sorted| >= 2 {
      JoinCons(sorted[0], sorted[1..], "\n" + Pad);
      assert [sorted[0]] + sorted[1..] == sorted;
      assert text == sorted[0] + ("\n" + Pad + Join(sorted[1..], "\n" + Pad));
      assert text[|sorted[0]|] == '\n';
      assert s != {"none"};
    } else {
      assert sorted == [sorted[0]] && sorted[0] in s;
      assert s == {sorted[0]};
    }
  }

  /** The lines of a member list: "none", or the sorted members, continuation lines padded. */
  function MemberLines(s: set<string>): seq<string>
  {
    if |s| == 0 then ["none"]
    else
      var sorted := SortedList(s);
      [sorted[0]] + Padded(Pad, sorted[1..])
  }

  lemma MembersTextIsJoinedLines(s: set<string>)
    ensures MembersText(s) == Join(MemberLines(s), "\n")
  {
    if |s| > 0 {
      JoinIndented(SortedList(s), Pad);
    }
  }

  /** A section heading written in front of its first line. */
  function Labelled(heading: string, lines: seq<string>): seq<string>
    requires |lines| >= 1
  {
    [heading + lines[0]] + lines[1..]
  }

  /** The report: what the Printf calls of a successful run write, in order. */
  function Report(response: ReviewResponse, verb: string, resource: GroupVersionResource): (r: string)
    ensures |r| >= 2 && r[|r| - 2..] == "\n\n"
  {
    "Namespace: " + NamespaceDisplay(response.namespace) + "\n"
    + "Verb:      " + verb + "\n"
    + "Resource:  " + ResourceDisplay(resource) + "\n\n"
    + "Users:  " + MembersText(response.users) + "\n\n"
    + "Groups: " + MembersText(response.groups) + "\n\n"
  }

  /** The report as lines: the three headed lines, a blank line, the users, a blank line, the groups, a blank line, then the empty text after the final newline. */
  function ReportLines(response: ReviewResponse, verb: string, resource: GroupVersionResource): seq<string>
  {
    ["Namespace: " + NamespaceDisplay(response.namespace),
     "Verb:      " + verb,
     "Resource:  " + ResourceDisplay(resource),
     ""]
    + Labelled("Users:  ", MemberLines(response.users))
    + [""]
    + Labelled("Groups: ", MemberLines(response.groups))
    + ["", ""]
  }

  /** The report's layout, for any section texts: three headed lines, then two sections each followed by a blank line. */
  lemma SectionsJoined(a: string, b: string, c: string, users: seq<string>, groups: seq<string>)
    requires |users| >= 1 && |groups| >= 1
    ensures a + "\n" + b + "\n" + c + "\n\n" + Join(users, "\n") + "\n\n" + Join(groups, "\n") + "\n\n"
         == Join([a, b, c, ""] + users + [""] + groups + ["", ""], "\n")
  {
    var u, g := Join(users, "\n"), Join(groups, "\n");
    var t0 := ["", ""];
    assert t0[1..] == [""];
    assert Join(t0, "\n") == "\n";
    var t1 := groups + t0;
    JoinAppend(groups, t0, "\n");
    var j1 := g + "\n" + "\n";
    assert Join(t1, "\n") == j1;
    var t2 := [""] + t1;
    JoinCons("", t1, "\n");
    var j2 := "\n" + j1;
    assert Join(t2, "\n") == j2;
    var t3 := users + t2;
    JoinAppend(users, t2, "\n");
    var j3 := u + "\n" + j2;
    assert Join(t3, "\n") == j3;
    var t4 := [""] + t3;
    JoinCons("", t3, "\n");
    var j4 := "\n" + j3;
    assert Join(t4, "\n") == j4;
    var t5 := [c] + t4;
    JoinCons(c, t4, "\n");
    var j5 := c + ("\n" + j4);
    assert Join(t5, "\n") == j5;
    var t6 := [b] + t5;
    JoinCons(b, t5, "\n");
    var j6 := b + ("\n" + j5);
    assert Join(t6, "\n") == j6;
    var t7 := [a] + t6;
    JoinCons(a, t6, "\n");
    assert Join(t7, "\n") == a + ("\n" + j6);
    Regroup(a, b, c, u, g);
    RegroupLines(a, b, c, users, groups);
  }

  // Regroup, RegroupLines, RegroupReport and RegroupPieces only re-bracket string and
  // sequence concatenations; they keep each step small for the solver.
  lemma Regroup(a: string, b: string, c: string, u: string, g: string)
    ensures a + ("\n" + (b + ("\n" + (c + ("\n" + ("\n" + (u + "\n" + ("\n" + (g + "\n" + "\n")))))))))
         == a + "\n" + b + "\n" + c + "\n\n" + u + "\n\n" + g + "\n\n"
  {
  }

  lemma RegroupLines(a: string, b: string, c: string, users: seq<string>, groups: seq<string>)
    ensures [a] + ([b] + ([c] + ([""] + (users + ([""] + (groups + ["", ""]))))))
         == [a, b, c, ""] + users + [""] + groups + ["", ""]
  {
  }

  lemma RegroupReport(p1: string, x1: string, p2: string, x2: string, p3: string, x3: string,
                      p4: string, x4: string, p5: string, x5: string)
    ensures p1 + x1 + "\n" + p2 + x2 + "\n" + p3 + x3 + "\n\n" + p4 + x4 + "\n\n" + p5 + x5 + "\n\n"
         == (p1 + x1) + "\n" + (p2 + x2) + "\n" + (p3 + x3) + "\n\n" + (p4 + x4) + "\n\n" + (p5 + x5) + "\n\n"
  {
  }

  lemma RegroupPieces(a1: string, a2: string, a3: string, b1: string, b2: string, b3: string,
                      c1: string, c2: string, c3: string, d1: string, d2: string, d3: string,
                      e1: string, e2: string, e3: string)
    ensures a1 + a2 + a3 + b1 + b2 + b3 + c1 + c2 + c3 + d1 + d2 + d3 + e1 + e2 + e3
         == (a1 + a2 + a3) + (b1 + b2 + b3) + (c1 + c2 + c3) + (d1 + d2 + d3) + (e1 + e2 + e3)
  {
    var a, b, c, d := a1 + a2 + a3, b1 + b2 + b3, c1 + c2 + c3, d1 + d2 + d3;
    assert a + b1 + b2 + b3 == a + b;
    assert a + b + c1 + c2 + c3 == a + b + c;
    assert a + b + c + d1 + d2 + d3 == a + b + c + d;
  }

  /** The report text is its lines joined with newlines. */
  lemma ReportIsJoinedLines(response: ReviewResponse, verb: string, resource: GroupVersionResource)
    ensures Report(response, verb, resource) == Join(ReportLines(response, verb, resource), "\n")
  {
    var ns, rd := NamespaceDisplay(response.namespace), ResourceDisplay(resource);
    var mu, mg := MembersText(response.users), MembersText(response.groups);
    var users := Labelled("Users:  ", MemberLines(response.users));
    var groups := Labelled("Groups: ", MemberLines(response.groups));
    MembersTextIsJoinedLines(response.users);
    MembersTextIsJoinedLines(response.groups);
    PrefixFirst("Users:  ", MemberLines(response.users), "\n");
    PrefixFirst("Groups: ", MemberLines(response.groups), "\n");
    assert "Users:  " + mu == Join(users, "\n");
    assert "Groups: " + mg == Join(groups, "\n");
    RegroupReport("Namespace: ", ns, "Verb:      ", verb, "Resource:  ", rd, "Users:  ", mu, "Groups: ", mg);
    SectionsJoined("Namespace: " + ns, "Verb:      " + verb, "Resource:  " + rd, users, groups);
  }

  /** The lines of a member list hold no newline when its members hold none. */
  lemma MemberLinesNoNewlines(heading: string, s: set<string>)
    requires '\n' !in heading
    requires forall x :: x in s ==> '\n' !in x
    ensures NoNewlines(Labelled(heading, MemberLines(s)))
  {
    if |s| > 0 {
      var sorted := SortedList(s);
      assert NoNewlines(sorted[1..]) by {
        forall i | 0 <= i < |sorted[1..]| ensures '\n' !in sorted[1..][i] {
          assert sorted[1..][i] in s;
        }
      }
      PaddedNoNewlines(Pad, sorted[1..]);
      assert sorted[0] in s;
      assert Labelled(heading, MemberLines(s)) == [heading + sorted[0]] + Padded(Pad, sorted[1..]);
      NoNewlinesAppend([heading + sorted[0]], Padded(Pad, sorted[1..]));
    }
  }

  /**
   * When nothing printed contains a newline of its own, splitting the report
   * into lines gives exactly ReportLines: one line per member, in ascending
   * order, "none" for an empty set.
   */
  lemma ReportSplitsIntoLines(response: ReviewResponse, verb: string, resource: GroupVersionResource)
    requires '\n' !in response.namespace && '\n' !in verb
    requires '\n' !in resource.group && '\n' !in resource.resource
    requires forall u :: u in response.users ==> '\n' !in u
    requires forall g :: g in response.groups ==> '\n' !in g
    ensures SplitLines(Report(response, verb, resource)) == ReportLines(response, verb, resource)
  {
    ReportIsJoinedLines(response, verb, resource);
    var head := ["Namespace: " + NamespaceDisplay(response.namespace),
                 "Verb:      " + verb,
                 "Resource:  " + ResourceDisplay(resource),
                 ""];
    var users := Labelled("Users:  ", MemberLines(response.users));
    var groups := Labelled("Groups: ", MemberLines(response.groups));
    MemberLinesNoNewlines("Users:  ", response.users);
    MemberLinesNoNewlines("Groups: ", response.groups);
    assert NoNewlines(head);
    NoNewlinesAppend(head, users);
    NoNewlinesAppend(head + users, [""]);
    NoNewlinesAppend(head + users + [""], groups);
    NoNewlinesAppend(head + users + [""] + groups, ["", ""]);
    SplitJoinedLines(ReportLines(response, verb, resource));
  }
}
