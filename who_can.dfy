/**
 * The who-can command: complete() fills the options from the two positional
 * arguments, and run() asks the reviewer who may perform the verb on the
 * resource and produces the report. The API client, the current namespace and
 * the flag parsing are outside the model: the reviewer is passed in, and the
 * two option fields they set are assigned by the caller.
 */
module WhoCan {
  import opened Wrappers
  import opened Strings
  import opened Resource
  import opened Authorization
  import opened Report

  const UsageMessage: string := "you must specify two arguments: verb and resource"

  /** The query: the verb, and the group and resource of one resolved coordinate. */
  function AttributesFor(verb: string, resource: GroupVersionResource): (a: AuthorizationAttributes)
    ensures a.verb == verb
    ensures a.group == resource.group && a.resource == resource.resource
    ensures a.group == "" ==> ResourceDisplay(resource) == a.resource
    ensures '.' !in a.resource ==> SplitAtFirstDot(ResourceDisplay(resource)) == (a.resource, a.group)
  {
    AuthorizationAttributes(verb, resource.group, resource.resource)
  }

  /** whoCanOptions. */
  class WhoCanOptions {
    var allNamespaces: bool
    var bindingNamespace: string
    var verb: string
    var resource: GroupVersionResource

    /** The zero value the command starts from. */
    constructor ()
      ensures !allNamespaces && bindingNamespace == "" && verb == "" && resource.IsEmpty()
    {
      allNamespaces := false;
      bindingNamespace := "";
      verb := "";
      resource := GroupVersionResource("", "", "");
    }

    /**
     * complete: exactly two arguments, verb and resource token, or a usage
     * error that leaves the options as they were.
     */
    method Complete(args: seq<string>, mapper: Mapper, parse: ArgParser) returns (err: Option<string>)
      modifies this`verb, this`resource
      ensures |args| != 2 ==> err == Some(UsageMessage) && verb == old(verb) && resource == old(resource)
      ensures |args| == 2 ==> err == None && verb == args[0] && resource == ResourceFor(mapper, parse, args[1])
    {
      if |args| != 2 {
        return Some(UsageMessage);
      }
      verb := args[0];
      resource := ResourceFor(mapper, parse, args[1]);
      return None;
    }

    /**
     * run: exactly one review request, cluster-wide when allNamespaces is set
     * and local to bindingNamespace otherwise, carrying the verb and the
     * resolved group and resource. A failed review is returned unchanged and
     * nothing is printed; otherwise the output is the report.
     */
    method Run(reviewer: Reviewer) returns (err: Option<string>, out: string)
      modifies reviewer
      ensures allNamespaces ==> reviewer.calls == old(reviewer.calls) + [ClusterReview(AttributesFor(verb, resource))]
      ensures !allNamespaces ==> reviewer.calls == old(reviewer.calls) + [LocalReview(bindingNamespace, AttributesFor(verb, resource))]
      ensures var response := reviewer.answer(reviewer.calls[|reviewer.calls| - 1]);
        && (response.Err? ==> err == Some(response.error) && out == "")
        && (response.Ok? ==> err == None && out == Report.Report(response.value, verb, resource))
    {
      var action := AttributesFor(verb, resource);
      var response: Result<ReviewResponse>;
      if allNamespaces {
        response := reviewer.ReviewClusterWide(action);
      } else {
        response := reviewer.ReviewLocal(bindingNamespace, action);
      }
      if response.Err? {
        return Some(response.error), "";
      }
      out := PrintReport(response.value);
      err := None;
    }

    /** The Printf calls of a successful run, piece by piece: their text is the report. */
    method PrintReport(r: ReviewResponse) returns (out: string)
      ensures out == Report.Report(r, verb, resource)
    {
      FixedPieces();

      out := "";
      if r.namespace == NamespaceAll {
        out := out + "Namespace: <all>\n";
      } else {
        out := out + ("Namespace: " + r.namespace + "\n");
      }
      assert out == "Namespace: " + NamespaceDisplay(r.namespace) + "\n";

      var resourceDisplay := resource.resource;
      if |resource.group| > 0 {
        resourceDisplay := resourceDisplay + "." + resource.group;
      }

      out := out + ("Verb:      " + verb + "\n");
      out := out + ("Resource:  " + resourceDisplay + "\n\n");
      ghost var header := out;
      if |r.users| == 0 {
        out := out + "Users:  none\n\n";
      } else {
        out := out + ("Users:  " + Join(SortedList(r.users), "\n" + Pad) + "\n\n");
      }
      assert out == header + ("Users:  " + MembersText(r.users) + "\n\n");
      ghost var upToUsers := out;

      if |r.groups| == 0 {
        out := out + "Groups: none\n\n";
      } else {
        out := out + ("Groups: " + Join(SortedList(r.groups), "\n" + Pad) + "\n\n");
      }
      assert out == upToUsers + ("Groups: " + MembersText(r.groups) + "\n\n");
      ReportSections(r, verb, resource);
    }
  }

  /** The fixed texts the run method prints are the report's pieces for the sentinel namespace and empty sets. */
  lemma FixedPieces()
    ensures "Namespace: <all>\n" == "Namespace: " + NamespaceDisplay(NamespaceAll) + "\n"
    ensures "Users:  none\n\n" == "Users:  " + MembersText({}) + "\n\n"
    ensures "Groups: none\n\n" == "Groups: " + MembersText({}) + "\n\n"
  {
  }

  /** Report, as the five consecutive pieces the run method writes. */
  lemma ReportSections(response: ReviewResponse, verb: string, resource: GroupVersionResource)
    ensures Report.Report(response, verb, resource)
         == ("Namespace: " + NamespaceDisplay(response.namespace) + "\n")
          + ("Verb:      " + verb + "\n")
          + ("Resource:  " + ResourceDisplay(resource) + "\n\n")
          + ("Users:  " + MembersText(response.users) + "\n\n")
          + ("Groups: " + MembersText(response.groups) + "\n\n")
  {
    RegroupPieces("Namespace: ", NamespaceDisplay(response.namespace), "\n",
                  "Verb:      ", verb, "\n",
                  "Resource:  ", ResourceDisplay(resource), "\n\n",
                  "Users:  ", MembersText(response.users), "\n\n",
                  "Groups: ", MembersText(response.groups), "\n\n");
  }

  /** A mapper that knows only the core "pods" resource, preferred version v1. */
  function PodsOnlyMapper(query: GroupVersionResource): Lookup
  {
    if query.group == "" && query.resource == "pods" then Lookup(GroupVersionResource("", "v1", "pods"), None)
    else Lookup(GroupVersionResource("", "", ""), Some("no match"))
  }

  /** A parser that reads every token as a bare resource of the core group. */
  function BareResourceParser(token: string): ParsedArg
  {
    ParsedArg(None, GroupResource("", token))
  }

  /** "pods" resolves, through the fallback to the group-resource lookup, to the core pods resource. */
  lemma PodsResolved()
    ensures ResourceFor(PodsOnlyMapper, BareResourceParser, "pods") == GroupVersionResource("", "v1", "pods")
  {
    ToLowerKeepsLowerCase("pods");
  }

  /** The lines printed for the local example. */
  lemma LocalNamespaceReport()
    ensures SplitLines(Report.Report(ReviewResponse("default", {"alice"}, {}), "get", GroupVersionResource("", "v1", "pods")))
         == ["Namespace: default", "Verb:      get", "Resource:  pods", "",
             "Users:  alice", "",
             "Groups: none", "", ""]
  {
    LocalNamespaceLines();
    ReportSplitsIntoLines(ReviewResponse("default", {"alice"}, {}), "get", GroupVersionResource("", "v1", "pods"));
  }

  lemma LocalNamespaceLines()
    ensures ReportLines(ReviewResponse("default", {"alice"}, {}), "get", GroupVersionResource("", "v1", "pods"))
         == ["Namespace: default", "Verb:      get", "Resource:  pods", "",
             "Users:  alice", "",
             "Groups: none", "", ""]
  {
    var users := SortedList({"alice"});
    assert users == ["alice"] by {
      assert |users| == 1 && "alice" in users;
    }
    assert MemberLines({"alice"}) == ["alice"] by {
      assert users[1..] == [];
    }
    assert Labelled("Users:  ", ["alice"]) == ["Users:  alice"] by {
      assert "Users:  " + "alice" == "Users:  alice";
      assert ["alice"][1..] == [];
    }
    assert Labelled("Groups: ", ["none"]) == ["Groups: none"] by {
      assert "Groups: " + "none" == "Groups: none";
      assert ["none"][1..] == [];
    }
    assert "Namespace: " + NamespaceDisplay("default") == "Namespace: default";
    assert "Verb:      " + "get" == "Verb:      get";
    assert "Resource:  " + ResourceDisplay(GroupVersionResource("", "v1", "pods")) == "Resource:  pods";
    assert ["Namespace: default", "Verb:      get", "Resource:  pods", ""] + ["Users:  alice"] + [""] + ["Groups: none"] + ["", ""]
        == ["Namespace: default", "Verb:      get", "Resource:  pods", "", "Users:  alice", "", "Groups: none", "", ""];
  }

  /** The lines printed for the all-namespaces example: the groups in ascending order, one per line. */
  lemma AllNamespacesReport()
    ensures SplitLines(Report.Report(ReviewResponse(NamespaceAll, {}, {"zeta", "alpha"}), "get", GroupVersionResource("", "v1", "pods")))
         == ["Namespace: <all>", "Verb:      get", "Resource:  pods", "",
             "Users:  none", "",
             "Groups: alpha", "        zeta", "", ""]
  {
    AllNamespacesLines();
    ReportSplitsIntoLines(ReviewResponse(NamespaceAll, {}, {"zeta", "alpha"}), "get", GroupVersionResource("", "v1", "pods"));
  }

  /** The group set {zeta, alpha} lists as alpha, then zeta on an indented line. */
  lemma AlphaZetaLines()
    ensures Labelled("Groups: ", MemberLines({"zeta", "alpha"})) == ["Groups: alpha", "        zeta"]
  {
    var groups := SortedList({"zeta", "alpha"});
    assert groups == ["alpha", "zeta"] by {
      assert |groups| == 2 && "alpha" in groups && "zeta" in groups;
      assert !LessEq("zeta", "alpha");
    }
    assert MemberLines({"zeta", "alpha"}) == ["alpha", "        zeta"] by {
      assert groups[1..] == ["zeta"];
      assert Pad + "zeta" == "        zeta";
    }
    assert Labelled("Groups: ", ["alpha", "        zeta"]) == ["Groups: alpha", "        zeta"] by {
      assert "Groups: " + "alpha" == "Groups: alpha";
      assert ["alpha", "        zeta"][1..] == ["        zeta"];
    }
  }

  lemma AllNamespacesLines()
    ensures ReportLines(ReviewResponse(NamespaceAll, {}, {"zeta", "alpha"}), "get", GroupVersionResource("", "v1", "pods"))
         == ["Namespace: <all>", "Verb:      get", "Resource:  pods", "",
             "Users:  none", "",
             "Groups: alpha", "        zeta", "", ""]
  {
    var users := Labelled("Users:  ", MemberLines({}));
    var groups := Labelled("Groups: ", MemberLines({"zeta", "alpha"}));
    assert users == ["Users:  none"] by {
      assert "Users:  " + "none" == "Users:  none";
      assert ["none"][1..] == [];
    }
    AlphaZetaLines();
    AllNamespacesHead();
    TenLines("Namespace: <all>", "Verb:      get", "Resource:  pods", "Users:  none", "Groups: alpha", "        zeta");
  }

  /** The three headed lines of the all-namespaces example. */
  lemma AllNamespacesHead()
    ensures "Namespace: " + NamespaceDisplay(NamespaceAll) == "Namespace: <all>"
    ensures "Verb:      " + "get" == "Verb:      get"
    ensures "Resource:  " + ResourceDisplay(GroupVersionResource("", "v1", "pods")) == "Resource:  pods"
  {
  }

  // Only re-brackets a list of lines, to keep the example proofs small.
  lemma TenLines(n: string, v: string, r: string, u: string, g1: string, g2: string)
    ensures [n, v, r, ""] + [u] + [""] + [g1, g2] + ["", ""] == [n, v, r, "", u, "", g1, g2, "", ""]
  {
  }

  /**
   * who-can get pods, in namespace "default", where only alice may act:
   * one local review, and the report names alice and no group.
   */
  method LocalNamespaceExample() returns (err: Option<string>, calls: seq<ReviewCall>, out: string)
    ensures calls == [LocalReview("default", AuthorizationAttributes("get", "", "pods"))]
    ensures err == None
    ensures SplitLines(out) == ["Namespace: default", "Verb:      get", "Resource:  pods", "",
                                "Users:  alice", "",
                                "Groups: none", "", ""]
  {
    var options := new WhoCanOptions();
    var completeErr := options.Complete(["get", "pods"], PodsOnlyMapper, BareResourceParser);
    PodsResolved();
    options.bindingNamespace := "default";
    var reviewer := new Reviewer((c: ReviewCall) => Ok(ReviewResponse("default", {"alice"}, {})));
    ghost var report := Report.Report(ReviewResponse("default", {"alice"}, {}), "get", GroupVersionResource("", "v1", "pods"));
    LocalNamespaceReport();
    err, out := options.Run(reviewer);
    calls := reviewer.calls;
    assert out == report;
  }

  /**
   * who-can --all-namespaces get pods, where only the groups zeta and alpha
   * may act: one cluster-wide review, no user, and the groups in ascending
   * order, one per line.
   */
  method AllNamespacesExample() returns (err: Option<string>, calls: seq<ReviewCall>, out: string)
    ensures calls == [ClusterReview(AuthorizationAttributes("get", "", "pods"))]
    ensures err == None
    ensures SplitLines(out) == ["Namespace: <all>", "Verb:      get", "Resource:  pods", "",
                                "Users:  none", "",
                                "Groups: alpha", "        zeta", "", ""]
  {
    var options := new WhoCanOptions();
    var completeErr := options.Complete(["get", "pods"], PodsOnlyMapper, BareResourceParser);
    PodsResolved();
    options.allNamespaces := true;
    var reviewer := new Reviewer((c: ReviewCall) => Ok(ReviewResponse(NamespaceAll, {}, {"zeta", "alpha"})));
    ghost var report := Report.Report(ReviewResponse(NamespaceAll, {}, {"zeta", "alpha"}), "get", GroupVersionResource("", "v1", "pods"));
    AllNamespacesReport();
    err, out := options.Run(reviewer);
    calls := reviewer.calls;
    assert out == report;
  }

  /** A review that fails: its error comes back as it is, and nothing is printed. */
  method FailedReviewExample() returns (err: Option<string>, calls: seq<ReviewCall>, out: string)
    ensures calls == [LocalReview("", AuthorizationAttributes("get", "", "pods"))]
    ensures err == Some("forbidden")
    ensures out == ""
  {
    var options := new WhoCanOptions();
    var completeErr := options.Complete(["get", "pods"], PodsOnlyMapper, BareResourceParser);
    PodsResolved();
    var reviewer := new Reviewer((c: ReviewCall) => Err("forbidden"));
    err, out := options.Run(reviewer);
    calls := reviewer.calls;
  }
}
