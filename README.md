# who-can: resource resolution, review dispatch and report

A Dafny model of the `who-can VERB RESOURCE` command of the OpenShift
administrator CLI (`pkg/cmd/admin/policy/who_can.go`). The command does
three things:

- It turns the resource token the user typed into a group/version/resource
  coordinate. It asks the mapper at most twice, in a fixed order, and
  otherwise falls back to the token itself, so it never fails.
- It sends one resource access review. The review is cluster-wide with
  `--all-namespaces` and local to the current namespace otherwise.
- It prints who may perform the verb: the namespace, the verb, the
  resource, then the users and the groups in ascending order, or `none`.

Modules, one file each:

- `Wrappers` (`wrappers.dfy`): `Option` and `Result`. They stand in for
  Go's nil pointers and error returns.
- `Strings` (`strings.dfy`): Go's string order, the sorted listing of a
  string set (`sets.String.List`), `strings.Join`, and splitting text at
  newlines.
- `Resource` (`resource.dfy`): the coordinates and `resourceFor`. The
  REST mapper is a function parameter, and so is the resource-argument
  parser.
- `Authorization` (`authorization.dfy`): the query, the review response,
  and a `Reviewer` class. `Reviewer` stands in for the API client's two
  review endpoints. Its answers are fixed when it is created, and it logs
  every request it receives.
- `Report` (`report.dfy`): the printed text as a pure function
  (`Report`), the same output as a list of lines (`ReportLines`), and
  the lemmas that connect them.
- `WhoCan` (`who_can.dfy`): the `whoCanOptions` record as the class
  `WhoCanOptions`, with `Complete` and `Run` as methods that change
  state. Also the end-to-end examples.

Behaviour worth noting:

- The report pads its labels: `Verb:      get`, `Resource:  pods`.
- The first mapper lookup's error is ignored. Its coordinate is used
  whenever it is non-blank, even when the mapper also returned an error.
- A blank group-resource answer without an error is returned as it is
  (`Resource.GroupResourceFallback`). The result is a usable coordinate
  only for mappers that never answer blank without an error.
- `{}` and `{"none"}` both print `none` (`Report.MembersText`).

## Model

| member | source | states |
|---|---|---|
| `Resource.ResourceFor` | vendor/github.com/openshift/origin/pkg/cmd/admin/policy/who_can.go:75-90 | Resolution never fails. The result is the mapper's answer for the fully specified form, the mapper's answer for the group-resource with version "", or the token as typed with blank group and version. |
| `Resource.ExactLookupWins` | vendor/github.com/openshift/origin/pkg/cmd/admin/policy/who_can.go:76-81 | When the lower-cased token parses as fully specified and the mapper's answer for it is non-blank, that answer is the result, so an explicitly requested version is kept whenever the mapper honours it. The group-resource lookup is not consulted. |
| `Resource.GroupResourceFallback` | vendor/github.com/openshift/origin/pkg/cmd/admin/policy/who_can.go:81-89 | Suppose there is no fully specified form, or its answer is blank whatever its error. Then a group-resource lookup with version "" that returns no error decides the result, even when its answer is blank. |
| `Resource.DegenerateFallback` | vendor/github.com/openshift/origin/pkg/cmd/admin/policy/who_can.go:84-86 | When the group-resource lookup fails too, the result is `{Resource: token}`. It uses the token exactly as typed, not the lower-cased form the parser saw. |
| `Resource.ResourceForIsFirstMatch` | vendor/github.com/openshift/origin/pkg/cmd/admin/policy/who_can.go:75-90 | `resourceFor` equals the first answer of an independent ordered chain: exact match, then preferred-version match, then the token itself. The chain always answers. |
| `Resource.ToLowerKeepsLowerCase` | vendor/github.com/openshift/origin/pkg/cmd/admin/policy/who_can.go:76 | Lower-casing leaves a token with no upper-case letters unchanged. |
| `Strings.SortedList` | vendor/github.com/openshift/origin/pkg/cmd/admin/policy/who_can.go:127 | The set's members, each exactly once, in strictly ascending Go string order. It holds as many entries as the set. |
| `Strings.LeastExists` | vendor/github.com/openshift/origin/pkg/cmd/admin/policy/who_can.go:133 | Every non-empty set of names has a least member in Go's order, so the listing is defined for every set. |
| `Strings.LessEqTotal` | vendor/github.com/openshift/origin/pkg/cmd/admin/policy/who_can.go:127 | Go's string order is total: any two names can be compared. |
| `Strings.LessEqAntisymmetric` | vendor/github.com/openshift/origin/pkg/cmd/admin/policy/who_can.go:127 | Two names that are each at most the other are equal, so the sorted order is unique. |
| `Strings.LessEqTransitive` | vendor/github.com/openshift/origin/pkg/cmd/admin/policy/who_can.go:133 | Go's string order is transitive. |
| `Strings.SplitJoinedLines` | vendor/github.com/openshift/origin/pkg/cmd/admin/policy/who_can.go:127-133 | Joining newline-free lines with "\n" and splitting the text at newlines gives the lines back. |
| `Strings.JoinIndented` | vendor/github.com/openshift/origin/pkg/cmd/admin/policy/who_can.go:127 | Joining with "\n" plus eight spaces shows one member per line. Every line after the first is indented by the eight spaces. |
| `Report.NamespaceDisplay` | vendor/github.com/openshift/origin/pkg/cmd/admin/policy/who_can.go:111-115 | The namespace shown is never blank. It is `<all>` exactly when the namespace is the all-namespaces sentinel or literally `<all>`. Any other namespace is shown as it is. |
| `Report.ResourceDisplay` | vendor/github.com/openshift/origin/pkg/cmd/admin/policy/who_can.go:117-120 | A core-group resource shows as its name alone, and any other as `resource.group`. For a resource name without dots, splitting the shown text at its first dot gives back the resource and the group. |
| `Report.MembersText` | vendor/github.com/openshift/origin/pkg/cmd/admin/policy/who_can.go:124-134 | The member text is `none` exactly when the set is empty or is the single name `none`. |
| `Report.JoinedMembersAreNone` | vendor/github.com/openshift/origin/pkg/cmd/admin/policy/who_can.go:127 | A non-empty set's joined listing reads `none` only for the set `{"none"}`. Two or more members always print on several lines. |
| `Report.MembersTextIsJoinedLines` | vendor/github.com/openshift/origin/pkg/cmd/admin/policy/who_can.go:124-134 | The member text is its lines joined with newlines: `none`, or the sorted members one per line with continuation lines indented. |
| `Report.Report` | vendor/github.com/openshift/origin/pkg/cmd/admin/policy/who_can.go:111-134 | The report always ends with a blank line. What it holds line by line is stated by `Report.ReportIsJoinedLines` and `Report.ReportSplitsIntoLines`, and `WhoCan.WhoCanOptions.Run` ensures that a successful run prints exactly this text. |
| `Report.ReportIsJoinedLines` | vendor/github.com/openshift/origin/pkg/cmd/admin/policy/who_can.go:111-134 | The printed text is ReportLines joined with newlines. ReportLines is the Namespace, Verb and Resource lines, a blank line, the Users lines, a blank line, the Groups lines, a blank line, then the empty text after the final newline. |
| `Report.ReportSplitsIntoLines` | vendor/github.com/openshift/origin/pkg/cmd/admin/policy/who_can.go:111-134 | When no printed value contains a newline, splitting the report at newlines gives exactly ReportLines. |
| `Authorization.Reviewer.ReviewClusterWide` | vendor/github.com/openshift/origin/pkg/cmd/admin/policy/who_can.go:102 | A cluster-wide review adds exactly one cluster-wide request to the log and returns the server's answer to it. |
| `Authorization.Reviewer.ReviewLocal` | vendor/github.com/openshift/origin/pkg/cmd/admin/policy/who_can.go:104 | A local review adds exactly one request for the given namespace to the log and returns the server's answer to it. |
| `WhoCan.WhoCanOptions.constructor` | vendor/github.com/openshift/origin/pkg/cmd/admin/policy/who_can.go:23-30 | The options start at Go's zero value: not all namespaces, blank namespace, blank verb, blank resource. |
| `WhoCan.WhoCanOptions.Complete` | vendor/github.com/openshift/origin/pkg/cmd/admin/policy/who_can.go:62-73 | With other than two arguments: the usage error, and verb and resource unchanged. With exactly two: no error, the verb is the first argument, and the resource is `resourceFor` of the second. |
| `WhoCan.AttributesFor` | vendor/github.com/openshift/origin/pkg/cmd/admin/policy/who_can.go:93-97 | The query carries the verb unchanged and exactly the group and resource of the resolved coordinate; only the version is dropped. These are also the ones the report's Resource line shows: the bare resource for the core group, and for a resource name without dots, splitting the shown text at its first dot gives the query's resource and group. `WhoCan.WhoCanOptions.Run` ensures that this query is the one sent. |
| `WhoCan.WhoCanOptions.Run` | vendor/github.com/openshift/origin/pkg/cmd/admin/policy/who_can.go:92-137 | Exactly one review request is made. It is cluster-wide when allNamespaces is set, otherwise local to bindingNamespace, and it carries the verb plus the group and resource of the one resolved coordinate. A review error is returned unchanged with nothing printed. Otherwise the output is the report. |
| `WhoCan.WhoCanOptions.PrintReport` | vendor/github.com/openshift/origin/pkg/cmd/admin/policy/who_can.go:111-134 | The text the Printf calls write piece by piece, with the namespace, resource and member branches taken as the code takes them, is exactly the report. |
| `WhoCan.PodsResolved` | vendor/github.com/openshift/origin/pkg/cmd/admin/policy/who_can.go:75-90 | The token `pods` has no fully specified form. With a mapper that knows only core pods, it resolves through the group-resource lookup to `{"", "v1", "pods"}`. |
| `WhoCan.LocalNamespaceReport` | vendor/github.com/openshift/origin/pkg/cmd/admin/policy/who_can.go:111-134 | The report for namespace `default`, verb `get`, resource `pods`, users `{alice}` and no groups is, line by line, `Namespace: default`, `Verb:      get`, `Resource:  pods`, a blank line, `Users:  alice`, a blank line, `Groups: none`. |
| `WhoCan.AllNamespacesReport` | vendor/github.com/openshift/origin/pkg/cmd/admin/policy/who_can.go:111-134 | With the all-namespaces sentinel, no users and groups `{zeta, alpha}`, the report shows `Namespace: <all>` and `Users:  none`. The groups appear as `alpha`, then `zeta` on an indented line. |
| `WhoCan.LocalNamespaceExample` | vendor/github.com/openshift/origin/pkg/cmd/admin/policy/who_can.go:62-137 | End to end, `who-can get pods` in namespace `default` makes exactly one local review for `default` and prints the local report above. |
| `WhoCan.AllNamespacesExample` | vendor/github.com/openshift/origin/pkg/cmd/admin/policy/who_can.go:62-137 | End to end, `who-can --all-namespaces get pods` makes exactly one cluster-wide review and prints the all-namespaces report above. |
| `WhoCan.FailedReviewExample` | vendor/github.com/openshift/origin/pkg/cmd/admin/policy/who_can.go:101-109 | When the review fails, its error comes back as it is and nothing is printed. |

## Left out

- `NewCmdWhoCan` is not modelled: the cobra command definition and the `--all-namespaces` flag registration are CLI wiring. Callers of the model set `allNamespaces` directly.
- The factory calls `f.Clients()`, `f.DefaultNamespace()` and `f.Object()` read configuration and open connections. Instead, the model takes the REST mapper as a parameter of `Complete` and the reviewer as a parameter of `Run`, and the caller assigns `bindingNamespace`. The `client` field of `whoCanOptions` is replaced by the `Reviewer` parameter.
- `kcmdutil.CheckErr` and `kcmdutil.UsageError` exit the process; the model returns the error instead.
- The network transport behind `ResourceAccessReviews().Create` and `LocalResourceAccessReviews(ns).Create` is not modelled. The `Reviewer` gives a fixed answer for each request, and a response that is nil with no error is not modelled.
- `unversioned.ParseResourceArg` and `RESTMapper.ResourceFor` are library code that is not part of this model. They are function parameters, so nothing is proved about how a token with no dot parses. The proved properties hold for every parser and every mapper.
- `Resource.ToLower`: does not model Unicode case mapping. It lower-cases ASCII letters only, whereas Go's `strings.ToLower` also maps non-ASCII letters.
- `fmt.Printf` writes to standard output; the model returns the text as a string instead.
