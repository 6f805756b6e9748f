/**
 * Resolution of the resource token typed on the who-can command line into a
 * group/version/resource coordinate (resourceFor in who_can.go). The REST
 * mapper and the resource-argument parser are library code; both are taken as
 * function parameters, so every property below holds for every mapper.
 */
module Resource {
  import opened Wrappers

  /** unversioned.GroupVersionResource. */
  datatype GroupVersionResource = GroupVersionResource(group: string, version: string, resource: string)
  {
    /** All three coordinates blank: the mapper gave no usable answer. */
    predicate IsEmpty()
    {
      |group| == 0 && |version| == 0 && |resource| == 0
    }
  }

  /** unversioned.GroupResource: a coordinate without its version. */
  datatype GroupResource = GroupResource(group: string, resource: string)
  {
    function WithVersion(version: string): GroupVersionResource
    {
      GroupVersionResource(group, version, resource)
    }
  }

  /**
   * What RESTMapper.ResourceFor returns: a coordinate and, as in Go, an error
   * beside it. Nothing forces the coordinate to be blank when the error is set.
   */
  datatype Lookup = Lookup(gvr: GroupVersionResource, err: Option<string>)

  /** RESTMapper.ResourceFor, for one fixed mapper. */
  type Mapper = GroupVersionResource -> Lookup

  /**
   * What unversioned.ParseResourceArg returns: the fully specified coordinate
   * when the token has the shape resource.version.group (nil otherwise), and
   * the token read as resource.group.
   */
  datatype ParsedArg = ParsedArg(fullySpecified: Option<GroupVersionResource>, groupResource: GroupResource)

  type ArgParser = string -> ParsedArg

  function LowerChar(c: char): char
  {
    if 'A' <= c <= 'Z' then (c as int - 'A' as int + 'a' as int) as char else c
  }

  /** strings.ToLower, on ASCII letters. */
  function ToLower(s: string): string
  {
    if |s| == 0 then "" else [LowerChar(s[0])] + ToLower(s[1..])
  }

  /** A token without upper-case ASCII letters is its own lower-case form. */
  lemma {:induction false} ToLowerKeepsLowerCase(s: string)
    requires forall i :: 0 <= i < |s| ==> !('A' <= s[i] <= 'Z')
    ensures ToLower(s) == s
  {
    if |s| > 0 {
      ToLowerKeepsLowerCase(s[1..]);
      assert s == [s[0]] + s[1..];
    }
  }

  /** The last resort: the token exactly as typed, as a bare resource. */
  function Degenerate(resourceArg: string): GroupVersionResource
  {
    GroupVersionResource("", "", resourceArg)
  }

  /**
   * resourceFor: the mapper's answer for the fully specified coordinate when
   * the token has one and that answer is not blank (its error is ignored);
   * otherwise the mapper's answer for the group-resource with version "";
   * when that lookup fails, the token as typed (not lower-cased) as the
   * resource. It never fails, and the result is always one of these three.
   */
  function ResourceFor(mapper: Mapper, parse: ArgParser, resourceArg: string): (r: GroupVersionResource)
    ensures var parsed := parse(ToLower(resourceArg));
      || r == Degenerate(resourceArg)
      || r == mapper(parsed.groupResource.WithVersion("")).gvr
      || (parsed.fullySpecified.Some? && r == mapper(parsed.fullySpecified.value).gvr)
  {
    var parsed := parse(ToLower(resourceArg));
    var gvr := if parsed.fullySpecified.Some? then mapper(parsed.fullySpecified.value).gvr
               else GroupVersionResource("", "", "");
    if !gvr.IsEmpty() then gvr
    else
      var fallback := mapper(parsed.groupResource.WithVersion(""));
      if fallback.err.Some? then Degenerate(resourceArg) else fallback.gvr
  }

  /**
   * A fully specified token the mapper recognises wins; the group-resource
   * lookup is not consulted. So when the mapper honours an explicitly
   * requested version, that version is the one resolved.
   */
  lemma ExactLookupWins(mapper: Mapper, parse: ArgParser, resourceArg: string)
    requires parse(ToLower(resourceArg)).fullySpecified.Some?
    requires !mapper(parse(ToLower(resourceArg)).fullySpecified.value).gvr.IsEmpty()
    ensures ResourceFor(mapper, parse, resourceArg) == mapper(parse(ToLower(resourceArg)).fullySpecified.value).gvr
  {
  }

  /**
   * Without a fully specified answer (no such form, or a blank answer whatever
   * its error), a successful group-resource lookup with version "" decides,
   * even if what it returns is blank.
   */
  lemma GroupResourceFallback(mapper: Mapper, parse: ArgParser, resourceArg: string)
    requires var parsed := parse(ToLower(resourceArg));
      parsed.fullySpecified.None? || mapper(parsed.fullySpecified.value).gvr.IsEmpty()
    requires mapper(parse(ToLower(resourceArg)).groupResource.WithVersion("")).err.None?
    ensures ResourceFor(mapper, parse, resourceArg) == mapper(parse(ToLower(resourceArg)).groupResource.WithVersion("")).gvr
  {
  }

  /**
   * When the group-resource lookup fails too, the result is the token as
   * typed, with blank group and version; the lower-cased form the parser saw
   * is not used.
   */
  lemma DegenerateFallback(mapper: Mapper, parse: ArgParser, resourceArg: string)
    requires var parsed := parse(ToLower(resourceArg));
      parsed.fullySpecified.None? || mapper(parsed.fullySpecified.value).gvr.IsEmpty()
    requires mapper(parse(ToLower(resourceArg)).groupResource.WithVersion("")).err.Some?
    ensures ResourceFor(mapper, parse, resourceArg) == GroupVersionResource("", "", resourceArg)
  {
  }

  /** One strategy of the fallback chain: Some answer, or None for "try the next". */
  function ExactMatch(mapper: Mapper, parsed: ParsedArg): Option<GroupVersionResource>
  {
    if parsed.fullySpecified.None? then None
    else
      var answer := mapper(parsed.fullySpecified.value).gvr;
      if answer.IsEmpty() then None else Some(answer)
  }

  function PreferredMatch(mapper: Mapper, parsed: ParsedArg): Option<GroupVersionResource>
  {
    var answer := mapper(parsed.groupResource.WithVersion(""));
    if answer.err.Some? then None else Some(answer.gvr)
  }

  /** The three strategies, in the order they are tried; the last always answers. */
  function Strategies(mapper: Mapper, parsed: ParsedArg, resourceArg: string): seq<Option<GroupVersionResource>>
  {
    [ExactMatch(mapper, parsed), PreferredMatch(mapper, parsed), Some(Degenerate(resourceArg))]
  }

  /** The first strategy that answers. */
  function FirstMatch(candidates: seq<Option<GroupVersionResource>>): Option<GroupVersionResource>
  {
    if |candidates| == 0 then None
    else if candidates[0].Some? then candidates[0]
    else FirstMatch(candidates[1..])
  }

  /** resourceFor is the first answer of the ordered strategy chain, and that chain always answers. */
  lemma ResourceForIsFirstMatch(mapper: Mapper, parse: ArgParser, resourceArg: string)
    ensures FirstMatch(Strategies(mapper, parse(ToLower(resourceArg)), resourceArg)) == Some(ResourceFor(mapper, parse, resourceArg))
  {
    var parsed := parse(ToLower(resourceArg));
    var chain := Strategies(mapper, parsed, resourceArg);
    var last := chain[1..][1..];
    assert last == [Some(Degenerate(resourceArg))];
    assert FirstMatch(last) == Some(Degenerate(resourceArg));
    if chain[0].None? {
      assert FirstMatch(chain) == FirstMatch(chain[1..]);
      if chain[1].None? {
        assert FirstMatch(chain[1..]) == FirstMatch(last);
      }
    }
  }
}
