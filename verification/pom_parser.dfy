/** Parent resolution and record assembly: parsePOMFromString, buildJSONStructure and
    fetchParent. The XML decoder and the transport are parameters. */
module PomParser {
  import opened Wrappers
  import opened XmlTree
  import opened CoordinateResolver
  import opened SectionReaders
  import opened FetchStrategy
  import opened DefaultFetch
  import opened ParserConfiguration

  /** The decoder's result: a document with its root element's name and value, or a
      failure (no result object). */
  datatype Decoded = Malformed | Document(rootName: string, root: Xml)

  /** Why a parse rejects. `OutOfFuel` belongs to the model only: it marks a parent chain
      longer than the depth the caller allowed, and is never swallowed. */
  datatype ParseError = MalformedRoot | StrategyThrew | OutOfFuel

  /** The normalised record of one descriptor; `parentPom` is the parent's own record. */
  datatype Descriptor = Descriptor(
    coordinates: Coordinates,
    parent: Option<Coordinates>,
    dependencies: seq<Dependency>,
    repositories: seq<Repository>,
    parentPom: Option<Descriptor>)

  /** The collaborators outside the core: the XML decoder and the HTTP transport. */
  datatype Environment = Environment(decode: string -> Decoded, get: string -> Response)

  /** `result.project` of the decoded body; absent when there is no body to decode, the
      decoder fails, or the root element is not `project`. */
  function ProjectOf(body: Option<string>, decode: string -> Decoded): (project: Option<Xml>)
    ensures project.Some? <==> body.Some? && decode(body.value).Document? && decode(body.value).rootName == "project"
    ensures project.Some? ==> project.value == decode(body.value).root
  {
    if body.None? then None
    else
      match decode(body.value)
      case Malformed => None
      case Document(name, root) => if name == "project" then Some(root) else None
  }

  /** The guard of fetchParent: a non-empty `parent` and a non-empty `repositories` block. */
  predicate FetchesParent(project: Xml) {
    Truthy(FirstOf(project, "parent")) && Truthy(FirstOf(project, "repositories"))
  }

  /** What fetchParent hands to the strategy: the coordinates the `<parent>` element
      resolves to, and the raw `repository` list, which may be absent even though the
      guard passed. */
  function ParentInformationOf(project: Xml): (info: ParentInformation)
    requires FetchesParent(project)
    ensures info.artifactCoordinates == Resolve(FirstOf(project, "parent").value)
    ensures info.repositories.None? <==> Lookup(FirstOf(project, "repositories").value, "repository").None?
    ensures info.repositories.Some? ==>
      info.repositories.value == Lookup(FirstOf(project, "repositories").value, "repository").value.Values()
  {
    ParentInformation(Resolve(FirstOf(project, "parent").value), NestedValues(project, "repositories", "repository"))
  }

  /** The `parent` entry of the record: present exactly for a non-empty `<parent>` element. */
  function ParentCoordinates(project: Xml): (c: Option<Coordinates>)
    ensures c.Some? <==> Truthy(FirstOf(project, "parent"))
    ensures c.Some? ==> c.value == Resolve(FirstOf(project, "parent").value)
  {
    var parent := FirstOf(project, "parent");
    if Truthy(parent) then Some(Resolve(parent.value)) else None
  }

  /** Along the chain of parent records, a record carries a parent record only when it
      declares a parent. */
  predicate ChainStops(d: Descriptor)
    decreases d
  {
    d.parentPom.Some? ==> d.parent.Some? && ChainStops(d.parentPom.value)
  }

  /** The number of parent records below `d`. */
  function ChainLength(d: Descriptor): nat
    decreases d
  {
    if d.parentPom.Some? then 1 + ChainLength(d.parentPom.value) else 0
  }

  /** The coordinates of a record and of each parent record above it, nearest first. */
  function Lineage(d: Descriptor): (coordinates: seq<Coordinates>)
    decreases d
    ensures |coordinates| == ChainLength(d) + 1 && coordinates[0] == d.coordinates
  {
    if d.parentPom.Some? then [d.coordinates] + Lineage(d.parentPom.value) else [d.coordinates]
  }

  /** parsePOMFromString. It rejects as malformed exactly when the body does not decode to
      a project (`ThrowRejectsParse` gives the other rejection); the parent chain it builds
      is at most `fuel` records long and stops where a descriptor declares no parent. */
  function Parse(body: Option<string>, user: Option<UserConfiguration>, env: Environment, fuel: nat): (r: Result<Descriptor, ParseError>)
    decreases fuel, 2
    ensures r == Err(MalformedRoot) <==> ProjectOf(body, env.decode).None?
    ensures r.Ok? ==> ChainStops(r.value) && ChainLength(r.value) <= fuel
  {
    var project := ProjectOf(body, env.decode);
    if project.None? then Err(MalformedRoot)
    else BuildRecord(project.value, CreateConfiguration(user, env.get), env, fuel)
  }

  /** The other way a parse rejects: the strategy throws when asked for this project's
      parent. A throw further up the chain does not reject this parse. */
  lemma ThrowRejectsParse(body: Option<string>, user: Option<UserConfiguration>, env: Environment, fuel: nat)
    ensures Parse(body, user, env, fuel) == Err(StrategyThrew) <==>
      && ProjectOf(body, env.decode).Some?
      && FetchesParent(ProjectOf(body, env.decode).value)
      && CreateConfiguration(user, env.get).findParent(ParentInformationOf(ProjectOf(body, env.decode).value)).Threw?
  {
  }

  /** buildJSONStructure: the project's resolved coordinates, its parent reference, its
      dependencies and repositories, and the parent's record; it fails only when the
      parent fetch does. */
  function BuildRecord(project: Xml, config: Configuration, env: Environment, fuel: nat): (r: Result<Descriptor, ParseError>)
    decreases fuel, 1
    ensures r.Err? <==> FetchParent(project, config, env, fuel).Err?
    ensures r.Err? ==> r.error != MalformedRoot
    ensures r.Ok? ==>
      && r.value.coordinates == Resolve(project)
      && r.value.parent == ParentCoordinates(project)
      && r.value.dependencies == ReadDependencies(project)
      && r.value.repositories == ReadRepositories(project)
      && r.value.parentPom == FetchParent(project, config, env, fuel).value
    ensures !FetchesParent(project) ==> r.Ok? && r.value.parentPom.None?
    ensures r.Ok? ==> ChainStops(r.value) && ChainLength(r.value) <= fuel
  {
    var parentPom :- FetchParent(project, config, env, fuel);
    Ok(Descriptor(
      Resolve(project),
      ParentCoordinates(project),
      ReadDependencies(project),
      ReadRepositories(project),
      parentPom))
  }

  /** fetchParent. Without a parent or repositories it yields nothing and consults no
      strategy. Otherwise it calls the strategy once, with the parent's information: a
      throw propagates, a rejection yields nothing, and a body is parsed again with the
      same configuration, where any failure of that parse also yields nothing. */
  function FetchParent(project: Xml, config: Configuration, env: Environment, fuel: nat): (r: Result<Option<Descriptor>, ParseError>)
    decreases fuel, 0
    ensures !FetchesParent(project) ==> r == Ok(None)
    ensures r.Err? ==> r.error != MalformedRoot
    ensures r == Err(StrategyThrew) <==> FetchesParent(project) && config.findParent(ParentInformationOf(project)).Threw?
    ensures FetchesParent(project) && config.findParent(ParentInformationOf(project)).Rejected? ==> r == Ok(None)
    ensures FetchesParent(project) && config.findParent(ParentInformationOf(project)).Resolved? ==>
      ProjectOf(config.findParent(ParentInformationOf(project)).body, env.decode).None? ==> r == Ok(None)
    ensures r.Ok? && r.value.Some? ==> ChainStops(r.value.value) && ChainLength(r.value.value) < fuel
  {
    if !FetchesParent(project) then Ok(None)
    else
      match config.findParent(ParentInformationOf(project))
      case Threw => Err(StrategyThrew)
      case Rejected => Ok(None)
      case Resolved(body) =>
        if ProjectOf(body, env.decode).None? then Ok(None)
        else if fuel == 0 then Err(OutOfFuel)
        else
          match Parse(body, Supplying(config.findParent), env, fuel - 1)
          case Ok(parent) => Ok(Some(parent))
          case Err(OutOfFuel) => Err(OutOfFuel)
          case Err(_) => Ok(None)
  }

  /** With no depth left, a parent body that decodes is not parsed: the fetch reports that
      the depth bound was too small instead of yielding no parent record. */
  lemma OutOfDepth(project: Xml, config: Configuration, env: Environment)
    requires FetchesParent(project) && config.findParent(ParentInformationOf(project)).Resolved?
    requires ProjectOf(config.findParent(ParentInformationOf(project)).body, env.decode).Some?
    ensures FetchParent(project, config, env, 0) == Err(OutOfFuel)
  {
  }

  /** A body that decodes to a project is parsed again with the same configuration, one
      level of depth lower: the parent record is the result of that parse, and any failure of that parse, even a
      throw of the strategy further up the chain, yields no parent record instead of a
      rejection. */
  lemma ParsesParentBody(project: Xml, config: Configuration, env: Environment, fuel: nat, body: Option<string>)
    requires FetchesParent(project) && config.findParent(ParentInformationOf(project)) == Resolved(body)
    requires ProjectOf(body, env.decode).Some?
    ensures
      var nested := Parse(body, Supplying(config.findParent), env, fuel);
      var r := FetchParent(project, config, env, fuel + 1);
      && (nested.Ok? ==> r == Ok(Some(nested.value)))
      && (nested.Err? && nested.error != OutOfFuel ==> r == Ok(None))
      && (nested == Err(OutOfFuel) ==> r == Err(OutOfFuel))
  {
    var nested := Parse(body, Supplying(config.findParent), env, fuel);
    if nested.Ok? {
      assert FetchParent(project, config, env, fuel + 1) == Ok(Some(nested.value));
    } else if nested.error != OutOfFuel {
      assert FetchParent(project, config, env, fuel + 1) == Ok(None);
    }
  }

}
