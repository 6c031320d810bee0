/** The section readers: the `dependencies` and `repositories` blocks of a project. */
module SectionReaders {
  import opened Wrappers
  import opened XmlTree
  import opened CoordinateResolver

  /** One declared dependency: its resolved coordinates and its scope. */
  datatype Dependency = Dependency(coordinates: Coordinates, scope: Option<Xml>)

  /** A `releases` or `snapshots` policy, each part the literal declared value. */
  datatype RepositoryPolicy = RepositoryPolicy(enabled: Option<Xml>, updatePolicy: Option<Xml>, checksumPolicy: Option<Xml>)

  /** One declared repository. */
  datatype Repository = Repository(
    id: Option<Xml>, url: Option<Xml>, name: Option<Xml>, layout: Option<Xml>,
    releases: Option<RepositoryPolicy>, snapshots: Option<RepositoryPolicy>)

  /** getRepositoryPolicy: each part is read on its own, and no default value is supplied. */
  function ReadPolicy(release: Xml): (p: RepositoryPolicy)
    ensures p.enabled.None? <==> Lookup(release, "enabled").None?
    ensures p.updatePolicy.None? <==> Lookup(release, "updatePolicy").None?
    ensures p.checksumPolicy.None? <==> Lookup(release, "checksumPolicy").None?
    ensures p.enabled.Some? ==> p.enabled.value == Lookup(release, "enabled").value.first
    ensures p.updatePolicy.Some? ==> p.updatePolicy.value == Lookup(release, "updatePolicy").value.first
    ensures p.checksumPolicy.Some? ==> p.checksumPolicy.value == Lookup(release, "checksumPolicy").value.first
  {
    RepositoryPolicy(FirstOf(release, "enabled"), FirstOf(release, "updatePolicy"), FirstOf(release, "checksumPolicy"))
  }

  /** The policy element `name` of a repository, read only when it is truthy: an empty
      `<releases/>` decodes to the empty text and yields no policy at all. */
  function ReadOptionalPolicy(repository: Xml, name: string): (p: Option<RepositoryPolicy>)
    ensures p.Some? <==> Truthy(FirstOf(repository, name))
    ensures p.Some? ==> p.value == ReadPolicy(FirstOf(repository, name).value)
  {
    var element := FirstOf(repository, name);
    if Truthy(element) then Some(ReadPolicy(element.value)) else None
  }

  /** The mapping applied to one `repository` value. */
  function ReadRepository(repository: Xml): (r: Repository)
    ensures r.id == FirstOf(repository, "id") && r.url == FirstOf(repository, "url")
    ensures r.name == FirstOf(repository, "name") && r.layout == FirstOf(repository, "layout")
    ensures r.releases == ReadOptionalPolicy(repository, "releases")
    ensures r.snapshots == ReadOptionalPolicy(repository, "snapshots")
  {
    Repository(
      FirstOf(repository, "id"), FirstOf(repository, "url"), FirstOf(repository, "name"), FirstOf(repository, "layout"),
      ReadOptionalPolicy(repository, "releases"), ReadOptionalPolicy(repository, "snapshots"))
  }

  /** `.map(...)` over the declared repositories. */
  function ReadRepositoryList(values: seq<Xml>): (rs: seq<Repository>)
    ensures |rs| == |values|
    ensures forall i :: 0 <= i < |values| ==> rs[i] == ReadRepository(values[i])
  {
    if |values| == 0 then [] else [ReadRepository(values[0])] + ReadRepositoryList(values[1..])
  }

  /** readRepositoriesFromProject: empty when the block or its entries are missing, else one
      record per declared repository, in declaration order. */
  function ReadRepositories(project: Xml): (rs: seq<Repository>)
    ensures rs == [] <==> NestedValues(project, "repositories", "repository").None?
    ensures NestedValues(project, "repositories", "repository").Some? ==>
      var values := NestedValues(project, "repositories", "repository").value;
      |rs| == |values| && forall i :: 0 <= i < |values| ==> rs[i] == ReadRepository(values[i])
  {
    var values := NestedValues(project, "repositories", "repository");
    if values.None? then [] else ReadRepositoryList(values.value)
  }

  /** The mapping applied to one `dependency` value: the resolver's coordinates plus the scope. */
  function ReadDependency(dependency: Xml): (d: Dependency)
    ensures d.coordinates == Resolve(dependency)
    ensures d.scope == FirstOf(dependency, "scope")
  {
    Dependency(Resolve(dependency), FirstOf(dependency, "scope"))
  }

  /** `.map(...)` over the declared dependencies. */
  function ReadDependencyList(values: seq<Xml>): (ds: seq<Dependency>)
    ensures |ds| == |values|
    ensures forall i :: 0 <= i < |values| ==> ds[i] == ReadDependency(values[i])
  {
    if |values| == 0 then [] else [ReadDependency(values[0])] + ReadDependencyList(values[1..])
  }

  /** readDependenciesFromProject: empty when the block or its entries are missing, else one
      record per declared dependency, in declaration order. */
  function ReadDependencies(project: Xml): (ds: seq<Dependency>)
    ensures ds == [] <==> NestedValues(project, "dependencies", "dependency").None?
    ensures NestedValues(project, "dependencies", "dependency").Some? ==>
      var values := NestedValues(project, "dependencies", "dependency").value;
      |ds| == |values| && forall i :: 0 <= i < |values| ==> ds[i] == ReadDependency(values[i])
  {
    var values := NestedValues(project, "dependencies", "dependency");
    if values.None? then [] else ReadDependencyList(values.value)
  }

  // Writers: the tree a decoder would hand over for a given record. They are the inverse
  // the readers are checked against.

  function PolicyEntries(p: RepositoryPolicy): seq<(string, Option<Xml>)> {
    [("enabled", p.enabled), ("updatePolicy", p.updatePolicy), ("checksumPolicy", p.checksumPolicy)]
  }

  function EncodePolicy(p: RepositoryPolicy): Xml {
    Element(Written(PolicyEntries(p)))
  }

  function EncodeOptionalPolicy(p: Option<RepositoryPolicy>): Option<Xml> {
    if p.Some? then Some(EncodePolicy(p.value)) else None
  }

  function RepositoryEntries(r: Repository): seq<(string, Option<Xml>)> {
    [("id", r.id), ("url", r.url), ("name", r.name), ("layout", r.layout),
     ("releases", EncodeOptionalPolicy(r.releases)), ("snapshots", EncodeOptionalPolicy(r.snapshots))]
  }

  function EncodeRepository(r: Repository): Xml {
    Element(Written(RepositoryEntries(r)))
  }

  /** The `parent` entry is always absent: a written dependency never inherits. */
  function DependencyEntries(d: Dependency): seq<(string, Option<Xml>)> {
    [("groupId", d.coordinates.groupId), ("artifactId", d.coordinates.artifactId),
     ("version", d.coordinates.version), ("scope", d.scope), ("parent", None)]
  }

  function EncodeDependency(d: Dependency): Xml {
    Element(Written(DependencyEntries(d)))
  }

  function EncodeRepositoryList(rs: seq<Repository>): (xs: seq<Xml>)
    ensures |xs| == |rs| && forall i :: 0 <= i < |rs| ==> xs[i] == EncodeRepository(rs[i])
  {
    if |rs| == 0 then [] else [EncodeRepository(rs[0])] + EncodeRepositoryList(rs[1..])
  }

  function EncodeDependencyList(ds: seq<Dependency>): (xs: seq<Xml>)
    ensures |xs| == |ds| && forall i :: 0 <= i < |ds| ==> xs[i] == EncodeDependency(ds[i])
  {
    if |ds| == 0 then [] else [EncodeDependency(ds[0])] + EncodeDependencyList(ds[1..])
  }

  /** A project holding only the block `outer` with the entries `inner`; no block at all
      when there are no entries. */
  function EncodeBlock(outer: string, inner: string, values: seq<Xml>): Xml {
    if |values| == 0 then Element([])
    else Element([Field(outer, Element([Field(inner, values[0], values[1..])]), [])])
  }

  /** A policy written out and read back is unchanged: every declared part is kept as is
      and nothing is filled in for the parts left out. */
  lemma {:induction false} PolicyRoundTrip(p: RepositoryPolicy)
    ensures ReadPolicy(EncodePolicy(p)) == p
  {
    var entries := PolicyEntries(p);
    assert DistinctNames(entries);
    ReadDistinct(entries, 0);
    ReadDistinct(entries, 1);
    ReadDistinct(entries, 2);
  }

  lemma {:induction false} RepositoryRoundTrip(r: Repository)
    ensures ReadRepository(EncodeRepository(r)) == r
  {
    var x := EncodeRepository(r);
    WrittenRepositoryFields(r);
    OptionalPolicyRoundTrip(x, "releases", r.releases);
    OptionalPolicyRoundTrip(x, "snapshots", r.snapshots);
  }

  lemma WrittenRepositoryFields(r: Repository)
    ensures FirstOf(EncodeRepository(r), "id") == r.id
    ensures FirstOf(EncodeRepository(r), "url") == r.url
    ensures FirstOf(EncodeRepository(r), "name") == r.name
    ensures FirstOf(EncodeRepository(r), "layout") == r.layout
    ensures FirstOf(EncodeRepository(r), "releases") == EncodeOptionalPolicy(r.releases)
    ensures FirstOf(EncodeRepository(r), "snapshots") == EncodeOptionalPolicy(r.snapshots)
  {
    var entries := RepositoryEntries(r);
    assert DistinctNames(entries);
    ReadDistinct(entries, 0);
    ReadDistinct(entries, 1);
    ReadDistinct(entries, 2);
    ReadDistinct(entries, 3);
    ReadDistinct(entries, 4);
    ReadDistinct(entries, 5);
  }

  lemma OptionalPolicyRoundTrip(x: Xml, name: string, p: Option<RepositoryPolicy>)
    requires FirstOf(x, name) == EncodeOptionalPolicy(p)
    ensures ReadOptionalPolicy(x, name) == p
  {
    if p.Some? {
      PolicyRoundTrip(p.value);
    }
  }

  /** A dependency written without a `parent` element reads back unchanged. */
  lemma {:induction false} DependencyRoundTrip(d: Dependency)
    ensures ReadDependency(EncodeDependency(d)) == d
  {
    var entries := DependencyEntries(d);
    assert DistinctNames(entries);
    ReadDistinct(entries, 0);
    ReadDistinct(entries, 1);
    ReadDistinct(entries, 2);
    ReadDistinct(entries, 3);
    ReadDistinct(entries, 4);
  }

  /** Reading the repositories block of a project gives back the declared list, in order;
      in particular a project without repositories reads as the empty list. */
  lemma {:induction false} RepositoriesRoundTrip(rs: seq<Repository>)
    ensures ReadRepositories(EncodeBlock("repositories", "repository", EncodeRepositoryList(rs))) == rs
  {
    var result := ReadRepositories(EncodeBlock("repositories", "repository", EncodeRepositoryList(rs)));
    if |rs| > 0 {
      forall i | 0 <= i < |rs|
        ensures result[i] == rs[i]
      {
        RepositoryRoundTrip(rs[i]);
      }
    }
  }

  /** Reading the dependencies block of a project gives back the declared list, in order. */
  lemma {:induction false} DependenciesRoundTrip(ds: seq<Dependency>)
    ensures ReadDependencies(EncodeBlock("dependencies", "dependency", EncodeDependencyList(ds))) == ds
  {
    var result := ReadDependencies(EncodeBlock("dependencies", "dependency", EncodeDependencyList(ds)));
    if |ds| > 0 {
      forall i | 0 <= i < |ds|
        ensures result[i] == ds[i]
      {
        DependencyRoundTrip(ds[i]);
      }
    }
  }
}
