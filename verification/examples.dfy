/** Worked examples. The test suite reads its documents from data files that are not part of
    this model, so the decoded trees here are reconstructed from the tests' assertions; the
    last example is a literal candidate URL. */
module Examples {
  import opened Wrappers
  import opened XmlTree
  import opened CoordinateResolver
  import opened SectionReaders
  import opened FetchStrategy
  import opened RepositoryLayout
  import opened ParserConfiguration
  import opened PomParser

  /** An element holding one text child. */
  function Leaf(name: string, value: string): Field {
    Field(name, Text(value), [])
  }

  /** `<project><groupId>a</groupId><artifactId>b</artifactId><version>1.0.0</version></project>` */
  function SimpleProject(): Xml {
    Element([Leaf("groupId", "a"), Leaf("artifactId", "b"), Leaf("version", "1.0.0")])
  }

  /** The simple project parses to its own coordinates, no parent reference, empty
      dependency and repository lists and no parent record, whatever the configuration. */
  lemma SimpleDocument(text: string, user: Option<UserConfiguration>, env: Environment, fuel: nat)
    requires env.decode(text) == Document("project", SimpleProject())
    ensures Parse(Some(text), user, env, fuel)
      == Ok(Descriptor(Coordinates(Some(Text("a")), Some(Text("b")), Some(Text("1.0.0"))), None, [], [], None))
  {
    SimpleFields();
  }

  /** What the simple project declares, field by field. */
  lemma SimpleFields()
    ensures FirstOf(SimpleProject(), "groupId") == Some(Text("a"))
    ensures FirstOf(SimpleProject(), "artifactId") == Some(Text("b"))
    ensures FirstOf(SimpleProject(), "version") == Some(Text("1.0.0"))
    ensures FirstOf(SimpleProject(), "parent").None?
    ensures FirstOf(SimpleProject(), "dependencies").None?
    ensures FirstOf(SimpleProject(), "repositories").None?
  {
    SimpleDeclares();
    SimpleOmits();
  }

  /** The coordinates the simple project declares. */
  lemma SimpleDeclares()
    ensures FirstOf(SimpleProject(), "groupId") == Some(Text("a"))
    ensures FirstOf(SimpleProject(), "artifactId") == Some(Text("b"))
    ensures FirstOf(SimpleProject(), "version") == Some(Text("1.0.0"))
  {
  }

  /** The sections the simple project leaves out. */
  lemma SimpleOmits()
    ensures FirstOf(SimpleProject(), "parent").None?
    ensures FirstOf(SimpleProject(), "dependencies").None?
    ensures FirstOf(SimpleProject(), "repositories").None?
  {
  }

  /** A project that declares only its parent: `<parent><groupId>a</groupId>
      <artifactId>parent</artifactId><version>1.0.0</version></parent>`. */
  function InheritingProject(): Xml {
    Element([Field("parent", Element([Leaf("groupId", "a"), Leaf("artifactId", "parent"), Leaf("version", "1.0.0")]), [])])
  }

  /** The group id and the version come from the parent element; the artifact id, which the
      test does not check, is not inherited and stays absent. */
  lemma InheritedCoordinates()
    ensures Resolve(InheritingProject()) == Coordinates(Some(Text("a")), None, Some(Text("1.0.0")))
  {
    InheritingFields();
  }

  /** What the inheriting project and its parent element declare. */
  lemma InheritingFields()
    ensures FirstOf(InheritingProject(), "groupId").None?
    ensures FirstOf(InheritingProject(), "artifactId").None?
    ensures FirstOf(InheritingProject(), "version").None?
    ensures FirstOf(InheritingProject(), "parent") == Some(Element([Leaf("groupId", "a"), Leaf("artifactId", "parent"), Leaf("version", "1.0.0")]))
    ensures Resolve(Element([Leaf("groupId", "a"), Leaf("artifactId", "parent"), Leaf("version", "1.0.0")]))
      == Coordinates(Some(Text("a")), Some(Text("parent")), Some(Text("1.0.0")))
  {
  }

  /** A project without any coordinates resolves to three absent parts. */
  lemma NoGeneralInformation()
    ensures Resolve(Element([])) == Coordinates(None, None, None)
  {
  }

  /** `<dependency><groupId>Jim</groupId><artifactId>Pam</artifactId><scope>Dwight</scope></dependency>` */
  function UnversionedNode(): Xml {
    Element([Leaf("groupId", "Jim"), Leaf("artifactId", "Pam"), Leaf("scope", "Dwight")])
  }

  /** A project whose only dependency declares no version. */
  function DependencyWithoutVersion(): Xml {
    Element([Field("dependencies", Element([Field("dependency", UnversionedNode(), [])]), [])])
  }

  /** What the dependency declares, field by field. */
  lemma UnversionedFields()
    ensures FirstOf(UnversionedNode(), "groupId") == Some(Text("Jim"))
    ensures FirstOf(UnversionedNode(), "artifactId") == Some(Text("Pam"))
    ensures FirstOf(UnversionedNode(), "version").None?
    ensures FirstOf(UnversionedNode(), "parent").None?
    ensures FirstOf(UnversionedNode(), "scope") == Some(Text("Dwight"))
  {
  }

  /** The dependency's version is absent: it is not taken from the project. */
  lemma UnversionedDependency()
    ensures ReadDependencies(DependencyWithoutVersion())
      == [Dependency(Coordinates(Some(Text("Jim")), Some(Text("Pam")), None), Some(Text("Dwight")))]
  {
    var block := Element([Field("dependency", UnversionedNode(), [])]);
    assert FirstOf(DependencyWithoutVersion(), "dependencies") == Some(block);
    assert Lookup(block, "dependency") == Some(Field("dependency", UnversionedNode(), []));
    assert Field("dependency", UnversionedNode(), []).Values() == [UnversionedNode()];
    assert NestedValues(DependencyWithoutVersion(), "dependencies", "dependency") == Some([UnversionedNode()]);
    UnversionedFields();
  }

  /** Parent information for the coordinates `a.b:c:1`, declared in one repository at
      `http://r`. */
  function LocalInformation(): ParentInformation {
    ParentInformation(
      Coordinates(Some(Text("a.b")), Some(Text("c")), Some(Text("1"))),
      Some([Element([Leaf("url", "http://r")])]))
  }

  /** The single candidate URL follows the Maven layout: the dots of the group id become
      directory separators. */
  lemma LocalCandidate()
    ensures CanAssemble(LocalInformation())
    ensures AssembleUrls(LocalInformation()) == ["http://r/a/b/c/1/c-1.pom"]
  {
    LocalBase();
    LocalPath();
    var urls := AssembleUrls(LocalInformation());
    assert urls[0] == "http://r" + "/" + "a/b/c/1/c-1.pom";
    assert |urls| == 1;
    assert urls == [urls[0]];
    assert "http://r" + "/" + "a/b/c/1/c-1.pom" == "http://r/a/b/c/1/c-1.pom";
  }

  /** The information can be assembled, and its one repository's url is `http://r`. */
  lemma LocalBase()
    ensures CanAssemble(LocalInformation())
    ensures FirstOf(LocalInformation().repositories.value[0], "url") == Some(Text("http://r"))
  {
  }

  /** The layout path of `a.b:c:1`. */
  lemma LocalPath()
    ensures DescriptorPath(LocalInformation().artifactCoordinates) == "a/b/c/1/c-1.pom"
  {
    assert ReplaceChar("a.b", '.', '/') == "a/b";
  }
}
