# POM parser model

A Dafny model of the POM parser of `java-utils`. The parser turns the text of a Maven
project descriptor (`pom.xml`) into a plain record, as follows.

- It reads the project's coordinates (group id, artifact id, version). It takes the group
  id and version from the `<parent>` element when the project does not declare them.
- It reads the parent reference, the `dependencies` block and the `repositories` block,
  including each repository's `releases` and `snapshots` policies.
- It fetches the parent descriptor through a pluggable `findParent` strategy and parses
  that descriptor recursively.

The default strategy builds one candidate URL per declared repository in the Maven layout
(`url/g/r/o/u/p/artifactId/version/artifactId-version.pom`). It requests every candidate
and keeps the first body delivered, in repository declaration order.

Modules, one per part of the program:

| module | file | models |
|---|---|---|
| `Wrappers` | wrappers.dfy | `undefined` as `Option`, a rejected promise as `Result` |
| `XmlTree` | xml_tree.dfy | the tree the XML decoder produces; `node.x ? node.x[0] : undefined`; JavaScript truthiness |
| `CoordinateResolver` | coordinate_resolver.dfy | `getCoordinatesFromNode` |
| `SectionReaders` | section_readers.dfy | `getRepositoryPolicy`, `readRepositoriesFromProject`, `readDependenciesFromProject`, and writers that invert them |
| `FetchStrategy` | fetch_strategy.dfy | the argument and the three possible outcomes of a `findParent` call |
| `RepositoryLayout` | repository_layout.dfy | `assembleUrls`, including `split('.').join('/')` and template interpolation |
| `DefaultFetch` | default_fetch.dfy | `repositoryRequests` and `defaultFetch` over a transport parameter |
| `ParserConfiguration` | parser_configuration.dfy | `createConfigurationObject` |
| `PomParser` | pom_parser.dfy | `parsePOMFromString`, `buildJSONStructure`, `fetchParent` |
| `ParentChain` | parent_chain.dfy | properties of the recursive parse |
| `Examples` | examples.dfy | documents reconstructed from the assertions of the tests, and one literal URL |

Modelling choices:

- **Decoded XML.** The XML decoder (xml2js) is a parameter `decode` of the environment. It
  maps the text to a document with a root name and a tree, or to `Malformed`.
  - An element without child elements decodes to its text, so an empty element decodes to
    `""`.
  - An element with children decodes to its named fields. Each field holds a non-empty
    list of values in document order.
  - A property read `node.x[0]` is the first value of the first field called `x`.
  - JavaScript truthiness is modelled exactly: an element is truthy, and a text is truthy
    unless it is `""`.
- **Promises** become the data type `Fetched`. A strategy's promise fulfils with a body
  (`Resolved`), rejects (`Rejected`), or the call throws before returning a promise
  (`Threw`). A parse either gives a record or rejects with a `ParseError`.
- **HTTP transport.** axios is a parameter `get` mapping a URL to its response: a
  delivered body, an error with a status, or an error without a response.
- **Recursion depth.** The recursion over parent descriptors carries a depth bound `fuel`.
  Running out of depth is the model-only error `OutOfFuel`, which nothing swallows.
  `ParentChain.ParseFuelMonotone` proves that a parse that did not run out gives the same
  answer at every larger depth. The bound therefore changes nothing for a chain that fits.

Behaviours of the code (all but the last are proved below):

- `Resolve` uses the nearest declaration along the chain of nested `parent` elements.
- The readers keep every declared value as it is and fill in no defaults.
- The default strategy's answer is deterministic. The candidates are read in the order
  of `Promise.all`, which is repository declaration order, not in the order the answers
  arrive. Any failing candidate (no response, or a status outside 400–499) sinks the whole
  fetch, even when another candidate delivered a body. One level up, that failure leaves
  the parent record absent.
- The guard in `fetchParent` is shallow. A project with a `parent` and a non-empty
  `repositories` block, whose information the default strategy cannot assemble into URLs,
  makes the default strategy throw synchronously. This makes the top-level parse reject
  rather than leave the parent record absent. One level further up the chain, the same
  throw is swallowed.
- The code has no cycle detection and no limit on the depth of the parent chain. The
  depth bound `fuel` exists only in the model.

## Model

| member | source | states |
|---|---|---|
| `CoordinateResolver.Resolve` | src/main/pom-parser/pom-parser.js:5-16 | the artifact id is always the node's own; a declared group id or version wins, even an empty one; without a `parent` element a missing group id or version stays absent |
| `CoordinateResolver.ResolveIsNearestDeclared` | src/main/pom-parser/pom-parser.js:5-16 | the resolved group id and version equal the value declared by the nearest node along the chain of nested `parent` elements; a node without the field takes exactly its parent element's resolution |
| `XmlTree.FirstOf` | src/main/pom-parser/pom-parser.js:7-9 | a property read gives a value exactly when the node has a field of that name, and then the first value of the first such field, which is structurally smaller than the node |
| `XmlTree.NestedValues` | src/main/pom-parser/pom-parser.js:62-67 | a two-level block gives the inner value list exactly when the outer element is truthy and holds the inner name; the list is never empty |
| `SectionReaders.ReadPolicy` | src/main/pom-parser/pom-parser.js:18-28 | each policy part is present exactly when the element declares it, and then holds the declared value; nothing is defaulted |
| `SectionReaders.PolicyRoundTrip` | src/main/pom-parser/pom-parser.js:18-28 | writing any policy out and reading it back gives the same policy, absent parts included |
| `SectionReaders.ReadOptionalPolicy` | src/main/pom-parser/pom-parser.js:44-49 | a `releases` or `snapshots` policy is present exactly when its element is truthy, so an empty element gives no policy |
| `SectionReaders.ReadRepository` | src/main/pom-parser/pom-parser.js:35-59 | each repository field is the entry's first declared value; the policies are read only from truthy elements |
| `SectionReaders.RepositoryRoundTrip` | src/main/pom-parser/pom-parser.js:35-59 | writing any repository out and reading it back gives the same repository |
| `SectionReaders.ReadRepositories` | src/main/pom-parser/pom-parser.js:30-60 | the list is empty exactly when the block or its entries are missing, and otherwise holds one record per entry, in declaration order |
| `SectionReaders.RepositoriesRoundTrip` | src/main/pom-parser/pom-parser.js:30-60 | any list of repositories written as a `repositories` block reads back as the same list, in the same order; the empty list reads back from a project without the block |
| `SectionReaders.ReadDependency` | src/main/pom-parser/pom-parser.js:67-74 | a dependency's coordinates are resolved like a project's, and its scope is the declared one |
| `SectionReaders.DependencyRoundTrip` | src/main/pom-parser/pom-parser.js:67-74 | writing any dependency out (without a `parent` element) and reading it back gives the same dependency |
| `SectionReaders.ReadDependencies` | src/main/pom-parser/pom-parser.js:62-75 | the list is empty exactly when the block or its entries are missing, and otherwise holds one record per entry, in declaration order |
| `SectionReaders.DependenciesRoundTrip` | src/main/pom-parser/pom-parser.js:62-75 | any list of dependencies written as a `dependencies` block reads back as the same list, in the same order |
| `RepositoryLayout.Split` | src/main/pom-parser/pom-parser.js:112 | splitting gives at least one part, and no part contains the separator |
| `RepositoryLayout.JoinSplitReplaces` | src/main/pom-parser/pom-parser.js:112 | for every string, splitting at one character and joining with another is the same as replacing each occurrence of the first character by the second |
| `RepositoryLayout.GroupPath` | src/main/pom-parser/pom-parser.js:112 | the group directory is the group id with every dot replaced by a slash; no dot is left |
| `RepositoryLayout.Interpolate` | src/main/pom-parser/pom-parser.js:118 | template interpolation renders an absent value as `undefined`, a text as itself and an element with children as `[object Object]` |
| `RepositoryLayout.RepositoryUrls` | src/main/pom-parser/pom-parser.js:115-120 | one URL per repository entry, in order, each being that entry's url followed by the path |
| `RepositoryLayout.AssembleUrls` | src/main/pom-parser/pom-parser.js:110-122 | exactly one candidate per declared repository, in declaration order, each being the repository's url, a slash and the Maven layout path of the coordinates |
| `DefaultFetch.Settle` | src/main/pom-parser/pom-parser.js:128-137 | a candidate fails exactly when there is no response or the status is outside 400–499; a 4xx status gives no body; a delivered body is kept |
| `DefaultFetch.All` | src/main/pom-parser/pom-parser.js:100 | the join rejects exactly when some candidate failed, and otherwise holds every candidate's value at its own index |
| `DefaultFetch.Present` | src/main/pom-parser/pom-parser.js:101-102 | the filter keeps no more than it is given; it is empty exactly when every value is absent, and otherwise starts with the first present value |
| `DefaultFetch.Select` | src/main/pom-parser/pom-parser.js:100-107 | the selection never throws; it rejects exactly when some candidate fails, finds a body exactly when some candidate delivers one, and then gives the body of the first such candidate |
| `DefaultFetch.SettledValues` | src/main/pom-parser/pom-parser.js:100-102 | in terms of the raw responses: the join rejects exactly when one of them fails, and otherwise has a value exactly where a response carries a body, namely that body |
| `DefaultFetch.Requests` | src/main/pom-parser/pom-parser.js:124-141 | one request per candidate URL, each response in the position of its URL |
| `DefaultFetch.SelectRequestsRejects` | src/main/pom-parser/pom-parser.js:96-108 | the default fetch over the assembled URLs rejects exactly when the request of some URL fails |
| `DefaultFetch.SelectRequestsFinds` | src/main/pom-parser/pom-parser.js:96-108 | without a rejection, the default fetch finds a body exactly when some URL delivers one |
| `DefaultFetch.SelectRequestsFirst` | src/main/pom-parser/pom-parser.js:96-108 | the body found is the one of the first URL, in declaration order, that delivers a body |
| `DefaultFetch.Fetch` | src/main/pom-parser/pom-parser.js:96-108 | the default strategy throws exactly when the URLs cannot be assembled; otherwise it rejects exactly when some URL's request fails, finds a body exactly when some URL delivers one, and returns the first URL's body in repository order |
| `ParserConfiguration.CreateConfiguration` | src/main/pom-parser/pom-parser.js:143-158 | the caller's `findParent` is used when given; a missing configuration or a missing `findParent` gets the default strategy |
| `ParserConfiguration.CompletingIsIdempotent` | src/main/pom-parser/pom-parser.js:143-158 | completing an already complete configuration changes nothing, so every level of the parent chain runs with the same strategy |
| `PomParser.ProjectOf` | src/main/pom-parser/pom-parser.js:179-185 | there is a project exactly when there is a body, it decodes, and its root element is `project`; the project is then the decoded root value |
| `PomParser.ParentInformationOf` | src/main/pom-parser/pom-parser.js:82-85 | the strategy receives the coordinates the `parent` element resolves to and the raw `repository` list, which is absent when the block has no `repository` entry |
| `PomParser.ParentCoordinates` | src/main/pom-parser/pom-parser.js:161-166 | the parent reference is present exactly when the `parent` element is truthy, and then holds its resolved coordinates |
| `PomParser.FetchParent` | src/main/pom-parser/pom-parser.js:77-94 | without a truthy parent and repositories block nothing is fetched; a throw of the strategy at this level propagates, and apart from running out of depth it is the only error this level can report; a rejection or a body that does not decode gives no parent record; a parent record carries a chain that stops at a descriptor without a parent |
| `PomParser.OutOfDepth` | src/main/pom-parser/pom-parser.js:87-90 | with no depth left, a parent body that decodes is not parsed and the fetch reports that the bound was too small, instead of yielding no parent record |
| `PomParser.ParsesParentBody` | src/main/pom-parser/pom-parser.js:87-93 | a body that decodes is parsed with the same configuration; its record becomes the parent record, and any failure of that parse, even a throw one level further up, gives no parent record |
| `PomParser.ThrowRejectsParse` | src/main/pom-parser/pom-parser.js:77-87 | a parse rejects because of the strategy exactly when the body is a project with a truthy parent and repositories block and the strategy throws on that project's parent information |
| `PomParser.BuildRecord` | src/main/pom-parser/pom-parser.js:160-177 | the record holds the resolved coordinates, the parent reference, both lists and the fetched parent record; it fails exactly when the parent fetch fails; without a parent to fetch it always succeeds without a parent record |
| `PomParser.Parse` | src/main/pom-parser/pom-parser.js:179-187 | the parse rejects as malformed exactly when the body does not decode to a project; a successful parse carries a chain of parent records that stops where a descriptor declares no parent |
| `ParentChain.ParseFuelMonotone` | src/main/pom-parser/pom-parser.js:179-187 | a parse that did not run out of depth gives the same answer at every larger depth |
| `ParentChain.BuildRecordFuelMonotone` | src/main/pom-parser/pom-parser.js:160-177 | the same for one level's record |
| `ParentChain.FetchParentFuelMonotone` | src/main/pom-parser/pom-parser.js:77-94 | the same for one level's parent fetch |
| `ParentChain.ParsedParentFuelMonotone` | src/main/pom-parser/pom-parser.js:87-90 | the same when the parent fetch parses a parent body |
| `ParentChain.OneGeneration` | src/main/pom-parser/pom-parser.js:87-90 | when the strategy finds a body that parses, the record holds that parsed record, and its lineage is the project's coordinates followed by the parent's lineage |
| `ParentChain.ParentGeneration` | src/main/pom-parser/pom-parser.js:179-187 | the same step for a whole parse with a caller-supplied strategy |
| `ParentChain.LastGeneration` | src/main/pom-parser/pom-parser.js:77-80 | a project that declares no parent parses, and its lineage is its own coordinates alone |
| `ParentChain.TwoGenerations` | src/test/pom-parser/pom-parser.test.js:213-245 | a child whose strategy finds a parent without a parent parses to a record with lineage child, parent |
| `ParentChain.ThreeGenerations` | src/test/pom-parser/pom-parser.test.js:213-245 | with a user strategy the parse follows child, parent and grandparent, and the grandparent record has no parent record |
| `ParentChain.FailingStrategyDegrades` | src/main/pom-parser/pom-parser.js:87-93 | a strategy that only rejects or finds nothing never makes the parse reject; the parse succeeds exactly when the text is a project, with no parent record |
| `ParentChain.DefaultStrategyThrowRejectsParse` | src/main/pom-parser/pom-parser.js:77-87 | with the default strategy, a parent and a non-empty repositories block that cannot be assembled into URLs make the whole parse reject |
| `ParentChain.NestedThrowIsSwallowed` | src/main/pom-parser/pom-parser.js:87-93 | a parent whose own fetch throws leaves the child's parent record absent, and the child's parse succeeds |
| `ParentChain.ParentParseThrows` | src/main/pom-parser/pom-parser.js:87 | a parent parse runs with the child's strategy and rejects when that strategy throws on the parent's own parent |
| `Examples.SimpleDocument` | src/test/pom-parser/pom-parser.test.js:16-24 | a reconstructed project declaring `a`, `b`, `1.0.0` parses to those coordinates, with empty lists and no parent, under any configuration |
| `Examples.NoGeneralInformation` | src/test/pom-parser/pom-parser.test.js:26-34 | a project with no fields at all resolves to three absent parts |
| `Examples.UnversionedDependency` | src/test/pom-parser/pom-parser.test.js:62-72 | a reconstructed dependency without a version reads with an absent version and its declared scope |
| `Examples.InheritedCoordinates` | src/test/pom-parser/pom-parser.test.js:103-118 | a reconstructed project declaring only a parent inherits the parent's group id and version; the artifact id, which the test does not check, stays absent |
| `Examples.LocalCandidate` | src/main/pom-parser/pom-parser.js:110-122 | the coordinates `a.b:c:1` in a repository at `http://r` give the single candidate `http://r/a/b/c/1/c-1.pom` |

## Left out

- The XML decoder (xml2js) is not part of this model. It is the parameter `decode`, and the
  model relies only on the tree shape it produces. XML attributes, which the parser never
  reads, are not represented.
- The HTTP client (axios) is the parameter `get`. The model covers a delivered body, an
  error with a status, and an error without a response. A response body that is not a
  string is not modelled, and neither is a request that never settles.
- Promise scheduling and timing are not modelled. Each promise is replaced by its settled
  outcome. This is sound because the code joins the candidates with `Promise.all` and
  reads them in index order.
- The error values are not modelled. `throw new error` rejects with a `TypeError` rather
  than the caught error, and the model keeps only the fact of the rejection.
- A truthy `findParent` that is not a function is not modelled. Calling it would throw.
- Configuration keys other than `findParent` are not modelled, since the code drops them.
- Repeated fields of one name cannot be produced by the decoder. Where the model's tree has
  them, the first field is read.
- `PomParser.Parse`: the depth bound `fuel` has no counterpart in the source, so the
  contract says nothing about a parent chain longer than the bound.
  `ParentChain.ParseFuelMonotone` shows that the bound changes nothing once the chain fits.
  A cyclic chain of parents, which the code would follow forever, is not modelled.
- The model classes under `models/`, `Repository.js` and the mock driver are not part of
  this model. The parser does not use them.
- One test asserts only that `throw new error()` throws (src/test/pom-parser/pom-parser.test.js:356-368).
  It states nothing about the parser.
- The tests read their documents from data files (src/test/pom-parser/pom-parser.test.js:7-11),
  and those files are not part of this model. The `Examples` documents are reconstructed
  from the tests' assertions, and each example states only what those documents give.
  The tests that use a mock server are covered in general by `DefaultFetch.Fetch`.
