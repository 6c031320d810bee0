/** What a parent-fetch strategy is given and what it may answer. */
module FetchStrategy {
  import opened Wrappers
  import opened XmlTree
  import opened CoordinateResolver

  /** The argument of `findParent`: the coordinates the `<parent>` element resolves to,
      and the raw `repository` value list, which is absent when the `<repositories>`
      block has no `repository` entry. */
  datatype ParentInformation = ParentInformation(artifactCoordinates: Coordinates, repositories: Option<seq<Xml>>)

  /** How a call to `findParent` ends: the returned promise fulfils with a body (absent for
      `undefined` or `null`), or rejects; or the call throws before returning a promise. */
  datatype Fetched = Resolved(body: Option<string>) | Rejected | Threw

  /** A pluggable strategy for locating the parent descriptor's text. */
  type Strategy = ParentInformation -> Fetched
}
