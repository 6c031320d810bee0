/** The coordinate resolver: the effective group id, artifact id and version of a node. */
module CoordinateResolver {
  import opened Wrappers
  import opened XmlTree

  /** A `{groupId, artifactId, version}` triple; each part is the decoded value, or absent. */
  datatype Coordinates = Coordinates(groupId: Option<Xml>, artifactId: Option<Xml>, version: Option<Xml>)

  /** getCoordinatesFromNode. The group id and the version are the node's own first value
      when it declares the field (even an empty one), otherwise the value its `parent`
      element resolves to, otherwise absent. The artifact id is never inherited. */
  function Resolve(node: Xml): (c: Coordinates)
    decreases node
    ensures c.artifactId == FirstOf(node, "artifactId")
    ensures FirstOf(node, "groupId").Some? ==> c.groupId == FirstOf(node, "groupId")
    ensures FirstOf(node, "version").Some? ==> c.version == FirstOf(node, "version")
    ensures FirstOf(node, "parent").None? ==> c.groupId == FirstOf(node, "groupId")
    ensures FirstOf(node, "parent").None? ==> c.version == FirstOf(node, "version")
  {
    var parent := FirstOf(node, "parent");
    var groupId :=
      if FirstOf(node, "groupId").Some? then FirstOf(node, "groupId")
      else if parent.Some? then Resolve(parent.value).groupId
      else None;
    var version :=
      if FirstOf(node, "version").Some? then FirstOf(node, "version")
      else if parent.Some? then Resolve(parent.value).version
      else None;
    Coordinates(groupId, FirstOf(node, "artifactId"), version)
  }

  /** The node followed by its nested `parent` elements, innermost last. */
  function ParentChain(node: Xml): (chain: seq<Xml>)
    decreases node
    ensures |chain| >= 1 && chain[0] == node
  {
    var parent := FirstOf(node, "parent");
    if parent.Some? then [node] + ParentChain(parent.value) else [node]
  }

  /** The value of `name` declared by the earliest node of `chain` that declares it. */
  function NearestDeclared(chain: seq<Xml>, name: string): (r: Option<Xml>)
    ensures r.None? <==> forall i :: 0 <= i < |chain| ==> FirstOf(chain[i], name).None?
    ensures r.Some? ==>
      exists i :: 0 <= i < |chain| && r == FirstOf(chain[i], name) && forall j :: 0 <= j < i ==> FirstOf(chain[j], name).None?
  {
    if |chain| == 0 then None
    else if FirstOf(chain[0], name).Some? then FirstOf(chain[0], name)
    else
      var r := NearestDeclared(chain[1..], name);
      if r.Some? then
        ghost var i :| 0 <= i < |chain[1..]| && r == FirstOf(chain[1..][i], name)
          && forall j :: 0 <= j < i ==> FirstOf(chain[1..][j], name).None?;
        assert r == FirstOf(chain[i + 1], name) && forall j :: 0 <= j < i + 1 ==> FirstOf(chain[j], name).None?;
        r
      else
        r
  }

  /** The resolved group id and version are those of the nearest element along the
      chain of nested `parent` elements that declares them; in particular a node that
      declares neither the field nor a parent leaves it absent, and a node without the
      field takes exactly what its parent element resolves to. */
  lemma {:induction false} ResolveIsNearestDeclared(node: Xml)
    decreases node
    ensures Resolve(node).groupId == NearestDeclared(ParentChain(node), "groupId")
    ensures Resolve(node).version == NearestDeclared(ParentChain(node), "version")
    ensures FirstOf(node, "groupId").None? && FirstOf(node, "parent").Some? ==>
      Resolve(node).groupId == Resolve(FirstOf(node, "parent").value).groupId
    ensures FirstOf(node, "version").None? && FirstOf(node, "parent").Some? ==>
      Resolve(node).version == Resolve(FirstOf(node, "parent").value).version
  {
    var parent := FirstOf(node, "parent");
    var chain := ParentChain(node);
    if parent.Some? {
      ResolveIsNearestDeclared(parent.value);
      assert chain[1..] == ParentChain(parent.value);
    } else {
      assert chain == [node];
    }
  }
}
