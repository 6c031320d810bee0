/** The tree produced by the external XML decoder, and the few ways the parser reads it. */
module XmlTree {
  import opened Wrappers

  /** One decoded XML value. An element without child elements decodes to its text
      (an empty element to the empty text); an element with children decodes to its
      child fields, in document order. Attributes are never read by the parser. */
  datatype Xml = Text(text: string) | Element(fields: seq<Field>)

  /** All children of one element that share a name. The decoder always produces at
      least one value per name, so the list is `first` followed by `rest`. */
  datatype Field = Field(name: string, first: Xml, rest: seq<Xml>)
  {
    /** The whole value list, as the decoder's array. */
    function Values(): (vs: seq<Xml>)
      ensures |vs| == 1 + |rest|
      ensures vs[0] == first && vs[1..] == rest
    {
      [first] + rest
    }
  }

  /** The first field called `name`: the property `name` of a decoded object. */
  function FindField(fields: seq<Field>, name: string): (r: Option<Field>)
    ensures r.None? <==> forall i :: 0 <= i < |fields| ==> fields[i].name != name
    ensures r.Some? ==> r.value in fields && r.value.name == name
    ensures r.Some? ==>
      exists i :: 0 <= i < |fields| && fields[i] == r.value && forall j :: 0 <= j < i ==> fields[j].name != name
  {
    if |fields| == 0 then None
    else if fields[0].name == name then Some(fields[0])
    else
      var r := FindField(fields[1..], name);
      if r.Some? then
        ghost var i :| 0 <= i < |fields[1..]| && fields[1..][i] == r.value
          && forall j :: 0 <= j < i ==> fields[1..][j].name != name;
        assert fields[i + 1] == r.value && forall j :: 0 <= j < i + 1 ==> fields[j].name != name;
        r
      else
        r
  }

  /** `node[name]`: the value list under `name`; absent for text values, which have no
      such property. */
  function Lookup(node: Xml, name: string): (r: Option<Field>)
    ensures node.Text? ==> r.None?
    ensures r.Some? ==> node.Element? && r.value in node.fields && r.value.name == name
    ensures node.Element? ==> (r.None? <==> forall f :: f in node.fields ==> f.name != name)
  {
    match node
    case Text(_) => None
    case Element(fields) => FindField(fields, name)
  }

  /** `node.name ? node.name[0] : undefined`. The test is on the list, which is never
      empty, so a declared but empty element still yields its (empty) text. */
  function FirstOf(node: Xml, name: string): (r: Option<Xml>)
    ensures r.Some? <==> Lookup(node, name).Some?
    ensures r.Some? ==> r.value == Lookup(node, name).value.first && r.value < node
  {
    var f := Lookup(node, name);
    if f.Some? then Some(f.value.first) else None
  }

  /** Whether a looked-up value is truthy in JavaScript: present, and not the empty
      string that an empty element decodes to. Elements and non-empty texts are truthy. */
  predicate Truthy(v: Option<Xml>) {
    v.Some? && v.value != Text("")
  }

  /** `node.outer && node.outer[0] && node.outer[0].inner ? node.outer[0].inner : undefined`:
      the raw value list of a two-level block such as `dependencies/dependency`. */
  function NestedValues(node: Xml, outer: string, inner: string): (r: Option<seq<Xml>>)
    ensures r.Some? <==> Truthy(FirstOf(node, outer)) && Lookup(FirstOf(node, outer).value, inner).Some?
    ensures r.Some? ==> |r.value| > 0 && r.value == Lookup(FirstOf(node, outer).value, inner).value.Values()
  {
    var block := FirstOf(node, outer);
    if !Truthy(block) then None
    else
      var list := Lookup(block.value, inner);
      if list.Some? then Some(list.value.Values()) else None
  }

  /** The fields an encoder writes for an optional value: one single-valued field when
      present, none when absent. */
  function OptionalField(name: string, v: Option<Xml>): (fs: seq<Field>)
    ensures v.Some? ==> fs == [Field(name, v.value, [])]
    ensures v.None? ==> fs == []
  {
    if v.Some? then [Field(name, v.value, [])] else []
  }

  /** The fields an encoder writes for a list of optional named values, in order. */
  function Written(entries: seq<(string, Option<Xml>)>): (fs: seq<Field>)
    ensures forall f :: f in fs ==> exists i :: 0 <= i < |entries| && entries[i].0 == f.name
  {
    if |entries| == 0 then []
    else
      var tail := Written(entries[1..]);
      assert forall f :: f in tail ==> exists i :: 0 <= i < |entries| && entries[i].0 == f.name by {
        forall f | f in tail
          ensures exists i :: 0 <= i < |entries| && entries[i].0 == f.name
        {
          var i :| 0 <= i < |entries[1..]| && entries[1..][i].0 == f.name;
          assert entries[i + 1].0 == f.name;
        }
      }
      OptionalField(entries[0].0, entries[0].1) + tail
  }

  /** No two entries share a name. */
  predicate DistinctNames(entries: seq<(string, Option<Xml>)>) {
    forall i, j :: 0 <= i < j < |entries| ==> entries[i].0 != entries[j].0
  }

  /** Reading back any name of a list without repeated names gives back its value. */
  lemma ReadDistinct(entries: seq<(string, Option<Xml>)>, k: nat)
    requires k < |entries| && DistinctNames(entries)
    ensures FirstOf(Element(Written(entries)), entries[k].0) == entries[k].1
  {
    ReadWritten(entries, k);
  }

  /** Reading back any name written once gives back the value written under it. */
  lemma {:induction false} ReadWritten(entries: seq<(string, Option<Xml>)>, k: nat)
    requires k < |entries|
    requires forall i :: 0 <= i < |entries| && i != k ==> entries[i].0 != entries[k].0
    ensures FirstOf(Element(Written(entries)), entries[k].0) == entries[k].1
  {
    var name := entries[k].0;
    var head := OptionalField(entries[0].0, entries[0].1);
    var tail := Written(entries[1..]);
    assert Written(entries) == head + tail;
    if k == 0 {
      if entries[0].1.None? {
        forall i | 0 <= i < |tail|
          ensures tail[i].name != name
        {
          assert tail[i] in tail;
          var j :| 0 <= j < |entries[1..]| && entries[1..][j].0 == tail[i].name;
          assert entries[j + 1].0 == tail[i].name;
        }
      }
    } else {
      assert forall i :: 0 <= i < |entries[1..]| && i != k - 1 ==> entries[1..][i].0 != entries[1..][k - 1].0 by {
        forall i | 0 <= i < |entries[1..]| && i != k - 1
          ensures entries[1..][i].0 != entries[1..][k - 1].0
        {
          assert entries[1..][i] == entries[i + 1];
        }
      }
      ReadWritten(entries[1..], k - 1);
      if entries[0].1.Some? {
        assert (head + tail)[1..] == tail;
      } else {
        assert head + tail == tail;
      }
    }
  }
}
