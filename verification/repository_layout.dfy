/** The Maven repository layout used by the default strategy (assembleUrls). */
module RepositoryLayout {
  import opened Wrappers
  import opened XmlTree
  import opened CoordinateResolver
  import opened FetchStrategy

  /** `s.split(sep)` for a one-character separator: the maximal runs between separators,
      so there is always at least one part, and empty parts where separators touch. */
  function Split(s: string, sep: char): (parts: seq<string>)
    decreases |s|
    ensures |parts| >= 1
    ensures forall i :: 0 <= i < |parts| ==> sep !in parts[i]
  {
    if |s| == 0 then [""]
    else
      var tail := Split(s[1..], sep);
      if s[0] == sep then [""] + tail
      else [[s[0]] + tail[0]] + tail[1..]
  }

  /** `parts.join(glue)` for a one-character glue. */
  function Join(parts: seq<string>, glue: char): string
    decreases |parts|
  {
    if |parts| == 0 then ""
    else if |parts| == 1 then parts[0]
    else parts[0] + [glue] + Join(parts[1..], glue)
  }

  /** Every occurrence of `from` replaced by `to`, every other character kept. */
  function ReplaceChar(s: string, from: char, to: char): (r: string)
    ensures |r| == |s|
    ensures forall i :: 0 <= i < |s| ==> r[i] == if s[i] == from then to else s[i]
  {
    seq(|s|, i requires 0 <= i < |s| => if s[i] == from then to else s[i])
  }

  lemma {:induction false} JoinPrepend(c: char, parts: seq<string>, glue: char)
    requires |parts| >= 1
    ensures Join([[c] + parts[0]] + parts[1..], glue) == [c] + Join(parts, glue)
  {
    var joined := [[c] + parts[0]] + parts[1..];
    if |parts| > 1 {
      assert joined[1..] == parts[1..];
    }
  }

  /** Splitting at `sep` and joining with `glue` replaces each `sep` by `glue`. */
  lemma {:induction false} JoinSplitReplaces(s: string, sep: char, glue: char)
    decreases |s|
    ensures Join(Split(s, sep), glue) == ReplaceChar(s, sep, glue)
  {
    if |s| > 0 {
      var tail := Split(s[1..], sep);
      JoinSplitReplaces(s[1..], sep, glue);
      if s[0] == sep {
        assert ([""] + tail)[1..] == tail;
      } else {
        JoinPrepend(s[0], tail, glue);
      }
      assert ReplaceChar(s, sep, glue) == [if s[0] == sep then glue else s[0]] + ReplaceChar(s[1..], sep, glue);
    }
  }

  /** `${value}` in a template literal: `undefined` for an absent value, the text itself,
      and `[object Object]` for an element with children. */
  function Interpolate(v: Option<Xml>): (s: string)
    ensures v.Some? && v.value.Text? ==> s == v.value.text
    ensures v.None? ==> s == "undefined"
    ensures v.Some? && v.value.Element? ==> s == "[object Object]"
  {
    match v
    case None => "undefined"
    case Some(Text(t)) => t
    case Some(Element(_)) => "[object Object]"
  }

  /** The group directory: `groupId.split('.').join('/')`. */
  function GroupPath(groupId: string): (path: string)
    ensures path == ReplaceChar(groupId, '.', '/')
    ensures '.' !in path
  {
    JoinSplitReplaces(groupId, '.', '/');
    Join(Split(groupId, '.'), '/')
  }

  /** Whether assembleUrls returns instead of throwing: the group id must be a text (it is
      split), the repository list must be present (its length is read), and each entry
      must declare a `url` (its first value is read). */
  predicate CanAssemble(info: ParentInformation) {
    && info.artifactCoordinates.groupId.Some?
    && info.artifactCoordinates.groupId.value.Text?
    && info.repositories.Some?
    && forall i :: 0 <= i < |info.repositories.value| ==> Lookup(info.repositories.value[i], "url").Some?
  }

  /** The Maven layout path of an artifact's descriptor:
      `g/r/o/u/p/artifactId/version/artifactId-version.pom`. */
  function DescriptorPath(c: Coordinates): string
    requires c.groupId.Some? && c.groupId.value.Text?
  {
    var artifact := Interpolate(c.artifactId);
    var version := Interpolate(c.version);
    ReplaceChar(c.groupId.value.text, '.', '/') + "/" + artifact + "/" + version + "/" + artifact + "-" + version + ".pom"
  }

  /** One URL per repository, in order: the repository's url, a slash, and `path`. */
  function RepositoryUrls(repositories: seq<Xml>, path: string): (urls: seq<string>)
    requires forall i :: 0 <= i < |repositories| ==> Lookup(repositories[i], "url").Some?
    ensures |urls| == |repositories|
    ensures forall i :: 0 <= i < |urls| ==> urls[i] == Interpolate(FirstOf(repositories[i], "url")) + "/" + path
  {
    if |repositories| == 0 then []
    else
      var baseRepo := Lookup(repositories[0], "url").value.first;
      var rest := RepositoryUrls(repositories[1..], path);
      assert forall i :: 1 <= i < |repositories| ==> repositories[1..][i - 1] == repositories[i];
      [Interpolate(Some(baseRepo)) + "/" + path] + rest
  }

  /** assembleUrls: exactly one candidate URL per declared repository, in declaration order,
      each being that repository's url followed by the Maven layout path of the coordinates. */
  function AssembleUrls(info: ParentInformation): (urls: seq<string>)
    requires CanAssemble(info)
    ensures |urls| == |info.repositories.value|
    ensures forall i :: 0 <= i < |urls| ==>
      urls[i] == Interpolate(FirstOf(info.repositories.value[i], "url")) + "/" + DescriptorPath(info.artifactCoordinates)
  {
    var coordinates := info.artifactCoordinates;
    var groupId := GroupPath(coordinates.groupId.value.text);
    var artifact := Interpolate(coordinates.artifactId);
    var version := Interpolate(coordinates.version);
    RepositoryUrls(info.repositories.value, groupId + "/" + artifact + "/" + version + "/" + artifact + "-" + version + ".pom")
  }
}
