/** The parser's configuration and its defaulting (createConfigurationObject). */
module ParserConfiguration {
  import opened Wrappers
  import opened FetchStrategy
  import opened DefaultFetch

  /** What a caller may pass: the only recognised key is `findParent`, absent when it is
      missing or falsy. Unrecognised keys have no counterpart, since they are dropped. */
  datatype UserConfiguration = UserConfiguration(findParent: Option<Strategy>)

  /** A caller's configuration that supplies the strategy `s`. */
  function Supplying(s: Strategy): Option<UserConfiguration> {
    Some(UserConfiguration(Some(s)))
  }

  /** The complete configuration the parser works with. */
  datatype Configuration = Configuration(findParent: Strategy)

  /** createConfigurationObject: the caller's `findParent` when given, otherwise the default
      strategy over the transport `get`; an absent configuration gets the default too. */
  function CreateConfiguration(user: Option<UserConfiguration>, get: string -> Response): (c: Configuration)
    ensures user.Some? && user.value.findParent.Some? ==> c.findParent == user.value.findParent.value
    ensures user.None? || user.value.findParent.None? ==> c.findParent == DefaultStrategy(get)
  {
    if user.Some? && user.value.findParent.Some? then Configuration(user.value.findParent.value)
    else Configuration(DefaultStrategy(get))
  }

  /** The configuration a parent parse receives is the complete one; completing it again
      changes nothing, so every level of the parent chain uses the same strategy. */
  lemma CompletingIsIdempotent(c: Configuration, get: string -> Response)
    ensures CreateConfiguration(Supplying(c.findParent), get) == c
  {
  }
}
