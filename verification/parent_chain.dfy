/** Properties of the whole parse: the depth bound is only a modelling device, a chain of
    parents is followed generation by generation, and fetch failures degrade to an absent
    parent record, except for the default strategy's synchronous throws. */
module ParentChain {
  import opened Wrappers
  import opened XmlTree
  import opened CoordinateResolver
  import opened FetchStrategy
  import opened RepositoryLayout
  import opened DefaultFetch
  import opened ParserConfiguration
  import opened PomParser

  /** A parse that did not run out of depth gives the same answer with any larger depth. */
  lemma {:induction false} ParseFuelMonotone(body: Option<string>, user: Option<UserConfiguration>, env: Environment, fuel: nat, more: nat)
    requires fuel <= more
    requires Parse(body, user, env, fuel) != Err(OutOfFuel)
    ensures Parse(body, user, env, more) == Parse(body, user, env, fuel)
    decreases fuel, 2
  {
    var project := ProjectOf(body, env.decode);
    if project.Some? {
      BuildRecordFuelMonotone(project.value, CreateConfiguration(user, env.get), env, fuel, more);
    }
  }

  /** The same for one level's record. */
  lemma {:induction false} BuildRecordFuelMonotone(project: Xml, config: Configuration, env: Environment, fuel: nat, more: nat)
    requires fuel <= more
    requires BuildRecord(project, config, env, fuel) != Err(OutOfFuel)
    ensures BuildRecord(project, config, env, more) == BuildRecord(project, config, env, fuel)
    decreases fuel, 1
  {
    FetchParentFuelMonotone(project, config, env, fuel, more);
  }

  /** The same for one level's parent fetch. */
  lemma {:induction false} FetchParentFuelMonotone(project: Xml, config: Configuration, env: Environment, fuel: nat, more: nat)
    requires fuel <= more
    requires FetchParent(project, config, env, fuel) != Err(OutOfFuel)
    ensures FetchParent(project, config, env, more) == FetchParent(project, config, env, fuel)
    decreases fuel, 0
  {
    if FetchesParent(project) {
      var fetched := config.findParent(ParentInformationOf(project));
      if fetched.Resolved? && ProjectOf(fetched.body, env.decode).Some? {
        ParsedParentFuelMonotone(project, config, env, fuel, more, fuel - 1, more - 1, fetched.body);
      } else {
        FetchParentWithoutNested(project, config, env, fuel, more);
      }
    }
  }

  /** The case where fetchParent parses the parent's body `body`: by induction, that parse
      gives the same answer with the larger depth, and so does the fetch. */
  lemma {:induction false} ParsedParentFuelMonotone(project: Xml, config: Configuration, env: Environment, fuel: nat, more: nat, rest: nat, restMore: nat, body: Option<string>)
    requires fuel == rest + 1 && more == restMore + 1 && rest <= restMore
    requires FetchesParent(project) && config.findParent(ParentInformationOf(project)) == Resolved(body)
    requires ProjectOf(body, env.decode).Some?
    requires FetchParent(project, config, env, fuel) != Err(OutOfFuel)
    ensures FetchParent(project, config, env, more) == FetchParent(project, config, env, fuel)
    decreases rest, 3
  {
    NestedParseHadFuel(project, config, env, rest, body);
    ParseFuelMonotone(body, Supplying(config.findParent), env, rest, restMore);
    FetchParentFollowsNested(project, config, env, rest, restMore, body);
  }

  /** A parent fetch that did not run out of depth had a parent parse that did not run
      out either. */
  lemma NestedParseHadFuel(project: Xml, config: Configuration, env: Environment, rest: nat, body: Option<string>)
    requires FetchesParent(project) && config.findParent(ParentInformationOf(project)) == Resolved(body)
    requires ProjectOf(body, env.decode).Some?
    requires FetchParent(project, config, env, rest + 1) != Err(OutOfFuel)
    ensures Parse(body, Supplying(config.findParent), env, rest) != Err(OutOfFuel)
  {
  }

  /** When fetchParent parses a parent, its answer is determined by that parse. */
  lemma FetchParentFollowsNested(project: Xml, config: Configuration, env: Environment, fuel: nat, more: nat, body: Option<string>)
    requires FetchesParent(project) && config.findParent(ParentInformationOf(project)) == Resolved(body)
    requires ProjectOf(body, env.decode).Some?
    requires Parse(body, Supplying(config.findParent), env, fuel) != Err(OutOfFuel)
    requires Parse(body, Supplying(config.findParent), env, more) == Parse(body, Supplying(config.findParent), env, fuel)
    ensures FetchParent(project, config, env, more + 1) == FetchParent(project, config, env, fuel + 1)
  {
    var nested := Parse(body, Supplying(config.findParent), env, fuel);
    if nested.Ok? {
      assert FetchParent(project, config, env, fuel + 1) == Ok(Some(nested.value));
    } else {
      assert FetchParent(project, config, env, fuel + 1) == Ok(None);
    }
  }

  /** When fetchParent parses nothing, its answer does not depend on the depth at all. */
  lemma FetchParentWithoutNested(project: Xml, config: Configuration, env: Environment, fuel: nat, more: nat)
    requires FetchesParent(project)
    requires
      var fetched := config.findParent(ParentInformationOf(project));
      !fetched.Resolved? || ProjectOf(fetched.body, env.decode).None?
    ensures FetchParent(project, config, env, more) == FetchParent(project, config, env, fuel)
  {
  }

  /** One step up the chain: when the strategy finds a body that parses, the record holds
      the parsed parent record, so its lineage is the project's coordinates followed by the
      parent record's lineage. */
  lemma OneGeneration(project: Xml, config: Configuration, env: Environment, fuel: nat, parentText: string)
    requires FetchesParent(project) && config.findParent(ParentInformationOf(project)) == Resolved(Some(parentText))
    requires Parse(Some(parentText), Supplying(config.findParent), env, fuel).Ok?
    ensures BuildRecord(project, config, env, fuel + 1).Ok?
    ensures BuildRecord(project, config, env, fuel + 1).value.parentPom
      == Some(Parse(Some(parentText), Supplying(config.findParent), env, fuel).value)
    ensures Lineage(BuildRecord(project, config, env, fuel + 1).value)
      == [Resolve(project)] + Lineage(Parse(Some(parentText), Supplying(config.findParent), env, fuel).value)
  {
    var nested := Parse(Some(parentText), Supplying(config.findParent), env, fuel);
    assert ProjectOf(Some(parentText), env.decode).Some?;
    assert FetchParent(project, config, env, fuel + 1) == Ok(Some(nested.value));
  }

  /** The same step for a whole parse with a caller-supplied strategy. */
  lemma ParentGeneration(text: string, strategy: Strategy, env: Environment, fuel: nat, project: Xml, parentText: string)
    requires ProjectOf(Some(text), env.decode) == Some(project)
    requires FetchesParent(project) && strategy(ParentInformationOf(project)) == Resolved(Some(parentText))
    requires Parse(Some(parentText), Supplying(strategy), env, fuel).Ok?
    ensures Parse(Some(text), Supplying(strategy), env, fuel + 1).Ok?
    ensures Lineage(Parse(Some(text), Supplying(strategy), env, fuel + 1).value)
      == [Resolve(project)] + Lineage(Parse(Some(parentText), Supplying(strategy), env, fuel).value)
  {
    var config := CreateConfiguration(Supplying(strategy), env.get);
    assert config.findParent == strategy;
    OneGeneration(project, config, env, fuel, parentText);
  }

  /** The top of the chain: a project that declares no parent parses to a record whose
      lineage is its own coordinates alone. */
  lemma LastGeneration(text: string, user: Option<UserConfiguration>, env: Environment, fuel: nat, project: Xml)
    requires ProjectOf(Some(text), env.decode) == Some(project)
    requires !Truthy(FirstOf(project, "parent"))
    ensures Parse(Some(text), user, env, fuel).Ok?
    ensures Lineage(Parse(Some(text), user, env, fuel).value) == [Resolve(project)]
  {
  }

  /** A project whose strategy finds a parent that declares no parent: the record holds
      the parent's record, which holds none. */
  lemma TwoGenerations(
    text: string, strategy: Strategy, env: Environment, fuel: nat,
    child: Xml, parentText: string, parent: Xml)
    requires ProjectOf(Some(text), env.decode) == Some(child)
    requires FetchesParent(child) && strategy(ParentInformationOf(child)) == Resolved(Some(parentText))
    requires ProjectOf(Some(parentText), env.decode) == Some(parent)
    requires !Truthy(FirstOf(parent, "parent"))
    ensures Parse(Some(text), Supplying(strategy), env, fuel + 1).Ok?
    ensures Lineage(Parse(Some(text), Supplying(strategy), env, fuel + 1).value) == [Resolve(child), Resolve(parent)]
  {
    LastGeneration(parentText, Supplying(strategy), env, fuel, parent);
    ParentGeneration(text, strategy, env, fuel, child, parentText);
  }

  /** A child whose strategy finds its parent, whose strategy in turn finds a grandparent
      that declares no parent: the record holds the parent's record, which holds the
      grandparent's record, which holds none, at any depth that allows two parent parses. */
  lemma ThreeGenerations(
    text: string, strategy: Strategy, env: Environment, fuel: nat,
    child: Xml, parentText: string, parent: Xml, grandparentText: string, grandparent: Xml)
    requires ProjectOf(Some(text), env.decode) == Some(child)
    requires FetchesParent(child) && strategy(ParentInformationOf(child)) == Resolved(Some(parentText))
    requires ProjectOf(Some(parentText), env.decode) == Some(parent)
    requires FetchesParent(parent) && strategy(ParentInformationOf(parent)) == Resolved(Some(grandparentText))
    requires ProjectOf(Some(grandparentText), env.decode) == Some(grandparent)
    requires !Truthy(FirstOf(grandparent, "parent"))
    ensures Parse(Some(text), Supplying(strategy), env, fuel + 2).Ok?
    ensures Lineage(Parse(Some(text), Supplying(strategy), env, fuel + 2).value) == [Resolve(child), Resolve(parent), Resolve(grandparent)]
  {
    TwoGenerations(parentText, strategy, env, fuel, parent, grandparentText, grandparent);
    ParentGeneration(text, strategy, env, fuel + 1, child, parentText);
    PrependToPair(Resolve(child), Resolve(parent), Resolve(grandparent));
  }

  /** Prepending to a pair gives a triple. */
  lemma PrependToPair<T>(a: T, b: T, c: T)
    ensures [a] + [b, c] == [a, b, c]
  {
  }

  /** A strategy that always rejects or finds nothing never makes the parse reject: it
      succeeds exactly when the text decodes to a project, with no parent record. */
  lemma FailingStrategyDegrades(text: string, strategy: Strategy, env: Environment, fuel: nat)
    requires forall info :: strategy(info).Rejected? || strategy(info) == Resolved(None)
    ensures Parse(Some(text), Supplying(strategy), env, fuel).Ok?
      <==> ProjectOf(Some(text), env.decode).Some?
    ensures Parse(Some(text), Supplying(strategy), env, fuel).Ok? ==>
      Parse(Some(text), Supplying(strategy), env, fuel).value.parentPom.None?
  {
    var project := ProjectOf(Some(text), env.decode);
    if project.Some? {
      var config := CreateConfiguration(Supplying(strategy), env.get);
      if FetchesParent(project.value) {
        var fetched := strategy(ParentInformationOf(project.value));
        assert fetched.Rejected? || ProjectOf(fetched.body, env.decode).None?;
      }
    }
  }

  /** The guard before the default strategy is shallow: a project with a parent and a
      non-empty `<repositories>` block whose parent information the default strategy
      cannot turn into URLs (no `repository` entry, a group id that is not a text, an
      entry without `url`) makes the whole parse reject instead of leaving the parent
      record absent. */
  lemma DefaultStrategyThrowRejectsParse(text: string, env: Environment, fuel: nat, project: Xml)
    requires ProjectOf(Some(text), env.decode) == Some(project)
    requires FetchesParent(project) && !CanAssemble(ParentInformationOf(project))
    ensures Parse(Some(text), None, env, fuel) == Err(StrategyThrew)
  {
    var config := CreateConfiguration(None, env.get);
    assert config.findParent(ParentInformationOf(project)) == Threw;
  }

  /** The same throw one level further up is swallowed: a parent whose own fetch throws
      leaves the child's parent record absent without making the child's parse reject. */
  lemma NestedThrowIsSwallowed(project: Xml, config: Configuration, env: Environment, fuel: nat, parentText: string, parent: Xml)
    requires FetchesParent(project) && config.findParent(ParentInformationOf(project)) == Resolved(Some(parentText))
    requires ProjectOf(Some(parentText), env.decode) == Some(parent)
    requires FetchesParent(parent) && config.findParent(ParentInformationOf(parent)) == Threw
    ensures BuildRecord(project, config, env, fuel + 1).Ok?
    ensures BuildRecord(project, config, env, fuel + 1).value.parentPom.None?
  {
    ParentParseThrows(config, env, fuel, parentText, parent);
    ParsesParentBody(project, config, env, fuel, Some(parentText));
  }

  /** A parent parse, which runs with the child's strategy, rejects when that strategy
      throws on the parent's own parent. */
  lemma ParentParseThrows(config: Configuration, env: Environment, fuel: nat, parentText: string, parent: Xml)
    requires ProjectOf(Some(parentText), env.decode) == Some(parent)
    requires FetchesParent(parent) && config.findParent(ParentInformationOf(parent)) == Threw
    ensures Parse(Some(parentText), Supplying(config.findParent), env, fuel) == Err(StrategyThrew)
  {
    assert CreateConfiguration(Supplying(config.findParent), env.get) == config;
  }
}
