/**
 * ModuleForcingResolveRule: a dependency-substitution rule that redirects a
 * requested module to the version the build forces for it.
 */
module ResolutionStrategy {
  import opened JavaTypes

  /** A (group, name) pair, as ImmutableModuleIdentifierFactory.module builds it. */
  datatype ModuleIdentifier = ModuleIdentifier(group: string, name: string)

  /**
   * A ModuleVersionSelector: group, name and version. A forced-module selector
   * contributes its version constraint's preferred version; the old requested
   * selector of a substitution contributes only its group and name.
   */
  datatype ModuleVersionSelector = ModuleVersionSelector(group: string, name: string, version: string)

  /** The requested component: a module selector, or any other kind of selector (a project, say). */
  datatype ComponentSelector =
    | ModuleComponentSelector(group: string, name: string, version: string)
    | OtherComponentSelector(displayName: string)

  datatype SelectionReason = Forced | OtherReason(description: string)

  /** What useTarget records: the new target and the reason for it. */
  datatype Target = Target(selector: ComponentSelector, reason: SelectionReason)

  /** The dependency-substitution details a rule is executed on. */
  datatype DependencySubstitution = DependencySubstitution(
    oldRequested: ModuleVersionSelector,
    requested: ComponentSelector,
    target: Option<Target>)
  {
    /** useTarget(selector, reason). */
    function UseTarget(selector: ComponentSelector, reason: SelectionReason): DependencySubstitution
    {
      this.(target := Some(Target(selector, reason)))
    }
  }

  function ModuleOf(selector: ModuleVersionSelector): ModuleIdentifier
  {
    ModuleIdentifier(selector.group, selector.name)
  }

  /** The forced-version map built from the selectors in iteration order; a later selector overwrites. */
  function ForcedVersions(modules: seq<ModuleVersionSelector>): map<ModuleIdentifier, string>
  {
    if modules == [] then map[]
    else
      var last := modules[|modules| - 1];
      ForcedVersions(modules[..|modules| - 1])[ModuleOf(last) := last.version]
  }

  class ModuleForcingResolveRule {
    /** The forced versions, or null when no module is forced. */
    const forcedModules: Option<map<ModuleIdentifier, string>>

    constructor (modules: seq<ModuleVersionSelector>)
      ensures forcedModules == if modules == [] then None else Some(ForcedVersions(modules))
    {
      if modules != [] {
        var forced: map<ModuleIdentifier, string> := map[];
        for i := 0 to |modules|
          invariant forced == ForcedVersions(modules[..i])
        {
          assert modules[..i + 1][..i] == modules[..i];
          forced := forced[ModuleOf(modules[i]) := modules[i].version];
        }
        assert modules[..|modules|] == modules;
        forcedModules := Some(forced);
      } else {
        forcedModules := None;
      }
    }

    /** Whether execute redirects these details: a module is forced and the details ask for it by module. */
    predicate Redirects(details: DependencySubstitution)
    {
      && forcedModules.Some?
      && ModuleOf(details.oldRequested) in forcedModules.value
      && details.requested.ModuleComponentSelector?
    }

    /**
     * execute: the details after the rule ran. The key is taken from the old
     * requested selector; the forced target keeps its group and name.
     */
    function Execute(details: DependencySubstitution): (r: DependencySubstitution)
      ensures r.oldRequested == details.oldRequested && r.requested == details.requested
      ensures !Redirects(details) ==> r == details
      ensures Redirects(details) ==>
        var key := ModuleOf(details.oldRequested);
        r.target == Some(Target(ModuleComponentSelector(key.group, key.name, forcedModules.value[key]), Forced))
    {
      if forcedModules.None? then details
      else
        var key := ModuleIdentifier(details.oldRequested.group, details.oldRequested.name);
        if key in forcedModules.value && details.requested.ModuleComponentSelector? then
          details.UseTarget(ModuleComponentSelector(key.group, key.name, forcedModules.value[key]), Forced)
        else details
    }
  }

  // ---------------------------------------------------------------------------
  // The forced-version map

  /** The map has one key per distinct (group, name) among the selectors. */
  lemma {:induction false} ForcedVersionsKeys(modules: seq<ModuleVersionSelector>)
    ensures ForcedVersions(modules).Keys == set i | 0 <= i < |modules| :: ModuleOf(modules[i])
  {
    if modules != [] {
      var init := modules[..|modules| - 1];
      ForcedVersionsKeys(init);
      assert forall i :: 0 <= i < |init| ==> init[i] == modules[i];
      var keys := set i | 0 <= i < |modules| :: ModuleOf(modules[i]);
      var initKeys := set i | 0 <= i < |init| :: ModuleOf(init[i]);
      assert keys == initKeys + {ModuleOf(modules[|modules| - 1])} by {
        forall k | k in keys ensures k in initKeys + {ModuleOf(modules[|modules| - 1])} {
          var i :| 0 <= i < |modules| && k == ModuleOf(modules[i]);
          if i < |init| { assert k == ModuleOf(init[i]); }
        }
      }
    }
  }

  /** A module's forced version is the preferred version of the last selector for it. */
  lemma {:induction false} ForcedVersionsLastWins(modules: seq<ModuleVersionSelector>, i: nat)
    requires i < |modules|
    requires forall j :: i < j < |modules| ==> ModuleOf(modules[j]) != ModuleOf(modules[i])
    ensures ModuleOf(modules[i]) in ForcedVersions(modules)
    ensures ForcedVersions(modules)[ModuleOf(modules[i])] == modules[i].version
  {
    if i < |modules| - 1 {
      var init := modules[..|modules| - 1];
      assert init[i] == modules[i];
      ForcedVersionsLastWins(init, i);
    }
  }

  // ---------------------------------------------------------------------------
  // execute

  /** With nothing forced, execute leaves every input unchanged. */
  lemma EmptyRuleIsNoOp(rule: ModuleForcingResolveRule, details: DependencySubstitution)
    requires rule.forcedModules == None
    ensures rule.Execute(details) == details
  {
  }

  /**
   * Only the old requested selector picks the forced version: two details that
   * share it and both request some module get the same target.
   */
  lemma ExecuteKeysOnOldRequested(rule: ModuleForcingResolveRule, d1: DependencySubstitution, d2: DependencySubstitution)
    requires d1.oldRequested == d2.oldRequested
    requires d1.requested.ModuleComponentSelector? && d2.requested.ModuleComponentSelector?
    requires rule.Redirects(d1)
    ensures rule.Redirects(d2)
    ensures rule.Execute(d1).target == rule.Execute(d2).target
  {
  }

  /** A selector that is not a module selector is never redirected. */
  lemma NonModuleRequestUnchanged(rule: ModuleForcingResolveRule, details: DependencySubstitution)
    requires details.requested.OtherComponentSelector?
    ensures rule.Execute(details) == details
  {
  }

  /**
   * For a rule built from `modules`, a module request whose old requested
   * module was forced is redirected to the same group and name at the version
   * of the last selector for that module, with reason FORCED.
   */
  lemma ExecuteForcesLastSelectorVersion(rule: ModuleForcingResolveRule, modules: seq<ModuleVersionSelector>,
                                         details: DependencySubstitution, i: nat)
    requires rule.forcedModules == Some(ForcedVersions(modules))
    requires i < |modules| && ModuleOf(modules[i]) == ModuleOf(details.oldRequested)
    requires forall j :: i < j < |modules| ==> ModuleOf(modules[j]) != ModuleOf(modules[i])
    requires details.requested.ModuleComponentSelector?
    ensures rule.Execute(details).target == Some(Target(
      ModuleComponentSelector(details.oldRequested.group, details.oldRequested.name, modules[i].version), Forced))
  {
    ForcedVersionsLastWins(modules, i);
  }

  /** A module absent from every selector is never redirected. */
  lemma UnforcedModuleUnchanged(rule: ModuleForcingResolveRule, modules: seq<ModuleVersionSelector>,
                                details: DependencySubstitution)
    requires rule.forcedModules == Some(ForcedVersions(modules))
    requires forall j :: 0 <= j < |modules| ==> ModuleOf(modules[j]) != ModuleOf(details.oldRequested)
    ensures rule.Execute(details) == details
  {
    ForcedVersionsKeys(modules);
  }
}
