# Module-metadata cache, pattern sets and module forcing — a Dafny model

This project models three parts of the Gradle build tool's dependency-management and file-filtering code, and proves properties of the model.

- **ModuleCache** (`module_cache.dfy`) models `DefaultModuleDescriptorCache`. It is the two-tier cache of module metadata.
  - An index maps a `RevisionKey` (resolver id, encoded revision id) to an entry: changing flag, missing flag, creation time.
  - A descriptor store holds the full descriptors.
  - Recording a new descriptor for a module whose previous entry is changing, and whose publication time moved, first expires every artifact of the old descriptor in the artifact-resolution cache.
  - The pure functions `Lookup`, `ExpiryCheck`, `Record` and `RecordEffects` say what one call does to the abstract `CacheState`. The class `DefaultModuleDescriptorCache` performs the same steps in the source's order and is proved against them.
  - Its fields are the index (`entries`), the store (`descriptors`), the append-only log of expiries (`expired`) and the lazily opened index flag (`cacheOpened`). A ghost trace `effects` records every write in order, so the ordering rule (expiries, then store write, then entry write) is a proved property.
- **PatternSets** (`pattern_set.dfy`) models `PatternSet` as a class.
  - It has four set fields and a case flag. An `IntersectionPatternSet` is a `PatternSet` whose constant `other` reference is not null.
  - A later change to the wrapped set is therefore visible through every intersection that wraps it, as in the source.
  - Specs are opaque identities.
- **ResolutionStrategy** (`module_forcing.dfy`) models `ModuleForcingResolveRule`.
  - The constructor's loop builds the forced-version map.
  - `Execute` is the rule's decision: it returns the substitution details after the single `useTarget` call.
- **JavaTypes** (`java_types.dfy`) holds the Java-level values the three share. These are nullable references (`Option`), the thrown exceptions (`Result`, `Outcome`) and `String.hashCode` in wrapping 32-bit arithmetic.

The model keeps the source's behaviour, including these points where it departs from what a two-tier cache with invalidation would be expected to do:
- The previous entry is looked up under the *new descriptor's own* revision id, not under the revision-id argument.
- The expiry decision uses the *previous* entry's changing flag, not the new `isChanging` argument.
- A previous entry that is changing but yields no descriptor makes `getModuleDescriptor()` return null. This includes a missing entry. The next line then throws a `NullPointerException`, which the model returns as `Thrown(NullPointerException)` with the state unchanged. A missing previous entry therefore does not simply skip invalidation.
- A present entry whose descriptor is absent from the store is not reported as an integrity error. The lookup simply returns a null descriptor.
- The descriptor is stored under its own revision id, but the entry is written under the argument's id. When the two differ, the entry has no stored descriptor (`RecordUnderOtherIdLeavesEntryUnbacked`).
- For the same reason a lookup can be stale. Record `d1` under its own id `m`, then record `d2`, whose own id is not `m`, under `m`. The lookup under `m` then pairs the second call's entry with the first call's descriptor `d1` (`StaleDescriptorAfterSecondRecord`).
- A null revision id is kept in the key as null. The key's `hashCode` then throws. Its `equals` throws when the resolver ids agree, and returns false when they differ; a null revision id is not encoded as a sentinel.
- Recording absence does not remove an old descriptor from the store.

## Model

| member | source | states |
|---|---|---|
| ModuleCache.RevisionKey.Equals | subprojects/core-impl/src/main/groovy/org/gradle/api/internal/artifacts/ivyservice/modulecache/DefaultModuleDescriptorCache.java:138-145 | Returns true iff the revision id is non-null and both components are equal. Throws NullPointerException iff the resolver ids agree and this key's revision id is null. Otherwise returns false. |
| ModuleCache.RevisionKey.HashCode | subprojects/core-impl/src/main/groovy/org/gradle/api/internal/artifacts/ivyservice/modulecache/DefaultModuleDescriptorCache.java:147-150 | Throws exactly when the revision id is null; otherwise returns the XOR of the two string hashes. |
| ModuleCache.EqualKeysHaveEqualHashes | subprojects/core-impl/src/main/groovy/org/gradle/api/internal/artifacts/ivyservice/modulecache/DefaultModuleDescriptorCache.java:138-150 | Keys that compare equal have equal hash codes, and neither hash code throws. |
| ModuleCache.KeyEqualityIsComponentwise | subprojects/core-impl/src/main/groovy/org/gradle/api/internal/artifacts/ivyservice/modulecache/DefaultModuleDescriptorCache.java:144 | With a non-null revision id, equals is exactly equality of the resolver id and of the revision id. |
| ModuleCache.CreateKey | subprojects/core-impl/src/main/groovy/org/gradle/api/internal/artifacts/ivyservice/modulecache/DefaultModuleDescriptorCache.java:117-119 | The key carries the resolver's id, and its revision id is null exactly when the argument is. |
| ModuleCache.CreateKeyInjective | subprojects/core-impl/src/main/groovy/org/gradle/api/internal/artifacts/ivyservice/modulecache/DefaultModuleDescriptorCache.java:133-136 | Two keys are equal iff they come from the same resolver and the same revision id. This is a fact of the chosen representation, in which a revision id is its own encoded string; it says nothing about `encodeToString` itself. |
| ModuleCache.CreateEntry | subprojects/core-impl/src/main/groovy/org/gradle/api/internal/artifacts/ivyservice/modulecache/DefaultModuleDescriptorCache.java:125-127 | A present (not missing) entry with the given changing flag and creation time. |
| ModuleCache.CreateMissingEntry | subprojects/core-impl/src/main/groovy/org/gradle/api/internal/artifacts/ivyservice/modulecache/DefaultModuleDescriptorCache.java:121-123 | A missing entry with the given changing flag and creation time. |
| ModuleCache.Lookup | subprojects/core-impl/src/main/groovy/org/gradle/api/internal/artifacts/ivyservice/modulecache/DefaultModuleDescriptorCache.java:75-85 | A miss iff the key has no entry. A hit carries the key's entry. A missing entry has a null descriptor, and a non-null descriptor is the one stored under the same key. |
| ModuleCache.ExpiryCheck | subprojects/core-impl/src/main/groovy/org/gradle/api/internal/artifacts/ivyservice/modulecache/DefaultModuleDescriptorCache.java:101-109 | Any exception is a NullPointerException. Expiries are issued only when the previous entry under the descriptor's own id is changing, has a descriptor, and that descriptor's publication time differs. |
| ModuleCache.Record | subprojects/core-impl/src/main/groovy/org/gradle/api/internal/artifacts/ivyservice/modulecache/DefaultModuleDescriptorCache.java:87-99 | Recording absence never throws, and any exception is a NullPointerException. On success the key's entry is (isChanging, missing iff the descriptor is null, now), every other entry is kept, and the expiry log only grows. |
| ModuleCache.RecordEffects | subprojects/core-impl/src/main/groovy/org/gradle/api/internal/artifacts/ivyservice/modulecache/DefaultModuleDescriptorCache.java:87-99 | No writes happen iff recording throws. Otherwise the entry write for the argument's key is the last write. |
| ModuleCache.DefaultModuleDescriptorCache.constructor | subprojects/core-impl/src/main/groovy/org/gradle/api/internal/artifacts/ivyservice/modulecache/DefaultModuleDescriptorCache.java:48-56 | The cache starts over the persisted index and store, with the index not yet opened and nothing expired. |
| ModuleCache.DefaultModuleDescriptorCache.GetCache | subprojects/core-impl/src/main/groovy/org/gradle/api/internal/artifacts/ivyservice/modulecache/DefaultModuleDescriptorCache.java:63-68 | After the call the index is open. Only the open flag may change. |
| ModuleCache.DefaultModuleDescriptorCache.GetCachedModuleDescriptor | subprojects/core-impl/src/main/groovy/org/gradle/api/internal/artifacts/ivyservice/modulecache/DefaultModuleDescriptorCache.java:75-85 | The result is Lookup of the current state. Only the open flag may change. |
| ModuleCache.DefaultModuleDescriptorCache.GetModuleDescriptor | subprojects/core-impl/src/main/groovy/org/gradle/api/internal/artifacts/ivyservice/modulecache/DefaultModuleDescriptorCache.java:82 | Returns the descriptor stored under (resolver, revision id), or null when there is none. |
| ModuleCache.DefaultModuleDescriptorCache.PutModuleDescriptor | subprojects/core-impl/src/main/groovy/org/gradle/api/internal/artifacts/ivyservice/modulecache/DefaultModuleDescriptorCache.java:96 | Stores the descriptor under its own revision id and records that write. |
| ModuleCache.DefaultModuleDescriptorCache.PutEntry | subprojects/core-impl/src/main/groovy/org/gradle/api/internal/artifacts/ivyservice/modulecache/DefaultModuleDescriptorCache.java:90-97 | Opens the index, overwrites the entry for the key and records that write. |
| ModuleCache.DefaultModuleDescriptorCache.ExpireCachedArtifactResolution | subprojects/core-impl/src/main/groovy/org/gradle/api/internal/artifacts/ivyservice/modulecache/DefaultModuleDescriptorCache.java:113 | Appends exactly one expiry for (resolver, artifact) to the log. |
| ModuleCache.DefaultModuleDescriptorCache.ExpireArtifacts | subprojects/core-impl/src/main/groovy/org/gradle/api/internal/artifacts/ivyservice/modulecache/DefaultModuleDescriptorCache.java:111-115 | Appends one expiry per artifact of the descriptor, in order. |
| ModuleCache.DefaultModuleDescriptorCache.ExpireArtifactsForChangingModuleIfRequired | subprojects/core-impl/src/main/groovy/org/gradle/api/internal/artifacts/ivyservice/modulecache/DefaultModuleDescriptorCache.java:101-109 | Either throws NullPointerException with nothing expired, or appends exactly the expiries ExpiryCheck selects. |
| ModuleCache.DefaultModuleDescriptorCache.CacheModuleDescriptor | subprojects/core-impl/src/main/groovy/org/gradle/api/internal/artifacts/ivyservice/modulecache/DefaultModuleDescriptorCache.java:87-99 | The new state is Record of the old one, or the old state when it throws. The writes performed are RecordEffects, in order. |
| ModuleCache.LookupWithoutEntry | subprojects/core-impl/src/main/groovy/org/gradle/api/internal/artifacts/ivyservice/modulecache/DefaultModuleDescriptorCache.java:76-79 | A key with no entry is a miss (null). |
| ModuleCache.LookupOfMissingEntry | subprojects/core-impl/src/main/groovy/org/gradle/api/internal/artifacts/ivyservice/modulecache/DefaultModuleDescriptorCache.java:80-84 | A missing entry comes back with a null descriptor. The result does not depend on the descriptor store at all. |
| ModuleCache.LookupOfPresentEntry | subprojects/core-impl/src/main/groovy/org/gradle/api/internal/artifacts/ivyservice/modulecache/DefaultModuleDescriptorCache.java:80-84 | A present entry comes back with the descriptor stored under the same key. |
| ModuleCache.RecordAbsence | subprojects/core-impl/src/main/groovy/org/gradle/api/internal/artifacts/ivyservice/modulecache/DefaultModuleDescriptorCache.java:88-90 | A null descriptor writes a missing entry with the given changing flag and time. The store and the expiry log stay unchanged, and a lookup then returns that missing entry. |
| ModuleCache.RecordDescriptorWrites | subprojects/core-impl/src/main/groovy/org/gradle/api/internal/artifacts/ivyservice/modulecache/DefaultModuleDescriptorCache.java:93-97 | A descriptor is stored under its own id and a present entry is written under the argument's key. The expiry log only grows. |
| ModuleCache.RecordDescriptorThenLookup | subprojects/core-impl/src/main/groovy/org/gradle/api/internal/artifacts/ivyservice/modulecache/DefaultModuleDescriptorCache.java:96-97 | After recording a descriptor under its own id, a lookup returns that descriptor with the new changing flag and time. |
| ModuleCache.RecordThrowsIff | subprojects/core-impl/src/main/groovy/org/gradle/api/internal/artifacts/ivyservice/modulecache/DefaultModuleDescriptorCache.java:102-105 | Recording throws iff the previous entry for the descriptor's id is changing and yields no descriptor. It then performs no writes. |
| ModuleCache.MissingChangingPreviousThrows | subprojects/core-impl/src/main/groovy/org/gradle/api/internal/artifacts/ivyservice/modulecache/DefaultModuleDescriptorCache.java:102-105 | A previous entry that is missing and changing makes recording a descriptor throw NullPointerException. |
| ModuleCache.NoExpiryUnlessPreviousChanging | subprojects/core-impl/src/main/groovy/org/gradle/api/internal/artifacts/ivyservice/modulecache/DefaultModuleDescriptorCache.java:102-103 | With no previous entry, or a non-changing one, recording succeeds and the expiry log is unchanged. |
| ModuleCache.ExpiryIffPublicationTimeChanged | subprojects/core-impl/src/main/groovy/org/gradle/api/internal/artifacts/ivyservice/modulecache/DefaultModuleDescriptorCache.java:104-107 | With a changing previous entry and its descriptor, the old artifacts are expired iff the publication times differ, in either direction. |
| ModuleCache.ExpiriesForEachArtifact | subprojects/core-impl/src/main/groovy/org/gradle/api/internal/artifacts/ivyservice/modulecache/DefaultModuleDescriptorCache.java:111-115 | `ExpiriesFor`, the reference function of the expireArtifacts loop, gives each artifact exactly one expiry for the given resolver, at its own position, so the order is kept. |
| ModuleCache.RecordEffectsOrdered | subprojects/core-impl/src/main/groovy/org/gradle/api/internal/artifacts/ivyservice/modulecache/DefaultModuleDescriptorCache.java:93-97 | A successful descriptor recording performs all expiries first, then the store write, and the entry write last. |
| ModuleCache.ExpiryIgnoresNewChangingFlag | subprojects/core-impl/src/main/groovy/org/gradle/api/internal/artifacts/ivyservice/modulecache/DefaultModuleDescriptorCache.java:101-103 | The new isChanging argument affects neither whether recording throws nor what is expired. |
| ModuleCache.ExpiryKeyedOnDescriptorId | subprojects/core-impl/src/main/groovy/org/gradle/api/internal/artifacts/ivyservice/modulecache/DefaultModuleDescriptorCache.java:102 | The revision-id argument affects neither whether recording throws nor what is expired. |
| ModuleCache.LastWriteWins | subprojects/core-impl/src/main/groovy/org/gradle/api/internal/artifacts/ivyservice/modulecache/DefaultModuleDescriptorCache.java:87-99 | After two recordings under one revision id, a lookup reflects only the second, provided the second descriptor (if any) carries that revision id as its own. |
| ModuleCache.StaleDescriptorAfterSecondRecord | subprojects/core-impl/src/main/groovy/org/gradle/api/internal/artifacts/ivyservice/modulecache/DefaultModuleDescriptorCache.java:82-97 | Lookup reads the store at line 82 and recording writes at lines 96-97. When the second descriptor's own id differs from the key, the lookup returns the second call's present entry together with the first call's descriptor. |
| ModuleCache.RecordPreservesConsistency | subprojects/core-impl/src/main/groovy/org/gradle/api/internal/artifacts/ivyservice/modulecache/DefaultModuleDescriptorCache.java:96-97 | Recording absence, or a descriptor under its own id, keeps every present entry backed by a stored descriptor. |
| ModuleCache.RecordUnderOtherIdLeavesEntryUnbacked | subprojects/core-impl/src/main/groovy/org/gradle/api/internal/artifacts/ivyservice/modulecache/DefaultModuleDescriptorCache.java:96-97 | Recording a descriptor under another id leaves a present entry with no stored descriptor, so its lookup yields a null descriptor. |
| PatternSets.BuildPatternSet | subprojects/core-api/src/main/java/org/gradle/api/tasks/util/PatternSet.java:236-239 | The builder loop yields exactly the set of the given patterns. |
| PatternSets.PatternSet.constructor | subprojects/core-api/src/main/java/org/gradle/api/tasks/util/PatternSet.java:43-51 | A new pattern set is plain, has four empty sets and is case-sensitive. |
| PatternSets.PatternSet.Intersection | subprojects/core-api/src/main/java/org/gradle/api/tasks/util/PatternSet.java:157-160 | An intersection wraps the given set and its own fields start as a new set's. |
| PatternSets.PatternSet.IsEmpty | subprojects/core-api/src/main/java/org/gradle/api/tasks/util/PatternSet.java:149-151 | A set is empty iff all four sets of it and of every set it wraps are empty. |
| PatternSets.IntersectionIsEmpty | subprojects/core-api/src/main/java/org/gradle/api/tasks/util/PatternSet.java:176-178 | An intersection is empty iff its own sets are empty and the wrapped set is empty. |
| PatternSets.NonEmptyAfterInclude | subprojects/core-api/src/main/java/org/gradle/api/tasks/util/PatternSet.java:149-151 | A set holding an include pattern is not empty. |
| PatternSets.PatternSet.Intersect | subprojects/core-api/src/main/java/org/gradle/api/tasks/util/PatternSet.java:133-139 | When this set is empty, returns a fresh plain empty set. Otherwise returns a fresh, non-empty intersection wrapping this set. |
| PatternSets.PatternSet.Include | subprojects/core-api/src/main/java/org/gradle/api/tasks/util/PatternSet.java:230-233 | includes becomes the old includes united with the patterns. No other field changes. |
| PatternSets.PatternSet.IncludeIterable | subprojects/core-api/src/main/java/org/gradle/api/tasks/util/PatternSet.java:235-242 | includes becomes the old includes united with the patterns. No other field changes. |
| PatternSets.PatternSet.SetIncludes | subprojects/core-api/src/main/java/org/gradle/api/tasks/util/PatternSet.java:225-228 | includes becomes exactly the given patterns, and the earlier ones are discarded. |
| PatternSets.PatternSet.IncludeSpecs | subprojects/core-api/src/main/java/org/gradle/api/tasks/util/PatternSet.java:274-277 | includeSpecs becomes the old include specs united with the given ones. No other field changes. |
| PatternSets.PatternSet.IncludeSpec | subprojects/core-api/src/main/java/org/gradle/api/tasks/util/PatternSet.java:244-247 | Adds one spec to includeSpecs only. |
| PatternSets.PatternSet.Exclude | subprojects/core-api/src/main/java/org/gradle/api/tasks/util/PatternSet.java:284-287 | excludes becomes the old excludes united with the patterns. No other field changes. |
| PatternSets.PatternSet.ExcludeIterable | subprojects/core-api/src/main/java/org/gradle/api/tasks/util/PatternSet.java:289-296 | excludes becomes the old excludes united with the patterns. No other field changes. |
| PatternSets.PatternSet.SetExcludes | subprojects/core-api/src/main/java/org/gradle/api/tasks/util/PatternSet.java:257-260 | excludes becomes exactly the given patterns, and the earlier ones are discarded. |
| PatternSets.PatternSet.ExcludeSpecs | subprojects/core-api/src/main/java/org/gradle/api/tasks/util/PatternSet.java:303-306 | excludeSpecs becomes the old exclude specs united with the given ones. No other field changes. |
| PatternSets.PatternSet.ExcludeSpec | subprojects/core-api/src/main/java/org/gradle/api/tasks/util/PatternSet.java:298-301 | Adds one spec to excludeSpecs only. |
| PatternSets.PatternSet.SetCaseSensitive | subprojects/core-api/src/main/java/org/gradle/api/tasks/util/PatternSet.java:267-269 | Sets the case flag and nothing else. |
| PatternSets.PatternSet.CopyFrom | subprojects/core-api/src/main/java/org/gradle/api/tasks/util/PatternSet.java:107-128 | Copying from a plain set copies all five fields, so the copy has the same fields as the source. |
| PatternSets.PatternSet.AddToAntBuilder | subprojects/core-api/src/main/java/org/gradle/api/tasks/util/PatternSet.java:313-320 | Throws UnsupportedOperationException iff some set along the chain has an include or exclude spec. |
| PatternSets.PatternSet.EqualsAsWritten | subprojects/core-api/src/main/java/org/gradle/api/tasks/util/PatternSet.java:180-195 | equals as the source writes it, at lines 63-91 for a plain set and 180-195 for an intersection. A plain set equals any set with the same five fields, whatever its kind. An intersection equals only an intersection with the same five fields. |
| PatternSets.PatternSet.HashCode | subprojects/core-api/src/main/java/org/gradle/api/tasks/util/PatternSet.java:93-101 | A plain set hashes the four sets and the case flag with the 31-multiplier formula in 32-bit arithmetic. An intersection combines its own hash with the wrapped set's hash the same way (lines 197-202). EqualsImpliesEqualHashCodes is the lemma that ties it to equals. |
| PatternSets.PatternSet.Equals | subprojects/core-api/src/main/java/org/gradle/api/tasks/util/PatternSet.java:63-91 | Corrected equals: a true result implies both sets are the same kind and have the same five fields. |
| PatternSets.PlainEqualsIsFieldwise | subprojects/core-api/src/main/java/org/gradle/api/tasks/util/PatternSet.java:74-90 | For two plain sets, equals holds iff the case flag and all four sets are equal. |
| PatternSets.EqualsSymmetric | subprojects/core-api/src/main/java/org/gradle/api/tasks/util/PatternSet.java:63-91 | The corrected equals is symmetric. |
| PatternSets.EqualsImpliesEqualHashCodes | subprojects/core-api/src/main/java/org/gradle/api/tasks/util/PatternSet.java:93-101 | Sets equal under the corrected equals have equal hashCode, for any hash codes of the sets themselves. |
| PatternSets.EqualsAsWrittenIsAsymmetric | subprojects/core-api/src/main/java/org/gradle/api/tasks/util/PatternSet.java:180-195 | As written, a plain set equals an intersection that has the same fields, but the intersection does not equal the plain set. |
| PatternSets.EqualsAsWrittenBreaksHashCode | subprojects/core-api/src/main/java/org/gradle/api/tasks/util/PatternSet.java:197-202 | As written, that plain set hashes to 1 and the intersection to 31 plus the wrapped set's hash. They agree only if the wrapped hash is -30. |
| PatternSets.AsymmetricEqualsExample | subprojects/core-api/src/main/java/org/gradle/api/tasks/util/PatternSet.java:133-139 | Intersecting a set that includes "a" gives an intersection that a new set equals (as written) without the converse. |
| ResolutionStrategy.ModuleForcingResolveRule.constructor | subprojects/dependency-management/src/main/java/org/gradle/api/internal/artifacts/ivyservice/resolutionstrategy/ModuleForcingResolveRule.java:39-49 | An empty collection gives a null map. Otherwise the map is ForcedVersions of the selectors in iteration order. |
| ResolutionStrategy.ModuleForcingResolveRule.Execute | subprojects/dependency-management/src/main/java/org/gradle/api/internal/artifacts/ivyservice/resolutionstrategy/ModuleForcingResolveRule.java:51-60 | Only the target changes. Details not redirected are returned unchanged. Redirected ones get target (group, name, forced version) with reason FORCED. |
| ResolutionStrategy.ForcedVersionsKeys | subprojects/dependency-management/src/main/java/org/gradle/api/internal/artifacts/ivyservice/resolutionstrategy/ModuleForcingResolveRule.java:42-45 | `ForcedVersions`, the reference function of the constructor's loop, has as keys exactly the (group, name) pairs of the selectors. |
| ResolutionStrategy.ForcedVersionsLastWins | subprojects/dependency-management/src/main/java/org/gradle/api/internal/artifacts/ivyservice/resolutionstrategy/ModuleForcingResolveRule.java:42-45 | In `ForcedVersions`, a module's forced version is that of the last selector for it: a later selector overwrites. |
| ResolutionStrategy.EmptyRuleIsNoOp | subprojects/dependency-management/src/main/java/org/gradle/api/internal/artifacts/ivyservice/resolutionstrategy/ModuleForcingResolveRule.java:53-55 | With no forced modules, execute leaves every input unchanged. |
| ResolutionStrategy.ExecuteKeysOnOldRequested | subprojects/dependency-management/src/main/java/org/gradle/api/internal/artifacts/ivyservice/resolutionstrategy/ModuleForcingResolveRule.java:56 | The forced target depends on oldRequested only: any two module requests with the same oldRequested that the rule redirects get the same target. |
| ResolutionStrategy.NonModuleRequestUnchanged | subprojects/dependency-management/src/main/java/org/gradle/api/internal/artifacts/ivyservice/resolutionstrategy/ModuleForcingResolveRule.java:57 | A request that is not a module selector is left unchanged. |
| ResolutionStrategy.ExecuteForcesLastSelectorVersion | subprojects/dependency-management/src/main/java/org/gradle/api/internal/artifacts/ivyservice/resolutionstrategy/ModuleForcingResolveRule.java:56-59 | A forced module is redirected to its own group and name, at the last selector's version, with reason FORCED. |
| ResolutionStrategy.UnforcedModuleUnchanged | subprojects/dependency-management/src/main/java/org/gradle/api/internal/artifacts/ivyservice/resolutionstrategy/ModuleForcingResolveRule.java:57 | A module named by no selector is left unchanged. |

## Findings

| source | as written | input that shows it | evidently intended | confidence | as-written member | corrected member |
|---|---|---|---|---|---|---|
| subprojects/core-api/src/main/java/org/gradle/api/tasks/util/PatternSet.java:68-70 | `PatternSet.equals` accepts any `PatternSet` (instanceof). `IntersectionPatternSet.equals` requires the same class (line 185). So equality is not symmetric, and the two hashCodes of "equal" sets differ. | `p = new PatternSet(); r = new PatternSet(); r.include("a"); q = r.intersect()`: `p.equals(q)` is true, `q.equals(p)` is false, `p.hashCode()` is 1 and `q.hashCode()` is 89581569. | equals is symmetric and consistent with hashCode, as java.lang.Object requires. | medium; not executed | PatternSets.PatternSet.EqualsAsWritten, PatternSets.EqualsAsWrittenIsAsymmetric, PatternSets.EqualsAsWrittenBreaksHashCode | PatternSets.PatternSet.Equals, PatternSets.EqualsSymmetric, PatternSets.EqualsImpliesEqualHashCodes |

## Left out

- On-disk persistence and locking (`cacheLockingManager.createCache`, `ModuleDescriptorFileStore`): the index and the store are in-memory maps. Opening the index is a flag. Storage I/O failures are not modelled.
- Concurrency: the source assumes the cache is already locked (comment at line 95), and the model is sequential.
- `TimeProvider`: the current time is the `now` parameter of `CacheModuleDescriptor`.
- `DefaultCachedModuleDescriptor`'s age computation is not modelled; a lookup returns the entry and the descriptor.
- `WharfResolverMetadata` id derivation and `ModuleRevisionId.encodeToString` are external. A resolver is represented by its id and a revision id by its encoded string, so the encoding is injective by construction.
- `ModuleDescriptorStore` is external. The model takes `getModuleDescriptor` to return null when nothing is stored for the key.
- `setSettings` and the `IvySettings` it injects, and SLF4J logging: plumbing with no effect on the cache's state.
- JavaTypes.StringHash: each character counts as one UTF-16 code unit. This matches `String.hashCode` only for characters in the Basic Multilingual Plane.
- PatternSets.PatternSet.CopyFrom: models only the plain branch (it requires a plain source). The intersection branch builds a spec through `getAsSpec`, which is not part of this model.
- `getAsSpec`, `getAsIncludeSpec`, `getAsExcludeSpec` (`PatternSpecFactory`) and the Ant output of `PatternSetAntBuilderDelegate`: foreign calls. `AddToAntBuilder` returns the node it would build from, not Ant output.
- The `NotationParser` conversion in `include(Iterable)` and `exclude(Iterable)`: the inputs are already strings. Closure-to-spec conversion (`include(Closure)`, `exclude(Closure)`) is foreign.
- The fluent `return this` of the mutators is not modelled.
- ModuleCache.RevisionKey.Equals: takes only a non-null `RevisionKey`. The source returns false for a null argument or one of another class (lines 140-142); that path is not modelled.
- PatternSets.PatternSet.Equals and PatternSets.PatternSet.EqualsAsWritten: take only a non-null `PatternSet`. The source returns false for a null argument or a non-`PatternSet` (lines 68-70 and 185); that path is not modelled.
- ModuleCache.ExpiryCheck: `resolvedPublicationTime` is an `int`, which cannot be null. A null `getResolvedPublicationDate()` on either descriptor throws a `NullPointerException` at line 105 in the source; the model does not capture that exception.
- PatternSets.PatternSet.Include, IncludeIterable, SetIncludes, Exclude, ExcludeIterable, SetExcludes, IncludeSpecs, IncludeSpec, ExcludeSpecs, ExcludeSpec: patterns and specs are never null. The source's `ImmutableSet.copyOf` and builder throw a `NullPointerException` on a null element (lines 231, 238, 275, 285, 292, 304); that exception is not modelled.
- PatternSets.PatternSet.HashCode: `ImmutableSet.hashCode` of the four sets is taken as a function parameter, not computed.
- `ImmutableModuleIdentifierFactory` interning and `DefaultImmutableVersionConstraint`: a module identifier is its (group, name) pair and a forced version its preferred-version string.
- The substitution details object is updated in place by `useTarget`; the model returns the updated details as a value.
- The forced-module collection is an ordered sequence (its iteration order).
- `DefaultNativeSourceSet`, `CompileSpecContainer` and `GccVersionResult` are not part of this model: they are container wrappers and an interface with no logic of their own.
