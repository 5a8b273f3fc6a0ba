/**
 * The module-metadata cache of the dependency resolver
 * (DefaultModuleDescriptorCache). An index maps a (resolver, revision) key to
 * a small entry (changing flag, missing flag, creation time); the full module
 * descriptor lives in a separate descriptor store; and re-recording a changing
 * module whose publication time moved expires the artifact resolutions cached
 * for the previous descriptor in the artifact-resolution cache.
 *
 * The pure functions (Lookup, ExpiryCheck, Record, RecordEffects) say what one
 * call does to the abstract CacheState; the class DefaultModuleDescriptorCache
 * performs the same steps in the source's order and is proved against them;
 * the lemmas state what the source promises about the functions.
 */
module ModuleCache {
  import opened JavaTypes

  /** A configured resolver, represented by the id WharfResolverMetadata derives for it. */
  datatype DependencyResolver = DependencyResolver(wharfId: string)

  /** A module revision id, represented by the string encodeToString yields for it. */
  datatype ModuleRevisionId = ModuleRevisionId(encoded: string)

  /** The id of one artifact declared by a module descriptor. */
  datatype ArtifactId = ArtifactId(encoded: string)

  /** A resolved module descriptor: its own revision id, publication time and artifacts. */
  datatype ModuleDescriptor = ModuleDescriptor(
    moduleRevisionId: ModuleRevisionId,
    resolvedPublicationTime: int,
    allArtifacts: seq<ArtifactId>)

  /** The index entry stored per key (ModuleDescriptorCacheEntry). */
  datatype CacheEntry = CacheEntry(isChanging: bool, isMissing: bool, createdAt: int)

  /** What a lookup hands back (DefaultCachedModuleDescriptor): the entry and the descriptor, null when not loaded. */
  datatype CachedModuleDescriptor = CachedModuleDescriptor(entry: CacheEntry, descriptor: Option<ModuleDescriptor>)
  {
    predicate IsChangingModule() { entry.isChanging }
  }

  /** One call of expireCachedArtifactResolution(resolver, artifactId) on the artifact-resolution cache. */
  datatype Expiry = Expiry(resolver: DependencyResolver, artifactId: ArtifactId)

  /** The key of the index: the resolver id and the encoded revision id, which may be null. */
  datatype RevisionKey = RevisionKey(resolverId: string, moduleRevisionId: Option<string>)
  {
    /**
     * RevisionKey.equals(other) for another key: the resolver ids are compared
     * first, and a null revision id on this side then throws.
     */
    function Equals(other: RevisionKey): (r: Result<bool>)
      ensures r == Value(true) <==> moduleRevisionId.Some? && this == other
      ensures r.Thrown? <==> resolverId == other.resolverId && moduleRevisionId.None?
      ensures r.Thrown? ==> r.exception == NullPointerException
    {
      if resolverId != other.resolverId then Value(false)
      else if moduleRevisionId.None? then Thrown(NullPointerException)
      else Value(moduleRevisionId == other.moduleRevisionId)
    }

    /** RevisionKey.hashCode: the XOR of the two string hashes; throws for a null revision id. */
    function HashCode(): (r: Result<bv32>)
      ensures r.Thrown? <==> moduleRevisionId.None?
    {
      if moduleRevisionId.None? then Thrown(NullPointerException)
      else Value(StringHash(resolverId) ^ StringHash(moduleRevisionId.value))
    }
  }

  /** createKey / the RevisionKey constructor. */
  function CreateKey(resolver: DependencyResolver, mrid: Option<ModuleRevisionId>): (r: RevisionKey)
    ensures r.resolverId == resolver.wharfId
    ensures r.moduleRevisionId.None? <==> mrid.None?
  {
    RevisionKey(resolver.wharfId, if mrid.None? then None else Some(mrid.value.encoded))
  }

  /** createEntry: a present entry with the changing flag, created now. */
  function CreateEntry(changing: bool, now: int): (r: CacheEntry)
    ensures !r.isMissing && r.isChanging == changing && r.createdAt == now
  {
    CacheEntry(changing, false, now)
  }

  /** createMissingEntry: a missing entry with the changing flag, created now. */
  function CreateMissingEntry(changing: bool, now: int): (r: CacheEntry)
    ensures r.isMissing && r.isChanging == changing && r.createdAt == now
  {
    CacheEntry(changing, true, now)
  }

  /** The three stores the cache reads and writes. */
  datatype CacheState = CacheState(
    entries: map<RevisionKey, CacheEntry>,
    descriptors: map<RevisionKey, ModuleDescriptor>,
    expired: seq<Expiry>)

  /** One write the cache performs, in the order it performs them. */
  datatype Effect =
    | ArtifactExpired(expiry: Expiry)
    | DescriptorStored(storeKey: RevisionKey)
    | EntryWritten(entryKey: RevisionKey)

  /** ModuleDescriptorStore.getModuleDescriptor: null when the store holds nothing for the key. */
  function StoredDescriptor(s: CacheState, resolver: DependencyResolver, mrid: Option<ModuleRevisionId>): Option<ModuleDescriptor>
  {
    var key := CreateKey(resolver, mrid);
    if key in s.descriptors then Some(s.descriptors[key]) else None
  }

  /** getCachedModuleDescriptor. */
  function Lookup(s: CacheState, resolver: DependencyResolver, mrid: Option<ModuleRevisionId>): (r: Option<CachedModuleDescriptor>)
    ensures r.None? <==> CreateKey(resolver, mrid) !in s.entries
    ensures r.Some? ==> r.value.entry == s.entries[CreateKey(resolver, mrid)]
    ensures r.Some? && r.value.entry.isMissing ==> r.value.descriptor.None?
    ensures r.Some? && r.value.descriptor.Some? ==>
      CreateKey(resolver, mrid) in s.descriptors && s.descriptors[CreateKey(resolver, mrid)] == r.value.descriptor.value
  {
    var key := CreateKey(resolver, mrid);
    if key !in s.entries then None
    else
      var entry := s.entries[key];
      Some(CachedModuleDescriptor(entry, if entry.isMissing then None else StoredDescriptor(s, resolver, mrid)))
  }

  /** The expiries of expireArtifacts: one per artifact, in the descriptor's order. */
  function ExpiriesFor(resolver: DependencyResolver, artifacts: seq<ArtifactId>): seq<Expiry>
  {
    if artifacts == [] then []
    else ExpiriesFor(resolver, artifacts[..|artifacts| - 1]) + [Expiry(resolver, artifacts[|artifacts| - 1])]
  }

  function ExpiryEffects(expiries: seq<Expiry>): seq<Effect>
  {
    if expiries == [] then []
    else ExpiryEffects(expiries[..|expiries| - 1]) + [ArtifactExpired(expiries[|expiries| - 1])]
  }

  /**
   * expireArtifactsForChangingModuleIfRequired: the expiries to issue, or the
   * NullPointerException raised when the previous entry is changing but no
   * previous descriptor could be loaded. The previous entry is looked up under
   * the new descriptor's own revision id.
   */
  function ExpiryCheck(s: CacheState, resolver: DependencyResolver, newDescriptor: ModuleDescriptor): (r: Result<seq<Expiry>>)
    ensures r.Thrown? ==> r.exception == NullPointerException
    ensures var prev := Lookup(s, resolver, Some(newDescriptor.moduleRevisionId));
      r.Value? && r.value != [] ==>
        && prev.Some? && prev.value.IsChangingModule() && prev.value.descriptor.Some?
        && prev.value.descriptor.value.resolvedPublicationTime != newDescriptor.resolvedPublicationTime
  {
    var cached := Lookup(s, resolver, Some(newDescriptor.moduleRevisionId));
    if cached.Some? && cached.value.IsChangingModule() then
      match cached.value.descriptor
      case None => Thrown(NullPointerException)
      case Some(oldDescriptor) =>
        Value(if oldDescriptor.resolvedPublicationTime != newDescriptor.resolvedPublicationTime
              then ExpiriesFor(resolver, oldDescriptor.allArtifacts)
              else [])
    else Value([])
  }

  /** cacheModuleDescriptor: the state after the call, or the exception it throws (state then unchanged). */
  function Record(s: CacheState, resolver: DependencyResolver, mrid: Option<ModuleRevisionId>,
                  descriptor: Option<ModuleDescriptor>, isChanging: bool, now: int): (r: Result<CacheState>)
    ensures descriptor.None? ==> r.Value?
    ensures r.Thrown? ==> r.exception == NullPointerException
    ensures r.Value? ==>
      && CreateKey(resolver, mrid) in r.value.entries
      && r.value.entries[CreateKey(resolver, mrid)] == CacheEntry(isChanging, descriptor.None?, now)
      && (forall k :: k in s.entries && k != CreateKey(resolver, mrid) ==> k in r.value.entries && r.value.entries[k] == s.entries[k])
    ensures r.Value? ==> |r.value.expired| >= |s.expired| && r.value.expired[..|s.expired|] == s.expired
  {
    var key := CreateKey(resolver, mrid);
    match descriptor
    case None => Value(s.(entries := s.entries[key := CreateMissingEntry(isChanging, now)]))
    case Some(d) =>
      match ExpiryCheck(s, resolver, d)
      case Thrown(e) => Thrown(e)
      case Value(expiries) =>
        Value(CacheState(
          s.entries[key := CreateEntry(isChanging, now)],
          s.descriptors[CreateKey(resolver, Some(d.moduleRevisionId)) := d],
          s.expired + expiries))
  }

  /** The writes cacheModuleDescriptor performs, in order. */
  function RecordEffects(s: CacheState, resolver: DependencyResolver, mrid: Option<ModuleRevisionId>,
                         descriptor: Option<ModuleDescriptor>, isChanging: bool, now: int): (r: seq<Effect>)
    ensures r == [] <==> Record(s, resolver, mrid, descriptor, isChanging, now).Thrown?
    ensures r != [] ==> r[|r| - 1] == EntryWritten(CreateKey(resolver, mrid))
  {
    var key := CreateKey(resolver, mrid);
    match descriptor
    case None => [EntryWritten(key)]
    case Some(d) =>
      match ExpiryCheck(s, resolver, d)
      case Thrown(_) => []
      case Value(expiries) =>
        ExpiryEffects(expiries) + [DescriptorStored(CreateKey(resolver, Some(d.moduleRevisionId))), EntryWritten(key)]
  }

  /** Every present (not missing) entry has a descriptor stored under the same key. */
  ghost predicate Consistent(s: CacheState)
  {
    forall k :: k in s.entries && !s.entries[k].isMissing ==> k in s.descriptors
  }

  class DefaultModuleDescriptorCache {
    /** Whether the lazily created `cache` field has been assigned. */
    var cacheOpened: bool
    /** The persistent index behind `cache`. */
    var entries: map<RevisionKey, CacheEntry>
    /** The contents of moduleDescriptorStore. */
    var descriptors: map<RevisionKey, ModuleDescriptor>
    /** The calls made on artifactResolutionCache, oldest first. */
    var expired: seq<Expiry>
    /** Every write performed so far, in order. */
    ghost var effects: seq<Effect>

    function State(): CacheState
      reads this
    {
      CacheState(entries, descriptors, expired)
    }

    /** The cache over what is already persisted; the index is not opened yet. */
    constructor (persistedEntries: map<RevisionKey, CacheEntry>, persistedDescriptors: map<RevisionKey, ModuleDescriptor>)
      ensures !cacheOpened && entries == persistedEntries && descriptors == persistedDescriptors
      ensures expired == [] && effects == []
    {
      cacheOpened := false;
      entries := persistedEntries;
      descriptors := persistedDescriptors;
      expired := [];
      effects := [];
    }

    /** getCache: opens the index on first use; later calls reuse it. */
    method GetCache()
      modifies this`cacheOpened
      ensures cacheOpened
    {
      if !cacheOpened {
        cacheOpened := true;
      }
    }

    /** getCachedModuleDescriptor. */
    method GetCachedModuleDescriptor(resolver: DependencyResolver, mrid: Option<ModuleRevisionId>)
      returns (r: Option<CachedModuleDescriptor>)
      modifies this`cacheOpened
      ensures cacheOpened
      ensures r == Lookup(State(), resolver, mrid)
    {
      GetCache();
      var key := CreateKey(resolver, mrid);
      if key !in entries {
        return None;
      }
      var entry := entries[key];
      var descriptor: Option<ModuleDescriptor> := None;
      if !entry.isMissing {
        descriptor := GetModuleDescriptor(resolver, mrid);
      }
      r := Some(CachedModuleDescriptor(entry, descriptor));
    }

    /** ModuleDescriptorStore.getModuleDescriptor. */
    method GetModuleDescriptor(resolver: DependencyResolver, mrid: Option<ModuleRevisionId>)
      returns (d: Option<ModuleDescriptor>)
      ensures d == StoredDescriptor(State(), resolver, mrid)
    {
      var key := CreateKey(resolver, mrid);
      d := if key in descriptors then Some(descriptors[key]) else None;
    }

    /** ModuleDescriptorStore.putModuleDescriptor: stored under the descriptor's own revision id. */
    method PutModuleDescriptor(resolver: DependencyResolver, descriptor: ModuleDescriptor)
      modifies this`descriptors, this`effects
      ensures descriptors == old(descriptors)[CreateKey(resolver, Some(descriptor.moduleRevisionId)) := descriptor]
      ensures effects == old(effects) + [DescriptorStored(CreateKey(resolver, Some(descriptor.moduleRevisionId)))]
    {
      var key := CreateKey(resolver, Some(descriptor.moduleRevisionId));
      descriptors := descriptors[key := descriptor];
      effects := effects + [DescriptorStored(key)];
    }

    /** getCache().put(key, entry). */
    method PutEntry(key: RevisionKey, entry: CacheEntry)
      modifies this`cacheOpened, this`entries, this`effects
      ensures cacheOpened
      ensures entries == old(entries)[key := entry]
      ensures effects == old(effects) + [EntryWritten(key)]
    {
      GetCache();
      entries := entries[key := entry];
      effects := effects + [EntryWritten(key)];
    }

    /** ArtifactResolutionCache.expireCachedArtifactResolution. */
    method ExpireCachedArtifactResolution(resolver: DependencyResolver, artifactId: ArtifactId)
      modifies this`expired, this`effects
      ensures expired == old(expired) + [Expiry(resolver, artifactId)]
      ensures effects == old(effects) + [ArtifactExpired(Expiry(resolver, artifactId))]
    {
      expired := expired + [Expiry(resolver, artifactId)];
      effects := effects + [ArtifactExpired(Expiry(resolver, artifactId))];
    }

    /** expireArtifacts: one expiry per artifact of the descriptor, in order. */
    method ExpireArtifacts(resolver: DependencyResolver, descriptor: ModuleDescriptor)
      modifies this`expired, this`effects
      ensures expired == old(expired) + ExpiriesFor(resolver, descriptor.allArtifacts)
      ensures effects == old(effects) + ExpiryEffects(ExpiriesFor(resolver, descriptor.allArtifacts))
    {
      var artifacts := descriptor.allArtifacts;
      for i := 0 to |artifacts|
        invariant expired == old(expired) + ExpiriesFor(resolver, artifacts[..i])
        invariant effects == old(effects) + ExpiryEffects(ExpiriesFor(resolver, artifacts[..i]))
      {
        ExpiresOneMore(resolver, artifacts, i);
        ExpiryEffectsSnoc(ExpiriesFor(resolver, artifacts[..i]), Expiry(resolver, artifacts[i]));
        ExpireCachedArtifactResolution(resolver, artifacts[i]);
      }
      assert artifacts[..|artifacts|] == artifacts;
    }

    /** expireArtifactsForChangingModuleIfRequired. */
    method ExpireArtifactsForChangingModuleIfRequired(resolver: DependencyResolver, newDescriptor: ModuleDescriptor)
      returns (outcome: Outcome)
      modifies this`cacheOpened, this`expired, this`effects
      ensures cacheOpened
      ensures match ExpiryCheck(old(State()), resolver, newDescriptor)
        case Thrown(e) => outcome == Threw(e) && expired == old(expired) && effects == old(effects)
        case Value(expiries) =>
          outcome == Normal && expired == old(expired) + expiries && effects == old(effects) + ExpiryEffects(expiries)
    {
      var cached := GetCachedModuleDescriptor(resolver, Some(newDescriptor.moduleRevisionId));
      if cached.Some? && cached.value.IsChangingModule() {
        var oldDescriptor := cached.value.descriptor;
        if oldDescriptor.None? {
          // oldDescriptor.getResolvedPublicationDate() on a null descriptor
          return Threw(NullPointerException);
        }
        if oldDescriptor.value.resolvedPublicationTime != newDescriptor.resolvedPublicationTime {
          ExpireArtifacts(resolver, oldDescriptor.value);
        }
      }
      outcome := Normal;
    }

    /** cacheModuleDescriptor: a null descriptor records absence; otherwise expire, store, then write the entry. */
    method CacheModuleDescriptor(resolver: DependencyResolver, mrid: Option<ModuleRevisionId>,
                                 descriptor: Option<ModuleDescriptor>, isChanging: bool, now: int)
      returns (outcome: Outcome)
      modifies this
      ensures cacheOpened
      ensures match Record(old(State()), resolver, mrid, descriptor, isChanging, now)
        case Value(s) => outcome == Normal && State() == s
        case Thrown(e) => outcome == Threw(e) && State() == old(State())
      ensures effects == old(effects) + RecordEffects(old(State()), resolver, mrid, descriptor, isChanging, now)
    {
      if descriptor.None? {
        PutEntry(CreateKey(resolver, mrid), CreateMissingEntry(isChanging, now));
        return Normal;
      }
      var d := descriptor.value;
      outcome := ExpireArtifactsForChangingModuleIfRequired(resolver, d);
      if outcome.Threw? {
        return;
      }
      PutModuleDescriptor(resolver, d);
      PutEntry(CreateKey(resolver, mrid), CreateEntry(isChanging, now));
    }
  }

  // ---------------------------------------------------------------------------
  // Helper facts about the expiry sequences.

  lemma ExpiresOneMore(resolver: DependencyResolver, artifacts: seq<ArtifactId>, i: nat)
    requires i < |artifacts|
    ensures ExpiriesFor(resolver, artifacts[..i + 1]) == ExpiriesFor(resolver, artifacts[..i]) + [Expiry(resolver, artifacts[i])]
  {
    assert artifacts[..i + 1][..i] == artifacts[..i];
  }

  lemma ExpiryEffectsSnoc(expiries: seq<Expiry>, e: Expiry)
    ensures ExpiryEffects(expiries + [e]) == ExpiryEffects(expiries) + [ArtifactExpired(e)]
  {
    assert (expiries + [e])[..|expiries|] == expiries;
  }

  // ---------------------------------------------------------------------------
  // RevisionKey

  /** Keys that compare equal have equal hash codes, and neither throws. */
  lemma EqualKeysHaveEqualHashes(a: RevisionKey, b: RevisionKey)
    requires a.Equals(b) == Value(true)
    ensures a.HashCode().Value? && a.HashCode() == b.HashCode()
  {
  }

  /** Two keys with non-null revision ids are equal exactly when both components are. */
  lemma KeyEqualityIsComponentwise(a: RevisionKey, b: RevisionKey)
    requires a.moduleRevisionId.Some?
    ensures a.Equals(b) == Value(a.resolverId == b.resolverId && a.moduleRevisionId == b.moduleRevisionId)
  {
  }

  /** Distinct (resolver id, revision id) pairs give distinct keys. */
  lemma CreateKeyInjective(r1: DependencyResolver, m1: Option<ModuleRevisionId>, r2: DependencyResolver, m2: Option<ModuleRevisionId>)
    ensures CreateKey(r1, m1) == CreateKey(r2, m2) <==> r1 == r2 && m1 == m2
  {
  }

  // ---------------------------------------------------------------------------
  // Lookup

  /** A key without an entry is a cache miss. */
  lemma LookupWithoutEntry(s: CacheState, resolver: DependencyResolver, mrid: Option<ModuleRevisionId>)
    requires CreateKey(resolver, mrid) !in s.entries
    ensures Lookup(s, resolver, mrid) == None
  {
  }

  /**
   * A missing entry comes back with a null descriptor, whatever the descriptor
   * store holds: the store is never consulted.
   */
  lemma LookupOfMissingEntry(s: CacheState, store: map<RevisionKey, ModuleDescriptor>,
                             resolver: DependencyResolver, mrid: Option<ModuleRevisionId>)
    requires CreateKey(resolver, mrid) in s.entries && s.entries[CreateKey(resolver, mrid)].isMissing
    ensures Lookup(s, resolver, mrid) == Some(CachedModuleDescriptor(s.entries[CreateKey(resolver, mrid)], None))
    ensures Lookup(s.(descriptors := store), resolver, mrid) == Lookup(s, resolver, mrid)
  {
  }

  /** A present entry comes back with the descriptor stored under the same key. */
  lemma LookupOfPresentEntry(s: CacheState, resolver: DependencyResolver, mrid: Option<ModuleRevisionId>)
    requires CreateKey(resolver, mrid) in s.entries && !s.entries[CreateKey(resolver, mrid)].isMissing
    ensures Lookup(s, resolver, mrid) == Some(CachedModuleDescriptor(s.entries[CreateKey(resolver, mrid)], StoredDescriptor(s, resolver, mrid)))
  {
  }

  // ---------------------------------------------------------------------------
  // Recording

  /**
   * Recording absence writes a missing entry with the given changing flag and
   * creation time and touches neither the descriptor store nor the expiry log.
   */
  lemma RecordAbsence(s: CacheState, resolver: DependencyResolver, mrid: Option<ModuleRevisionId>, isChanging: bool, now: int)
    ensures Record(s, resolver, mrid, None, isChanging, now).Value?
    ensures var t := Record(s, resolver, mrid, None, isChanging, now).value;
      && t.descriptors == s.descriptors
      && t.expired == s.expired
      && t.entries == s.entries[CreateKey(resolver, mrid) := CacheEntry(isChanging, true, now)]
      && Lookup(t, resolver, mrid) == Some(CachedModuleDescriptor(CacheEntry(isChanging, true, now), None))
    ensures RecordEffects(s, resolver, mrid, None, isChanging, now) == [EntryWritten(CreateKey(resolver, mrid))]
  {
  }

  /**
   * Recording a descriptor that does not throw stores it under its own id,
   * writes a present entry under the argument's key, and appends only expiries.
   */
  lemma RecordDescriptorWrites(s: CacheState, resolver: DependencyResolver, mrid: Option<ModuleRevisionId>,
                               d: ModuleDescriptor, isChanging: bool, now: int)
    requires Record(s, resolver, mrid, Some(d), isChanging, now).Value?
    ensures var t := Record(s, resolver, mrid, Some(d), isChanging, now).value;
      && t.descriptors == s.descriptors[CreateKey(resolver, Some(d.moduleRevisionId)) := d]
      && t.entries == s.entries[CreateKey(resolver, mrid) := CacheEntry(isChanging, false, now)]
      && |t.expired| >= |s.expired| && t.expired[..|s.expired|] == s.expired
  {
  }

  /**
   * When the argument id is the descriptor's own id, a following lookup returns
   * that descriptor with the new changing flag and time.
   */
  lemma RecordDescriptorThenLookup(s: CacheState, resolver: DependencyResolver, d: ModuleDescriptor, isChanging: bool, now: int)
    requires Record(s, resolver, Some(d.moduleRevisionId), Some(d), isChanging, now).Value?
    ensures Lookup(Record(s, resolver, Some(d.moduleRevisionId), Some(d), isChanging, now).value, resolver, Some(d.moduleRevisionId))
         == Some(CachedModuleDescriptor(CacheEntry(isChanging, false, now), Some(d)))
  {
  }

  /**
   * Recording throws exactly when the previous entry for the descriptor's own
   * id is changing but comes back without a descriptor, and then writes nothing.
   */
  lemma RecordThrowsIff(s: CacheState, resolver: DependencyResolver, mrid: Option<ModuleRevisionId>,
                        d: ModuleDescriptor, isChanging: bool, now: int)
    ensures var prev := Lookup(s, resolver, Some(d.moduleRevisionId));
      Record(s, resolver, mrid, Some(d), isChanging, now).Thrown?
      <==> prev.Some? && prev.value.entry.isChanging && prev.value.descriptor.None?
    ensures Record(s, resolver, mrid, Some(d), isChanging, now).Thrown? ==>
      && Record(s, resolver, mrid, Some(d), isChanging, now).exception == NullPointerException
      && RecordEffects(s, resolver, mrid, Some(d), isChanging, now) == []
  {
  }

  /** A changing previous entry that records absence makes the next descriptor recording throw. */
  lemma MissingChangingPreviousThrows(s: CacheState, resolver: DependencyResolver, mrid: Option<ModuleRevisionId>,
                                      d: ModuleDescriptor, isChanging: bool, now: int)
    requires var key := CreateKey(resolver, Some(d.moduleRevisionId));
      key in s.entries && s.entries[key].isChanging && s.entries[key].isMissing
    ensures Record(s, resolver, mrid, Some(d), isChanging, now) == Thrown(NullPointerException)
  {
  }

  /** Without a previous entry, or with a non-changing one, nothing is expired. */
  lemma NoExpiryUnlessPreviousChanging(s: CacheState, resolver: DependencyResolver, mrid: Option<ModuleRevisionId>,
                                       d: ModuleDescriptor, isChanging: bool, now: int)
    requires var key := CreateKey(resolver, Some(d.moduleRevisionId));
      key !in s.entries || !s.entries[key].isChanging
    ensures Record(s, resolver, mrid, Some(d), isChanging, now).Value?
    ensures Record(s, resolver, mrid, Some(d), isChanging, now).value.expired == s.expired
  {
  }

  /**
   * With a changing previous entry and its descriptor, the old descriptor's
   * artifacts are expired exactly when the publication times differ.
   */
  lemma ExpiryIffPublicationTimeChanged(s: CacheState, resolver: DependencyResolver, mrid: Option<ModuleRevisionId>,
                                        d: ModuleDescriptor, previous: ModuleDescriptor, isChanging: bool, now: int)
    requires Lookup(s, resolver, Some(d.moduleRevisionId)).Some?
    requires Lookup(s, resolver, Some(d.moduleRevisionId)).value.entry.isChanging
    requires Lookup(s, resolver, Some(d.moduleRevisionId)).value.descriptor == Some(previous)
    ensures Record(s, resolver, mrid, Some(d), isChanging, now).Value?
    ensures Record(s, resolver, mrid, Some(d), isChanging, now).value.expired
         == s.expired + (if previous.resolvedPublicationTime != d.resolvedPublicationTime
                         then ExpiriesFor(resolver, previous.allArtifacts) else [])
  {
  }

  /** Each artifact gets exactly one expiry, for the given resolver, in the descriptor's order. */
  lemma {:induction false} ExpiriesForEachArtifact(resolver: DependencyResolver, artifacts: seq<ArtifactId>)
    ensures |ExpiriesFor(resolver, artifacts)| == |artifacts|
    ensures forall k :: 0 <= k < |artifacts| ==> ExpiriesFor(resolver, artifacts)[k] == Expiry(resolver, artifacts[k])
  {
    if artifacts != [] {
      ExpiriesForEachArtifact(resolver, artifacts[..|artifacts| - 1]);
    }
  }

  lemma {:induction false} ExpiryEffectsAt(expiries: seq<Expiry>)
    ensures |ExpiryEffects(expiries)| == |expiries|
    ensures forall k :: 0 <= k < |expiries| ==> ExpiryEffects(expiries)[k] == ArtifactExpired(expiries[k])
  {
    if expiries != [] {
      ExpiryEffectsAt(expiries[..|expiries| - 1]);
    }
  }

  /**
   * The writes of a successful descriptor recording: first every expiry, then
   * the descriptor-store write, and last the entry write.
   */
  lemma RecordEffectsOrdered(s: CacheState, resolver: DependencyResolver, mrid: Option<ModuleRevisionId>,
                             d: ModuleDescriptor, isChanging: bool, now: int)
    requires ExpiryCheck(s, resolver, d).Value?
    ensures var expiries := ExpiryCheck(s, resolver, d).value;
      var effects := RecordEffects(s, resolver, mrid, Some(d), isChanging, now);
      && |effects| == |expiries| + 2
      && (forall k :: 0 <= k < |expiries| ==> effects[k] == ArtifactExpired(expiries[k]))
      && effects[|expiries|] == DescriptorStored(CreateKey(resolver, Some(d.moduleRevisionId)))
      && effects[|expiries| + 1] == EntryWritten(CreateKey(resolver, mrid))
  {
    ExpiryEffectsAt(ExpiryCheck(s, resolver, d).value);
  }

  /** The expiry decision uses the previous entry's changing flag, not the new one. */
  lemma ExpiryIgnoresNewChangingFlag(s: CacheState, resolver: DependencyResolver, mrid: Option<ModuleRevisionId>,
                                     d: ModuleDescriptor, now: int)
    ensures Record(s, resolver, mrid, Some(d), true, now).Thrown? == Record(s, resolver, mrid, Some(d), false, now).Thrown?
    ensures Record(s, resolver, mrid, Some(d), true, now).Value? ==>
      Record(s, resolver, mrid, Some(d), true, now).value.expired == Record(s, resolver, mrid, Some(d), false, now).value.expired
  {
  }

  /**
   * The expiry decision is keyed on the descriptor's own revision id: the
   * revision id argument has no influence on what is expired.
   */
  lemma ExpiryKeyedOnDescriptorId(s: CacheState, resolver: DependencyResolver, mrid1: Option<ModuleRevisionId>,
                                  mrid2: Option<ModuleRevisionId>, d: ModuleDescriptor, isChanging: bool, now: int)
    ensures Record(s, resolver, mrid1, Some(d), isChanging, now).Thrown? == Record(s, resolver, mrid2, Some(d), isChanging, now).Thrown?
    ensures Record(s, resolver, mrid1, Some(d), isChanging, now).Value? ==>
      Record(s, resolver, mrid1, Some(d), isChanging, now).value.expired == Record(s, resolver, mrid2, Some(d), isChanging, now).value.expired
  {
  }

  /**
   * Last write wins, when the second descriptor (if any) carries the key's own
   * revision id: after two recordings under one key, a lookup reflects only
   * the second.
   */
  lemma LastWriteWins(s: CacheState, resolver: DependencyResolver, mrid: ModuleRevisionId,
                      first: Option<ModuleDescriptor>, changing1: bool, time1: int,
                      second: Option<ModuleDescriptor>, changing2: bool, time2: int)
    requires second.Some? ==> second.value.moduleRevisionId == mrid
    requires Record(s, resolver, Some(mrid), first, changing1, time1).Value?
    requires Record(Record(s, resolver, Some(mrid), first, changing1, time1).value, resolver, Some(mrid), second, changing2, time2).Value?
    ensures var t := Record(Record(s, resolver, Some(mrid), first, changing1, time1).value, resolver, Some(mrid), second, changing2, time2).value;
      Lookup(t, resolver, Some(mrid)) == Some(CachedModuleDescriptor(CacheEntry(changing2, second.None?, time2), second))
  {
    var t1 := Record(s, resolver, Some(mrid), first, changing1, time1).value;
    if second.Some? {
      RecordDescriptorThenLookup(t1, resolver, second.value, changing2, time2);
    } else {
      RecordAbsence(t1, resolver, Some(mrid), changing2, time2);
    }
  }

  /**
   * Without that condition the lookup is stale: after recording d1 under its
   * own id and then d2, whose own id differs, under the same id, the lookup
   * pairs the second call's entry with the first call's descriptor.
   */
  lemma StaleDescriptorAfterSecondRecord(s: CacheState, resolver: DependencyResolver, mrid: ModuleRevisionId,
                                         d1: ModuleDescriptor, changing1: bool, time1: int,
                                         d2: ModuleDescriptor, changing2: bool, time2: int)
    requires d1.moduleRevisionId == mrid && d2.moduleRevisionId != mrid
    requires Record(s, resolver, Some(mrid), Some(d1), changing1, time1).Value?
    requires Record(Record(s, resolver, Some(mrid), Some(d1), changing1, time1).value, resolver, Some(mrid), Some(d2), changing2, time2).Value?
    ensures var t := Record(Record(s, resolver, Some(mrid), Some(d1), changing1, time1).value, resolver, Some(mrid), Some(d2), changing2, time2).value;
      Lookup(t, resolver, Some(mrid)) == Some(CachedModuleDescriptor(CacheEntry(changing2, false, time2), Some(d1)))
  {
    var key := CreateKey(resolver, Some(mrid));
    var t1 := Record(s, resolver, Some(mrid), Some(d1), changing1, time1).value;
    assert t1.descriptors[key] == d1;
    assert CreateKey(resolver, Some(d2.moduleRevisionId)) != key;
  }

  /**
   * Recording absence, or a descriptor under its own id, keeps every present
   * entry backed by a stored descriptor.
   */
  lemma RecordPreservesConsistency(s: CacheState, resolver: DependencyResolver, mrid: Option<ModuleRevisionId>,
                                   descriptor: Option<ModuleDescriptor>, isChanging: bool, now: int)
    requires Consistent(s)
    requires descriptor.Some? ==> mrid == Some(descriptor.value.moduleRevisionId)
    requires Record(s, resolver, mrid, descriptor, isChanging, now).Value?
    ensures Consistent(Record(s, resolver, mrid, descriptor, isChanging, now).value)
  {
  }

  /**
   * Recording a descriptor under a revision id other than its own writes a
   * present entry that has no stored descriptor: a later lookup of that key
   * returns a present entry with a null descriptor.
   */
  lemma RecordUnderOtherIdLeavesEntryUnbacked(s: CacheState, resolver: DependencyResolver, mrid: Option<ModuleRevisionId>,
                                              d: ModuleDescriptor, isChanging: bool, now: int)
    requires mrid != Some(d.moduleRevisionId)
    requires CreateKey(resolver, mrid) !in s.descriptors
    requires Record(s, resolver, mrid, Some(d), isChanging, now).Value?
    ensures !Consistent(Record(s, resolver, mrid, Some(d), isChanging, now).value)
    ensures Lookup(Record(s, resolver, mrid, Some(d), isChanging, now).value, resolver, mrid)
         == Some(CachedModuleDescriptor(CacheEntry(isChanging, false, now), None))
  {
    var key := CreateKey(resolver, mrid);
    var t := Record(s, resolver, mrid, Some(d), isChanging, now).value;
    assert key != CreateKey(resolver, Some(d.moduleRevisionId));
    assert key in t.entries && !t.entries[key].isMissing && key !in t.descriptors;
  }
}
