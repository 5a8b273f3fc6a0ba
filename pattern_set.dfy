/**
 * PatternSet: a mutable filter made of include and exclude patterns, include
 * and exclude specs, and a case-sensitivity flag. An IntersectionPatternSet is
 * a PatternSet that also wraps another PatternSet by reference; here it is a
 * PatternSet whose `other` is not null, so a mutation of the wrapped set is
 * seen through every intersection that wraps it.
 */
module PatternSets {
  import opened JavaTypes

  /** A Spec<FileTreeElement> object; specs are compared by identity, which `identity` stands for. */
  datatype Spec = Spec(identity: nat)

  /** A node built by addToAntBuilder: a pattern node, or an `and` node over a set and the set it wraps. */
  datatype AntNode =
    | PatternsNode(includes: set<string>, excludes: set<string>, caseSensitive: bool)
    | AndNode(own: AntNode, wrapped: AntNode)

  /** The 31-multiplier combination of PatternSet.hashCode, in wrapping 32-bit arithmetic. */
  function CombineHashCodes(includesHash: bv32, excludesHash: bv32, includeSpecsHash: bv32,
                            excludeSpecsHash: bv32, caseSensitive: bool): bv32
  {
    var result := includesHash;
    var result := Times31Plus(result, excludesHash);
    var result := Times31Plus(result, includeSpecsHash);
    var result := Times31Plus(result, excludeSpecsHash);
    Times31Plus(result, if caseSensitive then 1 else 0)
  }

  /** `31 * result + h` on Java ints. */
  function Times31Plus(result: bv32, h: bv32): bv32
  {
    31 * result + h
  }

  function SetOf<T>(s: seq<T>): set<T>
  {
    set x | x in s
  }

  /**
   * The loop of include(Iterable) and exclude(Iterable): an ImmutableSet.Builder
   * receives the patterns one by one.
   */
  method BuildPatternSet(patterns: seq<string>) returns (built: set<string>)
    ensures built == SetOf(patterns)
  {
    built := {};
    var i := 0;
    while i < |patterns|
      invariant 0 <= i <= |patterns|
      invariant built == SetOf(patterns[..i])
    {
      assert patterns[..i + 1] == patterns[..i] + [patterns[i]];
      built := built + {patterns[i]};
      i := i + 1;
    }
    assert patterns[..i] == patterns;
  }

  class PatternSet {
    var includes: set<string>
    var excludes: set<string>
    var includeSpecs: set<Spec>
    var excludeSpecs: set<Spec>
    var caseSensitive: bool
    /** The set an IntersectionPatternSet wraps; null for a plain PatternSet. */
    const other: PatternSet?
    /** How many sets are wrapped below this one. */
    ghost const depth: nat

    ghost predicate Valid()
      decreases depth
    {
      other != null ==> other.depth < depth && other.Valid()
    }

    predicate IsIntersection() { other != null }

    /** This set and every set reachable through `other`. */
    ghost function Chain(): set<PatternSet>
      requires Valid()
      decreases depth
    {
      {this} + (if other == null then {} else other.Chain())
    }

    /** new PatternSet(): no patterns, no specs, case sensitive. */
    constructor ()
      ensures Valid() && other == null
      ensures includes == {} && excludes == {} && includeSpecs == {} && excludeSpecs == {} && caseSensitive
    {
      other := null;
      depth := 0;
      includes, excludes := {}, {};
      includeSpecs, excludeSpecs := {}, {};
      caseSensitive := true;
    }

    /** new IntersectionPatternSet(wrapped): its own fields start out as a fresh PatternSet's. */
    constructor Intersection(wrapped: PatternSet)
      requires wrapped.Valid()
      ensures Valid() && other == wrapped
      ensures includes == {} && excludes == {} && includeSpecs == {} && excludeSpecs == {} && caseSensitive
    {
      other := wrapped;
      depth := wrapped.depth + 1;
      includes, excludes := {}, {};
      includeSpecs, excludeSpecs := {}, {};
      caseSensitive := true;
    }

    /** The plain-set part of isEmpty: all four own sets are empty. */
    predicate OwnEmpty()
      reads this
    {
      excludes == {} && includes == {} && excludeSpecs == {} && includeSpecs == {}
    }

    /** isEmpty; an intersection is empty only when the set it wraps is too. */
    function IsEmpty(): (r: bool)
      requires Valid()
      reads Chain()
      ensures r <==> forall p :: p in Chain() ==> p.OwnEmpty()
      decreases depth
    {
      if other == null then OwnEmpty() else other.IsEmpty() && OwnEmpty()
    }

    /** The five fields that PatternSet.equals compares. */
    predicate SameFields(o: PatternSet)
      reads this, o
    {
      && caseSensitive == o.caseSensitive
      && excludeSpecs == o.excludeSpecs
      && excludes == o.excludes
      && includeSpecs == o.includeSpecs
      && includes == o.includes
    }

    /**
     * equals as the source writes it: PatternSet.equals accepts any PatternSet
     * (instanceof), while IntersectionPatternSet.equals requires the same class.
     */
    function EqualsAsWritten(o: PatternSet): (r: bool)
      requires Valid() && o.Valid()
      reads Chain(), o.Chain()
      ensures !IsIntersection() ==> (r <==> SameFields(o))
      ensures IsIntersection() && r ==> o.IsIntersection() && SameFields(o)
      decreases depth
    {
      if other == null then this == o || SameFields(o)
      else this == o || (o.other != null && SameFields(o) && other.EqualsAsWritten(o.other))
    }

    /**
     * equals with the class check on both kinds: two sets are equal when they
     * are the same kind, have the same five fields and, for intersections,
     * wrap equal sets.
     */
    function Equals(o: PatternSet): (r: bool)
      requires Valid() && o.Valid()
      reads Chain(), o.Chain()
      ensures r ==> SameFields(o) && (IsIntersection() <==> o.IsIntersection())
      decreases depth
    {
      || this == o
      || (&& IsIntersection() == o.IsIntersection()
          && SameFields(o)
          && (other != null ==> other.Equals(o.other)))
    }

    /** The plain-set part of hashCode, given the hash codes of the four sets. */
    function OwnHashCode(patternsHash: set<string> -> bv32, specsHash: set<Spec> -> bv32): bv32
      reads this
    {
      CombineHashCodes(patternsHash(includes), patternsHash(excludes),
                       specsHash(includeSpecs), specsHash(excludeSpecs), caseSensitive)
    }

    /** hashCode; an intersection adds the hash code of the set it wraps. */
    function HashCode(patternsHash: set<string> -> bv32, specsHash: set<Spec> -> bv32): (r: bv32)
      requires Valid()
      reads Chain()
      ensures !IsIntersection() ==>
        r == CombineHashCodes(patternsHash(includes), patternsHash(excludes),
                              specsHash(includeSpecs), specsHash(excludeSpecs), caseSensitive)
      ensures IsIntersection() ==> r == Times31Plus(OwnHashCode(patternsHash, specsHash), other.HashCode(patternsHash, specsHash))
      decreases depth
    {
      if other == null then OwnHashCode(patternsHash, specsHash)
      else Times31Plus(OwnHashCode(patternsHash, specsHash), other.HashCode(patternsHash, specsHash))
    }

    /** intersect. */
    method Intersect() returns (r: PatternSet)
      requires Valid()
      ensures fresh(r) && r.Valid()
      ensures r.includes == {} && r.excludes == {} && r.includeSpecs == {} && r.excludeSpecs == {} && r.caseSensitive
      ensures old(IsEmpty()) ==> r.other == null
      ensures !old(IsEmpty()) ==> r.other == this && !r.IsEmpty()
    {
      if IsEmpty() {
        r := new PatternSet();
      } else {
        ghost var nonEmpty :| nonEmpty in Chain() && !nonEmpty.OwnEmpty();
        r := new PatternSet.Intersection(this);
        assert nonEmpty in r.Chain() && !nonEmpty.OwnEmpty();
      }
    }

    /** include(String...). */
    method Include(patterns: seq<string>)
      modifies this`includes
      ensures includes == old(includes) + SetOf(patterns)
    {
      includes := includes + SetOf(patterns);
    }

    /** include(Iterable). */
    method IncludeIterable(patterns: seq<string>)
      modifies this`includes
      ensures includes == old(includes) + SetOf(patterns)
    {
      var built := BuildPatternSet(patterns);
      includes := includes + built;
    }

    /** setIncludes: the includes become exactly the given patterns. */
    method SetIncludes(patterns: seq<string>)
      modifies this`includes
      ensures includes == SetOf(patterns)
    {
      includes := {};
      IncludeIterable(patterns);
    }

    /** includeSpecs. */
    method IncludeSpecs(specs: seq<Spec>)
      modifies this`includeSpecs
      ensures includeSpecs == old(includeSpecs) + SetOf(specs)
    {
      includeSpecs := includeSpecs + SetOf(specs);
    }

    /** include(Spec). */
    method IncludeSpec(spec: Spec)
      modifies this`includeSpecs
      ensures includeSpecs == old(includeSpecs) + {spec}
    {
      IncludeSpecs([spec]);
    }

    /** exclude(String...). */
    method Exclude(patterns: seq<string>)
      modifies this`excludes
      ensures excludes == old(excludes) + SetOf(patterns)
    {
      excludes := excludes + SetOf(patterns);
    }

    /** exclude(Iterable). */
    method ExcludeIterable(patterns: seq<string>)
      modifies this`excludes
      ensures excludes == old(excludes) + SetOf(patterns)
    {
      var built := BuildPatternSet(patterns);
      excludes := excludes + built;
    }

    /** setExcludes: the excludes become exactly the given patterns. */
    method SetExcludes(patterns: seq<string>)
      modifies this`excludes
      ensures excludes == SetOf(patterns)
    {
      excludes := {};
      ExcludeIterable(patterns);
    }

    /** excludeSpecs. */
    method ExcludeSpecs(specs: seq<Spec>)
      modifies this`excludeSpecs
      ensures excludeSpecs == old(excludeSpecs) + SetOf(specs)
    {
      excludeSpecs := excludeSpecs + SetOf(specs);
    }

    /** exclude(Spec). */
    method ExcludeSpec(spec: Spec)
      modifies this`excludeSpecs
      ensures excludeSpecs == old(excludeSpecs) + {spec}
    {
      ExcludeSpecs([spec]);
    }

    /** setCaseSensitive. */
    method SetCaseSensitive(value: bool)
      modifies this`caseSensitive
      ensures caseSensitive == value
    {
      caseSensitive := value;
    }

    /** doCopyFrom from a plain PatternSet: all five fields are copied. */
    method CopyFrom(from: PatternSet)
      requires !from.IsIntersection()
      modifies this`includes, this`excludes, this`includeSpecs, this`excludeSpecs, this`caseSensitive
      ensures SameFields(from)
      ensures includes == old(from.includes) && excludes == old(from.excludes)
      ensures includeSpecs == old(from.includeSpecs) && excludeSpecs == old(from.excludeSpecs)
      ensures caseSensitive == old(from.caseSensitive)
    {
      caseSensitive := from.caseSensitive;
      includes := from.includes;
      excludes := from.excludes;
      includeSpecs := from.includeSpecs;
      excludeSpecs := from.excludeSpecs;
    }

    /**
     * addToAntBuilder: throws when any set along the chain has include or
     * exclude specs; otherwise builds the node from the patterns.
     */
    function AddToAntBuilder(): (r: Result<AntNode>)
      requires Valid()
      reads Chain()
      ensures r.Thrown? <==> exists p :: p in Chain() && (p.includeSpecs != {} || p.excludeSpecs != {})
      ensures r.Thrown? ==> r.exception == UnsupportedOperationException
      decreases depth
    {
      var own := if includeSpecs != {} || excludeSpecs != {} then Thrown(UnsupportedOperationException)
                 else Value(PatternsNode(includes, excludes, caseSensitive));
      if other == null then own
      else if own.Thrown? then own
      else match other.AddToAntBuilder()
        case Thrown(e) => Thrown(e)
        case Value(wrapped) => Value(AndNode(own.value, wrapped))
    }
  }

  // ---------------------------------------------------------------------------
  // equals and hashCode

  /** The corrected equals is symmetric. */
  lemma {:induction false} EqualsSymmetric(p: PatternSet, q: PatternSet)
    requires p.Valid() && q.Valid()
    ensures p.Equals(q) == q.Equals(p)
    decreases p.depth
  {
    if p != q && p.other != null && q.other != null {
      EqualsSymmetric(p.other, q.other);
    }
  }

  /** Sets equal under the corrected equals have equal hash codes, whatever the set hashes are. */
  lemma {:induction false} EqualsImpliesEqualHashCodes(p: PatternSet, q: PatternSet,
                                                       patternsHash: set<string> -> bv32, specsHash: set<Spec> -> bv32)
    requires p.Valid() && q.Valid()
    requires p.Equals(q)
    ensures p.HashCode(patternsHash, specsHash) == q.HashCode(patternsHash, specsHash)
    decreases p.depth
  {
    if p != q && p.other != null {
      EqualsImpliesEqualHashCodes(p.other, q.other, patternsHash, specsHash);
    }
  }

  /** The corrected equals holds exactly when the five fields agree for two plain sets. */
  lemma PlainEqualsIsFieldwise(p: PatternSet, q: PatternSet)
    requires p.Valid() && q.Valid() && !p.IsIntersection() && !q.IsIntersection()
    ensures p.Equals(q) <==> p.SameFields(q)
  {
  }

  /**
   * The source's equals is not symmetric: a plain set with the same fields as
   * an intersection equals it, while the intersection does not equal the plain
   * set.
   */
  lemma EqualsAsWrittenIsAsymmetric(p: PatternSet, q: PatternSet)
    requires p.Valid() && q.Valid()
    requires !p.IsIntersection() && q.IsIntersection() && p.SameFields(q)
    ensures p.EqualsAsWritten(q)
    ensures !q.EqualsAsWritten(p)
  {
  }

  /**
   * In that situation the two hash codes differ unless the wrapped set's hash
   * code happens to be -30: for empty, case-sensitive sets (whose set hashes
   * are 0) the plain set hashes to 1 and the intersection to 31 plus the
   * wrapped set's hash.
   */
  lemma EqualsAsWrittenBreaksHashCode(p: PatternSet, q: PatternSet,
                                      patternsHash: set<string> -> bv32, specsHash: set<Spec> -> bv32)
    requires p.Valid() && q.Valid()
    requires !p.IsIntersection() && q.IsIntersection() && p.SameFields(q)
    requires p.OwnEmpty() && p.caseSensitive
    requires patternsHash({}) == 0 && specsHash({}) == 0
    ensures p.EqualsAsWritten(q)
    ensures p.HashCode(patternsHash, specsHash) == 1
    ensures q.HashCode(patternsHash, specsHash) == 31 + q.other.HashCode(patternsHash, specsHash)
    ensures p.HashCode(patternsHash, specsHash) == q.HashCode(patternsHash, specsHash)
        <==> q.other.HashCode(patternsHash, specsHash) == 0xFFFF_FFE2
  {
  }

  /**
   * A reachable instance: intersecting a set that includes "a" yields an
   * intersection that a new PatternSet equals, but not the other way round.
   */
  method AsymmetricEqualsExample() returns (p: PatternSet, q: PatternSet)
    ensures p.Valid() && q.Valid()
    ensures p.EqualsAsWritten(q) && !q.EqualsAsWritten(p)
    ensures !p.Equals(q) && !q.Equals(p)
  {
    var wrapped := new PatternSet();
    wrapped.Include(["a"]);
    assert "a" in wrapped.includes;
    q := wrapped.Intersect();
    p := new PatternSet();
  }

  // ---------------------------------------------------------------------------
  // isEmpty and intersect

  /** An intersection is empty exactly when its own sets and the set it wraps are empty. */
  lemma IntersectionIsEmpty(q: PatternSet)
    requires q.Valid() && q.IsIntersection()
    ensures q.IsEmpty() <==> q.OwnEmpty() && q.other.IsEmpty()
  {
  }

  /** Including a pattern makes a set non-empty. */
  lemma NonEmptyAfterInclude(p: PatternSet, pattern: string)
    requires p.Valid() && pattern in p.includes
    ensures !p.IsEmpty()
  {
  }
}
