/** A reference build (`Build` / `BuildImpl` in HtsjdkUtils.java): an identity and a list of
    contig predicates, all of which must hold of a dictionary for the build to match. */
module Builds {
  import opened Wrappers
  import opened Dictionary
  import opened Matchers

  /** The value a `BuildImpl` holds. */
  datatype BuildInfo = BuildInfo(id: string, version: string, organism: string,
                                 predicates: seq<ContigPredicate>)

  /** A `BuildImpl` as freshly constructed: every field "." and no predicate. */
  const NewBuild := BuildInfo(".", ".", ".", [])

  /** `predicates.stream().allMatch(P -> P.test(resolveChromosome, dict))`. */
  predicate AllHold(predicates: seq<ContigPredicate>, resolveChromosome: bool, dict: Dictionary) {
    predicates == [] || (Test(predicates[0], resolveChromosome, dict)
                         && AllHold(predicates[1..], resolveChromosome, dict))
  }

  lemma {:induction false} AllHoldIff(predicates: seq<ContigPredicate>, resolveChromosome: bool,
                                      dict: Dictionary)
    ensures AllHold(predicates, resolveChromosome, dict)
        <==> forall k :: 0 <= k < |predicates| ==> Test(predicates[k], resolveChromosome, dict)
  {
    if predicates != [] {
      AllHoldIff(predicates[1..], resolveChromosome, dict);
      assert forall k :: 1 <= k < |predicates| ==> predicates[k] == predicates[1..][k - 1];
    }
  }

  /** `Build.match`: a build matches a dictionary iff every one of its predicates holds;
      a build without predicates matches every dictionary. */
  predicate Match(b: BuildInfo, resolveChromosome: bool, dict: Dictionary)
    ensures Match(b, resolveChromosome, dict)
        <==> forall k :: 0 <= k < |b.predicates| ==> Test(b.predicates[k], resolveChromosome, dict)
  {
    AllHoldIff(b.predicates, resolveChromosome, dict);
    AllHold(b.predicates, resolveChromosome, dict)
  }

  /** Adding predicates can only make a build harder to match. */
  lemma MatchMonotone(b: BuildInfo, more: seq<ContigPredicate>, resolveChromosome: bool,
                      dict: Dictionary)
    requires Match(b.(predicates := b.predicates + more), resolveChromosome, dict)
    ensures Match(b, resolveChromosome, dict)
  {
    var all := b.predicates + more;
    assert forall k :: 0 <= k < |b.predicates| ==> b.predicates[k] == all[k];
  }

  /** `BuildImpl`: its fields are set one by one while a catalogue entry is decoded. */
  class BuildImpl {
    var id: string
    var version: string
    var organism: string
    var predicates: seq<ContigPredicate>

    constructor ()
      ensures Info() == NewBuild
    {
      id, version, organism := ".", ".", ".";
      predicates := [];
    }

    function Info(): BuildInfo
      reads this
    {
      BuildInfo(id, version, organism, predicates)
    }

    /** `BuildImpl.match`. */
    predicate MatchDictionary(resolveChromosome: bool, dict: Dictionary)
      reads this
      ensures MatchDictionary(resolveChromosome, dict)
          <==> forall k :: 0 <= k < |predicates| ==> Test(predicates[k], resolveChromosome, dict)
    {
      Match(Info(), resolveChromosome, dict)
    }
  }
}
