/** `decodeBuilds`: the user's list of builds from the `htsjdk.builds` configuration entry.
    As written, the method validates every entry but never adds the build it decodes to the
    list it returns; `DecodeBuildsIntended` is the decoding that keeps them. */
module BuildConfig {
  import opened Wrappers
  import opened Matchers
  import opened Builds

  /** A value of the Groovy configuration, as far as the decoding distinguishes them:
      `CInt` is a `java.lang.Integer`; every other class is `COther`. */
  datatype ConfigValue =
    | CNull
    | CString(s: string)
    | CInt(i: Int32)
    | CList(items: seq<ConfigValue>)
    | CMap(entries: map<string, ConfigValue>)
    | COther

  /** A `chromosomes[j]` entry: `{md5: …}`, or `{name: …, length: …}`. `Success(None)` is a
      matcher holding a null string, which the method accepts. */
  function DecodeContig(v: ConfigValue): Result<Option<ContigPredicate>> {
    if v.CNull? then Failure(Error(IllegalArgument, "chromosomes[j] is null"))
    else if !v.CMap? then Failure(Error(IllegalArgument, "chromosomes[j] expected a Map"))
    else if "md5" in v.entries then
      var md5 := v.entries["md5"];
      if md5.CString? then Success(Some(ContigMd5(md5.s)))
      else if md5.CNull? then Success(None)
      else Failure(Error(ClassCast, "md5"))
    else if "name" !in v.entries then Failure(Error(IllegalArgument, "chromosomes[j].name is undefined"))
    else
      var name := v.entries["name"];
      if !name.CString? && !name.CNull? then Failure(Error(ClassCast, "name"))
      else if "length" !in v.entries then Failure(Error(IllegalArgument, "chromosomes[j].length is undefined"))
      else
        var length := v.entries["length"];
        if length.CInt? then Success(if name.CString? then Some(ContigLength(name.s, length.i)) else None)
        else if length.CNull? then Failure(Error(NullPointer, "length"))
        else Failure(Error(ClassCast, "length"))
  }

  /** A `builds[i]` entry: its name and its decoded chromosomes. */
  function DecodeEntry(v: ConfigValue): Result<(string, seq<Option<ContigPredicate>>)> {
    if v.CNull? then Failure(Error(IllegalArgument, "builds[i] is null"))
    else if !v.CMap? then Failure(Error(IllegalArgument, "builds[i] expected a Map"))
    else if "name" !in v.entries then Failure(Error(IllegalArgument, "builds[i].name is undefined"))
    else
      var name := v.entries["name"];
      if name.CNull? then Failure(Error(NullPointer, "builds[i].name"))
      else if !name.CString? then Failure(Error(IllegalArgument, "builds[i].name is not a string"))
      else if "chromosomes" !in v.entries then Failure(Error(IllegalArgument, "builds[i].chromosomes is undefined"))
      else
        var chromosomes := v.entries["chromosomes"];
        if chromosomes.CNull? then Failure(Error(NullPointer, "builds[i].chromosomes"))
        else if !chromosomes.CList? then Failure(Error(IllegalArgument, "builds[i].chromosomes expected a List"))
        else if chromosomes.items == [] then Failure(Error(IllegalArgument, "builds[i].chromosomes is empty"))
        else
          match MapResult(chromosomes.items, DecodeContig)
          case Failure(e) => Failure(e)
          case Success(ps) => Success((name.s, ps))
  }

  /** `decodeBuilds(o1)` as written, with `getDefaultBuilds()` passed in as `defaults`:
      every entry is validated, and the list returned for a non-empty configuration is empty. */
  function DecodeBuildsAsWritten(o1: ConfigValue, defaults: seq<BuildInfo>): Result<seq<BuildInfo>> {
    if o1.CNull? then Success(defaults)
    else if !o1.CList? then Failure(Error(IllegalArgument, "expected htsjdk.builds as List"))
    else if o1.items == [] then Success([])
    else if MapResult(o1.items, DecodeEntry).Failure? then Failure(MapResult(o1.items, DecodeEntry).error)
    else Success([])
  }

  /** The predicates of a decoded entry when none of them holds a null string. */
  function Predicates(ps: seq<Option<ContigPredicate>>): (r: seq<ContigPredicate>)
    requires forall k :: 0 <= k < |ps| ==> ps[k].Some?
    ensures |r| == |ps| && forall k :: 0 <= k < |ps| ==> ps[k] == Some(r[k])
  {
    if ps == [] then [] else [ps[0].value] + Predicates(ps[1..])
  }

  /** One configured build as the method evidently meant to decode it: named after the entry,
      version and organism ".", one predicate per chromosome. A null md5 or contig name, which
      would only fail later when the predicate is evaluated, is refused here. */
  function DecodeBuild(v: ConfigValue): Result<BuildInfo> {
    match DecodeEntry(v)
    case Failure(e) => Failure(e)
    case Success((name, ps)) =>
      if forall k :: 0 <= k < |ps| ==> ps[k].Some? then
        Success(NewBuild.(id := name, predicates := Predicates(ps)))
      else Failure(Error(NullPointer, "builds[i].chromosomes: null md5 or name"))
  }

  /** The configuration entry that describes a contig predicate. */
  function ContigConfig(p: ContigPredicate): ConfigValue {
    match p
    case ContigLength(name, len) => CMap(map["name" := CString(name), "length" := CInt(len)])
    case ContigMd5(md5) => CMap(map["md5" := CString(md5)])
  }

  /** The configuration entry that describes a build: its name and its chromosomes. */
  function BuildConfigOf(b: BuildInfo): ConfigValue {
    CMap(map["name" := CString(b.id),
             "chromosomes" := CList(seq(|b.predicates|, k requires 0 <= k < |b.predicates| =>
                                           ContigConfig(b.predicates[k])))])
  }

  /** Every build with a predicate, version and organism left at ".", is read back from
      the entry that describes it. */
  lemma BuildConfigRoundTrip(b: BuildInfo)
    requires b.predicates != [] && b.version == "." && b.organism == "."
    ensures DecodeBuild(BuildConfigOf(b)) == Success(b)
  {
    var v := BuildConfigOf(b);
    var items := v.entries["chromosomes"].items;
    forall k | 0 <= k < |items|
      ensures DecodeContig(items[k]) == Success(Some(b.predicates[k]))
    {
      assert items[k] == ContigConfig(b.predicates[k]);
    }
    var ps := MapResult(items, DecodeContig).value;
    assert DecodeEntry(v) == Success((b.id, ps));
    assert forall k :: 0 <= k < |ps| ==> ps[k] == Some(b.predicates[k]);
    assert Predicates(ps) == b.predicates;
  }

  /** `decodeBuilds` with each decoded build added to the returned list. */
  function DecodeBuildsIntended(o1: ConfigValue, defaults: seq<BuildInfo>): Result<seq<BuildInfo>> {
    if o1.CNull? then Success(defaults)
    else if !o1.CList? then Failure(Error(IllegalArgument, "expected htsjdk.builds as List"))
    else MapResult(o1.items, DecodeBuild)
  }

  /** Decoded as intended, there is one build per entry, named after it, each with at least
      one predicate: a non-empty configuration replaces the catalogue. */
  lemma IntendedKeepsEveryBuild(entries: seq<ConfigValue>, defaults: seq<BuildInfo>)
    requires DecodeBuildsIntended(CList(entries), defaults).Success?
    ensures var builds := DecodeBuildsIntended(CList(entries), defaults).value;
            && |builds| == |entries|
            && forall i :: 0 <= i < |entries| ==>
                 && DecodeEntry(entries[i]).Success?
                 && builds[i].id == DecodeEntry(entries[i]).value.0
                 && |builds[i].predicates| == |entries[i].entries["chromosomes"].items| > 0
  {
    var builds := DecodeBuildsIntended(CList(entries), defaults).value;
    forall i | 0 <= i < |entries|
      ensures DecodeEntry(entries[i]).Success?
      ensures builds[i].id == DecodeEntry(entries[i]).value.0
      ensures |builds[i].predicates| == |entries[i].entries["chromosomes"].items| > 0
    {
      assert DecodeBuild(entries[i]) == Success(builds[i]);
    }
  }

  /** The intended decoding is the stricter one: whatever it accepts, the method as written
      accepts too (and whatever the method refuses, it refuses). */
  lemma {:induction false} IntendedIsStricter(o1: ConfigValue, defaults: seq<BuildInfo>)
    ensures DecodeBuildsIntended(o1, defaults).Success? ==> DecodeBuildsAsWritten(o1, defaults).Success?
  {
    if o1.CList? && DecodeBuildsIntended(o1, defaults).Success? {
      forall i | 0 <= i < |o1.items|
        ensures DecodeEntry(o1.items[i]).Success?
      {
        assert DecodeBuild(o1.items[i]).Success?;
      }
    }
  }

  /** The two decodings agree on a missing or empty configuration, and on everything that is
      not a list. */
  lemma AgreeOutsideNonEmptyLists(o1: ConfigValue, defaults: seq<BuildInfo>)
    requires !o1.CList? || o1.items == []
    ensures DecodeBuildsAsWritten(o1, defaults) == DecodeBuildsIntended(o1, defaults)
  {
  }

  /** A one-build configuration that both decodings accept: as written, the build is lost and
      the catalogue of defaults is replaced by nothing. */
  lemma BuildIsLost(defaults: seq<BuildInfo>)
    ensures var chr1 := CMap(map["name" := CString("chr1"), "length" := CInt(248956422)]);
            var grch38 := CMap(map["name" := CString("GRCh38"), "chromosomes" := CList([chr1])]);
            && DecodeBuildsAsWritten(CList([grch38]), defaults) == Success([])
            && DecodeBuildsIntended(CList([grch38]), defaults)
               == Success([BuildInfo("GRCh38", ".", ".", [ContigLength("chr1", 248956422)])])
  {
    var chr1 := CMap(map["name" := CString("chr1"), "length" := CInt(248956422)]);
    var grch38 := CMap(map["name" := CString("GRCh38"), "chromosomes" := CList([chr1])]);
    assert DecodeContig(chr1) == Success(Some(ContigLength("chr1", 248956422)));
    assert [chr1][..0] == [] && [grch38][..0] == [];
    var empty: seq<ConfigValue> := [];
    assert MapResult(empty, DecodeContig) == Success([]);
    assert [] + [Some(ContigLength("chr1", 248956422))] == [Some(ContigLength("chr1", 248956422))];
    assert MapResult([chr1], DecodeContig) == Success([Some(ContigLength("chr1", 248956422))]);
    assert DecodeEntry(grch38) == Success(("GRCh38", [Some(ContigLength("chr1", 248956422))]));
    var some := [Some(ContigLength("chr1", 248956422))];
    assert some[1..] == [];
    assert Predicates(some) == [ContigLength("chr1", 248956422)];
    assert DecodeBuild(grch38) == Success(BuildInfo("GRCh38", ".", ".", [ContigLength("chr1", 248956422)]));
    assert MapResult([grch38], DecodeEntry).Success?;
    assert MapResult(empty, DecodeBuild) == Success([]);
    var built := BuildInfo("GRCh38", ".", ".", [ContigLength("chr1", 248956422)]);
    assert [] + [built] == [built];
    assert MapResult([grch38], DecodeBuild)
        == Success([BuildInfo("GRCh38", ".", ".", [ContigLength("chr1", 248956422)])]);
  }

  /** `decodeBuilds(o1)`, as written: the loops validate every entry and fill a `BuildImpl`
      that is then dropped. The build under construction is kept as its name and its
      predicates, since a predicate may hold a null string. */
  method DecodeBuilds(o1: ConfigValue, defaults: seq<BuildInfo>) returns (r: Result<seq<BuildInfo>>)
    ensures r == DecodeBuildsAsWritten(o1, defaults)
  {
    if o1.CNull? {
      return Success(defaults);
    }
    if !o1.CList? {
      return Failure(Error(IllegalArgument, "expected htsjdk.builds as List"));
    }
    var entries := o1.items;
    if entries == [] {
      return Success([]);
    }
    var builds: seq<BuildInfo> := [];
    for i := 0 to |entries|
      invariant MapResult(entries[..i], DecodeEntry).Success?
    {
      assert entries[..i + 1][..i] == entries[..i];
      var o2 := entries[i];
      var e := DecodeEntryLoop(o2);
      if e.Failure? {
        MapResultFailurePrefix(entries, DecodeEntry, i + 1);
        return Failure(e.error);
      }
    }
    assert entries[..|entries|] == entries;
    return Success(builds);
  }

  /** The body of `decodeBuilds`' outer loop for one entry, with its inner loop over the
      chromosomes. */
  method DecodeEntryLoop(o2: ConfigValue) returns (r: Result<(string, seq<Option<ContigPredicate>>)>)
    ensures r == DecodeEntry(o2)
  {
    if o2.CNull? {
      return Failure(Error(IllegalArgument, "builds[i] is null"));
    }
    if !o2.CMap? {
      return Failure(Error(IllegalArgument, "builds[i] expected a Map"));
    }
    var hash2 := o2.entries;
    if "name" !in hash2 {
      return Failure(Error(IllegalArgument, "builds[i].name is undefined"));
    }
    var buildName := hash2["name"];
    if buildName.CNull? {
      return Failure(Error(NullPointer, "builds[i].name"));
    }
    if !buildName.CString? {
      return Failure(Error(IllegalArgument, "builds[i].name is not a string"));
    }
    var id := buildName.s;
    if "chromosomes" !in hash2 {
      return Failure(Error(IllegalArgument, "builds[i].chromosomes is undefined"));
    }
    var o3 := hash2["chromosomes"];
    if o3.CNull? {
      return Failure(Error(NullPointer, "builds[i].chromosomes"));
    }
    if !o3.CList? {
      return Failure(Error(IllegalArgument, "builds[i].chromosomes expected a List"));
    }
    var contigs := o3.items;
    if contigs == [] {
      return Failure(Error(IllegalArgument, "builds[i].chromosomes is empty"));
    }
    var predicates: seq<Option<ContigPredicate>> := [];
    for j := 0 to |contigs|
      invariant MapResult(contigs[..j], DecodeContig) == Success(predicates)
    {
      assert contigs[..j + 1][..j] == contigs[..j];
      var p := DecodeContig(contigs[j]);
      if p.Failure? {
        MapResultFailurePrefix(contigs, DecodeContig, j + 1);
        return Failure(p.error);
      }
      predicates := predicates + [p.value];
    }
    assert contigs[..|contigs|] == contigs;
    return Success((id, predicates));
  }
}
