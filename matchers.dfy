/** The contig predicates a reference build is made of (`ContigMatcher` and its two
    implementations in HtsjdkUtils.java) and the chromosome-name normalisation. */
module Matchers {
  import opened Wrappers
  import opened JavaStrings
  import opened Dictionary

  /** `ContigLengthMatcher(contigName, contigLen)` and `ContigMD5Matcher(md5)`. */
  datatype ContigPredicate =
    | ContigLength(contigName: string, contigLen: Int32)
    | ContigMd5(md5: string)

  /** `simpleChromName`: lower-case, drop a leading "chr", call "m" "mt". */
  function SimpleChromName(s: string): string {
    var lower := ToLower(s);
    var bare := if StartsWith(lower, "chr") then lower[3..] else lower;
    if bare == "m" then "mt" else bare
  }

  /** `contigsMatch`. */
  predicate ContigsMatch(s1: string, s2: string) {
    SimpleChromName(s1) == SimpleChromName(s2)
  }

  /** `stream().anyMatch(p)` over the records of a dictionary. */
  predicate AnyRecord(d: seq<SequenceRecord>, p: SequenceRecord -> bool) {
    d != [] && (p(d[0]) || AnyRecord(d[1..], p))
  }

  lemma {:induction false} AnyRecordIff(d: seq<SequenceRecord>, p: SequenceRecord -> bool)
    ensures AnyRecord(d, p) <==> exists i :: 0 <= i < |d| && p(d[i])
  {
    if d != [] {
      AnyRecordIff(d[1..], p);
      assert forall i :: 1 <= i < |d| ==> d[i] == d[1..][i - 1];
      if p(d[0]) {
        assert 0 < |d| && p(d[0]);
      } else if exists i :: 0 <= i < |d| && p(d[i]) {
        var i :| 0 <= i < |d| && p(d[i]);
        assert d[1..][i - 1] == d[i];
      }
    }
  }

  /** `ContigMatcher.test(resolveChromosome, dict)`. */
  predicate Test(pred: ContigPredicate, resolveChromosome: bool, dict: Dictionary) {
    match pred
    case ContigLength(name, len) =>
      if !resolveChromosome then
        match GetSequence(dict, name)
        case None => false
        case Some(ssr) => ssr.length == len
      else
        AnyRecord(dict, (r: SequenceRecord) => len == r.length && ContigsMatch(name, r.name))
    case ContigMd5(md5) =>
      AnyRecord(dict, (r: SequenceRecord) => r.md5 == Some(md5))
  }

  /** Without chromosome resolution, the length predicate holds exactly when the dictionary
      has a contig of exactly that name and that length. */
  lemma LengthMatchExact(name: string, len: Int32, dict: Dictionary)
    ensures Test(ContigLength(name, len), false, dict)
        <==> exists i :: 0 <= i < |dict| && dict[i].name == name && dict[i].length == len
  {
    if exists i :: 0 <= i < |dict| && dict[i].name == name && dict[i].length == len {
      var i :| 0 <= i < |dict| && dict[i].name == name && dict[i].length == len;
      GetSequenceUnique(dict, name, i);
    }
  }

  /** With chromosome resolution, the length predicate holds exactly when some contig has
      exactly that length and the same normalised name. */
  lemma LengthMatchResolved(name: string, len: Int32, dict: Dictionary)
    ensures Test(ContigLength(name, len), true, dict)
        <==> exists i :: 0 <= i < |dict| && dict[i].length == len
                                        && SimpleChromName(dict[i].name) == SimpleChromName(name)
  {
    AnyRecordIff(dict, (r: SequenceRecord) => len == r.length && ContigsMatch(name, r.name));
  }

  /** The MD5 predicate holds exactly when some contig carries that very MD5 (a contig
      without one never matches), whatever the resolution flag. */
  lemma Md5Match(md5: string, resolveChromosome: bool, dict: Dictionary)
    ensures Test(ContigMd5(md5), resolveChromosome, dict)
        <==> exists i :: 0 <= i < |dict| && dict[i].md5 == Some(md5)
    ensures Test(ContigMd5(md5), resolveChromosome, dict) == Test(ContigMd5(md5), !resolveChromosome, dict)
  {
    AnyRecordIff(dict, (r: SequenceRecord) => r.md5 == Some(md5));
  }

  /** "M", "MT", "chrM" and "chrMT", in any case, all name the mitochondrion. */
  lemma MitochondrialNames()
    ensures SimpleChromName("M") == "mt" && SimpleChromName("MT") == "mt"
    ensures SimpleChromName("chrM") == "mt" && SimpleChromName("chrMT") == "mt"
    ensures SimpleChromName("ChrMt") == "mt" && SimpleChromName("m") == "mt"
  {
    assert ToLower("M") == "m";
    assert ToLower("MT") == "mt";
    assert ToLower("chrM") == "chrm";
    assert ToLower("chrMT") == "chrmt";
    assert ToLower("ChrMt") == "chrmt";
  }

  /** Normalisation ignores case. */
  lemma {:induction false} SimpleChromNameIgnoresCase(s: string)
    ensures SimpleChromName(ToLower(s)) == SimpleChromName(s)
  {
    assert ToLower(ToLower(s)) == ToLower(s);
  }

  /** A "chr" prefix in any case is ignored, so "chr1", "CHR1" and "1" agree; a name that
      itself starts with "chr" is not stripped twice. */
  lemma {:induction false} ChrPrefixIgnored(prefix: string, s: string)
    requires ToLower(prefix) == "chr"
    requires !StartsWith(ToLower(s), "chr")
    ensures SimpleChromName(prefix + s) == SimpleChromName(s)
  {
    ToLowerAppend(prefix, s);
    var lower := ToLower(prefix + s);
    assert lower == "chr" + ToLower(s);
    assert StartsWith(lower, "chr");
    assert lower[3..] == ToLower(s);
  }

  /** A contig whose normalised name agrees but whose length differs does not satisfy the
      resolved length predicate: "1" of length 1 does not stand for "chr1" of length 249250621. */
  lemma ResolvedLengthMustAgree()
    ensures Test(ContigLength("chr1", 249250621), true, [SequenceRecord("1", 249250621, None)])
    ensures !Test(ContigLength("chr1", 249250621), true, [SequenceRecord("1", 1, None)])
    ensures !Test(ContigLength("chr1", 249250621), false, [SequenceRecord("1", 249250621, None)])
  {
    ChrPrefixIgnored("chr", "1");
    assert ToLower("1") == "1";
    LengthMatchResolved("chr1", 249250621, [SequenceRecord("1", 249250621, None)]);
    LengthMatchResolved("chr1", 249250621, [SequenceRecord("1", 1, None)]);
    LengthMatchExact("chr1", 249250621, [SequenceRecord("1", 249250621, None)]);
  }
}
