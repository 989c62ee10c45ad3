/** `extractSamples`: the genotype samples of a VCF, or the values a read-group attribute
    (`SM` by default) takes in the header of an alignment file or an interval list. */
module Samples {
  import opened Wrappers
  import opened JavaStrings
  import opened Headers
  import opened Sources
  import opened Io
  import opened Resolver

  /** `SAMReadGroupRecord.READ_GROUP_SAMPLE_TAG`. */
  const SAMPLE_TAG := "SM"

  /** The `Collection<String>` returned: the header's list for a VCF, a set otherwise. */
  datatype SampleCollection = SampleList(items: seq<string>) | SampleSet(members: set<string>)

  /** `RG.getAttribute(att)`: `null` when the read group lacks the attribute. */
  function Attribute(rg: ReadGroup, att: string): Option<string> {
    if att in rg then Some(rg[att]) else None
  }

  /** The stream `map(getAttribute).filter(!isBlank).collect(toSet())` over read groups. */
  function ReadGroupValues(groups: seq<ReadGroup>, att: string): (r: set<string>)
    ensures forall s :: s in r <==>
      !IsBlank(Some(s)) && exists i :: 0 <= i < |groups| && Attribute(groups[i], att) == Some(s)
  {
    if groups == [] then {}
    else
      var rest := ReadGroupValues(groups[1..], att);
      assert forall i :: 1 <= i < |groups| ==> groups[i] == groups[1..][i - 1];
      assert forall s :: s in rest ==>
        exists i :: 0 <= i < |groups| && Attribute(groups[i], att) == Some(s) by {
        forall s | s in rest
          ensures exists i :: 0 <= i < |groups| && Attribute(groups[i], att) == Some(s)
        {
          var j :| 0 <= j < |groups[1..]| && Attribute(groups[1..][j], att) == Some(s);
          assert Attribute(groups[j + 1], att) == Some(s);
        }
      }
      var v := Attribute(groups[0], att);
      if IsBlank(v) then rest else {v.value} + rest
  }

  /** The attribute actually looked up: a blank one means `SM`. */
  function SampleAttribute(rgAttribute: Option<string>): (att: string)
    ensures !IsBlank(Some(att))
    ensures IsBlank(rgAttribute) ==> att == SAMPLE_TAG
    ensures !IsBlank(rgAttribute) ==> att == rgAttribute.value
  {
    if IsBlank(rgAttribute) then
      assert SAMPLE_TAG[0] == 'S';
      SAMPLE_TAG
    else rgAttribute.value
  }

  /** `extractSamples(rgAttribute)`: a VCF gives its genotype samples (a `null` header is a
      `NullPointerException`), a BAM, CRAM, SAM or interval-list file the non-blank values
      of the attribute over its read groups (none when the header is `null`), any other
      name an `IOException`. */
  function ExtractSamples(src: Source, rgAttribute: Option<string>, io: Io): (r: Result<SampleCollection>)
    ensures IsVcf(src) && r.Success? ==> r.value.SampleList?
    ensures IsVcf(src) && ExtractVcfHeader(src, io).Success? && ExtractVcfHeader(src, io).value.Some?
        ==> r == Success(SampleList(ExtractVcfHeader(src, io).value.value.samples))
    ensures IsVcf(src) && ExtractVcfHeader(src, io) == Success(None)
        ==> r == Failure(Error(NullPointer, PathOf(src)))
    ensures IsVcf(src) && ExtractVcfHeader(src, io).Failure?
        ==> r == Failure(ExtractVcfHeader(src, io).error)
    ensures !IsVcf(src) && r.Success?
        ==> r.value.SampleSet? && forall s :: s in r.value.members ==> !IsBlank(Some(s))
    ensures !IsVcf(src) && !IsBamCramSam(src) && !IsIntervalList(src)
        ==> r == Failure(Error(IoError, PathOf(src)))
    ensures !IsVcf(src) && (IsBamCramSam(src) || IsIntervalList(src))
            && ExtractSamFileHeader(src, io) == Success(None)
        ==> r == Success(SampleSet({}))
  {
    if IsVcf(src) then
      match ExtractVcfHeader(src, io)
      case Failure(e) => Failure(e)
      case Success(None) => Failure(Error(NullPointer, PathOf(src)))
      case Success(Some(h)) => Success(SampleList(h.samples))
    else if IsBamCramSam(src) || IsIntervalList(src) then
      var att := SampleAttribute(rgAttribute);
      match ExtractSamFileHeader(src, io)
      case Failure(e) => Failure(e)
      case Success(None) => Success(SampleSet({}))
      case Success(Some(h)) => Success(SampleSet(ReadGroupValues(h.readGroups, att)))
    else Failure(Error(IoError, PathOf(src)))
  }

  /** Asking for no attribute, or a blank one, is asking for the sample, as
      `extractSamples()` does. */
  lemma BlankAttributeMeansSample(src: Source, rgAttribute: Option<string>, io: Io)
    requires IsBlank(rgAttribute)
    ensures ExtractSamples(src, rgAttribute, io) == ExtractSamples(src, Some(SAMPLE_TAG), io)
  {
    assert SAMPLE_TAG[0] == 'S';
    assert SampleAttribute(Some(SAMPLE_TAG)) == SAMPLE_TAG;
  }

  /** A value is reported iff some read group carries it, non-blank, for the attribute:
      duplicates collapse and the order of the read groups does not matter. */
  lemma SamplesOfReadGroups(src: Source, rgAttribute: Option<string>, io: Io, h: SamHeader, s: string)
    requires !IsVcf(src) && (IsBamCramSam(src) || IsIntervalList(src))
    requires ExtractSamFileHeader(src, io) == Success(Some(h))
    ensures ExtractSamples(src, rgAttribute, io).Success?
    ensures s in ExtractSamples(src, rgAttribute, io).value.members
        <==> !IsBlank(Some(s))
             && exists i :: 0 <= i < |h.readGroups|
                  && Attribute(h.readGroups[i], SampleAttribute(rgAttribute)) == Some(s)
  {
  }
}
