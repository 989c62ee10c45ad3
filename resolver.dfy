/** The readers of `HtsSource`: where its bytes come from, its VCF and SAM headers, and
    `extractDictionary`, which tries the VCF header, htsjdk's dictionary extractor, a
    `.fai` index, a `.dict` file next to a FASTA file and an alignment header, in that
    order, and refuses to return a missing or empty dictionary. */
module Resolver {
  import opened Wrappers
  import opened JavaStrings
  import opened Dictionary
  import opened Headers
  import opened Sources
  import opened Io
  import opened Streams

  /** `openInputStream()`: a file is read from the file system, a URL fetched. */
  function OpenInputStream(src: Source, io: Io): Result<Bytes> {
    match src
    case Local(p) => io.readFile(p)
    case Remote(u) => io.fetch(u)
  }

  /** `openBufferedReader()`: the lines of the (inflated, if gzipped) stream. */
  function OpenLines(src: Source, io: Io): Result<seq<string>> {
    match OpenInputStream(src, io)
    case Failure(e) => Failure(e)
    case Success(raw) =>
      match MayBeGzipped(raw, io)
      case Failure(e) => Failure(e)
      case Success(bytes) => Success(io.lines(bytes))
  }

  /** One line of a `.fai` index: split on tabs, column 0 is the name, column 1 the length;
      a missing column is an `ArrayIndexOutOfBoundsException`, a bad number a
      `NumberFormatException`. */
  function FaiRecord(line: string): (r: Result<SequenceRecord>)
    ensures r.Success? ==> r.value.md5 == None && '\t' !in r.value.name
    ensures |JavaSplit(line, '\t')| < 2 ==> r == Failure(Error(IndexOutOfBounds, line))
  {
    var t := JavaSplit(line, '\t');
    if |t| < 2 then Failure(Error(IndexOutOfBounds, line))
    else
      match ParseInt(t[1])
      case None => Failure(Error(NumberFormat, t[1]))
      case Some(n) => Success(SequenceRecord(t[0], n, None))
  }

  /** `dictionaryFromFai()`: refuses a file that is not named `.fai`, otherwise one record
      per line, in line order. */
  function DictionaryFromFai(src: Source, io: Io): (r: Result<Dictionary>)
    ensures !IsFai(src) ==> r == Failure(Error(FormatError, PathOf(src)))
    ensures r.Success? ==> IsFai(src) && OpenLines(src, io).Success?
                           && |r.value| == |OpenLines(src, io).value|
                           && forall i :: 0 <= i < |r.value| ==>
                                FaiRecord(OpenLines(src, io).value[i]) == Success(r.value[i])
  {
    if !IsFai(src) then Failure(Error(FormatError, PathOf(src)))
    else
      match OpenLines(src, io)
      case Failure(e) => Failure(e)
      case Success(lines) =>
        match MapResult(lines, FaiRecord)
        case Failure(e) => Failure(e)
        case Success(records) => MakeDictionary(records)
  }

  /** The line `samtools faidx` writes for a record: name, length, then further columns. */
  function FaiLine(rec: SequenceRecord, extra: string): string {
    rec.name + "\t" + Decimal(rec.length) + extra
  }

  /** A name without tabs and any length read back from their `.fai` line, whatever
      columns follow. */
  lemma FaiRecordOfLine(rec: SequenceRecord, extra: string)
    requires '\t' !in rec.name && rec.md5 == None
    requires extra == [] || extra[0] == '\t'
    ensures FaiRecord(FaiLine(rec, extra)) == Success(rec)
  {
    var len := Decimal(rec.length);
    DecimalHasNoTab(rec.length);
    SplitFirstTwo(rec.name, len, extra, '\t');
    assert FaiLine(rec, extra) == rec.name + ['\t'] + len + extra;
    ParseIntDecimal(rec.length);
  }

  /** So a `.fai` file whose lines are those of a list of records with distinct names gives
      back exactly that list. */
  lemma FaiRoundTrip(src: Source, io: Io, records: seq<SequenceRecord>, extras: seq<string>)
    requires IsFai(src) && UniqueNames(records) && |extras| == |records|
    requires forall i :: 0 <= i < |records| ==> '\t' !in records[i].name && records[i].md5 == None
    requires forall i :: 0 <= i < |extras| ==> extras[i] == [] || extras[i][0] == '\t'
    requires OpenLines(src, io) == Success(seq(|records|, i requires 0 <= i < |records| => FaiLine(records[i], extras[i])))
    ensures DictionaryFromFai(src, io) == Success(records)
  {
    var lines := OpenLines(src, io).value;
    forall i | 0 <= i < |lines|
      ensures FaiRecord(lines[i]) == Success(records[i])
    {
      FaiRecordOfLine(records[i], extras[i]);
    }
    var m := MapResult(lines, FaiRecord);
    assert m.Success?;
    assert m.value == records;
  }

  /** `extractVcfHeader()`: refuses a name that is not a VCF's, otherwise decodes the
      stream. */
  function ExtractVcfHeader(src: Source, io: Io): (r: Result<Option<VcfHeader>>)
    ensures !IsVcf(src) ==> r == Failure(Error(FormatError, PathOf(src)))
    ensures IsVcf(src) && OpenInputStream(src, io).Success?
            ==> r == VcfHeaderOf(OpenInputStream(src, io).value, io)
  {
    if !IsVcf(src) then Failure(Error(FormatError, PathOf(src)))
    else
      match OpenInputStream(src, io)
      case Failure(e) => Failure(e)
      case Success(raw) => VcfHeaderOf(raw, io)
  }

  /** `extractSamFileHeader()`: an interval list is read as text, a BAM, CRAM or SAM file
      through a `SamReader`, any other name is refused. */
  function ExtractSamFileHeader(src: Source, io: Io): (r: Result<Option<SamHeader>>)
    ensures IsIntervalList(src) && OpenLines(src, io).Success?
            ==> r == io.intervalListHeader(OpenLines(src, io).value)
    ensures !IsIntervalList(src) && !IsBamCramSam(src)
            ==> r == Failure(Error(FormatError, PathOf(src)))
    ensures !IsIntervalList(src) && IsBamCramSam(src) && OpenInputStream(src, io).Success?
            ==> r == io.samStreamHeader(OpenInputStream(src, io).value)
  {
    if IsIntervalList(src) then
      match OpenLines(src, io)
      case Failure(e) => Failure(e)
      case Success(lines) => io.intervalListHeader(lines)
    else if !IsBamCramSam(src) then Failure(Error(FormatError, PathOf(src)))
    else
      match OpenInputStream(src, io)
      case Failure(e) => Failure(e)
      case Success(raw) => io.samStreamHeader(raw)
  }

  /** The branch of `extractDictionary` a source takes. */
  datatype DictionaryBranch = FromVcf | FromExtractor | FromFai | FromFasta | FromAlignment | NoBranch

  /** The branches are tried in order, so a local file other than a `.fai` always goes to
      htsjdk's extractor: only a remote FASTA, BAM, CRAM or SAM file reaches the FASTA or
      alignment branch. */
  function Branch(src: Source): (b: DictionaryBranch)
    ensures b == FromVcf <==> IsVcf(src)
    ensures b == FromExtractor <==> !IsVcf(src) && src.Local? && !IsFai(src)
    ensures b == FromFai <==> !IsVcf(src) && IsFai(src)
    ensures b == FromFasta <==> !IsVcf(src) && src.Remote? && !IsFai(src) && IsFasta(src)
    ensures b == FromAlignment
        <==> !IsVcf(src) && src.Remote? && !IsFai(src) && !IsFasta(src) && IsBamCramSam(src)
  {
    if IsVcf(src) then FromVcf
    else if src.Local? && !IsFai(src) then FromExtractor
    else if IsFai(src) then FromFai
    else if IsFasta(src) then FromFasta
    else if IsBamCramSam(src) then FromAlignment
    else NoBranch
  }

  function SomeDictionary(r: Result<Dictionary>): Result<Option<Dictionary>> {
    match r
    case Failure(e) => Failure(e)
    case Success(d) => Success(Some(d))
  }

  /** The FASTA branch: the `.dict` named after the basename next to the file; only when
      it cannot be opened (an `IOException`) the `.fai` named after the file name. Only a
      URL reaches this branch, where `ResolveSibling` and the intended lookup agree
      (`SiblingOfUrlUnchanged`). */
  function DictionaryFromFasta(src: Source, io: Io): Result<Option<Dictionary>> {
    match ResolveSibling(src, Basename(src) + DICT, io.resolveUrl)
    case Failure(e) => Failure(e)
    case Success(dictPath) =>
      match OpenInputStream(dictPath, io)
      case Success(bytes) =>
        (match io.dictCodec(bytes)
         case Failure(e) => Failure(e)
         case Success(h) => Success(Some(h.dictionary)))
      case Failure(e) =>
        if e.kind != IoError then Failure(e)
        else
          match ResolveSibling(src, Filename(src) + FASTA_INDEX, io.resolveUrl)
          case Failure(e2) => Failure(e2)
          case Success(fai) => SomeDictionary(DictionaryFromFai(fai, io))
  }

  /** What the branch taken leaves in `dict` (`None` for `null`) before the final checks. */
  function CandidateDictionary(src: Source, io: Io): Result<Option<Dictionary>> {
    match Branch(src)
    case FromVcf =>
      (match ExtractVcfHeader(src, io)
       case Failure(e) => Failure(e)
       case Success(None) => Failure(Error(IoError, PathOf(src)))
       case Success(Some(h)) =>
         if h.dictionary == None then Failure(Error(IoError, PathOf(src))) else Success(h.dictionary))
    case FromExtractor => io.dictionaryExtractor(src.file)
    case FromFai => SomeDictionary(DictionaryFromFai(src, io))
    case FromFasta => DictionaryFromFasta(src, io)
    case FromAlignment =>
      (match ExtractSamFileHeader(src, io)
       case Failure(e) => Failure(e)
       case Success(None) => Failure(Error(NullPointer, PathOf(src)))
       case Success(Some(h)) => Success(Some(h.dictionary)))
    case NoBranch => Success(None)
  }

  /** `extractDictionary()`: never a missing or an empty dictionary; either is an error
      naming the path, whichever branch ran. */
  function ExtractDictionary(src: Source, io: Io): (r: Result<Dictionary>)
    ensures r.Success? ==> r.value != [] && CandidateDictionary(src, io) == Success(Some(r.value))
    ensures CandidateDictionary(src, io) in {Success(None), Success(Some([]))}
            ==> r == Failure(Error(FormatError, PathOf(src)))
    ensures CandidateDictionary(src, io).Failure? ==> r == Failure(CandidateDictionary(src, io).error)
    ensures r.Success? <==> var c := CandidateDictionary(src, io); c.Success? && c.value.Some? && c.value.value != []
    ensures var c := CandidateDictionary(src, io);
            c.Success? && c.value.Some? && c.value.value != [] ==> r == Success(c.value.value)
  {
    match CandidateDictionary(src, io)
    case Failure(e) => Failure(e)
    case Success(None) => Failure(Error(FormatError, PathOf(src)))
    case Success(Some(d)) =>
      if d == [] then Failure(Error(FormatError, PathOf(src))) else Success(d)
  }

  /** What `extractDictionary` makes of the dictionary a branch found: the dictionary when
      it has a record, the "empty dictionary" error naming the path otherwise. */
  function NonEmptyOrRefused(src: Source, d: Dictionary): Result<Dictionary> {
    if d == [] then Failure(Error(FormatError, PathOf(src))) else Success(d)
  }

  /** A VCF gives the dictionary of its header; a `null` header, or a header without
      `##contig` lines, is an `IOException` naming the path. */
  lemma DictionaryOfVcf(src: Source, io: Io)
    requires IsVcf(src)
    ensures ExtractVcfHeader(src, io) == Success(None)
            ==> ExtractDictionary(src, io) == Failure(Error(IoError, PathOf(src)))
    ensures var hr := ExtractVcfHeader(src, io);
            hr.Success? && hr.value.Some? && hr.value.value.dictionary.None?
            ==> ExtractDictionary(src, io) == Failure(Error(IoError, PathOf(src)))
    ensures var hr := ExtractVcfHeader(src, io);
            hr.Success? && hr.value.Some? && hr.value.value.dictionary.Some?
            ==> ExtractDictionary(src, io) == NonEmptyOrRefused(src, hr.value.value.dictionary.value)
  {
    assert Branch(src) == FromVcf;
    var hr := ExtractVcfHeader(src, io);
    if hr.Success? && hr.value.Some? {
      var h := hr.value.value;
      if h.dictionary.None? {
        assert CandidateDictionary(src, io) == Failure(Error(IoError, PathOf(src)));
      } else {
        assert CandidateDictionary(src, io) == Success(h.dictionary);
      }
    } else if hr == Success(None) {
      assert CandidateDictionary(src, io) == Failure(Error(IoError, PathOf(src)));
    }
  }

  /** A local file other than a `.fai` and a VCF gives what htsjdk's extractor finds. */
  lemma DictionaryOfLocalFile(src: Source, io: Io)
    requires !IsVcf(src) && src.Local? && !IsFai(src)
    ensures var x := io.dictionaryExtractor(src.file);
            && (x.Failure? ==> ExtractDictionary(src, io) == Failure(x.error))
            && (x == Success(None) ==> ExtractDictionary(src, io) == Failure(Error(FormatError, PathOf(src))))
            && (x.Success? && x.value.Some? ==> ExtractDictionary(src, io) == NonEmptyOrRefused(src, x.value.value))
  {
    assert Branch(src) == FromExtractor;
  }

  /** A `.fai` index gives the dictionary `dictionaryFromFai` reads from it. */
  lemma DictionaryOfFai(src: Source, io: Io)
    requires !IsVcf(src) && IsFai(src)
    ensures var f := DictionaryFromFai(src, io);
            && (f.Failure? ==> ExtractDictionary(src, io) == Failure(f.error))
            && (f.Success? ==> ExtractDictionary(src, io) == NonEmptyOrRefused(src, f.value))
  {
    assert Branch(src) == FromFai;
  }

  /** So a `.fai` file written from a non-empty list of records with distinct, tab-free
      names gives back exactly that list as the dictionary. */
  lemma FaiDictionaryRoundTrip(src: Source, io: Io, records: seq<SequenceRecord>, extras: seq<string>)
    requires !IsVcf(src) && IsFai(src) && UniqueNames(records) && |extras| == |records|
    requires records != []
    requires forall i :: 0 <= i < |records| ==> '\t' !in records[i].name && records[i].md5 == None
    requires forall i :: 0 <= i < |extras| ==> extras[i] == [] || extras[i][0] == '\t'
    requires OpenLines(src, io) == Success(seq(|records|, i requires 0 <= i < |records| => FaiLine(records[i], extras[i])))
    ensures ExtractDictionary(src, io) == Success(records)
  {
    FaiRoundTrip(src, io, records, extras);
    DictionaryOfFai(src, io);
  }

  /** A remote FASTA file whose `.dict` opens gives the dictionary of the decoded `.dict`
      header. */
  lemma DictionaryOfFasta(src: Source, io: Io, dictPath: Source, bytes: Bytes, h: SamHeader)
    requires Branch(src) == FromFasta
    requires ResolveSibling(src, Basename(src) + DICT, io.resolveUrl) == Success(dictPath)
    requires OpenInputStream(dictPath, io) == Success(bytes) && io.dictCodec(bytes) == Success(h)
    ensures ExtractDictionary(src, io) == NonEmptyOrRefused(src, h.dictionary)
  {
  }

  /** A remote BAM, CRAM or SAM file gives the dictionary of its header; a `null` header is a
      `NullPointerException`. */
  lemma DictionaryOfAlignment(src: Source, io: Io)
    requires Branch(src) == FromAlignment
    ensures var hr := ExtractSamFileHeader(src, io);
            && (hr.Failure? ==> ExtractDictionary(src, io) == Failure(hr.error))
            && (hr == Success(None) ==> ExtractDictionary(src, io) == Failure(Error(NullPointer, PathOf(src))))
            && (hr.Success? && hr.value.Some?
                ==> ExtractDictionary(src, io) == NonEmptyOrRefused(src, hr.value.value.dictionary))
  {
  }

  /** A source whose name none of the branches knows has no dictionary. */
  lemma UnknownSourceHasNoDictionary(src: Source, io: Io)
    requires !IsVcf(src) && !IsFai(src) && src.Remote? && !IsFasta(src) && !IsBamCramSam(src)
    ensures ExtractDictionary(src, io) == Failure(Error(FormatError, PathOf(src)))
  {
    assert Branch(src) == NoBranch;
  }

  /** A remote FASTA file whose `.dict` cannot be opened falls back on its `.fai`. */
  lemma FastaFallsBackOnFai(src: Source, io: Io, dictPath: Source, fai: Source)
    requires Branch(src) == FromFasta
    requires ResolveSibling(src, Basename(src) + DICT, io.resolveUrl) == Success(dictPath)
    requires OpenInputStream(dictPath, io).Failure? && OpenInputStream(dictPath, io).error.kind == IoError
    requires ResolveSibling(src, Filename(src) + FASTA_INDEX, io.resolveUrl) == Success(fai)
    ensures CandidateDictionary(src, io) == SomeDictionary(DictionaryFromFai(fai, io))
  {
  }
}
