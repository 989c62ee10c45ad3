/** `extractMappedContigs`: the contigs a file has data on, read from a tabix index, a
    tribble index next to a local file, or the index of a BAM or CRAM file. */
module Contigs {
  import opened Wrappers
  import opened Dictionary
  import opened Headers
  import opened Sources
  import opened Io
  import opened Streams

  /** Whether the i-th contig of the dictionary has data: for a CRAM file a query at
      position 1 returns a record; otherwise the BAM index has metadata for it with a
      non-zero aligned-record count. */
  predicate Present(sr: SamReaderView, d: Dictionary, i: nat, cram: bool)
    requires i < |d|
  {
    if cram then sr.hasRecordAtStart(d[i].name)
    else sr.metaData(i).Some? && sr.metaData(i).value != 0
  }

  /** The indices, among the first `n`, of the contigs with data: increasing, and every
      such index is there. */
  function PresentIndices(sr: SamReaderView, d: Dictionary, cram: bool, n: nat): (ix: seq<nat>)
    requires n <= |d|
    ensures forall k :: 0 <= k < |ix| ==> ix[k] < n && Present(sr, d, ix[k], cram)
    ensures forall k, l :: 0 <= k < l < |ix| ==> ix[k] < ix[l]
    ensures forall i :: 0 <= i < n && Present(sr, d, i, cram) ==> i in ix
  {
    if n == 0 then []
    else
      var front := PresentIndices(sr, d, cram, n - 1);
      if Present(sr, d, n - 1, cram) then front + [n - 1] else front
  }

  /** The names of the contigs with data among the first `n`, in dictionary order. */
  function PresentContigs(sr: SamReaderView, d: Dictionary, cram: bool, n: nat): seq<string>
    requires n <= |d|
  {
    if n == 0 then []
    else
      var front := PresentContigs(sr, d, cram, n - 1);
      if Present(sr, d, n - 1, cram) then front + [d[n - 1].name] else front
  }

  /** The names reported are those of the present indices, one for one. */
  lemma {:induction false} PresentContigsIndices(sr: SamReaderView, d: Dictionary, cram: bool, n: nat)
    requires n <= |d|
    ensures var ix := PresentIndices(sr, d, cram, n);
            var names := PresentContigs(sr, d, cram, n);
            |names| == |ix| && forall k :: 0 <= k < |ix| ==> names[k] == d[ix[k]].name
  {
    if n > 0 {
      PresentContigsIndices(sr, d, cram, n - 1);
    }
  }

  /** Since dictionary names are unique, no contig is reported twice. */
  lemma PresentContigsDistinct(sr: SamReaderView, d: Dictionary, cram: bool)
    ensures var names := PresentContigs(sr, d, cram, |d|);
            forall k, l :: 0 <= k < l < |names| ==> names[k] != names[l]
  {
    PresentContigsIndices(sr, d, cram, |d|);
    var ix := PresentIndices(sr, d, cram, |d|);
    var names := PresentContigs(sr, d, cram, |d|);
    forall k, l | 0 <= k < l < |names|
      ensures names[k] != names[l]
    {
      assert ix[k] < ix[l];
    }
  }

  /** A name is reported iff it is a contig of the dictionary with data. */
  lemma PresentContigsMembership(sr: SamReaderView, d: Dictionary, cram: bool, s: string)
    ensures s in PresentContigs(sr, d, cram, |d|)
        <==> exists i :: 0 <= i < |d| && d[i].name == s && Present(sr, d, i, cram)
  {
    PresentContigsIndices(sr, d, cram, |d|);
    var ix := PresentIndices(sr, d, cram, |d|);
    var names := PresentContigs(sr, d, cram, |d|);
    if s in names {
      var k :| 0 <= k < |names| && names[k] == s;
      assert d[ix[k]].name == s && Present(sr, d, ix[k], cram);
    }
    if exists i :: 0 <= i < |d| && d[i].name == s && Present(sr, d, i, cram) {
      var i :| 0 <= i < |d| && d[i].name == s && Present(sr, d, i, cram);
      var k :| 0 <= k < |ix| && ix[k] == i;
      assert names[k] == s;
    }
  }

  /** A local file with a tribble index beside it. */
  predicate HasTribbleIndex(src: Source, io: Io) {
    src.Local? && io.fileExists(io.indexPath(src.file))
  }

  /** What `extractMappedContigs()` returns: a `.gz` file's tabix chromosomes; for a local
      file with a tribble index, the sequence names of the index; for a BAM or CRAM file
      with an index, the contigs with data; an `IOException` otherwise. */
  function MappedContigs(src: Source, io: Io): Result<seq<string>> {
    if HasSuffix(src, ".gz") then io.tabixChromosomes(PathOf(src))
    else if HasTribbleIndex(src, io) then
      match io.readFile(io.indexPath(src.file))
      case Failure(e) => Failure(e)
      case Success(raw) =>
        match MayBeGzipped(raw, io)
        case Failure(e) => Failure(e)
        case Success(bytes) => io.loadIndex(PathOf(src), bytes)
    else if IsBam(src) || IsCram(src) then
      match io.openSamReader(src)
      case Failure(e) => Failure(e)
      case Success(sr) =>
        if !sr.hasIndex then Failure(Error(IoError, PathOf(src)))
        else
          var d := sr.header.dictionary;
          Success(PresentContigs(sr, d, HasSuffix(src, ".cram"), |d|))
    else Failure(Error(IoError, PathOf(src)))
  }

  /** The branches of `extractMappedContigs()`, in the order it tries them. */
  lemma MappedContigsBranches(src: Source, io: Io)
    ensures HasSuffix(src, ".gz") ==> MappedContigs(src, io) == io.tabixChromosomes(PathOf(src))
    ensures !HasSuffix(src, ".gz") && HasTribbleIndex(src, io)
            && io.readFile(io.indexPath(src.file)).Success?
            && MayBeGzipped(io.readFile(io.indexPath(src.file)).value, io).Success?
        ==> MappedContigs(src, io)
            == io.loadIndex(PathOf(src), MayBeGzipped(io.readFile(io.indexPath(src.file)).value, io).value)
    ensures !HasSuffix(src, ".gz") && !HasTribbleIndex(src, io) && (IsBam(src) || IsCram(src))
            && io.openSamReader(src).Success? && !io.openSamReader(src).value.hasIndex
        ==> MappedContigs(src, io) == Failure(Error(IoError, PathOf(src)))
    ensures !HasSuffix(src, ".gz") && !HasTribbleIndex(src, io) && (IsBam(src) || IsCram(src))
            && io.openSamReader(src).Success? && io.openSamReader(src).value.hasIndex
        ==> var sr := io.openSamReader(src).value;
            var d := sr.header.dictionary;
            MappedContigs(src, io) == Success(PresentContigs(sr, d, HasSuffix(src, ".cram"), |d|))
    ensures !HasSuffix(src, ".gz") && !HasTribbleIndex(src, io) && !IsBam(src) && !IsCram(src)
        ==> MappedContigs(src, io) == Failure(Error(IoError, PathOf(src)))
  {
  }

  /** For an indexed BAM or CRAM file, a name is reported iff it is a contig of the
      dictionary with data. */
  lemma IndexedAlignmentContigs(src: Source, io: Io, s: string)
    requires !HasSuffix(src, ".gz") && !HasTribbleIndex(src, io) && (IsBam(src) || IsCram(src))
    requires io.openSamReader(src).Success? && io.openSamReader(src).value.hasIndex
    ensures MappedContigs(src, io).Success?
    ensures var sr := io.openSamReader(src).value;
            var d := sr.header.dictionary;
            s in MappedContigs(src, io).value
            <==> exists i :: 0 <= i < |d| && d[i].name == s && Present(sr, d, i, HasSuffix(src, ".cram"))
  {
    var sr := io.openSamReader(src).value;
    PresentContigsMembership(sr, sr.header.dictionary, HasSuffix(src, ".cram"), s);
  }

  /** The loop over the dictionary of an indexed BAM or CRAM file. */
  method CollectPresent(sr: SamReaderView, cram: bool) returns (contigs: seq<string>)
    ensures contigs == PresentContigs(sr, sr.header.dictionary, cram, |sr.header.dictionary|)
  {
    var d := sr.header.dictionary;
    contigs := [];
    for i := 0 to |d|
      invariant contigs == PresentContigs(sr, d, cram, i)
    {
      if cram {
        if sr.hasRecordAtStart(d[i].name) {
          contigs := contigs + [d[i].name];
        }
      } else {
        var meta := sr.metaData(i);
        if meta == None || meta.value == 0 {
          continue;
        }
        contigs := contigs + [d[i].name];
      }
    }
  }

  /** `extractMappedContigs()`. */
  method ExtractMappedContigs(src: Source, io: Io) returns (r: Result<seq<string>>)
    ensures r == MappedContigs(src, io)
  {
    if HasSuffix(src, ".gz") {
      return io.tabixChromosomes(PathOf(src));
    }
    if HasTribbleIndex(src, io) {
      var raw := io.readFile(io.indexPath(src.file));
      if raw.Failure? {
        return Failure(raw.error);
      }
      var bytes := MayBeGzipped(raw.value, io);
      if bytes.Failure? {
        return Failure(bytes.error);
      }
      return io.loadIndex(PathOf(src), bytes.value);
    }
    if IsBam(src) || IsCram(src) {
      var sr := io.openSamReader(src);
      if sr.Failure? {
        return Failure(sr.error);
      }
      if !sr.value.hasIndex {
        return Failure(Error(IoError, PathOf(src)));
      }
      var contigs := CollectPresent(sr.value, HasSuffix(src, ".cram"));
      return Success(contigs);
    }
    return Failure(Error(IoError, PathOf(src)));
  }

  /** On a CRAM file only the contigs a query at position 1 finds are kept, whatever the
      index metadata says. */
  lemma CramKeepsQueriedContigs(sr: SamReaderView, a: SequenceRecord, b: SequenceRecord,
                                c: SequenceRecord)
    requires sr.header.dictionary == [a, b, c]
    requires sr.hasRecordAtStart(a.name) && !sr.hasRecordAtStart(b.name)
    requires sr.hasRecordAtStart(c.name)
    ensures PresentContigs(sr, sr.header.dictionary, true, 3) == [a.name, c.name]
  {
    var d := sr.header.dictionary;
    assert PresentContigs(sr, d, true, 1) == [a.name];
    assert PresentContigs(sr, d, true, 2) == [a.name];
  }
}
