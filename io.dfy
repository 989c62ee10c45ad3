/** The foreign calls the core makes: htsjdk's codecs, readers and indexes, the file system,
    the network and the gzip inflater. Each is a total function of what it reads, with its
    exceptions as `Failure`s; the model never looks inside them. */
module Io {
  import opened Wrappers
  import opened Dictionary
  import opened Headers
  import opened Sources

  /** An open `SamReader`: whether it has an index, its header, the index metadata of the
      i-th reference (`BAMIndex.getMetaData(i)`: none for null, else the aligned-record
      count), and whether a `queryAlignmentStart(contig, 1)` iterator has a record. */
  datatype SamReaderView = SamReaderView(
    hasIndex: bool,
    header: SamHeader,
    metaData: nat -> Option<nat>,
    hasRecordAtStart: string -> bool)

  datatype Io = Io(
    readFile: PathValue -> Result<Bytes>,          // Files.newInputStream, read to the end
    fetch: Url -> Result<Bytes>,                   // ParsingUtils.openInputStream(url)
    gunzip: Bytes -> Result<Bytes>,                // GZIPInputStream, read to the end
    lines: Bytes -> seq<string>,                   // InputStreamReader + BufferedReader.lines()
    vcfCodec: Bytes -> Result<Option<VcfHeader>>,  // VCFCodec.readActualHeader
    dictCodec: Bytes -> Result<SamHeader>,         // SAMTextHeaderCodec.decode
    intervalListHeader: seq<string> -> Result<Option<SamHeader>>,  // IntervalList.fromReader(r).getHeader()
    samStreamHeader: Bytes -> Result<Option<SamHeader>>,           // SamReaderFactory.open(is).getFileHeader()
    dictionaryExtractor: PathValue -> Result<Option<Dictionary>>,  // SAMSequenceDictionaryExtractor
    isUrl: string -> bool,                         // IOUtil.isUrl
    newUrl: string -> Option<Url>,                 // new URL(s); None for a MalformedURLException
    resolveUrl: (Url, string) -> Result<Url>,      // URI.resolve(fn).toURL()
    tabixChromosomes: string -> Result<seq<string>>,  // new TabixReader(path).getChromosomes()
    indexPath: PathValue -> PathValue,             // Tribble.indexPath
    fileExists: PathValue -> bool,                 // Files.exists
    loadIndex: (string, Bytes) -> Result<seq<string>>,  // IndexFactory.loadIndex(..).getSequenceNames()
    openSamReader: Source -> Result<SamReaderView>)     // samReaderFactory().open(asSamInputResource())
}
