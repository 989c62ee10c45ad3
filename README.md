# nf-htsjdk utilities, modelled in Dafny

This project models the core of the nf-htsjdk plugin's `HtsjdkUtils` class. That core covers:

- the reference-build catalogue:
  - the contig predicates (by name and length, or by MD5);
  - builds, which match a sequence dictionary when all of their predicates hold;
  - the XML reader for the bundled catalogue;
  - the decoder for builds given in the `htsjdk.builds` configuration entry.
- the `HtsSource` wrapper around a local path or a URL:
  - file name and base name, suffix tests and sibling lookup;
  - the conversion of pipeline objects into sources.
- the metadata readers:
  - gzip and BCF sniffing and the BCF header framing;
  - `dictionaryFromFai`, `extractDictionary`, `extractSamples` and `extractMappedContigs`.

htsjdk, the file system, the network and the XML and URI libraries are not modelled. Their results are fields of an `Io` value (module `Io`), and each is a total function whose exceptions appear as `Failure`s. An exception is modelled by its class (`ErrorKind`) and a subject, a short string that identifies the failure. It is not the exception's message. Only four messages are kept word for word: "no predicate for build", "error in XML", "Premeture EOF from inputStream" and "source cannot be null". Every other subject is either an abridged message or the path, tag, key, line or text that the failure concerns. "## Left out" lists which.

The modules and what they model:

| module | models |
|---|---|
| `Wrappers` | `Option`, `Result` and the exception classes; `MapResult`, which applies a function to a list and stops at the first failure |
| `JavaStrings` | the `String` operations the code relies on: `lastIndexOf`, `toLowerCase`, `trim`, `split` on one character, `Integer.parseInt`, `StringUtil.isBlank` |
| `Dictionary` | `SAMSequenceRecord` and `SAMSequenceDictionary` (names are unique) |
| `Matchers` | `ContigLengthMatcher`, `ContigMD5Matcher`, `simpleChromName` |
| `Builds` | `Build.match` and the `BuildImpl` class |
| `BuildXml` | `parseBuild`, which reads an XML event sequence |
| `BuildConfig` | `decodeBuilds`; its two loops are methods, proved against functions |
| `Sources` | `HtsSource`, `HtsPath`, `HtsUrl`, `toHtsSource`, `findHtsSource` |
| `Streams` | `mayBeGzippedInputStream`, `decodeVCFHeader`, `readFully`. A `ByteStream` class stands for the buffered stream: it has a mark and a read that may return fewer bytes than asked |
| `Resolver` | `openInputStream`, `openBufferedReader`, `extractVcfHeader`, `extractSamFileHeader`, `dictionaryFromFai`, `extractDictionary` |
| `Samples` | `extractSamples` |
| `Contigs` | `extractMappedContigs`; its loop over the dictionary is a method |

## Model

| member | source | states |
|---|---|---|
| Matchers.LengthMatchExact | plugins/nf-htsjdk/src/main/nextflow/htsjdk/HtsjdkUtils.java:118-123 | Without chromosome resolution, the length predicate holds iff some contig has exactly that name and that length. |
| Matchers.LengthMatchResolved | plugins/nf-htsjdk/src/main/nextflow/htsjdk/HtsjdkUtils.java:125-139 | With resolution, it holds iff some contig has exactly that length and the same normalised name. |
| Matchers.Md5Match | plugins/nf-htsjdk/src/main/nextflow/htsjdk/HtsjdkUtils.java:147-151 | The MD5 predicate holds iff some contig carries exactly that MD5 (a contig without one never matches). The resolution flag changes nothing. |
| Matchers.MitochondrialNames | plugins/nf-htsjdk/src/main/nextflow/htsjdk/HtsjdkUtils.java:134-139 | "M", "MT", "chrM", "chrMT", "ChrMt" and "m" all normalise to "mt". |
| Matchers.SimpleChromNameIgnoresCase | plugins/nf-htsjdk/src/main/nextflow/htsjdk/HtsjdkUtils.java:134-135 | Normalisation gives the same result on a name and on its lower-case form. |
| Matchers.ChrPrefixIgnored | plugins/nf-htsjdk/src/main/nextflow/htsjdk/HtsjdkUtils.java:134-138 | A leading "chr", in any case, is dropped once: "chr" + s normalises like s when s does not itself start with "chr". |
| Matchers.ResolvedLengthMustAgree | plugins/nf-htsjdk/src/main/nextflow/htsjdk/HtsjdkUtils.java:118-139 | Contig "1" with the right length satisfies the resolved predicate for "chr1". The same contig with another length does not. Without resolution, the name must match exactly. |
| Matchers.AnyRecordIff | plugins/nf-htsjdk/src/main/nextflow/htsjdk/HtsjdkUtils.java:125-127 | `anyMatch` over the records holds iff some record satisfies the predicate. |
| Dictionary.GetSequence | plugins/nf-htsjdk/src/main/nextflow/htsjdk/HtsjdkUtils.java:120-121 | `getSequence(name)` returns a record of that name, or none when no record has it. |
| Dictionary.GetSequenceUnique | plugins/nf-htsjdk/src/main/nextflow/htsjdk/HtsjdkUtils.java:120-122 | Since names are unique, the record found is the one at any index that has the name. |
| Builds.AllHoldIff | plugins/nf-htsjdk/src/main/nextflow/htsjdk/HtsjdkUtils.java:174 | `allMatch` holds iff every predicate holds. |
| Builds.Match | plugins/nf-htsjdk/src/main/nextflow/htsjdk/HtsjdkUtils.java:173-175 | A build matches iff every predicate holds; with no predicates it matches any dictionary. |
| Builds.MatchMonotone | plugins/nf-htsjdk/src/main/nextflow/htsjdk/HtsjdkUtils.java:171-175 | Adding predicates can only turn a match into a non-match. |
| Builds.BuildImpl.constructor | plugins/nf-htsjdk/src/main/nextflow/htsjdk/HtsjdkUtils.java:167-171 | A new `BuildImpl` has id, version and organism "." and no predicate. |
| Builds.BuildImpl.MatchDictionary | plugins/nf-htsjdk/src/main/nextflow/htsjdk/HtsjdkUtils.java:172-175 | The object's `match` holds iff each predicate in its field holds. |
| BuildXml.ElementText | plugins/nf-htsjdk/src/main/nextflow/htsjdk/HtsjdkUtils.java:473 | `getElementText` consumes events up to and including an end tag, which lies inside the input. |
| BuildXml.ElementTextValue | plugins/nf-htsjdk/src/main/nextflow/htsjdk/HtsjdkUtils.java:473 | The text returned is the `Characters` before that end tag, joined in order, with comments skipped. |
| BuildXml.ElementTextOutcome | plugins/nf-htsjdk/src/main/nextflow/htsjdk/HtsjdkUtils.java:473 | It succeeds only after text and comments. It fails, with an XML error, exactly when a nested start tag or the end of input comes before any end tag. |
| BuildXml.WithText | plugins/nf-htsjdk/src/main/nextflow/htsjdk/HtsjdkUtils.java:472-484 | A text element sets one field, or adds an MD5 predicate. The predicates seen so far are kept as a prefix. |
| BuildXml.ParseStep | plugins/nf-htsjdk/src/main/nextflow/htsjdk/HtsjdkUtils.java:469-505 | One event moves strictly forward and only adds predicates. A `</build>` ends with the build as it is, and only when it has a predicate; without one it is the "no predicate for build" error. A tag other than the five known ones is an error naming it. A `<contig>` without `name`, or with a name but no `length`, is the matching "missing" error. |
| BuildXml.UndefinedTagRefused | plugins/nf-htsjdk/src/main/nextflow/htsjdk/HtsjdkUtils.java:485-497 | The whole parse ends with that error when it reaches an undefined tag or a `<contig>` that lacks an attribute. |
| BuildXml.ParsedBuildHasPredicates | plugins/nf-htsjdk/src/main/nextflow/htsjdk/HtsjdkUtils.java:499-504 | A build `parseBuild` returns has at least one predicate. The parse stops right after a `</build>` that lies inside the input. |
| BuildXml.ParseBuild | plugins/nf-htsjdk/src/main/nextflow/htsjdk/HtsjdkUtils.java:465-508 | The loop fills a fresh `BuildImpl` exactly as the event-by-event definition does. It fails with the same error, or returns the same build and position. |
| BuildXml.BuildRoundTrip | plugins/nf-htsjdk/src/main/nextflow/htsjdk/HtsjdkUtils.java:465-508 | Any build with trimmed texts and at least one predicate is read back from its XML events, whatever follows them. |
| Wrappers.MapResult | plugins/nf-htsjdk/src/main/nextflow/htsjdk/HtsjdkUtils.java:569-592 | Decoding a list element by element succeeds iff every element decodes. The result then has one value per element, in order. |
| BuildConfig.DecodeBuilds | plugins/nf-htsjdk/src/main/nextflow/htsjdk/HtsjdkUtils.java:541-595 | The loop over `htsjdk.builds` returns what `DecodeBuildsAsWritten` defines: the defaults for null, an error for a non-list or for the first bad entry, and otherwise an empty list. |
| BuildConfig.DecodeEntryLoop | plugins/nf-htsjdk/src/main/nextflow/htsjdk/HtsjdkUtils.java:553-593 | The loop over one `builds[i]` entry and its chromosomes agrees with `DecodeEntry`, error for error. |
| BuildConfig.BuildIsLost | plugins/nf-htsjdk/src/main/nextflow/htsjdk/HtsjdkUtils.java:550-594 | A valid one-build configuration decodes, as written, to the empty list. The intended decoding returns that build. |
| BuildConfig.IntendedKeepsEveryBuild | plugins/nf-htsjdk/src/main/nextflow/htsjdk/HtsjdkUtils.java:550-594 | The intended decoding returns one build per entry, named after it, with one predicate per chromosome (at least one). |
| BuildConfig.IntendedIsStricter | plugins/nf-htsjdk/src/main/nextflow/htsjdk/HtsjdkUtils.java:552-593 | Whatever the intended decoding accepts, the code as written accepts too. |
| BuildConfig.AgreeOutsideNonEmptyLists | plugins/nf-htsjdk/src/main/nextflow/htsjdk/HtsjdkUtils.java:542-549 | For null, a non-list or an empty list, both decodings agree. |
| BuildConfig.BuildConfigRoundTrip | plugins/nf-htsjdk/src/main/nextflow/htsjdk/HtsjdkUtils.java:557-591 | A build with predicates is read back from the configuration entry that describes it. |
| JavaStrings.LastIndexOf | plugins/nf-htsjdk/src/main/nextflow/htsjdk/HtsjdkUtils.java:190 | `lastIndexOf(c)` gives -1 or an index holding `c` with no `c` after it. |
| JavaStrings.Trim | plugins/nf-htsjdk/src/main/nextflow/htsjdk/HtsjdkUtils.java:473 | After `trim()`, no character up to U+0020 is left at either end. |
| JavaStrings.TrimIsSlice | plugins/nf-htsjdk/src/main/nextflow/htsjdk/HtsjdkUtils.java:473 | `trim()` keeps one contiguous slice of the text and cuts off only characters up to U+0020 before and after it. |
| JavaStrings.JavaSplit | plugins/nf-htsjdk/src/main/nextflow/htsjdk/HtsjdkUtils.java:289 | No field of `split("[\t]")` contains a tab. |
| JavaStrings.ParseIntDecimal | plugins/nf-htsjdk/src/main/nextflow/htsjdk/HtsjdkUtils.java:290-291 | `Integer.parseInt` reads back the decimal text of every `int`. |
| Sources.ParsePathString | plugins/nf-htsjdk/src/main/nextflow/htsjdk/HtsjdkUtils.java:404 | `Paths.get` reads back the text `toString` writes for a path. |
| Sources.Filename | plugins/nf-htsjdk/src/main/nextflow/htsjdk/HtsjdkUtils.java:413-440 | A path's file name is its last name. A URL's file name is a '/'-free suffix of its path; `FilenameOfUrl` says which one. |
| Sources.FilenameOfUrl | plugins/nf-htsjdk/src/main/nextflow/htsjdk/HtsjdkUtils.java:435-440 | A URL's file name is the text after the last '/' of its path, or the whole path when it has no '/'. |
| Sources.UrlFilename | plugins/nf-htsjdk/src/main/nextflow/htsjdk/HtsjdkUtils.java:435-440 | The file name of a URL whose path is `dir/name`, with no '/' in `name`, is `name`. |
| Sources.Basename | plugins/nf-htsjdk/src/main/nextflow/htsjdk/HtsjdkUtils.java:188-192 | A file name without '.' has base name "". Otherwise the file name is the base name, a '.', then a '.'-free extension. |
| Sources.SiblingIsChild | plugins/nf-htsjdk/src/main/nextflow/htsjdk/HtsjdkUtils.java:416-418 | `HtsPath.resolveSibling(fn)` appends `fn` to the file's own names, so the result lies inside the file. On the empty path, `Path.resolve` gives `fn` alone. |
| Sources.DictSiblingOfFasta | plugins/nf-htsjdk/src/main/nextflow/htsjdk/HtsjdkUtils.java:416-418 | As written, the `.dict` of `/data/ref.fa` is looked up as `/data/ref.fa/ref.dict`. |
| Sources.SiblingIsSibling | plugins/nf-htsjdk/src/main/nextflow/htsjdk/HtsjdkUtils.java:416-418 | Resolved as intended, `fn` replaces the last name of a path with a parent, and the result has the file's parent. |
| Sources.SiblingOfUrlUnchanged | plugins/nf-htsjdk/src/main/nextflow/htsjdk/HtsjdkUtils.java:441-447 | For a URL, the code as written and the intended lookup resolve a name the same way. |
| Sources.DictBesideFasta | plugins/nf-htsjdk/src/main/nextflow/htsjdk/HtsjdkUtils.java:416-418 | As intended, the `.dict` of `/data/ref.fa` is `/data/ref.dict`. |
| Sources.ToHtsSource | plugins/nf-htsjdk/src/main/nextflow/htsjdk/HtsjdkUtils.java:599-623 | Null and unknown objects give no source. There are only two failures, both `IllegalArgumentException`s: a string that looks like a URL but is malformed, and a path string or file containing a NUL. A URL `u` gives `Remote(u)`, and a string accepted as a URL gives the URL it parses to. Any other string or file without a NUL gives the local path `Paths.get` reads from it. A path `p` gives `Local(p)`. |
| Sources.PathOfText | plugins/nf-htsjdk/src/main/nextflow/htsjdk/HtsjdkUtils.java:614 | `Paths.get` refuses exactly the texts containing a NUL, and otherwise gives the parsed path. |
| Sources.PathTextRoundTrip | plugins/nf-htsjdk/src/main/nextflow/htsjdk/HtsjdkUtils.java:612-620 | The text of a path, passed as a non-URL string or as a file, gives the same source as the path itself. |
| Sources.FindHtsSourceSpec | plugins/nf-htsjdk/src/main/nextflow/htsjdk/HtsjdkUtils.java:629-642 | `findHtsSource` returns the converted source iff there is one and the predicate accepts it. Otherwise it throws `IllegalArgumentException`. |
| Streams.HeaderLengthOfLE32 | plugins/nf-htsjdk/src/main/nextflow/htsjdk/HtsjdkUtils.java:686 | `BCF2Type.INT32.read` decodes the four little-endian bytes of any `int`. |
| Streams.BcfFrameRoundTrip | plugins/nf-htsjdk/src/main/nextflow/htsjdk/HtsjdkUtils.java:679-697 | For a BCF stream (magic, version, length, text), exactly the header text goes to the codec, whatever follows it. |
| Streams.TruncatedBcfRefused | plugins/nf-htsjdk/src/main/nextflow/htsjdk/HtsjdkUtils.java:682-688 | A BCF stream that ends before its length is complete reads the missing bytes as 0xFF. Its length is then negative, so it is refused. |
| Streams.ShortBcfBodyRefused | plugins/nf-htsjdk/src/main/nextflow/htsjdk/HtsjdkUtils.java:689-690 | A BCF header shorter than its announced length is a premature-EOF error. |
| Streams.GzipIsTransparent | plugins/nf-htsjdk/src/main/nextflow/htsjdk/HtsjdkUtils.java:645-656 | A gzip stream is decoded as its inflated bytes. Plain text without the BCF magic goes to the codec as it is. |
| Streams.ReadFully | plugins/nf-htsjdk/src/main/nextflow/htsjdk/HtsjdkUtils.java:701-711 | If enough bytes remain, exactly `len` bytes are copied to `buf[off..off+len]` and the rest of `buf` is unchanged. Otherwise the stream is drained and the result is the premature-EOF error. |
| Streams.ReadInt32 | plugins/nf-htsjdk/src/main/nextflow/htsjdk/HtsjdkUtils.java:686 | Reading the length consumes at most four bytes and gives their little-endian value. |
| Streams.ReadBcfBody | plugins/nf-htsjdk/src/main/nextflow/htsjdk/HtsjdkUtils.java:682-697 | After the magic, the stream code gives what `BcfBody` defines: a length ≤ 0 is an error, and otherwise exactly that many bytes are decoded. |
| Streams.SniffMagic | plugins/nf-htsjdk/src/main/nextflow/htsjdk/HtsjdkUtils.java:664-672 | The magic test is true iff the stream starts with "BCF". When it is false, the stream is reset to its start. |
| Streams.DecodeVcfHeader | plugins/nf-htsjdk/src/main/nextflow/htsjdk/HtsjdkUtils.java:662-698 | `decodeVCFHeader` returns what `VcfHeaderOf` defines for the stream's bytes. |
| Resolver.FaiRecord | plugins/nf-htsjdk/src/main/nextflow/htsjdk/HtsjdkUtils.java:289-290 | A line with fewer than two fields is an index error. A record read from a line has no MD5 and a tab-free name. |
| Resolver.FaiRecordOfLine | plugins/nf-htsjdk/src/main/nextflow/htsjdk/HtsjdkUtils.java:289-290 | Column 0 is the name and column 1 the length; further columns are ignored. |
| Resolver.DictionaryFromFai | plugins/nf-htsjdk/src/main/nextflow/htsjdk/HtsjdkUtils.java:283-294 | A name not ending in `.fai` is refused with its path. Otherwise the dictionary holds one record per line, in line order. |
| Resolver.FaiRoundTrip | plugins/nf-htsjdk/src/main/nextflow/htsjdk/HtsjdkUtils.java:283-294 | A `.fai` file written from records with distinct, tab-free names gives those records back. |
| Resolver.ExtractVcfHeader | plugins/nf-htsjdk/src/main/nextflow/htsjdk/HtsjdkUtils.java:269-279 | A non-VCF name is refused with its path. Otherwise the header is decoded from the raw stream. |
| Resolver.ExtractSamFileHeader | plugins/nf-htsjdk/src/main/nextflow/htsjdk/HtsjdkUtils.java:249-263 | An interval list is read from its lines and a BAM, CRAM or SAM file from its stream. Any other name is refused with its path. |
| Resolver.Branch | plugins/nf-htsjdk/src/main/nextflow/htsjdk/HtsjdkUtils.java:299-328 | The branch `extractDictionary` takes. A local file that is not a `.fai` always goes to the extractor, so only remote FASTA, BAM, CRAM or SAM sources reach the FASTA or alignment branch. |
| Resolver.ExtractDictionary | plugins/nf-htsjdk/src/main/nextflow/htsjdk/HtsjdkUtils.java:297-332 | It succeeds iff the branch taken found a non-empty dictionary, and it then returns that dictionary. A missing or empty dictionary is an error naming the path, whichever branch ran, and the errors of the branch pass through. |
| Resolver.DictionaryOfVcf | plugins/nf-htsjdk/src/main/nextflow/htsjdk/HtsjdkUtils.java:298-303 | A VCF gives its header's dictionary. A null header, or a header without a dictionary, is an `IOException` naming the path. |
| Resolver.DictionaryOfLocalFile | plugins/nf-htsjdk/src/main/nextflow/htsjdk/HtsjdkUtils.java:304-306 | A local file that is neither a VCF nor a `.fai` gives what htsjdk's extractor returns, and its failures pass through. |
| Resolver.DictionaryOfFai | plugins/nf-htsjdk/src/main/nextflow/htsjdk/HtsjdkUtils.java:308-310 | A `.fai` gives the dictionary `dictionaryFromFai` reads, and its failures pass through. |
| Resolver.FaiDictionaryRoundTrip | plugins/nf-htsjdk/src/main/nextflow/htsjdk/HtsjdkUtils.java:283-310 | A `.fai` written from a non-empty list of records with distinct, tab-free names gives back exactly that list. |
| Resolver.DictionaryOfFasta | plugins/nf-htsjdk/src/main/nextflow/htsjdk/HtsjdkUtils.java:311-319 | A FASTA file whose `.dict` opens gives the dictionary of the decoded `.dict` header. |
| Resolver.DictionaryOfAlignment | plugins/nf-htsjdk/src/main/nextflow/htsjdk/HtsjdkUtils.java:325-327 | A BAM, CRAM or SAM file gives its header's dictionary. A null header is a `NullPointerException`, and a header failure passes through. |
| Resolver.UnknownSourceHasNoDictionary | plugins/nf-htsjdk/src/main/nextflow/htsjdk/HtsjdkUtils.java:297-329 | A remote source of no known kind gets the "cannot extract dictionary" error. |
| Resolver.FastaFallsBackOnFai | plugins/nf-htsjdk/src/main/nextflow/htsjdk/HtsjdkUtils.java:312-324 | When the FASTA's `.dict` cannot be opened (an `IOException`), the dictionary comes from the `.fai` named after the file name. |
| Samples.ReadGroupValues | plugins/nf-htsjdk/src/main/nextflow/htsjdk/HtsjdkUtils.java:345-350 | A value is collected iff it is non-blank and some read group has it for the attribute. |
| Samples.SampleAttribute | plugins/nf-htsjdk/src/main/nextflow/htsjdk/HtsjdkUtils.java:344 | A null or blank attribute becomes `SM`, and any other is used as given, so the attribute looked up is never blank. |
| Samples.ExtractSamples | plugins/nf-htsjdk/src/main/nextflow/htsjdk/HtsjdkUtils.java:339-353 | A VCF gives exactly its header's genotype samples, in order. A null VCF header is a `NullPointerException`, and a failure to read the header passes through. Other kinds give a set of non-blank values, which is empty when the header is null. Any kind but VCF, BAM, CRAM, SAM or interval list is an `IOException` naming the path. |
| Samples.BlankAttributeMeansSample | plugins/nf-htsjdk/src/main/nextflow/htsjdk/HtsjdkUtils.java:334-344 | A null or blank attribute is the same as asking for `SM`. |
| Samples.SamplesOfReadGroups | plugins/nf-htsjdk/src/main/nextflow/htsjdk/HtsjdkUtils.java:343-350 | For an alignment file or interval list with a header, a sample is reported iff some read group carries it, non-blank. |
| Contigs.PresentIndices | plugins/nf-htsjdk/src/main/nextflow/htsjdk/HtsjdkUtils.java:376-389 | The kept indices increase, each has data, and every index with data is kept. |
| Contigs.PresentContigsIndices | plugins/nf-htsjdk/src/main/nextflow/htsjdk/HtsjdkUtils.java:376-389 | The reported names are the names at the kept indices, one for one and in order. |
| Contigs.PresentContigsDistinct | plugins/nf-htsjdk/src/main/nextflow/htsjdk/HtsjdkUtils.java:373-390 | No contig is reported twice. |
| Contigs.PresentContigsMembership | plugins/nf-htsjdk/src/main/nextflow/htsjdk/HtsjdkUtils.java:376-389 | A name is reported iff it is a dictionary contig with data: a record found at position 1 for CRAM, and a non-zero aligned count in the index metadata otherwise. |
| Contigs.CollectPresent | plugins/nf-htsjdk/src/main/nextflow/htsjdk/HtsjdkUtils.java:374-390 | The loop over the dictionary builds exactly `PresentContigs`. |
| Contigs.ExtractMappedContigs | plugins/nf-htsjdk/src/main/nextflow/htsjdk/HtsjdkUtils.java:355-394 | The method returns what `MappedContigs` defines, which `MappedContigsBranches` characterises. |
| Contigs.MappedContigsBranches | plugins/nf-htsjdk/src/main/nextflow/htsjdk/HtsjdkUtils.java:355-393 | A `.gz` file gives its tabix chromosomes. Otherwise a local file with an existing tribble index gives the names of that index. Otherwise an indexed BAM or CRAM gives its present contigs, and an unindexed one is an `IOException` naming the path. Any other file is an `IOException` naming the path. |
| Contigs.IndexedAlignmentContigs | plugins/nf-htsjdk/src/main/nextflow/htsjdk/HtsjdkUtils.java:368-390 | For an indexed BAM or CRAM file, a name is reported iff it is a dictionary contig with data. |
| Contigs.CramKeepsQueriedContigs | plugins/nf-htsjdk/src/main/nextflow/htsjdk/HtsjdkUtils.java:377-380 | For a CRAM file, only the contigs where a query at position 1 finds a record are kept. |

## Left out

- getDefaultBuilds: it reads the catalogue from a classpath resource and caches it behind a lock. `decodeBuilds` takes its result as the parameter `defaults`. The XML parser is not part of this model: `parseBuild` works on a sequence of events.
- The foreign calls are fields of `Io`, each total and deterministic: htsjdk's codecs, readers and indexes, the file system, `ParsingUtils`, `TabixReader`, `IndexFactory`, `SAMSequenceDictionaryExtractor` and `URI.resolve` (the URI reference resolution of section 5.2 of RFC 3986). Closing streams and readers is not modelled.
- JavaStrings.ToLower: only the ASCII letters are folded, not the rest of Unicode and not locale-specific rules. `ParseInt` likewise accepts only ASCII digits.
- Resolver.OpenLines: the lines of a decoded stream are the oracle `Io.lines`; character decoding and line splitting are not modelled.
- Sources.PathOfText: `Paths.get` and `File.toPath` also refuse characters that the platform's file-name encoding cannot map. That depends on the JVM's locale, so the model refuses only NUL. `Path.resolve(fn)` in `ResolvePath` is taken to accept any `fn`. Its `fn` is always built from a file name, which holds no NUL.
- Sources.Filename: the root path, whose `getFileName()` is null and makes the source throw, gets the empty name instead.
- Streams.MayBeGzipped: gzip is recognised by its two signature bytes. `IOUtil.isGZIPInputStream` actually tries to inflate the stream, so a stream with the signature but corrupt data is passed to the oracle `gunzip`, which fails.
- Streams.SniffMagic: the three-byte magic read is taken to fill its buffer whenever three bytes remain. `BufferedInputStream` does this for a buffer of that size. The `BCFVersion` constructor is taken to accept any version bytes.
- Contigs.ExtractMappedContigs: a failure of `sr.indexing().getIndex()` is not modelled, and the order of tabix chromosomes is whatever the oracle gives (the source copies a set).
- BuildConfig.DecodeBuild: the intended decoding refuses a null MD5 or contig name. As written, these are accepted and would fail later, when the predicate is evaluated.
- Dictionary.MakeDictionary: only the refusal of a repeated name is modelled, not htsjdk's other checks on record names.
- Exception messages: no `XMLStreamException` keeps its location. Otherwise the message is replaced by its subject, as follows:
  - a message that names the source (for example, "cannot extract samples from " + path) becomes the path;
  - "undefined tag <x>" becomes the tag name;
  - a number that does not parse becomes its text;
  - a `.fai` line with too few columns becomes that line;
  - a URL that cannot be resolved or built becomes the text given;
  - a JVM cast or null failure in the configuration becomes the key read ("md5", "name", "length", "builds[i].name", "builds[i].chromosomes");
  - "@name missing " and "@length missing " lose their trailing blank;
  - "BCF2 header has invalid length: n must be >= 0" becomes its fixed prefix, without the length;
  - the `decodeBuilds` messages drop their "config htsjdk : " or "in htsjdk config." prefix and any class name, and keep the letters i and j where the code prints the indices;
  - the `findHtsSource` messages keep their fixed words but not the object;
  - a nested start tag inside a text element becomes the tag name;
  - the end of input inside one becomes "unexpected end of document";
  - a repeated name in a dictionary becomes "sequence dictionary".
- Sources: no lemma is proved that the FASTA, BAM, CRAM and SAM suffixes are disjoint.

## Findings

| source | as written | input that shows it | evidently intended | confidence | as-written member | corrected member |
|---|---|---|---|---|---|---|
| plugins/nf-htsjdk/src/main/nextflow/htsjdk/HtsjdkUtils.java:550-594 | `decodeBuilds` fills a `BuildImpl` for each configured entry but never adds it to `builds`, so a non-empty configuration yields an empty list | `htsjdk.builds = [[name: "GRCh38", chromosomes: [[name: "chr1", length: 248956422]]]]` | one build per configured entry is returned | high (not executed) | BuildConfig.DecodeBuildsAsWritten, BuildConfig.BuildIsLost | BuildConfig.DecodeBuildsIntended, BuildConfig.IntendedKeepsEveryBuild |
| plugins/nf-htsjdk/src/main/nextflow/htsjdk/HtsjdkUtils.java:416-418 | `HtsPath.resolveSibling(fn)` calls `Path.resolve`, so the "sibling" lies inside the file | `/data/ref.fa` with `ref.dict` gives `/data/ref.fa/ref.dict` | `Path.resolveSibling`: `/data/ref.dict` | medium (not executed); `extractDictionary` reaches this lookup only for URLs, where both agree (`SiblingOfUrlUnchanged`) | Sources.ResolveSibling, Sources.DictSiblingOfFasta | Sources.ResolveSiblingIntended, Sources.SiblingIsSibling |
