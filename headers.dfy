/** The headers the core reads metadata from, as far as it uses them. */
module Headers {
  import opened Wrappers
  import opened Dictionary

  /** htsjdk `VCFHeader`: its `##contig` dictionary, when it has one (`getSequenceDictionary`
      is null otherwise), and its genotype sample names. */
  datatype VcfHeader = VcfHeader(dictionary: Option<Dictionary>, samples: seq<string>)

  /** A `SAMReadGroupRecord`: its attributes by tag (`SM`, `LB`, ...). */
  type ReadGroup = map<string, string>

  /** htsjdk `SAMFileHeader`: its sequence dictionary (possibly empty) and read groups. */
  datatype SamHeader = SamHeader(dictionary: Dictionary, readGroups: seq<ReadGroup>)
}
