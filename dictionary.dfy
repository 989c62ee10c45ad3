/** htsjdk's sequence dictionary: an ordered list of contigs, each with a name, a length
    and an optional MD5; names are unique (the dictionary refuses a repeated name). */
module Dictionary {
  import opened Wrappers

  /** `SAMSequenceRecord`. */
  datatype SequenceRecord = SequenceRecord(name: string, length: Int32, md5: Option<string>)

  predicate UniqueNames(records: seq<SequenceRecord>) {
    forall i, j :: 0 <= i < j < |records| ==> records[i].name != records[j].name
  }

  /** `SAMSequenceDictionary`: record order is significant and names are unique. */
  type Dictionary = records: seq<SequenceRecord> | UniqueNames(records)

  /** `SAMSequenceDictionary.getSequence(String)`: the record of that name, if any. */
  function GetSequence(d: seq<SequenceRecord>, name: string): (r: Option<SequenceRecord>)
    ensures r.Some? ==> exists i :: 0 <= i < |d| && d[i] == r.value && r.value.name == name
    ensures r.None? <==> forall i :: 0 <= i < |d| ==> d[i].name != name
  {
    if d == [] then None
    else if d[0].name == name then Some(d[0])
    else
      var r := GetSequence(d[1..], name);
      assert forall i :: 1 <= i < |d| ==> d[i] == d[1..][i - 1];
      r
  }

  /** In a dictionary, the record found by name is the only one with that name. */
  lemma GetSequenceUnique(d: Dictionary, name: string, i: nat)
    requires i < |d| && d[i].name == name
    ensures GetSequence(d, name) == Some(d[i])
  {
    var r := GetSequence(d, name);
    var j :| 0 <= j < |d| && d[j] == r.value && r.value.name == name;
    assert i == j;
  }

  /** `new SAMSequenceDictionary(List)`: refuses a list that repeats a name. */
  function MakeDictionary(records: seq<SequenceRecord>): Result<Dictionary> {
    if UniqueNames(records) then Success(records)
    else Failure(Error(IllegalArgument, "sequence dictionary"))
  }

  /** The names of a dictionary, in order. */
  function Names(d: seq<SequenceRecord>): (names: seq<string>)
    ensures |names| == |d|
    ensures forall i :: 0 <= i < |d| ==> names[i] == d[i].name
  {
    if d == [] then [] else [d[0].name] + Names(d[1..])
  }
}
