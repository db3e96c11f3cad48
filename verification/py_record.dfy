/**
 * The Python-side record (`PyRecord`): content bytes plus a name-to-value
 * map, and its conversions to and from the array form of `Record`. The map
 * form collapses duplicate names; the array form built back from a map has
 * exactly one pair per entry, in the map's iteration order.
 */
module PyRecords {
  import opened Wrappers
  import opened Typedefs
  import opened Metadata

  datatype PyRecord = PyRecord(content: seq<Byte>, metadata: map<string, string>)

  /**
   * The `PyRecord(content, metadata)` constructor called from Python; the
   * `python` module accepts a missing metadata argument as an empty map.
   */
  function New(content: seq<Byte>, metadata: Option<map<string, string>>): (p: PyRecord)
    ensures p.content == content
    ensures metadata.Some? ==> p.metadata == metadata.value
    ensures metadata.None? ==> p.metadata == map[]
  {
    PyRecord(content, metadata.GetOr(map[]))
  }

  /** `From<Record>`: copies the content and collapses the metadata, the last pair of a name winning. */
  function FromRecord(r: Record): (p: PyRecord)
    ensures p.content == r.content && |p.content| == |r.content|
    ensures forall n :: n in p.metadata <==> n in Names(r.metadata)
    ensures forall i :: 0 <= i < |r.metadata| && IsLastOfName(r.metadata, i) ==>
              p.metadata[r.metadata[i].name] == r.metadata[i].value
  {
    PyRecord(r.content, MetadataMap(r.metadata))
  }

  /**
   * `Into<Record>`: the content moved into the buffer and one metadata pair
   * per map entry, in the iteration order `order` of the map.
   */
  function IntoRecord(p: PyRecord, order: seq<string>): (r: Record)
    requires IsEnumeration(order, p.metadata.Keys)
    ensures r.content == p.content
    ensures |r.metadata| == |p.metadata|
    ensures Distinct(Names(r.metadata))
    ensures forall i :: 0 <= i < |r.metadata| ==>
              r.metadata[i].name in p.metadata && p.metadata[r.metadata[i].name] == r.metadata[i].value
    ensures forall n :: n in p.metadata <==> n in Names(r.metadata)
  {
    EnumerationSize(order, p.metadata.Keys);
    var md := seq(|order|, i requires 0 <= i < |order| => MetaPair(order[i], p.metadata[order[i]]));
    assert Names(md) == order;
    Record(p.content, md)
  }

  /** PyRecord -> Record -> PyRecord gives back the same content and map, whatever the iteration order. */
  lemma PyRecordRoundTrip(p: PyRecord, order: seq<string>)
    requires IsEnumeration(order, p.metadata.Keys)
    ensures FromRecord(IntoRecord(p, order)) == p
  {
    var r := IntoRecord(p, order);
    var q := FromRecord(r);
    assert forall i :: 0 <= i < |r.metadata| ==> IsLastOfName(r.metadata, i) by {
      forall i, j | 0 <= i < j < |r.metadata|
        ensures r.metadata[j].name != r.metadata[i].name
      {
        assert Names(r.metadata)[i] != Names(r.metadata)[j];
      }
    }
    forall n | n in p.metadata
      ensures n in q.metadata && q.metadata[n] == p.metadata[n]
    {
      var i :| 0 <= i < |r.metadata| && Names(r.metadata)[i] == n;
    }
    assert q.metadata == p.metadata;
  }

  /**
   * A record whose metadata names are distinct survives Record -> PyRecord ->
   * Record when the map is iterated in the record's own order.
   */
  lemma RecordRoundTripDistinct(r: Record)
    requires Distinct(Names(r.metadata))
    ensures IsEnumeration(Names(r.metadata), FromRecord(r).metadata.Keys)
    ensures IntoRecord(FromRecord(r), Names(r.metadata)) == r
  {
    var p := FromRecord(r);
    var order := Names(r.metadata);
    assert forall i :: 0 <= i < |r.metadata| ==> IsLastOfName(r.metadata, i) by {
      forall i, j | 0 <= i < j < |r.metadata|
        ensures r.metadata[j].name != r.metadata[i].name
      {
        assert order[i] != order[j];
      }
    }
    var back := IntoRecord(p, order);
    assert back.metadata == r.metadata;
  }

  /**
   * A record with a repeated metadata name, at positions `i` and `j`, never
   * survives the round trip: whatever the iteration order of the distinct
   * names, the pairs come back fewer.
   */
  lemma RecordRoundTripCollapses(r: Record, order: seq<string>, i: nat, j: nat)
    requires i < j < |r.metadata| && r.metadata[i].name == r.metadata[j].name
    requires IsEnumeration(order, Elements(Names(r.metadata)))
    ensures FromRecord(r).metadata.Keys == Elements(Names(r.metadata))
    ensures |IntoRecord(FromRecord(r), order).metadata| < |r.metadata|
    ensures IntoRecord(FromRecord(r), order) != r
  {
    var p := FromRecord(r);
    var names := Names(r.metadata);
    assert p.metadata.Keys == Elements(names);
    assert names[i] == names[j];
    ElementsSize(names);
  }
}
