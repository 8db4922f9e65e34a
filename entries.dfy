/** `getEntries`: the entries of a collection, renamed from the service's
    field names. `N` stands for the JavaScript number `Number(...)`
    produces from a string, and `toNumber` for that conversion. */
module Entries {
  import opened Wrappers

  /** A row of the service; `flags` and `indexNumber` may be missing. */
  datatype RawEntry = RawEntry(body: string, flags: Option<string>, fromPage: string, id: int,
                               indexNumber: Option<int>, partNumber: int, partPage: int)

  /** An entry: `translation` holds the row's text and `arabic` is a slot
      that the mapping leaves empty. */
  datatype Entry<N> = Entry(arabic: Option<string>, flags: Option<N>, from: N, id: int, index: Option<int>,
                            pp: int, translation: Option<string>, volume: int)

  /** The mapping of one row. `flags` is copied (converted to a number)
      only when it is a non-empty string, and `index` only when the
      index number is present and not 0. */
  function MapEntry<N>(e: RawEntry, toNumber: string -> N): (r: Entry<N>)
    ensures r.arabic == None
    ensures r.translation == Some(e.body)
    ensures r.from == toNumber(e.fromPage)
    ensures r.id == e.id && r.pp == e.partPage && r.volume == e.partNumber
    ensures r.flags.Some? <==> TruthyString(e.flags)
    ensures r.flags.Some? ==> r.flags.value == toNumber(e.flags.value)
    ensures r.index.Some? <==> TruthyNumber(e.indexNumber)
    ensures r.index.Some? ==> r.index == e.indexNumber
  {
    Entry(None,
          if TruthyString(e.flags) then Some(toNumber(e.flags.value)) else None,
          toNumber(e.fromPage), e.id,
          if TruthyNumber(e.indexNumber) then e.indexNumber else None,
          e.partPage, Some(e.body), e.partNumber)
  }

  /** `getEntries` on the rows the service returned: one entry per row, in order. */
  function GetEntries<N>(data: seq<RawEntry>, toNumber: string -> N): (r: seq<Entry<N>>)
    ensures |r| == |data|
    ensures forall i :: 0 <= i < |data| ==> r[i] == MapEntry(data[i], toNumber)
  {
    if data == [] then [] else [MapEntry(data[0], toNumber)] + GetEntries(data[1..], toNumber)
  }

  /** The row's text, id, volume, page and index (when not 0) can be read back
      from the entry: rows that differ in these give different entries. */
  lemma MapEntryKeepsRow<N>(e1: RawEntry, e2: RawEntry, toNumber: string -> N)
    requires MapEntry(e1, toNumber) == MapEntry(e2, toNumber)
    requires TruthyNumber(e1.indexNumber) || TruthyNumber(e2.indexNumber)
    ensures e1.body == e2.body && e1.id == e2.id && e1.partNumber == e2.partNumber &&
            e1.partPage == e2.partPage && e1.indexNumber == e2.indexNumber
  {
    assert MapEntry(e1, toNumber).translation == Some(e1.body);
    assert MapEntry(e1, toNumber).index == MapEntry(e2, toNumber).index;
  }

  /** No entry of `getEntries` carries Arabic text, and every one carries its translation. */
  lemma GetEntriesTranslationOnly<N>(data: seq<RawEntry>, toNumber: string -> N)
    ensures forall x :: x in GetEntries(data, toNumber) ==> x.arabic == None && x.translation.Some?
  {
    var r := GetEntries(data, toNumber);
    forall x | x in r ensures x.arabic == None && x.translation.Some? {
      var i :| 0 <= i < |r| && r[i] == x;
    }
  }
}
