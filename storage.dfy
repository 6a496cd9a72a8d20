/**
 The store of pinned ("top-most") results: a mapping from the raw query text
 to at most one `Record`. The source's concurrent dictionary is modelled as a
 sequential map; each operation is one atomic step.
 */
module Storage {
  import opened Plugin
  import opened Records

  class TopMostRecord {
    var records: map<string, Record>

    constructor ()
      ensures records == map[]
    {
      records := map[];
    }

    /**
     Whether `result` is the result pinned for its raw query: false for an
     empty store, for a result without an origin query and for a raw query
     with no entry; otherwise the stored record decides through
     `Record.Equals` with the result's own regexes.
     */
    predicate IsTopMost(result: Result)
      reads this
      ensures records == map[] ==> !IsTopMost(result)
      ensures result.originQuery.None? ==> !IsTopMost(result)
      ensures IsTopMost(result) ==>
                && result.originQuery.Some?
                && result.originQuery.value.rawQuery in records
                && records[result.originQuery.value.rawQuery].pluginId == result.pluginId
      ensures result.originQuery.Some? && result.titleEqualRegex.None? && result.subTitleEqualRegex.None? ==>
                (IsTopMost(result) <==>
                   && result.originQuery.value.rawQuery in records
                   && records[result.originQuery.value.rawQuery] == Record(result.title, result.subTitle, result.pluginId))
      ensures IsTopMost(result) <==>
                && result.originQuery.Some?
                && result.originQuery.value.rawQuery in records
                && records[result.originQuery.value.rawQuery].Equals(result, result.titleEqualRegex, result.subTitleEqualRegex)
    {
      if records == map[] || result.originQuery.None? || result.originQuery.value.rawQuery !in records then
        false
      else
        records[result.originQuery.value.rawQuery].Equals(result, result.titleEqualRegex, result.subTitleEqualRegex)
    }

    /** Unpins whatever is stored under the result's raw query; nothing changes when there is none. */
    method Remove(result: Result)
      requires result.originQuery.Some?
      modifies this
      ensures records == old(records) - {result.originQuery.value.rawQuery}
      ensures result.originQuery.value.rawQuery !in old(records) ==> records == old(records)
      ensures !IsTopMost(result)
    {
      records := records - {result.originQuery.value.rawQuery};
    }

    /**
     Pins `result` under its raw query, replacing any earlier record there
     (last writer wins); every other key keeps its record. Afterwards the
     result is recognised as pinned, whatever regexes it carries.
     */
    method AddOrUpdate(result: Result)
      requires result.originQuery.Some?
      modifies this
      ensures records == old(records)[result.originQuery.value.rawQuery := Record(result.title, result.subTitle, result.pluginId)]
      ensures forall key :: key in old(records) && key != result.originQuery.value.rawQuery ==>
                key in records && records[key] == old(records)[key]
      ensures IsTopMost(result)
    {
      var record := Record(result.title, result.subTitle, result.pluginId);
      records := records[result.originQuery.value.rawQuery := record];
      assert result.originQuery.value.rawQuery in records;
    }

    /** Replaces the whole mapping with (a copy of) `dictionary`. */
    method Load(dictionary: map<string, Record>)
      modifies this
      ensures records == dictionary
    {
      records := dictionary;
    }
  }

  /**
   A fresh result is recognised as pinned when the record stored under its raw
   query has its plugin id and each of its fields agrees with the record's
   under the result's own regex, even when the raw title and subtitle differ
   outside the captured groups.
   */
  lemma TopMostDespiteVolatileText(store: TopMostRecord, result: Result)
    requires result.originQuery.Some? && result.originQuery.value.rawQuery in store.records
    requires store.records[result.originQuery.value.rawQuery].pluginId == result.pluginId
    requires FieldAgrees(store.records[result.originQuery.value.rawQuery].title, result.title, result.titleEqualRegex)
    requires FieldAgrees(store.records[result.originQuery.value.rawQuery].subTitle, result.subTitle, result.subTitleEqualRegex)
    ensures store.IsTopMost(result)
  {
  }

  /**
   A caller's view of the store's contracts: pinning twice under the same raw
   query keeps only the second record, and unpinning leaves nothing pinned.
   */
  method RepinThenUnpin(first: Result, second: Result, other: string)
    requires first.originQuery.Some? && second.originQuery.Some?
    requires first.originQuery.value.rawQuery == second.originQuery.value.rawQuery != other
  {
    var store := new TopMostRecord();
    assert !store.IsTopMost(first);
    store.Load(map[other := Record("t", "s", "p")]);
    store.AddOrUpdate(first);
    assert store.IsTopMost(first);
    store.AddOrUpdate(second);
    assert store.IsTopMost(second);
    assert store.records[second.originQuery.value.rawQuery] == Record(second.title, second.subTitle, second.pluginId);
    store.Remove(second);
    assert !store.IsTopMost(first) && !store.IsTopMost(second);
    assert store.records == map[other := Record("t", "s", "p")];
  }
}
