/** Any mix of pages, each put after or before what is already there, gives the grouping of the whole slice. */
module TracePages {
  import opened TraceRecords
  import opened TraceGroupingModel
  import opened TraceGroupingLaws

  datatype Page = After(records: seq<Record>) | Before(records: seq<Record>)

  function Grow(rules: TextRules, g: Grouping, page: Page): Grouping {
    if page.After? then AppendModel(rules, g, page.records) else PrependModel(rules, g, page.records)
  }

  function Grown(rules: TextRules, pages: seq<Page>): Grouping {
    if pages == [] then Batch(rules, [])
    else Grow(rules, Grown(rules, pages[..|pages| - 1]), pages[|pages| - 1])
  }

  /** The slice that the pages make up. */
  function Slice(pages: seq<Page>): seq<Record> {
    if pages == [] then []
    else
      var before, last := Slice(pages[..|pages| - 1]), pages[|pages| - 1];
      if last.After? then before + last.records else last.records + before
  }

  /**
   On a slice in which calls precede the records that refer to them: heads, rows, labels, the call index
   and the unresolved counts are those of regrouping the slice at once.
   */
  lemma {:induction false} AnyMixIsBatch(rules: TextRules, pages: seq<Page>)
    requires CallsPrecede(Slice(pages))
    ensures Grown(rules, pages) == Batch(rules, Slice(pages))
  {
    hide AppendModel, PrependModel, Batch, CallsPrecede, NoLateCall;
    if pages != [] {
      var before, last := pages[..|pages| - 1], pages[|pages| - 1];
      if last.After? {
        PrecedeSplits(Slice(before), last.records);
        AnyMixIsBatch(rules, before);
        AppendIsBatch(rules, Slice(before), last.records);
      } else {
        PrecedeSplits(last.records, Slice(before));
        AnyMixIsBatch(rules, before);
        PrependIsBatch(rules, last.records, Slice(before));
      }
    }
  }

  /** On any slice: the heads and rows of the turns are, and at most the first turn has no head. */
  lemma {:induction false} AnyMixGroups(rules: TextRules, pages: seq<Page>)
    ensures ShapeOf(Grown(rules, pages).turns) == GroupRecords(rules, Slice(pages))
    ensures forall i :: 1 <= i < |Grown(rules, pages).turns| ==> Grown(rules, pages).turns[i].head.Some?
  {
    hide AppendModel, PrependModel, Batch, GroupRecords, ShapeOf;
    if pages == [] {
      BatchGroups(rules, []);
    } else {
      var before, last := pages[..|pages| - 1], pages[|pages| - 1];
      AnyMixGroups(rules, before);
      if last.After? {
        AppendShape(rules, Grown(rules, before), Slice(before), last.records);
      } else {
        PrependShape(rules, Grown(rules, before), last.records, Slice(before));
      }
    }
    OnlyFirstHeadless(rules, Grown(rules, pages).turns, Slice(pages));
  }

  lemma {:induction false} OnlyFirstHeadless(rules: TextRules, turns: seq<Turn>, records: seq<Record>)
    requires ShapeOf(turns) == GroupRecords(rules, records)
    ensures forall i :: 1 <= i < |turns| ==> turns[i].head.Some?
  {
    BatchGroups(rules, records);
    BatchShape(rules, records);
    var batch := Batch(rules, records).turns;
    hide Batch, GroupRecords;
    assert |turns| == |batch|;
    forall i | 1 <= i < |turns|
      ensures turns[i].head.Some?
    {
      assert TurnShape(turns[i]) == ShapeOf(turns)[i] == ShapeOf(batch)[i] == TurnShape(batch[i]);
    }
  }
}
