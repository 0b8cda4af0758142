/**
 * The identifiers a Jeopardy document carries: one per category, one per
 * question and one for the final question. With the counter-based supply
 * the blank board's 73 ids are pairwise distinct.
 */
module DocumentIds {
  import opened Ids
  import opened JeopardySchema

  function QuestionIds(qs: seq<Question>): seq<string> {
    seq(|qs|, i requires 0 <= i < |qs| => qs[i].id)
  }

  /** The category's own id followed by its questions' ids. */
  function CategoryIds(c: Category): seq<string> {
    [c.id] + QuestionIds(c.questions)
  }

  function CategoryListIds(cs: seq<Category>): seq<string> {
    if cs == [] then [] else CategoryIds(cs[0]) + CategoryListIds(cs[1..])
  }

  /** Round one's ids, then round two's, then the final question's. */
  function DocIds(d: Jeopardy): seq<string> {
    CategoryListIds(d.roundOne.categories) + CategoryListIds(d.roundTwo.categories) + [d.finalJeopardy.id]
  }

  /** An id occurs in a list of categories exactly when it occurs in one of them. */
  lemma {:induction false} CategoryListIdsMember(cs: seq<Category>, id: string)
    ensures id in CategoryListIds(cs) <==> exists j :: 0 <= j < |cs| && id in CategoryIds(cs[j])
    decreases |cs|
  {
    if cs != [] {
      CategoryListIdsMember(cs[1..], id);
      if id in CategoryListIds(cs[1..]) {
        var j :| 0 <= j < |cs[1..]| && id in CategoryIds(cs[1..][j]);
        assert cs[1..][j] == cs[j + 1];
      }
      if j :| 0 <= j < |cs| && id in CategoryIds(cs[j]) {
        if j > 0 {
          assert cs[j] == cs[1..][j - 1];
        }
      }
    }
  }

  /** Ids issued below next in every category means ids issued below next in the list. */
  lemma CategoryListIssuedBelow(cs: seq<Category>, next: nat)
    requires forall j :: 0 <= j < |cs| ==> IssuedBelow(CategoryIds(cs[j]), next)
    ensures IssuedBelow(CategoryListIds(cs), next)
  {
    forall id | id in CategoryListIds(cs) && IdNumber(id).Some?
      ensures IdNumber(id).value < next
    {
      CategoryListIdsMember(cs, id);
    }
  }

  /** And back: ids issued below next in the list are so in each category. */
  lemma CategoryIssuedBelow(cs: seq<Category>, next: nat, j: nat)
    requires IssuedBelow(CategoryListIds(cs), next) && j < |cs|
    ensures IssuedBelow(CategoryIds(cs[j]), next)
  {
    forall id | id in CategoryIds(cs[j])
      ensures id in CategoryListIds(cs)
    {
      CategoryListIdsMember(cs, id);
    }
  }

  lemma BlankQuestionIds(next: nat, count: nat)
    ensures QuestionIds(BlankQuestions(next, count)) == IdRange(next, count)
  {
    forall i | 0 <= i < count
      ensures QuestionIds(BlankQuestions(next, count))[i] == IdRange(next, count)[i]
    {
      IdRangeAt(next, count, i);
    }
  }

  /** A blank category carries the six ids from next on, in order. */
  lemma BlankCategoryIds(next: nat)
    ensures CategoryIds(BlankCategory(next)) == IdRange(next, 6)
  {
    BlankQuestionIds(next + 1, 5);
  }

  lemma BlankCategoriesTail(next: nat, count: nat)
    requires count > 0
    ensures BlankCategories(next, count)[1..] == BlankCategories(next + 6, count - 1)
  {
    var cs, rest := BlankCategories(next, count), BlankCategories(next + 6, count - 1);
    forall i | 0 <= i < count - 1 ensures cs[1..][i] == rest[i] {
      assert next + 6 * (i + 1) == next + 6 + 6 * i;
    }
  }

  /** Peeling the first category off a run of blank categories. */
  lemma BlankCategoriesIdsStep(next: nat, count: nat)
    requires count > 0
    ensures CategoryListIds(BlankCategories(next, count)) ==
      CategoryIds(BlankCategory(next)) + CategoryListIds(BlankCategories(next + 6, count - 1))
  {
    var cs := BlankCategories(next, count);
    assert cs[0] == BlankCategory(next);
    BlankCategoriesTail(next, count);
  }

  lemma {:induction false} BlankCategoriesIds(next: nat, count: nat)
    ensures CategoryListIds(BlankCategories(next, count)) == IdRange(next, 6 * count)
    decreases count
  {
    if count > 0 {
      BlankCategoriesIdsStep(next, count);
      BlankCategoryIds(next);
      BlankCategoriesIds(next + 6, count - 1);
      IdRangeAppend(next, 6, 6 * (count - 1));
    }
  }

  /** The blank board's ids are the 73 ids from next on, in document order. */
  lemma BlankIds(next: nat)
    ensures DocIds(MakeBlank(next).value) == IdRange(next, 73)
  {
    BlankCategoriesIds(next, 6);
    BlankCategoriesIds(next + 36, 6);
    IdRangeAppend(next, 36, 36);
    IdRangeAppend(next, 72, 1);
  }

  /**
   * All 73 ids of a blank board (12 categories, 60 questions and the final
   * question) are pairwise distinct, and all of them were issued below the
   * counter MakeBlank hands back.
   */
  lemma BlankIdsDistinct(next: nat)
    ensures |DocIds(MakeBlank(next).value)| == 73
    ensures Distinct(DocIds(MakeBlank(next).value))
    ensures IssuedBelow(DocIds(MakeBlank(next).value), MakeBlank(next).next)
  {
    BlankIds(next);
    IdRangeDistinct(next, 73);
    IdRangeIssuedBelow(next, 73);
  }
}
