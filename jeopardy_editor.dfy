/**
 * The Jeopardy board editor: the form state it edits in place (one category
 * list per round), the edits it offers (append a category or a question,
 * remove one by index) and the labels it derives (prize amounts and the
 * "Category #N" placeholder).
 *
 * The editor validates with the same schema that fixes six categories and
 * five questions, yet its edits change those counts; the lemmas after the
 * class state that consequence.
 */
module JeopardyEditor {
  import opened Wrappers
  import opened Ids
  import opened JeopardySchema
  import opened DocumentIds
  import Decimal

  datatype RoundName = RoundOne | RoundTwo

  /** The key of the round in the document and at the head of every form field name. */
  function RoundKey(round: RoundName): string {
    if round == RoundOne then "roundOne" else "roundTwo"
  }

  function Other(round: RoundName): RoundName {
    if round == RoundOne then RoundTwo else RoundOne
  }

  function CategoriesOf(d: Jeopardy, round: RoundName): seq<Category> {
    if round == RoundOne then d.roundOne.categories else d.roundTwo.categories
  }

  /** d with the categories of one round replaced and everything else kept. */
  function WithCategories(d: Jeopardy, round: RoundName, cs: seq<Category>): (r: Jeopardy)
    ensures CategoriesOf(r, round) == cs
    ensures CategoriesOf(r, Other(round)) == CategoriesOf(d, Other(round))
    ensures r.roundOne.settings == d.roundOne.settings && r.roundTwo.settings == d.roundTwo.settings
    ensures r.finalJeopardy == d.finalJeopardy
  {
    if round == RoundOne then d.(roundOne := d.roundOne.(categories := cs))
    else d.(roundTwo := d.roundTwo.(categories := cs))
  }

  /**
   * A field array's remove(index): the element at index goes and the rest keep
   * their order; an index past the end changes nothing.
   */
  function RemoveAt<T>(s: seq<T>, i: nat): (r: seq<T>)
    ensures i < |s| ==> |r| == |s| - 1
    ensures i < |s| ==> forall k :: 0 <= k < |r| ==> r[k] == if k < i then s[k] else s[k + 1]
    ensures i >= |s| ==> r == s
  {
    if i < |s| then s[..i] + s[i + 1..] else s
  }

  /** The category with q added after its last question. */
  function WithQuestionAppended(c: Category, q: Question): Category {
    c.(questions := c.questions + [q])
  }

  function WithQuestionRemoved(c: Category, i: nat): Category {
    c.(questions := RemoveAt(c.questions, i))
  }

  // ---------------------------------------------------------------------
  // Id bookkeeping the edits rely on.

  lemma RoundIssuedBelow(d: Jeopardy, round: RoundName, next: nat, j: nat)
    requires IssuedBelow(DocIds(d), next) && j < |CategoriesOf(d, round)|
    ensures IssuedBelow(CategoryIds(CategoriesOf(d, round)[j]), next)
  {
    assert IssuedBelow(CategoryListIds(CategoriesOf(d, round)), next);
    CategoryIssuedBelow(CategoriesOf(d, round), next, j);
  }

  /** Replacing one round's categories by categories whose ids were all issued keeps the document's ids issued. */
  lemma WithCategoriesIssuedBelow(d: Jeopardy, round: RoundName, cs: seq<Category>, next: nat)
    requires IssuedBelow(DocIds(d), next)
    requires forall j :: 0 <= j < |cs| ==> IssuedBelow(CategoryIds(cs[j]), next)
    ensures IssuedBelow(DocIds(WithCategories(d, round, cs)), next)
  {
    var r := WithCategories(d, round, cs);
    CategoryListIssuedBelow(cs, next);
    assert IssuedBelow(CategoryListIds(CategoriesOf(d, Other(round))), next);
    assert DocIds(r) == CategoryListIds(CategoriesOf(r, RoundOne)) + CategoryListIds(CategoriesOf(r, RoundTwo)) + [r.finalJeopardy.id];
  }

  lemma QuestionIdsAppend(qs: seq<Question>, q: Question)
    ensures QuestionIds(qs + [q]) == QuestionIds(qs) + [q.id]
  {
  }

  lemma QuestionIdsRemove(qs: seq<Question>, i: nat, id: string)
    requires id in QuestionIds(RemoveAt(qs, i))
    ensures id in QuestionIds(qs)
  {
    var rs := RemoveAt(qs, i);
    var k :| 0 <= k < |rs| && QuestionIds(rs)[k] == id;
    if i < |qs| {
      assert id == (if k < i then QuestionIds(qs)[k] else QuestionIds(qs)[k + 1]);
    }
  }

  /**
   * Appending a blank category drawn from next: none of its ids is in the
   * document yet, and afterwards every id is issued below next + 6.
   */
  lemma AppendBlankCategoryIds(d: Jeopardy, round: RoundName, next: nat)
    requires IssuedBelow(DocIds(d), next)
    ensures forall id :: id in CategoryIds(BlankCategory(next)) ==> id !in DocIds(d)
    ensures IssuedBelow(DocIds(WithCategories(d, round, CategoriesOf(d, round) + [BlankCategory(next)])), next + 6)
  {
    var c := BlankCategory(next);
    BlankCategoryIds(next);
    IdRangeFresh(DocIds(d), next, 6);
    IdRangeIssuedBelow(next, 6);
    var cs := CategoriesOf(d, round) + [c];
    forall j | 0 <= j < |cs| ensures IssuedBelow(CategoryIds(cs[j]), next + 6) {
      if j < |cs| - 1 {
        RoundIssuedBelow(d, round, next, j);
      }
    }
    IssuedBelowMonotonic(DocIds(d), next, next + 6);
    WithCategoriesIssuedBelow(d, round, cs, next + 6);
  }

  // ---------------------------------------------------------------------

  /**
   * The editor's form state: each round's categories as a field array, the
   * rest of the document as the form was given it, and the id supply's
   * counter.
   */
  class BoardEditor {
    var roundOne: seq<Category>
    var roundTwo: seq<Category>
    var settingsOne: Settings
    var settingsTwo: Settings
    var finalJeopardy: Question
    var nextId: nat

    /** The form's current values as a document. */
    function Values(): Jeopardy
      reads this
    {
      Jeopardy(Round(settingsOne, roundOne), Round(settingsTwo, roundTwo), finalJeopardy)
    }

    function Categories(round: RoundName): seq<Category>
      reads this
    {
      if round == RoundOne then roundOne else roundTwo
    }

    /** No id the supply will still hand out is already in the document. */
    ghost predicate Valid()
      reads this
    {
      IssuedBelow(DocIds(Values()), nextId)
    }

    /** The editor opened on a game, with the supply's counter past every id of the game. */
    constructor (game: Jeopardy, next: nat)
      requires IssuedBelow(DocIds(game), next)
      ensures Valid() && Values() == game && nextId == next
    {
      roundOne, roundTwo := game.roundOne.categories, game.roundTwo.categories;
      settingsOne, settingsTwo := game.roundOne.settings, game.roundTwo.settings;
      finalJeopardy := game.finalJeopardy;
      nextId := next;
    }

    /** Appends a new empty category (fresh id, empty title, five fresh empty questions) to the round. */
    method AddCategory(round: RoundName)
      requires Valid()
      modifies this
      ensures Valid()
      ensures Values() == WithCategories(old(Values()), round, old(Categories(round)) + [BlankCategory(old(nextId))])
      ensures nextId == old(nextId) + 6
      ensures forall id :: id in CategoryIds(BlankCategory(old(nextId))) ==> id !in old(DocIds(Values()))
    {
      AppendBlankCategoryIds(Values(), round, nextId);
      var c := BlankCategory(nextId);
      if round == RoundOne {
        roundOne := roundOne + [c];
      } else {
        roundTwo := roundTwo + [c];
      }
      nextId := nextId + 6;
    }

    /** Removes the category at index from the round; an index past the end changes nothing. */
    method RemoveCategory(round: RoundName, index: nat)
      requires Valid()
      modifies this
      ensures Valid()
      ensures Values() == WithCategories(old(Values()), round, RemoveAt(old(Categories(round)), index))
      ensures nextId == old(nextId)
    {
      ghost var before := Values();
      if round == RoundOne {
        roundOne := RemoveAt(roundOne, index);
      } else {
        roundTwo := RemoveAt(roundTwo, index);
      }
      var old_cs := CategoriesOf(before, round);
      var cs := RemoveAt(old_cs, index);
      forall j | 0 <= j < |cs| ensures IssuedBelow(CategoryIds(cs[j]), nextId) {
        RoundIssuedBelow(before, round, nextId, if index < |old_cs| && j >= index then j + 1 else j);
      }
      WithCategoriesIssuedBelow(before, round, cs, nextId);
    }

    /** Appends a new empty question with a fresh id to one category of the round. */
    method AddQuestion(round: RoundName, category: nat)
      requires Valid() && category < |Categories(round)|
      modifies this
      ensures Valid()
      ensures Values() == WithCategories(old(Values()), round,
        old(Categories(round))[category := WithQuestionAppended(old(Categories(round))[category], BlankQuestion(old(nextId)))])
      ensures |Categories(round)[category].questions| == |old(Categories(round))[category].questions| + 1
      ensures nextId == old(nextId) + 1
      ensures BlankQuestion(old(nextId)).id !in old(DocIds(Values()))
    {
      ghost var before := Values();
      var q := BlankQuestion(nextId);
      var c := WithQuestionAppended(Categories(round)[category], q);
      if round == RoundOne {
        roundOne := roundOne[category := c];
      } else {
        roundTwo := roundTwo[category := c];
      }
      assert IdNumber(q.id) == Some(nextId);
      nextId := nextId + 1;
      var old_cs := CategoriesOf(before, round);
      var cs := old_cs[category := c];
      QuestionIdsAppend(old_cs[category].questions, q);
      forall j | 0 <= j < |cs| ensures IssuedBelow(CategoryIds(cs[j]), nextId) {
        RoundIssuedBelow(before, round, old(nextId), j);
      }
      IssuedBelowMonotonic(DocIds(before), old(nextId), nextId);
      WithCategoriesIssuedBelow(before, round, cs, nextId);
    }

    /** Removes the question at index from one category of the round; an index past the end changes nothing. */
    method RemoveQuestion(round: RoundName, category: nat, index: nat)
      requires Valid() && category < |Categories(round)|
      modifies this
      ensures Valid()
      ensures Values() == WithCategories(old(Values()), round,
        old(Categories(round))[category := WithQuestionRemoved(old(Categories(round))[category], index)])
      ensures nextId == old(nextId)
    {
      ghost var before := Values();
      var c := WithQuestionRemoved(Categories(round)[category], index);
      if round == RoundOne {
        roundOne := roundOne[category := c];
      } else {
        roundTwo := roundTwo[category := c];
      }
      var old_cs := CategoriesOf(before, round);
      var cs := old_cs[category := c];
      forall j | 0 <= j < |cs| ensures IssuedBelow(CategoryIds(cs[j]), nextId) {
        RoundIssuedBelow(before, round, nextId, j);
        if j == category {
          forall id | id in QuestionIds(c.questions) ensures id in QuestionIds(old_cs[j].questions) {
            QuestionIdsRemove(old_cs[j].questions, index, id);
          }
        }
      }
      WithCategoriesIssuedBelow(before, round, cs, nextId);
    }
  }

  // ---------------------------------------------------------------------
  // The edits against the schema the form validates with.

  /** A board without the schema's counts is rejected. */
  lemma MisshapedRejected(e: Jeopardy, later: nat)
    requires !WellShaped(e)
    ensures Validate(Encode(e), later).Err?
  {
    EncodeValidates(e, later);
  }

  /** A board with one category of the wrong length breaks the schema's counts. */
  lemma CategoryMisshaped(e: Jeopardy, round: RoundName, category: nat)
    requires category < |CategoriesOf(e, round)|
    requires |CategoriesOf(e, round)[category].questions| != QuestionsPerCategory
    ensures !WellShaped(e)
  {
    assert !RoundShaped(if round == RoundOne then e.roundOne else e.roundTwo);
  }

  /** After one added category a board the schema accepted is rejected. */
  lemma AddCategoryBreaksSchema(d: Jeopardy, round: RoundName, next: nat, later: nat)
    requires WellShaped(d)
    ensures Validate(Encode(WithCategories(d, round, CategoriesOf(d, round) + [BlankCategory(next)])), later).Err?
  {
    var e := WithCategories(d, round, CategoriesOf(d, round) + [BlankCategory(next)]);
    assert |CategoriesOf(e, round)| == 7;
    MisshapedRejected(e, later);
  }

  /** After one removed category a board the schema accepted is rejected. */
  lemma RemoveCategoryBreaksSchema(d: Jeopardy, round: RoundName, index: nat, later: nat)
    requires WellShaped(d) && index < CategoriesPerRound
    ensures Validate(Encode(WithCategories(d, round, RemoveAt(CategoriesOf(d, round), index))), later).Err?
  {
    var e := WithCategories(d, round, RemoveAt(CategoriesOf(d, round), index));
    assert |CategoriesOf(e, round)| == 5;
    MisshapedRejected(e, later);
  }

  /** After one added question a board the schema accepted is rejected. */
  lemma AddQuestionBreaksSchema(d: Jeopardy, round: RoundName, category: nat, next: nat, later: nat)
    requires WellShaped(d) && category < CategoriesPerRound
    ensures var cs := CategoriesOf(d, round);
      Validate(Encode(WithCategories(d, round, cs[category := WithQuestionAppended(cs[category], BlankQuestion(next))])), later).Err?
  {
    var cs := CategoriesOf(d, round);
    var edited := cs[category := WithQuestionAppended(cs[category], BlankQuestion(next))];
    var e := WithCategories(d, round, edited);
    assert |edited[category].questions| == 6;
    CategoryMisshaped(e, round, category);
    MisshapedRejected(e, later);
  }

  /** After one removed question a board the schema accepted is rejected. */
  lemma RemoveQuestionBreaksSchema(d: Jeopardy, round: RoundName, category: nat, index: nat, later: nat)
    requires WellShaped(d) && category < CategoriesPerRound && index < QuestionsPerCategory
    ensures var cs := CategoriesOf(d, round);
      Validate(Encode(WithCategories(d, round, cs[category := WithQuestionRemoved(cs[category], index)])), later).Err?
  {
    var cs := CategoriesOf(d, round);
    var edited := cs[category := WithQuestionRemoved(cs[category], index)];
    var e := WithCategories(d, round, edited);
    assert |edited[category].questions| == 4;
    CategoryMisshaped(e, round, category);
    MisshapedRejected(e, later);
  }

  /** Removing a category and then adding one brings the board back to a shape the schema accepts. */
  lemma RemoveThenAddCategoryValidates(d: Jeopardy, round: RoundName, index: nat, next: nat, later: nat)
    requires WellShaped(d) && index < CategoriesPerRound
    ensures var removed := WithCategories(d, round, RemoveAt(CategoriesOf(d, round), index));
      var e := WithCategories(removed, round, CategoriesOf(removed, round) + [BlankCategory(next)]);
      Validate(Encode(e), later) == Ok(Parsed(e, later))
  {
    var removed := WithCategories(d, round, RemoveAt(CategoriesOf(d, round), index));
    var e := WithCategories(removed, round, CategoriesOf(removed, round) + [BlankCategory(next)]);
    var cs := CategoriesOf(e, round);
    forall i | 0 <= i < |cs| ensures |cs[i].questions| == QuestionsPerCategory {
      if i < 5 {
        assert cs[i] == CategoriesOf(d, round)[if i < index then i else i + 1];
      }
    }
    assert WellShaped(e);
    EncodeValidates(e, later);
  }

  // ---------------------------------------------------------------------
  // Derived labels.

  const BasePrizeAmounts: seq<nat> := [200, 400, 600, 800, 1000]

  /** The text before the first '.', as `name.split(".")[0]` gives it. */
  function FirstSegment(name: string): (r: string)
    ensures |r| <= |name| && r == name[..|r|]
    ensures '.' !in r
    ensures |r| < |name| ==> name[|r|] == '.'
  {
    if name == [] || name[0] == '.' then [] else [name[0]] + FirstSegment(name[1..])
  }

  lemma {:induction false} FirstSegmentOfPrefix(prefix: string, rest: string)
    requires '.' !in prefix
    ensures FirstSegment(prefix + "." + rest) == prefix
    decreases |prefix|
  {
    if prefix != [] {
      assert (prefix + "." + rest)[1..] == prefix[1..] + "." + rest;
      FirstSegmentOfPrefix(prefix[1..], rest);
    }
  }

  /** The form name of a question: "roundOne.categories.2.questions.4" and the like. */
  function QuestionName(round: RoundName, category: nat, question: nat): string {
    RoundKey(round) + "." + "categories." + Decimal.Digits(category) + ".questions." + Decimal.Digits(question)
  }

  /**
   * `getPrizeAmount`: the ladder entry at sortIndex, doubled when the name
   * starts with "roundTwo", written "$<amount>"; "Extra" past the ladder.
   * No ladder entry is zero, so the source's falsiness test on the entry
   * fails exactly for an index off the ladder.
   */
  function PrizeAmount(name: string, sortIndex: int): (r: string)
    ensures r == "Extra" <==> !(0 <= sortIndex < |BasePrizeAmounts|)
    ensures r != "Extra" ==>
      && |r| > 1 && r[0] == '$' && r[1] != '0'
      && Decimal.ParseDigits(r[1..]) ==
         Some(BasePrizeAmounts[sortIndex] * (if FirstSegment(name) == "roundTwo" then 2 else 1))
  {
    if !(0 <= sortIndex < |BasePrizeAmounts|) then "Extra"
    else
      var base := BasePrizeAmounts[sortIndex];
      var amount := if FirstSegment(name) == "roundTwo" then base * 2 else base;
      Decimal.ParseDigitsOfDigits(amount);
      assert ("$" + Decimal.Digits(amount))[1..] == Decimal.Digits(amount);
      "$" + Decimal.Digits(amount)
  }

  /** The round key is the first segment of every question name in that round. */
  lemma QuestionNameFirstSegment(round: RoundName, category: nat, question: nat)
    ensures FirstSegment(QuestionName(round, category, question)) == RoundKey(round)
  {
    var rest := "categories." + Decimal.Digits(category) + ".questions." + Decimal.Digits(question);
    assert QuestionName(round, category, question) == RoundKey(round) + "." + rest;
    FirstSegmentOfPrefix(RoundKey(round), rest);
  }

  /** The prize of a question depends on its round and position only, not on the indices in its name. */
  lemma PrizeAmountIgnoresIndices(round: RoundName, category: nat, question: nat, sortIndex: int)
    ensures PrizeAmount(QuestionName(round, category, question), sortIndex) == PrizeAmount(RoundKey(round), sortIndex)
  {
    QuestionNameFirstSegment(round, category, question);
    assert '.' !in RoundKey(round);
    assert FirstSegment(RoundKey(round)) == RoundKey(round);
  }

  /** The labels of the amounts below 1000 that the ladder and its doubling produce. */
  lemma DollarsLow()
    ensures "$" + Decimal.Digits(200) == "$200" && "$" + Decimal.Digits(400) == "$400"
    ensures "$" + Decimal.Digits(600) == "$600" && "$" + Decimal.Digits(800) == "$800"
  {
  }

  /** The labels of the amounts from 1000 up. */
  lemma DollarsHigh()
    ensures "$" + Decimal.Digits(1000) == "$1000" && "$" + Decimal.Digits(1200) == "$1200"
    ensures "$" + Decimal.Digits(1600) == "$1600" && "$" + Decimal.Digits(2000) == "$2000"
  {
  }

  lemma PrizeAmountOnLadder(name: string, sortIndex: nat)
    requires sortIndex < |BasePrizeAmounts|
    ensures PrizeAmount(name, sortIndex) ==
      "$" + Decimal.Digits(BasePrizeAmounts[sortIndex] * if FirstSegment(name) == "roundTwo" then 2 else 1)
  {
  }

  /** The label at a ladder position whose amount is known. */
  lemma LadderPrize(name: string, sortIndex: nat, amount: nat)
    requires sortIndex < |BasePrizeAmounts|
    requires amount == BasePrizeAmounts[sortIndex] * if FirstSegment(name) == "roundTwo" then 2 else 1
    ensures PrizeAmount(name, sortIndex) == "$" + Decimal.Digits(amount)
  {
    PrizeAmountOnLadder(name, sortIndex);
  }

  /** Outside round two, positions 0 to 4 are labelled with the ladder itself. */
  lemma BasePrizes(name: string)
    requires FirstSegment(name) != "roundTwo"
    ensures && PrizeAmount(name, 0) == "$200" && PrizeAmount(name, 1) == "$400" && PrizeAmount(name, 2) == "$600"
            && PrizeAmount(name, 3) == "$800" && PrizeAmount(name, 4) == "$1000"
  {
    assert PrizeAmount(name, 0) == "$200" by {
      LadderPrize(name, 0, 200);
      DollarsLow();
    }
    assert PrizeAmount(name, 1) == "$400" by {
      LadderPrize(name, 1, 400);
      DollarsLow();
    }
    assert PrizeAmount(name, 2) == "$600" by {
      LadderPrize(name, 2, 600);
      DollarsLow();
    }
    assert PrizeAmount(name, 3) == "$800" by {
      LadderPrize(name, 3, 800);
      DollarsLow();
    }
    assert PrizeAmount(name, 4) == "$1000" by {
      LadderPrize(name, 4, 1000);
      DollarsHigh();
    }
  }



  /** In round two, positions 0 to 4 are labelled with the doubled ladder. */
  lemma DoubledPrizes(name: string)
    requires FirstSegment(name) == "roundTwo"
    ensures && PrizeAmount(name, 0) == "$400" && PrizeAmount(name, 1) == "$800" && PrizeAmount(name, 2) == "$1200"
            && PrizeAmount(name, 3) == "$1600" && PrizeAmount(name, 4) == "$2000"
  {
    assert PrizeAmount(name, 0) == "$400" by {
      LadderPrize(name, 0, 400);
      DollarsLow();
    }
    assert PrizeAmount(name, 1) == "$800" by {
      LadderPrize(name, 1, 800);
      DollarsLow();
    }
    assert PrizeAmount(name, 2) == "$1200" by {
      LadderPrize(name, 2, 1200);
      DollarsHigh();
    }
    assert PrizeAmount(name, 3) == "$1600" by {
      LadderPrize(name, 3, 1600);
      DollarsHigh();
    }
    assert PrizeAmount(name, 4) == "$2000" by {
      LadderPrize(name, 4, 2000);
      DollarsHigh();
    }
  }



  /** Round one's questions 0 to 4 are worth $200 to $1000. */
  lemma RoundOnePrizes(category: nat, question: nat)
    ensures var name := QuestionName(RoundOne, category, question);
      && PrizeAmount(name, 0) == "$200" && PrizeAmount(name, 1) == "$400" && PrizeAmount(name, 2) == "$600"
      && PrizeAmount(name, 3) == "$800" && PrizeAmount(name, 4) == "$1000"
  {
    QuestionNameFirstSegment(RoundOne, category, question);
    assert RoundKey(RoundOne)[5] != "roundTwo"[5];
    BasePrizes(QuestionName(RoundOne, category, question));
  }

  /** Round two's questions 0 to 4 are worth double: $400 to $2000. */
  lemma RoundTwoPrizes(category: nat, question: nat)
    ensures var name := QuestionName(RoundTwo, category, question);
      && PrizeAmount(name, 0) == "$400" && PrizeAmount(name, 1) == "$800" && PrizeAmount(name, 2) == "$1200"
      && PrizeAmount(name, 3) == "$1600" && PrizeAmount(name, 4) == "$2000"
  {
    QuestionNameFirstSegment(RoundTwo, category, question);
    DoubledPrizes(QuestionName(RoundTwo, category, question));
  }

  const CategoryPlaceholder: string := "Category #"

  /** A category's label: its title, or "Category #<position + 1>" while the title is empty. */
  function CategoryLabel(title: string, sortIndex: nat): (text: string)
    ensures text != ""
    ensures title != "" ==> text == title
    ensures title == "" ==>
      && |text| > |CategoryPlaceholder|
      && text[..|CategoryPlaceholder|] == CategoryPlaceholder
      && Decimal.ParseDigits(text[|CategoryPlaceholder|..]) == Some(sortIndex + 1)
      && text[|CategoryPlaceholder|] != '0'
  {
    if title == "" then
      Decimal.ParseDigitsOfDigits(sortIndex + 1);
      assert (CategoryPlaceholder + Decimal.Digits(sortIndex + 1))[|CategoryPlaceholder|..] == Decimal.Digits(sortIndex + 1);
      CategoryPlaceholder + Decimal.Digits(sortIndex + 1)
    else title
  }

  /** An untitled category's label is "Category #" and the decimal text of its position + 1. */
  lemma UntitledLabelText(sortIndex: nat)
    ensures CategoryLabel("", sortIndex) == CategoryPlaceholder + Decimal.Digits(sortIndex + 1)
  {
    var text := CategoryLabel("", sortIndex);
    var digits := text[|CategoryPlaceholder|..];
    Decimal.CanonicalDigits(digits, sortIndex + 1);
    assert text == text[..|CategoryPlaceholder|] + digits;
  }

  /** The table of contents of one round: a label per category, in order. */
  function TableOfContents(cs: seq<Category>): (labels: seq<string>)
    ensures |labels| == |cs|
    ensures forall i :: 0 <= i < |cs| ==> labels[i] == CategoryLabel(cs[i].title, i)
    ensures forall i :: 0 <= i < |cs| && cs[i].title != "" ==> labels[i] == cs[i].title
    ensures forall i, j :: 0 <= i < j < |cs| && cs[i].title == "" && cs[j].title == "" ==> labels[i] != labels[j]
  {
    var labels := seq(|cs|, i requires 0 <= i < |cs| => CategoryLabel(cs[i].title, i));
    assert forall i, j :: 0 <= i < j < |cs| && cs[i].title == "" && cs[j].title == "" ==> labels[i] != labels[j] by {
      forall i, j | 0 <= i < j < |cs| && cs[i].title == "" && cs[j].title == ""
        ensures labels[i] != labels[j]
      {
        PlaceholdersDistinct(i, j);
      }
    }
    labels
  }

  /** Two untitled categories at different positions get different placeholders. */
  lemma PlaceholdersDistinct(i: nat, j: nat)
    requires i != j
    ensures CategoryLabel("", i) != CategoryLabel("", j)
  {
    var a, b := CategoryLabel("", i), CategoryLabel("", j);
    assert Decimal.ParseDigits(a[|CategoryPlaceholder|..]) != Decimal.ParseDigits(b[|CategoryPlaceholder|..]);
  }
}
