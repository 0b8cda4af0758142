/**
 * The Jeopardy game document, the schema that validates it (with the
 * defaults it applies) and the blank board the application starts from.
 *
 * The schema accepts a round only with exactly six categories and a category
 * only with exactly five questions. The only repairs it makes are a fresh id
 * for a question or category without one and ["random", "random"] for a
 * round whose settings carry no dailyDoubleAnwsers list.
 */
module JeopardySchema {
  import opened Wrappers
  import opened Json
  import opened Ids

  datatype Question = Question(id: string, clue: string, answer: string)
  datatype Category = Category(id: string, title: string, questions: seq<Question>)
  datatype Settings = Settings(dailyDoubleAnwsers: seq<string>)
  datatype Round = Round(settings: Settings, categories: seq<Category>)
  datatype Jeopardy = Jeopardy(roundOne: Round, roundTwo: Round, finalJeopardy: Question)

  /** A validated value together with the id counter after validating it. */
  datatype Parsed<+T> = Parsed(value: T, next: nat)

  const QuestionsPerCategory: nat := 5
  const CategoriesPerRound: nat := 6
  const DefaultDailyDoubleAnwsers: seq<string> := ["random", "random"]

  /** The counts the schema fixes: six categories of five questions each. */
  predicate RoundShaped(r: Round) {
    && |r.categories| == CategoriesPerRound
    && forall i :: 0 <= i < |r.categories| ==> |r.categories[i].questions| == QuestionsPerCategory
  }

  predicate WellShaped(d: Jeopardy) {
    RoundShaped(d.roundOne) && RoundShaped(d.roundTwo)
  }

  // ---------------------------------------------------------------------
  // What the schema accepts, stated independently of how it validates.

  predicate IdAcceptable(v: Option<Json>) {
    v.None? || IsString(v)
  }

  predicate QuestionAcceptable(v: Json) {
    && v.JObject?
    && IdAcceptable(Get(v.fields, "id"))
    && IsString(Get(v.fields, "clue"))
    && IsString(Get(v.fields, "answer"))
  }

  predicate QuestionsAcceptable(items: seq<Json>) {
    forall i :: 0 <= i < |items| ==> QuestionAcceptable(items[i])
  }

  predicate ArrayOfLength(v: Option<Json>, length: nat) {
    v.Some? && v.value.JArray? && |v.value.items| == length
  }

  predicate CategoryAcceptable(v: Json) {
    && v.JObject?
    && IdAcceptable(Get(v.fields, "id"))
    && IsString(Get(v.fields, "title"))
    && ArrayOfLength(Get(v.fields, "questions"), QuestionsPerCategory)
    && QuestionsAcceptable(Get(v.fields, "questions").value.items)
  }

  predicate CategoriesAcceptable(items: seq<Json>) {
    forall i :: 0 <= i < |items| ==> CategoryAcceptable(items[i])
  }

  predicate StringsOnly(items: seq<Json>) {
    forall i :: 0 <= i < |items| ==> items[i].JString?
  }

  predicate SettingsAcceptable(v: Json) {
    && v.JObject?
    && var answers := Get(v.fields, "dailyDoubleAnwsers");
    answers.None? || (answers.value.JArray? && StringsOnly(answers.value.items))
  }

  predicate RoundAcceptable(v: Json) {
    && v.JObject?
    && Get(v.fields, "settings").Some?
    && SettingsAcceptable(Get(v.fields, "settings").value)
    && ArrayOfLength(Get(v.fields, "categories"), CategoriesPerRound)
    && CategoriesAcceptable(Get(v.fields, "categories").value.items)
  }

  predicate DocumentAcceptable(v: Json) {
    && v.JObject?
    && Get(v.fields, "roundOne").Some? && RoundAcceptable(Get(v.fields, "roundOne").value)
    && Get(v.fields, "roundTwo").Some? && RoundAcceptable(Get(v.fields, "roundTwo").value)
    && Get(v.fields, "finalJeopardy").Some? && QuestionAcceptable(Get(v.fields, "finalJeopardy").value)
  }

  /** The id default: a present id is kept verbatim, a missing one is the supply's id at next. */
  predicate IdKeptOrCreated(v: Option<Json>, id: string, next: nat) {
    if v.None? then id == CreateId(next) else v == Some(JString(id))
  }

  // ---------------------------------------------------------------------
  // Where a validated value comes from: every text is the input's own, a
  // present id is kept, and a missing id is one the supply handed out while
  // its counter ran from lo up to (not including) hi.

  predicate IdFrom(v: Option<Json>, id: string, lo: nat, hi: nat) {
    if v.None? then IdNumber(id).Some? && lo <= IdNumber(id).value < hi else v == Some(JString(id))
  }

  predicate QuestionFrom(v: Json, q: Question, lo: nat, hi: nat) {
    && v.JObject?
    && IdFrom(Get(v.fields, "id"), q.id, lo, hi)
    && Get(v.fields, "clue") == Some(JString(q.clue))
    && Get(v.fields, "answer") == Some(JString(q.answer))
  }

  predicate QuestionsFrom(items: seq<Json>, qs: seq<Question>, lo: nat, hi: nat) {
    |qs| == |items| && forall i :: 0 <= i < |items| ==> QuestionFrom(items[i], qs[i], lo, hi)
  }

  predicate CategoryFrom(v: Json, c: Category, lo: nat, hi: nat) {
    && v.JObject?
    && IdFrom(Get(v.fields, "id"), c.id, lo, hi)
    && Get(v.fields, "title") == Some(JString(c.title))
    && Get(v.fields, "questions").Some? && Get(v.fields, "questions").value.JArray?
    && QuestionsFrom(Get(v.fields, "questions").value.items, c.questions, lo, hi)
  }

  predicate CategoriesFrom(items: seq<Json>, cs: seq<Category>, lo: nat, hi: nat) {
    |cs| == |items| && forall i :: 0 <= i < |items| ==> CategoryFrom(items[i], cs[i], lo, hi)
  }

  /** A missing answer list is defaulted, a present one kept string by string. */
  predicate SettingsFrom(v: Json, settings: Settings) {
    && v.JObject?
    && var answers := Get(v.fields, "dailyDoubleAnwsers");
    if answers.None? then settings.dailyDoubleAnwsers == DefaultDailyDoubleAnwsers
    else
      && answers.value.JArray?
      && |settings.dailyDoubleAnwsers| == |answers.value.items|
      && forall i :: 0 <= i < |answers.value.items| ==>
           answers.value.items[i] == JString(settings.dailyDoubleAnwsers[i])
  }

  predicate RoundFrom(v: Json, r: Round, lo: nat, hi: nat) {
    && v.JObject?
    && Get(v.fields, "settings").Some? && SettingsFrom(Get(v.fields, "settings").value, r.settings)
    && Get(v.fields, "categories").Some? && Get(v.fields, "categories").value.JArray?
    && CategoriesFrom(Get(v.fields, "categories").value.items, r.categories, lo, hi)
  }

  predicate DocumentFrom(v: Json, d: Jeopardy, lo: nat, hi: nat) {
    && v.JObject?
    && Get(v.fields, "roundOne").Some? && RoundFrom(Get(v.fields, "roundOne").value, d.roundOne, lo, hi)
    && Get(v.fields, "roundTwo").Some? && RoundFrom(Get(v.fields, "roundTwo").value, d.roundTwo, lo, hi)
    && Get(v.fields, "finalJeopardy").Some? && QuestionFrom(Get(v.fields, "finalJeopardy").value, d.finalJeopardy, lo, hi)
  }

  // ---------------------------------------------------------------------
  // The ids the schema supplies, in document order: one for every question
  // or category whose input has no id.

  function SuppliedId(v: Option<Json>, id: string): seq<string> {
    if v.None? then [id] else []
  }

  /** The elements of an array value; none for anything else. */
  function ItemsOf(v: Option<Json>): seq<Json> {
    if v.Some? && v.value.JArray? then v.value.items else []
  }

  function QuestionSupplied(v: Json, q: Question): seq<string> {
    if v.JObject? then SuppliedId(Get(v.fields, "id"), q.id) else []
  }

  function QuestionsSupplied(items: seq<Json>, qs: seq<Question>): seq<string>
    decreases |items|
  {
    if items == [] || qs == [] then []
    else QuestionSupplied(items[0], qs[0]) + QuestionsSupplied(items[1..], qs[1..])
  }

  function CategorySupplied(v: Json, c: Category): seq<string> {
    if v.JObject? then
      SuppliedId(Get(v.fields, "id"), c.id) + QuestionsSupplied(ItemsOf(Get(v.fields, "questions")), c.questions)
    else []
  }

  function CategoriesSupplied(items: seq<Json>, cs: seq<Category>): seq<string>
    decreases |items|
  {
    if items == [] || cs == [] then []
    else CategorySupplied(items[0], cs[0]) + CategoriesSupplied(items[1..], cs[1..])
  }

  function RoundSupplied(v: Json, r: Round): seq<string> {
    if v.JObject? then CategoriesSupplied(ItemsOf(Get(v.fields, "categories")), r.categories) else []
  }

  function DocumentSupplied(v: Json, d: Jeopardy): seq<string> {
    if v.JObject? then
      RoundSupplied(Get(v.fields, "roundOne").GetOr(JNull), d.roundOne)
      + RoundSupplied(Get(v.fields, "roundTwo").GetOr(JNull), d.roundTwo)
      + QuestionSupplied(Get(v.fields, "finalJeopardy").GetOr(JNull), d.finalJeopardy)
    else []
  }

  lemma QuestionsSuppliedCons(items: seq<Json>, q: Question, rest: seq<Question>, lo: nat, mid: nat, hi: nat)
    requires items != []
    requires IssuedRun(QuestionSupplied(items[0], q), lo, mid)
    requires IssuedRun(QuestionsSupplied(items[1..], rest), mid, hi)
    ensures IssuedRun(QuestionsSupplied(items, [q] + rest), lo, hi)
  {
    assert ([q] + rest)[1..] == rest;
    IssuedRunJoin(QuestionSupplied(items[0], q), QuestionsSupplied(items[1..], rest), lo, mid, hi);
  }

  lemma CategoriesSuppliedCons(items: seq<Json>, c: Category, rest: seq<Category>, lo: nat, mid: nat, hi: nat)
    requires items != []
    requires IssuedRun(CategorySupplied(items[0], c), lo, mid)
    requires IssuedRun(CategoriesSupplied(items[1..], rest), mid, hi)
    ensures IssuedRun(CategoriesSupplied(items, [c] + rest), lo, hi)
  {
    assert ([c] + rest)[1..] == rest;
    IssuedRunJoin(CategorySupplied(items[0], c), CategoriesSupplied(items[1..], rest), lo, mid, hi);
  }

  lemma QuestionsAcceptableCons(items: seq<Json>)
    requires items != []
    ensures QuestionsAcceptable(items) <==> QuestionAcceptable(items[0]) && QuestionsAcceptable(items[1..])
  {
    if QuestionAcceptable(items[0]) && QuestionsAcceptable(items[1..]) {
      forall i | 0 <= i < |items| ensures QuestionAcceptable(items[i]) {
        if i > 0 { assert items[i] == items[1..][i - 1]; }
      }
    }
  }

  lemma CategoriesAcceptableCons(items: seq<Json>)
    requires items != []
    ensures CategoriesAcceptable(items) <==> CategoryAcceptable(items[0]) && CategoriesAcceptable(items[1..])
  {
    if CategoryAcceptable(items[0]) && CategoriesAcceptable(items[1..]) {
      forall i | 0 <= i < |items| ensures CategoryAcceptable(items[i]) {
        if i > 0 { assert items[i] == items[1..][i - 1]; }
      }
    }
  }

  /** A wider counter window still contains every id drawn. */
  lemma QuestionsFromWiden(items: seq<Json>, qs: seq<Question>, lo: nat, hi: nat, lo': nat, hi': nat)
    requires QuestionsFrom(items, qs, lo, hi) && lo' <= lo && hi <= hi'
    ensures QuestionsFrom(items, qs, lo', hi')
  {
    forall i | 0 <= i < |items| ensures QuestionFrom(items[i], qs[i], lo', hi') {
      assert QuestionFrom(items[i], qs[i], lo, hi);
    }
  }

  lemma CategoriesFromWiden(items: seq<Json>, cs: seq<Category>, lo: nat, hi: nat, lo': nat, hi': nat)
    requires CategoriesFrom(items, cs, lo, hi) && lo' <= lo && hi <= hi'
    ensures CategoriesFrom(items, cs, lo', hi')
  {
    forall i | 0 <= i < |items| ensures CategoryFrom(items[i], cs[i], lo', hi') {
      var c := cs[i];
      assert CategoryFrom(items[i], c, lo, hi);
      QuestionsFromWiden(Get(items[i].fields, "questions").value.items, c.questions, lo, hi, lo', hi');
    }
  }

  // ---------------------------------------------------------------------
  // The validator. Each Parse function follows one schema object; fields
  // are visited in the order the schema declares them, and the first issue
  // met is the one reported.

  /** `z.string().default(() => createId())` */
  function ParseId(v: Option<Json>, path: Path, next: nat): (r: Result<Parsed<string>, Issue>)
    ensures r.Ok? <==> IdAcceptable(v)
    ensures r.Ok? ==> IdKeptOrCreated(v, r.value.value, next)
    ensures r.Ok? ==> r.value.next == if v.None? then next + 1 else next
  {
    match v
    case None => Ok(Parsed(CreateId(next), next + 1))
    case Some(JString(s)) => Ok(Parsed(s, next))
    case Some(_) => Err(Issue(path, InvalidType))
  }

  /** An id is supplied, from the counter value next, exactly when the input has none. */
  lemma ParseIdSupplies(v: Option<Json>, id: string, next: nat)
    requires IdKeptOrCreated(v, id, next)
    ensures IssuedRun(SuppliedId(v, id), next, if v.None? then next + 1 else next)
  {
    if v.None? { IssuedRunSingle(next); } else { IssuedRunEmpty(next); }
  }

  /** `z.array(...).length(n)`: the element values, once the length is right. */
  function ParseArray(v: Option<Json>, path: Path, length: nat): (r: Result<seq<Json>, Issue>)
    ensures r.Ok? <==> ArrayOfLength(v, length)
    ensures r.Ok? ==> v == Some(JArray(r.value))
  {
    match v
    case None => Err(Issue(path, Required))
    case Some(JArray(items)) =>
      if |items| != length then Err(Issue(path, ExactLength(length, |items|))) else Ok(items)
    case Some(_) => Err(Issue(path, InvalidType))
  }

  /** `jeopardyQuestionSchema` */
  function ParseQuestion(v: Option<Json>, path: Path, next: nat): (r: Result<Parsed<Question>, Issue>)
    ensures r.Ok? <==> v.Some? && QuestionAcceptable(v.value)
    ensures r.Ok? ==>
      && IdKeptOrCreated(Get(v.value.fields, "id"), r.value.value.id, next)
      && Get(v.value.fields, "clue") == Some(JString(r.value.value.clue))
      && Get(v.value.fields, "answer") == Some(JString(r.value.value.answer))
      && r.value.next == if Get(v.value.fields, "id").None? then next + 1 else next
    ensures r.Ok? ==> QuestionFrom(v.value, r.value.value, next, r.value.next)
    ensures r.Ok? ==> IssuedRun(QuestionSupplied(v.value, r.value.value), next, r.value.next)
  {
    match v
    case None => Err(Issue(path, Required))
    case Some(JObject(f)) =>
      var id :- ParseId(Get(f, "id"), path + [Key("id")], next);
      var clue :- ParseString(Get(f, "clue"), path + [Key("clue")]);
      var answer :- ParseString(Get(f, "answer"), path + [Key("answer")]);
      ParseIdSupplies(Get(f, "id"), id.value, next);
      Ok(Parsed(Question(id.value, clue, answer), id.next))
    case Some(_) => Err(Issue(path, InvalidType))
  }

  lemma QuestionsFromCons(items: seq<Json>, q: Question, rest: seq<Question>, lo: nat, mid: nat, hi: nat)
    requires items != [] && lo <= mid <= hi
    requires QuestionFrom(items[0], q, lo, mid) && QuestionsFrom(items[1..], rest, mid, hi)
    ensures QuestionsFrom(items, [q] + rest, lo, hi)
  {
    forall i | 0 <= i < |items| ensures QuestionFrom(items[i], ([q] + rest)[i], lo, hi) {
      if i > 0 {
        assert items[i] == items[1..][i - 1];
        assert QuestionFrom(items[1..][i - 1], rest[i - 1], mid, hi);
      }
    }
  }

  lemma CategoriesFromCons(items: seq<Json>, c: Category, rest: seq<Category>, lo: nat, mid: nat, hi: nat)
    requires items != [] && lo <= mid <= hi
    requires CategoryFrom(items[0], c, lo, mid) && CategoriesFrom(items[1..], rest, mid, hi)
    ensures CategoriesFrom(items, [c] + rest, lo, hi)
  {
    CategoriesFromWiden(items[1..], rest, mid, hi, lo, hi);
    assert CategoriesFrom([items[0]], [c], lo, hi) by {
      QuestionsFromWiden(Get(items[0].fields, "questions").value.items, c.questions, lo, mid, lo, hi);
    }
    forall i | 0 <= i < |items| ensures CategoryFrom(items[i], ([c] + rest)[i], lo, hi) {
      if i > 0 {
        assert items[i] == items[1..][i - 1];
      }
    }
  }

  /** The elements of a question array, the element at position i reported under path + [At(from + i)]. */
  function ParseQuestionList(items: seq<Json>, path: Path, from: nat, next: nat): (r: Result<Parsed<seq<Question>>, Issue>)
    ensures r.Ok? <==> QuestionsAcceptable(items)
    ensures r.Ok? ==> |r.value.value| == |items| && r.value.next >= next
    ensures r.Ok? ==> QuestionsFrom(items, r.value.value, next, r.value.next)
    ensures r.Ok? ==> IssuedRun(QuestionsSupplied(items, r.value.value), next, r.value.next)
    decreases |items|
  {
    if items == [] then IssuedRunEmpty(next); Ok(Parsed([], next))
    else
      QuestionsAcceptableCons(items);
      var q :- ParseQuestion(Some(items[0]), path + [At(from)], next);
      var rest :- ParseQuestionList(items[1..], path, from + 1, q.next);
      QuestionsFromCons(items, q.value, rest.value, next, q.next, rest.next);
      QuestionsSuppliedCons(items, q.value, rest.value, next, q.next, rest.next);
      Ok(Parsed([q.value] + rest.value, rest.next))
  }

  /** `jeopardyCategorySchema` */
  function ParseCategory(v: Option<Json>, path: Path, next: nat): (r: Result<Parsed<Category>, Issue>)
    ensures r.Ok? <==> v.Some? && CategoryAcceptable(v.value)
    ensures r.Ok? ==>
      && IdKeptOrCreated(Get(v.value.fields, "id"), r.value.value.id, next)
      && Get(v.value.fields, "title") == Some(JString(r.value.value.title))
      && |r.value.value.questions| == QuestionsPerCategory
      && r.value.next >= next
    ensures r.Ok? ==> CategoryFrom(v.value, r.value.value, next, r.value.next)
    ensures r.Ok? ==> IssuedRun(CategorySupplied(v.value, r.value.value), next, r.value.next)
  {
    match v
    case None => Err(Issue(path, Required))
    case Some(JObject(f)) =>
      var id :- ParseId(Get(f, "id"), path + [Key("id")], next);
      var title :- ParseString(Get(f, "title"), path + [Key("title")]);
      var items :- ParseArray(Get(f, "questions"), path + [Key("questions")], QuestionsPerCategory);
      var questions :- ParseQuestionList(items, path + [Key("questions")], 0, id.next);
      QuestionsFromWiden(items, questions.value, id.next, questions.next, next, questions.next);
      ParseIdSupplies(Get(f, "id"), id.value, next);
      IssuedRunJoin(SuppliedId(Get(f, "id"), id.value), QuestionsSupplied(items, questions.value), next, id.next, questions.next);
      Ok(Parsed(Category(id.value, title, questions.value), questions.next))
    case Some(_) => Err(Issue(path, InvalidType))
  }

  function ParseCategoryList(items: seq<Json>, path: Path, from: nat, next: nat): (r: Result<Parsed<seq<Category>>, Issue>)
    ensures r.Ok? <==> CategoriesAcceptable(items)
    ensures r.Ok? ==>
      && |r.value.value| == |items|
      && (forall i :: 0 <= i < |items| ==> |r.value.value[i].questions| == QuestionsPerCategory)
      && r.value.next >= next
    ensures r.Ok? ==> CategoriesFrom(items, r.value.value, next, r.value.next)
    ensures r.Ok? ==> IssuedRun(CategoriesSupplied(items, r.value.value), next, r.value.next)
    decreases |items|
  {
    if items == [] then IssuedRunEmpty(next); Ok(Parsed([], next))
    else
      CategoriesAcceptableCons(items);
      var c :- ParseCategory(Some(items[0]), path + [At(from)], next);
      var rest :- ParseCategoryList(items[1..], path, from + 1, c.next);
      CategoriesFromCons(items, c.value, rest.value, next, c.next, rest.next);
      CategoriesSuppliedCons(items, c.value, rest.value, next, c.next, rest.next);
      Ok(Parsed([c.value] + rest.value, rest.next))
  }

  /** `z.array(z.literal("random").or(z.string()))`: any strings, any number of them. */
  function ParseStringList(items: seq<Json>, path: Path, from: nat): (r: Result<seq<string>, Issue>)
    ensures r.Ok? <==> StringsOnly(items)
    ensures r.Ok? ==> |r.value| == |items| && forall i :: 0 <= i < |items| ==> items[i] == JString(r.value[i])
    decreases |items|
  {
    if items == [] then Ok([])
    else
      assert StringsOnly(items) <==> items[0].JString? && StringsOnly(items[1..]) by {
        if items[0].JString? && StringsOnly(items[1..]) {
          forall i | 0 <= i < |items| ensures items[i].JString? {
            if i > 0 { assert items[i] == items[1..][i - 1]; }
          }
        }
      }
      var s :- ParseString(Some(items[0]), path + [At(from)]);
      var rest :- ParseStringList(items[1..], path, from + 1);
      assert forall i :: 1 <= i < |items| ==> items[i] == items[1..][i - 1];
      Ok([s] + rest)
  }

  /** The settings object of a round; it must be present, its answer list may be missing. */
  function ParseSettings(v: Option<Json>, path: Path): (r: Result<Settings, Issue>)
    ensures r.Ok? <==> v.Some? && SettingsAcceptable(v.value)
    ensures r.Ok? && Get(v.value.fields, "dailyDoubleAnwsers").None? ==>
      r.value.dailyDoubleAnwsers == DefaultDailyDoubleAnwsers
    ensures r.Ok? && Get(v.value.fields, "dailyDoubleAnwsers").Some? ==>
      var items := Get(v.value.fields, "dailyDoubleAnwsers").value.items;
      |r.value.dailyDoubleAnwsers| == |items| &&
      forall i :: 0 <= i < |items| ==> items[i] == JString(r.value.dailyDoubleAnwsers[i])
    ensures r.Ok? ==> SettingsFrom(v.value, r.value)
  {
    match v
    case None => Err(Issue(path, Required))
    case Some(JObject(f)) =>
      var answers := Get(f, "dailyDoubleAnwsers");
      var answersPath := path + [Key("dailyDoubleAnwsers")];
      if answers.None? then Ok(Settings(DefaultDailyDoubleAnwsers))
      else if !answers.value.JArray? then Err(Issue(answersPath, InvalidType))
      else
        var strings :- ParseStringList(answers.value.items, answersPath, 0);
        Ok(Settings(strings))
    case Some(_) => Err(Issue(path, InvalidType))
  }

  /** `jeopardyRoundSchema` */
  function ParseRound(v: Option<Json>, path: Path, next: nat): (r: Result<Parsed<Round>, Issue>)
    ensures r.Ok? <==> v.Some? && RoundAcceptable(v.value)
    ensures r.Ok? ==> RoundShaped(r.value.value) && r.value.next >= next
    ensures r.Ok? ==> RoundFrom(v.value, r.value.value, next, r.value.next)
    ensures r.Ok? ==> IssuedRun(RoundSupplied(v.value, r.value.value), next, r.value.next)
  {
    match v
    case None => Err(Issue(path, Required))
    case Some(JObject(f)) =>
      var settings :- ParseSettings(Get(f, "settings"), path + [Key("settings")]);
      var items :- ParseArray(Get(f, "categories"), path + [Key("categories")], CategoriesPerRound);
      var categories :- ParseCategoryList(items, path + [Key("categories")], 0, next);
      assert ItemsOf(Get(f, "categories")) == items;
      Ok(Parsed(Round(settings, categories.value), categories.next))
    case Some(_) => Err(Issue(path, InvalidType))
  }

  /**
   * `jeopardySchema`: validates an input document, drawing the ids it
   * supplies from the counter next.
   */
  function Validate(input: Json, next: nat): (r: Result<Parsed<Jeopardy>, Issue>)
    ensures r.Ok? <==> DocumentAcceptable(input)
    ensures r.Ok? ==> WellShaped(r.value.value) && r.value.next >= next
    ensures r.Ok? ==> DocumentFrom(input, r.value.value, next, r.value.next)
    ensures r.Ok? ==> IssuedRun(DocumentSupplied(input, r.value.value), next, r.value.next)
  {
    match input
    case JObject(f) =>
      var one :- ParseRound(Get(f, "roundOne"), [Key("roundOne")], next);
      var two :- ParseRound(Get(f, "roundTwo"), [Key("roundTwo")], one.next);
      var last :- ParseQuestion(Get(f, "finalJeopardy"), [Key("finalJeopardy")], two.next);
      CategoriesFromWiden(Get(f, "roundOne").value.fields["categories"].items, one.value.categories,
        next, one.next, next, last.next);
      CategoriesFromWiden(Get(f, "roundTwo").value.fields["categories"].items, two.value.categories,
        one.next, two.next, next, last.next);
      IssuedRunJoin(RoundSupplied(Get(f, "roundOne").value, one.value), RoundSupplied(Get(f, "roundTwo").value, two.value),
        next, one.next, two.next);
      IssuedRunJoin(
        RoundSupplied(Get(f, "roundOne").value, one.value) + RoundSupplied(Get(f, "roundTwo").value, two.value),
        QuestionSupplied(Get(f, "finalJeopardy").value, last.value), next, two.next, last.next);
      Ok(Parsed(Jeopardy(one.value, two.value, last.value), last.next))
    case _ => Err(Issue([], InvalidType))
  }

  /**
   * The ids a validated document was given are pairwise distinct and were
   * all issued below the returned counter.
   */
  /**
   * The ids a validated document was given are the ids issued from next up
   * to the returned counter, in document order; so they are pairwise
   * distinct and were all issued below the returned counter.
   */
  lemma ValidateSupplies(input: Json, next: nat)
    ensures Validate(input, next).Ok? ==>
      DocumentSupplied(input, Validate(input, next).value.value) == IdRange(next, Validate(input, next).value.next - next)
    ensures Validate(input, next).Ok? ==>
      && Distinct(DocumentSupplied(input, Validate(input, next).value.value))
      && IssuedBelow(DocumentSupplied(input, Validate(input, next).value.value), Validate(input, next).value.next)
  {
    if Validate(input, next).Ok? {
      var r := Validate(input, next).value;
      IssuedRunIsRange(DocumentSupplied(input, r.value), next, r.next);
      IssuedRunDistinct(DocumentSupplied(input, r.value), next, r.next);
    }
  }

  // ---------------------------------------------------------------------
  // A document as the plain object the application stores and feeds back
  // to the schema.

  function EncodeQuestion(q: Question): Json {
    JObject(map["id" := JString(q.id), "clue" := JString(q.clue), "answer" := JString(q.answer)])
  }

  function EncodeQuestions(qs: seq<Question>): (r: seq<Json>)
    ensures |r| == |qs|
  {
    if qs == [] then [] else [EncodeQuestion(qs[0])] + EncodeQuestions(qs[1..])
  }

  function EncodeCategory(c: Category): Json {
    JObject(map["id" := JString(c.id), "title" := JString(c.title), "questions" := JArray(EncodeQuestions(c.questions))])
  }

  function EncodeCategories(cs: seq<Category>): (r: seq<Json>)
    ensures |r| == |cs|
  {
    if cs == [] then [] else [EncodeCategory(cs[0])] + EncodeCategories(cs[1..])
  }

  function EncodeStrings(ss: seq<string>): (r: seq<Json>)
    ensures |r| == |ss|
  {
    if ss == [] then [] else [JString(ss[0])] + EncodeStrings(ss[1..])
  }

  function EncodeSettings(settings: Settings): Json {
    JObject(map["dailyDoubleAnwsers" := JArray(EncodeStrings(settings.dailyDoubleAnwsers))])
  }

  function EncodeRound(r: Round): Json {
    JObject(map["settings" := EncodeSettings(r.settings), "categories" := JArray(EncodeCategories(r.categories))])
  }

  function Encode(d: Jeopardy): Json {
    JObject(map[
      "roundOne" := EncodeRound(d.roundOne),
      "roundTwo" := EncodeRound(d.roundTwo),
      "finalJeopardy" := EncodeQuestion(d.finalJeopardy)])
  }

  // ---------------------------------------------------------------------
  // The blank board. Ids are drawn in the order the object literals are
  // evaluated: a category's id, then its five questions' ids; round one,
  // then round two, then the final question.

  function BlankQuestion(next: nat): (q: Question)
    ensures q.clue == "" && q.answer == ""
  {
    Question(CreateId(next), "", "")
  }

  /** `count` new empty questions, drawing ids from next on. */
  function BlankQuestions(next: nat, count: nat): seq<Question> {
    seq(count, i requires 0 <= i < count => BlankQuestion(next + i))
  }

  /** A new empty category: fresh id, empty title, five fresh empty questions; it takes six ids. */
  function BlankCategory(next: nat): Category {
    Category(CreateId(next), "", BlankQuestions(next + 1, QuestionsPerCategory))
  }

  /** `count` new empty categories, drawing ids from next on. */
  function BlankCategories(next: nat, count: nat): seq<Category> {
    seq(count, i requires 0 <= i < count => BlankCategory(next + 6 * i))
  }

  /** Every title, clue and answer of the round is empty. */
  predicate RoundTextEmpty(r: Round) {
    forall i :: 0 <= i < |r.categories| ==>
      && r.categories[i].title == ""
      && forall j :: 0 <= j < |r.categories[i].questions| ==>
           r.categories[i].questions[j].clue == "" && r.categories[i].questions[j].answer == ""
  }

  function BlankRound(next: nat): Round {
    Round(Settings(DefaultDailyDoubleAnwsers), BlankCategories(next, CategoriesPerRound))
  }

  /** A blank round has the schema's counts, nothing but empty texts and the default answers. */
  lemma BlankRoundShape(next: nat)
    ensures RoundShaped(BlankRound(next)) && RoundTextEmpty(BlankRound(next))
    ensures BlankRound(next).settings.dailyDoubleAnwsers == ["random", "random"]
  {
    var r := BlankRound(next);
    forall i | 0 <= i < |r.categories|
      ensures |r.categories[i].questions| == QuestionsPerCategory
      ensures r.categories[i].title == ""
      ensures forall j :: 0 <= j < |r.categories[i].questions| ==>
        r.categories[i].questions[j].clue == "" && r.categories[i].questions[j].answer == ""
    {
      assert r.categories[i] == BlankCategory(next + 6 * i);
      BlankCategoryShape(next + 6 * i);
    }
  }

  /** A blank category has five questions and nothing but empty texts. */
  lemma BlankCategoryShape(next: nat)
    ensures var c := BlankCategory(next);
      && |c.questions| == QuestionsPerCategory && c.title == ""
      && forall j :: 0 <= j < |c.questions| ==> c.questions[j].clue == "" && c.questions[j].answer == ""
  {
    var c := BlankCategory(next);
    forall j | 0 <= j < |c.questions| ensures c.questions[j].clue == "" && c.questions[j].answer == "" {
      assert c.questions[j] == BlankQuestion(next + 1 + j);
    }
  }

  /** Every text of the document is empty. */
  predicate AllTextEmpty(d: Jeopardy) {
    && RoundTextEmpty(d.roundOne) && RoundTextEmpty(d.roundTwo)
    && d.finalJeopardy.clue == "" && d.finalJeopardy.answer == ""
  }

  /** `makeBlankJeopardyGame`, drawing its 73 ids from the counter next. */
  function MakeBlank(next: nat): (r: Parsed<Jeopardy>)
    ensures WellShaped(r.value) && AllTextEmpty(r.value)
    ensures r.value.roundOne.settings.dailyDoubleAnwsers == ["random", "random"]
    ensures r.value.roundTwo.settings.dailyDoubleAnwsers == ["random", "random"]
    ensures r.next == next + 73
  {
    BlankRoundShape(next);
    BlankRoundShape(next + 36);
    Parsed(Jeopardy(BlankRound(next), BlankRound(next + 36), BlankQuestion(next + 72)), next + 73)
  }

  // ---------------------------------------------------------------------
  // Validating a validated document gives it back unchanged.

  lemma EncodeQuestionValidates(q: Question, path: Path, next: nat)
    ensures ParseQuestion(Some(EncodeQuestion(q)), path, next) == Ok(Parsed(q, next))
  {
    var f := EncodeQuestion(q).fields;
    assert Get(f, "id") == Some(JString(q.id));
    assert Get(f, "clue") == Some(JString(q.clue));
    assert Get(f, "answer") == Some(JString(q.answer));
  }

  lemma {:induction false} EncodeQuestionsValidate(qs: seq<Question>, path: Path, from: nat, next: nat)
    ensures ParseQuestionList(EncodeQuestions(qs), path, from, next) == Ok(Parsed(qs, next))
    decreases |qs|
  {
    if qs != [] {
      var items := EncodeQuestions(qs);
      assert items[0] == EncodeQuestion(qs[0]);
      assert items[1..] == EncodeQuestions(qs[1..]);
      EncodeQuestionValidates(qs[0], path + [At(from)], next);
      EncodeQuestionsValidate(qs[1..], path, from + 1, next);
      assert [qs[0]] + qs[1..] == qs;
    }
  }

  lemma EncodeCategoryValidates(c: Category, path: Path, next: nat)
    ensures ParseCategory(Some(EncodeCategory(c)), path, next).Ok? <==> |c.questions| == QuestionsPerCategory
    ensures |c.questions| == QuestionsPerCategory ==>
      ParseCategory(Some(EncodeCategory(c)), path, next) == Ok(Parsed(c, next))
  {
    var f := EncodeCategory(c).fields;
    assert Get(f, "id") == Some(JString(c.id));
    assert Get(f, "title") == Some(JString(c.title));
    assert Get(f, "questions") == Some(JArray(EncodeQuestions(c.questions)));
    EncodeQuestionsValidate(c.questions, path + [Key("questions")], 0, next);
  }

  lemma {:induction false} EncodeCategoriesAt(cs: seq<Category>, i: nat)
    requires i < |cs|
    ensures EncodeCategories(cs)[i] == EncodeCategory(cs[i])
    decreases |cs|
  {
    if i > 0 {
      EncodeCategoriesAt(cs[1..], i - 1);
    }
  }

  /** The plain form of a list of categories is acceptable exactly when each category has five questions. */
  lemma EncodeCategoriesAcceptable(cs: seq<Category>)
    ensures CategoriesAcceptable(EncodeCategories(cs)) <==>
      forall i :: 0 <= i < |cs| ==> |cs[i].questions| == QuestionsPerCategory
  {
    forall i | 0 <= i < |cs|
      ensures CategoryAcceptable(EncodeCategories(cs)[i]) <==> |cs[i].questions| == QuestionsPerCategory
    {
      EncodeCategoriesAt(cs, i);
      EncodeCategoryValidates(cs[i], [], 0);
    }
  }

  /** One step of ParseCategoryList when the head category and the tail both validate. */
  lemma ParseCategoryListCons(items: seq<Json>, path: Path, from: nat, next: nat, head: Parsed<Category>, tail: Parsed<seq<Category>>)
    requires items != []
    requires ParseCategory(Some(items[0]), path + [At(from)], next) == Ok(head)
    requires ParseCategoryList(items[1..], path, from + 1, head.next) == Ok(tail)
    ensures ParseCategoryList(items, path, from, next) == Ok(Parsed([head.value] + tail.value, tail.next))
  {
  }

  lemma EncodeCategoriesStep(cs: seq<Category>, path: Path, from: nat, next: nat)
    requires cs != [] && |cs[0].questions| == QuestionsPerCategory
    requires ParseCategoryList(EncodeCategories(cs[1..]), path, from + 1, next) == Ok(Parsed(cs[1..], next))
    ensures ParseCategoryList(EncodeCategories(cs), path, from, next) == Ok(Parsed(cs, next))
  {
    var items := EncodeCategories(cs);
    assert items[0] == EncodeCategory(cs[0]);
    assert items[1..] == EncodeCategories(cs[1..]);
    EncodeCategoryValidates(cs[0], path + [At(from)], next);
    ParseCategoryListCons(items, path, from, next, Parsed(cs[0], next), Parsed(cs[1..], next));
    assert [cs[0]] + cs[1..] == cs;
  }

  lemma {:induction false} EncodeShapedCategoriesValidate(cs: seq<Category>, path: Path, from: nat, next: nat)
    requires forall i :: 0 <= i < |cs| ==> |cs[i].questions| == QuestionsPerCategory
    ensures ParseCategoryList(EncodeCategories(cs), path, from, next) == Ok(Parsed(cs, next))
    decreases |cs|
  {
    if cs != [] {
      assert forall i :: 0 <= i < |cs[1..]| ==> cs[1..][i] == cs[i + 1];
      EncodeShapedCategoriesValidate(cs[1..], path, from + 1, next);
      EncodeCategoriesStep(cs, path, from, next);
    }
  }

  lemma EncodeCategoriesValidate(cs: seq<Category>, path: Path, from: nat, next: nat)
    ensures ParseCategoryList(EncodeCategories(cs), path, from, next).Ok? <==>
      forall i :: 0 <= i < |cs| ==> |cs[i].questions| == QuestionsPerCategory
    ensures ParseCategoryList(EncodeCategories(cs), path, from, next).Ok? ==>
      ParseCategoryList(EncodeCategories(cs), path, from, next) == Ok(Parsed(cs, next))
  {
    EncodeCategoriesAcceptable(cs);
    if forall i :: 0 <= i < |cs| ==> |cs[i].questions| == QuestionsPerCategory {
      EncodeShapedCategoriesValidate(cs, path, from, next);
    }
  }

  lemma {:induction false} EncodeStringsValidate(ss: seq<string>, path: Path, from: nat)
    ensures ParseStringList(EncodeStrings(ss), path, from) == Ok(ss)
    decreases |ss|
  {
    if ss != [] {
      var items := EncodeStrings(ss);
      assert items[0] == JString(ss[0]);
      assert items[1..] == EncodeStrings(ss[1..]);
      EncodeStringsValidate(ss[1..], path, from + 1);
      assert [ss[0]] + ss[1..] == ss;
    }
  }

  lemma EncodeSettingsValidates(settings: Settings, path: Path)
    ensures ParseSettings(Some(EncodeSettings(settings)), path) == Ok(settings)
  {
    var answers := JArray(EncodeStrings(settings.dailyDoubleAnwsers));
    assert Get(EncodeSettings(settings).fields, "dailyDoubleAnwsers") == Some(answers);
    EncodeStringsValidate(settings.dailyDoubleAnwsers, path + [Key("dailyDoubleAnwsers")], 0);
  }

  /** ParseRound when the settings and the category list both validate. */
  lemma ParseRoundOk(f: map<string, Json>, path: Path, next: nat, settings: Settings, cs: Parsed<seq<Category>>)
    ensures
      && ParseSettings(Get(f, "settings"), path + [Key("settings")]) == Ok(settings)
      && Get(f, "categories").Some? && Get(f, "categories").value.JArray?
      && |Get(f, "categories").value.items| == CategoriesPerRound
      && ParseCategoryList(Get(f, "categories").value.items, path + [Key("categories")], 0, next) == Ok(cs)
      ==> ParseRound(Some(JObject(f)), path, next) == Ok(Parsed(Round(settings, cs.value), cs.next))
  {
  }

  lemma EncodeRoundValidates(r: Round, path: Path, next: nat)
    ensures ParseRound(Some(EncodeRound(r)), path, next).Ok? <==> RoundShaped(r)
    ensures RoundShaped(r) ==> ParseRound(Some(EncodeRound(r)), path, next) == Ok(Parsed(r, next))
  {
    var f := EncodeRound(r).fields;
    assert Get(f, "settings") == Some(EncodeSettings(r.settings));
    assert Get(f, "categories") == Some(JArray(EncodeCategories(r.categories)));
    EncodeSettingsValidates(r.settings, path + [Key("settings")]);
    EncodeCategoriesValidate(r.categories, path + [Key("categories")], 0, next);
    if RoundShaped(r) {
      ParseRoundOk(f, path, next, r.settings, Parsed(r.categories, next));
    } else {
      EncodeCategoriesAcceptable(r.categories);
      assert !RoundAcceptable(EncodeRound(r));
    }
  }

  /** A well-shaped document's plain form validates to the document itself, drawing no id. */
  lemma EncodeShapedValidates(d: Jeopardy, next: nat)
    requires WellShaped(d)
    ensures Validate(Encode(d), next) == Ok(Parsed(d, next))
  {
    var f := Encode(d).fields;
    assert Get(f, "roundOne") == Some(EncodeRound(d.roundOne));
    assert Get(f, "roundTwo") == Some(EncodeRound(d.roundTwo));
    assert Get(f, "finalJeopardy") == Some(EncodeQuestion(d.finalJeopardy));
    EncodeRoundValidates(d.roundOne, [Key("roundOne")], next);
    EncodeRoundValidates(d.roundTwo, [Key("roundTwo")], next);
    EncodeQuestionValidates(d.finalJeopardy, [Key("finalJeopardy")], next);
    ValidateOk(f, next, Parsed(d.roundOne, next), Parsed(d.roundTwo, next), Parsed(d.finalJeopardy, next));
  }

  /** Validate when both rounds and the final question validate. */
  lemma ValidateOk(f: map<string, Json>, next: nat, one: Parsed<Round>, two: Parsed<Round>, last: Parsed<Question>)
    ensures
      && ParseRound(Get(f, "roundOne"), [Key("roundOne")], next) == Ok(one)
      && ParseRound(Get(f, "roundTwo"), [Key("roundTwo")], one.next) == Ok(two)
      && ParseQuestion(Get(f, "finalJeopardy"), [Key("finalJeopardy")], two.next) == Ok(last)
      ==> Validate(JObject(f), next) == Ok(Parsed(Jeopardy(one.value, two.value, last.value), last.next))
  {
  }

  /**
   * The schema accepts the plain form of a document exactly when the
   * document has the schema's counts, and then returns it unchanged without
   * drawing any id.
   */
  lemma EncodeValidates(d: Jeopardy, next: nat)
    ensures Validate(Encode(d), next).Ok? <==> WellShaped(d)
    ensures WellShaped(d) ==> Validate(Encode(d), next) == Ok(Parsed(d, next))
  {
    if WellShaped(d) {
      EncodeShapedValidates(d, next);
    } else {
      var f := Encode(d).fields;
      var round := if RoundShaped(d.roundOne) then d.roundTwo else d.roundOne;
      var key := if RoundShaped(d.roundOne) then "roundTwo" else "roundOne";
      assert Get(f, key) == Some(EncodeRound(round));
      EncodeRoundValidates(round, [], next);
      assert !RoundAcceptable(EncodeRound(round));
    }
  }

  /** Validation is idempotent: a validated document validates to itself. */
  lemma ValidateIdempotent(input: Json, next: nat, later: nat)
    ensures Validate(input, next).Ok? ==>
      Validate(Encode(Validate(input, next).value.value), later) == Ok(Parsed(Validate(input, next).value.value, later))
  {
    if Validate(input, next).Ok? {
      EncodeValidates(Validate(input, next).value.value, later);
    }
  }

  /** The blank board passes the schema unchanged: no default applies to it. */
  lemma BlankValidatesUnchanged(next: nat, later: nat)
    ensures Validate(Encode(MakeBlank(next).value), later) == Ok(Parsed(MakeBlank(next).value, later))
  {
    EncodeValidates(MakeBlank(next).value, later);
  }
}
