/**
 * The REST serializers of api_rest/serializers.py: the right-answer check
 * on incoming questions, and the outgoing shapes of categories (with their
 * post and question counts) and questions (with `available` published as
 * `is_active` and the author withheld).
 */
module Serializers {
  import opened Wrappers
  import opened Collections
  import opened QuestionModel
  import opened PostModel
  import AdminForms

  /** The keys `validate` reads, in the order Python evaluates them. */
  const ValidatedKeys: seq<string> := ["right_answer", "answer_01", "answer_02", "answer_03", "answer_04"]

  datatype Validation =
    | Accepted(data: map<string, string>)
    | Rejected                           // ValidationError: the right answer is not an option
    | MissingKey(key: string)            // KeyError on the first absent key

  function FirstMissing(data: map<string, string>, keys: seq<string>): (r: Option<string>)
    ensures r.None? <==> forall k :: k in keys ==> k in data
    ensures r.Some? ==> r.value in keys && r.value !in data
  {
    if keys == [] then None
    else if keys[0] !in data then Some(keys[0])
    else FirstMissing(data, keys[1..])
  }

  /** `QuestionSerializer.validate`. */
  function Validate(data: map<string, string>): (r: Validation)
    ensures r.Accepted? ==> r.data == data
    ensures r.MissingKey? <==> exists k :: k in ValidatedKeys && k !in data
    ensures r.MissingKey? ==> r.key in ValidatedKeys && r.key !in data
  {
    match FirstMissing(data, ValidatedKeys)
    case Some(k) => MissingKey(k)
    case None =>
      if data["right_answer"] !in [data["answer_01"], data["answer_02"], data["answer_03"], data["answer_04"]]
      then Rejected
      else Accepted(data)
  }

  /**
   * With all five fields present, the API and the admin form accept and
   * reject the same questions.
   */
  lemma ValidateAgreesWithForm(data: map<string, string>)
    requires forall k :: k in ValidatedKeys ==> k in data
    ensures Validate(data).Accepted? <==> AdminForms.CleanErrors(data) == []
    ensures !Validate(data).MissingKey?
  {
    var answer := AdminForms.Lookup(data, "right_answer");
    var a1, a2 := AdminForms.Lookup(data, "answer_01"), AdminForms.Lookup(data, "answer_02");
    var a3, a4 := AdminForms.Lookup(data, "answer_03"), AdminForms.Lookup(data, "answer_04");
    assert "right_answer" in ValidatedKeys && "answer_01" in ValidatedKeys && "answer_02" in ValidatedKeys;
    assert "answer_03" in ValidatedKeys && "answer_04" in ValidatedKeys;
    AdminForms.AnswerMissingIsNonMembership(answer, a1, a2, a3, a4);
  }

  /** The output of the category serializer: the model's fields plus two counts. */
  datatype CategoryOut = CategoryOut(id: nat, name: string, description: string, available: bool,
                                     posts: nat, questions: nat)

  /** `QuestionCategorySerializer.to_representation`. */
  function CategoryRepr(c: Category, posts: seq<Post>, questions: seq<Question>): (r: CategoryOut)
    ensures r.id == c.id && r.name == c.name && r.description == c.description && r.available == c.available
    ensures r.posts == Count(posts, (p: Post) => p.category == c.id)
    ensures r.questions == Count(questions, (q: Question) => q.subject == c.id)
  {
    CategoryOut(c.id, c.name, c.description, c.available,
                Count(posts, (p: Post) => p.category == c.id), Count(questions, (q: Question) => q.subject == c.id))
  }

  /** Adding a question to a category raises that category's count by one and leaves the others alone. */
  lemma AddedQuestionCounted(c: Category, posts: seq<Post>, questions: seq<Question>, q: Question)
    ensures CategoryRepr(c, posts, questions + [q]).questions ==
            CategoryRepr(c, posts, questions).questions + (if q.subject == c.id then 1 else 0)
    ensures CategoryRepr(c, posts, questions + [q]).posts == CategoryRepr(c, posts, questions).posts
  {
    CountAppend(questions, q, (q: Question) => q.subject == c.id);
  }

  /** The output of the question serializer: every column but `author` and `available`, plus `is_active`. */
  datatype QuestionOut = QuestionOut(id: nat, question: string, subject: nat, rightAnswer: string,
                                     answer01: string, answer02: string, answer03: string, answer04: string,
                                     level: Level, tag: string, isActive: bool)

  function QuestionRepr(q: Question): (r: QuestionOut)
    ensures r.isActive == q.available && r.id == q.id && r.subject == q.subject && r.rightAnswer == q.rightAnswer
  {
    QuestionOut(q.id, q.question, q.subject, q.rightAnswer, q.answer01, q.answer02, q.answer03, q.answer04,
                q.level, q.tag, q.available)
  }

  /** Reading a question back: `is_active` becomes `available`; the author comes from elsewhere. */
  function QuestionFromRepr(o: QuestionOut, author: string): (q: Question)
    ensures q.available == o.isActive && q.author == author && q.id == o.id
  {
    Question(o.id, o.question, o.subject, author, o.rightAnswer, o.answer01, o.answer02, o.answer03, o.answer04,
             o.level, o.isActive, o.tag)
  }

  /** Serializing and reading back are inverse, given the author; the output never depends on the author. */
  lemma QuestionReprRoundTrip(q: Question, o: QuestionOut, author: string)
    ensures QuestionFromRepr(QuestionRepr(q), q.author) == q
    ensures QuestionRepr(QuestionFromRepr(o, author)) == o
    ensures QuestionRepr(q.(author := author)) == QuestionRepr(q)
  {
  }
}
