/**
 * The quiz itself, from questions/views.py: drawing at most twenty distinct
 * questions of a category and difficulty level at random, walking through
 * them one request at a time, and scoring each answer.
 *
 * The random index source is an oracle: `draws` lists, in order, the values
 * `randint(0, count - 1)` returns, so each is below the pool's size. A run
 * that uses up every draw before the loop exits is reported as
 * `StillDrawing` (the loop has not returned yet).
 */
module QuizSession {
  import opened Wrappers
  import opened QuestionModel

  /** The most questions one test holds. */
  const MaxQuestions: nat := 20

  predicate Distinct(s: seq<nat>) {
    forall i, j :: 0 <= i < j < |s| ==> s[i] != s[j]
  }

  function Elems(s: seq<nat>): set<nat> {
    set x | x in s
  }

  predicate DrawsFit(draws: seq<nat>, size: nat) {
    forall i :: 0 <= i < |draws| ==> draws[i] < size
  }

  /**
   * The outcome of the sampling loop: the list it returns, the ValueError
   * `randint(0, -1)` raises on an empty pool (the source then returns None),
   * or the list built so far when the oracle has no more draws.
   */
  datatype Sample = Sampled(items: seq<nat>) | ValueError | StillDrawing(partial: seq<nat>)

  /** The values the oracle's draws pick out of the pool. */
  function Hits(pool: seq<nat>, draws: seq<nat>): set<nat>
    requires DrawsFit(draws, |pool|)
  {
    set i | 0 <= i < |draws| :: pool[draws[i]]
  }

  /**
   * What `create_random_queryset` computes once `acc` has been collected:
   * keep drawing while fewer than `limit` items are held, adding each drawn
   * item that is not held yet.
   */
  function Draw(pool: seq<nat>, limit: nat, draws: seq<nat>, acc: seq<nat>): Sample
    requires DrawsFit(draws, |pool|)
    decreases |draws|
  {
    if |acc| >= limit then Sampled(acc)
    else if |pool| == 0 then ValueError
    else if draws == [] then StillDrawing(acc)
    else
      var item := pool[draws[0]];
      Draw(pool, limit, draws[1..], if item in acc then acc else acc + [item])
  }

  /** `create_random_queryset(question_set, count, limit)` with `count` the pool's size. */
  method CreateRandomQueryset(pool: seq<nat>, limit: nat, draws: seq<nat>) returns (r: Sample)
    requires DrawsFit(draws, |pool|)
    ensures r == Draw(pool, limit, draws, [])
    ensures r.Sampled? ==> |r.items| == limit && Distinct(r.items) && Elems(r.items) <= Elems(pool)
    ensures r.StillDrawing? ==> |r.partial| < limit && Distinct(r.partial) && Elems(r.partial) <= Elems(pool)
  {
    var resultSet: seq<nat> := [];
    var k := 0;
    while |resultSet| < limit
      invariant 0 <= k <= |draws|
      invariant Draw(pool, limit, draws[k..], resultSet) == Draw(pool, limit, draws, [])
      invariant |resultSet| <= limit
      invariant Distinct(resultSet) && Elems(resultSet) <= Elems(pool)
      decreases |draws| - k
    {
      if |pool| == 0 {
        return ValueError;
      }
      if k == |draws| {
        return StillDrawing(resultSet);
      }
      assert draws[k..][1..] == draws[k + 1..];
      var item := pool[draws[k]];
      if item !in resultSet {
        resultSet := resultSet + [item];
      }
      k := k + 1;
    }
    return Sampled(resultSet);
  }

  /** Every finished run holds exactly `limit` distinct pool items, extending what was held at the start. */
  lemma {:induction false} DrawSound(pool: seq<nat>, limit: nat, draws: seq<nat>, acc: seq<nat>)
    requires DrawsFit(draws, |pool|)
    requires |acc| <= limit && Distinct(acc) && Elems(acc) <= Elems(pool)
    ensures var r := Draw(pool, limit, draws, acc);
            r.Sampled? ==> |r.items| == limit && Distinct(r.items) && Elems(r.items) <= Elems(pool) && acc <= r.items
    decreases |draws|
  {
    if |acc| < limit && |pool| > 0 && draws != [] {
      var item := pool[draws[0]];
      var next := if item in acc then acc else acc + [item];
      assert DrawsFit(draws[1..], |pool|);
      DrawSound(pool, limit, draws[1..], next);
    }
  }

  /**
   * The loop exits as soon as the draws have hit `limit` distinct items
   * (counting those already held): it then returns exactly `limit` of them.
   */
  lemma {:induction false} DrawCompletes(pool: seq<nat>, limit: nat, draws: seq<nat>, acc: seq<nat>)
    requires DrawsFit(draws, |pool|)
    requires |acc| <= limit && Distinct(acc)
    requires |Elems(acc) + Hits(pool, draws)| >= limit
    ensures Draw(pool, limit, draws, acc).Sampled?
    ensures |Draw(pool, limit, draws, acc).items| == limit
    decreases |draws|
  {
    DistinctCard(acc);
    if |acc| < limit {
      assert draws != [];
      assert |pool| > 0 by { assert draws[0] < |pool|; }
      var item := pool[draws[0]];
      var next := if item in acc then acc else acc + [item];
      assert DrawsFit(draws[1..], |pool|);
      HitsCons(pool, draws);
      StepKeepsDistinct(acc, item);
      assert Elems(next) + Hits(pool, draws[1..]) == Elems(acc) + Hits(pool, draws);
      DrawCompletes(pool, limit, draws[1..], next);
    }
  }

  lemma HitsCons(pool: seq<nat>, draws: seq<nat>)
    requires DrawsFit(draws, |pool|) && draws != []
    ensures DrawsFit(draws[1..], |pool|)
    ensures Hits(pool, draws) == {pool[draws[0]]} + Hits(pool, draws[1..])
  {
    assert DrawsFit(draws[1..], |pool|);
    forall x | x in Hits(pool, draws) ensures x in {pool[draws[0]]} + Hits(pool, draws[1..]) {
      var i :| 0 <= i < |draws| && x == pool[draws[i]];
      if i > 0 {
        assert draws[1..][i - 1] == draws[i];
      }
    }
    forall x | x in Hits(pool, draws[1..]) ensures x in Hits(pool, draws) {
      var i :| 0 <= i < |draws[1..]| && x == pool[draws[1..][i]];
      assert draws[i + 1] == draws[1..][i];
    }
  }

  /** One step of the loop keeps the list distinct and adds the drawn item to its elements. */
  lemma StepKeepsDistinct(acc: seq<nat>, item: nat)
    requires Distinct(acc)
    ensures var next := if item in acc then acc else acc + [item];
            Distinct(next) && Elems(next) == Elems(acc) + {item}
  {
    if item !in acc {
      var next := acc + [item];
      forall i, j | 0 <= i < j < |next| ensures next[i] != next[j] {
        if j == |acc| {
          assert next[i] == acc[i];
        }
      }
    }
  }

  /** A run never ends while fewer than `limit` distinct ids are in the pool (the converse of DrawCompletes). */
  lemma SampledNeedsEnoughItems(pool: seq<nat>, limit: nat, draws: seq<nat>)
    requires DrawsFit(draws, |pool|)
    requires Draw(pool, limit, draws, []).Sampled?
    ensures |Elems(pool)| >= limit
  {
    DrawSound(pool, limit, draws, []);
    var items := Draw(pool, limit, draws, []).items;
    DistinctCard(items);
    SubsetCard(Elems(items), Elems(pool));
  }

  /** A non-empty pool never makes `randint` raise. */
  lemma {:induction false} DrawNeverFailsOnItems(pool: seq<nat>, limit: nat, draws: seq<nat>, acc: seq<nat>)
    requires DrawsFit(draws, |pool|)
    requires |pool| > 0 || |acc| >= limit
    ensures !Draw(pool, limit, draws, acc).ValueError?
    decreases |draws|
  {
    if |acc| < limit && draws != [] {
      var item := pool[draws[0]];
      assert DrawsFit(draws[1..], |pool|);
      DrawNeverFailsOnItems(pool, limit, draws[1..], if item in acc then acc else acc + [item]);
    }
  }

  lemma {:induction false} DistinctCard(s: seq<nat>)
    requires Distinct(s)
    ensures |Elems(s)| == |s|
    decreases |s|
  {
    if s != [] {
      var t := s[1..];
      assert Distinct(t) by {
        forall i, j | 0 <= i < j < |t| ensures t[i] != t[j] {
          assert t[i] == s[i + 1] && t[j] == s[j + 1];
        }
      }
      DistinctCard(t);
      assert Elems(s) == {s[0]} + Elems(t) by {
        forall x | x in Elems(s) ensures x in {s[0]} + Elems(t) {
          var i :| 0 <= i < |s| && s[i] == x;
          if i > 0 {
            assert t[i - 1] == x;
          }
        }
      }
      assert s[0] !in Elems(t) by {
        forall i | 0 <= i < |t| ensures t[i] != s[0] {
          assert t[i] == s[i + 1];
        }
      }
    }
  }

  lemma {:induction false} SubsetCard(a: set<nat>, b: set<nat>)
    requires a <= b
    ensures |a| <= |b|
    ensures |a| == |b| ==> a == b
    decreases a
  {
    if a != {} {
      var x :| x in a;
      SubsetCard(a - {x}, b - {x});
    } else if b != {} {
      var y :| y in b;
      assert |b| >= 1 by { assert {y} <= b; }
    }
  }

  /** The question filter of `get_question_set`: the category, the level, and published. */
  predicate Matches(q: Question, category: nat, level: Level) {
    q.subject == category && q.level == level && q.available
  }

  /** The ids of the questions a test of `category` at `level` may use, in table order. */
  function AvailablePool(questions: seq<Question>, category: nat, level: Level): (pool: seq<nat>)
    ensures |pool| <= |questions|
    ensures forall x :: x in pool <==> exists q :: q in questions && q.id == x && Matches(q, category, level)
  {
    if questions == [] then []
    else
      var rest := AvailablePool(questions[1..], category, level);
      assert forall q :: q in questions <==> q == questions[0] || q in questions[1..];
      if Matches(questions[0], category, level) then [questions[0].id] + rest else rest
  }

  lemma {:induction false} AvailablePoolAppend(a: seq<Question>, b: seq<Question>, category: nat, level: Level)
    ensures AvailablePool(a + b, category, level) == AvailablePool(a, category, level) + AvailablePool(b, category, level)
    decreases |a|
  {
    if a != [] {
      assert (a + b)[1..] == a[1..] + b;
      AvailablePoolAppend(a[1..], b, category, level);
    } else {
      assert a + b == b;
    }
  }

  /** A question just created (unpublished by default) never enters any test. */
  lemma NewQuestionNotSampled(questions: seq<Question>, q: Question, category: nat, level: Level)
    requires !q.available
    ensures AvailablePool(questions + [q], category, level) == AvailablePool(questions, category, level)
  {
    AvailablePoolAppend(questions, [q], category, level);
    assert AvailablePool([q], category, level) == [];
  }

  /** Primary keys are unique in the question table. */
  /** Some row of the table has this id: `Question.objects.get(id=id)` finds it. */
  predicate HasQuestion(questions: seq<Question>, id: nat) {
    exists i :: 0 <= i < |questions| && questions[i].id == id
  }

  predicate UniqueIds(questions: seq<Question>) {
    forall i, j :: 0 <= i < j < |questions| ==> questions[i].id != questions[j].id
  }

  lemma {:induction false} UniqueIdsPoolDistinct(questions: seq<Question>, category: nat, level: Level)
    requires UniqueIds(questions)
    ensures Distinct(AvailablePool(questions, category, level))
    decreases |questions|
  {
    if questions != [] {
      var t := questions[1..];
      assert UniqueIds(t) by {
        forall i, j | 0 <= i < j < |t| ensures t[i].id != t[j].id {
          assert t[i] == questions[i + 1] && t[j] == questions[j + 1];
        }
      }
      UniqueIdsPoolDistinct(t, category, level);
      var rest := AvailablePool(t, category, level);
      if Matches(questions[0], category, level) {
        assert questions[0].id !in rest;
        var p := [questions[0].id] + rest;
        forall i, j | 0 <= i < j < |p| ensures p[i] != p[j] {
          if i == 0 {
            assert p[j] == rest[j - 1];
          } else {
            assert p[i] == rest[i - 1] && p[j] == rest[j - 1];
          }
        }
      }
    }
  }

  /** `get_question_set`'s limit: the pool's size below twenty, else twenty. */
  function SampleLimit(count: nat): (limit: nat)
    ensures limit <= count && limit <= MaxQuestions
    ensures limit == count || limit == MaxQuestions
  {
    if count < MaxQuestions then count else MaxQuestions
  }

  /**
   * `get_question_set`: sample min(pool size, 20) questions from the pool of
   * the category and level. Its ValueError path can never be taken.
   */
  method GetQuestionSet(questions: seq<Question>, category: nat, level: Level, draws: seq<nat>) returns (r: Sample)
    requires DrawsFit(draws, |AvailablePool(questions, category, level)|)
    ensures var pool := AvailablePool(questions, category, level);
            r == Draw(pool, SampleLimit(|pool|), draws, [])
    ensures !r.ValueError?
    ensures r.Sampled? ==>
              |r.items| == SampleLimit(|AvailablePool(questions, category, level)|) && Distinct(r.items) &&
              forall x :: x in r.items ==> x in AvailablePool(questions, category, level)
  {
    var pool := AvailablePool(questions, category, level);
    var limit := SampleLimit(|pool|);
    DrawNeverFailsOnItems(pool, limit, draws, []);
    r := CreateRandomQueryset(pool, limit, draws);
    if r.Sampled? {
      forall x | x in r.items ensures x in pool {
        assert x in Elems(r.items);
      }
    }
  }

  /** With fewer than twenty candidates, a finished sample is all of them, in some order. */
  lemma SmallPoolTakesAll(questions: seq<Question>, category: nat, level: Level, draws: seq<nat>)
    requires UniqueIds(questions)
    requires |AvailablePool(questions, category, level)| < MaxQuestions
    requires DrawsFit(draws, |AvailablePool(questions, category, level)|)
    requires var pool := AvailablePool(questions, category, level);
             Draw(pool, SampleLimit(|pool|), draws, []).Sampled?
    ensures var pool := AvailablePool(questions, category, level);
            Elems(Draw(pool, SampleLimit(|pool|), draws, []).items) == Elems(pool)
  {
    var pool := AvailablePool(questions, category, level);
    DrawSound(pool, |pool|, draws, []);
    var items := Draw(pool, |pool|, draws, []).items;
    UniqueIdsPoolDistinct(questions, category, level);
    DistinctCard(pool);
    DistinctCard(items);
    SubsetCard(Elems(items), Elems(pool));
  }

  /** If the draws reach every position of a pool of distinct ids, the test gets its full complement. */
  lemma FullCoverageSamples(questions: seq<Question>, category: nat, level: Level, draws: seq<nat>)
    requires UniqueIds(questions)
    requires DrawsFit(draws, |AvailablePool(questions, category, level)|)
    requires forall i :: 0 <= i < |AvailablePool(questions, category, level)| ==> i in draws
    ensures var pool := AvailablePool(questions, category, level);
            Draw(pool, SampleLimit(|pool|), draws, []).Sampled? &&
            |Draw(pool, SampleLimit(|pool|), draws, []).items| == SampleLimit(|pool|)
  {
    var pool := AvailablePool(questions, category, level);
    UniqueIdsPoolDistinct(questions, category, level);
    DistinctCard(pool);
    forall x | x in Elems(pool) ensures x in Hits(pool, draws) {
      var i :| 0 <= i < |pool| && pool[i] == x;
      assert i in draws;
      var j :| 0 <= j < |draws| && draws[j] == i;
    }
    SubsetCard(Elems(pool), Hits(pool, draws));
    assert Elems([]) == {};
    DrawCompletes(pool, SampleLimit(|pool|), draws, []);
  }

  /** The score after one answer: plus the level's points, or minus them but never below zero. */
  function Scored(score: nat, points: nat, correct: bool): (r: nat)
    ensures correct ==> r - score == points
    ensures !correct ==> r <= score
    ensures !correct && score >= points ==> score - r == points
    ensures !correct && score < points ==> r == 0
  {
    if correct then score + points
    else if score >= points then score - points
    else 0
  }

  /** A wrong answer right after a right one at the same level gives the score back. */
  lemma WrongUndoesRight(score: nat, points: nat)
    ensures Scored(Scored(score, points, true), points, false) == score
  {
  }

  /** The score after a run of answers, each judged right or wrong. */
  function ScoreAfter(score: nat, points: nat, answers: seq<bool>): nat
    decreases |answers|
  {
    if answers == [] then score else ScoreAfter(Scored(score, points, answers[0]), points, answers[1..])
  }

  function Rights(answers: seq<bool>): nat
    decreases |answers|
  {
    if answers == [] then 0 else (if answers[0] then 1 else 0) + Rights(answers[1..])
  }

  function Wrongs(answers: seq<bool>): nat
    decreases |answers|
  {
    if answers == [] then 0 else (if answers[0] then 0 else 1) + Wrongs(answers[1..])
  }

  /**
   * The floor only ever helps the player: after any run of answers the score
   * is at most the start plus the points of the right answers, and at least
   * that minus the points of the wrong ones.
   */
  lemma {:induction false} ScoreAfterBounds(score: nat, points: nat, answers: seq<bool>)
    ensures ScoreAfter(score, points, answers) <= score + points * Rights(answers)
    ensures ScoreAfter(score, points, answers) + points * Wrongs(answers) >= score + points * Rights(answers)
    decreases |answers|
  {
    if answers != [] {
      var s1 := Scored(score, points, answers[0]);
      ScoreAfterBounds(s1, points, answers[1..]);
      var r := Rights(answers[1..]);
      var w := Wrongs(answers[1..]);
      if answers[0] {
        assert Rights(answers) == r + 1 && Wrongs(answers) == w;
        assert points * (r + 1) == points * r + points;
      } else {
        assert Rights(answers) == r && Wrongs(answers) == w + 1;
        assert points * (w + 1) == points * w + points;
      }
    }
  }

  /** What the first request of a test shows. */
  datatype StartOutcome =
    | CategoryNotFound  // the 404 of get_object_or_404
    | Showing(id: nat)  // the first question of the test
    | NoQuestions       // the test is empty: no question is shown
    | Pending           // the sampling loop has not returned yet

  /** What each following request shows. */
  datatype NextOutcome =
    | NextCategoryNotFound
    | Item(id: nat)     // the next question
    | Stop              // the 'Stop' sentinel: the test is over
    | NextKeyError      // no test context, or a test that never got a question list
    | NextQuestionNotFound  // the popped id is no longer in the table: `Question.objects.get` raised DoesNotExist

  datatype AnswerOutcome =
    | Judged(guessed: bool)
    | AnswerKeyError       // 'dif' or 'context' missing from the session
    | QuestionNotFound     // `Question.objects.get` raised DoesNotExist

  /**
   * The session state of one player during a test, and the player's score.
   * `started` says whether the session holds 'context'; the remaining fields
   * up to `questionSet` are that context's entries, `questionSet` being None
   * while its 'question_set' key is absent. `shown` is the ghost record of the
   * questions already shown in this test.
   */
  class Session {
    var dif: Option<Level>
    var timeLimit: Option<string>
    var started: bool
    var categoryName: string
    var difPoints: nat
    var quantity: nat
    var rightAns: nat
    var wrongAns: nat
    var questionSet: Option<seq<nat>>
    var score: nat
    ghost var shown: seq<nat>

    /** The ids still to come and the ids already shown are all different, and together make up the test. */
    ghost predicate Valid()
      reads this
    {
      questionSet.Some? ==>
        started && Distinct(questionSet.value + shown) && |questionSet.value| + |shown| == quantity
    }

    constructor (score: nat)
      ensures Valid()
      ensures dif == None && timeLimit == None && !started && questionSet == None
      ensures this.score == score && shown == []
    {
      dif := None;
      timeLimit := None;
      started := false;
      categoryName := "";
      difPoints := 0;
      quantity := 0;
      rightAns := 0;
      wrongAns := 0;
      questionSet := None;
      this.score := score;
      shown := [];
    }

    /**
     * `QuestionView.post`: remember the level and the time-limit flag, draw
     * the test, reset the counters, and show the last drawn question, keeping
     * the rest in the session.
     */
    method Start(pk: nat, categories: map<nat, Category>, questions: seq<Question>, level: Level,
                 limitFlag: string, points: Level -> nat, draws: seq<nat>) returns (o: StartOutcome)
      requires Valid()
      requires DrawsFit(draws, |AvailablePool(questions, pk, level)|)
      modifies this
      ensures Valid()
      ensures dif == Some(level) && timeLimit == Some(limitFlag) && score == old(score)
      ensures o == CategoryNotFound <==> pk !in categories
      ensures o == CategoryNotFound || o == Pending ==>
                started == old(started) && quantity == old(quantity) && rightAns == old(rightAns) &&
                wrongAns == old(wrongAns) && questionSet == old(questionSet) && shown == old(shown) &&
                categoryName == old(categoryName) && difPoints == old(difPoints)
      ensures o.Showing? || o == NoQuestions ==>
                pk in categories && started && categoryName == categories[pk].name && difPoints == points(level) &&
                rightAns == 0 && wrongAns == 0 &&
                quantity == SampleLimit(|AvailablePool(questions, pk, level)|)
      ensures o == NoQuestions ==> quantity == 0 && questionSet == None && shown == []
      ensures o.Showing? ==>
                questionSet.Some? && |questionSet.value| == quantity - 1 && o.id !in questionSet.value &&
                shown == [o.id] && o.id in AvailablePool(questions, pk, level)
      ensures o.Showing? ==>
                var pool := AvailablePool(questions, pk, level);
                Draw(pool, SampleLimit(|pool|), draws, []) == Sampled(questionSet.value + [o.id]) &&
                forall id :: id in questionSet.value ==> id in pool
      ensures o == NoQuestions ==>
                var pool := AvailablePool(questions, pk, level);
                Draw(pool, SampleLimit(|pool|), draws, []) == Sampled([])
      ensures o == Pending ==>
                var pool := AvailablePool(questions, pk, level);
                !Draw(pool, SampleLimit(|pool|), draws, []).Sampled?
    {
      dif := Some(level);
      timeLimit := Some(limitFlag);
      if pk !in categories {
        return CategoryNotFound;
      }
      var sample := GetQuestionSet(questions, pk, level, draws);
      if !sample.Sampled? {
        return Pending;
      }
      var first := Begin(categories[pk].name, points(level), sample.items);
      if first.Some? {
        assert first.value in sample.items;
        assert questionSet.value + [first.value] == sample.items;
        o := Showing(first.value);
      } else {
        o := NoQuestions;
      }
    }

    /**
     * The second half of `QuestionView.post`: a fresh test context for the
     * sampled ids, whose last id is shown first and taken off the list.
     */
    method Begin(name: string, points: nat, ids: seq<nat>) returns (first: Option<nat>)
      requires Distinct(ids)
      modifies this
      ensures Valid()
      ensures dif == old(dif) && timeLimit == old(timeLimit) && score == old(score)
      ensures started && categoryName == name && difPoints == points && quantity == |ids|
      ensures rightAns == 0 && wrongAns == 0
      ensures ids == [] ==> first == None && questionSet == None && shown == []
      ensures ids != [] ==>
                first == Some(ids[|ids| - 1]) && questionSet == Some(ids[..|ids| - 1]) && shown == [ids[|ids| - 1]]
    {
      started := true;
      categoryName := name;
      difPoints := points;
      quantity := |ids|;
      rightAns := 0;
      wrongAns := 0;
      questionSet := None;
      shown := [];
      first := None;
      if |ids| > 0 {
        var n := |ids| - 1;
        first := Some(ids[n]);
        questionSet := Some(ids[..n]);
        shown := [ids[n]];
        assert ids[..n] + [ids[n]] == ids;
      }
    }

    /**
     * `QuestionView.get`: show the next question by popping it off the end, or
     * 'Stop' when none is left. A popped id whose question has since been
     * deleted makes the lookup raise; the request fails and the session is not
     * saved, so the list keeps that id.
     */
    method Next(pk: nat, categories: map<nat, Category>, questions: seq<Question>) returns (o: NextOutcome)
      requires Valid()
      modifies this
      ensures Valid()
      ensures o == NextCategoryNotFound <==> pk !in categories
      ensures o == NextKeyError <==> pk in categories && (!old(started) || old(questionSet).None?)
      ensures !o.Item? ==> unchanged(this)
      ensures o == Stop <==> pk in categories && old(started) && old(questionSet) == Some([])
      ensures o == NextQuestionNotFound <==>
                pk in categories && old(started) && old(questionSet).Some? &&
                var ids := old(questionSet).value;
                |ids| > 0 && !HasQuestion(questions, ids[|ids| - 1])
      ensures o.Item? ==> HasQuestion(questions, o.id)
      ensures o.Item? ==>
                var ids := old(questionSet).value;
                |ids| > 0 && o.id == ids[|ids| - 1] && questionSet == Some(ids[..|ids| - 1]) &&
                o.id !in old(shown) && shown == [o.id] + old(shown)
      ensures o.Item? ==>
                dif == old(dif) && timeLimit == old(timeLimit) && started && categoryName == old(categoryName) &&
                difPoints == old(difPoints) && quantity == old(quantity) &&
                rightAns == old(rightAns) && wrongAns == old(wrongAns) && score == old(score)
    {
      if pk !in categories {
        return NextCategoryNotFound;
      }
      if !started || questionSet.None? {
        return NextKeyError;
      }
      var ids := questionSet.value;
      if |ids| > 0 {
        var n := |ids| - 1;
        if !HasQuestion(questions, ids[n]) {
          return NextQuestionNotFound;
        }
        o := Item(ids[n]);
        questionSet := Some(ids[..n]);
        shown := [ids[n]] + shown;
        assert ids[..n] + shown == ids + old(shown) by {
          assert ids == ids[..n] + [ids[n]];
        }
        assert ids[n] !in old(shown) by {
          var all := ids + old(shown);
          forall k | 0 <= k < |old(shown)| ensures old(shown)[k] != ids[n] {
            assert all[n] == ids[n] && all[|ids| + k] == old(shown)[k];
          }
        }
      } else {
        o := Stop;
      }
    }

    /**
     * `AnswerQuestion.get`: judge the chosen answer against the question's
     * right answer, count it in the session, and move the score by the
     * level's points (never below zero).
     */
    method Answer(item: Option<Question>, chosen: string, points: Level -> nat) returns (o: AnswerOutcome)
      requires Valid()
      modifies this
      ensures Valid()
      ensures o == AnswerKeyError <==> old(dif).None? || (item.Some? && !old(started))
      ensures o == QuestionNotFound <==> old(dif).Some? && item.None?
      ensures !o.Judged? ==> unchanged(this)
      ensures o.Judged? ==>
                o.guessed == (chosen == item.value.rightAnswer) &&
                score == Scored(old(score), points(old(dif).value), o.guessed) &&
                (o.guessed ==> rightAns == old(rightAns) + 1 && wrongAns == old(wrongAns)) &&
                (!o.guessed ==> wrongAns == old(wrongAns) + 1 && rightAns == old(rightAns))
      ensures o.Judged? ==>
                dif == old(dif) && timeLimit == old(timeLimit) && started == old(started) &&
                categoryName == old(categoryName) && difPoints == old(difPoints) && quantity == old(quantity) &&
                questionSet == old(questionSet) && shown == old(shown)
    {
      if dif.None? {
        return AnswerKeyError;
      }
      if item.None? {
        return QuestionNotFound;
      }
      var p := points(dif.value);
      if !started {
        return AnswerKeyError;
      }
      if chosen == item.value.rightAnswer {
        rightAns := rightAns + 1;
        score := score + p;
        o := Judged(true);
      } else {
        wrongAns := wrongAns + 1;
        if score >= p {
          score := score - p;
        } else {
          score := 0;
        }
        o := Judged(false);
      }
    }
  }
}
