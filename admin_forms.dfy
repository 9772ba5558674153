/**
 * The question form of the admin panel, myadmin/forms.py: a question is
 * rejected when its right answer is none of its four answer options.
 */
module AdminForms {
  import opened Wrappers
  import opened Forms

  const AnswerFields: seq<string> := ["answer_01", "answer_02", "answer_03", "answer_04"]

  /**
   * The condition `QuestionForm.clean` tests, on the values `cleaned_data.get`
   * returns (None for a field that did not survive its own checks).
   */
  predicate AnswerMissing(answer: Option<string>, a1: Option<string>, a2: Option<string>,
                          a3: Option<string>, a4: Option<string>) {
    answer != a1 && answer != a2 && answer != a3 && answer != a4
  }

  /** The right answer is missing exactly when it is not among the four options. */
  lemma AnswerMissingIsNonMembership(answer: Option<string>, a1: Option<string>, a2: Option<string>,
                                     a3: Option<string>, a4: Option<string>)
    ensures AnswerMissing(answer, a1, a2, a3, a4) <==> answer !in [a1, a2, a3, a4]
  {
  }

  /** Which slot holds the right answer does not matter: reordering the options changes nothing. */
  lemma SlotOrderIrrelevant(answer: Option<string>, options: seq<Option<string>>, perm: seq<Option<string>>)
    requires |options| == 4 && multiset(perm) == multiset(options)
    ensures |perm| == 4
    ensures AnswerMissing(answer, options[0], options[1], options[2], options[3]) <==>
            AnswerMissing(answer, perm[0], perm[1], perm[2], perm[3])
  {
    assert |perm| == 4 by {
      assert |multiset(perm)| == |perm| && |multiset(options)| == |options|;
    }
    AnswerMissingIsNonMembership(answer, options[0], options[1], options[2], options[3]);
    AnswerMissingIsNonMembership(answer, perm[0], perm[1], perm[2], perm[3]);
    assert options == [options[0], options[1], options[2], options[3]];
    assert perm == [perm[0], perm[1], perm[2], perm[3]];
    assert (answer in options) == (answer in multiset(options));
    assert (answer in perm) == (answer in multiset(perm));
  }

  /** The errors `clean` adds for a given cleaned data. */
  function CleanErrors(cleaned: map<string, string>): (r: seq<FieldError>)
    ensures |r| <= 1
    ensures r != [] <==> AnswerMissing(Lookup(cleaned, "right_answer"), Lookup(cleaned, "answer_01"),
                                       Lookup(cleaned, "answer_02"), Lookup(cleaned, "answer_03"),
                                       Lookup(cleaned, "answer_04"))
    ensures forall e :: e in r ==>
              e == FieldError("right_answer", "invalid_answer", ValueParam(Lookup(cleaned, "right_answer")))
  {
    var answer := Lookup(cleaned, "right_answer");
    if AnswerMissing(answer, Lookup(cleaned, "answer_01"), Lookup(cleaned, "answer_02"),
                     Lookup(cleaned, "answer_03"), Lookup(cleaned, "answer_04"))
    then [FieldError("right_answer", "invalid_answer", ValueParam(answer))]
    else []
  }

  function Lookup(m: map<string, string>, key: string): Option<string> {
    if key in m then Some(m[key]) else None
  }

  /**
   * `QuestionForm.clean`: record the 'invalid_answer' error against
   * `right_answer` (carrying the value given) when it matches no option, and
   * return the cleaned data, which `add_error` has then left without
   * `right_answer`.
   */
  method Clean(form: Form) returns (data: map<string, string>)
    modifies form
    ensures form.errors == old(form.errors) + CleanErrors(old(form.cleaned))
    ensures CleanErrors(old(form.cleaned)) == [] ==> form.cleaned == old(form.cleaned)
    ensures CleanErrors(old(form.cleaned)) != [] ==> form.cleaned == old(form.cleaned) - {"right_answer"}
    ensures data == form.cleaned
  {
    var answer := form.Get("right_answer");
    var a1 := form.Get("answer_01");
    var a2 := form.Get("answer_02");
    var a3 := form.Get("answer_03");
    var a4 := form.Get("answer_04");
    if answer != a1 && answer != a2 && answer != a3 && answer != a4 {
      form.AddError(FieldError("right_answer", "invalid_answer", ValueParam(answer)));
    }
    data := form.cleaned;
  }
}
