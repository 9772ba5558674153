/**
 * The statistics consumer of kafka_files/consumer.py: each message names a
 * user log and whether the answer was guessed; the log's counters are
 * bumped accordingly.
 */
module StatsConsumer {
  import opened Wrappers

  /** One row of `UserLog`: the counters and the username it belongs to. */
  datatype UserLog = UserLog(questionCount: nat, rightAnswers: nat, wrongAnswers: nat, user: string)

  /** A fresh log, with the model's zero defaults. */
  function NewUserLog(user: string): (r: UserLog)
    ensures Consistent(r) && r.questionCount == 0 && r.user == user
  {
    UserLog(0, 0, 0, user)
  }

  /** Every question counted was answered either rightly or wrongly. */
  predicate Consistent(log: UserLog) {
    log.questionCount == log.rightAnswers + log.wrongAnswers
  }

  /** Python truthiness of the decoded `user_id`: present and non-zero. */
  predicate IdGiven(userId: Option<int>) {
    userId.Some? && userId.value != 0
  }

  /** Python truthiness of the decoded `guessed`. */
  predicate Guessed(guessed: Option<bool>) {
    guessed == Some(true)
  }

  /** The log after one more answer. */
  function Counted(log: UserLog, guessed: Option<bool>): (r: UserLog)
    ensures r.questionCount == log.questionCount + 1
    ensures Guessed(guessed) ==> r.rightAnswers == log.rightAnswers + 1 && r.wrongAnswers == log.wrongAnswers
    ensures !Guessed(guessed) ==> r.wrongAnswers == log.wrongAnswers + 1 && r.rightAnswers == log.rightAnswers
    ensures r.user == log.user
  {
    if Guessed(guessed) then log.(questionCount := log.questionCount + 1, rightAnswers := log.rightAnswers + 1)
    else log.(questionCount := log.questionCount + 1, wrongAnswers := log.wrongAnswers + 1)
  }

  /** Counting an answer keeps the counters in step. */
  lemma CountedKeepsConsistent(log: UserLog, guessed: Option<bool>)
    ensures Consistent(Counted(log, guessed)) <==> Consistent(log)
  {
  }

  /** Counting a sequence of answers: the totals grow by the number of answers and of guesses. */
  function CountedAll(log: UserLog, answers: seq<Option<bool>>): UserLog
    decreases |answers|
  {
    if answers == [] then log else CountedAll(Counted(log, answers[0]), answers[1..])
  }

  function RightCount(answers: seq<Option<bool>>): nat
    decreases |answers|
  {
    if answers == [] then 0 else (if Guessed(answers[0]) then 1 else 0) + RightCount(answers[1..])
  }

  lemma {:induction false} CountedAllTotals(log: UserLog, answers: seq<Option<bool>>)
    ensures CountedAll(log, answers).questionCount == log.questionCount + |answers|
    ensures CountedAll(log, answers).rightAnswers == log.rightAnswers + RightCount(answers)
    ensures CountedAll(log, answers).wrongAnswers == log.wrongAnswers + (|answers| - RightCount(answers))
    ensures RightCount(answers) <= |answers|
    decreases |answers|
  {
    if answers != [] {
      CountedAllTotals(Counted(log, answers[0]), answers[1..]);
    }
  }

  /** The `UserLog` table, by id. */
  class UserLogTable {
    var logs: map<int, UserLog>

    constructor (logs: map<int, UserLog>)
      ensures this.logs == logs
    {
      this.logs := logs;
    }

    ghost predicate AllConsistent()
      reads this
    {
      forall id :: id in logs ==> Consistent(logs[id])
    }

    /**
     * `get_message`: True exactly when the message names an existing log,
     * which is then the only row that changes. A message without an id, or
     * naming no log, is refused and changes nothing.
     */
    method GetMessage(userId: Option<int>, guessed: Option<bool>) returns (ok: bool)
      modifies this
      ensures ok <==> IdGiven(userId) && userId.value in old(logs)
      ensures ok ==> logs == old(logs)[userId.value := Counted(old(logs)[userId.value], guessed)]
      ensures !ok ==> logs == old(logs)
      ensures old(AllConsistent()) ==> AllConsistent()
    {
      if IdGiven(userId) {
        var id := userId.value;
        if id in logs {
          CountedKeepsConsistent(logs[id], guessed);
          logs := logs[id := Counted(logs[id], guessed)];
          return true;
        }
        return false;
      }
      return false;
    }
  }
}
