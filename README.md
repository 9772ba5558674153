# interview_quiz in Dafny

A model of the core of *interview_quiz*, a Django site. On the site, registered users take timed quizzes of up to twenty questions from a chosen category and difficulty level, and earn or lose points for each answer. The site also publishes posts, runs an admin panel, serves a REST API, and handles two side jobs: a salary parser for scraped vacancies and a statistics consumer.

The model covers:

- **The quiz** (`QuizSession`, after questions/views.py):
  - Sampling draws distinct question ids from the available questions of a category and level.
  - Progress pops one id per request, and the empty list gives `'Stop'`.
  - Scoring adds the level's points for a right answer and subtracts them for a wrong one, never going below zero.
  - The player's session is a class. Its counters and remaining ids change in place.
- **Form and serializer rules**:
  - `UserForms` models users/forms.py: the name length and all-digit checks, what registration stores, and the bounds of the message form.
  - `AdminForms` models myadmin/forms.py: the right-answer-is-one-of-four rule.
  - `Serializers` models api_rest/serializers.py: the same rule in the API, plus the output shapes.
  - `Forms` is the small part of a Django form those rules write to: its errors and its cleaned data.
- **Models** (`UserModel`, `QuestionModel`, `PostModel`): rows, defaults, printable forms, upload paths and the 48-hour activation-key expiry.
- **The salary parser** (`Pipelines`, after scraper/scraper/pipelines.py): it takes the token lists scraped from hh.ru and superjob.ru and produces a `(min, max, currency)` triple, or the IndexError or ValueError Python would raise.
- **The statistics consumer** (`StatsConsumer`, after kafka_files/consumer.py): the counter update one message makes to a user's log.
- **The admin panel** (`AdminViews`, after myadmin/views.py):
  - toggle-or-delete on questions, posts, accounts and categories, with the category cascade;
  - staff rights, and the admin's protection of their own account;
  - the list filter that the session remembers;
  - the search boxes.
- **Account views** (`UserViews`, after users/views.py): the top-five leaderboard, the rating position, activation by the emailed link, and switching off the info pop-up.
- **Public post listings** (`PostViews`, after posts/views.py).
- **The REST API** (`Api`, after api_rest/api.py): permissions by action, destroy as a toggle, author stamping, and the extra orderings.

The database is the `Database.Store` class, whose four maps by primary key (accounts, categories, questions, posts) change in place. `Store.Valid()` is the integrity the database keeps:

- every row is filed under its own id;
- usernames and emails are unique;
- no question or post points at a missing category or author.

Every state-changing view keeps `Valid()`. Listings take a table as a sequence of rows in database order. Helper modules:

- `Wrappers`: `Option`.
- `Text`: the Python string operations used (`replace`, `split`, `isdigit`, `int()`, `contains`/`icontains`), on ASCII.
- `Collections`: queryset `filter`, `count`, `order_by` and slicing.

The model abstracts the environment as follows:

- Randomness is an oracle: `draws` lists the values `randint` returns.
- The clock is an integer number of seconds.
- The points table `POINTS_LEVEL` lives in a module that is not part of this model, so points are a parameter.
- Every Python exception the views can raise is an explicit outcome, for example `NotFound`, `KeyError` and `ValueError` variants.

Two places where the code and its documentation disagree, resolved in favour of the code:

- `post_image_path` replaces spaces in the title with underscores, although its docstring example keeps them.
- `SearchPostView` does not filter on `available`; see Findings.

## Model

| member | source | states |
|---|---|---|
| QuizSession.CreateRandomQueryset | questions/views.py:228-262 | The loop's result over the oracle's draws. A finished sample holds exactly `limit` pairwise-distinct ids, all from the pool. A run cut short by the oracle holds fewer, also distinct and from the pool. |
| QuizSession.DrawSound | questions/views.py:253-262 | Whatever the draws, a finished loop returns exactly `limit` distinct pool items that extend what was already collected. |
| QuizSession.DrawCompletes | questions/views.py:254-258 | The loop exits with exactly `limit` items as soon as the draws have hit `limit` distinct pool items. |
| QuizSession.StepKeepsDistinct | questions/views.py:256-258 | One iteration (append only if absent) keeps the list duplicate-free and adds exactly the drawn item to its elements. |
| QuizSession.SampledNeedsEnoughItems | questions/views.py:253-262 | A finished loop implies the pool holds at least `limit` distinct ids. |
| QuizSession.DrawNeverFailsOnItems | questions/views.py:255-261 | The ValueError path (`randint(0, -1)`) is taken only on an empty pool that still owes items. |
| QuizSession.AvailablePool | questions/views.py:214-218 | An id is in the pool iff some available question of that category and level has it; the pool is no larger than the table. |
| QuizSession.AvailablePoolAppend | questions/views.py:214-218 | The pool of a table with added rows is the old pool followed by the new rows' pool. |
| QuizSession.NewQuestionNotSampled | questions/views.py:214-218 | An unpublished question added to the table changes no pool. |
| QuizSession.UniqueIdsPoolDistinct | questions/views.py:214-218 | With unique question ids the pool has no repeated id. |
| QuizSession.SampleLimit | questions/views.py:219-226 | The test size is min(pool size, 20). |
| QuizSession.GetQuestionSet | questions/views.py:193-226 | Sampling runs with limit min(pool size, 20) and never takes the ValueError path. A finished sample has that many distinct ids, all from the pool. |
| QuizSession.SmallPoolTakesAll | questions/views.py:219-223 | With fewer than 20 candidates, a finished sample contains every one of them. |
| QuizSession.FullCoverageSamples | questions/views.py:219-262 | When the draws reach every pool position, the loop finishes with its full complement of min(pool, 20) ids. |
| QuizSession.Scored | questions/views.py:304-313 | Right: the score grows by exactly the points. Wrong: with at least the points it drops by exactly the points, with fewer it becomes 0; it never goes negative. |
| QuizSession.WrongUndoesRight | questions/views.py:304-313 | A wrong answer right after a right one at the same level restores the score. |
| QuizSession.ScoreAfterBounds | questions/views.py:304-313 | Over a run of answers the score is at most start + points·rights, and at least start + points·rights − points·wrongs. |
| QuizSession.Session.constructor | questions/views.py:134-136 | A session with no test context yet and the player's current score. |
| QuizSession.Session.Start | questions/views.py:121-163 | Covers `QuestionView.post`. It always stores the level and time-limit flag. A missing category gives 404 and changes nothing else. Otherwise, after sampling: quantity = min(pool, 20), both counters 0; the shown id is from the pool; `question_set` holds quantity−1 ids and not the shown one. `question_set` followed by the shown id is exactly the sample, so every stored id is from the pool and the shown one was popped off the end. An empty sample shows nothing; a sampling run cut short changes no test state. |
| QuizSession.Session.Begin | questions/views.py:144-160 | A fresh context for the sampled ids. The last id is shown and popped, the rest becomes `question_set`, and an empty sample stores no `question_set`. |
| QuizSession.Session.Next | questions/views.py:165-191 | Covers `QuestionView.get`. It pops exactly the last id, which was not shown before and whose question exists. An empty list yields `Stop` and changes nothing. A missing context yields KeyError and a missing category 404, both with nothing changed. A last id whose question was deleted yields DoesNotExist, and the session keeps that id (a failed request saves no session). The counters stay put. |
| QuizSession.Session.Answer | questions/views.py:277-315 | Covers `AnswerQuestion.get`. Right: right_ans+1, wrong_ans unchanged, score + points. Wrong: wrong_ans+1, right_ans unchanged, score floored at 0. A missing session key or question changes nothing. |
| UserForms.InvalidCodeIsNotOnlyDigits | users/forms.py:37-38 | The length error's code `invalid_<field>` is never the digit error's code. |
| UserForms.NumErrors | users/forms.py:60-63 | `only_digits` is reported, once at most, exactly when the value is all digits. |
| UserForms.LenErrors | users/forms.py:35-41 | `invalid_<field>` carrying the length is reported iff the length is at most 3. `only_digits` is reported iff the value is all digits. Every error is on that field. |
| UserForms.LenErrorsEmpty | users/forms.py:35-41 | A name passes iff it is longer than 3 characters and not all digits. |
| UserForms.ShortDigitsGetBothErrors | users/forms.py:36-41 | A short all-digit value gets both errors, the length error first. |
| UserForms.NumValidation | users/forms.py:45-64 | Returns the value unchanged. Adds exactly `NumErrors`, dropping the field from the cleaned data when it adds one. |
| UserForms.LenValidation | users/forms.py:35-42 | Returns the value unchanged. Adds exactly `LenErrors`, dropping the field from the cleaned data when it adds one. |
| UserForms.RegisterErrorsByField | users/forms.py:123-136 | Registration reports on each of username, first_name and last_name exactly that field's own length and digit errors. |
| UserForms.ChangeProfileLeavesUsername | users/forms.py:201-209 | The profile-edit form never reports on the username. |
| UserForms.CleanRegister | users/forms.py:123-136 | The three `clean_*` methods return their values unchanged and add exactly the registration errors. |
| UserForms.CleanChangeProfile | users/forms.py:201-209 | The two `clean_*` methods return their values unchanged and add exactly the profile-edit errors. |
| UserForms.RegisterSave | users/forms.py:138-146 | After `save` the account is inactive with a non-empty key (the digest); nothing else changes. |
| UserForms.RegisteredUserAwaitsActivation | users/forms.py:138-146 | A freshly registered account is inactive, and its key is unexpired for the next 48 hours. |
| UserForms.WriteAdminErrors | users/forms.py:230-234 | Errors are only ever about title, content or grade; a grade that is not an integer always gets the `invalid` error. |
| UserForms.WriteAdminAccepts | users/forms.py:232-234 | The message form is accepted iff the title is 1..255 characters, the content is non-empty, and the grade is given, an integer, and in 1..10. |
| AdminForms.AnswerMissingIsNonMembership | myadmin/forms.py:116-121 | The four inequalities hold iff the right answer is not among the four options. |
| AdminForms.SlotOrderIrrelevant | myadmin/forms.py:121 | Permuting the four options never changes the verdict. |
| AdminForms.CleanErrors | myadmin/forms.py:116-125 | At most one error. It is present iff the right answer matches no option, and it is `invalid_answer` on `right_answer`, carrying the value given. |
| AdminForms.Clean | myadmin/forms.py:111-126 | `clean` adds exactly `CleanErrors`. It returns the cleaned data, which is unchanged on success and loses only `right_answer` on error. |
| Serializers.FirstMissing | api_rest/serializers.py:42-43 | Finds the first key `validate` reads that is absent, if any. |
| Serializers.Validate | api_rest/serializers.py:37-46 | Accepted data is returned unchanged. A KeyError occurs iff some read field is absent, and it names one. |
| Serializers.ValidateAgreesWithForm | api_rest/serializers.py:42-45 | With all five fields present, the API accepts exactly what the admin form accepts. |
| Serializers.CategoryRepr | api_rest/serializers.py:13-26 | The output keeps id, name, description and available, and adds the category's post and question counts. |
| Serializers.AddedQuestionCounted | api_rest/serializers.py:24-25 | A new question raises only its own category's question count, by one, and leaves post counts alone. |
| Serializers.QuestionRepr | api_rest/serializers.py:29-35 | The output's `is_active` is the model's `available`. |
| Serializers.QuestionFromRepr | api_rest/serializers.py:31-35 | Reading back sets `available` from `is_active` and takes the author from outside the data. |
| Serializers.QuestionReprRoundTrip | api_rest/serializers.py:31-35 | Output and read-back are inverse given the author, and the output never depends on the author. |
| UserModel.NewUser | users/models.py:31-38 | Defaults: score 0, inactive, not staff, info on, no key, creation time stamped. |
| UserModel.UsersImagePath | users/models.py:13-26 | The path starts with `user_images/`, the username and `_`, and the file name is the whole rest. |
| UserModel.UsersImagePathInjective | users/models.py:26 | Different usernames never share an avatar path for one file name. |
| UserModel.UserStr | users/models.py:40-44 | The printable form starts with the first name and a space, and the rest is the username in double quotes. |
| UserModel.UserStrDistinguishesUsernames | users/models.py:44 | Same first name, different usernames: different printable forms. |
| UserModel.IsActivationKeyExpired | users/models.py:82-88 | Not expired iff now ≤ created + 48 h (exactly 48 h is still valid). A missing creation time raises. |
| UserModel.ExpiryIsPermanent | users/models.py:86-88 | Once expired, a key stays expired as time goes on. |
| UserModel.FreshKeyLifetime | users/models.py:86-88 | A key created at t0 is expired at t exactly when t > t0 + 172800 s. |
| QuestionModel.LevelFromCode | questions/models.py:144-154 | Only NB, AV and SP are level codes. |
| QuestionModel.LevelCodeRoundTrip | questions/models.py:144-154 | Codes and levels correspond one to one. |
| QuestionModel.NewCategory | questions/models.py:71-78 | A new category is published. |
| QuestionModel.NewQuestion | questions/models.py:156-177 | A new question is unpublished, level NB, tag `IT`, answers `default`. |
| QuestionModel.CategoryImagePath | questions/models.py:27-44 | The path is `cat_images/`, the name, `_` and the file name. |
| QuestionModel.QuestionImagePath | questions/models.py:47-65 | The path starts with `que_images/`, the category's printable form (its name) and `/`. Then comes the question text character by character with each space turned into `_`, then `_`, and the file name ends the path. |
| QuestionModel.QuestionImagePathText | questions/models.py:63 | The text part has no space: each space of the question became `_` and every other character is kept. |
| PostModel.NewPost | posts/models.py:36-43 | A new post is unpublished with tag `IT`. |
| PostModel.PostImagePath | posts/models.py:17-31 | The path starts with `post_images/`, has the title's length (the post's printable form) before a `_`, and ends with the file name. |
| PostModel.PostImagePathTitle | posts/models.py:30 | The title part keeps the title's length, has no space, and changes spaces only. |
| Text.ReplaceChar | questions/models.py:63 | `str.replace` of one character: same length, only that character replaced. |
| Text.RemoveChar | scraper/scraper/pipelines.py:32 | `replace('\xa0', '')`: no separator left, and every other character kept as often as it occurs (the multiset minus the separator). |
| Text.RemoveCharAppend | scraper/scraper/pipelines.py:32 | Removal distributes over concatenation, so the remaining characters keep their order. |
| Text.Split | scraper/scraper/pipelines.py:58 | `split('\xa0')`: at least one piece, none containing the separator. |
| Text.JoinSplit | scraper/scraper/pipelines.py:58 | Joining the pieces of a split gives the string back. |
| Text.SplitJoin | scraper/scraper/pipelines.py:58 | Splitting a join of separator-free pieces gives the pieces back. |
| Text.ParseInt | scraper/scraper/pipelines.py:32 | `int()` succeeds iff the string is an optional sign followed by digits. |
| Text.ParseDecimal | scraper/scraper/pipelines.py:32 | `int(str(n)) == n`. |
| Text.IContainsIgnoresQueryCase | myadmin/views.py:444-445 | `icontains` does not depend on the case of either side. |
| Pipelines.IntOfGrouped | scraper/scraper/pipelines.py:32 | `int(token.replace('\xa0',''))` succeeds iff the cleaned token parses, and gives its value. |
| Pipelines.IntOf | scraper/scraper/pipelines.py:59 | `int(s)` succeeds iff `s` parses, and gives its value. |
| Pipelines.SpelledParses | scraper/scraper/pipelines.py:32 | A token spelling n with no-break spaces parses to n. |
| Pipelines.HhProcessSalary | scraper/scraper/pipelines.py:27-44 | (None, None, None) exactly for at most one token; two tokens raise IndexError. On success the currency is token 5 for a range (`' до '` third) and token 3 otherwise, the minimum is present unless only a maximum (`'до '` first) is given, and the maximum is present for a range or after `'до '`. A ValueError comes from token 1 or, in a range, token 3. |
| Pipelines.SjProcessSalary | scraper/scraper/pipelines.py:48-75 | (None, None, None) exactly for at most one token. With more than three tokens a success needs seven and gives both bounds with token 6 as currency, and a ValueError comes from token 0 or 4. Up to three tokens, `'от'` gives only a minimum and `'до'` only a maximum. |
| Pipelines.NoInformationNoSalary | scraper/scraper/pipelines.py:29-43 | A list of at most one token gives (None, None, None) on both sites. |
| Pipelines.HhRange | scraper/scraper/pipelines.py:31-34 | For any hh list of six or more tokens with `' до '` third and numbers in tokens 1 and 3: min from token 1, max from token 3, currency token 5. |
| Pipelines.HhOneBound | scraper/scraper/pipelines.py:36-40 | For any hh list of four or more tokens whose third is not `' до '` and whose token 1 is a number: `'до '` first gives only a max from token 1; otherwise only a min. Currency is token 3 either way. |
| Pipelines.SjRange | scraper/scraper/pipelines.py:52-55 | For any sj list of seven or more tokens with numbers in tokens 0 and 4: min token 0, max token 4, currency token 6. |
| Pipelines.SjOneBound | scraper/scraper/pipelines.py:57-67 | For sj `'от'`/`'до'`: the two no-break-space groups of token 2 rejoined give min (resp. max), and its third part is the currency. |
| Pipelines.SjFixedIsBothBounds | scraper/scraper/pipelines.py:69-71 | A fixed sj salary has min == max. |
| Pipelines.VacancyItem.constructor | scraper/scraper/pipelines.py:12 | A scraped item holds its salary tokens and no parsed fields yet. |
| Pipelines.ProcessItem | scraper/scraper/pipelines.py:12-23 | Uses the hh parser iff the spider is `hhru`. On success it stores exactly the parsed triple; on an exception the item is untouched. |
| StatsConsumer.NewUserLog | user_log/models.py:12-14 | A new log has all counters 0 and is consistent. |
| StatsConsumer.Counted | kafka_files/consumer.py:52-56 | question_count+1, and exactly one of right_answers or wrong_answers +1, chosen by `guessed`. |
| StatsConsumer.CountedKeepsConsistent | kafka_files/consumer.py:52-56 | The update keeps question_count == right + wrong, and breaks it only if it was broken. |
| StatsConsumer.CountedAllTotals | kafka_files/consumer.py:52-56 | Over many messages the counters grow by the number of messages and of guesses. |
| StatsConsumer.UserLogTable.constructor | kafka_files/consumer.py:51 | The log table as given. |
| StatsConsumer.UserLogTable.GetMessage | kafka_files/consumer.py:35-66 | Returns True iff the id is truthy and names a log, which then is the only row changed (by `Counted`). Otherwise nothing changes. Consistency of all logs is preserved. |
| AdminViews.DeleteFlag | myadmin/views.py:63-65 | The POSTed flag if any, else `'false'`. |
| AdminViews.ToggleQuestion | myadmin/views.py:66-68 | Negates `available` and nothing else. |
| AdminViews.TogglePost | myadmin/views.py:66-68 | Negates `available` and nothing else. |
| AdminViews.ToggleTwice | myadmin/views.py:66-68 | Toggling twice restores the row. |
| AdminViews.KeepQuestions | questions/models.py:157-163 | The cascade survivors: exactly the rows the condition keeps, unchanged. |
| AdminViews.KeepPosts | posts/models.py:37-38 | The cascade survivors: exactly the rows the condition keeps, unchanged. |
| AdminViews.SetQuestionsAvailable | myadmin/views.py:228 | Covers `question_set.update`. Same keys; the category's questions get the new availability; others are untouched; no other column changes. |
| AdminViews.SetPostsAvailable | myadmin/views.py:229 | Covers `post_set.update`, likewise for posts. |
| AdminViews.QuestionToggleKeepsTables | myadmin/views.py:66-70 | Toggling or deleting a question keeps integrity. |
| AdminViews.PostToggleKeepsTables | myadmin/views.py:66-70 | Toggling or deleting a post keeps integrity. |
| AdminViews.UserDeleteKeepsTables | myadmin/views.py:131-132 | Deleting an account with its questions and posts leaves no dangling author. |
| AdminViews.CategoryToggleKeepsTables | myadmin/views.py:226-235 | The category cascade keeps integrity. |
| AdminViews.CategoryDeleteKeepsTables | myadmin/views.py:236-237 | Deleting a category with its questions and posts leaves no dangling category. |
| AdminViews.QuestionDelete | myadmin/views.py:51-70 | 404 iff missing. Flag `'false'` (also the default) toggles `available`; any other flag deletes. No other table changes. |
| AdminViews.PostDelete | myadmin/views.py:51-70 | The same for posts. |
| AdminViews.UserDelete | myadmin/views.py:112-132 | The acting admin's own account is never changed. Otherwise the flag toggles `is_active`, or deletes the account with every question and post it authored. |
| AdminViews.UserIsStaff | myadmin/views.py:155-161 | 404 iff missing. Flips `is_staff` of any account but the actor's own; nothing else changes. |
| AdminViews.CategoryDelete | myadmin/views.py:210-237 | A toggle flips the category and gives all its questions and posts its new availability (off on deactivation, on on reactivation). A delete removes the category with its questions and posts. |
| AdminViews.CategoryToggleTwice | myadmin/views.py:226-235 | Two toggles leave the category's rows with its original availability and other rows untouched; if they agreed before, the tables are restored. |
| AdminViews.StoredFilter | myadmin/views.py:275-282 | `'all'` stores None. Another truthy parameter is stored. No parameter keeps the session value. |
| AdminViews.ActiveFilter | myadmin/views.py:275-283 | A chosen category applies and `'all'` applies none. Otherwise the stored filter applies. |
| AdminViews.FilterIsSticky | myadmin/views.py:275-287 | A chosen category keeps applying to later requests that name none, until `'all'`. |
| AdminViews.AdminSession.constructor | myadmin/views.py:281 | A session without `filter` or `current_category`. |
| AdminViews.QuestionQueryset | myadmin/views.py:275-287 | A listing stores the filter as `StoredFilter`. With no filter, the listing is every question; otherwise it is exactly the questions of that category. A non-integer filter fails and the session keeps its old filter, since the failed request saves no session. |
| AdminViews.PostQueryset | myadmin/views.py:366-378 | The same filter behaviour over posts, including the kept filter on a failing query. |
| AdminViews.ListContext | myadmin/views.py:30-45 | `'all'` forgets the current category. A chosen id shows and remembers its name, or fails (ValueError, DoesNotExist). With no choice, the remembered name is shown. |
| AdminViews.QuestionList | myadmin/views.py:255-287 | A whole list request of this `BaseListView` subclass, `get_queryset` then `get_context_data`. It is a server error exactly when the query or the category lookup fails, and then neither session key changes. Otherwise the filter is stored, the rows are every question or exactly those of the filtered category, and the current category is forgotten, chosen or kept as `ListContext` says. |
| AdminViews.PostList | myadmin/views.py:346-378 | The same whole request over posts. |
| AdminViews.SearchUsers | myadmin/views.py:440-448 | An empty query gives everyone. Otherwise a user is in the result iff `icontains` on username or last name, or `contains` on first name, which the configured SQLite backend matches ignoring ASCII case. |
| AdminViews.SearchCategories | myadmin/views.py:459-465 | An empty query gives all. Otherwise a category is in the result iff its name `icontains` the query. |
| AdminViews.SearchQuestions | myadmin/views.py:476-482 | An empty query gives all. Otherwise a question is in the result iff its text or tag `icontains` the query. |
| AdminViews.SearchPosts | myadmin/views.py:493-500 | An empty query gives all. Otherwise a post is in the result iff its title or tag `icontains` the query. |
| AdminViews.UserSearchIgnoresQueryCase | myadmin/views.py:444-446 | A query and its lower-cased form match the same users, first names included, since SQLite's `LIKE` ignores ASCII case. |
| AdminViews.SearchFindsByOwnName | myadmin/views.py:463-498 | Every category, question and post is found by its own name, text or title. |
| UserViews.HigherScoreFirstIsTotalPreorder | users/views.py:477 | `-score` is a valid ordering. |
| UserViews.TopUsers | users/views.py:476-477 | At most 5 rows, all active with score > 0, in non-increasing score, and no account listed more often than it is in the table. The size is min(eligible, 5), and no eligible user left out outscores one shown. |
| UserViews.TopOfSorted | users/views.py:477 | The first five of a sorted eligible list are eligible and sorted, and outrank everything after them. |
| UserViews.Rank | users/views.py:284-287 | The rating index is between 1 and the number of users. |
| UserViews.RankRespectsScore | users/views.py:285-286 | A higher score never gives a worse index. |
| UserViews.FirstPlaceIsStrictlyBest | users/views.py:285-286 | Index 1 means every other user scores less. |
| UserViews.VerifyDecision | users/views.py:195-225 | Expired iff the key has expired, checked before the key. Activated iff unexpired and the key matches. A missing creation time fails. |
| UserViews.Activate | users/views.py:211-212 | Afterwards the key is `''`, the creation time is None and the account is active; nothing else changes. |
| UserViews.ExpiryCheckedFirst | users/views.py:195-208 | An expired key is refused even when it is the right one. |
| UserViews.SecondVerifyFails | users/views.py:210 | An activation link works only once. |
| UserViews.RegistrationThenVerify | users/views.py:192-219 | A registration's link, followed within 48 h, activates the account. |
| UserViews.Verify | users/views.py:192-237 | An unknown email fails. Otherwise the outcome is `VerifyDecision` for that account, and only an activation changes the user table. |
| UserViews.NoInfo | users/views.py:652-658 | `info` becomes False iff the request is AJAX with flag `'true'` and the account exists. An AJAX request without a flag is a KeyError. Nothing else changes. |
| PostViews.PublishedCategories | posts/views.py:17-18 | Exactly the available categories. |
| PostViews.UserPosts | posts/views.py:37-41 | None iff the account is missing. Otherwise exactly the available posts by that user. |
| PostViews.TagPosts | posts/views.py:52-56 | Exactly the available posts with that tag. |
| PostViews.CategoryPosts | posts/views.py:66-71 | None iff the category is missing. Otherwise exactly its available posts. |
| PostViews.ToggleMovesPostInListing | posts/views.py:69-70 | A post is listed iff it is available, so toggling it removes it from or restores it to its category's listing. |
| PostViews.SearchPostsAsWritten | posts/views.py:82-86 | As written: without a query it fails. Otherwise exactly the posts whose title or tag `icontains` the query, published or not. |
| PostViews.SearchShowsUnpublishedPost | posts/views.py:84 | The unpublished fixture post "Kill Bill" is found by the query `i`. |
| PostViews.SearchPosts | posts/views.py:82-86 | Corrected: exactly the published posts whose title or tag `icontains` the query. |
| PostViews.SearchPostsIsPublishedPart | posts/views.py:84 | The corrected search is the published part of what the code returns. |
| Api.GetPermissions | api_rest/api.py:32-47 | The action's classes from the view set's map, else `[AllowAny]`. Accounts always need `[IsAdminUser]`. |
| Api.PermissionRules | api_rest/api.py:33-38 | `create` needs a logged-in user. update, partial_update and destroy need staff, as do category writes. Every other action is open, and every account action needs staff. |
| Api.AnonymousCannotWrite | api_rest/api.py:33-38 | An anonymous request may not create, update or destroy through any view set. |
| Api.Destroy | api_rest/api.py:49-56 | 403 iff permission is refused. Then 405 for categories. Then 404 iff the row is missing. Otherwise 204: the row's `available` is negated (an account's `is_active`), and no other row or table changes. |
| Api.StampedAuthor | api_rest/api.py:58-66 | A new question or post gets the requesting user as author; a category gets none. |
| Api.TagOrdersArePreorders | api_rest/api.py:71 | Ordering by tag is a valid ordering. |
| Api.QuestionsByTag | api_rest/api.py:68-78 | The same questions, in ascending tag order. |
| Api.PostsByTag | api_rest/api.py:68-78 | The same posts, in ascending tag order. |
| Api.RankingByScore | api_rest/api.py:155-166 | The same accounts, in non-increasing score order. |
| Api.CategoriesByQuestionCount | api_rest/api.py:90-101 | The same categories, sorted by non-increasing question count. |
| Api.RankingStartsWithBest | api_rest/api.py:158 | The first account of the ranking scores at least as much as anyone. |

## Left out

- The Django ORM and web layer (querysets as lazy SQL, `select_related`/`defer`, templates, `JsonResponse`, redirects, login decorators, pagination). Tables are in-memory maps and sequences, and requests arrive already parsed; the positional reading of POST/GET values is not modelled.
- Randomness: the distribution of `randint` is not modelled. A run that needs more draws than the oracle holds is `StillDrawing`, so the model says nothing about termination.
- `POINTS_LEVEL` and `CHOICE_NAME` live in interview_quiz/variabls, which is not part of this model; points are a parameter.
- Images: resizing in the `save()` methods and file removal in `delete()` are not modelled.
- Email sending, the `pre_save` notification signals and SHA-1 key generation are not modelled. `UserForms.RegisterSave` takes the digest as a 40-character parameter.
- The VK social login, the Kafka producer, the consumer's construction, loop and close-on-exception path, the management commands, the Scrapy spiders, GraphQL, front-end JavaScript and configuration are not modelled.
- Unicode: lower-casing and `isdigit` are ASCII only. `int()` accepts only an optional sign and ASCII digits, with no surrounding whitespace and no underscores.
- Time zones: the clock is an integer number of seconds.
- Database backend: `contains` is modelled as the configured SQLite backend runs it (interview_quiz/settings.py:76), as `LIKE`, which ignores ASCII case. On a case-sensitive backend `first_name__contains` would respect case, and `AdminViews.UserSearchIgnoresQueryCase` would not hold for first names.
- Collation: database string order is taken to be code-point order. The order of ties in `order_by` is one possible order, not the database's.
- `Verify.get` also logs the user in and records the login (`auth.login`, `auth_update_user_logging`); neither is modelled.
- UserViewSet `recent_users` orders by `last_login`, which the account model does not include.
- Session saving: a request that raises ends in a server error, and Django then saves none of its session writes. So the failing paths of `QuizSession.Session.Next`, `AdminViews.QuestionQueryset`, `AdminViews.PostQueryset`, `AdminViews.QuestionList` and `AdminViews.PostList` leave the session as it was before the request. The middleware itself is not modelled.
- Admin panel `post()` methods: the AJAX rendering is not modelled, only the state change their `delete()` or update makes.
- AdminViews.UserDelete: the cascade to the user's `UserLog` is not modelled, since logs are not part of the `Store`.
- UserViews.NoInfo: `NoResponse` also covers the non-AJAX path, where the view returns no response (a Django error), and the state is unchanged.
- Pipelines.ProcessItem: the `print` and `item.save()` are not modelled.
- Serializers: the user and post serializers' field lists are not modelled beyond the question serializer's `is_active`/`author` rule.
- UserForms.WriteAdminErrors: Django's stripping of whitespace in `CharField` is not modelled.
- Api.Destroy: authentication is resolved before the call, and an unauthenticated request gets 403. That holds with the REST framework's default session authentication, which has no `WWW-Authenticate` header.

## Findings

| source | as written | input that shows it | evidently intended | confidence | as-written member | corrected member |
|---|---|---|---|---|---|---|
| posts/views.py:82-86 | `SearchPostView.get_queryset` filters only on title/tag `icontains`, so unpublished posts appear in public search results | the unpublished post "Kill Bill" (tag "action movie") and the query `i` | search returns only published posts, as posts/tests/test_views.py:231-238 expects | not executed | PostViews.SearchPostsAsWritten, PostViews.SearchShowsUnpublishedPost | PostViews.SearchPosts |
