/**
 * The admin panel's views, myadmin/views.py: soft (toggle) or hard deletion
 * of questions, posts, accounts and categories, granting and revoking staff
 * rights, the category filter of the question and post lists that the
 * session remembers between requests, and the search boxes.
 */
module AdminViews {
  import opened Wrappers
  import opened Text
  import opened Collections
  import opened UserModel
  import opened QuestionModel
  import opened PostModel
  import opened Database

  /** The value of the POST 'flag' that asks for a toggle rather than a deletion; also the default. */
  const SoftDelete: string := "false"

  /** The flag a delete view acts on: the POSTed one if any, else the default. */
  function DeleteFlag(postFlag: Option<string>): (flag: string)
    ensures postFlag.None? ==> flag == SoftDelete
    ensures postFlag.Some? ==> flag == postFlag.value
  {
    match postFlag
    case None => SoftDelete
    case Some(f) => f
  }

  datatype DeleteOutcome =
    | NotFound    // get_object raised Http404
    | Toggled     // the availability (or activity, or staff) flag was flipped
    | Deleted     // the row, and whatever cascades from it, is gone
    | Refused     // the acting admin tried to act on their own account

  /** `available = False if available is True else True`. */
  function ToggleQuestion(q: Question): (r: Question)
    ensures r.available == !q.available
    ensures r.(available := q.available) == q
  {
    q.(available := !q.available)
  }

  function TogglePost(p: Post): (r: Post)
    ensures r.available == !p.available
    ensures r.(available := p.available) == p
  {
    p.(available := !p.available)
  }

  /** Toggling twice gives the original row back. */
  lemma ToggleTwice(q: Question, p: Post)
    ensures ToggleQuestion(ToggleQuestion(q)) == q
    ensures TogglePost(TogglePost(p)) == p
  {
  }

  /** The rows of `m` that `keep` accepts: what survives a cascading delete. */
  function KeepQuestions(m: map<nat, Question>, keep: Question -> bool): (r: map<nat, Question>)
    ensures forall id :: id in r <==> id in m && keep(m[id])
    ensures forall id :: id in r ==> r[id] == m[id]
  {
    map id | id in m && keep(m[id]) :: m[id]
  }

  function KeepPosts(m: map<nat, Post>, keep: Post -> bool): (r: map<nat, Post>)
    ensures forall id :: id in r <==> id in m && keep(m[id])
    ensures forall id :: id in r ==> r[id] == m[id]
  {
    map id | id in m && keep(m[id]) :: m[id]
  }

  /** `question_set.update(available=...)` on one category's questions. */
  function SetQuestionsAvailable(m: map<nat, Question>, category: nat, available: bool): (r: map<nat, Question>)
    ensures r.Keys == m.Keys
    ensures forall id :: id in r ==> r[id].(available := m[id].available) == m[id]
    ensures forall id :: id in r ==> r[id].available == if m[id].subject == category then available else m[id].available
  {
    map id | id in m :: if m[id].subject == category then m[id].(available := available) else m[id]
  }

  /** `post_set.update(available=...)` on one category's posts. */
  function SetPostsAvailable(m: map<nat, Post>, category: nat, available: bool): (r: map<nat, Post>)
    ensures r.Keys == m.Keys
    ensures forall id :: id in r ==> r[id].(available := m[id].available) == m[id]
    ensures forall id :: id in r ==> r[id].available == if m[id].category == category then available else m[id].available
  {
    map id | id in m :: if m[id].category == category then m[id].(available := available) else m[id]
  }

  // ---- Each change keeps the tables' integrity ----

  lemma QuestionToggleKeepsTables(u: map<nat, MyUser>, c: map<nat, Category>, q: map<nat, Question>,
                                  p: map<nat, Post>, pk: nat)
    requires Tables(u, c, q, p) && pk in q
    ensures Tables(u, c, q[pk := ToggleQuestion(q[pk])], p)
    ensures Tables(u, c, q - {pk}, p)
  {
  }

  lemma PostToggleKeepsTables(u: map<nat, MyUser>, c: map<nat, Category>, q: map<nat, Question>,
                              p: map<nat, Post>, pk: nat)
    requires Tables(u, c, q, p) && pk in p
    ensures Tables(u, c, q, p[pk := TogglePost(p[pk])])
    ensures Tables(u, c, q, p - {pk})
  {
  }

  /** Deleting an account together with what it authored leaves no dangling author. */
  lemma UserDeleteKeepsTables(u: map<nat, MyUser>, c: map<nat, Category>, q: map<nat, Question>,
                              p: map<nat, Post>, pk: nat)
    requires Tables(u, c, q, p) && pk in u
    ensures var name := u[pk].username;
            Tables(u - {pk}, c, KeepQuestions(q, (x: Question) => x.author != name),
                   KeepPosts(p, (x: Post) => x.author != name))
  {
    var name := u[pk].username;
    var u' := u - {pk};
    var q' := KeepQuestions(q, (x: Question) => x.author != name);
    var p' := KeepPosts(p, (x: Post) => x.author != name);
    forall other | other in Usernames(u) && other != name ensures other in Usernames(u') {
      var id :| id in u && u[id].username == other;
      assert id in u';
    }
    assert forall id :: id in q' ==> q'[id].author != name && q'[id].author in Usernames(u);
    assert forall id :: id in p' ==> p'[id].author != name && p'[id].author in Usernames(u);
  }

  /** Giving a category's questions and posts its new availability keeps the tables' integrity. */
  lemma CategoryToggleKeepsTables(u: map<nat, MyUser>, c: map<nat, Category>, q: map<nat, Question>,
                                  p: map<nat, Post>, pk: nat, now: bool)
    requires Tables(u, c, q, p) && pk in c
    ensures Tables(u, c[pk := c[pk].(available := now)], SetQuestionsAvailable(q, pk, now), SetPostsAvailable(p, pk, now))
  {
    var q', p' := SetQuestionsAvailable(q, pk, now), SetPostsAvailable(p, pk, now);
    assert forall id :: id in q' ==> q'[id].id == q[id].id && q'[id].subject == q[id].subject && q'[id].author == q[id].author;
    assert forall id :: id in p' ==> p'[id].id == p[id].id && p'[id].category == p[id].category && p'[id].author == p[id].author;
  }

  /** Deleting a category together with its questions and posts leaves no dangling category. */
  lemma CategoryDeleteKeepsTables(u: map<nat, MyUser>, c: map<nat, Category>, q: map<nat, Question>,
                                  p: map<nat, Post>, pk: nat)
    requires Tables(u, c, q, p)
    ensures Tables(u, c - {pk}, KeepQuestions(q, (x: Question) => x.subject != pk), KeepPosts(p, (x: Post) => x.category != pk))
  {
  }

  // ---- The delete views ----

  /** `BaseDeleteView.delete` as `QuestionDeleteView` runs it. */
  method QuestionDelete(store: Store, pk: nat, postFlag: Option<string>) returns (o: DeleteOutcome)
    requires store.Valid()
    modifies store
    ensures store.Valid()
    ensures o.NotFound? <==> pk !in old(store.questions)
    ensures o.Toggled? <==> pk in old(store.questions) && DeleteFlag(postFlag) == SoftDelete
    ensures !o.Refused?
    ensures o.NotFound? ==> store.questions == old(store.questions)
    ensures o.Toggled? ==> store.questions == old(store.questions)[pk := ToggleQuestion(old(store.questions)[pk])]
    ensures o.Deleted? ==> store.questions == old(store.questions) - {pk}
    ensures store.users == old(store.users) && store.categories == old(store.categories) && store.posts == old(store.posts)
  {
    if pk !in store.questions {
      return NotFound;
    }
    QuestionToggleKeepsTables(store.users, store.categories, store.questions, store.posts, pk);
    var item := store.questions[pk];
    if DeleteFlag(postFlag) == SoftDelete {
      store.questions := store.questions[pk := ToggleQuestion(item)];
      o := Toggled;
    } else {
      store.questions := store.questions - {pk};
      o := Deleted;
    }
  }

  /** `BaseDeleteView.delete` as `PostDeleteView` runs it. */
  method PostDelete(store: Store, pk: nat, postFlag: Option<string>) returns (o: DeleteOutcome)
    requires store.Valid()
    modifies store
    ensures store.Valid()
    ensures o.NotFound? <==> pk !in old(store.posts)
    ensures o.Toggled? <==> pk in old(store.posts) && DeleteFlag(postFlag) == SoftDelete
    ensures !o.Refused?
    ensures o.NotFound? ==> store.posts == old(store.posts)
    ensures o.Toggled? ==> store.posts == old(store.posts)[pk := TogglePost(old(store.posts)[pk])]
    ensures o.Deleted? ==> store.posts == old(store.posts) - {pk}
    ensures store.users == old(store.users) && store.categories == old(store.categories) && store.questions == old(store.questions)
  {
    if pk !in store.posts {
      return NotFound;
    }
    PostToggleKeepsTables(store.users, store.categories, store.questions, store.posts, pk);
    var item := store.posts[pk];
    if DeleteFlag(postFlag) == SoftDelete {
      store.posts := store.posts[pk := TogglePost(item)];
      o := Toggled;
    } else {
      store.posts := store.posts - {pk};
      o := Deleted;
    }
  }

  /**
   * `UserDeleteView.delete`: nothing happens to the acting admin's own
   * account; otherwise the account's `is_active` is toggled, or the account
   * is deleted together with every question and post it authored.
   */
  method UserDelete(store: Store, actorId: nat, pk: nat, postFlag: Option<string>) returns (o: DeleteOutcome)
    requires store.Valid()
    modifies store
    ensures store.Valid()
    ensures o.NotFound? <==> pk !in old(store.users)
    ensures o.Refused? <==> pk in old(store.users) && actorId == pk
    ensures o.Toggled? <==> pk in old(store.users) && actorId != pk && DeleteFlag(postFlag) == SoftDelete
    ensures o.Toggled? ==> store.users == old(store.users)[pk := old(store.users)[pk].(isActive := !old(store.users)[pk].isActive)]
    ensures o.Deleted? ==>
              pk in old(store.users) &&
              var name := old(store.users)[pk].username;
              store.users == old(store.users) - {pk} &&
              store.questions == KeepQuestions(old(store.questions), (x: Question) => x.author != name) &&
              store.posts == KeepPosts(old(store.posts), (x: Post) => x.author != name)
    ensures !o.Deleted? ==> store.questions == old(store.questions) && store.posts == old(store.posts)
    ensures o.NotFound? || o.Refused? ==> store.users == old(store.users)
    ensures store.categories == old(store.categories)
  {
    if pk !in store.users {
      return NotFound;
    }
    var item := store.users[pk];
    if actorId == pk {
      return Refused;
    }
    if DeleteFlag(postFlag) == SoftDelete {
      var v := item.(isActive := !item.isActive);
      UserChangeKeepsTables(store.users, store.categories, store.questions, store.posts, pk, v);
      store.users := store.users[pk := v];
      o := Toggled;
    } else {
      UserDeleteKeepsTables(store.users, store.categories, store.questions, store.posts, pk);
      var name := item.username;
      store.questions := KeepQuestions(store.questions, (x: Question) => x.author != name);
      store.posts := KeepPosts(store.posts, (x: Post) => x.author != name);
      store.users := store.users - {pk};
      o := Deleted;
    }
  }

  /** `UserIsStaff.post`: flip `is_staff` of any account but the acting admin's own. */
  method UserIsStaff(store: Store, actorId: nat, pk: nat) returns (o: DeleteOutcome)
    requires store.Valid()
    modifies store
    ensures store.Valid()
    ensures o.NotFound? <==> pk !in old(store.users)
    ensures o.Refused? <==> pk in old(store.users) && actorId == pk
    ensures !o.Deleted?
    ensures o.Toggled? ==> store.users == old(store.users)[pk := old(store.users)[pk].(isStaff := !old(store.users)[pk].isStaff)]
    ensures !o.Toggled? ==> store.users == old(store.users)
    ensures store.categories == old(store.categories) && store.questions == old(store.questions) && store.posts == old(store.posts)
  {
    if pk !in store.users {
      return NotFound;
    }
    var user := store.users[pk];
    if actorId == pk {
      return Refused;
    }
    var v := user.(isStaff := !user.isStaff);
    UserChangeKeepsTables(store.users, store.categories, store.questions, store.posts, pk, v);
    store.users := store.users[pk := v];
    o := Toggled;
  }

  /**
   * `CategoriesDeleteView.delete`: toggling a category gives its questions
   * and posts the category's new availability; deleting it removes them.
   */
  method CategoryDelete(store: Store, pk: nat, postFlag: Option<string>) returns (o: DeleteOutcome)
    requires store.Valid()
    modifies store
    ensures store.Valid()
    ensures o.NotFound? <==> pk !in old(store.categories)
    ensures o.Toggled? <==> pk in old(store.categories) && DeleteFlag(postFlag) == SoftDelete
    ensures !o.Refused?
    ensures o.Toggled? ==>
              pk in old(store.categories) &&
              var now := !old(store.categories)[pk].available;
              store.categories == old(store.categories)[pk := old(store.categories)[pk].(available := now)] &&
              store.questions == SetQuestionsAvailable(old(store.questions), pk, now) &&
              store.posts == SetPostsAvailable(old(store.posts), pk, now)
    ensures o.Deleted? ==>
              store.categories == old(store.categories) - {pk} &&
              store.questions == KeepQuestions(old(store.questions), (x: Question) => x.subject != pk) &&
              store.posts == KeepPosts(old(store.posts), (x: Post) => x.category != pk)
    ensures o.NotFound? ==> store.categories == old(store.categories) && store.questions == old(store.questions) &&
                            store.posts == old(store.posts)
    ensures store.users == old(store.users)
  {
    if pk !in store.categories {
      return NotFound;
    }
    var item := store.categories[pk];
    if DeleteFlag(postFlag) == SoftDelete {
      var now := !item.available;
      CategoryToggleKeepsTables(store.users, store.categories, store.questions, store.posts, pk, now);
      store.questions := SetQuestionsAvailable(store.questions, pk, now);
      store.posts := SetPostsAvailable(store.posts, pk, now);
      store.categories := store.categories[pk := item.(available := now)];
      o := Toggled;
    } else {
      CategoryDeleteKeepsTables(store.users, store.categories, store.questions, store.posts, pk);
      store.questions := KeepQuestions(store.questions, (x: Question) => x.subject != pk);
      store.posts := KeepPosts(store.posts, (x: Post) => x.category != pk);
      store.categories := store.categories - {pk};
      o := Deleted;
    }
  }

  /**
   * Toggling a category twice: the category's questions all end with its
   * original availability, and the questions of other categories are not
   * touched; when they already agreed with the category, everything is as
   * before. The same holds for posts.
   */
  lemma CategoryToggleTwice(q: map<nat, Question>, p: map<nat, Post>, pk: nat, was: bool)
    ensures var q2 := SetQuestionsAvailable(SetQuestionsAvailable(q, pk, !was), pk, was);
            q2.Keys == q.Keys &&
            (forall id :: id in q ==> q2[id] == if q[id].subject == pk then q[id].(available := was) else q[id])
    ensures (forall id :: id in q && q[id].subject == pk ==> q[id].available == was) ==>
              SetQuestionsAvailable(SetQuestionsAvailable(q, pk, !was), pk, was) == q
    ensures (forall id :: id in p && p[id].category == pk ==> p[id].available == was) ==>
              SetPostsAvailable(SetPostsAvailable(p, pk, !was), pk, was) == p
  {
    var q2 := SetQuestionsAvailable(SetQuestionsAvailable(q, pk, !was), pk, was);
    assert forall id :: id in q ==> q2[id] == if q[id].subject == pk then q[id].(available := was) else q[id];
    var p2 := SetPostsAvailable(SetPostsAvailable(p, pk, !was), pk, was);
    if forall id :: id in p && p[id].category == pk ==> p[id].available == was {
      assert forall id :: id in p ==> p2[id] == p[id];
    }
  }

  // ---- The list filter remembered in the session ----

  /** A session key: absent, or holding a value (which may be None). */
  datatype Slot = Unset | Held(value: Option<string>)

  /** The query parameter that clears the filter. */
  const AllCategories: string := "all"

  /** Python truthiness of an optional string. */
  predicate Truthy(s: Option<string>) {
    s.Some? && s.value != ""
  }

  /** The session's 'filter' after a list request carrying the GET parameter `param`. */
  function StoredFilter(param: Option<string>, stored: Slot): (r: Slot)
    ensures Truthy(param) && param.value == AllCategories ==> r == Held(None)
    ensures Truthy(param) && param.value != AllCategories ==> r == Held(param)
    ensures !Truthy(param) ==> r == stored
  {
    if Truthy(param) then (if param.value == AllCategories then Held(None) else Held(param)) else stored
  }

  /** The category filter a list request applies; None lists everything. */
  function ActiveFilter(param: Option<string>, stored: Slot): (r: Option<string>)
    ensures r.Some? ==> Truthy(r) && (r.value != AllCategories || (!Truthy(param) && stored == Held(r)))
    ensures Truthy(param) && param.value != AllCategories ==> r == param
    ensures Truthy(param) && param.value == AllCategories ==> r == None
  {
    if Truthy(param) then (if param.value == AllCategories then None else param)
    else match stored
      case Held(v) => if Truthy(v) then v else None
      case Unset => None
  }

  /** A category chosen once keeps applying to later requests that name none, until 'all' is chosen. */
  lemma FilterIsSticky(choice: string, stored: Slot, later: Option<string>)
    requires !Truthy(later)
    ensures Truthy(Some(choice)) && choice != AllCategories ==>
              ActiveFilter(later, StoredFilter(Some(choice), stored)) == Some(choice)
    ensures ActiveFilter(later, StoredFilter(Some(AllCategories), stored)) == None
    ensures StoredFilter(later, StoredFilter(Some(choice), stored)) == StoredFilter(Some(choice), stored)
  {
  }

  datatype Listing<T> = Listed(rows: seq<T>) | FilterValueError

  /** The admin panel's session, as far as the list views use it. */
  class AdminSession {
    var filter: Slot
    var currentCategory: Slot

    constructor ()
      ensures filter == Unset && currentCategory == Unset
    {
      filter := Unset;
      currentCategory := Unset;
    }
  }

  /**
   * `QuestionListView.get_queryset`: store or clear the filter, then list the
   * questions of the filtered category, or all; a filter that is not an
   * integer fails the query. That ends the request with a server error, and
   * Django saves no session after one, so the filter stored before the
   * failing query is lost: the session keeps its old filter.
   */
  method QuestionQueryset(session: AdminSession, param: Option<string>, questions: seq<Question>) returns (r: Listing<Question>)
    modifies session
    ensures r.Listed? ==> session.filter == StoredFilter(param, old(session.filter))
    ensures r == FilterValueError ==> session.filter == old(session.filter)
    ensures session.currentCategory == old(session.currentCategory)
    ensures var f := ActiveFilter(param, old(session.filter));
            (f.None? ==> r == Listed(questions)) &&
            (f.Some? && ParseInt(f.value).None? ==> r == FilterValueError) &&
            (f.Some? && ParseInt(f.value).Some? ==>
               r.Listed? && forall q :: q in r.rows <==> q in questions && q.subject == ParseInt(f.value).value)
  {
    var f := ActiveFilter(param, session.filter);
    if f.Some? && ParseInt(f.value).None? {
      return FilterValueError;
    }
    session.filter := StoredFilter(param, session.filter);
    if f.None? {
      return Listed(questions);
    }
    match ParseInt(f.value)
    case None => r := FilterValueError;
    case Some(c) =>
      var rows := Filter(questions, (q: Question) => q.subject == c);
      forall q ensures q in rows <==> q in questions && q.subject == c {
        FilterMembership(questions, (q: Question) => q.subject == c, q);
      }
      r := Listed(rows);
  }

  /** `PostListView.get_queryset`, the same filter over posts, and the same loss of the write on a failing query. */
  method PostQueryset(session: AdminSession, param: Option<string>, posts: seq<Post>) returns (r: Listing<Post>)
    modifies session
    ensures r.Listed? ==> session.filter == StoredFilter(param, old(session.filter))
    ensures r == FilterValueError ==> session.filter == old(session.filter)
    ensures session.currentCategory == old(session.currentCategory)
    ensures var f := ActiveFilter(param, old(session.filter));
            (f.None? ==> r == Listed(posts)) &&
            (f.Some? && ParseInt(f.value).None? ==> r == FilterValueError) &&
            (f.Some? && ParseInt(f.value).Some? ==>
               r.Listed? && forall p :: p in r.rows <==> p in posts && p.category == ParseInt(f.value).value)
  {
    var f := ActiveFilter(param, session.filter);
    if f.Some? && ParseInt(f.value).None? {
      return FilterValueError;
    }
    session.filter := StoredFilter(param, session.filter);
    if f.None? {
      return Listed(posts);
    }
    match ParseInt(f.value)
    case None => r := FilterValueError;
    case Some(c) =>
      var rows := Filter(posts, (p: Post) => p.category == c);
      forall p ensures p in rows <==> p in posts && p.category == c {
        FilterMembership(posts, (p: Post) => p.category == c, p);
      }
      r := Listed(rows);
  }

  /** What `BaseListView.get_context_data` puts under 'current_category', or the error it raises. */
  datatype ContextOutcome = Context(current: Slot) | ContextValueError | CategoryDoesNotExist

  /**
   * `BaseListView.get_context_data`: a chosen category's name is shown and
   * remembered; 'all' forgets it; with no choice the remembered name is shown.
   */
  method ListContext(session: AdminSession, param: Option<string>, categories: map<nat, Category>)
    returns (r: ContextOutcome)
    modifies session
    ensures session.filter == old(session.filter)
    ensures Truthy(param) && param.value == AllCategories ==> r == Context(Unset) && session.currentCategory == Held(None)
    ensures Truthy(param) && param.value != AllCategories ==>
              match ParseInt(param.value)
              case None => r == ContextValueError && session.currentCategory == old(session.currentCategory)
              case Some(c) =>
                if c >= 0 && c as nat in categories then
                  r == Context(Held(Some(categories[c as nat].name))) && session.currentCategory == r.current
                else
                  r == CategoryDoesNotExist && session.currentCategory == old(session.currentCategory)
    ensures !Truthy(param) ==> r == Context(old(session.currentCategory)) && session.currentCategory == old(session.currentCategory)
  {
    if Truthy(param) {
      if param.value == AllCategories {
        session.currentCategory := Held(None);
        return Context(Unset);
      }
      match ParseInt(param.value)
      case None => r := ContextValueError;
      case Some(c) =>
        if c >= 0 && c as nat in categories {
          var name := categories[c as nat].name;
          r := Context(Held(Some(name)));
          session.currentCategory := Held(Some(name));
        } else {
          r := CategoryDoesNotExist;
        }
    } else {
      r := Context(session.currentCategory);
    }
  }

  /** The list page a list request renders, or the server error of an exception in `get_queryset` or `get_context_data`. */
  datatype ListPage<T> = Page(rows: seq<T>, current: Slot) | ServerError

  /** `get_queryset` fails: the filter it applies is not an integer. */
  predicate QuerysetFails(param: Option<string>, stored: Slot) {
    var f := ActiveFilter(param, stored);
    f.Some? && ParseInt(f.value).None?
  }

  /** `get_context_data` fails: the chosen category is not an integer, or no category has that id. */
  predicate ContextFails(param: Option<string>, categories: map<nat, Category>) {
    Truthy(param) && param.value != AllCategories &&
    match ParseInt(param.value)
    case None => true
    case Some(c) => !(c >= 0 && c as nat in categories)
  }

  /**
   * A GET of `QuestionListView`: `get_queryset`, then `get_context_data`.
   * When either raises, the response is a server error and neither session
   * key is saved; otherwise both writes persist.
   */
  method QuestionList(session: AdminSession, param: Option<string>, questions: seq<Question>, categories: map<nat, Category>)
    returns (r: ListPage<Question>)
    modifies session
    ensures r == ServerError <==> QuerysetFails(param, old(session.filter)) || ContextFails(param, categories)
    ensures r == ServerError ==>
              session.filter == old(session.filter) && session.currentCategory == old(session.currentCategory)
    ensures r.Page? ==>
              session.filter == StoredFilter(param, old(session.filter)) &&
              var f := ActiveFilter(param, old(session.filter));
              (f.None? ==> r.rows == questions) &&
              (f.Some? ==>
                 ParseInt(f.value).Some? &&
                 forall q :: q in r.rows <==> q in questions && q.subject == ParseInt(f.value).value)
    ensures r.Page? && Truthy(param) && param.value == AllCategories ==>
              r.current == Unset && session.currentCategory == Held(None)
    ensures r.Page? && Truthy(param) && param.value != AllCategories ==>
              ParseInt(param.value).Some? && ParseInt(param.value).value as nat in categories &&
              r.current == Held(Some(categories[ParseInt(param.value).value as nat].name)) &&
              session.currentCategory == r.current
    ensures r.Page? && !Truthy(param) ==>
              r.current == old(session.currentCategory) && session.currentCategory == old(session.currentCategory)
  {
    var stored := session.filter;
    var listing := QuestionQueryset(session, param, questions);
    if listing == FilterValueError {
      return ServerError;
    }
    var context := ListContext(session, param, categories);
    if !context.Context? {
      session.filter := stored;
      return ServerError;
    }
    r := Page(listing.rows, context.current);
  }

  /** A GET of `PostListView`, the same two steps over posts. */
  method PostList(session: AdminSession, param: Option<string>, posts: seq<Post>, categories: map<nat, Category>)
    returns (r: ListPage<Post>)
    modifies session
    ensures r == ServerError <==> QuerysetFails(param, old(session.filter)) || ContextFails(param, categories)
    ensures r == ServerError ==>
              session.filter == old(session.filter) && session.currentCategory == old(session.currentCategory)
    ensures r.Page? ==>
              session.filter == StoredFilter(param, old(session.filter)) &&
              var f := ActiveFilter(param, old(session.filter));
              (f.None? ==> r.rows == posts) &&
              (f.Some? ==>
                 ParseInt(f.value).Some? &&
                 forall p :: p in r.rows <==> p in posts && p.category == ParseInt(f.value).value)
    ensures r.Page? && Truthy(param) && param.value == AllCategories ==>
              r.current == Unset && session.currentCategory == Held(None)
    ensures r.Page? && Truthy(param) && param.value != AllCategories ==>
              ParseInt(param.value).Some? && ParseInt(param.value).value as nat in categories &&
              r.current == Held(Some(categories[ParseInt(param.value).value as nat].name)) &&
              session.currentCategory == r.current
    ensures r.Page? && !Truthy(param) ==>
              r.current == old(session.currentCategory) && session.currentCategory == old(session.currentCategory)
  {
    var stored := session.filter;
    var listing := PostQueryset(session, param, posts);
    if listing == FilterValueError {
      return ServerError;
    }
    var context := ListContext(session, param, categories);
    if !context.Context? {
      session.filter := stored;
      return ServerError;
    }
    r := Page(listing.rows, context.current);
  }

  // ---- The search boxes ----

  /**
   * `first_name__contains` on the configured SQLite backend, where `contains`
   * compiles to `LIKE`, which ignores ASCII case just as `icontains` does.
   */
  predicate SqliteContains(s: string, sub: string) {
    IContains(s, sub)
  }

  /** Username or last name `icontains` the query, or the first name `contains` it. */
  predicate UserMatches(u: MyUser, query: string) {
    IContains(u.username, query) || IContains(u.lastName, query) || SqliteContains(u.firstName, query)
  }

  predicate CategoryMatches(c: Category, query: string) {
    IContains(c.name, query)
  }

  predicate QuestionMatches(q: Question, query: string) {
    IContains(q.question, query) || IContains(q.tag, query)
  }

  predicate PostMatches(p: Post, query: string) {
    IContains(p.title, query) || IContains(p.tag, query)
  }

  /** `AdminsSearchUserView.get_queryset`. */
  function SearchUsers(users: seq<MyUser>, query: Option<string>): (r: seq<MyUser>)
    ensures !Truthy(query) ==> r == users
    ensures Truthy(query) ==> forall u :: u in r <==> u in users && UserMatches(u, query.value)
  {
    if Truthy(query) then
      var r := Filter(users, (u: MyUser) => UserMatches(u, query.value));
      assert forall u :: u in r <==> u in users && UserMatches(u, query.value) by {
        forall u ensures u in r <==> u in users && UserMatches(u, query.value) {
          FilterMembership(users, (u: MyUser) => UserMatches(u, query.value), u);
        }
      }
      r
    else users
  }

  /** `AdminsSearchCategoryView.get_queryset`. */
  function SearchCategories(categories: seq<Category>, query: Option<string>): (r: seq<Category>)
    ensures !Truthy(query) ==> r == categories
    ensures Truthy(query) ==> forall c :: c in r <==> c in categories && CategoryMatches(c, query.value)
  {
    if Truthy(query) then
      var r := Filter(categories, (c: Category) => CategoryMatches(c, query.value));
      assert forall c :: c in r <==> c in categories && CategoryMatches(c, query.value) by {
        forall c ensures c in r <==> c in categories && CategoryMatches(c, query.value) {
          FilterMembership(categories, (c: Category) => CategoryMatches(c, query.value), c);
        }
      }
      r
    else categories
  }

  /** `AdminsSearchQuestionView.get_queryset`. */
  function SearchQuestions(questions: seq<Question>, query: Option<string>): (r: seq<Question>)
    ensures !Truthy(query) ==> r == questions
    ensures Truthy(query) ==> forall q :: q in r <==> q in questions && QuestionMatches(q, query.value)
  {
    if Truthy(query) then
      var r := Filter(questions, (q: Question) => QuestionMatches(q, query.value));
      assert forall q :: q in r <==> q in questions && QuestionMatches(q, query.value) by {
        forall q ensures q in r <==> q in questions && QuestionMatches(q, query.value) {
          FilterMembership(questions, (q: Question) => QuestionMatches(q, query.value), q);
        }
      }
      r
    else questions
  }

  /** `AdminsSearchPostView.get_queryset`. */
  function SearchPosts(posts: seq<Post>, query: Option<string>): (r: seq<Post>)
    ensures !Truthy(query) ==> r == posts
    ensures Truthy(query) ==> forall p :: p in r <==> p in posts && PostMatches(p, query.value)
  {
    if Truthy(query) then
      var r := Filter(posts, (p: Post) => PostMatches(p, query.value));
      assert forall p :: p in r <==> p in posts && PostMatches(p, query.value) by {
        forall p ensures p in r <==> p in posts && PostMatches(p, query.value) {
          FilterMembership(posts, (p: Post) => PostMatches(p, query.value), p);
        }
      }
      r
    else posts
  }

  /** On SQLite the case of the query never matters: a query and its lower-cased form find the same users. */
  lemma UserSearchIgnoresQueryCase(u: MyUser, query: string)
    ensures UserMatches(u, query) <==> UserMatches(u, Lower(query))
  {
    IContainsIgnoresQueryCase(u.username, query);
    IContainsIgnoresQueryCase(u.lastName, query);
    IContainsIgnoresQueryCase(u.firstName, query);
  }

  /** Every row's own name (or title, or question text) finds it. */
  lemma SearchFindsByOwnName(c: Category, q: Question, p: Post)
    ensures CategoryMatches(c, c.name)
    ensures QuestionMatches(q, q.question)
    ensures PostMatches(p, p.title)
  {
    IContainsSelf(c.name);
    IContainsSelf(q.question);
    IContainsSelf(p.title);
  }
}
