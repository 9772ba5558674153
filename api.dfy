/**
 * The REST API of api_rest/api.py: which permission classes guard which
 * action, "destroy" as a toggle of the published (or active) flag, the
 * author stamped on created questions and posts, and the orderings the
 * extra list actions return.
 */
module Api {
  import opened Wrappers
  import opened Collections
  import opened UserModel
  import opened QuestionModel
  import opened PostModel
  import opened Database
  import UserViews

  datatype Permission = AllowAny | IsAuthenticated | IsAdminUser

  datatype ViewSet = CategoryViewSet | QuestionViewSet | PostViewSet | UserViewSet

  /** Who sends the request. */
  datatype Requester = Anonymous | Account(username: string, isStaff: bool)

  /** `permission_classes_by_action` of `BaseViewSet`, which the question and post view sets inherit. */
  const BaseActionPermissions: map<string, seq<Permission>> :=
    map["create" := [IsAuthenticated], "update" := [IsAdminUser], "partial_update" := [IsAdminUser],
        "destroy" := [IsAdminUser]]

  /** `QuestionCategoryViewSet` replaces the map: every write needs an admin. */
  const CategoryActionPermissions: map<string, seq<Permission>> :=
    map["create" := [IsAdminUser], "update" := [IsAdminUser], "partial_update" := [IsAdminUser]]

  /** `get_permissions`: the action's own classes, falling back to `permission_classes` on a KeyError. */
  function GetPermissions(vs: ViewSet, action: string): (r: seq<Permission>)
    ensures vs == UserViewSet ==> r == [IsAdminUser]
    ensures vs != UserViewSet ==>
              var table := if vs == CategoryViewSet then CategoryActionPermissions else BaseActionPermissions;
              r == if action in table then table[action] else [AllowAny]
  {
    match vs
    case UserViewSet => [IsAdminUser]
    case CategoryViewSet =>
      if action in CategoryActionPermissions then CategoryActionPermissions[action] else [AllowAny]
    case _ =>
      if action in BaseActionPermissions then BaseActionPermissions[action] else [AllowAny]
  }

  /** One permission class's `has_permission`. */
  predicate Grants(p: Permission, who: Requester) {
    match p
    case AllowAny => true
    case IsAuthenticated => who.Account?
    case IsAdminUser => who.Account? && who.isStaff
  }

  /** Every listed class must grant the request. */
  predicate Allowed(perms: seq<Permission>, who: Requester) {
    forall i :: 0 <= i < |perms| ==> Grants(perms[i], who)
  }

  /** What each view set lets whom do. */
  lemma PermissionRules(action: string, who: Requester)
    ensures Allowed(GetPermissions(QuestionViewSet, "create"), who) <==> who.Account?
    ensures action in {"update", "partial_update", "destroy"} ==>
              (Allowed(GetPermissions(PostViewSet, action), who) <==> who.Account? && who.isStaff)
    ensures action !in {"create", "update", "partial_update", "destroy"} ==> Allowed(GetPermissions(QuestionViewSet, action), who)
    ensures action in {"create", "update", "partial_update"} ==>
              (Allowed(GetPermissions(CategoryViewSet, action), who) <==> who.Account? && who.isStaff)
    ensures action !in {"create", "update", "partial_update"} ==> Allowed(GetPermissions(CategoryViewSet, action), who)
    ensures Allowed(GetPermissions(UserViewSet, action), who) <==> who.Account? && who.isStaff
  {
    assert GetPermissions(UserViewSet, action)[0] == IsAdminUser;
    if action in {"create", "update", "partial_update"} {
      assert GetPermissions(CategoryViewSet, action)[0] == IsAdminUser;
    }
    if action in {"update", "partial_update", "destroy"} {
      assert GetPermissions(PostViewSet, action)[0] == IsAdminUser;
    }
    assert GetPermissions(QuestionViewSet, "create")[0] == IsAuthenticated;
  }

  /** An anonymous request can change nothing through the API. */
  lemma AnonymousCannotWrite(vs: ViewSet, action: string)
    requires action in {"create", "update", "partial_update", "destroy"}
    requires vs != CategoryViewSet || action != "destroy"
    ensures !Allowed(GetPermissions(vs, action), Anonymous)
  {
    assert !Grants(GetPermissions(vs, action)[0], Anonymous);
  }

  /** `http_method_names` of the category view set; the others accept every method. */
  predicate MethodAllowed(vs: ViewSet, httpMethod: string) {
    vs != CategoryViewSet || httpMethod in {"get", "post", "put"}
  }

  const NoContent: nat := 204
  const Forbidden: nat := 403
  const NotFoundStatus: nat := 404
  const MethodNotAllowed: nat := 405

  /**
   * A DELETE on a detail route: the permission check comes first, then the
   * method check, then `destroy`, which flips `available` (or, for
   * accounts, `is_active`) instead of deleting.
   */
  method Destroy(store: Store, vs: ViewSet, who: Requester, pk: nat) returns (status: nat)
    requires store.Valid()
    modifies store
    ensures store.Valid()
    ensures status == NoContent || status == Forbidden || status == NotFoundStatus || status == MethodNotAllowed
    ensures status == Forbidden <==> !Allowed(GetPermissions(vs, "destroy"), who)
    ensures status == MethodNotAllowed <==> Allowed(GetPermissions(vs, "destroy"), who) && vs == CategoryViewSet
    ensures status == NoContent && vs == QuestionViewSet ==>
              pk in old(store.questions) &&
              store.questions == old(store.questions)[pk := old(store.questions)[pk].(available := !old(store.questions)[pk].available)]
    ensures status == NoContent && vs == PostViewSet ==>
              pk in old(store.posts) &&
              store.posts == old(store.posts)[pk := old(store.posts)[pk].(available := !old(store.posts)[pk].available)]
    ensures status == NoContent && vs == UserViewSet ==>
              pk in old(store.users) &&
              store.users == old(store.users)[pk := old(store.users)[pk].(isActive := !old(store.users)[pk].isActive)]
    ensures status == NotFoundStatus <==>
              Allowed(GetPermissions(vs, "destroy"), who) && vs != CategoryViewSet &&
              pk !in (match vs
                      case QuestionViewSet => old(store.questions).Keys
                      case PostViewSet => old(store.posts).Keys
                      case _ => old(store.users).Keys)
    ensures status != NoContent ==> unchanged(store)
    ensures vs != QuestionViewSet ==> store.questions == old(store.questions)
    ensures vs != PostViewSet ==> store.posts == old(store.posts)
    ensures vs != UserViewSet ==> store.users == old(store.users)
    ensures store.categories == old(store.categories)
  {
    if !Allowed(GetPermissions(vs, "destroy"), who) {
      return Forbidden;
    }
    if !MethodAllowed(vs, "delete") {
      return MethodNotAllowed;
    }
    match vs
    case QuestionViewSet =>
      if pk !in store.questions {
        return NotFoundStatus;
      }
      var q := store.questions[pk];
      store.questions := store.questions[pk := q.(available := !q.available)];
      status := NoContent;
    case PostViewSet =>
      if pk !in store.posts {
        return NotFoundStatus;
      }
      var p := store.posts[pk];
      store.posts := store.posts[pk := p.(available := !p.available)];
      status := NoContent;
    case UserViewSet =>
      if pk !in store.users {
        return NotFoundStatus;
      }
      var u := store.users[pk];
      var v := u.(isActive := !u.isActive);
      UserChangeKeepsTables(store.users, store.categories, store.questions, store.posts, pk, v);
      store.users := store.users[pk := v];
      status := NoContent;
  }

  /**
   * `create`: the author saved with a new question or post is the
   * requester; categories have no author. `create` needs a logged-in
   * requester (an admin, for categories), so there is always one to stamp.
   */
  function StampedAuthor(vs: ViewSet, who: Requester): (r: Option<string>)
    requires vs != UserViewSet
    requires Allowed(GetPermissions(vs, "create"), who)
    ensures r.Some? <==> vs != CategoryViewSet
    ensures r.Some? ==> who.Account? && r.value == who.username
  {
    assert Grants(GetPermissions(vs, "create")[0], who);
    if vs == CategoryViewSet then None else Some(who.username)
  }

  // ---- Orderings of the extra list actions ----

  lemma TagOrdersArePreorders()
    ensures TotalPreorder((a: Question, b: Question) => LexLe(a.tag, b.tag))
    ensures TotalPreorder((a: Post, b: Post) => LexLe(a.tag, b.tag))
  {
    forall a: string, b: string ensures LexLe(a, b) || LexLe(b, a) {
      LexLeTotal(a, b);
    }
    forall a: string, b: string, c: string | LexLe(a, b) && LexLe(b, c) ensures LexLe(a, c) {
      LexLeTransitive(a, b, c);
    }
  }

  /** `order_by_tag` of the question view set: the same questions, by ascending tag. */
  function QuestionsByTag(questions: seq<Question>): (r: seq<Question>)
    ensures multiset(r) == multiset(questions)
    ensures forall i, j :: 0 <= i < j < |r| ==> LexLe(r[i].tag, r[j].tag)
  {
    TagOrdersArePreorders();
    Sort(questions, (a: Question, b: Question) => LexLe(a.tag, b.tag))
  }

  /** `order_by_tag` of the post view set. */
  function PostsByTag(posts: seq<Post>): (r: seq<Post>)
    ensures multiset(r) == multiset(posts)
    ensures forall i, j :: 0 <= i < j < |r| ==> LexLe(r[i].tag, r[j].tag)
  {
    TagOrdersArePreorders();
    Sort(posts, (a: Post, b: Post) => LexLe(a.tag, b.tag))
  }

  /** `ranking_by_score`: every account, highest score first. */
  function RankingByScore(users: seq<MyUser>): (r: seq<MyUser>)
    ensures multiset(r) == multiset(users)
    ensures forall i, j :: 0 <= i < j < |r| ==> r[i].score >= r[j].score
  {
    UserViews.HigherScoreFirstIsTotalPreorder();
    var r := Sort(users, UserViews.HigherScoreFirst);
    assert forall i, j :: 0 <= i < j < |r| ==> UserViews.HigherScoreFirst(r[i], r[j]);
    r
  }

  /** The number of questions of a category, `Count('question')`. */
  function QuestionCount(questions: seq<Question>, c: Category): nat {
    Count(questions, (q: Question) => q.subject == c.id)
  }

  /** `order_by_tag` of the category view set: categories with more questions first. */
  function CategoriesByQuestionCount(categories: seq<Category>, questions: seq<Question>): (r: seq<Category>)
    ensures multiset(r) == multiset(categories)
    ensures forall i, j :: 0 <= i < j < |r| ==> QuestionCount(questions, r[i]) >= QuestionCount(questions, r[j])
  {
    var more := (a: Category, b: Category) => QuestionCount(questions, a) >= QuestionCount(questions, b);
    assert TotalPreorder(more);
    var r := Sort(categories, more);
    assert forall i, j :: 0 <= i < j < |r| ==> more(r[i], r[j]);
    r
  }

  /** The ranking's first account has the top score. */
  lemma RankingStartsWithBest(users: seq<MyUser>, u: MyUser)
    requires u in users
    ensures |RankingByScore(users)| > 0 && RankingByScore(users)[0].score >= u.score
  {
    var r := RankingByScore(users);
    assert u in multiset(r);
    var k :| 0 <= k < |r| && r[k] == u;
  }
}
