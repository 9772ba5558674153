/**
 * The public listings of posts/views.py: the published categories, a
 * user's posts, the posts with a tag, the posts of a category, and the
 * search box. Tables are given as their rows in database order; a lookup
 * by primary key that finds nothing is None (DoesNotExist).
 */
module PostViews {
  import opened Wrappers
  import opened Text
  import opened Collections
  import opened UserModel
  import opened QuestionModel
  import opened PostModel
  import AdminViews

  /** `PostsCategoryView.get_queryset`. */
  function PublishedCategories(categories: seq<Category>): (r: seq<Category>)
    ensures forall c :: c in r <==> c in categories && c.available
  {
    var r := Filter(categories, (c: Category) => c.available);
    assert forall c :: c in r <==> c in categories && c.available by {
      forall c ensures c in r <==> c in categories && c.available {
        FilterMembership(categories, (c: Category) => c.available, c);
      }
    }
    r
  }

  /** `UserPostView.get_context_data`: the account's published posts. */
  function UserPosts(users: map<nat, MyUser>, posts: seq<Post>, pk: nat): (r: Option<seq<Post>>)
    ensures r.Some? <==> pk in users
    ensures r.Some? ==> forall p :: p in r.value <==> p in posts && p.available && p.author == users[pk].username
  {
    if pk !in users then None
    else
      var name := users[pk].username;
      var r := Filter(posts, (p: Post) => p.author == name && p.available);
      assert forall p :: p in r <==> p in posts && p.available && p.author == name by {
        forall p ensures p in r <==> p in posts && p.available && p.author == name {
          FilterMembership(posts, (p: Post) => p.author == name && p.available, p);
        }
      }
      Some(r)
  }

  /** `TagPostView.get_context_data`: the published posts with exactly this tag. */
  function TagPosts(posts: seq<Post>, tag: string): (r: seq<Post>)
    ensures forall p :: p in r <==> p in posts && p.available && p.tag == tag
  {
    var r := Filter(posts, (p: Post) => p.tag == tag && p.available);
    assert forall p :: p in r <==> p in posts && p.available && p.tag == tag by {
      forall p ensures p in r <==> p in posts && p.available && p.tag == tag {
        FilterMembership(posts, (p: Post) => p.tag == tag && p.available, p);
      }
    }
    r
  }

  /** `CategoryPostView.get_context_data`: the category's published posts. */
  function CategoryPosts(categories: map<nat, Category>, posts: seq<Post>, pk: nat): (r: Option<seq<Post>>)
    ensures r.Some? <==> pk in categories
    ensures r.Some? ==> forall p :: p in r.value <==> p in posts && p.available && p.category == pk
  {
    if pk !in categories then None
    else
      var r := Filter(posts, (p: Post) => p.category == pk && p.available);
      assert forall p :: p in r <==> p in posts && p.available && p.category == pk by {
        forall p ensures p in r <==> p in posts && p.available && p.category == pk {
          FilterMembership(posts, (p: Post) => p.category == pk && p.available, p);
        }
      }
      Some(r)
  }

  /** Unpublishing a post takes it off its category's listing; publishing it again puts it back. */
  lemma ToggleMovesPostInListing(categories: map<nat, Category>, posts: seq<Post>, i: nat)
    requires i < |posts| && posts[i].category in categories
    ensures var p := posts[i];
            var after := posts[i := AdminViews.TogglePost(p)];
            (p in CategoryPosts(categories, posts, p.category).value <==> p.available) &&
            (AdminViews.TogglePost(p) in CategoryPosts(categories, after, p.category).value <==> !p.available)
  {
    var after := posts[i := AdminViews.TogglePost(posts[i])];
    assert after[i] == AdminViews.TogglePost(posts[i]);
  }

  /** Title or tag contain the query, in any case. */
  predicate SearchMatches(p: Post, query: string) {
    IContains(p.title, query) || IContains(p.tag, query)
  }

  /**
   * `SearchPostView.get_queryset` as written: no condition on `available`.
   * Without a 'search_panel' parameter the lookup value is None, which the
   * ORM refuses (None).
   */
  function SearchPostsAsWritten(posts: seq<Post>, query: Option<string>): (r: Option<seq<Post>>)
    ensures r.Some? <==> query.Some?
    ensures r.Some? ==> forall p :: p in r.value <==> p in posts && SearchMatches(p, query.value)
  {
    match query
    case None => None
    case Some(q) =>
      var r := Filter(posts, (p: Post) => SearchMatches(p, q));
      assert forall p :: p in r <==> p in posts && SearchMatches(p, q) by {
        forall p ensures p in r <==> p in posts && SearchMatches(p, q) {
          FilterMembership(posts, (p: Post) => SearchMatches(p, q), p);
        }
      }
      Some(r)
  }

  /** The unpublished post 'Kill Bill' of the test fixtures is found by the query 'i'. */
  lemma SearchShowsUnpublishedPost()
    ensures var kb := Post(5, "Kill Bill", "test_02", 3, "text about this movie", false, "action movie");
            !kb.available && kb in SearchPostsAsWritten([kb], Some("i")).value
  {
    var kb := Post(5, "Kill Bill", "test_02", 3, "text about this movie", false, "action movie");
    var low := Lower(kb.title);
    assert low[1] == 'i';
    assert low[1..][..1] == "i";
    assert IsPrefix("i", low[1..]);
    assert Contains(low[1..], "i");
    assert Lower("i") == "i";
    assert SearchMatches(kb, "i");
  }

  /** The search as intended: the same matches, published posts only. */
  function SearchPosts(posts: seq<Post>, query: Option<string>): (r: Option<seq<Post>>)
    ensures r.Some? <==> query.Some?
    ensures r.Some? ==> forall p :: p in r.value <==> p in posts && p.available && SearchMatches(p, query.value)
  {
    match query
    case None => None
    case Some(q) =>
      var r := Filter(posts, (p: Post) => SearchMatches(p, q) && p.available);
      assert forall p :: p in r <==> p in posts && p.available && SearchMatches(p, q) by {
        forall p ensures p in r <==> p in posts && p.available && SearchMatches(p, q) {
          FilterMembership(posts, (p: Post) => SearchMatches(p, q) && p.available, p);
        }
      }
      Some(r)
  }

  /** The intended search keeps exactly the published part of what the code returns. */
  lemma SearchPostsIsPublishedPart(posts: seq<Post>, query: string)
    ensures forall p :: p in SearchPosts(posts, Some(query)).value <==>
                        p in SearchPostsAsWritten(posts, Some(query)).value && p.available
  {
  }
}
