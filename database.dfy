/**
 * The tables the admin panel and the REST API change in place: accounts,
 * categories, questions and posts, each by primary key. Questions and posts
 * refer to their category by id and to their author by username; all four
 * foreign keys are declared with CASCADE deletion.
 */
module Database {
  import opened UserModel
  import opened QuestionModel
  import opened PostModel

  /** The usernames in use. */
  function Usernames(users: map<nat, MyUser>): (r: set<string>)
    ensures forall id :: id in users ==> users[id].username in r
    ensures forall name :: name in r ==> exists id :: id in users && users[id].username == name
  {
    set id | id in users :: users[id].username
  }

  /** Every row is filed under its own primary key. */
  ghost predicate KeysAreIds(users: map<nat, MyUser>, categories: map<nat, Category>,
                             questions: map<nat, Question>, posts: map<nat, Post>) {
    (forall id :: id in users ==> users[id].id == id) &&
    (forall id :: id in categories ==> categories[id].id == id) &&
    (forall id :: id in questions ==> questions[id].id == id) &&
    (forall id :: id in posts ==> posts[id].id == id)
  }

  /** `username` and `email` are unique columns. */
  ghost predicate UniqueAccounts(users: map<nat, MyUser>) {
    (forall a, b :: a in users && b in users && users[a].username == users[b].username ==> a == b) &&
    (forall a, b :: a in users && b in users && users[a].email == users[b].email ==> a == b)
  }

  /** No question or post refers to a category or an author that is not there. */
  ghost predicate References(users: map<nat, MyUser>, categories: map<nat, Category>,
                             questions: map<nat, Question>, posts: map<nat, Post>) {
    (forall id :: id in questions ==> questions[id].subject in categories && questions[id].author in Usernames(users)) &&
    (forall id :: id in posts ==> posts[id].category in categories && posts[id].author in Usernames(users))
  }

  /** The integrity the database maintains over the four tables. */
  ghost predicate Tables(users: map<nat, MyUser>, categories: map<nat, Category>,
                         questions: map<nat, Question>, posts: map<nat, Post>) {
    KeysAreIds(users, categories, questions, posts) && UniqueAccounts(users) &&
    References(users, categories, questions, posts)
  }

  /** Changing an account in a way that keeps its id, username and email keeps the tables' integrity. */
  lemma UserChangeKeepsTables(u: map<nat, MyUser>, c: map<nat, Category>, q: map<nat, Question>,
                              p: map<nat, Post>, pk: nat, v: MyUser)
    requires Tables(u, c, q, p) && pk in u
    requires v.id == pk && v.username == u[pk].username && v.email == u[pk].email
    ensures Tables(u[pk := v], c, q, p)
  {
    assert Usernames(u[pk := v]) == Usernames(u) by {
      forall name | name in Usernames(u) ensures name in Usernames(u[pk := v]) {
        var id :| id in u && u[id].username == name;
        assert u[pk := v][id].username == name;
      }
    }
  }

  class Store {
    var users: map<nat, MyUser>
    var categories: map<nat, Category>
    var questions: map<nat, Question>
    var posts: map<nat, Post>

    constructor ()
      ensures users == map[] && categories == map[] && questions == map[] && posts == map[]
      ensures Valid()
    {
      users, categories, questions, posts := map[], map[], map[], map[];
    }

    ghost predicate Valid()
      reads this
    {
      Tables(users, categories, questions, posts)
    }
  }
}
