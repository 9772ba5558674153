/**
 * The user model of users/models.py: the record kept for every account, the
 * upload path of its avatar, its printable form, and the 48-hour lifetime of
 * the activation key sent by email at registration.
 */
module UserModel {
  import opened Wrappers
  import opened Text

  /** Time, in whole seconds of a common clock. */
  type Time = int

  /** How long an activation key stays usable: 48 hours. */
  const ActivationKeyLifetime: int := 48 * 60 * 60

  const UserImageDir: string := "user_images/"

  /**
   * One account. `id` stands for the UUID primary key; `activationKey` and
   * `activationKeyCreated` are nullable columns, hence optional.
   */
  datatype MyUser = MyUser(
    id: nat,
    username: string,
    firstName: string,
    lastName: string,
    email: string,
    score: nat,
    isActive: bool,
    isStaff: bool,
    activationKey: Option<string>,
    activationKeyCreated: Option<Time>,
    info: bool)

  /** A freshly created account with the model's field defaults; the creation time is stamped automatically. */
  function NewUser(id: nat, username: string, firstName: string, lastName: string, email: string, now: Time): (u: MyUser)
    ensures u.score == 0 && !u.isActive && !u.isStaff && u.info
    ensures u.activationKey == None && u.activationKeyCreated == Some(now)
    ensures u.id == id && u.username == username && u.email == email
  {
    MyUser(id, username, firstName, lastName, email, 0, false, false, None, Some(now), true)
  }

  /** `users_image_path`: where an uploaded avatar is stored. */
  function UsersImagePath(u: MyUser, filename: string): (path: string)
    ensures IsPrefix(UserImageDir + u.username + "_", path)
    ensures |path| == |UserImageDir| + |u.username| + 1 + |filename|
    ensures path[|UserImageDir| + |u.username| + 1..] == filename
  {
    UserImageDir + u.username + "_" + filename
  }

  /** For one file name, two different usernames never share an avatar path. */
  lemma UsersImagePathInjective(u: MyUser, v: MyUser, filename: string)
    requires u.username != v.username
    ensures UsersImagePath(u, filename) != UsersImagePath(v, filename)
  {
    var p, q := UsersImagePath(u, filename), UsersImagePath(v, filename);
    if |u.username| == |v.username| {
      var k :| 0 <= k < |u.username| && u.username[k] != v.username[k];
      assert p[|UserImageDir| + k] == u.username[k];
      assert q[|UserImageDir| + k] == v.username[k];
    }
  }

  /** `MyUser.__str__`: the first name followed by the username in double quotes. */
  function UserStr(u: MyUser): (r: string)
    ensures |r| == |u.firstName| + |u.username| + 3
    ensures IsPrefix(u.firstName + " ", r)
    ensures r[|u.firstName| + 1..] == "\"" + u.username + "\""
  {
    u.firstName + " \"" + u.username + "\""
  }

  /** Users with the same first name but different usernames print differently. */
  lemma UserStrDistinguishesUsernames(u: MyUser, v: MyUser)
    requires u.firstName == v.firstName && u.username != v.username
    ensures UserStr(u) != UserStr(v)
  {
    var p, q := UserStr(u), UserStr(v);
    var n := |u.firstName| + 2;
    if |u.username| == |v.username| {
      var k :| 0 <= k < |u.username| && u.username[k] != v.username[k];
      assert p[n + k] == u.username[k];
      assert q[n + k] == v.username[k];
    }
  }

  /**
   * `is_activation_key_expired`: `None` stands for the TypeError Python raises
   * when the creation time is null; otherwise the key is expired exactly when
   * `now` is past creation + 48 h (48 h to the second is still valid).
   */
  function IsActivationKeyExpired(u: MyUser, now: Time): (r: Option<bool>)
    ensures r.Some? <==> u.activationKeyCreated.Some?
    ensures r == Some(false) <==> u.activationKeyCreated.Some? && now <= u.activationKeyCreated.value + ActivationKeyLifetime
  {
    match u.activationKeyCreated
    case None => None
    case Some(created) => Some(!(now <= created + ActivationKeyLifetime))
  }

  /** Once expired, a key stays expired as the clock advances. */
  lemma ExpiryIsPermanent(u: MyUser, now: Time, later: Time)
    requires now <= later
    requires IsActivationKeyExpired(u, now) == Some(true)
    ensures IsActivationKeyExpired(u, later) == Some(true)
  {
  }

  /** A key created at `now` is valid for exactly the next 48 hours. */
  lemma FreshKeyLifetime(id: nat, username: string, firstName: string, lastName: string, email: string, now: Time, t: Time)
    requires now <= t
    ensures IsActivationKeyExpired(NewUser(id, username, firstName, lastName, email, now), t) == Some(t > now + 172800)
  {
  }
}
