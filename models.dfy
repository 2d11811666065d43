/** The documents of the three collections (users, profiles, posts), the
    token the server issues, the libraries the handlers call, and the store
    itself with the lookups the handlers run on it. */
module Models {
  import opened Js

  type UserId = string
  type PostId = string

  // ---------------------------------------------------------------------------
  // Users and tokens

  /** A user document. `password` holds the bcrypt hash once it is saved. */
  datatype User = User(id: UserId, name: string, email: string, avatar: string, password: string)

  /** A user document as `select('-password')` returns it. */
  datatype PublicUser = PublicUser(id: UserId, name: string, email: string, avatar: string)

  /** `select('-password')`: the user document without its password. */
  function WithoutPassword(u: User): PublicUser
  {
    PublicUser(u.id, u.name, u.email, u.avatar)
  }

  /** The `user` claim of a token: the value the gate stores in `req.user`. */
  datatype Claim = Claim(id: UserId)

  /** The payload `{ user: { id } }` the server signs. */
  datatype Payload = Payload(user: Claim)

  /** `jwt.sign(payload, jwtSecret, { expiresIn })`: the signed token stands
      for the payload and lifetime it was signed with. */
  datatype Token = Token(payload: Payload, expiresIn: int)

  /** The `expiresIn` both token-issuing routes pass to `jwt.sign`, in seconds. */
  const TokenLifetime := 36000

  /** The token issued to the user with id `id`. */
  function Issue(id: UserId): Token
  {
    Token(Payload(Claim(id)), TokenLifetime)
  }

  /** The library calls the handlers make, left uninterpreted:
      express-validator's `isEmail`, gravatar's `url` (with the fixed options
      s 200, r pg, d mm), bcrypt's `hash(password, salt)` and
      `compare(password, hash)`. */
  datatype Libraries = Libraries(
    isEmail: string -> bool,
    avatarOf: string -> string,
    hash: (string, string) -> string,
    compare: (string, string) -> bool)

  // ---------------------------------------------------------------------------
  // Posts

  /** An entry of a post's `likes`. */
  datatype Like = Like(user: UserId)

  /** An entry of a post's `comments`, with the author's name and avatar
      copied in when it was written. */
  datatype Comment = Comment(id: string, user: UserId, text: string, name: string, avatar: string)

  /** A post document. Its author and the snapshot of the author's name and
      avatar are fixed at creation; `likes` and `comments` are arrays the
      handlers change in place before saving. */
  class Post {
    const id: PostId
    const user: UserId
    const text: string
    const name: string
    const avatar: string
    var likes: seq<Like>
    var comments: seq<Comment>

    constructor (id: PostId, user: UserId, text: string, name: string, avatar: string)
      ensures this.id == id && this.user == user && this.text == text
      ensures this.name == name && this.avatar == avatar
      ensures likes == [] && comments == []
    {
      this.id, this.user, this.text, this.name, this.avatar := id, user, text, name, avatar;
      likes, comments := [], [];
    }
  }

  // ---------------------------------------------------------------------------
  // Profiles

  datatype Social = Social(youtube: string, twitter: string, instagram: string, linkedin: string, facebook: string)

  /** The fields the profile upsert writes with `$set`. */
  datatype ProfileInfo = ProfileInfo(
    company: string, location: string, website: string, bio: string,
    skills: seq<string>, status: string, githubusername: string, social: Social)

  datatype Experience = Experience(
    id: string, title: string, company: string, location: string,
    from: string, to: string, current: bool, description: string)

  datatype Education = Education(
    id: string, school: string, degree: string, fieldofstudy: string,
    from: string, to: string, current: bool, description: string)

  /** A profile document, owned by the user `user`. */
  class Profile {
    const user: UserId
    var info: ProfileInfo
    var experience: seq<Experience>
    var education: seq<Education>

    constructor (user: UserId, info: ProfileInfo)
      ensures this.user == user && this.info == info
      ensures experience == [] && education == []
    {
      this.user, this.info := user, info;
      experience, education := [], [];
    }
  }

  // ---------------------------------------------------------------------------
  // Keys and uniqueness

  function EmailOf(u: User): string { u.email }
  function IdOf(u: User): UserId { u.id }
  function OwnerOf(p: Profile): UserId { p.user }
  function PostIdOf(p: Post): PostId { p.id }

  /** No two elements of `s` share a key. */
  ghost predicate DistinctBy<T, K>(s: seq<T>, key: T -> K) {
    forall i, j :: 0 <= i < j < |s| ==> key(s[i]) != key(s[j])
  }

  /** No element of `s` has the key `k`. */
  ghost predicate KeyAbsent<T, K>(s: seq<T>, key: T -> K, k: K) {
    forall i :: 0 <= i < |s| ==> key(s[i]) != k
  }

  lemma AppendKeepsDistinct<T, K>(s: seq<T>, x: T, key: T -> K)
    requires DistinctBy(s, key) && KeyAbsent(s, key, key(x))
    ensures DistinctBy(s + [x], key)
  {
  }

  /** A filter of a collection with distinct keys has distinct keys. */
  lemma {:induction false} FilterKeepsDistinct<T, K>(s: seq<T>, keep: T -> bool, key: T -> K)
    requires DistinctBy(s, key)
    ensures DistinctBy(Filter(s, keep), key)
  {
    if |s| > 0 {
      FilterKeepsDistinct(s[1..], keep, key);
      var rest := Filter(s[1..], keep);
      forall j | 0 <= j < |rest| ensures key(s[0]) != key(rest[j]) {
        var k :| 0 <= k < |s[1..]| && s[1..][k] == rest[j];
        assert s[k + 1] == rest[j];
      }
    }
  }

  /** The index of the first element of `s` that matches `p`, or -1. */
  function FirstMatch<T>(s: seq<T>, p: T -> bool): (k: int)
    ensures -1 <= k < |s|
    ensures k == -1 <==> forall i :: 0 <= i < |s| ==> !p(s[i])
    ensures k >= 0 ==> p(s[k]) && forall j :: 0 <= j < k ==> !p(s[j])
  {
    if |s| == 0 then -1
    else if p(s[0]) then 0
    else
      var k := FirstMatch(s[1..], p);
      if k == -1 then -1 else k + 1
  }

  /** `findOneAndRemove`: the collection without its first element that
      matches `p`, the others kept in order; a collection without a match is
      left as it is. */
  function RemoveFirst<T>(s: seq<T>, p: T -> bool): (r: seq<T>)
    ensures (forall i :: 0 <= i < |s| ==> !p(s[i])) ==> r == s
    ensures (exists i :: 0 <= i < |s| && p(s[i])) ==>
              var k := FirstMatch(s, p);
              && p(s[k]) && (forall j :: 0 <= j < k ==> !p(s[j]))
              && |r| == |s| - 1
              && forall i {:trigger r[i]} :: 0 <= i < |r| ==> r[i] == (if i < k then s[i] else s[i + 1])
    ensures forall i :: 0 <= i < |r| ==> r[i] in s
  {
    var k := FirstMatch(s, p);
    if k < 0 then s
    else
      var r := s[..k] + s[k + 1..];
      assert forall i :: 0 <= i < |r| ==> r[i] == (if i < k then s[i] else s[i + 1]);
      r
  }

  /** Removing an element keeps the keys distinct. */
  lemma RemoveFirstKeepsDistinct<T, K>(s: seq<T>, p: T -> bool, key: T -> K)
    requires DistinctBy(s, key)
    ensures DistinctBy(RemoveFirst(s, p), key)
  {
    var r := RemoveFirst(s, p);
    var k := FirstMatch(s, p);
    if k >= 0 {
      forall i, j | 0 <= i < j < |r| ensures key(r[i]) != key(r[j]) {
        var i' := if i < k then i else i + 1;
        var j' := if j < k then j else j + 1;
        assert r[i] == s[i'] && r[j] == s[j'] && i' < j';
      }
    }
  }

  /** When at most one element matches, `findOneAndRemove` leaves none that
      match and keeps every other element. */
  lemma RemoveFirstOfUnique<T>(s: seq<T>, p: T -> bool)
    requires forall i, j :: 0 <= i < j < |s| && p(s[i]) ==> !p(s[j])
    ensures forall i :: 0 <= i < |RemoveFirst(s, p)| ==> !p(RemoveFirst(s, p)[i])
    ensures forall i :: 0 <= i < |s| && !p(s[i]) ==> s[i] in RemoveFirst(s, p)
  {
    var r := RemoveFirst(s, p);
    var k := FirstMatch(s, p);
    if k >= 0 {
      forall i | 0 <= i < |r| ensures !p(r[i]) {
        if i >= k {
          assert r[i] == s[i + 1];
        }
      }
      forall i | 0 <= i < |s| && !p(s[i]) ensures s[i] in r {
        if i < k {
          assert r[i] == s[i];
        } else {
          assert r[i - 1] == s[i];
        }
      }
    }
  }

  // ---------------------------------------------------------------------------
  // Lookups: findOne / findById
  //
  // Each lookup is `Js.Find` with its own key. They are named so that each
  // query has one definition: two lambdas written out separately are
  // different values to the verifier, so a contract that mentions a lookup
  // and the handler that makes it would not match.

  function FindUserByEmail(users: seq<User>, email: string): (r: Option<User>)
    ensures r.None? <==> forall i :: 0 <= i < |users| ==> users[i].email != email
    ensures r.Some? ==> r.value in users && r.value.email == email
  {
    Find(users, (u: User) => u.email == email)
  }

  function FindUserById(users: seq<User>, id: UserId): (r: Option<User>)
    ensures r.None? <==> forall i :: 0 <= i < |users| ==> users[i].id != id
    ensures r.Some? ==> r.value in users && r.value.id == id
  {
    Find(users, (u: User) => u.id == id)
  }

  function FindProfileOf(profiles: seq<Profile>, user: UserId): (r: Option<Profile>)
    ensures r.None? <==> forall i :: 0 <= i < |profiles| ==> profiles[i].user != user
    ensures r.Some? ==> r.value in profiles && r.value.user == user
  {
    Find(profiles, (p: Profile) => p.user == user)
  }

  function FindPostById(posts: seq<Post>, id: PostId): (r: Option<Post>)
    ensures r.None? <==> forall i :: 0 <= i < |posts| ==> posts[i].id != id
    ensures r.Some? ==> r.value in posts && r.value.id == id
  {
    Find(posts, (p: Post) => p.id == id)
  }

  /** With distinct emails, the user found by email is the one holding it. */
  lemma FindUserByEmailUnique(users: seq<User>, i: int)
    requires DistinctBy(users, EmailOf) && 0 <= i < |users|
    ensures FindUserByEmail(users, users[i].email) == Some(users[i])
  {
    var r := FindUserByEmail(users, users[i].email);
    var k :| 0 <= k < |users| && users[k] == r.value;
    assert EmailOf(users[k]) == EmailOf(users[i]);
  }

  // ---------------------------------------------------------------------------
  // The store

  /** The three collections. The store keeps emails and user ids unique, at
      most one profile per user and post ids unique. */
  class Database {
    var users: seq<User>
    var profiles: seq<Profile>
    var posts: seq<Post>

    ghost predicate Valid()
      reads this
    {
      && DistinctBy(users, EmailOf)
      && DistinctBy(users, IdOf)
      && DistinctBy(profiles, OwnerOf)
      && DistinctBy(posts, PostIdOf)
    }

    constructor ()
      ensures Valid()
      ensures users == [] && profiles == [] && posts == []
    {
      users, profiles, posts := [], [], [];
    }
  }
}
