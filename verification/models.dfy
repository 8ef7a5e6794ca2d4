/**
 * The blog's persistent state: users, groups, posts, comments and follow rows,
 * with the field rules, the string forms and the on-delete policies of the
 * ORM models (the posts application's models and the shared created-model base).
 */
module Models {
  import opened Options

  type UserName = string
  type Slug = string
  type PostId = nat
  type CommentId = nat

  /** A group's title is a CharField of at most this many characters. */
  const GroupTitleMaxLength: nat := 200
  /** The string form of a post or a comment keeps this many characters of its text. */
  const StrLength: nat := 15

  /** A community; the store keys groups by their unique slug. */
  datatype Group = Group(title: string, description: string)

  /**
   * `author` and `created` are the two fields of the created-model base:
   * a required author and a timestamp stamped when the row is inserted.
   * `group` is nullable; `image` is the stored upload path, if any.
   */
  datatype Post = Post(author: UserName, created: nat, text: string,
                       group: Option<Slug>, image: Option<string>)

  datatype Comment = Comment(author: UserName, created: nat, post: PostId, text: string)

  /** A subscription of `user` to `author`. */
  datatype Follow = Follow(user: UserName, author: UserName)

  /**
   * The database. Users are identified by their unique username; groups by
   * their unique slug (so a slug lookup is a map lookup). `follows` holds the
   * rows of the follow table in insertion order: no uniqueness constraint is
   * declared on the pair, so the same pair may occur several times.
   * `nextPost` and `nextComment` are the auto-increment counters, and `clock`
   * is the time source that stamps `created`; it only moves forward.
   */
  datatype Store = Store(
    users: set<UserName>,
    groups: map<Slug, Group>,
    posts: map<PostId, Post>,
    comments: map<CommentId, Comment>,
    follows: seq<Follow>,
    nextPost: PostId,
    nextComment: CommentId,
    clock: nat)

  /** The first `k` characters of `text`, or all of it when it is shorter. */
  function Truncate(text: string, k: nat): (r: string)
    ensures r <= text
    ensures |r| == if |text| <= k then |text| else k
  {
    if |text| <= k then text else text[..k]
  }

  /** String form of a post. */
  function PostStr(p: Post): (r: string)
    ensures r <= p.text && |r| <= StrLength
    ensures |p.text| <= StrLength ==> r == p.text
    ensures |p.text| > StrLength ==> |r| == StrLength
  {
    Truncate(p.text, StrLength)
  }

  /** String form of a comment. */
  function CommentStr(c: Comment): (r: string)
    ensures r <= c.text && |r| <= StrLength
    ensures |c.text| <= StrLength ==> r == c.text
    ensures |c.text| > StrLength ==> |r| == StrLength
  {
    Truncate(c.text, StrLength)
  }

  /** String form of a group: its title. */
  function GroupStr(g: Group): string
  {
    g.title
  }

  /** String form of a follow row. */
  function FollowStr(f: Follow): string
  {
    "Подписка " + f.user + " на " + f.author
  }

  /** How many rows of the follow table hold the pair `f`. */
  function Count(rows: seq<Follow>, f: Follow): nat
  {
    multiset(rows)[f]
  }

  /** The rows of `rows` that `drop` does not select, in their original order. */
  function Keep(rows: seq<Follow>, drop: Follow -> bool): seq<Follow>
  {
    if |rows| == 0 then []
    else if drop(rows[0]) then Keep(rows[1..], drop)
    else [rows[0]] + Keep(rows[1..], drop)
  }

  /**
   * A filtered delete: each selected pair ends with no row, every other pair
   * keeps its number of rows, and every row left was there before.
   */
  lemma {:induction false} KeepCounts(rows: seq<Follow>, drop: Follow -> bool)
    ensures forall f :: multiset(Keep(rows, drop))[f] == if drop(f) then 0 else multiset(rows)[f]
    ensures forall k :: 0 <= k < |Keep(rows, drop)| ==>
              Keep(rows, drop)[k] in rows && !drop(Keep(rows, drop)[k])
  {
    if |rows| > 0 {
      KeepCounts(rows[1..], drop);
      assert rows == [rows[0]] + rows[1..];
    }
  }

  /** The referential integrity the database's foreign keys and counters keep. */
  ghost predicate PostOk(s: Store, id: PostId)
    requires id in s.posts
  {
    var p := s.posts[id];
    && id < s.nextPost
    && p.created < s.clock
    && p.author in s.users
    && (p.group.Some? ==> p.group.value in s.groups)
  }

  ghost predicate CommentOk(s: Store, id: CommentId)
    requires id in s.comments
  {
    var c := s.comments[id];
    && id < s.nextComment
    && c.created < s.clock
    && c.author in s.users
    && c.post in s.posts
  }

  ghost predicate GroupTitlesFit(s: Store)
  {
    forall slug :: slug in s.groups ==> |s.groups[slug].title| <= GroupTitleMaxLength
  }

  ghost predicate PostsResolve(s: Store)
  {
    forall id :: id in s.posts ==> PostOk(s, id)
  }

  /** A post inserted later (larger id) carries a later stamp. */
  ghost predicate PostsChronological(s: Store)
  {
    forall i, j :: i in s.posts && j in s.posts && i < j ==> s.posts[i].created < s.posts[j].created
  }

  ghost predicate CommentsResolve(s: Store)
  {
    forall id :: id in s.comments ==> CommentOk(s, id)
  }

  ghost predicate CommentsChronological(s: Store)
  {
    forall i, j :: i in s.comments && j in s.comments && i < j ==>
      s.comments[i].created < s.comments[j].created
  }

  ghost predicate FollowsResolve(s: Store)
  {
    forall k :: 0 <= k < |s.follows| ==> s.follows[k].user in s.users && s.follows[k].author in s.users
  }

  /**
   * The state the database guarantees: every foreign key resolves, every id is
   * below its counter, every stamp is in the past, group slugs and titles pass
   * their field checks, and rows inserted later carry later stamps.
   */
  ghost predicate Valid(s: Store)
  {
    && GroupSlugsFit(s)
    && GroupTitlesFit(s)
    && PostsResolve(s)
    && PostsChronological(s)
    && CommentsResolve(s)
    && CommentsChronological(s)
    && FollowsResolve(s)
  }

  /**
   * What the follow handlers maintain but the schema does not enforce: each
   * pair occurs at most once, and nobody follows themselves.
   */
  ghost predicate FollowsWellFormed(s: Store)
  {
    && (forall f :: Count(s.follows, f) <= 1)
    && (forall k :: 0 <= k < |s.follows| ==> s.follows[k].user != s.follows[k].author)
  }

  /** A slug field's value holds at most this many characters. */
  const SlugMaxLength: nat := 50

  /** The characters a slug may hold: ASCII letters, digits, hyphens and underscores. */
  predicate SlugChar(c: char)
  {
    ('a' <= c <= 'z') || ('A' <= c <= 'Z') || ('0' <= c <= '9') || c == '-' || c == '_'
  }

  /** A slug that passes the slug validator: nonempty and made of slug characters only. */
  predicate SlugWellFormed(slug: Slug)
  {
    |slug| > 0 && forall i :: 0 <= i < |slug| ==> SlugChar(slug[i])
  }

  /** Every stored slug passed the slug field's validation. */
  ghost predicate GroupSlugsFit(s: Store)
  {
    forall slug :: slug in s.groups ==> |slug| <= SlugMaxLength && SlugWellFormed(slug)
  }

  datatype GroupError = SlugTooLong | SlugMalformed | TitleTooLong | TitleBlank | DescriptionBlank | DuplicateSlug

  /** A validated insert either stores the group or reports every error it found. */
  datatype GroupResult = Created(store: Store) | Rejected(errors: set<GroupError>)

  /**
   * Inserting a validated group. The field checks come first: the slug's
   * length and characters, the title's length, and the required title and
   * description, which may not be empty. Uniqueness is checked only
   * for a slug that passed its own field checks, and every error found is
   * reported together.
   */
  function InsertGroup(s: Store, slug: Slug, g: Group): (r: GroupResult)
    ensures r.Created? <==>
              |slug| <= SlugMaxLength && SlugWellFormed(slug) &&
              |g.title| <= GroupTitleMaxLength && g.title != "" && g.description != "" &&
              slug !in s.groups
    ensures r.Rejected? ==> r.errors != {}
    ensures r.Rejected? ==> (SlugTooLong in r.errors <==> |slug| > SlugMaxLength)
    ensures r.Rejected? ==> (SlugMalformed in r.errors <==> !SlugWellFormed(slug))
    ensures r.Rejected? ==> (TitleTooLong in r.errors <==> |g.title| > GroupTitleMaxLength)
    ensures r.Rejected? ==> (TitleBlank in r.errors <==> g.title == "")
    ensures r.Rejected? ==> (DescriptionBlank in r.errors <==> g.description == "")
    ensures r.Rejected? ==>
              (DuplicateSlug in r.errors <==>
                 |slug| <= SlugMaxLength && SlugWellFormed(slug) && slug in s.groups)
    ensures r.Created? ==> r.store.groups.Keys == s.groups.Keys + {slug} && r.store.groups[slug] == g
    ensures r.Created? ==> forall t :: t in s.groups ==> r.store.groups[t] == s.groups[t]
    ensures r.Created? ==> r.store.(groups := s.groups) == s
  {
    var slugOk := |slug| <= SlugMaxLength && SlugWellFormed(slug);
    var errors :=
      (if |slug| > SlugMaxLength then {SlugTooLong} else {}) +
      (if !SlugWellFormed(slug) then {SlugMalformed} else {}) +
      (if |g.title| > GroupTitleMaxLength then {TitleTooLong} else {}) +
      (if g.title == "" then {TitleBlank} else {}) +
      (if g.description == "" then {DescriptionBlank} else {}) +
      (if slugOk && slug in s.groups then {DuplicateSlug} else {});
    if errors == {} then Created(s.(groups := s.groups[slug := g]))
    else
      assert SlugTooLong in errors || SlugMalformed in errors || TitleTooLong in errors ||
             TitleBlank in errors || DescriptionBlank in errors || DuplicateSlug in errors;
      Rejected(errors)
  }

  /**
   * Deleting a group: the group disappears, every post survives, and the posts
   * that pointed at it lose their group (SET_NULL).
   */
  function DeleteGroup(s: Store, slug: Slug): (r: Store)
    ensures slug !in r.groups
    ensures forall t :: t in s.groups && t != slug ==> t in r.groups && r.groups[t] == s.groups[t]
    ensures r.groups.Keys <= s.groups.Keys
    ensures r.posts.Keys == s.posts.Keys
    ensures forall id :: id in r.posts ==> r.posts[id].group != Some(slug)
    ensures forall id :: id in s.posts && s.posts[id].group == Some(slug) ==> r.posts[id].group == None
    ensures forall id :: id in s.posts && s.posts[id].group != Some(slug) ==> r.posts[id] == s.posts[id]
    ensures forall id :: id in s.posts ==> r.posts[id] == s.posts[id].(group := r.posts[id].group)
    ensures r.(groups := s.groups, posts := s.posts) == s
  {
    var posts := map id | id in s.posts ::
      if s.posts[id].group == Some(slug) then s.posts[id].(group := None) else s.posts[id];
    s.(groups := s.groups - {slug}, posts := posts)
  }

  /**
   * Deleting a post: its comments go with it (CASCADE); no other comment and
   * no other post is touched.
   */
  function DeletePost(s: Store, id: PostId): (r: Store)
    ensures id !in r.posts
    ensures r.posts.Keys == s.posts.Keys - {id}
    ensures forall i :: i in r.posts ==> r.posts[i] == s.posts[i]
    ensures forall c :: c in r.comments ==> r.comments[c].post != id
    ensures forall c :: c in s.comments ==>
              (c in r.comments <==> s.comments[c].post != id)
    ensures forall c :: c in r.comments ==> c in s.comments && r.comments[c] == s.comments[c]
    ensures r.(posts := s.posts, comments := s.comments) == s
  {
    var comments := map c | c in s.comments && s.comments[c].post != id :: s.comments[c];
    s.(posts := s.posts - {id}, comments := comments)
  }

  /** The ids of the posts `u` authored. */
  function PostsBy(s: Store, u: UserName): set<PostId>
  {
    set id | id in s.posts && s.posts[id].author == u
  }

  /**
   * Deleting a user: CASCADE removes the posts and comments they authored, the
   * comments hanging off those posts, and every follow row in which they are
   * the follower or the author. Everything else stays.
   */
  function DeleteUser(s: Store, u: UserName): (r: Store)
    ensures r.users == s.users - {u}
    ensures forall id :: id in s.posts ==> (id in r.posts <==> s.posts[id].author != u)
    ensures forall id :: id in r.posts ==> id in s.posts && r.posts[id] == s.posts[id]
    ensures forall c :: c in s.comments ==>
              (c in r.comments <==>
                 s.comments[c].author != u && s.comments[c].post !in PostsBy(s, u))
    ensures forall c :: c in r.comments ==> c in s.comments && r.comments[c] == s.comments[c]
    ensures forall f :: Count(r.follows, f) ==
              if f.user == u || f.author == u then 0 else Count(s.follows, f)
    ensures forall k :: 0 <= k < |r.follows| ==> r.follows[k] in s.follows
    ensures r.(users := s.users, posts := s.posts, comments := s.comments, follows := s.follows) == s
  {
    var gone := PostsBy(s, u);
    var drop := (f: Follow) => f.user == u || f.author == u;
    KeepCounts(s.follows, drop);
    var posts := map id | id in s.posts && s.posts[id].author != u :: s.posts[id];
    var comments := map c | c in s.comments && s.comments[c].author != u && s.comments[c].post !in gone
      :: s.comments[c];
    s.(users := s.users - {u}, posts := posts, comments := comments,
       follows := Keep(s.follows, drop))
  }
}
