/**
 * The request handlers of the posts application, each a pure transition from
 * a store, a viewer and the request's parameters to a new store and a response.
 *
 * The viewer is the session's user, `None` for an anonymous visitor. Form
 * validation is not modelled: a form arrives with its verdict (`valid`) and
 * its cleaned values. A GET request carries an unbound form, which is never
 * valid.
 */
module Views {
  import opened Options
  import opened Models
  import opened Paginator
  import opened Queries

  const IndexTitle: string := "Это главная страница проекта Yatube"
  const GroupTitlePrefix: string := "Записи сообщества "
  const ProfileTitlePrefix: string := "Профайл пользователя "
  const DetailTitlePrefix: string := "Пост "
  const CreateTitle: string := "Новый пост"
  const EditTitle: string := "Редактировать пост"
  /** Characters of a post's text shown in its detail page's title. */
  const DetailTitleLength: nat := 30

  type Viewer = Option<UserName>

  /** Where a redirect points: a user's profile or a post's detail page. */
  datatype Target = ProfileOf(username: UserName) | DetailOf(postId: PostId)

  /** The context each template is rendered with (presentation-only entries omitted). */
  datatype Context =
    | IndexContext(title: string, page: Page<PostId>)
    | GroupContext(title: string, slug: Slug, group: Group, page: Page<PostId>)
    | ProfileContext(title: string, page: Page<PostId>, author: UserName, postCount: nat, following: bool)
    | DetailContext(title: string, postId: PostId, post: Post, postCount: nat, comments: seq<CommentId>)
    | CreateContext(title: string)
    | EditContext(title: string, isEdit: bool, postId: PostId)
    | FollowContext(page: Page<PostId>)

  /**
   * `LoginRedirect(next)` is the redirect to the login page that carries the
   * path of the refused request; `ServerFault` is an unhandled exception.
   */
  datatype Response =
    | Render(context: Context)
    | Redirect(target: Target)
    | NotFound
    | LoginRedirect(next: string)
    | ServerFault

  datatype Reply = Reply(store: Store, response: Response)

  /** A submitted post form: its verdict and its cleaned text, group and image path. */
  datatype PostForm = PostForm(valid: bool, text: string, group: Option<Slug>, image: Option<string>)

  /** A submitted comment form: its verdict and its cleaned text. */
  datatype CommentForm = CommentForm(valid: bool, text: string)

  /** One request to one of the handlers, with its path and query parameters. */
  datatype Request =
    | IndexRequest(page: Option<int>)
    | GroupRequest(slug: Slug, page: Option<int>)
    | ProfileRequest(username: UserName, page: Option<int>)
    | DetailRequest(postId: PostId)
    | CreateRequest(postForm: PostForm)
    | EditRequest(postId: PostId, postForm: PostForm)
    | CommentRequest(postId: PostId, commentForm: CommentForm)
    | FollowIndexRequest(page: Option<int>)
    | FollowRequest(username: UserName)
    | UnfollowRequest(username: UserName)

  /** The login page's address for a refused request to `next`. */
  function LoginUrl(next: string): string
  {
    "/auth/login/?next=" + next
  }

  function DigitChar(d: nat): (c: char)
    requires d < 10
    ensures '0' <= c <= '9'
  {
    "0123456789"[d]
  }

  /** Decimal form of `n`, as a post id appears in a path. */
  function NatToString(n: nat): (r: string)
    ensures |r| >= 1
    ensures forall i :: 0 <= i < |r| ==> '0' <= r[i] <= '9'
    ensures n >= 1 ==> r[0] != '0'
  {
    if n < 10 then [DigitChar(n)] else NatToString(n / 10) + [DigitChar(n % 10)]
  }

  /** The value of a string of decimal digits. */
  function DigitsValue(r: string): nat
    requires forall i :: 0 <= i < |r| ==> '0' <= r[i] <= '9'
  {
    if |r| == 0 then 0
    else DigitsValue(r[..|r| - 1]) * 10 + (r[|r| - 1] as int - '0' as int)
  }

  /** The path of a request, as the login redirect preserves it. */
  function Path(req: Request): string
  {
    match req
    case IndexRequest(_) => "/"
    case GroupRequest(slug, _) => "/group/" + slug + "/"
    case ProfileRequest(u, _) => "/profile/" + u + "/"
    case DetailRequest(id) => "/posts/" + NatToString(id) + "/"
    case CreateRequest(_) => "/create/"
    case EditRequest(id, _) => "/posts/" + NatToString(id) + "/edit/"
    case CommentRequest(id, _) => "/posts/" + NatToString(id) + "/comment/"
    case FollowIndexRequest(_) => "/follow/"
    case FollowRequest(u) => "/profile/" + u + "/follow/"
    case UnfollowRequest(u) => "/profile/" + u + "/unfollow/"
  }

  /** The handlers behind the login-required guard. */
  predicate LoginRequired(req: Request)
  {
    req.CreateRequest? || req.EditRequest? || req.CommentRequest? ||
    req.FollowIndexRequest? || req.FollowRequest? || req.UnfollowRequest?
  }

  /** The home page: every post, newest first, one page of it. */
  function Index(s: Store, viewer: Viewer, page: Option<int>): (r: Reply)
    ensures r.store == s
    ensures r.response.Render? && r.response.context.IndexContext?
    ensures r.response.context.title == IndexTitle
    ensures |r.response.context.page.items| <= PostsOnPage
    ensures forall i :: 0 <= i < |r.response.context.page.items| ==>
              r.response.context.page.items[i] in s.posts
  {
    Reply(s, Render(IndexContext(IndexTitle, Paginate(PostList(s, AllPosts), page))))
  }

  /** A group's page: that group's posts only, or NotFound for an unknown slug. */
  function GroupPostsPage(s: Store, viewer: Viewer, slug: Slug, page: Option<int>): (r: Reply)
    ensures r.store == s
    ensures r.response.NotFound? <==> slug !in s.groups
    ensures slug in s.groups ==> r.response.Render? && r.response.context.GroupContext?
    ensures slug in s.groups ==> r.response.context.group == s.groups[slug]
    ensures slug in s.groups ==> r.response.context.title == GroupTitlePrefix + s.groups[slug].title
    ensures slug in s.groups ==>
              forall i :: 0 <= i < |r.response.context.page.items| ==>
                var id := r.response.context.page.items[i];
                id in s.posts && s.posts[id].group == Some(slug)
  {
    if slug !in s.groups then Reply(s, NotFound)
    else
      var g := s.groups[slug];
      Reply(s, Render(GroupContext(GroupTitlePrefix + g.title, slug, g,
                                   Paginate(PostList(s, GroupPosts(slug)), page))))
  }

  /** Whether `viewer` follows `author`: false for an anonymous viewer. */
  function Following(s: Store, viewer: Viewer, author: UserName): (b: bool)
    ensures viewer.None? ==> !b
    ensures viewer.Some? ==> (b <==> exists k :: 0 <= k < |s.follows| && s.follows[k] == Follow(viewer.value, author))
  {
    viewer.Some? && Count(s.follows, Follow(viewer.value, author)) > 0
  }

  /**
   * A user's profile: their posts, their post count, and whether the viewer
   * follows them; NotFound for an unknown username.
   */
  function Profile(s: Store, viewer: Viewer, username: UserName, page: Option<int>): (r: Reply)
    ensures r.store == s
    ensures r.response.NotFound? <==> username !in s.users
    ensures username in s.users ==> r.response.Render? && r.response.context.ProfileContext?
    ensures username in s.users ==> r.response.context.author == username
    ensures username in s.users ==> r.response.context.title == ProfileTitlePrefix + username
    ensures username in s.users ==>
              r.response.context.following == Following(s, viewer, username)
    ensures username in s.users ==>
              r.response.context.postCount == |PostList(s, AuthorPosts(username))|
    ensures username in s.users ==>
              forall i :: 0 <= i < |r.response.context.page.items| ==>
                var id := r.response.context.page.items[i];
                id in s.posts && s.posts[id].author == username
  {
    if username !in s.users then Reply(s, NotFound)
    else
      var posts := PostList(s, AuthorPosts(username));
      Reply(s, Render(ProfileContext(ProfileTitlePrefix + username, Paginate(posts, page), username,
                                     |posts|, Following(s, viewer, username))))
  }

  /** A post's page: the post, its author's post count and its comments, newest first. */
  function PostDetail(s: Store, viewer: Viewer, id: PostId): (r: Reply)
    ensures r.store == s
    ensures r.response.NotFound? <==> id !in s.posts
    ensures id in s.posts ==> r.response.Render? && r.response.context.DetailContext?
    ensures id in s.posts ==> r.response.context.post == s.posts[id]
    ensures id in s.posts ==>
              r.response.context.title == DetailTitlePrefix + Truncate(s.posts[id].text, DetailTitleLength)
    ensures id in s.posts ==>
              r.response.context.postCount == |PostList(s, AuthorPosts(s.posts[id].author))|
    ensures id in s.posts ==>
              forall i :: 0 <= i < |r.response.context.comments| ==>
                var c := r.response.context.comments[i];
                c in s.comments && s.comments[c].post == id
    ensures id in s.posts ==> r.response.context.comments == CommentList(s, id)
  {
    if id !in s.posts then Reply(s, NotFound)
    else
      var p := s.posts[id];
      Reply(s, Render(DetailContext(DetailTitlePrefix + Truncate(p.text, DetailTitleLength), id, p,
                                    |PostList(s, AuthorPosts(p.author))|, CommentList(s, id))))
  }

  /** The store after `author` saves a new post from `form`: the next id, stamped now. */
  function InsertPost(s: Store, author: UserName, form: PostForm): (r: Store)
    ensures s.nextPost in r.posts && r.posts.Keys == s.posts.Keys + {s.nextPost}
    ensures r.posts[s.nextPost] == Post(author, s.clock, form.text, form.group, form.image)
    ensures forall id :: id in s.posts && id != s.nextPost ==> r.posts[id] == s.posts[id]
    ensures r.nextPost > s.nextPost && r.clock > s.clock
    ensures r.(posts := s.posts, nextPost := s.nextPost, clock := s.clock) == s
  {
    var p := Post(author, s.clock, form.text, form.group, form.image);
    s.(posts := s.posts[s.nextPost := p], nextPost := s.nextPost + 1, clock := s.clock + 1)
  }

  /**
   * Creating a post: a valid form adds one post by the viewer and redirects to
   * their profile; an invalid one changes nothing and shows the form again.
   */
  function PostCreate(s: Store, viewer: Viewer, form: PostForm): (r: Reply)
    ensures viewer.None? ==> r == Reply(s, LoginRedirect(Path(CreateRequest(form))))
    ensures viewer.Some? && !form.valid ==> r == Reply(s, Render(CreateContext(CreateTitle)))
    ensures viewer.Some? && form.valid ==> r.response == Redirect(ProfileOf(viewer.value))
    ensures viewer.Some? && form.valid ==> r.store == InsertPost(s, viewer.value, form)
  {
    if viewer.None? then Reply(s, LoginRedirect(Path(CreateRequest(form))))
    else if form.valid then Reply(InsertPost(s, viewer.value, form), Redirect(ProfileOf(viewer.value)))
    else Reply(s, Render(CreateContext(CreateTitle)))
  }

  /**
   * Saving an edited post. The author is assigned the editing user again;
   * `created` is not written on an update.
   */
  function SaveEdit(p: Post, editor: UserName, form: PostForm): (q: Post)
    ensures q.created == p.created
    ensures q.text == form.text && q.group == form.group && q.image == form.image
    ensures q.author == editor
  {
    p.(author := editor, text := form.text, group := form.group, image := form.image)
  }

  /**
   * Editing a post: only its author may change it; anyone else is sent to the
   * post's page with nothing changed.
   */
  function PostEdit(s: Store, viewer: Viewer, id: PostId, form: PostForm): (r: Reply)
    ensures viewer.None? ==> r == Reply(s, LoginRedirect(Path(EditRequest(id, form))))
    ensures viewer.Some? && id !in s.posts ==> r == Reply(s, NotFound)
    ensures viewer.Some? && id in s.posts && viewer.value != s.posts[id].author ==>
              r == Reply(s, Redirect(DetailOf(id)))
    ensures viewer.Some? && id in s.posts && viewer.value == s.posts[id].author && !form.valid ==>
              r == Reply(s, Render(EditContext(EditTitle, true, id)))
    ensures viewer.Some? && id in s.posts && viewer.value == s.posts[id].author && form.valid ==>
              && r.response == Redirect(DetailOf(id))
              && r.store.posts.Keys == s.posts.Keys
              && r.store.posts[id].author == s.posts[id].author
              && r.store.posts[id].created == s.posts[id].created
              && r.store.posts[id].text == form.text
              && r.store.posts[id].group == form.group
              && r.store.posts[id].image == form.image
              && (forall j :: j in s.posts && j != id ==> r.store.posts[j] == s.posts[j])
              && r.store.(posts := s.posts) == s
  {
    if viewer.None? then Reply(s, LoginRedirect(Path(EditRequest(id, form))))
    else if id !in s.posts then Reply(s, NotFound)
    else if viewer.value != s.posts[id].author then Reply(s, Redirect(DetailOf(id)))
    else if form.valid then
      Reply(s.(posts := s.posts[id := SaveEdit(s.posts[id], viewer.value, form)]), Redirect(DetailOf(id)))
    else Reply(s, Render(EditContext(EditTitle, true, id)))
  }

  /** The store after `author` saves a comment on post `id`: the next id, stamped now. */
  function InsertComment(s: Store, author: UserName, id: PostId, form: CommentForm): (r: Store)
    ensures s.nextComment in r.comments && r.comments.Keys == s.comments.Keys + {s.nextComment}
    ensures r.comments[s.nextComment] == Comment(author, s.clock, id, form.text)
    ensures forall c :: c in s.comments && c != s.nextComment ==> r.comments[c] == s.comments[c]
    ensures r.nextComment > s.nextComment && r.clock > s.clock
    ensures r.(comments := s.comments, nextComment := s.nextComment, clock := s.clock) == s
  {
    var c := Comment(author, s.clock, id, form.text);
    s.(comments := s.comments[s.nextComment := c], nextComment := s.nextComment + 1, clock := s.clock + 1)
  }

  /**
   * Commenting on a post: a valid form adds one comment; valid or not, the
   * viewer is sent back to the post's page.
   */
  function AddComment(s: Store, viewer: Viewer, id: PostId, form: CommentForm): (r: Reply)
    ensures viewer.None? ==> r == Reply(s, LoginRedirect(Path(CommentRequest(id, form))))
    ensures viewer.Some? && id !in s.posts ==> r == Reply(s, NotFound)
    ensures viewer.Some? && id in s.posts ==> r.response == Redirect(DetailOf(id))
    ensures viewer.Some? && id in s.posts && !form.valid ==> r.store == s
    ensures viewer.Some? && id in s.posts && form.valid ==>
              r.store == InsertComment(s, viewer.value, id, form)
  {
    if viewer.None? then Reply(s, LoginRedirect(Path(CommentRequest(id, form))))
    else if id !in s.posts then Reply(s, NotFound)
    else if form.valid then Reply(InsertComment(s, viewer.value, id, form), Redirect(DetailOf(id)))
    else Reply(s, Redirect(DetailOf(id)))
  }

  /** The viewer's feed: posts by the authors they follow, newest first. */
  function FollowIndex(s: Store, viewer: Viewer, page: Option<int>): (r: Reply)
    ensures r.store == s
    ensures viewer.None? ==> r.response == LoginRedirect(Path(FollowIndexRequest(page)))
    ensures viewer.Some? ==> r.response.Render? && r.response.context.FollowContext?
    ensures viewer.Some? ==>
              forall i :: 0 <= i < |r.response.context.page.items| ==>
                var id := r.response.context.page.items[i];
                id in s.posts && Follow(viewer.value, s.posts[id].author) in s.follows
  {
    if viewer.None? then Reply(s, LoginRedirect(Path(FollowIndexRequest(page))))
    else Reply(s, Render(FollowContext(Paginate(PostList(s, FollowedBy(viewer.value)), page))))
  }

  /**
   * Following an author: a get-or-create of the (viewer, author) row, skipped
   * for a self-follow. The get finds more than one row only if duplicates were
   * already there, and then fails with an unhandled exception.
   */
  function ProfileFollow(s: Store, viewer: Viewer, username: UserName): (r: Reply)
    ensures viewer.None? ==> r == Reply(s, LoginRedirect(Path(FollowRequest(username))))
    ensures viewer.Some? && username !in s.users ==> r == Reply(s, NotFound)
    ensures viewer.Some? && username in s.users && viewer.value == username ==>
              r == Reply(s, Redirect(ProfileOf(username)))
    ensures viewer.Some? && username in s.users && viewer.value != username ==>
              var pair := Follow(viewer.value, username);
              && (Count(s.follows, pair) <= 1 ==>
                    r.response == Redirect(ProfileOf(username)) && Count(r.store.follows, pair) == 1)
              && (Count(s.follows, pair) > 1 ==> r == Reply(s, ServerFault))
              && (forall f :: f != pair ==> Count(r.store.follows, f) == Count(s.follows, f))
              && r.store.(follows := s.follows) == s
  {
    if viewer.None? then Reply(s, LoginRedirect(Path(FollowRequest(username))))
    else if username !in s.users then Reply(s, NotFound)
    else if viewer.value == username then Reply(s, Redirect(ProfileOf(username)))
    else
      var pair := Follow(viewer.value, username);
      var n := Count(s.follows, pair);
      if n == 0 then Reply(s.(follows := s.follows + [pair]), Redirect(ProfileOf(username)))
      else if n == 1 then Reply(s, Redirect(ProfileOf(username)))
      else Reply(s, ServerFault)
  }

  /** Unfollowing an author: every (viewer, author) row is deleted; none is no error. */
  function ProfileUnfollow(s: Store, viewer: Viewer, username: UserName): (r: Reply)
    ensures viewer.None? ==> r == Reply(s, LoginRedirect(Path(UnfollowRequest(username))))
    ensures viewer.Some? && username !in s.users ==> r == Reply(s, NotFound)
    ensures viewer.Some? && username in s.users ==>
              && r.response == Redirect(ProfileOf(username))
              && Count(r.store.follows, Follow(viewer.value, username)) == 0
              && (forall f :: f != Follow(viewer.value, username) ==>
                    Count(r.store.follows, f) == Count(s.follows, f))
              && (forall k :: 0 <= k < |r.store.follows| ==> r.store.follows[k] in s.follows)
              && r.store.(follows := s.follows) == s
  {
    if viewer.None? then Reply(s, LoginRedirect(Path(UnfollowRequest(username))))
    else if username !in s.users then Reply(s, NotFound)
    else
      var pair := Follow(viewer.value, username);
      var drop := (f: Follow) => f == pair;
      KeepCounts(s.follows, drop);
      Reply(s.(follows := Keep(s.follows, drop)), Redirect(ProfileOf(username)))
  }

  /** Routes a request to its handler. */
  function Handle(s: Store, viewer: Viewer, req: Request): Reply
  {
    match req
    case IndexRequest(page) => Index(s, viewer, page)
    case GroupRequest(slug, page) => GroupPostsPage(s, viewer, slug, page)
    case ProfileRequest(u, page) => Profile(s, viewer, u, page)
    case DetailRequest(id) => PostDetail(s, viewer, id)
    case CreateRequest(form) => PostCreate(s, viewer, form)
    case EditRequest(id, form) => PostEdit(s, viewer, id, form)
    case CommentRequest(id, form) => AddComment(s, viewer, id, form)
    case FollowIndexRequest(page) => FollowIndex(s, viewer, page)
    case FollowRequest(u) => ProfileFollow(s, viewer, u)
    case UnfollowRequest(u) => ProfileUnfollow(s, viewer, u)
  }
}
