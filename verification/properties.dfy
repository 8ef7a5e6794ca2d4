/**
 * Laws relating the handlers to each other and to the store's invariants:
 * the login guard, the read-only pages, follow/unfollow algebra, the listings'
 * contents and order, the write-once `created` stamp and the on-delete
 * cascades.
 */
module Properties {
  import opened Options
  import opened Models
  import opened Listing
  import opened Paginator
  import opened Queries
  import opened Views

  // ----- follow-table rows -----

  /** Dropping rows that nothing selects leaves the rows as they were. */
  lemma {:induction false} KeepNothing(rows: seq<Follow>, drop: Follow -> bool)
    requires forall k :: 0 <= k < |rows| ==> !drop(rows[k])
    ensures Keep(rows, drop) == rows
  {
    if |rows| > 0 {
      KeepNothing(rows[1..], drop);
      assert rows == [rows[0]] + rows[1..];
    }
  }

  /** Keeping a row placed in front of others decides that row alone, then keeps the rest. */
  lemma KeepCons(y: Follow, rest: seq<Follow>, drop: Follow -> bool)
    ensures Keep([y] + rest, drop) == (if drop(y) then [] else [y]) + Keep(rest, drop)
  {
    assert ([y] + rest)[1..] == rest;
  }

  /** Keeping distributes over appending one row. */
  lemma {:induction false} KeepAppend(rows: seq<Follow>, x: Follow, drop: Follow -> bool)
    ensures Keep(rows + [x], drop) == Keep(rows, drop) + (if drop(x) then [] else [x])
  {
    if |rows| == 0 {
      assert rows + [x] == [x] + [];
      KeepCons(x, [], drop);
    } else {
      var y, rest := rows[0], rows[1..];
      assert rows == [y] + rest;
      assert rows + [x] == [y] + (rest + [x]);
      KeepCons(y, rest + [x], drop);
      KeepCons(y, rest, drop);
      KeepAppend(rest, x, drop);
    }
  }

  /** A pair with no row is held at no position. */
  lemma AbsentPair(rows: seq<Follow>, f: Follow)
    requires Count(rows, f) == 0
    ensures forall k :: 0 <= k < |rows| ==> rows[k] != f
  {
    forall k | 0 <= k < |rows|
      ensures rows[k] != f
    {
      assert rows[k] in multiset(rows);
    }
  }

  // ----- follow and unfollow -----

  /** Following twice has the effect of following once. */
  lemma FollowIdempotent(s: Store, viewer: Viewer, username: UserName)
    ensures var once := ProfileFollow(s, viewer, username);
            ProfileFollow(once.store, viewer, username) == once
  {
  }

  /** Unfollowing an author one does not follow changes nothing. */
  lemma UnfollowWithoutFollow(s: Store, user: UserName, username: UserName)
    requires username in s.users
    requires Count(s.follows, Follow(user, username)) == 0
    ensures ProfileUnfollow(s, Some(user), username) == Reply(s, Redirect(ProfileOf(username)))
  {
    var pair := Follow(user, username);
    AbsentPair(s.follows, pair);
    KeepNothing(s.follows, (f: Follow) => f == pair);
  }

  /** Following and then unfollowing an author one did not follow restores the store. */
  lemma FollowThenUnfollow(s: Store, user: UserName, username: UserName)
    requires username in s.users && user != username
    requires Count(s.follows, Follow(user, username)) == 0
    ensures var followed := ProfileFollow(s, Some(user), username).store;
            ProfileUnfollow(followed, Some(user), username).store == s
  {
    var pair := Follow(user, username);
    var drop := (f: Follow) => f == pair;
    assert ProfileFollow(s, Some(user), username).store.follows == s.follows + [pair];
    KeepAppend(s.follows, pair, drop);
    AbsentPair(s.follows, pair);
    KeepNothing(s.follows, drop);
  }

  /** A self-follow leaves the follow table as it was. */
  lemma NoSelfFollow(s: Store, user: UserName)
    ensures ProfileFollow(s, Some(user), user).store == s
  {
  }

  // ----- the login guard and read-only pages -----

  /** Every login-required handler turns an anonymous visitor to the login page, changing nothing. */
  lemma AnonymousGoesToLogin(s: Store, req: Request)
    requires LoginRequired(req)
    ensures Handle(s, None, req) == Reply(s, LoginRedirect(Path(req)))
  {
  }

  /** The login redirects carry the exact paths the handlers are served at. */
  lemma LoginPaths(id: PostId, form: PostForm, comment: CommentForm)
    ensures LoginUrl(Path(CreateRequest(form))) == "/auth/login/?next=/create/"
    ensures LoginUrl(Path(EditRequest(id, form))) ==
            "/auth/login/?next=/posts/" + NatToString(id) + "/edit/"
    ensures LoginUrl(Path(CommentRequest(id, comment))) ==
            "/auth/login/?next=/posts/" + NatToString(id) + "/comment/"
  {
    LoginUnderPosts(NatToString(id), "/edit/");
    LoginUnderPosts(NatToString(id), "/comment/");
  }

  /** The login address of a path under `/posts/`, written out. */
  lemma LoginUnderPosts(digits: string, tail: string)
    ensures LoginUrl("/posts/" + digits + tail) == "/auth/login/?next=/posts/" + digits + tail
  {
    assert "/auth/login/?next=" + "/posts/" == "/auth/login/?next=/posts/";
  }

  /** The decimal form of an id in a path reads back as the same id. */
  lemma {:induction false} PathIdRoundTrip(n: nat)
    ensures DigitsValue(NatToString(n)) == n
  {
    if n >= 10 {
      var r := NatToString(n);
      PathIdRoundTrip(n / 10);
      assert r[..|r| - 1] == NatToString(n / 10);
    }
  }

  /** A NotFound answer never changes the store. */
  lemma NotFoundChangesNothing(s: Store, viewer: Viewer, req: Request)
    requires Handle(s, viewer, req).response.NotFound?
    ensures Handle(s, viewer, req).store == s
  {
  }

  /** An unknown slug, username or post id yields NotFound for a signed-in viewer. */
  lemma UnknownKeyNotFound(s: Store, user: UserName, req: Request)
    requires || (req.GroupRequest? && req.slug !in s.groups)
             || ((req.ProfileRequest? || req.FollowRequest? || req.UnfollowRequest?) && req.username !in s.users)
             || ((req.DetailRequest? || req.EditRequest? || req.CommentRequest?) && req.postId !in s.posts)
    ensures Handle(s, Some(user), req) == Reply(s, NotFound)
  {
  }

  // ----- invariants the handlers keep -----

  /** The cleaned group of a valid post form names an existing group. */
  predicate FormFits(s: Store, req: Request)
  {
    match req
    case CreateRequest(f) => f.valid && f.group.Some? ==> f.group.value in s.groups
    case EditRequest(_, f) => f.valid && f.group.Some? ==> f.group.value in s.groups
    case _ => true
  }

  lemma InsertPostValid(s: Store, author: UserName, form: PostForm)
    requires Valid(s) && author in s.users
    requires form.group.Some? ==> form.group.value in s.groups
    ensures Valid(InsertPost(s, author, form))
  {
    var t := InsertPost(s, author, form);
    forall id | id in t.posts
      ensures PostOk(t, id)
    {
      if id != s.nextPost {
        assert PostOk(s, id);
      }
    }
    forall c | c in t.comments
      ensures CommentOk(t, c)
    {
      assert CommentOk(s, c);
    }
    forall i, j | i in t.posts && j in t.posts && i < j
      ensures t.posts[i].created < t.posts[j].created
    {
      assert PostOk(s, i);
      if j != s.nextPost {
        assert PostOk(s, j);
      }
    }
  }

  lemma InsertCommentValid(s: Store, author: UserName, id: PostId, form: CommentForm)
    requires Valid(s) && author in s.users && id in s.posts
    ensures Valid(InsertComment(s, author, id, form))
  {
    var t := InsertComment(s, author, id, form);
    forall p | p in t.posts
      ensures PostOk(t, p)
    {
      assert PostOk(s, p);
    }
    forall c | c in t.comments
      ensures CommentOk(t, c)
    {
      if c != s.nextComment {
        assert CommentOk(s, c);
      }
    }
    forall i, j | i in t.comments && j in t.comments && i < j
      ensures t.comments[i].created < t.comments[j].created
    {
      assert CommentOk(s, i);
      if j != s.nextComment {
        assert CommentOk(s, j);
      }
    }
  }

  lemma EditValid(s: Store, user: UserName, id: PostId, form: PostForm)
    requires Valid(s) && user in s.users && id in s.posts
    requires form.group.Some? ==> form.group.value in s.groups
    ensures Valid(s.(posts := s.posts[id := SaveEdit(s.posts[id], user, form)]))
  {
    var t := s.(posts := s.posts[id := SaveEdit(s.posts[id], user, form)]);
    forall p | p in t.posts
      ensures PostOk(t, p)
    {
      assert PostOk(s, p);
    }
    forall c | c in t.comments
      ensures CommentOk(t, c)
    {
      assert CommentOk(s, c);
    }
  }

  lemma FollowRowsValid(s: Store, rows: seq<Follow>)
    requires Valid(s)
    requires forall k :: 0 <= k < |rows| ==> rows[k].user in s.users && rows[k].author in s.users
    ensures Valid(s.(follows := rows))
  {
    var t := s.(follows := rows);
    forall p | p in t.posts
      ensures PostOk(t, p)
    {
      assert PostOk(s, p);
    }
    forall c | c in t.comments
      ensures CommentOk(t, c)
    {
      assert CommentOk(s, c);
    }
  }

  lemma CreateKeepsValid(s: Store, user: UserName, form: PostForm)
    requires Valid(s) && user in s.users
    requires form.valid && form.group.Some? ==> form.group.value in s.groups
    ensures Valid(PostCreate(s, Some(user), form).store)
  {
    if form.valid { InsertPostValid(s, user, form); }
  }

  lemma EditKeepsValid(s: Store, user: UserName, id: PostId, form: PostForm)
    requires Valid(s) && user in s.users
    requires form.valid && form.group.Some? ==> form.group.value in s.groups
    ensures Valid(PostEdit(s, Some(user), id, form).store)
  {
    if id in s.posts && user == s.posts[id].author && form.valid { EditValid(s, user, id, form); }
  }

  lemma CommentKeepsValid(s: Store, user: UserName, id: PostId, form: CommentForm)
    requires Valid(s) && user in s.users
    ensures Valid(AddComment(s, Some(user), id, form).store)
  {
    if id in s.posts && form.valid { InsertCommentValid(s, user, id, form); }
  }

  lemma FollowKeepsValid(s: Store, user: UserName, username: UserName)
    requires Valid(s) && user in s.users
    ensures Valid(ProfileFollow(s, Some(user), username).store)
  {
    var pair := Follow(user, username);
    if username in s.users && user != username && Count(s.follows, pair) == 0 {
      FollowRowsValid(s, s.follows + [pair]);
    }
  }

  lemma UnfollowKeepsValid(s: Store, user: UserName, username: UserName)
    requires Valid(s)
    ensures Valid(ProfileUnfollow(s, Some(user), username).store)
  {
    if username in s.users {
      var drop := (f: Follow) => f == Follow(user, username);
      KeepCounts(s.follows, drop);
      FollowRowsValid(s, Keep(s.follows, drop));
    }
  }

  /**
   * Every handler keeps the database's integrity, provided the session user
   * exists and a valid post form names an existing group.
   */
  lemma HandleKeepsValid(s: Store, viewer: Viewer, req: Request)
    requires Valid(s)
    requires viewer.Some? ==> viewer.value in s.users
    requires FormFits(s, req)
    ensures Valid(Handle(s, viewer, req).store)
  {
    if viewer.Some? {
      var u := viewer.value;
      match req
      case CreateRequest(f) => CreateKeepsValid(s, u, f);
      case EditRequest(id, f) => EditKeepsValid(s, u, id, f);
      case CommentRequest(id, f) => CommentKeepsValid(s, u, id, f);
      case FollowRequest(a) => FollowKeepsValid(s, u, a);
      case UnfollowRequest(a) => UnfollowKeepsValid(s, u, a);
      case _ =>
    }
  }

  /**
   * Every handler keeps each (user, author) pair unique and free of
   * self-follows, although the schema enforces neither.
   */
  lemma HandleKeepsFollowsWellFormed(s: Store, viewer: Viewer, req: Request)
    requires FollowsWellFormed(s)
    ensures FollowsWellFormed(Handle(s, viewer, req).store)
  {
    var t := Handle(s, viewer, req).store;
    if viewer.Some? && req.FollowRequest? {
      var u, a := viewer.value, req.username;
      if a in s.users && u != a && Count(s.follows, Follow(u, a)) == 0 {
        assert t.follows == s.follows + [Follow(u, a)];
        forall k | 0 <= k < |t.follows|
          ensures t.follows[k].user != t.follows[k].author
        {
          if k < |s.follows| { assert t.follows[k] == s.follows[k]; }
        }
      }
    } else if viewer.Some? && req.UnfollowRequest? {
      var u, a := viewer.value, req.username;
      if a in s.users {
        forall k | 0 <= k < |t.follows|
          ensures t.follows[k].user != t.follows[k].author
        {
          assert t.follows[k] in s.follows;
        }
      }
    }
  }

  /** In a valid store every stored id lies below its counter, so the next id is free. */
  lemma FreshIds(s: Store)
    requires Valid(s)
    ensures forall id :: id in s.posts ==> id < s.nextPost
    ensures forall c :: c in s.comments ==> c < s.nextComment
    ensures s.nextPost !in s.posts && s.nextComment !in s.comments
  {
    forall id | id in s.posts
      ensures id < s.nextPost
    {
      assert PostOk(s, id);
    }
    forall c | c in s.comments
      ensures c < s.nextComment
    {
      assert CommentOk(s, c);
    }
  }

  /** `created` of every surviving row is unchanged and new rows are stamped at or after the old clock. */
  ghost predicate StampsKept(s: Store, t: Store)
  {
    && s.clock <= t.clock
    && (forall id :: id in s.posts && id in t.posts ==> t.posts[id].created == s.posts[id].created)
    && (forall id :: id in t.posts && id !in s.posts ==> s.clock <= t.posts[id].created)
    && (forall c :: c in s.comments && c in t.comments ==> t.comments[c].created == s.comments[c].created)
    && (forall c :: c in t.comments && c !in s.comments ==> s.clock <= t.comments[c].created)
  }

  /**
   * `created` is written once: no handler changes the stamp of an existing
   * post or comment, provided the next ids are unused (as `FreshIds` shows
   * for every valid store), so that an insert never overwrites a row.
   */
  lemma CreatedWrittenOnce(s: Store, viewer: Viewer, req: Request)
    requires s.nextPost !in s.posts && s.nextComment !in s.comments
    ensures StampsKept(s, Handle(s, viewer, req).store)
  {
    var t := Handle(s, viewer, req).store;
    match req
    case CreateRequest(form) =>
      if viewer.Some? && form.valid {
        assert t == InsertPost(s, viewer.value, form);
      } else {
        assert t == s;
      }
    case EditRequest(id, form) =>
      if viewer.Some? && id in s.posts && viewer.value == s.posts[id].author && form.valid {
        assert t.comments == s.comments && t.clock == s.clock;
      } else {
        assert t == s;
      }
    case CommentRequest(id, form) =>
      if viewer.Some? && id in s.posts && form.valid {
        assert t == InsertComment(s, viewer.value, id, form);
      } else {
        assert t == s;
      }
    case FollowRequest(_) =>
      assert t.posts == s.posts && t.comments == s.comments && t.clock == s.clock;
    case UnfollowRequest(_) =>
      assert t.posts == s.posts && t.comments == s.comments && t.clock == s.clock;
    case _ =>
      assert t == s;
  }

  // ----- listings -----

  /** The group listing holds that group's posts, once each, and no post of another group. */
  lemma GroupListingExact(s: Store, slug: Slug)
    requires Valid(s)
    ensures forall id :: id in PostList(s, GroupPosts(slug)) <==> id in s.posts && s.posts[id].group == Some(slug)
    ensures forall id: PostId :: id in s.posts && s.posts[id].group == Some(slug) ==>
              multiset(PostList(s, GroupPosts(slug)))[id] == 1
  {
  }

  /** The profile listing holds that author's posts, once each, and nobody else's. */
  lemma AuthorListingExact(s: Store, author: UserName)
    requires Valid(s)
    ensures forall id :: id in PostList(s, AuthorPosts(author)) <==> id in s.posts && s.posts[id].author == author
    ensures var r: seq<PostId> := PostList(s, AuthorPosts(author));
            var byAuthor: set<PostId> := PostsBy(s, author);
            multiset(r) == multiset(byAuthor)
  {
    var r: seq<PostId> := PostList(s, AuthorPosts(author));
    var byAuthor: set<PostId> := PostsBy(s, author);
    forall id: PostId
      ensures multiset(r)[id] == if id in byAuthor then 1 else 0
    {
      if id !in s.posts {
        assert id !in r;
      }
    }
    OnceEach(r, byAuthor);
  }

  /** A sequence holding each member of a set once and nothing else has that set's multiset. */
  lemma OnceEach(r: seq<PostId>, ids: set<PostId>)
    requires forall id: PostId :: multiset(r)[id] == if id in ids then 1 else 0
    ensures multiset(r) == multiset(ids)
  {
    assert forall id: PostId :: multiset(r)[id] == multiset(ids)[id];
  }

  /**
   * The follow feed holds exactly the posts whose author the user follows;
   * with unique follow rows, each of them once.
   */
  lemma FollowFeedExact(s: Store, user: UserName)
    requires Valid(s)
    ensures forall id :: id in PostList(s, FollowedBy(user)) <==>
              id in s.posts && Follow(user, s.posts[id].author) in s.follows
    ensures FollowsWellFormed(s) ==>
              forall id: PostId :: id in s.posts && Follow(user, s.posts[id].author) in s.follows ==>
                multiset(PostList(s, FollowedBy(user)))[id] == 1
  {
    var r := PostList(s, FollowedBy(user));
    forall id | id in s.posts && Follow(user, s.posts[id].author) in s.follows
      ensures multiset(r)[id] == Count(s.follows, Follow(user, s.posts[id].author)) > 0
    {
      assert Follow(user, s.posts[id].author) in multiset(s.follows);
    }
  }

  /**
   * Without the uniqueness the schema does not enforce, a pair stored twice
   * makes every post of that author come back twice in the follower's feed.
   */
  lemma DuplicateRowsRepeatPosts(s: Store, user: UserName, id: PostId)
    requires Valid(s) && id in s.posts
    requires Count(s.follows, Follow(user, s.posts[id].author)) == 2
    ensures multiset(PostList(s, FollowedBy(user)))[id] == 2
  {
  }

  /**
   * With unique follow rows every listing is strictly newest first, so no post
   * appears twice on its pages.
   */
  lemma ListingStrictlyNewestFirst(s: Store, f: Feed)
    requires Valid(s)
    requires f.FollowedBy? ==> FollowsWellFormed(s)
    ensures forall i, j :: 0 <= i < j < |PostList(s, f)| ==>
              s.posts[PostList(s, f)[i]].created > s.posts[PostList(s, f)[j]].created
  {
    var w := PostWeights(s, f);
    NoRepeats(w, s.nextPost);
    var r := PostList(s, f);
    forall i, j | 0 <= i < j < |r|
      ensures s.posts[r[i]].created > s.posts[r[j]].created
    {
      assert r[i] > r[j];
    }
  }

  /** A follower sees a new post of the author they follow; a non-follower does not. */
  lemma FollowerSeesNewPost(s: Store, follower: UserName, other: UserName, author: UserName, form: PostForm)
    requires Valid(s) && FollowsWellFormed(s)
    requires follower in s.users && other in s.users && author in s.users
    requires follower != author && other != follower
    requires Count(s.follows, Follow(other, author)) == 0
    requires form.valid && (form.group.Some? ==> form.group.value in s.groups)
    ensures var s1 := ProfileFollow(s, Some(follower), author).store;
            var s2 := PostCreate(s1, Some(author), form).store;
            && s1.nextPost in PostList(s2, FollowedBy(follower))
            && s1.nextPost !in PostList(s2, FollowedBy(other))
  {
    var s1 := ProfileFollow(s, Some(follower), author).store;
    HandleKeepsValid(s, Some(follower), FollowRequest(author));
    var s2 := PostCreate(s1, Some(author), form).store;
    HandleKeepsValid(s1, Some(author), CreateRequest(form));
    FollowFeedExact(s2, follower);
    FollowFeedExact(s2, other);
    assert Count(s1.follows, Follow(other, author)) == 0;
  }

  // ----- pages -----

  /** The pages of a group with thirteen posts hold ten and then three posts. */
  lemma ThirteenGroupPosts(s: Store, viewer: Viewer, slug: Slug)
    requires slug in s.groups
    requires |PostList(s, GroupPosts(slug))| == 13
    ensures |GroupPostsPage(s, viewer, slug, Some(1)).response.context.page.items| == 10
    ensures |GroupPostsPage(s, viewer, slug, Some(2)).response.context.page.items| == 3
  {
    ThirteenItems(PostList(s, GroupPosts(slug)));
  }

  /** A profile's post count is the number of posts its user authored, spread over all its pages. */
  lemma ProfilePostCount(s: Store, viewer: Viewer, username: UserName, page: Option<int>)
    requires Valid(s) && username in s.users
    ensures Profile(s, viewer, username, page).response.context.postCount == |PostsBy(s, username)|
    ensures var posts := PostList(s, AuthorPosts(username));
            Profile(s, viewer, username, page).response.context.postCount == |Pages(posts, NumPages(|posts|))|
  {
    var posts: seq<PostId> := PostList(s, AuthorPosts(username));
    var byAuthor: set<PostId> := PostsBy(s, username);
    AuthorListingExact(s, username);
    assert |posts| == |multiset(posts)| == |multiset(byAuthor)|;
    PagesTile(posts);
  }

  /**
   * Each listing page shows the window of its listing for the page number the
   * paginator picks from the `page` parameter.
   */
  lemma ListingPagesShowWindows(s: Store, viewer: Viewer, page: Option<int>, slug: Slug, username: UserName)
    ensures var l := PostList(s, AllPosts);
            var p := Index(s, viewer, page).response.context.page;
            p.number == PageNumber(page, |l|) && p.items == Window(l, p.number)
    ensures slug in s.groups ==>
              var l := PostList(s, GroupPosts(slug));
              var p := GroupPostsPage(s, viewer, slug, page).response.context.page;
              p.number == PageNumber(page, |l|) && p.items == Window(l, p.number)
    ensures username in s.users ==>
              var l := PostList(s, AuthorPosts(username));
              var p := Profile(s, viewer, username, page).response.context.page;
              p.number == PageNumber(page, |l|) && p.items == Window(l, p.number)
    ensures viewer.Some? ==>
              var l := PostList(s, FollowedBy(viewer.value));
              var p := FollowIndex(s, viewer, page).response.context.page;
              p.number == PageNumber(page, |l|) && p.items == Window(l, p.number)
  {
  }

  /** Every post is shown on some page of the home page. */
  lemma EveryPostOnSomePage(s: Store, viewer: Viewer, id: PostId)
    requires Valid(s) && id in s.posts
    ensures exists k: int :: id in Index(s, viewer, Some(k)).response.context.page.items
  {
    var l := PostList(s, AllPosts);
    var k := PageOf(l, id);
    assert id in Index(s, viewer, Some(k)).response.context.page.items;
  }

  /** Every post by an author the user follows is shown on some page of their feed. */
  lemma FollowedPostOnSomePage(s: Store, user: UserName, id: PostId)
    requires Valid(s) && id in s.posts && Follow(user, s.posts[id].author) in s.follows
    ensures exists k: int :: id in FollowIndex(s, Some(user), Some(k)).response.context.page.items
  {
    var l := PostList(s, FollowedBy(user));
    FollowFeedExact(s, user);
    var k := PageOf(l, id);
    assert id in FollowIndex(s, Some(user), Some(k)).response.context.page.items;
  }

  /** A post's page shows a comment as soon as it is added. */
  lemma NewCommentShown(s: Store, user: UserName, id: PostId, form: CommentForm)
    requires Valid(s) && user in s.users && id in s.posts && form.valid
    ensures var t := AddComment(s, Some(user), id, form).store;
            s.nextComment in PostDetail(t, Some(user), id).response.context.comments
  {
    InsertCommentValid(s, user, id, form);
  }

  // ----- groups -----

  /** A created group keeps the store valid and is found under its slug. */
  lemma InsertGroupValid(s: Store, slug: Slug, g: Group)
    requires Valid(s)
    requires InsertGroup(s, slug, g).Created?
    ensures Valid(InsertGroup(s, slug, g).store)
    ensures GroupPostsPage(InsertGroup(s, slug, g).store, None, slug, None).response.Render?
  {
    var t := InsertGroup(s, slug, g).store;
    forall p | p in t.posts
      ensures PostOk(t, p)
    {
      assert PostOk(s, p);
    }
    forall c | c in t.comments
      ensures CommentOk(t, c)
    {
      assert CommentOk(s, c);
    }
  }

  /** Once a group is created, creating another under the same slug is refused as a duplicate. */
  lemma SlugTakenAfterInsert(s: Store, slug: Slug, g: Group, h: Group)
    requires InsertGroup(s, slug, g).Created?
    ensures var second := InsertGroup(InsertGroup(s, slug, g).store, slug, h);
            second.Rejected? && DuplicateSlug in second.errors
  {
  }

  // ----- on-delete policies -----

  lemma DeleteGroupValid(s: Store, slug: Slug)
    requires Valid(s)
    ensures Valid(DeleteGroup(s, slug))
  {
    var t := DeleteGroup(s, slug);
    forall p | p in t.posts
      ensures PostOk(t, p)
    {
      assert PostOk(s, p);
    }
    forall c | c in t.comments
      ensures CommentOk(t, c)
    {
      assert CommentOk(s, c);
    }
  }

  lemma DeletePostValid(s: Store, id: PostId)
    requires Valid(s)
    ensures Valid(DeletePost(s, id))
  {
    var t := DeletePost(s, id);
    forall p | p in t.posts
      ensures PostOk(t, p)
    {
      assert PostOk(s, p);
    }
    forall c | c in t.comments
      ensures CommentOk(t, c)
    {
      assert CommentOk(s, c);
    }
  }

  lemma DeleteUserValid(s: Store, u: UserName)
    requires Valid(s)
    ensures Valid(DeleteUser(s, u))
  {
    var t := DeleteUser(s, u);
    forall p | p in t.posts
      ensures PostOk(t, p)
    {
      assert PostOk(s, p);
    }
    forall c | c in t.comments
      ensures CommentOk(t, c)
    {
      assert CommentOk(s, c);
    }
    DeleteUserFollowsResolve(s, u);
  }

  lemma DeleteUserFollowsResolve(s: Store, u: UserName)
    requires FollowsResolve(s)
    ensures FollowsResolve(DeleteUser(s, u))
  {
    var t := DeleteUser(s, u);
    forall k | 0 <= k < |t.follows|
      ensures t.follows[k].user in t.users && t.follows[k].author in t.users
    {
      assert t.follows[k] in s.follows;
    }
  }

  /** Deleting a user keeps follow pairs unique and free of self-follows. */
  lemma DeleteUserKeepsFollowsWellFormed(s: Store, u: UserName)
    requires FollowsWellFormed(s)
    ensures FollowsWellFormed(DeleteUser(s, u))
  {
    var t := DeleteUser(s, u);
    forall k | 0 <= k < |t.follows|
      ensures t.follows[k].user != t.follows[k].author
    {
      assert t.follows[k] in s.follows;
    }
  }

  /**
   * Through the comment cascade, deleting a user also removes the comments
   * other users left on that user's posts.
   */
  lemma DeleteUserRemovesCommentsOnTheirPosts(s: Store, u: UserName, c: CommentId)
    requires c in s.comments && s.comments[c].post in s.posts
    requires s.posts[s.comments[c].post].author == u
    ensures c !in DeleteUser(s, u).comments
  {
  }
}
