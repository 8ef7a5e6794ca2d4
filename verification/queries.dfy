/**
 * The read queries the handlers run: the four post listings (everything, one
 * group, one author, the authors a user follows) and the comments of a post,
 * each in the models' default order, newest `created` first.
 */
module Queries {
  import opened Options
  import opened Models
  import opened Listing

  /** The filters the listing pages put on the post table. */
  datatype Feed =
    | AllPosts
    | GroupPosts(slug: Slug)
    | AuthorPosts(author: UserName)
    | FollowedBy(user: UserName)

  /**
   * How many rows the feed's query returns for post `p`. The followed-authors
   * filter goes through the follow table, so a post comes back once per
   * follow row that links the user to its author.
   */
  function Weight(s: Store, f: Feed, p: Post): nat
  {
    match f
    case AllPosts => 1
    case GroupPosts(slug) => if p.group == Some(slug) then 1 else 0
    case AuthorPosts(a) => if p.author == a then 1 else 0
    case FollowedBy(u) => Count(s.follows, Follow(u, p.author))
  }

  /** True when post `p` satisfies the feed's filter. */
  predicate Matches(s: Store, f: Feed, p: Post)
  {
    match f
    case AllPosts => true
    case GroupPosts(slug) => p.group == Some(slug)
    case AuthorPosts(a) => p.author == a
    case FollowedBy(u) => Follow(u, p.author) in s.follows
  }

  function PostWeights(s: Store, f: Feed): map<nat, nat>
  {
    map id | id in s.posts :: Weight(s, f, s.posts[id])
  }

  /**
   * The ids of the posts of feed `f`, newest first. In a valid store each
   * post matching the filter is there (once per joined row) and nothing else.
   */
  function PostList(s: Store, f: Feed): (r: seq<PostId>)
    ensures forall i :: 0 <= i < |r| ==> r[i] in s.posts && Matches(s, f, s.posts[r[i]])
    ensures Valid(s) ==> forall id :: id in s.posts && Matches(s, f, s.posts[id]) ==> id in r
    ensures Valid(s) ==> forall id: PostId :: id in s.posts ==> multiset(r)[id] == Weight(s, f, s.posts[id])
    ensures Valid(s) ==> forall i, j :: 0 <= i < j < |r| ==>
              s.posts[r[i]].created >= s.posts[r[j]].created
  {
    var r := Descending(PostWeights(s, f), s.nextPost);
    PostListFacts(s, f, r);
    r
  }

  lemma PostListFacts(s: Store, f: Feed, r: seq<PostId>)
    requires r == Descending(PostWeights(s, f), s.nextPost)
    ensures forall i :: 0 <= i < |r| ==> r[i] in s.posts && Matches(s, f, s.posts[r[i]])
    ensures Valid(s) ==> forall id :: id in s.posts && Matches(s, f, s.posts[id]) ==> id in r
    ensures Valid(s) ==> forall id: PostId :: id in s.posts ==> multiset(r)[id] == Weight(s, f, s.posts[id])
    ensures Valid(s) ==> forall i, j :: 0 <= i < j < |r| ==>
              s.posts[r[i]].created >= s.posts[r[j]].created
  {
    PostListMembers(s, f, r);
    if Valid(s) {
      PostListCounts(s, f, r);
      PostListOrder(s, f, r);
    }
  }

  lemma PostListMembers(s: Store, f: Feed, r: seq<PostId>)
    requires r == Descending(PostWeights(s, f), s.nextPost)
    ensures forall i :: 0 <= i < |r| ==> r[i] in s.posts && Matches(s, f, s.posts[r[i]])
  {
    DescendingMembers(PostWeights(s, f), s.nextPost);
    forall i | 0 <= i < |r|
      ensures r[i] in s.posts && Matches(s, f, s.posts[r[i]])
    {
      assert r[i] in r;
    }
  }

  lemma PostListCounts(s: Store, f: Feed, r: seq<PostId>)
    requires r == Descending(PostWeights(s, f), s.nextPost)
    requires PostsResolve(s)
    ensures forall id :: id in s.posts && Matches(s, f, s.posts[id]) ==> id in r
    ensures forall id: PostId :: id in s.posts ==> multiset(r)[id] == Weight(s, f, s.posts[id])
  {
    forall id: PostId | id in s.posts
      ensures multiset(r)[id] == Weight(s, f, s.posts[id])
      ensures Matches(s, f, s.posts[id]) ==> id in r
    {
      assert PostOk(s, id);
    }
  }

  lemma PostListOrder(s: Store, f: Feed, r: seq<PostId>)
    requires r == Descending(PostWeights(s, f), s.nextPost)
    requires PostsChronological(s)
    ensures forall i :: 0 <= i < |r| ==> r[i] in s.posts
    ensures forall i, j :: 0 <= i < j < |r| ==> s.posts[r[i]].created >= s.posts[r[j]].created
  {
    PostListMembers(s, f, r);
  }

  function CommentWeights(s: Store, pid: PostId): map<nat, nat>
  {
    map c | c in s.comments :: if s.comments[c].post == pid then 1 else 0
  }

  /** The ids of the comments on post `pid`, newest first. */
  function CommentList(s: Store, pid: PostId): (r: seq<CommentId>)
    ensures forall i :: 0 <= i < |r| ==> r[i] in s.comments && s.comments[r[i]].post == pid
    ensures Valid(s) ==> forall c :: c in s.comments && s.comments[c].post == pid ==> c in r
    ensures Valid(s) ==> forall i, j :: 0 <= i < j < |r| ==>
              s.comments[r[i]].created > s.comments[r[j]].created
  {
    var r := Descending(CommentWeights(s, pid), s.nextComment);
    CommentListFacts(s, pid, r);
    r
  }

  lemma CommentListFacts(s: Store, pid: PostId, r: seq<CommentId>)
    requires r == Descending(CommentWeights(s, pid), s.nextComment)
    ensures forall i :: 0 <= i < |r| ==> r[i] in s.comments && s.comments[r[i]].post == pid
    ensures Valid(s) ==> forall c :: c in s.comments && s.comments[c].post == pid ==> c in r
    ensures Valid(s) ==> forall i, j :: 0 <= i < j < |r| ==>
              s.comments[r[i]].created > s.comments[r[j]].created
  {
    CommentListMembers(s, pid, r);
    if Valid(s) {
      CommentListComplete(s, pid, r);
      CommentListOrder(s, pid, r);
    }
  }

  lemma CommentListMembers(s: Store, pid: PostId, r: seq<CommentId>)
    requires r == Descending(CommentWeights(s, pid), s.nextComment)
    ensures forall i :: 0 <= i < |r| ==> r[i] in s.comments && s.comments[r[i]].post == pid
  {
    DescendingMembers(CommentWeights(s, pid), s.nextComment);
    forall i | 0 <= i < |r|
      ensures r[i] in s.comments && s.comments[r[i]].post == pid
    {
      assert r[i] in r;
    }
  }

  lemma CommentListComplete(s: Store, pid: PostId, r: seq<CommentId>)
    requires r == Descending(CommentWeights(s, pid), s.nextComment)
    requires CommentsResolve(s)
    ensures forall c :: c in s.comments && s.comments[c].post == pid ==> c in r
  {
    DescendingMembers(CommentWeights(s, pid), s.nextComment);
    forall c | c in s.comments && s.comments[c].post == pid
      ensures c in r
    {
      assert CommentOk(s, c);
    }
  }

  lemma CommentListOrder(s: Store, pid: PostId, r: seq<CommentId>)
    requires r == Descending(CommentWeights(s, pid), s.nextComment)
    requires CommentsChronological(s)
    ensures forall i :: 0 <= i < |r| ==> r[i] in s.comments
    ensures forall i, j :: 0 <= i < j < |r| ==> s.comments[r[i]].created > s.comments[r[j]].created
  {
    CommentListMembers(s, pid, r);
    NoRepeats(CommentWeights(s, pid), s.nextComment);
  }
}
