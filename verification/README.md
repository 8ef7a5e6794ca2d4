# Yatube posts core in Dafny

This project models the core of Yatube's posts application, a small Django blog:

- the ten request handlers of `yatube/posts/views.py`;
- their shared paginator, with 10 posts per page (`POSTS_ON_PAGE`);
- the 30-character slice of the post's text in `post_detail`'s title (`SLICE`);
- the `Group`, `Post`, `Comment` and `Follow` models, with their field rules, string forms, default ordering and on-delete policies;
- the `CreatedModel` base. It supplies the write-once `created` stamp and the required, cascading `author`.

The database is an immutable `Models.Store`. It holds:

- the users, keyed by username;
- the groups, keyed by slug;
- the posts and comments, keyed by their auto-increment ids;
- the follow table, as a sequence of rows;
- the id counters and a clock that stamps `created`.

Each handler is a pure function. It maps a store, the session user (`None` for an anonymous visitor) and the request's parameters to a `Views.Reply`. The reply holds the new store and the response:

- a rendered context;
- a redirect;
- a 404;
- the login redirect carrying the refused path;
- an unhandled exception.

`Views.Handle` routes a request to its handler.

Modules:

- `Options`: the optional-value type.
- `Models`: entities, string forms, integrity invariants (`Valid`, `FollowsWellFormed`), and the group insert plus the three deletions with their on-delete policies.
- `Listing`: the shape of every listing query. It returns the ids below a bound, largest first, each repeated by a weight (the number of rows a join returns for it).
- `Queries`: the four post listings and a post's comments, newest `created` first.
- `Paginator`: `paginator_obj`, modelled as `Paginate` over a listing.
- `Views`: the handlers.
- `Properties`: laws that relate handlers and invariants.

Assumptions of the model:

- **Order.** Ids and `created` stamps both come from counters that only increase. So "newest `created` first" is "largest id first" in every store that satisfies `Valid` (`PostsChronological`, `CommentsChronological`).
- **Follow rows.** The follow table declares no uniqueness. The model therefore keeps its rows as a sequence: the same pair may occur twice.
  - `FollowsWellFormed` states what the handlers maintain: each pair occurs at most once, and there are no self-follows.
  - The properties that need it say so.
- **Pagination.** Django's `Paginator.get_page` is framework code, so its behaviour is assumed:
  - an absent or non-integer `page` gives page 1;
  - any other out-of-range number gives the last page;
  - an empty listing has one empty page.
- **get_or_create.** `profile_follow` (yatube/posts/views.py:157-158) follows with `Follow.objects.get_or_create`.
  - With no row for the pair, it creates one. With exactly one row, it changes nothing.
  - With two or more rows, the get raises `MultipleObjectsReturned`, and no handler catches it.
  - The model answers that case with `ServerFault` and leaves the store unchanged. Following is therefore idempotent in every case (`Properties.FollowIdempotent`).
- **Follow feed.** The feed's query crosses the follow table, so it returns a post once per matching follow row (`Queries.Weight`). Under `FollowsWellFormed` that is exactly once.

## Model

| member | source | states |
|---|---|---|
| Paginator.NumPages | yatube/posts/views.py:10-16 | The page count is the ceiling of the item count over 10. An empty listing has exactly one page. All items fit, and the last page is not empty unless the listing is. |
| Paginator.PageNumber | yatube/posts/views.py:13-16 | The `page` parameter picks the page shown. Absent or non-integer gives page 1. A number in range is kept. Anything else gives the last page. |
| Paginator.Window | yatube/posts/views.py:10-16 | A page holds at most 10 items. Every page before the last holds exactly 10. The last page ends at the listing's end. A nonempty listing gives a nonempty page. Item i of page k is item (k-1)*10+i of the listing. |
| Paginator.Paginate | yatube/posts/views.py:13-16 | `paginator_obj`: an absent or non-integer request shows page 1. An in-range request shows that page. Any other request shows the last page. The page holds that page's window. |
| Paginator.ItemOnItsPage | yatube/posts/views.py:13-16 | Item i of any listing is shown on page i/10+1, at position i mod 10. |
| Paginator.PageOf | yatube/posts/views.py:13-16 | Every item of a listing is shown on some page that can be requested. |
| Paginator.PagesArePrefix | yatube/posts/views.py:10-16 | Pages 1 to k laid end to end are exactly the first k*10 items of the listing. |
| Paginator.PagesTile | yatube/posts/views.py:10-16 | All pages laid end to end give back the listing: every item is on exactly one page, in listing order. |
| Paginator.ThirteenItems | yatube/posts/tests/test_views.py:290-332 | Thirteen items make two pages: the first ten items, then the last three. |
| Listing.Descending | yatube/posts/models.py:41-42 | A listing holds each id exactly as often as its weight says, and ids never increase along it. |
| Listing.DescendingMembers | yatube/posts/models.py:41-42 | An id is in a listing iff it is below the bound and has a positive weight. |
| Listing.NoRepeats | yatube/posts/models.py:41-42 | When every weight is at most 1, a listing strictly decreases, so no id repeats. |
| Queries.PostList | yatube/posts/views.py:23 | A feed's listing holds only posts that match its filter. In a valid store it holds every matching post, each once per joined row, ordered newest `created` first. |
| Queries.CommentList | yatube/posts/views.py:76 | A post's comments listing holds only that post's comments. In a valid store it holds all of them, strictly newest first. |
| Models.Truncate | yatube/posts/views.py:74 | A text slice is a prefix of the text, of length min(k, length of the text). |
| Models.PostStr | yatube/posts/models.py:38-39 | A post's string form is a prefix of its text. It is the whole text when that has at most 15 characters, else exactly 15 characters. |
| Models.CommentStr | yatube/posts/models.py:58-59 | A comment's string form is a prefix of its text. It is the whole text when that has at most 15 characters, else exactly 15 characters. |
| Models.KeepCounts | yatube/posts/views.py:165 | Filtered deletion of follow rows: each selected pair's count drops to 0, every other pair keeps its count, and every row left was there before. |
| Models.InsertGroup | yatube/posts/models.py:8-11 | A group is created iff all of these hold: the slug has at most 50 characters, the slug is nonempty and uses only letters, digits, `-` and `_`, the title has at most 200 characters, the title and the description are not empty, and the slug is not taken. A rejection reports exactly the errors found; uniqueness is checked only for a slug that passed its own checks. On success exactly that group is added and nothing else changes. |
| Properties.InsertGroupValid | yatube/posts/models.py:8-11 | A created group keeps the store valid, and its page then renders. |
| Properties.SlugTakenAfterInsert | yatube/posts/models.py:10 | After a group is created, a second group under the same slug is rejected as a duplicate. |
| Models.DeleteGroup | yatube/posts/models.py:22-30 | SET_NULL: the group is gone and every post survives. Posts of that group get group `None` and are otherwise unchanged. Other posts and groups are unchanged. |
| Models.DeletePost | yatube/posts/models.py:47-52 | CASCADE: the post is gone with exactly its comments. Every other post and comment is unchanged. |
| Models.DeleteUser | yatube/core/models.py:13-18 | CASCADE from the author key: the user's posts, the comments they wrote, every comment on their posts, and every follow row naming them are removed. Everything else stays. |
| Views.Index | yatube/posts/views.py:19-29 | The home page renders its title and one page of at most 10 stored posts, and changes nothing. |
| Views.GroupPostsPage | yatube/posts/views.py:32-44 | 404 iff the slug is unknown. Otherwise the title is the prefix plus the group title, and every post shown belongs to that group. Nothing changes. |
| Views.Following | yatube/posts/views.py:54-57 | `following` is false for an anonymous viewer. Otherwise it is true iff some follow row links the viewer to the author. |
| Views.Profile | yatube/posts/views.py:47-65 | 404 iff the username is unknown. Otherwise: the profile title; only that author's posts; the post count is the size of that author's listing; `following` as above. Nothing changes. |
| Views.PostDetail | yatube/posts/views.py:68-84 | 404 iff the id is unknown. Otherwise: the title is "Пост " plus the first 30 characters of the text; the author's post count; the post's comment listing, which in a valid store is all of its comments, newest first. Nothing changes. |
| Properties.NewCommentShown | yatube/posts/tests/test_views.py:214-219 | A comment added to a post is shown on that post's page right after. |
| Views.InsertPost | yatube/posts/views.py:93-96 | Saving a post adds exactly one post under the next id. It has the form's values, the given author and the current clock as `created`. Every other post is unchanged and the counters advance. |
| Views.PostCreate | yatube/posts/views.py:87-102 | Anonymous: login redirect. Invalid form: the form is shown again and nothing changes. Valid form: a post by the viewer is added and the viewer goes to their profile. |
| Views.SaveEdit | yatube/posts/views.py:112-118 | An edit keeps `created`, takes the form's text, group and image, and sets the author to the editor. |
| Views.PostEdit | yatube/posts/views.py:105-127 | Anonymous: login redirect. Unknown id: 404. A non-author goes to the post page with nothing changed. Author with an invalid form: the edit form is shown again. Author with a valid form: only that post's text, group and image change; keys, author and `created` stay. |
| Views.InsertComment | yatube/posts/views.py:134-138 | Saving a comment adds exactly one comment under the next id, on the given post, by the given author, stamped with the current clock. Every other comment is unchanged. |
| Views.AddComment | yatube/posts/views.py:130-139 | Anonymous: login redirect. Unknown post: 404. Otherwise the viewer always goes back to the post page, and only a valid form adds a comment. |
| Views.FollowIndex | yatube/posts/views.py:142-151 | Anonymous: login redirect. Otherwise every post shown is by an author the viewer follows. Nothing changes. |
| Views.ProfileFollow | yatube/posts/views.py:154-159 | Anonymous: login redirect. Unknown user: 404. A self-follow changes nothing. Otherwise a pair with 0 or 1 rows ends with exactly one row. A pair with more rows raises (get_or_create). No other pair changes. |
| Views.ProfileUnfollow | yatube/posts/views.py:162-166 | Anonymous: login redirect. Unknown user: 404. Otherwise every row of the pair is deleted, with no error when there is none. No other pair changes, and no row is added. |
| Views.NatToString | yatube/posts/tests/test_urls.py:68-80 | A post id in a path is a nonempty string of decimal digits, with no leading zero unless the id is 0, as `str` writes it. |
| Properties.PathIdRoundTrip | yatube/posts/tests/test_urls.py:68-80 | The digits of an id in a path read back as that id. |
| Properties.AnonymousGoesToLogin | yatube/posts/views.py:87-88 | Every login-required handler sends an anonymous visitor to the login page with the refused path, changing nothing. |
| Properties.LoginPaths | yatube/posts/tests/test_urls.py:68-80 | For every post id, the create, edit and comment pages redirect to `/auth/login/?next=` followed by their own path (`/create/`, `/posts/<id>/edit/`, `/posts/<id>/comment/`). |
| Properties.NotFoundChangesNothing | yatube/posts/views.py:156 | No request answered with 404 changes the store. |
| Properties.UnknownKeyNotFound | yatube/posts/views.py:34 | For a signed-in viewer, an unknown slug, username or post id gives 404 on every handler that looks it up. |
| Properties.FollowIdempotent | yatube/posts/views.py:157-158 | Following twice has the same effect and response as following once. |
| Properties.UnfollowWithoutFollow | yatube/posts/views.py:165 | Unfollowing someone one does not follow leaves the store exactly as it was. |
| Properties.FollowThenUnfollow | yatube/posts/tests/test_views.py:246-257 | Following a new author and then unfollowing them restores the store exactly. |
| Properties.NoSelfFollow | yatube/posts/views.py:157 | Following oneself never changes the store. |
| Properties.KeepNothing | yatube/posts/views.py:165 | A filtered delete that matches no row leaves the table unchanged. |
| Properties.KeepAppend | yatube/posts/views.py:165 | A filtered delete over rows plus one appended row is the delete of the rows, plus that row if it is kept. |
| Properties.HandleKeepsValid | yatube/core/models.py:13-18 | Every handler keeps the store valid: authors, groups and posts resolve, group slugs and titles fit, ids are below their counters, and stamps follow id order. The session user must exist and a valid form must name an existing group. |
| Properties.CreateKeepsValid | yatube/posts/views.py:87-102 | Creating a post, with any form, keeps the store valid. |
| Properties.EditKeepsValid | yatube/posts/views.py:105-127 | Editing a post, by anyone and with any form, keeps the store valid. |
| Properties.CommentKeepsValid | yatube/posts/views.py:130-139 | Commenting, with any form, keeps the store valid. |
| Properties.FollowKeepsValid | yatube/posts/views.py:154-159 | Following keeps the store valid. |
| Properties.UnfollowKeepsValid | yatube/posts/views.py:162-166 | Unfollowing keeps the store valid. |
| Properties.HandleKeepsFollowsWellFormed | yatube/posts/views.py:154-166 | Every handler keeps each follow pair unique and free of self-follows. |
| Properties.FreshIds | yatube/core/models.py:9-12 | In a valid store the next post and comment ids are unused, so inserts never overwrite. |
| Properties.CreatedWrittenOnce | yatube/core/models.py:9-12 | No handler changes the `created` of an existing post or comment. New rows are stamped no earlier than the old clock, and the clock never goes back. This holds whenever the next ids are unused, as FreshIds shows for every valid store. |
| Properties.InsertPostValid | yatube/posts/views.py:93-96 | Creating a post keeps the store valid. |
| Properties.EditValid | yatube/posts/views.py:115-118 | Saving an edit keeps the store valid. |
| Properties.InsertCommentValid | yatube/posts/views.py:134-138 | Adding a comment keeps the store valid. |
| Properties.GroupListingExact | yatube/posts/tests/test_views.py:193-211 | A group's listing holds exactly that group's posts, each once, and never a post of another group. |
| Properties.AuthorListingExact | yatube/posts/views.py:51 | A profile's listing holds exactly that author's posts, each once. |
| Properties.FollowFeedExact | yatube/posts/views.py:144-146 | The follow feed holds exactly the posts whose author the user follows. With unique follow rows, each appears once. |
| Properties.DuplicateRowsRepeatPosts | yatube/posts/views.py:144-146 | If a pair is stored twice, every post of that author appears twice in the follower's feed. |
| Properties.ListingStrictlyNewestFirst | yatube/posts/models.py:41-42 | Every listing is strictly newest `created` first, for the follow feed when follow rows are unique. |
| Properties.FollowerSeesNewPost | yatube/posts/tests/test_views.py:259-287 | After following an author who then posts, the new post is in the follower's feed and not in a non-follower's feed. |
| Properties.ThirteenGroupPosts | yatube/posts/tests/test_views.py:290-332 | A group with thirteen posts shows ten on page 1 and three on page 2. |
| Properties.ListingPagesShowWindows | yatube/posts/views.py:13-16 | The home page, a group page, a profile and the follow feed each show the window of their own listing for the page number picked from the `page` parameter. |
| Properties.EveryPostOnSomePage | yatube/posts/views.py:19-29 | Every post of a valid store is shown on some page of the home page. |
| Properties.FollowedPostOnSomePage | yatube/posts/views.py:142-151 | Every post by an author the user follows is shown on some page of the user's feed. |
| Properties.ProfilePostCount | yatube/posts/views.py:51-53 | A profile's post count equals the number of posts the user authored, and the total over all its pages. |
| Properties.DeleteGroupValid | yatube/posts/models.py:22-30 | Deleting a group keeps the store valid: no post is left pointing at it. |
| Properties.DeletePostValid | yatube/posts/models.py:47-52 | Deleting a post keeps the store valid: no comment is left pointing at it. |
| Properties.DeleteUserValid | yatube/core/models.py:13-18 | Deleting a user keeps the store valid: no post, comment or follow row is left pointing at the user. |
| Properties.DeleteUserKeepsFollowsWellFormed | yatube/posts/models.py:67-79 | Deleting a user keeps follow pairs unique and free of self-follows. |
| Properties.DeleteUserRemovesCommentsOnTheirPosts | yatube/posts/models.py:47-52 | Deleting a user also removes other users' comments on that user's posts, through the post cascade. |

## Left out

- Templates, HTML, static files and the page cache. The model stops at the context a template is rendered with, without the presentation-only entries such as the unbound comment form on the post page.
- Form validation and file upload. A form arrives with its verdict and its cleaned values. Image storage and `upload_to` are reduced to an optional path.
- Authentication wiring, user creation and the `users`, `about` and `core` views. The session user is a parameter, and users only disappear through `DeleteUser`.
- The login redirect's query string is modelled without URL quoting. A `page` parameter on an anonymous request is not part of the modelled path.
- The framework paginator: its clamping is stated as an assumption, not derived from framework code.
- Real timestamps. `created` is a natural-number clock that advances by one on each insert, so no two rows share a stamp. With a real clock, rows stamped in the same instant would come back in an unspecified order.
- Concurrency and transactions. Each request is atomic. So the race that lets two concurrent follows store a duplicate pair is out of scope; its consequences are modelled (`ProfileFollow` raises and the feed repeats posts).
- Null follow keys. `Follow.user` and `Follow.author` are nullable in the schema, but no handler writes a null. The model's follow rows always name two users.
- Follow's default ordering (by author) is not modelled, because no handler lists follow rows.
- Models.GroupStr and Models.FollowStr: the group and follow string forms are defined but carry no contract beyond their definition.
- Views.Index: its own contract states only that the shown page holds at most 10 stored posts. Properties.ListingPagesShowWindows states that the page is the requested window of the listing, and Properties.EveryPostOnSomePage that every post is reachable.
- Views.GroupPostsPage: its own contract states only which posts can appear on the shown page. Properties.ListingPagesShowWindows states that the page is the requested window of the group's listing, and Properties.GroupListingExact states the listing's contents.
- Views.Profile: its own contract states only which posts can appear on the shown page. Properties.ListingPagesShowWindows states that the page is the requested window of the author's listing, and Properties.AuthorListingExact states the listing's contents.
- Views.FollowIndex: its own contract states only which posts can appear on the shown page. Properties.ListingPagesShowWindows states that the page is the requested window of the feed's listing. Properties.FollowFeedExact states the feed's contents, and Properties.FollowedPostOnSomePage that every followed post is reachable.
- Models.InsertGroup: applies the field checks of model validation to the slug, the title and the description. Model validation does not strip whitespace, so a title or description made only of spaces passes it, and the model accepts it too; only the form layer strips. An insert that skips validation entirely is not modelled.
- Properties.HandleKeepsValid: requires that the session user exists and that a valid post form names an existing group. The form's own validation guarantees the second, and the authentication layer the first.
