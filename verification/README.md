# Yatube blog core in Dafny

This project models the core of Yatube, a small Django blog. Users write posts, file them under topic groups, comment on them and follow other authors. The model covers four source files:

- the data model in `yatube/posts/models.py`: groups, posts, comments, follow edges, the newest-first ordering, the timestamps that are set once, slug uniqueness and the rules that run when a group or a user is deleted;
- the request handlers in `yatube/posts/views.py`, run against an in-memory store;
- the paginator in `yatube/posts/utils.py`: pages of `COUNT_OF_POSTS = 10`;
- the field lists of the two forms in `yatube/posts/forms.py`, folded into the edit and comment handlers.

Files:

- `seqs.dfy` (module `Seqs`): `Option`, an order-keeping `Filter` (the ORM's `.filter(...)`), and `Pairwise`/`Distinct` with the lemmas that filtering keeps them.
- `models.dfy` (module `Models`): the datatypes, the ordering predicates, slug uniqueness and the on-delete rules as functions. `Group.ToString()` is the group's title, and `Post.ToString()` and `Comment.ToString()` are the post's and the comment's text, as `__str__` returns them (models.py:14-16, 52-54, 88-90).
- `paging.dfy` (module `Paging`): `paginator` as `Paginate`, with page numbers, page slices and the reassembly lemma.
- `views.dfy` (module `Views`): the class `Store`, whose fields are the tables. The read-only pages are functions that read the store. The handlers that write are methods with `modifies` clauses that name only the tables they touch. Each handler returns an `Outcome`: `Render(view)`, `Redirect(route)` or `NotFound`. `@login_required` becomes the precondition that the requester is a stored user.

`Store.Valid()` is the store invariant, and every writing method keeps it. It says:

- group slugs are unique;
- posts and comments are listed newest first;
- post ids are distinct;
- the Follow table has no self-edge and no duplicate (user, author) row;
- every stamp is earlier than the clock;
- every post's author is a stored user, and its group, if any, is a stored group;
- both users of every follow edge are stored.

Assumptions the source does not show:

- Django's `Paginator.get_page` is library code that is not part of this model. The model assumes its documented behaviour with no orphans:
  - a feed of `n` items has `max(1, ceil(n/10))` pages;
  - a missing or non-numeric `page` selects page 1;
  - a number below 1 or above the page count selects the last page, because `get_page` answers the `EmptyPage` error for any out-of-range number with `num_pages`.
- `auto_now_add` timestamps come from a store clock that only moves forward. Each creation takes the current clock value and then advances the clock. Two records never share a stamp.
- Form validation keeps two rules. A post's or comment's text must not be blank (made only of space, tab, newline or carriage return). A chosen group must exist.
- The `TextField`s of `Post` and `Comment` become form `CharField`s that strip surrounding whitespace, so the stored text is the submitted text with its leading and trailing whitespace removed (`Strip`).
- Post ids and comment ids come from counters, as the database's auto-increment keys do.
- A post refers to its group through the group's unique slug rather than its numeric key.

## Model

| member | source | states |
|---|---|---|
| Models.PrependNewestPost | yatube/posts/models.py:56-60 | a post stamped later than every stored post, with a fresh id, can go first: the table stays newest-first (`ordering = ['-pub_date']`) and its ids stay distinct |
| Models.PrependNewestComment | yatube/posts/models.py:92-96 | a comment stamped later than every stored comment can go first, and the comments stay newest-first (`ordering = ['-created']`) |
| Models.DetachGroup | yatube/posts/models.py:38-45 | deleting a group (SET_NULL) keeps every post and its position; posts in that group get no group, no post refers to the group any more, and every other post is unchanged |
| Models.DetachGroupKeepsOrder | yatube/posts/models.py:38-45 | SET_NULL changes neither publication dates nor ids, so the posts stay newest-first with distinct ids |
| Models.WithoutGroup | yatube/posts/models.py:8-12 | the remaining groups are exactly those with a different slug, and slugs stay unique |
| Models.WithoutAuthorPosts | yatube/posts/models.py:32-37 | deleting a user (CASCADE on Post.author) removes exactly that user's posts and keeps all others, newest-first with distinct ids |
| Models.WithoutUserFollows | yatube/posts/models.py:101-113 | deleting a user (CASCADE on Follow.user and Follow.author) removes exactly the edges that user is on, and no duplicate edge appears |
| Paging.NumPages | yatube/posts/utils.py:9 | there is at least one page, and exactly one for an empty feed; the pages hold every item, and no page after the first is empty |
| Paging.PageNumber | yatube/posts/utils.py:10-11 | the page chosen is always a real page; a missing or non-numeric parameter gives page 1; an in-range number is honoured; anything else gives the last page |
| Paging.PageItems | yatube/posts/utils.py:4-11 | a page holds at most 10 items and every page but the last holds exactly 10; a page is empty only when the feed is; it is the contiguous run of items from `(p-1)*10` on, in feed order |
| Paging.Paginate | yatube/posts/utils.py:7-11 | `paginator` returns the page `PageNumber` chooses for the `page` parameter (page 1 without one), with that page's items (at most 10) and the page count |
| Paging.PagesFromIsSuffix | yatube/posts/utils.py:9 | joining pages p, p+1, … up to the last gives exactly the feed from item `(p-1)*10` on |
| Paging.PagesReassemble | yatube/posts/utils.py:9 | joining pages 1 to the last, in order, gives back the whole feed, so each item appears exactly once |
| Paging.ThirteenItems | yatube/posts/tests/test_views.py:176-223 | with 13 posts there are two pages: page 1 holds 10 posts, page 2 holds 3, and page 3 falls back to page 2 |
| Paging.TwoItems | yatube/posts/tests/test_views.py:141-153 | with 2 posts, page 1 holds both of them |
| Views.FindGroup | yatube/posts/views.py:28 | the slug lookup finds a group with that slug if and only if one exists; not found means no group has the slug |
| Views.IndexOfPost | yatube/posts/views.py:55 | the id lookup finds a post with that id if and only if one exists |
| Views.IndexOfPostFindsIt | yatube/posts/views.py:82 | since ids are distinct, looking up a stored post's id finds exactly that post |
| Views.Followed | yatube/posts/views.py:127-132 | never creates a self-edge and never a second row for a pair; otherwise it creates the (user, author) edge; no other edge changes; the table invariant is kept |
| Views.Unfollowed | yatube/posts/views.py:141 | the (user, author) edge is gone and every other edge stays; with no such edge nothing changes; the table invariant is kept, and a followed pair loses exactly one row |
| Views.FollowIdempotent | yatube/posts/views.py:127-132 | following twice in a row gives the same table as following once |
| Views.FollowTwiceAddsOne | yatube/posts/tests/test_views.py:272-280 | two follow requests for a new pair add exactly one row |
| Views.UnfollowIdempotent | yatube/posts/views.py:141 | unfollowing twice in a row gives the same table as unfollowing once |
| Views.FollowThenUnfollow | yatube/posts/views.py:122-142 | following a new author and then unfollowing restores the same set of edges and the same row count |
| Views.Store.GroupFeed | yatube/posts/views.py:29-32 | the posts of the group are exactly the stored posts with that group, newest first |
| Views.Store.AuthorFeed | yatube/posts/views.py:44 | the author's posts are exactly the stored posts by that author, newest first |
| Views.Store.FollowFeed | yatube/posts/views.py:117 | the follow feed holds exactly the stored posts whose author the requester follows, newest first |
| Views.Store.CommentsOf | yatube/posts/views.py:56 | a post's comments are exactly the stored comments on that post, newest first |
| Views.Store.Index | yatube/posts/views.py:10-21 | `index` renders the requested page of all posts, newest first, at most 10 of them; without a page number they are the 10 newest posts, in order |
| Views.Store.GroupPosts | yatube/posts/views.py:24-38 | an unknown slug gives not-found; otherwise it renders that group and a page of its posts; it never redirects |
| Views.Store.Profile | yatube/posts/views.py:41-50 | an unknown username gives not-found; otherwise it renders a page of that user's posts and their total count |
| Views.Store.PostDetail | yatube/posts/views.py:53-64 | an unknown id gives not-found; otherwise it renders the post, its author's post count and its comments |
| Views.Store.FollowIndex | yatube/posts/views.py:115-119 | renders a page of the requester's follow feed |
| Views.Store.ProfileFollow | yatube/posts/views.py:122-133 | an unknown author gives not-found and no change; otherwise the table becomes `Followed(old, requester, author)`, the response redirects to the author's profile, no other table changes, and the store invariant holds |
| Views.Store.ProfileUnfollow | yatube/posts/views.py:136-142 | an unknown author gives not-found and no change; otherwise the table becomes `Unfollowed(old, requester, author)`, the response redirects to the author's profile, and no other table changes |
| Views.Store.PostCreate | yatube/posts/views.py:67-76 | a valid POST adds exactly one post, holding the cleaned text, with the requester as author, stamped later than every other post and placed first, then redirects to the requester's profile; a GET or an invalid form renders the form and changes nothing |
| Views.Store.PostEdit | yatube/posts/views.py:79-99 | unknown id: not-found. Non-author: redirect to the post and no change. Author with a valid POST: only that post's text, group and image change, and its id, author and pub_date stay, as does the post count; then redirect to the post. Otherwise: render the edit form and change nothing |
| Views.Store.AddComment | yatube/posts/views.py:102-112 | unknown post: not-found and no change. Otherwise it always redirects to the post's page. A valid form adds exactly one comment by the requester on that post, holding the cleaned text, which becomes the first of that post's comments. A GET or a blank text adds nothing |
| Views.Store.CreateGroup | yatube/posts/models.py:11 | a group is stored only when no stored group has its slug, so slugs stay unique |
| Views.Store.DeleteGroup | yatube/posts/models.py:38-45 | the group goes, its posts stay without a group, and the store invariant holds (no post refers to a missing group) |
| Views.Store.DeleteUser | yatube/posts/models.py:32-37 | the user, their posts and every follow edge they are on go, and the store invariant holds |
| Views.FollowTwiceScenario | yatube/posts/tests/test_views.py:272-280 | on the store, two follow requests for a new pair leave exactly one more row, and the pair followed |
| Views.UnfollowScenario | yatube/posts/tests/test_views.py:282-287 | on the store, unfollowing a followed author removes one row, and repeating it changes nothing |
| Views.FollowFeedScenario | yatube/posts/tests/test_views.py:261-270 | after following an author, each post by that author is in the follower's feed |
| Views.NonAuthorEditScenario | yatube/posts/views.py:83-84 | an edit submitted by someone other than the author leaves every post unchanged |
| Views.Edited | yatube/posts/views.py:90-93 | an edit takes the cleaned text, the group and the image from the form (`fields = ('text', 'group', 'image')`), keeps the current image when no file is uploaded, keeps id and pub_date, and re-stamps the author with the requester |
| Views.Strip | yatube/posts/forms.py:5-10 | the cleaned text is a contiguous part of the submitted text with only whitespace cut from either end; it starts and ends with a non-space character, and it is empty exactly when the submitted text is blank |
| Views.StripIdempotent | yatube/posts/forms.py:10 | a property of the cleaning that the `text` fields of both forms (forms.py:10 and forms.py:21) apply: cleaning an already cleaned text changes nothing |
| Models.EditKeepsStoreOrder | yatube/posts/models.py:28-31 | an edit that keeps id and pub_date keeps the table newest-first and its ids distinct |
| Models.DetachGroupFits | yatube/posts/models.py:38-45 | after a group is deleted, every post still refers only to stored groups |

## Left out

- Template rendering, HTTP status codes and URL reversing are not modelled. A response is only `Render(view)`, `Redirect(route)` or `NotFound`. The rendered view keeps the context values the templates receive other than the form objects: the comment form on the detail page, and the post form of `post_create` and `post_edit` with its bound data and field errors. `PostFormView` records only whether the form is an edit.
- `@login_required` and its redirect to the login page belong to the authentication layer. They become a precondition that the requester is a stored user.
- `@cache_page(20)` on `index` is a time-based response cache, so its staleness is not modelled.
- Image upload, storage and file validation are not modelled. An image is an opaque value. Clearing an image from the edit form is not modelled.
- User registration belongs to the authentication layer. The constructor takes the set of users.
- DeleteUser: what happens to comments is a chosen simplification. `Comment.post` and `Comment.author` declare `on_delete` with `CASCADE` imported from `tkinter`, which is the string `'cascade'` and not a deletion rule Django can apply, so the source does not show what becomes of the comments of a deleted user or of their posts. The model leaves the comment table as it is, and the store invariant says nothing about which post or user a comment refers to.
- Concurrency: the check-then-create sequence in `profile_follow` races under concurrent requests. The model runs one request at a time.
- Wall-clock time is a counter. Equal timestamps, and ordering ties between them, are not modelled.
- IsBlank, Strip: Python's `str.strip` removes every Unicode whitespace character. The model treats only space, tab, newline and carriage return as whitespace.
- Validation of the form's other fields beyond a required text and an existing group is not modelled. This includes maximum lengths and image content.
- `admin.py`, `about/views.py`, the migrations and the tests are not part of this model. The tests serve only as the source of the scenarios above.
