/** The request handlers of yatube/posts/views.py over an in-memory store.

    The ORM's tables are the fields of `Store`; each read-only page (`index`,
    `group_posts`, `profile`, `post_detail`, `follow_index`) is a function that
    reads the store, and each handler that writes (`post_create`, `post_edit`,
    `add_comment`, `profile_follow`, `profile_unfollow`) is a method that
    changes the tables it names and nothing else. A handler's HTTP response is
    reduced to an `Outcome`: the page rendered, a redirect, or not-found.
    `@login_required` becomes the precondition that the requester is a stored
    user. */
module Views {
  import opened Seqs
  import opened Models
  import opened Paging

  // ---- responses and requests ----

  /** The targets the handlers redirect to. */
  datatype Route = ProfileOf(username: UserName) | DetailOf(postId: nat)

  /** The rendered templates and the context they receive. */
  datatype View =
    | IndexView(page: Page<Post>)
    | GroupView(group: Group, page: Page<Post>)
    | ProfileView(author: UserName, page: Page<Post>, postCount: nat)
    | DetailView(post: Post, authorPostCount: nat, comments: seq<Comment>)
    | PostFormView(isEdit: bool)
    | FollowView(page: Page<Post>)

  datatype Outcome = Render(view: View) | Redirect(to: Route) | NotFound

  /** A GET, or a POST carrying form data. */
  datatype Request<F> = Get | Submit(form: F)

  /** `PostForm`: the fields a user may set on a post (text, group, image).
      An image of `None` means no file was uploaded. */
  datatype PostForm = PostForm(text: string, group: Option<Slug>, image: Option<Image>)

  /** `CommentForm`: only the text. */
  datatype CommentForm = CommentForm(text: string)

  predicate IsSpace(c: char)
  {
    c in {' ', '\t', '\n', '\r'}
  }

  /** A required text field rejects input made only of whitespace. */
  predicate IsBlank(s: string)
  {
    forall i :: 0 <= i < |s| ==> IsSpace(s[i])
  }

  /** The number of whitespace characters at the start of `s`. */
  function LeadingSpaces(s: string): (k: nat)
    ensures k <= |s|
    ensures IsBlank(s[..k])
    ensures k < |s| ==> !IsSpace(s[k])
  {
    if s == [] || !IsSpace(s[0]) then 0
    else
      var k := 1 + LeadingSpaces(s[1..]);
      assert forall i :: 1 <= i < k ==> s[..k][i] == s[1..][..k - 1][i - 1];
      k
  }

  /** The number of whitespace characters at the end of `s`. */
  function TrailingSpaces(s: string): (k: nat)
    ensures k <= |s|
    ensures IsBlank(s[|s| - k..])
    ensures k < |s| ==> !IsSpace(s[|s| - k - 1])
  {
    if s == [] || !IsSpace(s[|s| - 1]) then 0
    else
      var t := s[..|s| - 1];
      var k := 1 + TrailingSpaces(t);
      assert s[|s| - k..] == t[|t| - (k - 1)..] + [s[|s| - 1]];
      k
  }

  /** The cleaned value of a text field (`CharField(strip=True)`): the
      submitted text without its leading and trailing whitespace. It is a
      contiguous part of the input with only whitespace cut on either side;
      it is empty exactly when the input is blank. */
  function Strip(s: string): (r: string)
    ensures r == [] <==> IsBlank(s)
    ensures r != [] ==> !IsSpace(r[0]) && !IsSpace(r[|r| - 1])
    ensures exists lo :: 0 <= lo <= |s| - |r| && r == s[lo..lo + |r|] &&
                         IsBlank(s[..lo]) && IsBlank(s[lo + |r|..])
  {
    var lo := LeadingSpaces(s);
    var t := s[lo..];
    var hi := lo + |t| - TrailingSpaces(t);
    assert s[hi..] == t[|t| - TrailingSpaces(t)..];
    assert lo < |s| ==> s[lo] == t[0];
    assert lo == |s| ==> s[..lo] == s;
    s[lo..hi]
  }

  /** Cleaning a cleaned value changes nothing. */
  lemma StripIdempotent(s: string)
    ensures Strip(Strip(s)) == Strip(s)
  {
    var r := Strip(s);
    if r != [] {
      assert LeadingSpaces(r) == 0;
      assert TrailingSpaces(r) == 0;
      assert r[0..|r|] == r;
    }
  }

  // ---- lookups (get_object_or_404) ----

  /** The group with slug `slug`, if there is one. */
  function FindGroup(groups: seq<Group>, slug: Slug): (r: Option<Group>)
    ensures r.None? <==> !HasGroup(groups, slug)
    ensures r.Some? ==> r.value in groups && r.value.slug == slug
  {
    if groups == [] then None
    else if groups[0].slug == slug then Some(groups[0])
    else FindGroup(groups[1..], slug)
  }

  /** The position of the post with id `id`, if there is one. */
  function IndexOfPost(posts: seq<Post>, id: nat): (r: Option<nat>)
    ensures r.None? <==> forall p :: p in posts ==> p.id != id
    ensures r.Some? ==> r.value < |posts| && posts[r.value].id == id
  {
    if posts == [] then None
    else if posts[0].id == id then Some(0)
    else match IndexOfPost(posts[1..], id)
      case None => None
      case Some(k) => Some(k + 1)
  }

  /** With distinct ids, looking up a stored post's id finds that post. */
  lemma IndexOfPostFindsIt(posts: seq<Post>, i: nat)
    requires DistinctIds(posts) && i < |posts|
    ensures IndexOfPost(posts, posts[i].id) == Some(i)
  {
  }

  // ---- the Follow table ----

  predicate IsFollowing(follows: seq<Follow>, user: UserName, author: UserName)
  {
    Follow(user, author) in follows
  }

  /** The table holds no self-edge and at most one row per (user, author). */
  ghost predicate FollowTableOk(follows: seq<Follow>)
  {
    Distinct(follows) && forall f :: f in follows ==> f.user != f.author
  }

  /** `profile_follow`'s write: the edge is created only when the user is not
      the author and does not follow the author yet. */
  function Followed(follows: seq<Follow>, user: UserName, author: UserName): (r: seq<Follow>)
    ensures user == author || IsFollowing(follows, user, author) ==> r == follows
    ensures user != author ==> IsFollowing(r, user, author)
    ensures forall f :: f != Follow(user, author) ==> (f in r <==> f in follows)
    ensures |r| <= |follows| + 1
    ensures FollowTableOk(follows) ==> FollowTableOk(r)
  {
    if user != author && !IsFollowing(follows, user, author) then
      var r := follows + [Follow(user, author)];
      assert FollowTableOk(follows) ==> Distinct(r) by {
        if FollowTableOk(follows) {
          forall i, j | 0 <= i < j < |r| ensures Differ(r[i], r[j]) {
            if j == |follows| {
              assert r[i] in follows;
            } else {
              assert Differ(follows[i], follows[j]);
            }
          }
        }
      }
      r
    else follows
  }

  /** `profile_unfollow`'s write: every row for the pair is deleted. */
  function Unfollowed(follows: seq<Follow>, user: UserName, author: UserName): (r: seq<Follow>)
    ensures !IsFollowing(r, user, author)
    ensures forall f :: f != Follow(user, author) ==> (f in r <==> f in follows)
    ensures !IsFollowing(follows, user, author) ==> r == follows
    ensures FollowTableOk(follows) ==> FollowTableOk(r)
    ensures FollowTableOk(follows) && IsFollowing(follows, user, author) ==> |r| == |follows| - 1
  {
    var edge := Follow(user, author);
    var keep := (f: Follow) => f != edge;
    FilterPairwise(follows, keep, Differ);
    FilterDropsOne(follows, keep, edge);
    assert !IsFollowing(follows, user, author) ==> Filter(follows, keep) == follows by {
      if !IsFollowing(follows, user, author) {
        FilterKeepsAll(follows, keep);
      }
    }
    Filter(follows, keep)
  }

  /** Following twice in a row is following once. */
  lemma FollowIdempotent(follows: seq<Follow>, user: UserName, author: UserName)
    ensures Followed(Followed(follows, user, author), user, author) == Followed(follows, user, author)
  {
  }

  /** Two follow requests for a new pair add exactly one row. */
  lemma FollowTwiceAddsOne(follows: seq<Follow>, user: UserName, author: UserName)
    requires user != author && !IsFollowing(follows, user, author)
    ensures |Followed(Followed(follows, user, author), user, author)| == |follows| + 1
  {
  }

  /** Unfollowing twice in a row is unfollowing once. */
  lemma UnfollowIdempotent(follows: seq<Follow>, user: UserName, author: UserName)
    ensures Unfollowed(Unfollowed(follows, user, author), user, author) == Unfollowed(follows, user, author)
  {
  }

  /** Following a new author and then unfollowing restores the same set of
      edges and the same row count. */
  lemma FollowThenUnfollow(follows: seq<Follow>, user: UserName, author: UserName)
    requires FollowTableOk(follows) && user != author && !IsFollowing(follows, user, author)
    ensures forall f :: f in Unfollowed(Followed(follows, user, author), user, author) <==> f in follows
    ensures |Unfollowed(Followed(follows, user, author), user, author)| == |follows|
  {
  }

  // ---- post_edit's write ----

  /** `post_edit`'s write: the form's text, group and image (an image is
      replaced only when a new file is uploaded); `author = request.user`. */
  function Edited(p: Post, form: PostForm, editor: UserName): (r: Post)
    ensures r.id == p.id && r.pubDate == p.pubDate && r.author == editor
    ensures r.text == Strip(form.text) && r.group == form.group
    ensures r.image == if form.image.Some? then form.image else p.image
  {
    p.(text := Strip(form.text), group := form.group,
       image := if form.image.Some? then form.image else p.image, author := editor)
  }

  // ---- the store ----

  class Store {
    var users: set<UserName>
    var groups: seq<Group>
    /** Posts, newest first. */
    var posts: seq<Post>
    /** Comments, newest first. */
    var comments: seq<Comment>
    var follows: seq<Follow>
    /** The clock that stamps `pub_date` and `created`; it only moves forward. */
    var clock: nat
    var nextPostId: nat
    var nextCommentId: nat

    ghost predicate Valid()
      reads this
    {
      UniqueSlugs(groups) &&
      PostsNewestFirst(posts) &&
      CommentsNewestFirst(comments) &&
      FollowTableOk(follows) &&
      DistinctIds(posts) &&
      (forall p :: p in posts ==> PostFits(p, clock, nextPostId, users, groups)) &&
      (forall c :: c in comments ==> c.created < clock && c.id < nextCommentId) &&
      (forall f :: f in follows ==> f.user in users && f.author in users)
    }

    /** An empty blog with the given registered users. */
    constructor (users: set<UserName>)
      ensures Valid()
      ensures this.users == users
      ensures groups == [] && posts == [] && comments == [] && follows == []
    {
      this.users := users;
      groups, posts, comments, follows := [], [], [], [];
      clock, nextPostId, nextCommentId := 0, 0, 0;
    }

    // ---- feeds ----

    /** The posts of group `slug`, newest first. */
    function GroupFeed(slug: Slug): (r: seq<Post>)
      reads this
      ensures forall p :: p in r <==> p in posts && p.group == Some(slug)
      ensures PostsNewestFirst(posts) ==> PostsNewestFirst(r)
    {
      var keep := (p: Post) => p.group == Some(slug);
      FilterPairwise(posts, keep, PublishedAfter);
      Filter(posts, keep)
    }

    /** The posts written by `author`, newest first. */
    function AuthorFeed(author: UserName): (r: seq<Post>)
      reads this
      ensures forall p :: p in r <==> p in posts && p.author == author
      ensures PostsNewestFirst(posts) ==> PostsNewestFirst(r)
    {
      var keep := (p: Post) => p.author == author;
      FilterPairwise(posts, keep, PublishedAfter);
      Filter(posts, keep)
    }

    /** The posts whose author `user` follows, newest first
        (`author__following__user=request.user`). */
    function FollowFeed(user: UserName): (r: seq<Post>)
      reads this
      ensures forall p :: p in r <==> p in posts && IsFollowing(follows, user, p.author)
      ensures PostsNewestFirst(posts) ==> PostsNewestFirst(r)
    {
      var table := follows;
      var keep := (p: Post) => IsFollowing(table, user, p.author);
      FilterPairwise(posts, keep, PublishedAfter);
      Filter(posts, keep)
    }

    /** The comments on post `postId`, newest first. */
    function CommentsOf(postId: nat): (r: seq<Comment>)
      reads this
      ensures forall c :: c in r <==> c in comments && c.post == postId
      ensures CommentsNewestFirst(comments) ==> CommentsNewestFirst(r)
    {
      var keep := (c: Comment) => c.post == postId;
      FilterPairwise(comments, keep, CreatedAfter);
      Filter(comments, keep)
    }

    // ---- read-only pages ----

    /** `index`: every post, newest first; without a page number the first
        page shows the ten newest posts. */
    function Index(param: PageParam): (o: Outcome)
      reads this
      ensures o.Render? && o.view.IndexView?
      ensures o.view.page == Paginate(posts, param)
      ensures param.Missing? ==>
        o.view.page.items == posts[..if |posts| < CountOfPosts then |posts| else CountOfPosts]
    {
      Render(IndexView(Paginate(posts, param)))
    }

    /** `group_posts`: not-found for an unknown slug, else a page of that
        group's posts. */
    function GroupPosts(slug: Slug, param: PageParam): (o: Outcome)
      reads this
      ensures o.NotFound? <==> !HasGroup(groups, slug)
      ensures o.Render? ==>
        o.view.GroupView? && o.view.group in groups && o.view.group.slug == slug &&
        o.view.page == Paginate(GroupFeed(slug), param)
      ensures !o.Redirect?
    {
      match FindGroup(groups, slug)
      case None => NotFound
      case Some(g) => Render(GroupView(g, Paginate(GroupFeed(slug), param)))
    }

    /** `profile`: not-found for an unknown username, else a page of that
        user's posts and their total count. */
    function Profile(username: UserName, param: PageParam): (o: Outcome)
      reads this
      ensures o.NotFound? <==> username !in users
      ensures o.Render? ==>
        o.view.ProfileView? && o.view.author == username &&
        o.view.page == Paginate(AuthorFeed(username), param) &&
        o.view.postCount == |AuthorFeed(username)|
      ensures !o.Redirect?
    {
      if username !in users then NotFound
      else
        var feed := AuthorFeed(username);
        Render(ProfileView(username, Paginate(feed, param), |feed|))
    }

    /** `post_detail`: not-found for an unknown id, else the post, its
        author's post count and its comments, newest first. */
    function PostDetail(postId: nat): (o: Outcome)
      reads this
      ensures o.NotFound? <==> forall p :: p in posts ==> p.id != postId
      ensures o.Render? ==>
        o.view.DetailView? && o.view.post in posts && o.view.post.id == postId &&
        o.view.authorPostCount == |AuthorFeed(o.view.post.author)| &&
        o.view.comments == CommentsOf(postId)
      ensures !o.Redirect?
    {
      match IndexOfPost(posts, postId)
      case None => NotFound
      case Some(i) =>
        var p := posts[i];
        Render(DetailView(p, |AuthorFeed(p.author)|, CommentsOf(postId)))
    }

    /** `follow_index`: a page of the posts by authors `requester` follows. */
    function FollowIndex(requester: UserName, param: PageParam): (o: Outcome)
      requires requester in users
      reads this
      ensures o.Render? && o.view.FollowView?
      ensures o.view.page == Paginate(FollowFeed(requester), param)
    {
      Render(FollowView(Paginate(FollowFeed(requester), param)))
    }

    // ---- writes ----

    /** `PostForm.is_valid()`: the text is required, and a chosen group must
        exist. */
    predicate PostFormValid(form: PostForm)
      reads this
    {
      !IsBlank(form.text) && (form.group.Some? ==> FindGroup(groups, form.group.value).Some?)
    }

    /** `profile_follow`. */
    method ProfileFollow(requester: UserName, username: UserName) returns (o: Outcome)
      requires Valid() && requester in users
      modifies this`follows
      ensures Valid()
      ensures username !in users ==> o == NotFound && follows == old(follows)
      ensures username in users ==>
        o == Redirect(ProfileOf(username)) &&
        follows == Followed(old(follows), requester, username)
    {
      if username !in users {
        return NotFound;
      }
      var followExists := IsFollowing(follows, requester, username);
      if requester != username && !followExists {
        follows := follows + [Follow(requester, username)];
      }
      o := Redirect(ProfileOf(username));
    }

    /** `profile_unfollow`. */
    method ProfileUnfollow(requester: UserName, username: UserName) returns (o: Outcome)
      requires Valid() && requester in users
      modifies this`follows
      ensures Valid()
      ensures username !in users ==> o == NotFound && follows == old(follows)
      ensures username in users ==>
        o == Redirect(ProfileOf(username)) &&
        follows == Unfollowed(old(follows), requester, username)
    {
      if username !in users {
        return NotFound;
      }
      follows := Unfollowed(follows, requester, username);
      o := Redirect(ProfileOf(username));
    }

    /** `post_create`: a valid POST adds one post by the requester, stamped
        now, at the head of the newest-first table. */
    method PostCreate(requester: UserName, req: Request<PostForm>) returns (o: Outcome)
      requires Valid() && requester in users
      modifies this`posts, this`clock, this`nextPostId
      ensures Valid()
      ensures req.Submit? && old(PostFormValid(req.form)) ==>
        o == Redirect(ProfileOf(requester)) &&
        posts == [Post(old(nextPostId), Strip(req.form.text), old(clock), requester,
                       req.form.group, req.form.image)] + old(posts) &&
        posts[0].author == requester &&
        forall p :: p in old(posts) ==> p.pubDate < posts[0].pubDate
      ensures !(req.Submit? && old(PostFormValid(req.form))) ==>
        o == Render(PostFormView(false)) && unchanged(this)
    {
      if req.Submit? && PostFormValid(req.form) {
        var p := Post(nextPostId, Strip(req.form.text), clock, requester, req.form.group, req.form.image);
        PrependNewestPost(p, posts);
        posts := [p] + posts;
        clock := clock + 1;
        nextPostId := nextPostId + 1;
        o := Redirect(ProfileOf(requester));
      } else {
        o := Render(PostFormView(false));
      }
    }

    /** `post_edit`: a non-author is sent back to the post; the author's valid
        POST rewrites text, group and image in place. */
    method PostEdit(requester: UserName, postId: nat, req: Request<PostForm>) returns (o: Outcome)
      requires Valid() && requester in users
      modifies this`posts
      ensures Valid()
      ensures |posts| == |old(posts)|
      ensures IndexOfPost(old(posts), postId).None? ==> o == NotFound && posts == old(posts)
      ensures IndexOfPost(old(posts), postId).Some? ==>
        var i := IndexOfPost(old(posts), postId).value;
        var p := old(posts)[i];
        if requester != p.author then
          o == Redirect(DetailOf(postId)) && posts == old(posts)
        else if req.Submit? && old(PostFormValid(req.form)) then
          o == Redirect(DetailOf(postId)) &&
          posts == old(posts)[i := Edited(p, req.form, requester)] &&
          posts[i].author == p.author && posts[i].pubDate == p.pubDate
        else
          o == Render(PostFormView(true)) && posts == old(posts)
    {
      var found := IndexOfPost(posts, postId);
      if found.None? {
        return NotFound;
      }
      var i := found.value;
      if requester != posts[i].author {
        return Redirect(DetailOf(postId));
      }
      if req.Submit? && PostFormValid(req.form) {
        var edited := Edited(posts[i], req.form, requester);
        EditKeepsStoreOrder(posts, i, edited);
        posts := posts[i := edited];
        return Redirect(DetailOf(postId));
      }
      o := Render(PostFormView(true));
    }

    /** `add_comment`: always redirects to the post; a valid form adds one
        comment by the requester on that post, which then heads its list. */
    method AddComment(requester: UserName, postId: nat, req: Request<CommentForm>) returns (o: Outcome)
      requires Valid() && requester in users
      modifies this`comments, this`clock, this`nextCommentId
      ensures Valid()
      ensures IndexOfPost(posts, postId).None? ==> o == NotFound && unchanged(this)
      ensures IndexOfPost(posts, postId).Some? ==> o == Redirect(DetailOf(postId))
      ensures IndexOfPost(posts, postId).Some? && req.Submit? && !IsBlank(req.form.text) ==>
        var c := Comment(old(nextCommentId), postId, requester, Strip(req.form.text), old(clock));
        comments == [c] + old(comments) &&
        CommentsOf(postId) == [c] + old(CommentsOf(postId))
      ensures !(req.Submit? && !IsBlank(req.form.text)) ==> unchanged(this)
    {
      if IndexOfPost(posts, postId).None? {
        return NotFound;
      }
      if req.Submit? && !IsBlank(req.form.text) {
        var c := Comment(nextCommentId, postId, requester, Strip(req.form.text), clock);
        PrependNewestComment(c, comments);
        ghost var before := comments;
        comments := [c] + comments;
        assert comments[1..] == before;
        clock := clock + 1;
        nextCommentId := nextCommentId + 1;
      }
      o := Redirect(DetailOf(postId));
    }

    /** Creating a group: the database refuses a second group with a slug
        already in use. */
    method CreateGroup(g: Group) returns (ok: bool)
      requires Valid()
      modifies this`groups
      ensures Valid()
      ensures ok <==> !old(HasGroup(groups, g.slug))
      ensures ok ==> groups == old(groups) + [g]
      ensures !ok ==> groups == old(groups)
    {
      if FindGroup(groups, g.slug).Some? {
        return false;
      }
      forall i, j | 0 <= i < j < |groups + [g]| ensures DifferentSlugs((groups + [g])[i], (groups + [g])[j]) {
        if j == |groups| {
          assert (groups + [g])[i] in groups;
        } else {
          assert DifferentSlugs(groups[i], groups[j]);
        }
      }
      groups := groups + [g];
      ok := true;
    }

    /** Deleting a group: its posts stay, with no group. */
    method DeleteGroup(slug: Slug)
      requires Valid()
      modifies this`groups, this`posts
      ensures Valid()
      ensures groups == WithoutGroup(old(groups), slug)
      ensures posts == DetachGroup(old(posts), slug)
    {
      DetachGroupKeepsOrder(posts, slug);
      DetachGroupFits(posts, slug, clock, nextPostId, users, groups);
      groups := WithoutGroup(groups, slug);
      posts := DetachGroup(posts, slug);
    }

    /** Deleting a user: their posts and every follow edge they are on go. */
    method DeleteUser(name: UserName)
      requires Valid()
      modifies this`users, this`posts, this`follows
      ensures Valid()
      ensures users == old(users) - {name}
      ensures posts == WithoutAuthorPosts(old(posts), name)
      ensures follows == WithoutUserFollows(old(follows), name)
    {
      users := users - {name};
      posts := WithoutAuthorPosts(posts, name);
      follows := WithoutUserFollows(follows, name);
    }
  }

  // ---- scenarios from the repository's tests, stated against the store ----

  /** `test_user_can_follow_once`: two follow requests add one row. */
  method FollowTwiceScenario(s: Store, follower: UserName, author: UserName)
    requires s.Valid() && follower in s.users && author in s.users
    requires follower != author && !IsFollowing(s.follows, follower, author)
    modifies s
    ensures s.Valid()
    ensures |s.follows| == |old(s.follows)| + 1
    ensures IsFollowing(s.follows, follower, author)
  {
    var first := s.ProfileFollow(follower, author);
    var second := s.ProfileFollow(follower, author);
    assert second == Redirect(ProfileOf(author));
  }

  /** `test_user_can_unfollow`: unfollowing a followed author removes one
      row; unfollowing again changes nothing. */
  method UnfollowScenario(s: Store, follower: UserName, author: UserName)
    requires s.Valid() && follower in s.users && author in s.users
    requires IsFollowing(s.follows, follower, author)
    modifies s
    ensures s.Valid()
    ensures |s.follows| == |old(s.follows)| - 1
    ensures !IsFollowing(s.follows, follower, author)
  {
    var first := s.ProfileUnfollow(follower, author);
    ghost var between := s.follows;
    var second := s.ProfileUnfollow(follower, author);
    assert s.follows == between;
  }

  /** After following an author, each of that author's posts is in the
      follower's feed: the promise in the docstring of
      `test_new_in_follow_page`, whose own assertion checks a post by an
      author who was followed beforehand. */
  method FollowFeedScenario(s: Store, follower: UserName, author: UserName)
    requires s.Valid() && follower in s.users && author in s.users && follower != author
    modifies s
    ensures s.Valid()
    ensures forall p :: p in s.posts && p.author == author ==> p in s.FollowFeed(follower)
  {
    var o := s.ProfileFollow(follower, author);
  }

  /** A non-author's edit leaves every post as it was and redirects to the
      post's page. */
  method NonAuthorEditScenario(s: Store, requester: UserName, i: nat, form: PostForm)
    requires s.Valid() && requester in s.users
    requires i < |s.posts| && s.posts[i].author != requester
    modifies s
    ensures s.posts == old(s.posts)
  {
    var postId := s.posts[i].id;
    IndexOfPostFindsIt(s.posts, i);
    var o := s.PostEdit(requester, postId, Submit(form));
    assert o == Redirect(DetailOf(postId));
  }
}
