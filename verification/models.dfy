/** The blog's tables (yatube/posts/models.py): groups, posts, comments and
    follow edges, the default newest-first ordering of posts and comments,
    and the rules that run when a group or a user is deleted. */
module Models {
  import opened Seqs

  /** A user of the authentication layer, identified by its unique username. */
  type UserName = string
  /** A group's unique URL key. */
  type Slug = string
  /** An uploaded picture, kept opaque (its stored file name). */
  type Image = string

  datatype Group = Group(title: string, slug: Slug, description: string)
  {
    /** `str(group)` is the group's title. */
    function ToString(): string { title }
  }

  /** A post; `pubDate` is stamped once when the post is created. A group is
      referenced through its slug. */
  datatype Post = Post(id: nat, text: string, pubDate: nat, author: UserName,
                       group: Option<Slug>, image: Option<Image>)
  {
    /** `str(post)` is the post's text. */
    function ToString(): string { text }
  }

  /** A comment on the post whose id is `post`; `created` is stamped once. */
  datatype Comment = Comment(id: nat, post: nat, author: UserName, text: string, created: nat)
  {
    /** `str(comment)` is the comment's text. */
    function ToString(): string { text }
  }

  /** `user` follows `author`. */
  datatype Follow = Follow(user: UserName, author: UserName)

  // ---- default ordering: Meta.ordering = ['-pub_date'] and ['-created'] ----

  ghost predicate PublishedAfter(a: Post, b: Post)
  {
    a.pubDate > b.pubDate
  }

  ghost predicate CreatedAfter(a: Comment, b: Comment)
  {
    a.created > b.created
  }

  /** Posts listed newest publication date first. */
  ghost predicate PostsNewestFirst(posts: seq<Post>)
  {
    Pairwise(posts, PublishedAfter)
  }

  /** Comments listed newest creation date first. */
  ghost predicate CommentsNewestFirst(comments: seq<Comment>)
  {
    Pairwise(comments, CreatedAfter)
  }

  ghost predicate DifferentIds(a: Post, b: Post)
  {
    a.id != b.id
  }

  /** No two posts share a primary key. */
  ghost predicate DistinctIds(posts: seq<Post>)
  {
    Pairwise(posts, DifferentIds)
  }

  /** Adding a post stamped later than every stored one, with a fresh id, at
      the front keeps the newest-first order and the distinct ids. */
  lemma PrependNewestPost(p: Post, posts: seq<Post>)
    requires PostsNewestFirst(posts) && DistinctIds(posts)
    requires forall q :: q in posts ==> q.pubDate < p.pubDate && q.id < p.id
    ensures PostsNewestFirst([p] + posts) && DistinctIds([p] + posts)
  {
  }

  /** The comment counterpart of `PrependNewestPost`. */
  lemma PrependNewestComment(c: Comment, comments: seq<Comment>)
    requires CommentsNewestFirst(comments)
    requires forall d :: d in comments ==> d.created < c.created
    ensures CommentsNewestFirst([c] + comments)
  {
  }

  // ---- Group.slug is unique ----

  ghost predicate DifferentSlugs(g: Group, h: Group)
  {
    g.slug != h.slug
  }

  /** No two groups share a slug (`SlugField(unique=True)`). */
  ghost predicate UniqueSlugs(groups: seq<Group>)
  {
    Pairwise(groups, DifferentSlugs)
  }

  /** A group with slug `slug` is stored. */
  ghost predicate HasGroup(groups: seq<Group>, slug: Slug)
  {
    exists g :: g in groups && g.slug == slug
  }

  // ---- on_delete rules ----

  /** Deleting the group with slug `slug` (`on_delete=SET_NULL` on
      Post.group): every post is kept, and those in that group lose it. */
  function DetachGroup(posts: seq<Post>, slug: Slug): (r: seq<Post>)
    ensures |r| == |posts|
    ensures forall i :: 0 <= i < |r| ==>
      r[i].group != Some(slug) &&
      r[i] == (if posts[i].group == Some(slug) then posts[i].(group := None) else posts[i])
  {
    if posts == [] then []
    else
      var p := posts[0];
      [if p.group == Some(slug) then p.(group := None) else p] + DetachGroup(posts[1..], slug)
  }

  /** Detaching a group leaves publication dates and ids alone, so the
      order and the distinct ids stay. */
  lemma DetachGroupKeepsOrder(posts: seq<Post>, slug: Slug)
    requires PostsNewestFirst(posts) && DistinctIds(posts)
    ensures PostsNewestFirst(DetachGroup(posts, slug)) && DistinctIds(DetachGroup(posts, slug))
  {
    var r := DetachGroup(posts, slug);
    forall i, j | 0 <= i < j < |r| ensures PublishedAfter(r[i], r[j]) && DifferentIds(r[i], r[j]) {
      assert PublishedAfter(posts[i], posts[j]) && DifferentIds(posts[i], posts[j]);
    }
  }

  /** The groups left after deleting the one with slug `slug`. */
  function WithoutGroup(groups: seq<Group>, slug: Slug): (r: seq<Group>)
    ensures UniqueSlugs(groups) ==> UniqueSlugs(r)
    ensures forall g :: g in r <==> g in groups && g.slug != slug
  {
    var keep := (g: Group) => g.slug != slug;
    FilterPairwise(groups, keep, DifferentSlugs);
    Filter(groups, keep)
  }

  /** Deleting a user (`on_delete=CASCADE` on Post.author): that user's posts
      go, every other post stays, in the same order. */
  function WithoutAuthorPosts(posts: seq<Post>, user: UserName): (r: seq<Post>)
    ensures PostsNewestFirst(posts) ==> PostsNewestFirst(r)
    ensures DistinctIds(posts) ==> DistinctIds(r)
    ensures forall p :: p in r <==> p in posts && p.author != user
  {
    var keep := (p: Post) => p.author != user;
    FilterPairwise(posts, keep, PublishedAfter);
    FilterPairwise(posts, keep, DifferentIds);
    Filter(posts, keep)
  }

  /** Deleting a user (`on_delete=CASCADE` on both Follow.user and
      Follow.author): every edge the user is on goes, every other edge stays. */
  function WithoutUserFollows(follows: seq<Follow>, user: UserName): (r: seq<Follow>)
    ensures Distinct(follows) ==> Distinct(r)
    ensures forall f :: f in r <==> f in follows && f.user != user && f.author != user
  {
    var keep := (f: Follow) => f.user != user && f.author != user;
    FilterPairwise(follows, keep, Differ);
    Filter(follows, keep)
  }

  // ---- what the store keeps of each post ----

  /** What `Valid` asks of each stored post: stamped before now, with an
      id already handed out, by a stored user, in a stored group if any. */
  ghost predicate PostFits(p: Post, clock: nat, nextId: nat, users: set<UserName>, groups: seq<Group>)
  {
    p.pubDate < clock && p.id < nextId && p.author in users &&
    (p.group.Some? ==> HasGroup(groups, p.group.value))
  }

  /** After a group is deleted, every post still refers only to stored
      groups: the SET_NULL rule leaves no dangling group reference. */
  lemma DetachGroupFits(posts: seq<Post>, slug: Slug, clock: nat, nextId: nat,
                        users: set<UserName>, groups: seq<Group>)
    requires forall p :: p in posts ==> PostFits(p, clock, nextId, users, groups)
    ensures forall p :: p in DetachGroup(posts, slug) ==>
      PostFits(p, clock, nextId, users, WithoutGroup(groups, slug))
  {
    var r := DetachGroup(posts, slug);
    var rest := WithoutGroup(groups, slug);
    forall p | p in r ensures PostFits(p, clock, nextId, users, rest) {
      var k :| 0 <= k < |r| && r[k] == p;
      assert PostFits(posts[k], clock, nextId, users, groups);
      if p.group.Some? {
        var g :| g in groups && g.slug == p.group.value;
        assert g in rest;
      }
    }
  }

  /** Replacing one post with an edit that keeps its id and date keeps the
      table newest first and its ids distinct. */
  lemma EditKeepsStoreOrder(posts: seq<Post>, i: nat, q: Post)
    requires i < |posts| && q.pubDate == posts[i].pubDate && q.id == posts[i].id
    requires PostsNewestFirst(posts) && DistinctIds(posts)
    ensures PostsNewestFirst(posts[i := q]) && DistinctIds(posts[i := q])
  {
  }
}
