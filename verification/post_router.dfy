/** The post router's handlers as functions from the store to a response:
    create (hashtag indexing, then save), like, addComment, updatePost and the
    assembly of search results. The requester is the id the authentication
    middleware resolved. */
module PostRouter {
  import opened Common
  import opened Text
  import opened Seqs
  import opened Models
  import opened Database
  import opened HashtagScan
  import opened HashtagIndex

  /** The fields of a /create request body that the Post schema knows. Any
      `userId` in the body is overwritten by the requester, so it is not
      represented. */
  datatype CreateBody = CreateBody(
    content: Option<String>,
    image: Option<String>,
    likes: Option<int>,
    likedBy: Option<seq<UserId>>,
    comments: Option<seq<Comment>>)

  /** The `trim` setter of each comment's text. */
  function TrimComments(cs: seq<Comment>): (r: seq<Comment>)
    ensures |r| == |cs|
    ensures forall i :: 0 <= i < |r| ==> r[i].author == cs[i].author && r[i].text == Trim(cs[i].text)
    ensures forall i :: 0 <= i < |r| ==> NoOuterSpace(r[i].text)
    ensures forall i :: 0 <= i < |r| ==> (r[i] == cs[i] <==> NoOuterSpace(cs[i].text))
  {
    seq(|cs|, i requires 0 <= i < |cs| => Comment(Trim(cs[i].text), cs[i].author))
  }

  /** The shared tail of /create once the document is built: scan the content,
      find-or-create each hashtag and write its link, and only then save the
      post, which may still fail validation. `db` has already handed out
      `draft.id`. */
  function IndexAndSave(db: Store, draft: Post, isUrl: String -> bool): (r: Response<Post>)
    ensures var indexed := IndexTags(db, draft.id, Hashtags(draft.content));
      && (r.result.Ok? <==> PassesValidation(draft, isUrl))
      && (r.result.Ok? ==> r == Response(indexed.(posts := indexed.posts + [draft]), Ok(draft)))
      && (r.result.Err? ==> r == Response(indexed, Err(ServerError)))
    ensures r.result.Ok? ==> r.db.posts == db.posts + [draft] && r.result.value == draft
    ensures r.result.Err? ==> r.db.posts == db.posts
    ensures Extends(db.hashtags, r.db.hashtags)
    ensures r.db.links[..|db.links|] == db.links
    ensures LinksRecord(r.db.links, |db.links|, r.db.hashtags, draft.id, Hashtags(draft.content))
  {
    var indexed := IndexTags(db, draft.id, Hashtags(draft.content));
    if PassesValidation(draft, isUrl) then
      Response(indexed.(posts := indexed.posts + [draft]), Ok(draft))
    else
      Response(indexed, Err(ServerError))
  }

  /** POST /create as written: the document is built from the whole request
      body, so `likes`, `likedBy` and `comments` sent by the client are kept.
      Otherwise it behaves as the corrected handler below: one link per
      occurrence of a hashtag is written first, and the save that follows
      succeeds exactly when the document passes validation, which now also
      covers the client's comments. */
  function CreatePostAsWritten(st: Store, owner: UserId, body: CreateBody, isUrl: String -> bool): (r: Response<Post>)
    ensures body.content.None? ==> r == Response(st, Err(ServerError))
    ensures body.content.Some? ==>
      var tags := Hashtags(Trim(body.content.value));
      && LinksRecord(r.db.links, |st.links|, r.db.hashtags, st.nextId, tags)
      && r.db.links[..|st.links|] == st.links
      && Extends(st.hashtags, r.db.hashtags)
      && (r.result.Ok? <==>
            && Trim(body.content.value) != []
            && (body.image.Some? ==> isUrl(Trim(body.image.value)))
            && (body.comments.Some? ==>
                  forall i :: 0 <= i < |body.comments.value| ==> Trim(body.comments.value[i].text) != []))
      && (r.result.Err? ==> r.result.error == ServerError && r.db.posts == st.posts)
    ensures r.result.Ok? ==>
      var p := r.result.value;
      && body.content.Some?
      && r.db.posts == st.posts + [p]
      && p.id == st.nextId && p.owner == owner
      && p.content == Trim(body.content.value) && p.image == TrimImage(body.image)
      && p.likes == (if body.likes.Some? then body.likes.value else 0)
      && p.likedBy == (if body.likedBy.Some? then body.likedBy.value else [])
      && p.comments == (if body.comments.Some? then TrimComments(body.comments.value) else [])
  {
    match body.content
    case None => Response(st, Err(ServerError))
    case Some(c) =>
      var draft := Post(
        st.nextId, Trim(c), TrimImage(body.image), owner,
        if body.likes.Some? then body.likes.value else 0,
        if body.likedBy.Some? then body.likedBy.value else [],
        if body.comments.Some? then TrimComments(body.comments.value) else []);
      IndexAndSave(st.(nextId := st.nextId + 1), draft, isUrl)
  }

  /** POST /create with the document built from `content` and `image` only and
      the schema defaults for the rest. A missing content makes the handler
      fail before anything is written. Otherwise one link per occurrence of a
      hashtag is written first, each naming the new post and the hashtag of
      that name; the post is saved only if it passes validation, and the links
      stay either way. */
  function CreatePost(st: Store, owner: UserId, body: CreateBody, isUrl: String -> bool): (r: Response<Post>)
    ensures body.content.None? ==> r == Response(st, Err(ServerError))
    ensures body.content.Some? ==>
      var content := Trim(body.content.value);
      var tags := Hashtags(content);
      && LinksRecord(r.db.links, |st.links|, r.db.hashtags, st.nextId, tags)
      && r.db.links[..|st.links|] == st.links
      && Extends(st.hashtags, r.db.hashtags)
      && (forall t :: t in tags ==> t in Names(r.db.hashtags))
      && (r.result.Ok? <==> content != [] && (body.image.Some? ==> isUrl(Trim(body.image.value))))
      && (r.result.Err? ==> r.result.error == ServerError && r.db.posts == st.posts)
    ensures r.result.Ok? ==>
      var p := r.result.value;
      && r.db.posts == st.posts + [p]
      && p.id == st.nextId && p.owner == owner
      && p.content == Trim(body.content.value) && p.image == TrimImage(body.image)
      && p.likes == 0 && p.likedBy == [] && p.comments == []
  {
    match body.content
    case None => Response(st, Err(ServerError))
    case Some(c) =>
      var draft := NewPost(st.nextId, owner, c, body.image);
      var db := st.(nextId := st.nextId + 1);
      IndexTagsCovers(db, draft.id, Hashtags(draft.content));
      IndexAndSave(db, draft, isUrl)
  }

  /** Replace the k-th post by `p` and save it; a validation failure answers a
      server error and writes nothing. */
  function Save(st: Store, k: nat, p: Post, isUrl: String -> bool): (r: Response<Post>)
    requires k < |st.posts|
    ensures r.result.Ok? <==> PassesValidation(p, isUrl)
    ensures r.result.Ok? ==> r == Response(st.(posts := st.posts[k := p]), Ok(p))
    ensures r.result.Err? ==> r == Response(st, Err(ServerError))
    ensures |r.db.posts| == |st.posts| && r.db.posts[k] in {st.posts[k], p}
    ensures forall j :: 0 <= j < |st.posts| && j != k ==> r.db.posts[j] == st.posts[j]
    ensures r.db.hashtags == st.hashtags && r.db.links == st.links && r.db.nextId == st.nextId
  {
    if PassesValidation(p, isUrl) then Response(st.(posts := st.posts[k := p]), Ok(p))
    else Response(st, Err(ServerError))
  }

  /** POST /like/:id by `user`. A missing post answers NotFound and a user
      already among the likers AlreadyLiked, both changing nothing; otherwise
      the counter grows by one and the user is appended to `likedBy`, and no
      other field or post changes. */
  function Like(st: Store, id: DocId, user: UserId, isUrl: String -> bool): (r: Response<Post>)
    ensures r.result.Err? ==> r.db == st
    ensures PostIndex(st.posts, id).None? ==> r.result == Err(NotFound)
    ensures PostIndex(st.posts, id).Some? ==>
      var k := PostIndex(st.posts, id).value;
      var p := st.posts[k];
      && (user in p.likedBy ==> r.result == Err(AlreadyLiked))
      && (r.result.Ok? ==>
            var q := r.result.value;
            && user !in p.likedBy
            && q.likes == p.likes + 1 && q.likedBy == p.likedBy + [user]
            && q.id == p.id && q.content == p.content && q.image == p.image
            && q.owner == p.owner && q.comments == p.comments
            && r.db == st.(posts := st.posts[k := q]))
      && (Valid(st, isUrl) && user !in p.likedBy ==> r.result.Ok?)
  {
    match PostIndex(st.posts, id)
    case None => Response(st, Err(NotFound))
    case Some(k) =>
      var p := st.posts[k];
      if user in p.likedBy then Response(st, Err(AlreadyLiked))
      else
        assert Valid(st, isUrl) ==> ValidPost(p, st.nextId, isUrl);
        Save(st, k, p.(likes := p.likes + 1, likedBy := p.likedBy + [user]), isUrl)
  }

  /** POST /addComment/:id by `user`. Any authenticated user may comment. A
      missing post answers NotFound; otherwise exactly one entry with the
      trimmed text and the commenter is appended, and nothing else changes. A
      missing or blank text fails the `required` validator on save. */
  function AddComment(st: Store, id: DocId, user: UserId, text: Option<String>, isUrl: String -> bool): (r: Response<Post>)
    ensures r.result.Err? ==> r.db == st
    ensures PostIndex(st.posts, id).None? ==> r.result == Err(NotFound)
    ensures PostIndex(st.posts, id).Some? ==>
      var k := PostIndex(st.posts, id).value;
      var p := st.posts[k];
      && (r.result.Ok? ==>
            var q := r.result.value;
            && text.Some?
            && q.comments == p.comments + [Comment(Trim(text.value), user)]
            && q.id == p.id && q.content == p.content && q.image == p.image
            && q.owner == p.owner && q.likes == p.likes && q.likedBy == p.likedBy
            && r.db == st.(posts := st.posts[k := q]))
      && (Valid(st, isUrl) ==> (r.result.Ok? <==> text.Some? && Trim(text.value) != []))
      && (r.result.Err? ==> r.result.error == ServerError)
  {
    match PostIndex(st.posts, id)
    case None => Response(st, Err(NotFound))
    case Some(k) =>
      match text
      case None => Response(st, Err(ServerError))
      case Some(t) =>
        var p := st.posts[k];
        AppendCommentPasses(p, Comment(Trim(t), user), isUrl);
        assert Valid(st, isUrl) ==> ValidPost(p, st.nextId, isUrl);
        Save(st, k, p.(comments := p.comments + [Comment(Trim(t), user)]), isUrl)
  }

  /** The keys an update may carry. */
  const AllowedUpdates: set<String> := {"content", "image"}

  /** Assign each supplied key to the post field of that name, through the
      field's `trim` setter. */
  function ApplyUpdates(p: Post, body: map<String, String>): (q: Post)
    ensures q.content == (if "content" in body then Trim(body["content"]) else p.content)
    ensures q.image == (if "image" in body then Some(Trim(body["image"])) else p.image)
    ensures q.id == p.id && q.owner == p.owner && q.likes == p.likes
    ensures q.likedBy == p.likedBy && q.comments == p.comments
  {
    var withContent := if "content" in body then p.(content := Trim(body["content"])) else p;
    if "image" in body then withContent.(image := Some(Trim(body["image"]))) else withContent
  }

  /** PATCH /updatePost/:id by `user`. A key outside {content, image} is
      rejected before any lookup, with nothing changed. Only a post that `user`
      owns is found; otherwise NotFound. On success exactly the supplied keys
      are overwritten; an empty body saves the post unchanged. */
  function UpdatePost(st: Store, id: DocId, user: UserId, body: map<String, String>, isUrl: String -> bool): (r: Response<Post>)
    ensures r.result.Err? ==> r.db == st
    ensures !(body.Keys <= AllowedUpdates) ==> r.result == Err(InvalidUpdates)
    ensures body.Keys <= AllowedUpdates && OwnedPostIndex(st.posts, id, user).None? ==> r.result == Err(NotFound)
    ensures r.result.Ok? ==>
      && body.Keys <= AllowedUpdates
      && OwnedPostIndex(st.posts, id, user).Some?
      && var k := OwnedPostIndex(st.posts, id, user).value;
         var p := st.posts[k];
         var q := r.result.value;
         && q.id == id && q.owner == user
         && q.content == (if "content" in body then Trim(body["content"]) else p.content)
         && q.image == (if "image" in body then Some(Trim(body["image"])) else p.image)
         && q.likes == p.likes && q.likedBy == p.likedBy && q.comments == p.comments
         && r.db == st.(posts := st.posts[k := q])
    ensures Valid(st, isUrl) && body == map[] ==>
      r.db == st && (r.result.Ok? <==> OwnedPostIndex(st.posts, id, user).Some?)
    ensures Valid(st, isUrl) && body.Keys <= AllowedUpdates && OwnedPostIndex(st.posts, id, user).Some? ==>
      (r.result.Ok? <==>
         && ("content" in body ==> Trim(body["content"]) != [])
         && ("image" in body ==> isUrl(Trim(body["image"]))))
    ensures body.Keys <= AllowedUpdates && OwnedPostIndex(st.posts, id, user).Some? && r.result.Err? ==>
      r.result.error == ServerError
  {
    if !(body.Keys <= AllowedUpdates) then Response(st, Err(InvalidUpdates))
    else
      match OwnedPostIndex(st.posts, id, user)
      case None => Response(st, Err(NotFound))
      case Some(k) =>
        var p := st.posts[k];
        assert Valid(st, isUrl) ==> ValidPost(p, st.nextId, isUrl);
        assert body == map[] ==> ApplyUpdates(p, body) == p;
        Save(st, k, ApplyUpdates(p, body), isUrl)
  }

  /** `populate("postId")` of one link: the post with that id, or nothing
      (null) when no post carries it. */
  function LookupPost(posts: seq<Post>, id: DocId): (r: Option<Post>)
    ensures r.Some? ==> r.value in posts && r.value.id == id
    ensures r.None? <==> forall j :: 0 <= j < |posts| ==> posts[j].id != id
    decreases |posts|
  {
    if |posts| == 0 then None
    else if posts[0].id == id then Some(posts[0])
    else LookupPost(posts[1..], id)
  }

  /** Populate resolves an id the way `findById` does: it finds nothing
      exactly when `PostIndex` finds nothing, and otherwise the post at the
      position `PostIndex` answers, the first one with that id. */
  lemma {:induction false} LookupPostAgrees(posts: seq<Post>, id: DocId)
    ensures LookupPost(posts, id).None? <==> PostIndex(posts, id).None?
    ensures LookupPost(posts, id).Some? ==> LookupPost(posts, id).value == posts[PostIndex(posts, id).value]
    decreases |posts|
  {
    if |posts| > 0 && posts[0].id != id {
      LookupPostAgrees(posts[1..], id);
    }
  }

  /** The posts whose content matches the search text, in natural order. */
  function ContentHits(st: Store, matches: String -> bool): (hits: seq<Post>)
    ensures forall p :: p in hits <==> p in st.posts && matches(p.content)
    ensures forall p :: multiset(hits)[p] == if matches(p.content) then multiset(st.posts)[p] else 0
  {
    var keep := (p: Post) => matches(p.content);
    FilterMembers(st.posts, keep);
    FilterCounts(st.posts, keep);
    Filter(st.posts, keep)
  }

  /** The ids of the hashtags whose name matches the search text. */
  function MatchingHashtagIds(hashtags: seq<Hashtag>, matches: String -> bool): set<DocId> {
    set h | h in hashtags && matches(h.name) :: h.id
  }

  /** The links whose hashtag is one of the matching hashtags, in natural order. */
  function LinkHits(st: Store, matches: String -> bool): (hits: seq<Link>)
    ensures forall l :: l in hits <==> l in st.links && l.hashtagId in MatchingHashtagIds(st.hashtags, matches)
    ensures forall l :: multiset(hits)[l] ==
                        if l.hashtagId in MatchingHashtagIds(st.hashtags, matches) then multiset(st.links)[l] else 0
  {
    var keep := (l: Link) => l.hashtagId in MatchingHashtagIds(st.hashtags, matches);
    FilterMembers(st.links, keep);
    FilterCounts(st.links, keep);
    Filter(st.links, keep)
  }

  /** The content hits keep the natural order: the hits among the first posts
      come before the hits among the later ones. */
  lemma {:induction false} ContentHitsConcat(st: Store, a: seq<Post>, b: seq<Post>, matches: String -> bool)
    ensures ContentHits(st.(posts := a + b), matches)
         == ContentHits(st.(posts := a), matches) + ContentHits(st.(posts := b), matches)
  {
    FilterConcat(a, b, (p: Post) => matches(p.content));
  }

  /** The link hits keep the natural order of the links. */
  lemma {:induction false} LinkHitsConcat(st: Store, a: seq<Link>, b: seq<Link>, matches: String -> bool)
    ensures LinkHits(st.(links := a + b), matches)
         == LinkHits(st.(links := a), matches) + LinkHits(st.(links := b), matches)
  {
    FilterConcat(a, b, (l: Link) => l.hashtagId in MatchingHashtagIds(st.hashtags, matches));
  }

  /** Every post of `ps`, wrapped as a found document. */
  function Found(ps: seq<Post>): (r: seq<Option<Post>>)
    ensures |r| == |ps|
    ensures forall i {:trigger r[i]} :: 0 <= i < |ps| ==> r[i] == Some(ps[i])
    decreases |ps|
  {
    if |ps| == 0 then [] else [Some(ps[0])] + Found(ps[1..])
  }

  /** The populated `postId` of every link: the post it names, or nothing when
      that post does not exist. */
  function Populate(posts: seq<Post>, links: seq<Link>): (r: seq<Option<Post>>)
    ensures |r| == |links|
    ensures forall j {:trigger r[j]} :: 0 <= j < |links| ==> r[j] == LookupPost(posts, links[j].postId)
    decreases |links|
  {
    if |links| == 0 then [] else [LookupPost(posts, links[0].postId)] + Populate(posts, links[1..])
  }

  /** The `posts` field of GET /post/search/:searchText. `matches` stands for
      the case-insensitive regular expression built from the search text: the
      posts matched on content, in natural order, followed by the post of every
      link whose hashtag matched, with nothing removed. */
  function Search(st: Store, matches: String -> bool): (r: seq<Option<Post>>)
    ensures |r| == |ContentHits(st, matches)| + |LinkHits(st, matches)|
    ensures forall i :: 0 <= i < |ContentHits(st, matches)| ==> r[i] == Some(ContentHits(st, matches)[i])
    ensures forall k :: |ContentHits(st, matches)| <= k < |r| ==>
      r[k] == LookupPost(st.posts, LinkHits(st, matches)[k - |ContentHits(st, matches)|].postId)
  {
    var head := Found(ContentHits(st, matches));
    var tail := Populate(st.posts, LinkHits(st, matches));
    head + tail
  }
}
