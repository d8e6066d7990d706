/** Properties of the post handlers that relate several calls or the store
    invariant: every handler keeps `Valid`, liking twice is refused, the
    create handler's hashtag bookkeeping, and the duplicates search keeps. */
module PostProperties {
  import opened Common
  import opened Text
  import opened Seqs
  import opened Models
  import opened Database
  import opened HashtagScan
  import opened HashtagIndex
  import opened PostRouter

  /** Replacing a post by a valid post with the same id keeps the invariant. */
  lemma {:induction false} ReplacePostValid(st: Store, k: nat, q: Post, isUrl: String -> bool)
    requires Valid(st, isUrl) && k < |st.posts|
    requires ValidPost(q, st.nextId, isUrl) && q.id == st.posts[k].id
    ensures Valid(st.(posts := st.posts[k := q]), isUrl)
  {
    var posts := st.posts[k := q];
    forall a, b | 0 <= a < b < |posts| ensures posts[a].id != posts[b].id {
      assert posts[a].id == st.posts[a].id && posts[b].id == st.posts[b].id;
    }
  }

  /** A successful like keeps every post's counter equal to its number of
      distinct likers, and the rest of the invariant. */
  lemma {:induction false} LikeValid(st: Store, id: DocId, user: UserId, isUrl: String -> bool)
    requires Valid(st, isUrl)
    ensures Valid(Like(st, id, user, isUrl).db, isUrl)
  {
    var r := Like(st, id, user, isUrl);
    if r.result.Ok? {
      var k := PostIndex(st.posts, id).value;
      var p := st.posts[k];
      var q := r.result.value;
      assert ValidPost(p, st.nextId, isUrl);
      assert Distinct(q.likedBy) by {
        forall a, b | 0 <= a < b < |q.likedBy| ensures q.likedBy[a] != q.likedBy[b] {
          if b == |p.likedBy| {
            assert q.likedBy[a] == p.likedBy[a];
          } else {
            assert q.likedBy[a] == p.likedBy[a] && q.likedBy[b] == p.likedBy[b];
          }
        }
      }
      assert Trimmed(q) by {
        assert forall c :: c in q.comments ==> c in p.comments;
      }
      ReplacePostValid(st, k, q, isUrl);
    }
  }

  /** Liking a post a second time is refused and changes nothing: the count
      stays at its value after the first like. */
  lemma {:induction false} LikeTwiceRefused(st: Store, id: DocId, user: UserId, isUrl: String -> bool)
    requires Like(st, id, user, isUrl).result.Ok?
    ensures var first := Like(st, id, user, isUrl).db;
      Like(first, id, user, isUrl) == Response(first, Err(AlreadyLiked))
  {
    var first := Like(st, id, user, isUrl);
    var k := PostIndex(st.posts, id).value;
    var q := first.result.value;
    assert first.db.posts[k] == q;
    var k' := PostIndex(first.db.posts, id).value;
    assert k' == k by {
      forall j | 0 <= j < k ensures first.db.posts[j].id != id {
        assert first.db.posts[j] == st.posts[j];
      }
    }
    assert user in q.likedBy by {
      assert q.likedBy[|q.likedBy| - 1] == user;
    }
  }

  /** A successful addComment keeps the invariant. */
  lemma {:induction false} AddCommentValid(st: Store, id: DocId, user: UserId, text: Option<String>, isUrl: String -> bool)
    requires Valid(st, isUrl)
    ensures Valid(AddComment(st, id, user, text, isUrl).db, isUrl)
  {
    var r := AddComment(st, id, user, text, isUrl);
    if r.result.Ok? {
      var k := PostIndex(st.posts, id).value;
      var p := st.posts[k];
      var q := r.result.value;
      assert ValidPost(p, st.nextId, isUrl);
      assert Trimmed(q) by {
        forall c | c in q.comments ensures NoOuterSpace(c.text) {
          if c !in p.comments {
            assert c == Comment(Trim(text.value), user);
          }
        }
      }
      ReplacePostValid(st, k, q, isUrl);
    }
  }

  /** A successful updatePost keeps the invariant: the new content and image go
      through the trim setters and pass validation. */
  lemma {:induction false} UpdatePostValid(st: Store, id: DocId, user: UserId, body: map<String, String>, isUrl: String -> bool)
    requires Valid(st, isUrl)
    ensures Valid(UpdatePost(st, id, user, body, isUrl).db, isUrl)
  {
    var r := UpdatePost(st, id, user, body, isUrl);
    if r.result.Ok? {
      var k := OwnedPostIndex(st.posts, id, user).value;
      var p := st.posts[k];
      assert ValidPost(p, st.nextId, isUrl);
      ReplacePostValid(st, k, r.result.value, isUrl);
    }
  }

  /** Every hashtag the scanner produces is an acceptable Hashtag name. */
  lemma {:induction false} HashtagsAreValidNames(s: String)
    ensures forall k :: 0 <= k < |Hashtags(s)| ==> ValidHashtagName(Hashtags(s)[k])
  {
    forall k | 0 <= k < |Hashtags(s)| ensures ValidHashtagName(Hashtags(s)[k]) {
      TagIsTrimmed(Hashtags(s)[k]);
    }
  }

  /** /create keeps the invariant, whether or not the post itself is saved. */
  lemma {:induction false} CreatePostValid(st: Store, owner: UserId, body: CreateBody, isUrl: String -> bool)
    requires Valid(st, isUrl)
    ensures Valid(CreatePost(st, owner, body, isUrl).db, isUrl)
  {
    if body.content.Some? {
      var draft := NewPost(st.nextId, owner, body.content.value, body.image);
      var db := st.(nextId := st.nextId + 1);
      var tags := Hashtags(draft.content);
      CreatePostUnfold(st, owner, body, isUrl);
      HashtagsAreValidNames(draft.content);
      assert Valid(db, isUrl);
      IndexTagsValid(db, draft.id, tags, isUrl);
      var indexed := IndexTags(db, draft.id, tags);
      var r := IndexAndSave(db, draft, isUrl);
      if r.result.Ok? {
        assert r.db == indexed.(posts := indexed.posts + [draft]);
        forall k | 0 <= k < |indexed.posts| ensures indexed.posts[k].id != draft.id {
          assert ValidPost(st.posts[k], st.nextId, isUrl);
        }
        InsertPostValid(indexed, draft, isUrl);
      }
    }
  }

  /** Content without a `#` immediately followed by a word character creates
      no hashtag and no link, and the post is still saved when it passes
      validation. */
  lemma {:induction false} CreateWithoutTags(st: Store, owner: UserId, body: CreateBody, isUrl: String -> bool)
    requires body.content.Some?
    requires forall p :: !TagStartsAt(Trim(body.content.value), p)
    ensures var r := CreatePost(st, owner, body, isUrl);
      && r.db.hashtags == st.hashtags && r.db.links == st.links
      && (r.result.Ok? <==> Trim(body.content.value) != [] && (body.image.Some? ==> isUrl(Trim(body.image.value))))
  {
    var content := Trim(body.content.value);
    NoHashtagsIffNoTagStart(content);
    var r := CreatePost(st, owner, body, isUrl);
    assert r.db.links == r.db.links[..|st.links|];
    var db := st.(nextId := st.nextId + 1);
    assert IndexTags(db, st.nextId, []) == db;
  }

  /** Links recorded for a post id that no post carries all dangle. */
  lemma {:induction false} RecordedLinksDangle(links: seq<Link>, from: nat, hashtags: seq<Hashtag>, postId: DocId, tags: seq<String>, posts: seq<Post>)
    requires LinksRecord(links, from, hashtags, postId, tags)
    requires forall i :: 0 <= i < |posts| ==> posts[i].id != postId
    ensures forall j :: from <= j < |links| ==> links[j].postId == postId && PostIndex(posts, links[j].postId).None?
  {
  }

  /** The links are written before the post is saved: when the save fails,
      the links of every occurrence are still there, and they name a post id
      that no stored post carries. */
  lemma {:induction false} CreateFailureKeepsLinks(st: Store, owner: UserId, body: CreateBody, isUrl: String -> bool)
    requires Valid(st, isUrl) && body.content.Some?
    requires CreatePost(st, owner, body, isUrl).result.Err?
    ensures var r := CreatePost(st, owner, body, isUrl);
      && |r.db.links| == |st.links| + |Hashtags(Trim(body.content.value))|
      && forall j :: |st.links| <= j < |r.db.links| ==>
           r.db.links[j].postId == st.nextId
           && PostIndex(r.db.posts, r.db.links[j].postId).None?
  {
    var r := CreatePost(st, owner, body, isUrl);
    var tags := Hashtags(Trim(body.content.value));
    assert LinksRecord(r.db.links, |st.links|, r.db.hashtags, st.nextId, tags);
    assert r.db.posts == st.posts;
    forall i | 0 <= i < |st.posts| ensures st.posts[i].id != st.nextId {
      assert ValidPost(st.posts[i], st.nextId, isUrl);
    }
    RecordedLinksDangle(r.db.links, |st.links|, r.db.hashtags, st.nextId, tags, r.db.posts);
  }

  /** The posts found by content are exactly the posts whose content
      matches, each one found. */
  lemma {:induction false} SearchContentPrefix(st: Store, matches: String -> bool, p: Post)
    ensures var r := Search(st, matches);
      var n := |ContentHits(st, matches)|;
      Some(p) in r[..n] <==> p in st.posts && matches(p.content)
  {
    var r := Search(st, matches);
    var hits := ContentHits(st, matches);
    if p in hits {
      var i :| 0 <= i < |hits| && hits[i] == p;
      assert r[..|hits|][i] == Some(p);
    }
    if Some(p) in r[..|hits|] {
      var i :| 0 <= i < |hits| && r[..|hits|][i] == Some(p);
      assert r[i] == Some(hits[i]);
      assert hits[i] in hits;
    }
  }

  /** A post that matches on its content and also through one of its
      hashtags is returned twice: search does not de-duplicate. */
  lemma {:induction false} SearchKeepsDuplicates(st: Store, matches: String -> bool, p: Post, l: Link, name: String)
    requires p in st.posts && matches(p.content)
    requires l in st.links && Hashtag(l.hashtagId, name) in st.hashtags && matches(name)
    requires LookupPost(st.posts, l.postId) == Some(p)
    ensures var r := Search(st, matches);
      exists i, j :: 0 <= i < j < |r| && r[i] == Some(p) && r[j] == Some(p)
  {
    var r := Search(st, matches);
    var content := ContentHits(st, matches);
    var hits := LinkHits(st, matches);
    var i :| 0 <= i < |content| && content[i] == p;
    assert r[i] == Some(p);
    assert l.hashtagId in MatchingHashtagIds(st.hashtags, matches);
    assert l in hits;
    var m :| 0 <= m < |hits| && hits[m] == l;
    var k := |content| + m;
    assert k - |content| == m;
    assert r[k] == LookupPost(st.posts, hits[m].postId);
  }

  /** With content present, /create is the shared index-and-save tail applied
      to the default-filled document. */
  lemma {:induction false} CreatePostUnfold(st: Store, owner: UserId, body: CreateBody, isUrl: String -> bool)
    requires body.content.Some?
    ensures var draft := NewPost(st.nextId, owner, body.content.value, body.image);
      var db := st.(nextId := st.nextId + 1);
      var indexed := IndexTags(db, st.nextId, Hashtags(draft.content));
      && CreatePost(st, owner, body, isUrl) == IndexAndSave(db, draft, isUrl)
      && CreatePost(st, owner, body, isUrl).db.hashtags == indexed.hashtags
      && CreatePost(st, owner, body, isUrl).db.links == indexed.links
  {
    var draft := NewPost(st.nextId, owner, body.content.value, body.image);
    var db := st.(nextId := st.nextId + 1);
    var r := IndexAndSave(db, draft, isUrl);
    assert CreatePost(st, owner, body, isUrl) == r;
    assert r.db.hashtags == IndexTags(db, st.nextId, Hashtags(draft.content)).hashtags;
  }

  /** A tag list that repeats one absent name has exactly that name absent. */
  lemma {:induction false} OnlyAbsentName(tags: seq<String>, name: String, known: set<String>)
    requires |tags| > 0 && name !in known
    requires forall i :: 0 <= i < |tags| ==> tags[i] == name
    ensures (set t | t in tags && t !in known) == {name}
  {
    assert tags[0] == name;
  }

  /** Content whose hashtags are one absent name twice (such as "#foo #foo",
      see RepeatedTagExample) writes two links and one Hashtag. */
  lemma {:induction false} RepeatedTagOneHashtagTwoLinks(st: Store, owner: UserId, body: CreateBody, tag: String, isUrl: String -> bool)
    requires Valid(st, isUrl) && body.content.Some?
    requires Hashtags(Trim(body.content.value)) == [tag, tag] && tag !in Names(st.hashtags)
    ensures var r := CreatePost(st, owner, body, isUrl);
      |r.db.links| == |st.links| + 2 && |r.db.hashtags| == |st.hashtags| + 1
  {
    var draft := NewPost(st.nextId, owner, body.content.value, body.image);
    var db := st.(nextId := st.nextId + 1);
    HashtagsAreValidNames(draft.content);
    assert ValidHashtagName(tag) by {
      assert Hashtags(draft.content)[0] == tag;
    }
    RepeatedTagIndexed(db, st.nextId, tag, [tag, tag], isUrl);
    CreatePostUnfold(st, owner, body, isUrl);
  }

  /** Indexing one absent name any positive number of times creates one
      hashtag and one link per occurrence. */
  lemma {:induction false} RepeatedTagIndexed(db: Store, postId: DocId, tag: String, tags: seq<String>, isUrl: String -> bool)
    requires Valid(db, isUrl) && postId < db.nextId
    requires ValidHashtagName(tag) && tag !in Names(db.hashtags)
    requires |tags| > 0 && forall i :: 0 <= i < |tags| ==> tags[i] == tag
    ensures var r := IndexTags(db, postId, tags);
      |r.links| == |db.links| + |tags| && |r.hashtags| == |db.hashtags| + 1
  {
    IndexTagsCreatesDistinctAbsent(db, postId, tags, isUrl);
    OnlyAbsentName(tags, tag, Names(db.hashtags));
  }

  /** As written, /create copies a client-supplied `likes` into the new post:
      any non-blank content sent with a non-zero `likes` and no `likedBy` is
      saved with that count and no likers, so the store no longer satisfies
      the like invariant. */
  lemma {:induction false} CreateAsWrittenForgesLikes(st: Store, owner: UserId, content: String, n: int, isUrl: String -> bool)
    requires Trim(content) != [] && n != 0
    ensures var r := CreatePostAsWritten(st, owner, CreateBody(Some(content), None, Some(n), None, None), isUrl);
      && r.result.Ok? && r.result.value.likes == n && r.result.value.likedBy == []
      && !LikeInvariant(r.result.value) && !Valid(r.db, isUrl)
  {
    var draft := Post(st.nextId, Trim(content), None, owner, n, [], []);
    var db := st.(nextId := st.nextId + 1);
    AsWrittenUnfold(st, owner, content, n, isUrl);
    SavedDraftBreaksInvariant(db, draft, isUrl);
  }

  /** On a body holding only `content` and `image`, the handler as written and
      the corrected handler give the same response: the two differ only in the
      fields the client should not be able to set. */
  lemma {:induction false} AsWrittenAgrees(st: Store, owner: UserId, body: CreateBody, isUrl: String -> bool)
    requires body.likes.None? && body.likedBy.None? && body.comments.None?
    ensures CreatePostAsWritten(st, owner, body, isUrl) == CreatePost(st, owner, body, isUrl)
  {
  }

  /** The document the as-written handler builds for content and likes only. */
  lemma {:induction false} AsWrittenUnfold(st: Store, owner: UserId, content: String, n: int, isUrl: String -> bool)
    ensures CreatePostAsWritten(st, owner, CreateBody(Some(content), None, Some(n), None, None), isUrl)
      == IndexAndSave(st.(nextId := st.nextId + 1), Post(st.nextId, Trim(content), None, owner, n, [], []), isUrl)
  {
    var body := CreateBody(Some(content), None, Some(n), None, None);
    assert TrimImage(body.image) == None;
    var draft := Post(st.nextId, Trim(content), None, owner, n, [], []);
    assert CreatePostAsWritten(st, owner, body, isUrl) == IndexAndSave(st.(nextId := st.nextId + 1), draft, isUrl);
  }

  /** Saving a draft whose counter disagrees with its likers succeeds and leaves
      an invalid store. */
  lemma {:induction false} SavedDraftBreaksInvariant(db: Store, draft: Post, isUrl: String -> bool)
    requires draft.content != [] && draft.image.None? && draft.comments == []
    requires draft.likes != |draft.likedBy|
    ensures var r := IndexAndSave(db, draft, isUrl);
      r.result == Ok(draft) && !Valid(r.db, isUrl)
  {
    var r := IndexAndSave(db, draft, isUrl);
    assert PassesValidation(draft, isUrl);
    var posts := r.db.posts;
    assert posts[|posts| - 1] == draft;
    assert !ValidPost(posts[|posts| - 1], r.db.nextId, isUrl);
  }

  /** The request body {content: "hi", likes: 5} is such an input. */
  lemma {:induction false} CreateAsWrittenExample(st: Store, isUrl: String -> bool)
    ensures var r := CreatePostAsWritten(st, 0, CreateBody(Some("hi"), None, Some(5), None, None), isUrl);
      r.result.Ok? && r.result.value.likes == 5 && !LikeInvariant(r.result.value)
  {
    assert !IsSpace("hi"[0]);
    CreateAsWrittenForgesLikes(st, 0, "hi", 5, isUrl);
  }
}
