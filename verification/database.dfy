/** The three collections as one in-memory store, and the store-wide
    invariant the handlers keep. Collections are sequences in natural
    (insertion) order; ObjectIds are fresh naturals drawn from `nextId`. */
module Database {
  import opened Common
  import opened Text
  import opened Seqs
  import opened Models

  datatype Store = Store(posts: seq<Post>, hashtags: seq<Hashtag>, links: seq<Link>, nextId: nat)

  /** The state of a handler call: the store afterwards and the answer. */
  datatype Response<+T> = Response(db: Store, result: Result<T>)

  /** `Post.findById(id)`. */
  function PostIndex(posts: seq<Post>, id: DocId): (r: Option<nat>)
    ensures r.Some? ==> r.value < |posts| && posts[r.value].id == id
    ensures r.None? <==> forall j :: 0 <= j < |posts| ==> posts[j].id != id
  {
    FirstIndex(posts, (p: Post) => p.id == id)
  }

  /** `Post.findOne({ _id: id, userId: user })`: the post only if `user` owns it. */
  function OwnedPostIndex(posts: seq<Post>, id: DocId, user: UserId): (r: Option<nat>)
    ensures r.Some? ==> r.value < |posts| && posts[r.value].id == id && posts[r.value].owner == user
    ensures r.None? <==> forall j :: 0 <= j < |posts| ==> !(posts[j].id == id && posts[j].owner == user)
  {
    FirstIndex(posts, (p: Post) => p.id == id && p.owner == user)
  }

  /** `Hashtag.findOne({ name: name })`. */
  function HashtagIndexOf(hashtags: seq<Hashtag>, name: String): (r: Option<nat>)
    ensures r.Some? ==> r.value < |hashtags| && hashtags[r.value].name == name
    ensures r.None? <==> forall j :: 0 <= j < |hashtags| ==> hashtags[j].name != name
  {
    FirstIndex(hashtags, (h: Hashtag) => h.name == name)
  }

  /** The names present in the Hashtag collection. */
  function Names(hashtags: seq<Hashtag>): set<String> {
    set h | h in hashtags :: h.name
  }

  /** The ids present in the Hashtag collection. */
  function HashtagIds(hashtags: seq<Hashtag>): set<DocId> {
    set h | h in hashtags :: h.id
  }

  /** The unique index on `name`, and distinct ObjectIds. */
  predicate HashtagKeysUnique(hashtags: seq<Hashtag>) {
    forall a, b :: 0 <= a < b < |hashtags| ==>
      hashtags[a].name != hashtags[b].name && hashtags[a].id != hashtags[b].id
  }

  /** A stored post: trimmed, valid, consistent likes, id already handed out. */
  predicate ValidPost(p: Post, nextId: nat, isUrl: String -> bool) {
    Trimmed(p) && PassesValidation(p, isUrl) && LikeInvariant(p) && p.id < nextId
  }

  /** What every reachable store satisfies. Links may point at a post id that
      no post carries: the create handler writes them before the post's own
      save, which can still fail. */
  predicate Valid(st: Store, isUrl: String -> bool) {
    && (forall k :: 0 <= k < |st.posts| ==> ValidPost(st.posts[k], st.nextId, isUrl))
    && (forall a, b :: 0 <= a < b < |st.posts| ==> st.posts[a].id != st.posts[b].id)
    && (forall k :: 0 <= k < |st.hashtags| ==>
          ValidHashtagName(st.hashtags[k].name) && st.hashtags[k].id < st.nextId)
    && HashtagKeysUnique(st.hashtags)
    && (forall k :: 0 <= k < |st.links| ==>
          st.links[k].postId < st.nextId && st.links[k].hashtagId in HashtagIds(st.hashtags))
  }

  /** Inserting a valid post under an id no stored post carries keeps the
      invariant. */
  lemma {:induction false} InsertPostValid(st: Store, p: Post, isUrl: String -> bool)
    requires Valid(st, isUrl) && ValidPost(p, st.nextId, isUrl)
    requires forall k :: 0 <= k < |st.posts| ==> st.posts[k].id != p.id
    ensures Valid(st.(posts := st.posts + [p]), isUrl)
  {
    var posts := st.posts + [p];
    forall a, b | 0 <= a < b < |posts| ensures posts[a].id != posts[b].id {
      if b == |st.posts| {
        assert posts[a] == st.posts[a];
      }
    }
  }
}
