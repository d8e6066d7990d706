/** The three document shapes of the post side of the schema: Post (with its
    embedded like and comment entries), Hashtag and the Post_Hashtag link.
    Every reference the schema marks `required` is a plain (non-optional)
    field here, so no record can lack one. */
module Models {
  import opened Common
  import opened Text
  import opened Seqs

  /** A user's ObjectId. */
  type UserId = nat

  /** Any other document's ObjectId. */
  type DocId = nat

  /** One entry of a post's `comments` array. */
  datatype Comment = Comment(text: String, author: UserId)

  /** A Post document. `likedBy` holds the `userId` of each like entry. */
  datatype Post = Post(
    id: DocId,
    content: String,
    image: Option<String>,
    owner: UserId,
    likes: int,
    likedBy: seq<UserId>,
    comments: seq<Comment>)

  /** A Hashtag document; `name` is the matched text, `#` included. */
  datatype Hashtag = Hashtag(id: DocId, name: String)

  /** A Post_Hashtag document: one occurrence of a hashtag in a post. */
  datatype Link = Link(postId: DocId, hashtagId: DocId)

  /** The like counter agrees with the like list, and nobody likes twice. */
  predicate LikeInvariant(p: Post) {
    p.likes == |p.likedBy| && Distinct(p.likedBy)
  }

  /** The `trim: true` setters have run on every string field of the post. */
  predicate Trimmed(p: Post) {
    && NoOuterSpace(p.content)
    && (p.image.Some? ==> NoOuterSpace(p.image.value))
    && forall c :: c in p.comments ==> NoOuterSpace(c.text)
  }

  /** What validation accepts when a post is saved: content is required (the
      empty string fails `required`), an image present must satisfy `isUrl`,
      and each comment's text is required. */
  predicate PassesValidation(p: Post, isUrl: String -> bool) {
    && p.content != []
    && (p.image.Some? ==> isUrl(p.image.value))
    && forall c :: c in p.comments ==> c.text != []
  }

  /** Appending one comment to a post keeps it passing validation exactly when
      the new comment's text is present: the other validators do not look at
      comments, and the earlier comments are checked as before. */
  lemma {:induction false} AppendCommentPasses(p: Post, c: Comment, isUrl: String -> bool)
    ensures PassesValidation(p.(comments := p.comments + [c]), isUrl)
        <==> PassesValidation(p, isUrl) && c.text != []
  {
    var cs := p.comments + [c];
    assert c == cs[|p.comments|];
    assert forall x :: x in cs <==> x in p.comments || x == c;
  }

  /** The image field after its `trim` setter. */
  function TrimImage(image: Option<String>): (r: Option<String>)
    ensures r.Some? <==> image.Some?
    ensures r.Some? ==> NoOuterSpace(r.value) && r.value == Trim(image.value)
  {
    match image
    case None => None
    case Some(u) => Some(Trim(u))
  }

  /** A fresh post built from the owner, content and image, with the schema
      defaults for everything else. */
  function NewPost(id: DocId, owner: UserId, content: String, image: Option<String>): (p: Post)
    ensures p.id == id && p.owner == owner
    ensures p.content == Trim(content) && p.image == TrimImage(image)
    ensures p.likes == 0 && p.likedBy == [] && p.comments == []
    ensures LikeInvariant(p) && Trimmed(p)
  {
    Post(id, Trim(content), TrimImage(image), owner, 0, [], [])
  }

  /** A fresh hashtag passes its schema: the name is required and trimmed. */
  predicate ValidHashtagName(name: String) {
    name != [] && NoOuterSpace(name)
  }
}
