# Posts, likes, comments and the hashtag index, in Dafny

This project models the post side of a small social-media backend. The backend is an Express application over Mongoose. The model is a pure, in-memory state machine: a `Store` holds the Post, Hashtag and Post_Hashtag collections as sequences in natural (insertion) order, and each handler is a function from the store to a `Response` made of the store afterwards and a result or an error.

What is modelled:

- **The hashtag scanner.** `content.match(/#\w+/g)` is a left-to-right scan over `seq<char>`. Each match is a `#` followed by a maximal run of `[A-Za-z0-9_]`. Matches do not overlap and repeats are kept.
- **The create handler.** It scans the trimmed content. For each match it finds or creates the Hashtag of that name, then writes one Post_Hashtag link for that occurrence. Only after the loop is the post saved, and the save can still fail validation.
- **like.** A user already in `likedBy` is refused. Otherwise the counter grows by one and the user is appended.
- **addComment.** Appends one entry. There is no ownership check.
- **updatePost.** Any key outside {content, image} is rejected before the lookup. The lookup is scoped to the owner. On success exactly the supplied keys are assigned.
- **Search result assembly.** The content hits come first, followed by the populated post of every link whose hashtag matched. Nothing is de-duplicated. The case-insensitive regular expression is an abstract predicate `matches`.
- **Logout.** The session-token filter.
- **The store invariant `Database.Valid`.** It says that:
  - every post is trimmed and passes validation;
  - every post satisfies `likes == |likedBy|` with no repeated liker;
  - post ids are distinct;
  - hashtag names and ids are unique;
  - every link names an existing hashtag.

  Every handler keeps this invariant, except /create as written (see Findings).

ObjectIds are naturals drawn from one counter, `nextId`. `validator.isURL` is the parameter `isUrl`. The `trim: true` setters are JavaScript's `String.prototype.trim`, over the ECMAScript whitespace and line-terminator set. A Mongoose validation failure on save is the error `ServerError`, because every handler's `catch` answers 500, and nothing is written.

Behaviours of the code worth stating explicitly:

- **A validation failure in create or update answers 500.** It is caught by the handler's `catch`; there is no separate validation error.
- **Create writes one link per occurrence, repeats included.** It does not write one per distinct tag.
- **A non-owner's update answers NotFound.** The lookup filters on the owner, so the case is not a separate "forbidden" answer.
- **Search keeps duplicates.** A post matched both by content and through a hashtag appears twice.
- **The create handler copies the whole request body into the new post.** See Findings.

Modules:

| module | contents |
|---|---|
| `Common` | Option, Result, errors |
| `Seqs` | first-match lookup, filter and their lemmas |
| `Text` | character classes and trim |
| `HashtagScan` | the scanner |
| `Models` | document shapes and validation |
| `Database` | the store, lookups and the invariant |
| `HashtagIndex` | the find-or-create loop |
| `PostRouter` | the handlers |
| `PostProperties` | properties relating handlers and the invariant |
| `UserRouter` | logout |

## Model

| member | source | states |
|---|---|---|
| Text.Trim | src/models/Post.js:5-9 | the trimmed content is a slice of the input with only whitespace cut away on each side, and it has no whitespace at either end; it equals the input exactly when the input had none; it is empty exactly when the input was all whitespace |
| HashtagScan.SpansFrom | src/routers/Post.js:134-135 | every match is a `#`, then at least one word character, then a non-word character or the end of the text; matches come in order without overlap |
| HashtagScan.Hashtags | src/routers/Post.js:134-135 | one tag per match, in match order: tag k is exactly the text of the k-th match, a `#` followed only by word characters, at least one |
| HashtagScan.SpansFromComplete | src/routers/Post.js:134-135 | every position holding `#` followed by a word character, at or after the scan start, is the start of a returned match, so no occurrence is missed |
| HashtagScan.SpanStartIffTagStart | src/routers/Post.js:134-135 | a match starts at a position if and only if a `#` followed by a word character stands there |
| HashtagScan.NoHashtagsIffNoTagStart | src/routers/Post.js:135-136 | the scanner finds nothing exactly when no `#` is immediately followed by a word character |
| HashtagScan.TagIsTrimmed | src/models/Hashtag.js:4-9 | the Hashtag name's trim setter leaves scanner output unchanged, and that output is never empty |
| HashtagScan.RepeatedTagExample | src/routers/Post.js:134-135 | "#foo #foo" yields "#foo" twice: repeats are kept |
| Models.PassesValidation | src/models/Post.js:5-49 | the save-time validators: content is required, so the empty string fails; an image, when present, must satisfy `isUrl`; each comment's text is required |
| Models.ValidHashtagName | src/models/Hashtag.js:4-9 | what every stored Hashtag name satisfies: it is non-empty (`required`) and trimmed (by the setter) |
| Models.AppendCommentPasses | src/models/Post.js:38-49 | appending a comment keeps a post passing validation exactly when the comment's text is present, since `required` applies to each comment |
| Models.TrimImage | src/models/Post.js:10-13 | the image is present after the setter exactly when it was supplied, and it is then the trimmed text |
| Models.NewPost | src/models/Post.js:25-37 | a new post has zero likes, no likers and no comments, so the like invariant holds from the start; its content and image are trimmed |
| Database.PostIndex | src/routers/Post.js:368 | findById: the position of a post with that id, or none exactly when no post has it |
| Database.OwnedPostIndex | src/routers/Post.js:441 | findOne by id and owner: the position of a post with that id owned by the requester, or none exactly when no such post exists |
| Database.HashtagIndexOf | src/routers/Post.js:139 | findOne by name: the position of a hashtag with that name, or none exactly when no hashtag has it |
| Database.InsertPostValid | src/routers/Post.js:152 | saving a valid post under an unused id keeps the store invariant |
| HashtagIndex.FindOrCreate | src/routers/Post.js:139-147 | a known name returns that hashtag's id and changes nothing; an absent name appends exactly one Hashtag with that name and a fresh id; existing hashtags keep their positions and ids |
| HashtagIndex.LinkOne | src/routers/Post.js:139-149 | one loop iteration appends exactly one link, which names the new post and the hashtag whose name is the tag; a new hashtag is created only when the name was absent |
| HashtagIndex.IndexTags | src/routers/Post.js:138-150 | the loop leaves posts alone and appends one link per tag, in order; the link for the i-th tag names the post and a hashtag named after that tag; hashtags only grow at the end |
| HashtagIndex.IndexTagsCreated | src/routers/Post.js:141-144 | every hashtag the loop adds carries a tag name that was absent before, and a fresh id |
| HashtagIndex.IndexTagsCovers | src/routers/Post.js:138-150 | after the loop every tag is a name in the Hashtag collection |
| HashtagIndex.LinkOneValid | src/models/Hashtag.js:4-9 | one iteration keeps the store invariant, including the unique index on name |
| HashtagIndex.IndexTagsValid | src/routers/Post.js:138-150 | the whole loop keeps the store invariant |
| HashtagIndex.NamesFromDistinct | src/models/Hashtag.js:8 | the unique index makes the names of the added hashtags pairwise different |
| HashtagIndex.CreatedNameIsAbsentTag | src/routers/Post.js:141-144 | each added name is one of the tags and was not indexed before |
| HashtagIndex.AbsentTagIsCreated | src/routers/Post.js:141-144 | each tag that was not indexed before is among the added names |
| HashtagIndex.CreatedNamesAreAbsentTags | src/routers/Post.js:139-147 | the set of added names equals the set of tags that were not indexed before |
| HashtagIndex.IndexTagsCreatesDistinctAbsent | src/routers/Post.js:138-150 | the loop creates exactly as many hashtags as there are distinct absent tag names, however often each name repeats |
| HashtagIndex.IndexTagsKnownTags | src/routers/Post.js:145-146 | when every tag is already indexed, the Hashtag collection is unchanged |
| PostRouter.TrimComments | src/models/Post.js:38-49 | each comment keeps its author; its text is the trimmed text and has no whitespace at either end; a comment is kept as it is exactly when its text was already trimmed |
| PostRouter.IndexAndSave | src/routers/Post.js:133-155 | the post is appended exactly when it passes validation, and otherwise the posts are unchanged and the answer is ServerError; either way the earlier links and hashtags stay in place and one link per tag occurrence is appended, naming the post and a hashtag of that name |
| PostRouter.CreatePostAsWritten | src/routers/Post.js:130-157 | the handler as written: a missing content fails with nothing written; otherwise one link per occurrence is recorded, the earlier links and hashtags stay, and the post is saved exactly when its trimmed content is non-empty, any image passes `isUrl` and every client comment has non-blank text; a failed save keeps the links but adds no post; a saved post is appended and carries the client's `likes`, `likedBy` and trimmed `comments` |
| PostProperties.AsWrittenAgrees | src/routers/Post.js:130-157 | on a body with only `content` and `image`, the handler as written and the corrected handler give the same response |
| PostRouter.CreatePost | src/routers/Post.js:130-157 | a missing content fails with nothing written; otherwise one link per occurrence is recorded and every tag ends up indexed; the post is saved exactly when its trimmed content is non-empty and any image passes `isUrl`; when it is saved, the new post is appended with the schema defaults; a failed save keeps the links but adds no post |
| PostRouter.Save | src/routers/Post.js:380 | a save succeeds exactly when the document passes validation; the number of posts stays the same, every other post keeps its value, and hashtags, links and the id counter are untouched; a failed save changes nothing |
| PostRouter.Like | src/routers/Post.js:366-385 | a missing post answers NotFound and a repeated liker AlreadyLiked, both with the store unchanged; on success the counter grows by exactly one and the user is appended once at the end, with every other field and post unchanged; on a valid store a new liker always succeeds |
| PostRouter.AddComment | src/routers/Post.js:323-335 | a missing post answers NotFound with nothing changed; on success exactly one entry with the trimmed text and the commenter is appended, and nothing else changes; on a valid store it succeeds exactly when the text is present and not blank; when the post exists, every failure is ServerError, the 500 of the failed `required` validator |
| PostRouter.ApplyUpdates | src/routers/Post.js:445 | each supplied key among content and image is assigned through its trim setter; every other field keeps its value |
| PostRouter.UpdatePost | src/routers/Post.js:433-451 | a key outside {content, image} is refused before any lookup; a post the requester does not own is NotFound; both change nothing; on success exactly the supplied keys are overwritten; on a valid store an empty body changes nothing and succeeds exactly when the requester owns the post; on a valid store an allowed update of an owned post succeeds exactly when a supplied content trims to non-empty text and a supplied image passes `isUrl`; a failed save of an owned post is ServerError |
| PostRouter.LookupPost | src/routers/Post.js:195 | populate of a link's postId: a post with that id, or nothing exactly when no post has it |
| PostRouter.LookupPostAgrees | src/routers/Post.js:195 | populate finds nothing exactly when findById finds nothing, and otherwise the same post, the first one with that id |
| PostRouter.ContentHits | src/routers/Post.js:191 | the content hits are exactly the posts whose content matches, each as often as it is stored: nothing is dropped or de-duplicated |
| PostRouter.LinkHits | src/routers/Post.js:193-195 | the link hits are exactly the links whose hashtag has a matching name, each as often as it is stored |
| PostRouter.ContentHitsConcat | src/routers/Post.js:191 | the content hits keep the natural order: the hits among earlier posts come before those among later posts |
| PostRouter.LinkHitsConcat | src/routers/Post.js:193-195 | the link hits keep the natural order of the links |
| PostRouter.Search | src/routers/Post.js:187-206 | the result is the content hits in order, followed by the populated post of every link hit in order; its length is the sum of the two counts |
| PostProperties.LikeValid | src/routers/Post.js:374-380 | like keeps the store invariant, in particular each post's counter equals its number of likers and no one likes twice |
| PostProperties.LikeTwiceRefused | src/routers/Post.js:374-376 | a second like by the same user right after a successful one is refused with AlreadyLiked and changes nothing |
| PostProperties.AddCommentValid | src/routers/Post.js:329-330 | addComment keeps the store invariant |
| PostProperties.UpdatePostValid | src/routers/Post.js:445-446 | updatePost keeps the store invariant |
| PostProperties.HashtagsAreValidNames | src/models/Hashtag.js:4-9 | every scanned tag passes the Hashtag name schema (required, trimmed) |
| PostProperties.CreatePostValid | src/routers/Post.js:130-157 | create keeps the store invariant whether or not the post itself is saved |
| PostProperties.CreateWithoutTags | src/routers/Post.js:136-152 | content without a `#` followed by a word character creates no hashtag and no link; the post is still saved exactly when it passes validation |
| PostProperties.CreateFailureKeepsLinks | src/routers/Post.js:148-152 | when the save fails, one link per occurrence remains, each naming the new post's id, which no stored post carries |
| PostProperties.SearchContentPrefix | src/routers/Post.js:191-200 | a post appears among the content hits of the search result exactly when it is stored and its content matches |
| PostProperties.SearchKeepsDuplicates | src/routers/Post.js:191-200 | a post that matches by content and through one of its links appears at two positions of the result |
| PostProperties.RepeatedTagOneHashtagTwoLinks | src/routers/Post.js:138-150 | content whose tags are one absent name twice writes two links and one Hashtag |
| PostProperties.RepeatedTagIndexed | src/routers/Post.js:138-150 | indexing one absent name n times (n > 0) writes n links and one Hashtag |
| PostProperties.CreateAsWrittenForgesLikes | src/routers/Post.js:131 | the handler as written saves a client-chosen `likes` with no likers, breaking the like invariant and the store invariant |
| PostProperties.SavedDraftBreaksInvariant | src/routers/Post.js:152 | saving a document whose counter disagrees with its likers succeeds and leaves an invalid store |
| PostProperties.CreateAsWrittenExample | src/routers/Post.js:131 | the body {content: "hi", likes: 5} produces a post with 5 likes that violates the like invariant |
| UserRouter.Logout | src/routers/User.js:35-45 | the presented token no longer occurs; every other token occurs exactly as often as before; the count drops by the number of occurrences removed |
| UserRouter.LogoutKeepsOrder | src/routers/User.js:37-39 | the surviving tokens keep their relative order: logout distributes over concatenation |
| UserRouter.LogoutIdempotent | src/routers/User.js:37-39 | logging out twice with one token equals logging out once |
| UserRouter.LogoutUnknownToken | src/routers/User.js:37-39 | a token the user does not hold leaves the session list unchanged |

## Left out

- Express routing, the authentication middleware and the Swagger comments: the requester is a parameter.
- Server start-up in src/index.js: it mounts only the user router. The post router is modelled as if mounted.
- Mongoose persistence, `async`/`await` and concurrency. Each handler is one atomic step, so races between concurrent likes or creates are not modelled.
- HTTP status codes. They are collapsed into the `Error` datatype: NotFound (404), AlreadyLiked and InvalidUpdates (400), ServerError (500).
- `validator.isURL` is the abstract parameter `isUrl`.
- The search regular expression is the abstract parameter `matches`. Its case-insensitivity and the treatment of the search text as a pattern are not modelled.
- The user part of the search response (`User.find` on nickname) is left out, because the User model is not part of this model.
- The `populate` projections (`"name"`, `"content"`) are left out. A populated post is the whole document.
- Request-body casting by Mongoose is left out. `likes` is an integer and update values are strings. An ill-formed ObjectId, which makes `findById` throw and the handler answer 500, is not modelled; ids are naturals.
- A storage failure in the middle of the create loop is not modelled. It would leave only some links written. Every write in the model succeeds except the validated save.
- The Hashtag save inside the loop cannot fail here. Scanned tags always pass the name schema (see HashtagsAreValidNames).
- The Hashtag save could also fail on a unique-index race, which needs concurrency and is not modelled.
- `/all`, `/get/:id` and `/deletePost` are not modelled. The ownership filters of `/all` and `/deletePost` use a field that is not in the schema, so their outcome depends on Mongoose's strict-query setting.
- `/createAccount`, `/login` and `/me` are not modelled. They depend on the User model and the auth middleware, which are not part of this model.
- Logout is modelled without the `req.user.save()` that follows the filter, or its failure. The user is reduced to the list of token strings.
- PostRouter.CreatePostAsWritten: a client-supplied `_id` is not modelled. The spread at src/routers/Post.js:131 copies it too. The links written at line 148 would then name that id. If it equals an existing post's id, the save at line 152 fails on the duplicate key, and the links stay attached to the existing post. The model always takes the id from the counter.
- Comment text is an `Option<String>`. A non-string JSON value for `comment` is not modelled.
- PostRouter.LookupPost: its own contract says that the result is a post with that id, not that it is the first one. LookupPostAgrees adds that it is the post `PostIndex` finds. It is a separate recursive lookup that returns the document, because populate yields the post itself, not a position.

## Findings

| source | as written | input that shows it | evidently intended | confidence | as-written member | corrected member |
|---|---|---|---|---|---|---|
| src/routers/Post.js:131 | the new post is built by spreading the whole request body, so it takes every schema field the client sends, including `likes`, `likedBy` and `comments` | POST /create with body `{"content": "hi", "likes": 5}`: the post is saved with `likes == 5` and an empty `likedBy` | a new post starts from the schema defaults (`likes = 0`, no likers, no comments), so every stored post's counter equals its number of likers | high, not executed | PostRouter.CreatePostAsWritten | PostRouter.CreatePost |

`PostRouter.CreatePostAsWritten` is the handler as written. Its contract says that a saved post carries the client's `likes` and `likedBy`. `PostProperties.CreateAsWrittenForgesLikes` proves that any non-blank content sent with a non-zero `likes` and no `likedBy` is saved and breaks the like invariant. `PostProperties.CreateAsWrittenExample` exhibits the input above.

The corrected handler `PostRouter.CreatePost` builds the document from `content` and `image` only. Its contract gives a saved post zero likes, no likers and no comments. `PostProperties.CreatePostValid` proves that it keeps the store invariant for every request body, the like invariant included. The rest of the model uses the corrected handler.
