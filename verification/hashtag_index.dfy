/** The find-or-create loop of the create handler: for each matched tag, look
    the Hashtag up by name, create it when absent, then write one
    Post_Hashtag link for the occurrence. */
module HashtagIndex {
  import opened Common
  import opened Text
  import opened Seqs
  import opened Models
  import opened Database

  /** The index part of the store: the Hashtag collection is extended at the end
      only, so every existing hashtag keeps its position and id. */
  predicate Extends(before: seq<Hashtag>, after: seq<Hashtag>) {
    |before| <= |after| && after[..|before|] == before
  }

  /** Look `name` up and create the Hashtag when absent; answer its id. */
  function FindOrCreate(st: Store, name: String): (r: (Store, DocId))
    ensures r.0.posts == st.posts && r.0.links == st.links
    ensures Hashtag(r.1, name) in r.0.hashtags
    ensures Extends(st.hashtags, r.0.hashtags)
    ensures name in Names(st.hashtags) ==> r.0 == st
    ensures name !in Names(st.hashtags) ==>
      && r.0.hashtags == st.hashtags + [Hashtag(st.nextId, name)]
      && r.1 == st.nextId && r.0.nextId == st.nextId + 1
    ensures st.nextId <= r.0.nextId
  {
    match HashtagIndexOf(st.hashtags, name)
    case Some(k) => (st, st.hashtags[k].id)
    case None =>
      var created := Hashtag(st.nextId, name);
      (st.(hashtags := st.hashtags + [created], nextId := st.nextId + 1), created.id)
  }

  /** The links from position `from` on record the occurrences `tags` of post
      `postId`, one per tag and in order, each naming a hashtag of `hashtags`
      whose name is that tag. */
  predicate LinksRecord(links: seq<Link>, from: nat, hashtags: seq<Hashtag>, postId: DocId, tags: seq<String>) {
    && |links| == from + |tags|
    && forall j :: from <= j < |links| ==>
         links[j].postId == postId && Hashtag(links[j].hashtagId, tags[j - from]) in hashtags
  }

  /** One iteration of the loop: find-or-create the hashtag named `name`, then
      append the link of this occurrence to the post `postId`. */
  function LinkOne(st: Store, postId: DocId, name: String): (r: Store)
    ensures r.posts == st.posts
    ensures Extends(st.hashtags, r.hashtags)
    ensures |r.links| == |st.links| + 1 && r.links[..|st.links|] == st.links
    ensures r.links[|st.links|].postId == postId
    ensures Hashtag(r.links[|st.links|].hashtagId, name) in r.hashtags
    ensures name in Names(st.hashtags) ==> r.hashtags == st.hashtags && r.nextId == st.nextId
    ensures name !in Names(st.hashtags) ==>
      r.hashtags == st.hashtags + [Hashtag(st.nextId, name)] && r.nextId == st.nextId + 1
  {
    var fr := FindOrCreate(st, name);
    fr.0.(links := fr.0.links + [Link(postId, fr.1)])
  }

  /** The loop over the matched tags, in order: one find-or-create and one link
      per occurrence. Posts are untouched, hashtags and links only grow at the
      end, by one link per tag. */
  function IndexTags(st: Store, postId: DocId, tags: seq<String>): (r: Store)
    ensures r.posts == st.posts
    ensures Extends(st.hashtags, r.hashtags)
    ensures |r.links| == |st.links| + |tags| && r.links[..|st.links|] == st.links
    ensures st.nextId <= r.nextId
    ensures LinksRecord(r.links, |st.links|, r.hashtags, postId, tags)
    decreases |tags|
  {
    if |tags| == 0 then st
    else
      var linked := LinkOne(st, postId, tags[0]);
      var r := IndexTags(linked, postId, tags[1..]);
      LinksRecordCons(st.links, linked, r, postId, tags);
      r
  }

  /** Prepending the link of the first tag to a record of the remaining tags
      gives a record of all of them. */
  lemma {:induction false} LinksRecordCons(before: seq<Link>, linked: Store, r: Store, postId: DocId, tags: seq<String>)
    requires |tags| > 0 && |linked.links| == |before| + 1 && linked.links[..|before|] == before
    requires linked.links[|before|].postId == postId
    requires Hashtag(linked.links[|before|].hashtagId, tags[0]) in linked.hashtags
    requires Extends(linked.hashtags, r.hashtags)
    requires |linked.links| <= |r.links| && r.links[..|linked.links|] == linked.links
    requires LinksRecord(r.links, |linked.links|, r.hashtags, postId, tags[1..])
    ensures r.links[..|before|] == before
    ensures LinksRecord(r.links, |before|, r.hashtags, postId, tags)
  {
    assert r.links[..|before|] == r.links[..|linked.links|][..|before|];
    forall j | |before| <= j < |r.links|
      ensures r.links[j].postId == postId && Hashtag(r.links[j].hashtagId, tags[j - |before|]) in r.hashtags
    {
      if j == |before| {
        assert r.links[j] == r.links[..|linked.links|][j];
        ExtendsKeeps(linked.hashtags, r.hashtags, Hashtag(r.links[j].hashtagId, tags[0]));
      } else {
        assert tags[j - |before|] == tags[1..][j - |linked.links|];
      }
    }
  }

  /** One step of the loop, unfolded. */
  lemma {:induction false} IndexTagsStep(st: Store, postId: DocId, tags: seq<String>)
    requires |tags| > 0
    ensures IndexTags(st, postId, tags) == IndexTags(LinkOne(st, postId, tags[0]), postId, tags[1..])
  {
  }

  /** Extending the collection keeps every hashtag already there. */
  lemma {:induction false} ExtendsKeeps(before: seq<Hashtag>, after: seq<Hashtag>, h: Hashtag)
    requires Extends(before, after) && h in before
    ensures h in after
  {
    var i :| 0 <= i < |before| && before[i] == h;
    assert after[i] == before[i];
  }

  /** Every hashtag the loop creates is named after one of the tags and was
      absent before, and carries a fresh id. */
  lemma {:induction false} IndexTagsCreated(st: Store, postId: DocId, tags: seq<String>)
    ensures var r := IndexTags(st, postId, tags);
      forall k :: |st.hashtags| <= k < |r.hashtags| ==>
        r.hashtags[k].name in tags && r.hashtags[k].name !in Names(st.hashtags)
        && st.nextId <= r.hashtags[k].id < r.nextId
    decreases |tags|
  {
    if |tags| > 0 {
      var linked := LinkOne(st, postId, tags[0]);
      var r := IndexTags(linked, postId, tags[1..]);
      IndexTagsStep(st, postId, tags);
      IndexTagsCreated(linked, postId, tags[1..]);
      forall k | |st.hashtags| <= k < |r.hashtags|
        ensures r.hashtags[k].name in tags && r.hashtags[k].name !in Names(st.hashtags)
        ensures st.nextId <= r.hashtags[k].id < r.nextId
      {
        if k < |linked.hashtags| {
          assert r.hashtags[k] == linked.hashtags[k];
          assert k == |st.hashtags|;
        } else {
          assert r.hashtags[k].name in tags[1..];
          assert Names(st.hashtags) <= Names(linked.hashtags);
        }
      }
    }
  }

  /** Every matched tag is a name in the index afterwards. */
  lemma {:induction false} IndexTagsCovers(st: Store, postId: DocId, tags: seq<String>)
    ensures forall t :: t in tags ==> t in Names(IndexTags(st, postId, tags).hashtags)
  {
    var r := IndexTags(st, postId, tags);
    forall t | t in tags ensures t in Names(r.hashtags) {
      var k :| 0 <= k < |tags| && tags[k] == t;
      assert Hashtag(r.links[|st.links| + k].hashtagId, t) in r.hashtags;
    }
  }

  /** One iteration keeps the store invariant: the unique index on `name` is
      respected because a hashtag is created only when the lookup found none. */
  lemma {:induction false} LinkOneValid(st: Store, postId: DocId, name: String, isUrl: String -> bool)
    requires Valid(st, isUrl) && ValidHashtagName(name) && postId < st.nextId
    ensures Valid(LinkOne(st, postId, name), isUrl)
  {
    var r := LinkOne(st, postId, name);
    assert r.links[|st.links|].hashtagId in HashtagIds(r.hashtags);
    assert HashtagIds(st.hashtags) <= HashtagIds(r.hashtags);
    if name !in Names(st.hashtags) {
      var hs := r.hashtags;
      forall a, b | 0 <= a < b < |hs| ensures hs[a].name != hs[b].name && hs[a].id != hs[b].id {
        if b == |st.hashtags| {
          assert hs[a] in st.hashtags;
        }
      }
    }
    forall k | 0 <= k < |r.links|
      ensures r.links[k].postId < r.nextId && r.links[k].hashtagId in HashtagIds(r.hashtags)
    {
      if k < |st.links| {
        assert r.links[k] == st.links[k];
      }
    }
  }

  /** The whole loop keeps the store invariant, for tags the scanner can
      produce and the id of the post being created. */
  lemma {:induction false} IndexTagsValid(st: Store, postId: DocId, tags: seq<String>, isUrl: String -> bool)
    requires Valid(st, isUrl) && postId < st.nextId
    requires forall k :: 0 <= k < |tags| ==> ValidHashtagName(tags[k])
    ensures Valid(IndexTags(st, postId, tags), isUrl)
    decreases |tags|
  {
    if |tags| > 0 {
      IndexTagsStep(st, postId, tags);
      LinkOneValid(st, postId, tags[0], isUrl);
      IndexTagsValid(LinkOne(st, postId, tags[0]), postId, tags[1..], isUrl);
    }
  }

  /** The names of the hashtags from position `from` on. */
  function NamesFrom(hs: seq<Hashtag>, from: nat): (names: seq<String>)
    requires from <= |hs|
    ensures |names| == |hs| - from
    ensures forall i :: 0 <= i < |names| ==> names[i] == hs[from + i].name
  {
    seq(|hs| - from, i requires 0 <= i < |hs| - from => hs[from + i].name)
  }

  /** The unique index on `name` makes the added names pairwise different. */
  lemma {:induction false} NamesFromDistinct(hs: seq<Hashtag>, from: nat)
    requires from <= |hs| && HashtagKeysUnique(hs)
    ensures Distinct(NamesFrom(hs, from))
  {
    var names := NamesFrom(hs, from);
    forall a, b | 0 <= a < b < |names| ensures names[a] != names[b] {
      assert names[a] == hs[from + a].name && names[b] == hs[from + b].name;
    }
  }

  /** Each name the loop adds is a tag that was not yet indexed. */
  lemma {:induction false} CreatedNameIsAbsentTag(st: Store, postId: DocId, tags: seq<String>, x: String)
    requires x in NamesFrom(IndexTags(st, postId, tags).hashtags, |st.hashtags|)
    ensures x in tags && x !in Names(st.hashtags)
  {
    var r := IndexTags(st, postId, tags);
    IndexTagsCreated(st, postId, tags);
    var names := NamesFrom(r.hashtags, |st.hashtags|);
    var i :| 0 <= i < |names| && names[i] == x;
    var k := |st.hashtags| + i;
    assert x == r.hashtags[k].name;
  }

  /** Each tag that was not yet indexed is among the names the loop adds. */
  lemma {:induction false} AbsentTagIsCreated(st: Store, postId: DocId, tags: seq<String>, t: String)
    requires t in tags && t !in Names(st.hashtags)
    ensures t in NamesFrom(IndexTags(st, postId, tags).hashtags, |st.hashtags|)
  {
    var r := IndexTags(st, postId, tags);
    IndexTagsCovers(st, postId, tags);
    assert t in Names(r.hashtags);
    var h :| h in r.hashtags && h.name == t;
    var i :| 0 <= i < |r.hashtags| && r.hashtags[i] == h;
    assert forall j :: 0 <= j < |st.hashtags| ==> r.hashtags[j] == st.hashtags[j] by {
      assert r.hashtags[..|st.hashtags|] == st.hashtags;
    }
    assert i >= |st.hashtags|;
    assert NamesFrom(r.hashtags, |st.hashtags|)[i - |st.hashtags|] == t;
  }

  /** The names the loop adds are exactly the tags that were not yet indexed. */
  lemma {:induction false} CreatedNamesAreAbsentTags(st: Store, postId: DocId, tags: seq<String>)
    ensures var r := IndexTags(st, postId, tags);
      (set x | x in NamesFrom(r.hashtags, |st.hashtags|)) == (set t | t in tags && t !in Names(st.hashtags))
  {
    var r := IndexTags(st, postId, tags);
    forall x | x in NamesFrom(r.hashtags, |st.hashtags|) ensures x in tags && x !in Names(st.hashtags) {
      CreatedNameIsAbsentTag(st, postId, tags, x);
    }
    forall t | t in tags && t !in Names(st.hashtags) ensures t in NamesFrom(r.hashtags, |st.hashtags|) {
      AbsentTagIsCreated(st, postId, tags, t);
    }
  }

  /** The loop creates exactly one hashtag per distinct tag name that was not
      yet in the index, however often that name occurs. */
  lemma {:induction false} IndexTagsCreatesDistinctAbsent(st: Store, postId: DocId, tags: seq<String>, isUrl: String -> bool)
    requires Valid(st, isUrl) && postId < st.nextId
    requires forall k :: 0 <= k < |tags| ==> ValidHashtagName(tags[k])
    ensures var r := IndexTags(st, postId, tags);
      |r.hashtags| == |st.hashtags| + |set t | t in tags && t !in Names(st.hashtags)|
  {
    var r := IndexTags(st, postId, tags);
    IndexTagsValid(st, postId, tags, isUrl);
    NamesFromDistinct(r.hashtags, |st.hashtags|);
    DistinctCardinality(NamesFrom(r.hashtags, |st.hashtags|));
    CreatedNamesAreAbsentTags(st, postId, tags);
  }

  /** When every tag is already indexed, the Hashtag collection is unchanged
      (only links are written). */
  lemma {:induction false} IndexTagsKnownTags(st: Store, postId: DocId, tags: seq<String>, isUrl: String -> bool)
    requires Valid(st, isUrl) && postId < st.nextId
    requires forall k :: 0 <= k < |tags| ==> ValidHashtagName(tags[k])
    requires forall t :: t in tags ==> t in Names(st.hashtags)
    ensures IndexTags(st, postId, tags).hashtags == st.hashtags
  {
    IndexTagsCreatesDistinctAbsent(st, postId, tags, isUrl);
    assert (set t | t in tags && t !in Names(st.hashtags)) == {};
    var r := IndexTags(st, postId, tags);
    assert r.hashtags == r.hashtags[..|st.hashtags|];
  }
}
