/**
 * `makePostList`: turns a list of post documents into a plain object keyed by
 * post id, each value a copy of the post's public fields.
 */
module PostListUtil {
  import opened Domain

  /** The fields copied for each post; the `comments` array is not among them. */
  datatype PostEntry = PostEntry(id: string, author: string, timestamp: int, text: string,
                                 title: Option<string>, group: string, image: Option<string>,
                                 likes: seq<string>, sticky: Option<bool>)

  /** A plain JavaScript object used as a dictionary: its own keys in the
      order they were first assigned, and the value under each. */
  datatype PostList = PostList(keys: seq<string>, entries: map<string, PostEntry>)

  /** The keys are listed once each and are exactly the keys holding values. */
  ghost predicate WellFormed(list: PostList)
  {
    && (forall i, j :: 0 <= i < j < |list.keys| ==> list.keys[i] != list.keys[j])
    && (forall k :: k in list.entries <==> k in list.keys)
  }

  function EntryOf(p: Post): (e: PostEntry)
    ensures e.id == p.id
  {
    PostEntry(p.id, p.author, p.timestamp, p.text, p.title, p.group, p.image, p.likes, p.sticky)
  }

  /** `object[key] = value`: a new key goes to the end of the key order, an
      existing one keeps its place and gets the new value. */
  function Assign(list: PostList, key: string, value: PostEntry): PostList
  {
    PostList(if key in list.entries then list.keys else list.keys + [key],
             list.entries[key := value])
  }

  /** The object after assigning every post's entry, first post first. */
  function Collected(posts: seq<Post>): PostList
  {
    if posts == [] then PostList([], map[])
    else
      var last := posts[|posts| - 1];
      Assign(Collected(posts[..|posts| - 1]), last.id, EntryOf(last))
  }

  function Ids(posts: seq<Post>): set<string>
  {
    set i | 0 <= i < |posts| :: posts[i].id
  }

  /** The position of the first post carrying id `k`. */
  function FirstIndex(posts: seq<Post>, k: string): (r: nat)
    requires k in Ids(posts)
    ensures r < |posts| && posts[r].id == k
    ensures forall j :: 0 <= j < r ==> posts[j].id != k
  {
    var init := posts[..|posts| - 1];
    if k in Ids(init) then
      var r := FirstIndex(init, k);
      assert posts[r] == init[r];
      r
    else
      assert forall j :: 0 <= j < |init| ==> init[j].id != k;
      |posts| - 1
  }

  /** The ids of a non-empty list are those of all but its last post, plus
      the last post's. */
  lemma IdsOfInit(posts: seq<Post>)
    requires posts != []
    ensures Ids(posts) == Ids(posts[..|posts| - 1]) + {posts[|posts| - 1].id}
  {
    var init := posts[..|posts| - 1];
    forall k | k in Ids(posts) ensures k in Ids(init) + {posts[|posts| - 1].id} {
      var i :| 0 <= i < |posts| && posts[i].id == k;
      if i < |posts| - 1 { assert init[i] == posts[i]; }
    }
    forall k | k in Ids(init) ensures k in Ids(posts) {
      var i :| 0 <= i < |init| && init[i].id == k;
      assert posts[i] == init[i];
    }
  }

  /** The keys are exactly the input ids, each listed once, and every entry
      carries its own key as its `id`. */
  lemma {:induction false} CollectedKeys(posts: seq<Post>)
    ensures var list := Collected(posts);
            && WellFormed(list)
            && list.entries.Keys == Ids(posts)
            && (forall k :: k in list.entries ==> list.entries[k].id == k)
  {
    if posts != [] {
      CollectedKeys(posts[..|posts| - 1]);
      IdsOfInit(posts);
    }
  }

  /** When ids repeat, the entry holds the last post with that id. */
  lemma {:induction false} CollectedLastWins(posts: seq<Post>, i: nat)
    requires i < |posts|
    requires forall j :: i < j < |posts| ==> posts[j].id != posts[i].id
    ensures posts[i].id in Collected(posts).entries
    ensures Collected(posts).entries[posts[i].id] == EntryOf(posts[i])
  {
    var init := posts[..|posts| - 1];
    if i < |posts| - 1 {
      forall j | i < j < |init| ensures init[j].id != init[i].id {
        assert init[j] == posts[j];
      }
      CollectedLastWins(init, i);
      assert init[i] == posts[i];
    }
  }

  /** The keys come in the order their ids first occur in the input, so the
      first key is the first post's id. */
  lemma {:induction false} CollectedOrder(posts: seq<Post>)
    ensures var keys := Collected(posts).keys;
            && (forall a :: 0 <= a < |keys| ==> keys[a] in Ids(posts))
            && (forall a, b :: 0 <= a < b < |keys| ==>
                  FirstIndex(posts, keys[a]) < FirstIndex(posts, keys[b]))
  {
    if posts != [] {
      var init := posts[..|posts| - 1];
      var last := posts[|posts| - 1];
      CollectedOrder(init);
      CollectedKeys(init);
      IdsOfInit(posts);
      var keys, oldKeys := Collected(posts).keys, Collected(init).keys;
      forall a | 0 <= a < |oldKeys|
        ensures FirstIndex(posts, oldKeys[a]) == FirstIndex(init, oldKeys[a]) < |posts| - 1
      {
      }
      if last.id in Ids(init) {
        assert keys == oldKeys;
      } else {
        assert keys == oldKeys + [last.id];
        assert FirstIndex(posts, last.id) == |posts| - 1;
      }
    }
  }

  lemma FirstKeyIsFirstPost(posts: seq<Post>)
    requires |posts| > 0
    ensures |Collected(posts).keys| > 0 && Collected(posts).keys[0] == posts[0].id
  {
    CollectedKeys(posts);
    CollectedOrder(posts);
    var keys := Collected(posts).keys;
    assert posts[0].id in Ids(posts);
    var a :| 0 <= a < |keys| && keys[a] == posts[0].id;
    assert FirstIndex(posts, keys[a]) == 0;
  }

  /** At most one entry per input post, and exactly one when ids are distinct. */
  lemma {:induction false} CollectedSize(posts: seq<Post>)
    ensures |Collected(posts).entries| <= |posts|
    ensures (forall i, j :: 0 <= i < j < |posts| ==> posts[i].id != posts[j].id) ==>
              |Collected(posts).entries| == |posts|
  {
    if posts != [] {
      var init := posts[..|posts| - 1];
      var last := posts[|posts| - 1];
      CollectedSize(init);
      CollectedKeys(init);
      if forall i, j :: 0 <= i < j < |posts| ==> posts[i].id != posts[j].id {
        forall i | 0 <= i < |init| ensures init[i].id != last.id {
          assert init[i] == posts[i];
        }
        forall i, j | 0 <= i < j < |init| ensures init[i].id != init[j].id {
          assert init[i] == posts[i] && init[j] == posts[j];
        }
      }
    }
  }

  /** The helper as written: a loop that assigns each post's entry into the
      object in turn. */
  method MakePostList(posts: seq<Post>) returns (list: PostList)
    ensures list == Collected(posts)
    ensures WellFormed(list)
    ensures list.entries.Keys == Ids(posts)
    ensures forall k :: k in list.entries ==> list.entries[k].id == k
    ensures posts == [] ==> list.entries == map[]
    ensures |list.entries| <= |posts|
    ensures forall i :: 0 <= i < |posts| && (forall j :: i < j < |posts| ==> posts[j].id != posts[i].id) ==>
              list.entries[posts[i].id] == EntryOf(posts[i])
    ensures forall a, b :: 0 <= a < b < |list.keys| ==>
              FirstIndex(posts, list.keys[a]) < FirstIndex(posts, list.keys[b])
  {
    var keys: seq<string> := [];
    var entries: map<string, PostEntry> := map[];
    var i := 0;
    while i < |posts|
      invariant i <= |posts|
      invariant PostList(keys, entries) == Collected(posts[..i])
    {
      var post := posts[i];
      if post.id !in entries {
        keys := keys + [post.id];
      }
      entries := entries[post.id := EntryOf(post)];
      assert posts[..i + 1][..i] == posts[..i];
      i := i + 1;
    }
    assert posts[..i] == posts;
    list := PostList(keys, entries);
    CollectedKeys(posts);
    CollectedSize(posts);
    CollectedOrder(posts);
    forall i | 0 <= i < |posts| && (forall j :: i < j < |posts| ==> posts[j].id != posts[i].id)
      ensures list.entries[posts[i].id] == EntryOf(posts[i])
    {
      CollectedLastWins(posts, i);
    }
  }
}
