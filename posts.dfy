/**
 * `parse_posts`: one post record per feed entry, in feed order, copying the
 * entry's title, author, link and summary. Reading a field the entry lacks
 * raises `AttributeError`, which ends the whole call.
 */
module Posts {
  import opened Wrappers

  /** A parsed feed entry; a field is `None` when the feed item does not carry it. */
  datatype Entry = Entry(title: Option<string>, author: Option<string>,
                         link: Option<string>, summary: Option<string>)
  {
    predicate Complete() {
      title.Some? && author.Some? && link.Some? && summary.Some?
    }
  }

  datatype Post = Post(title: string, author: string, link: string, summary: string)

  function PostOf(e: Entry): Post
    requires e.Complete()
  {
    Post(e.title.value, e.author.value, e.link.value, e.summary.value)
  }

  /** The list built by the loop of `parse_posts`, or `None` once an entry lacks a field. */
  function PostsOf(entries: seq<Entry>): (r: Option<seq<Post>>)
    ensures r.Some? <==> forall i :: 0 <= i < |entries| ==> entries[i].Complete()
    ensures r.Some? ==> |r.value| == |entries|
    ensures r.Some? ==> forall i :: 0 <= i < |entries| ==> r.value[i] == PostOf(entries[i])
  {
    if entries == [] then Some([])
    else
      var init := entries[..|entries| - 1];
      var last := entries[|entries| - 1];
      match PostsOf(init)
      case None => None
      case Some(ps) => if last.Complete() then Some(ps + [PostOf(last)]) else None
  }

  /** `parse_posts(feed)` over the feed's entries. */
  method ParsePosts(entries: seq<Entry>) returns (posts: Option<seq<Post>>)
    ensures posts == PostsOf(entries)
  {
    var acc := [];
    for i := 0 to |entries|
      invariant PostsOf(entries[..i]) == Some(acc)
    {
      assert entries[..i + 1][..i] == entries[..i];
      var entry := entries[i];
      if !entry.Complete() {
        assert !entries[..i + 1][i].Complete();
        return None;
      }
      acc := acc + [PostOf(entry)];
    }
    assert entries[..|entries|] == entries;
    return Some(acc);
  }
}
