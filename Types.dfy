/** The shared data shapes of the prayer wall: a prayer item and the
    recursive comment that carries its discussion. */
module Types {

  datatype Option<T> = None | Some(value: T)

  /** Moderation state of an item; an item may also carry no status at all. */
  datatype Status = Pending | Approved

  /** The optional `audio` of a comment, which may be left out, set to null,
      or hold one playback reference. */
  datatype Audio = Absent | Null | Url(url: string)

  /** A comment or a reply. `replies` holds comments of the same shape, so a
      thread may nest to any depth; `images` may be left out. */
  datatype Comment = Comment(
    id: int,
    userName: string,
    content: string,
    date: string,
    prayCount: int,
    replies: seq<Comment>,
    images: Option<seq<string>>,
    audio: Audio)

  /** A prayer request. `title` and `status` are optional; `comments` is
      optional here because the seed items and newly submitted items are built
      without it, and the list view reads it through `?.`. */
  datatype PrayerItem = PrayerItem(
    id: int,
    title: Option<string>,
    category: seq<string>,
    description: string,
    userName: string,
    prayCount: int,
    date: string,
    images: seq<string>,
    comments: Option<seq<Comment>>,
    status: Option<Status>)

  /** JavaScript truthiness of an optional numeric id: present and not 0. */
  predicate Truthy(id: Option<int>) {
    id.Some? && id.value != 0
  }

  /** JavaScript truthiness of an optional string reference: present and not
      empty. */
  predicate HasRef(r: Option<string>) {
    r.Some? && r.value != ""
  }

  /** The `audio` field a handler stores: the draft's reference, or null. */
  function AudioOf(draft: Option<string>): (a: Audio)
    ensures a != Absent
    ensures draft.Some? <==> a.Url?
    ensures draft.Some? ==> a.url == draft.value
  {
    match draft
    case None => Null
    case Some(u) => Url(u)
  }

  /** Number of comment nodes in a forest, counting replies at every depth. */
  function TreeSize(cs: seq<Comment>): nat
    decreases cs
  {
    if cs == [] then 0 else 1 + TreeSize(cs[0].replies) + TreeSize(cs[1..])
  }

  lemma {:induction false} TreeSizeAppend(a: seq<Comment>, b: seq<Comment>)
    ensures TreeSize(a + b) == TreeSize(a) + TreeSize(b)
    decreases a
  {
    if a != [] {
      assert (a + b)[0] == a[0];
      assert (a + b)[1..] == a[1..] + b;
      TreeSizeAppend(a[1..], b);
    } else {
      assert a + b == b;
    }
  }
}
