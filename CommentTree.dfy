/** The two transforms both comment stores apply to a list of root comments.
    Each one maps over the ROOT level only: a reply whose id matches is never
    reached. */
module CommentTree {
  import opened Types

  function RootIds(cs: seq<Comment>): (ids: seq<int>)
    ensures |ids| == |cs|
    ensures forall k :: 0 <= k < |cs| ==> ids[k] == cs[k].id
  {
    seq(|cs|, k requires 0 <= k < |cs| => cs[k].id)
  }

  /** How many root comments carry `id`. */
  function Matches(cs: seq<Comment>, id: int): (n: nat)
    ensures n <= |cs|
    ensures n == 0 <==> id !in RootIds(cs)
  {
    if cs == [] then 0
    else
      assert RootIds(cs) == [cs[0].id] + RootIds(cs[1..]);
      (if cs[0].id == id then 1 else 0) + Matches(cs[1..], id)
  }

  /** Sum of the pray counts of the root comments. */
  function RootPrayTotal(cs: seq<Comment>): int {
    if cs == [] then 0 else cs[0].prayCount + RootPrayTotal(cs[1..])
  }

  /** Raise the pray count of every root comment whose id is `id`. */
  function IncrementRoot(cs: seq<Comment>, id: int): (r: seq<Comment>)
    ensures |r| == |cs|
    ensures forall k :: 0 <= k < |cs| ==>
      && r[k].prayCount == cs[k].prayCount + (if cs[k].id == id then 1 else 0)
      && r[k].(prayCount := cs[k].prayCount) == cs[k]
  {
    if cs == [] then []
    else
      var c := cs[0];
      var head := if c.id == id then c.(prayCount := c.prayCount + 1) else c;
      [head] + IncrementRoot(cs[1..], id)
  }

  /** Put `reply` at the end of the replies of every root comment whose id is
      `parentId`. */
  function AppendReply(cs: seq<Comment>, parentId: int, reply: Comment): (r: seq<Comment>)
    ensures |r| == |cs|
    ensures forall k :: 0 <= k < |cs| ==>
      && r[k].replies == cs[k].replies + (if cs[k].id == parentId then [reply] else [])
      && r[k].(replies := cs[k].replies) == cs[k]
  {
    if cs == [] then []
    else
      var c := cs[0];
      var head := if c.id == parentId then c.(replies := c.replies + [reply]) else c;
      [head] + AppendReply(cs[1..], parentId, reply)
  }

  /** Incrementing adds exactly one per matching root comment to the total;
      in particular an id no root comment carries leaves it unchanged. */
  lemma {:induction false} IncrementRootTotal(cs: seq<Comment>, id: int)
    ensures RootPrayTotal(IncrementRoot(cs, id)) == RootPrayTotal(cs) + Matches(cs, id)
  {
    if cs != [] {
      IncrementRootTotal(cs[1..], id);
      assert IncrementRoot(cs, id)[1..] == IncrementRoot(cs[1..], id);
    }
  }

  /** An id that no root comment carries leaves the list as it was. */
  lemma IncrementRootAbsent(cs: seq<Comment>, id: int)
    requires id !in RootIds(cs)
    ensures IncrementRoot(cs, id) == cs
  {
    var r := IncrementRoot(cs, id);
    forall k | 0 <= k < |cs| ensures r[k] == cs[k] {
      assert RootIds(cs)[k] == cs[k].id;
    }
  }

  /** A reply to a parent that is not a root comment is dropped. */
  lemma AppendReplyAbsent(cs: seq<Comment>, parentId: int, reply: Comment)
    requires parentId !in RootIds(cs)
    ensures AppendReply(cs, parentId, reply) == cs
  {
    var r := AppendReply(cs, parentId, reply);
    forall k | 0 <= k < |cs| ensures r[k] == cs[k] {
      assert RootIds(cs)[k] == cs[k].id;
    }
  }

  /** Neither transform changes which ids sit at the root, or in which order. */
  lemma RootIdsPreserved(cs: seq<Comment>, id: int, reply: Comment)
    ensures RootIds(IncrementRoot(cs, id)) == RootIds(cs)
    ensures RootIds(AppendReply(cs, id, reply)) == RootIds(cs)
  {
    var a, b := IncrementRoot(cs, id), AppendReply(cs, id, reply);
    forall k | 0 <= k < |cs| ensures a[k].id == cs[k].id && b[k].id == cs[k].id {
      assert a[k].(prayCount := cs[k].prayCount) == cs[k];
      assert b[k].(replies := cs[k].replies) == cs[k];
    }
  }

  /** Incrementing never adds or removes a node anywhere in the tree. */
  lemma {:induction false} IncrementRootTreeSize(cs: seq<Comment>, id: int)
    ensures TreeSize(IncrementRoot(cs, id)) == TreeSize(cs)
  {
    if cs != [] {
      IncrementRootTreeSize(cs[1..], id);
      assert IncrementRoot(cs, id)[1..] == IncrementRoot(cs[1..], id);
    }
  }

  /** Replying with a fresh reply (one with no replies of its own) adds one
      node under every matching root comment, and nothing else. */
  lemma {:induction false} AppendReplyTreeSize(cs: seq<Comment>, parentId: int, reply: Comment)
    requires reply.replies == []
    ensures TreeSize(AppendReply(cs, parentId, reply)) == TreeSize(cs) + Matches(cs, parentId)
  {
    if cs != [] {
      var c := cs[0];
      var r := AppendReply(cs, parentId, reply);
      AppendReplyTreeSize(cs[1..], parentId, reply);
      assert r[1..] == AppendReply(cs[1..], parentId, reply);
      if c.id == parentId {
        assert r[0].replies == c.replies + [reply];
        TreeSizeAppend(c.replies, [reply]);
        assert TreeSize([reply]) == 1 by {
          assert [reply][1..] == [];
        }
      } else {
        assert r[0] == c;
      }
    }
  }
}
