/** The comment dialog opened from the prayer list. It keeps one list of root
    comments per prayer id, plus the drafts of a new comment and of a reply,
    which share one set of attached images and one recorded clip. */
module CommentModal {
  import opened Types
  import opened Text
  import opened Media
  import opened Seqs
  import opened CommentTree

  /** The two sample comments installed for a prayer whose list does not exist
      yet; the author names are built from the prayer id. */
  function SampleComments(prayerId: int): (cs: seq<Comment>)
    ensures RootIds(cs) == [1, 2]
    ensures forall k :: 0 <= k < |cs| ==> cs[k].replies == [] && cs[k].prayCount >= 0
  {
    [ Comment(1, "禱告者" + IntToString(prayerId), "為這個代禱事項禱告，願主賜下醫治與力量。",
              "2026-02-02", 5, [], None, Absent),
      Comment(2, "代禱者" + IntToString(prayerId + 1), "同心代禱，相信神會聽我們的禱告。",
              "2026-02-01", 3, [], None, Absent) ]
  }

  // ---------------------------------------------------------------------
  // Display order. The dialog shows a copy of the list sorted by
  // `timeOf(b.date) - timeOf(a.date)`, where `timeOf` stands for
  // `new Date(date).getTime()`. Array sort is stable, so comments with the
  // same time keep their stored order. The sort is modelled as a stable
  // insertion sort, newest first.
  // ---------------------------------------------------------------------

  /** Puts `x` in front of the first comment that is not newer than it. */
  function InsertByDate(x: Comment, sorted: seq<Comment>, timeOf: string -> int): (r: seq<Comment>)
    ensures |r| == |sorted| + 1
    ensures x in r
  {
    if sorted == [] || timeOf(x.date) >= timeOf(sorted[0].date) then [x] + sorted
    else [sorted[0]] + InsertByDate(x, sorted[1..], timeOf)
  }

  function SortByDateDesc(cs: seq<Comment>, timeOf: string -> int): (r: seq<Comment>)
    ensures |r| == |cs|
  {
    if cs == [] then [] else InsertByDate(cs[0], SortByDateDesc(cs[1..], timeOf), timeOf)
  }

  ghost predicate NewestFirst(cs: seq<Comment>, timeOf: string -> int) {
    forall i, j :: 0 <= i < j < |cs| ==> timeOf(cs[i].date) >= timeOf(cs[j].date)
  }

  /** The comments whose date has time `t`, in list order. */
  function WithTime(cs: seq<Comment>, t: int, timeOf: string -> int): seq<Comment> {
    if cs == [] then []
    else (if timeOf(cs[0].date) == t then [cs[0]] else []) + WithTime(cs[1..], t, timeOf)
  }

  /** Inserting keeps every comment and adds `x` once. */
  lemma {:induction false} InsertByDatePerm(x: Comment, sorted: seq<Comment>, timeOf: string -> int)
    ensures multiset(InsertByDate(x, sorted, timeOf)) == multiset(sorted) + multiset{x}
  {
    if sorted != [] && timeOf(x.date) < timeOf(sorted[0].date) {
      InsertByDatePerm(x, sorted[1..], timeOf);
      assert sorted == [sorted[0]] + sorted[1..];
    }
  }

  /** A bound on the times of `x` and of the list bounds the result. */
  lemma {:induction false} InsertByDateBelow(x: Comment, sorted: seq<Comment>, b: int, timeOf: string -> int)
    requires timeOf(x.date) <= b
    requires forall k :: 0 <= k < |sorted| ==> timeOf(sorted[k].date) <= b
    ensures forall k :: 0 <= k < |InsertByDate(x, sorted, timeOf)| ==> timeOf(InsertByDate(x, sorted, timeOf)[k].date) <= b
  {
    if sorted != [] && timeOf(x.date) < timeOf(sorted[0].date) {
      InsertByDateBelow(x, sorted[1..], b, timeOf);
    }
  }

  lemma {:induction false} InsertByDateSorted(x: Comment, sorted: seq<Comment>, timeOf: string -> int)
    requires NewestFirst(sorted, timeOf)
    ensures NewestFirst(InsertByDate(x, sorted, timeOf), timeOf)
  {
    if sorted != [] && timeOf(x.date) < timeOf(sorted[0].date) {
      var tail := sorted[1..];
      InsertByDateSorted(x, tail, timeOf);
      InsertByDateBelow(x, tail, timeOf(sorted[0].date), timeOf);
    }
  }

  /** The sorted copy is newest first. */
  lemma {:induction false} SortNewestFirst(cs: seq<Comment>, timeOf: string -> int)
    ensures NewestFirst(SortByDateDesc(cs, timeOf), timeOf)
  {
    if cs != [] {
      SortNewestFirst(cs[1..], timeOf);
      InsertByDateSorted(cs[0], SortByDateDesc(cs[1..], timeOf), timeOf);
    }
  }

  /** The sorted copy holds the same comments, each as often as the list. */
  lemma {:induction false} SortPerm(cs: seq<Comment>, timeOf: string -> int)
    ensures multiset(SortByDateDesc(cs, timeOf)) == multiset(cs)
  {
    if cs != [] {
      SortPerm(cs[1..], timeOf);
      InsertByDatePerm(cs[0], SortByDateDesc(cs[1..], timeOf), timeOf);
      assert cs == [cs[0]] + cs[1..];
    }
  }

  lemma {:induction false} InsertByDateStable(x: Comment, sorted: seq<Comment>, t: int, timeOf: string -> int)
    ensures WithTime(InsertByDate(x, sorted, timeOf), t, timeOf)
         == (if timeOf(x.date) == t then [x] else []) + WithTime(sorted, t, timeOf)
  {
    if sorted == [] || timeOf(x.date) >= timeOf(sorted[0].date) {
      var r := [x] + sorted;
      assert r[0] == x && r[1..] == sorted;
    } else {
      var r := [sorted[0]] + InsertByDate(x, sorted[1..], timeOf);
      InsertByDateStable(x, sorted[1..], t, timeOf);
      assert r[0] == sorted[0] && r[1..] == InsertByDate(x, sorted[1..], timeOf);
    }
  }

  /** The sort is stable: for every time, the comments with that time appear
      in the same relative order before and after sorting. */
  lemma {:induction false} SortStable(cs: seq<Comment>, t: int, timeOf: string -> int)
    ensures WithTime(SortByDateDesc(cs, timeOf), t, timeOf) == WithTime(cs, t, timeOf)
  {
    if cs != [] {
      SortStable(cs[1..], t, timeOf);
      InsertByDateStable(cs[0], SortByDateDesc(cs[1..], timeOf), t, timeOf);
    }
  }

  class Store {
    const currentUser: string
    /** Whether the `updateCommentCount` callback was passed in. */
    const hasCountCallback: bool

    var comments: map<int, seq<Comment>>
    var currentPrayerId: Option<int>
    var newComment: string
    var newReply: string
    var replyingTo: Option<int>
    var attachedImages: seq<File>
    var attachedAudio: Option<string>

    constructor (currentUser: string, hasCountCallback: bool)
      ensures this.currentUser == currentUser && this.hasCountCallback == hasCountCallback
      ensures comments == map[] && currentPrayerId == None
      ensures newComment == "" && newReply == "" && replyingTo == None
      ensures attachedImages == [] && attachedAudio == None
    {
      this.currentUser := currentUser;
      this.hasCountCallback := hasCountCallback;
      comments := map[];
      currentPrayerId := None;
      newComment, newReply, replyingTo := "", "", None;
      attachedImages, attachedAudio := [], None;
    }

    /** `comments[id] || []`. */
    function ListOf(id: int): (cs: seq<Comment>)
      reads this
      ensures id in comments ==> cs == comments[id]
      ensures id !in comments ==> cs == []
    {
      if id in comments then comments[id] else []
    }

    /** The effect that runs when the dialog is shown for `prayerId`: it
        selects that prayer and seeds its list only when none exists, so an
        existing list (even an empty one) is never replaced. */
    method Open(isOpen: bool, prayerId: Option<int>)
      modifies this`comments, this`currentPrayerId
      ensures isOpen && Truthy(prayerId) ==>
        && currentPrayerId == prayerId
        && comments == if prayerId.value in old(comments) then old(comments)
                       else old(comments)[prayerId.value := SampleComments(prayerId.value)]
      ensures !(isOpen && Truthy(prayerId)) ==>
        currentPrayerId == old(currentPrayerId) && comments == old(comments)
    {
      if isOpen && Truthy(prayerId) {
        var id := prayerId.value;
        currentPrayerId := prayerId;
        if id !in comments {
          comments := comments[id := SampleComments(id)];
        }
      }
    }

    /** Posts the comment draft at the FRONT of the current prayer's list.
        It needs text, an image or a clip, and a current prayer; otherwise
        nothing changes. On success it reports the new length to
        `updateCommentCount` (if given) and clears the draft. */
    method AddComment(now: int, today: string, objectUrl: File -> string)
      returns (countUpdate: Option<(int, int)>)
      modifies this`comments, this`newComment, this`attachedImages, this`attachedAudio
      ensures old(HasContent(newComment, attachedImages, attachedAudio)) && Truthy(currentPrayerId) ==>
        var id := currentPrayerId.value;
        var c := Comment(now, currentUser, Trim(old(newComment)), today, 0, [],
                         Some(ObjectUrls(old(attachedImages), objectUrl)), AudioOf(old(attachedAudio)));
        && comments == old(comments)[id := [c] + old(ListOf(id))]
        && countUpdate == (if hasCountCallback then Some((id, |old(ListOf(id))| + 1)) else None)
        && newComment == "" && attachedImages == [] && attachedAudio == None
      ensures !(old(HasContent(newComment, attachedImages, attachedAudio)) && Truthy(currentPrayerId)) ==>
        && comments == old(comments) && countUpdate == None
        && newComment == old(newComment) && attachedImages == old(attachedImages)
        && attachedAudio == old(attachedAudio)
    {
      countUpdate := None;
      if HasContent(newComment, attachedImages, attachedAudio) {
        if !Truthy(currentPrayerId) {
          return;
        }
        var id := currentPrayerId.value;
        var c := Comment(now, currentUser, Trim(newComment), today, 0, [],
                         Some(ObjectUrls(attachedImages, objectUrl)), AudioOf(attachedAudio));
        var updated := [c] + ListOf(id);
        comments := comments[id := updated];
        if hasCountCallback {
          countUpdate := Some((id, |updated|));
        }
        newComment := "";
        attachedImages := [];
        attachedAudio := None;
      }
    }

    /** Adds one to the pray count of the ROOT comments of the current prayer
        whose id is `commentId`; a prayer without a list gets an empty one. */
    method IncrementCommentPrayCount(commentId: int)
      modifies this`comments
      ensures Truthy(currentPrayerId) ==>
        comments == old(comments)[currentPrayerId.value := IncrementRoot(old(ListOf(currentPrayerId.value)), commentId)]
      ensures !Truthy(currentPrayerId) ==> comments == old(comments)
    {
      if !Truthy(currentPrayerId) {
        return;
      }
      var id := currentPrayerId.value;
      comments := comments[id := IncrementRoot(ListOf(id), commentId)];
    }

    /** Appends the reply draft to the replies of the ROOT comments with id
        `commentId`. It needs non-empty trimmed text (media alone is not
        enough) and a current prayer; it never changes how many root comments
        a prayer has. */
    method AddReply(commentId: int, now: int, today: string, objectUrl: File -> string)
      modifies this`comments, this`newReply, this`replyingTo, this`attachedImages, this`attachedAudio
      ensures Trim(old(newReply)) != "" && Truthy(currentPrayerId) ==>
        var id := currentPrayerId.value;
        var reply := Comment(now, currentUser, Trim(old(newReply)), today, 0, [],
                             Some(ObjectUrls(old(attachedImages), objectUrl)), AudioOf(old(attachedAudio)));
        && comments == old(comments)[id := AppendReply(old(ListOf(id)), commentId, reply)]
        && |ListOf(id)| == |old(ListOf(id))|
        && newReply == "" && replyingTo == None && attachedImages == [] && attachedAudio == None
      ensures !(Trim(old(newReply)) != "" && Truthy(currentPrayerId)) ==>
        && comments == old(comments) && newReply == old(newReply) && replyingTo == old(replyingTo)
        && attachedImages == old(attachedImages) && attachedAudio == old(attachedAudio)
    {
      if Trim(newReply) != "" && Truthy(currentPrayerId) {
        var id := currentPrayerId.value;
        var reply := Comment(now, currentUser, Trim(newReply), today, 0, [],
                             Some(ObjectUrls(attachedImages, objectUrl)), AudioOf(attachedAudio));
        comments := comments[id := AppendReply(ListOf(id), commentId, reply)];
        newReply := "";
        replyingTo := None;
        attachedImages := [];
        attachedAudio := None;
      }
    }

    /** Removes the attached image at `index`; any other index changes nothing. */
    method RemoveImage(index: int)
      modifies this`attachedImages
      ensures attachedImages == DropIndex(old(attachedImages), index)
    {
      attachedImages := DropIndex(attachedImages, index);
    }

    method RemoveAudio()
      modifies this`attachedAudio
      ensures attachedAudio == None
    {
      attachedAudio := None;
    }

    /** Attaches the selected files that pass the image check, after the ones
        already attached; when none passes, the draft is left as it was. */
    method AttachImages(files: seq<File>)
      modifies this`attachedImages
      ensures attachedImages == old(attachedImages) + ValidImages(files)
      ensures ValidImages(files) == [] ==> attachedImages == old(attachedImages)
    {
      if |files| > 0 {
        var valid := ValidImages(files);
        if |valid| > 0 {
          attachedImages := attachedImages + valid;
        }
      }
    }

    /** The recorder's stop handler stores the finished clip's reference. */
    method FinishRecording(url: string)
      modifies this`attachedAudio
      ensures attachedAudio == Some(url)
    {
      attachedAudio := Some(url);
    }

    method SetNewComment(text: string)
      modifies this`newComment
      ensures newComment == text
    {
      newComment := text;
    }

    method SetNewReply(text: string)
      modifies this`newReply
      ensures newReply == text
    {
      newReply := text;
    }

    /** The reply button under a comment opens its reply box, or closes it
        when it is already open. */
    method ToggleReplyingTo(commentId: int)
      modifies this`replyingTo
      ensures replyingTo == if old(replyingTo) == Some(commentId) then None else Some(commentId)
    {
      replyingTo := if replyingTo == Some(commentId) then None else Some(commentId);
    }

    /** The reply box's cancel button closes it and drops the attached media. */
    method CancelReply()
      modifies this`replyingTo, this`attachedImages, this`attachedAudio
      ensures replyingTo == None && attachedImages == [] && attachedAudio == None
    {
      replyingTo := None;
      attachedImages := [];
      attachedAudio := None;
    }

    /** What the dialog lists: the current prayer's comments, newest first,
        or None for the "no comments" placeholder when there is no current
        prayer or no list for it. */
    function Displayed(timeOf: string -> int): (r: Option<seq<Comment>>)
      reads this
      ensures r.Some? <==> Truthy(currentPrayerId) && currentPrayerId.value in comments
      ensures r.Some? ==> NewestFirst(r.value, timeOf)
      ensures r.Some? ==> multiset(r.value) == multiset(comments[currentPrayerId.value])
      ensures r.Some? ==> r.value == SortByDateDesc(comments[currentPrayerId.value], timeOf)
    {
      if Truthy(currentPrayerId) && currentPrayerId.value in comments then
        var cs := comments[currentPrayerId.value];
        SortNewestFirst(cs, timeOf);
        SortPerm(cs, timeOf);
        Some(SortByDateDesc(cs, timeOf))
      else
        None
    }
  }
}
