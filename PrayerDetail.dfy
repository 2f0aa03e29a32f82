/** The detail page of one prayer. It keeps a single list of root comments,
    seeded with two comments, and two drafts: the main comment box (text,
    images, clip) and the reply box (text, images, clip). */
module PrayerDetail {
  import opened Types
  import opened Text
  import opened Media
  import opened Seqs
  import opened CommentTree

  /** Every comment and reply posted from this page is signed as a guest. */
  const Guest: string := "訪客"

  function SeedComments(): (cs: seq<Comment>)
    ensures RootIds(cs) == [1, 2]
  {
    [ Comment(1, "王姐妹",
              "為您禱告，願主賜下醫治與力量。為您禱告，願主賜下醫治與力量。為您禱告，願主賜下醫治與力量。為您禱告，願主賜下醫治與力量。",
              "2026-02-02", 5, [], None, Absent),
      Comment(2, "李弟兄", "同心代禱，相信神會聽我們的禱告。", "2026-02-01", 3, [], None, Absent) ]
  }

  /** A comment or reply as this page builds it from a draft: signed as a
      guest, trimmed text, no pray count, no replies, one reference per image. */
  function NewComment(id: int, text: string, today: string, images: seq<File>, audio: Option<string>,
                      objectUrl: File -> string): (c: Comment)
    ensures c.id == id && c.userName == Guest && c.date == today
    ensures c.content == Trim(text) && c.prayCount == 0 && c.replies == []
    ensures c.images.Some? && |c.images.value| == |images|
    ensures forall k :: 0 <= k < |images| ==> c.images.value[k] == objectUrl(images[k])
    ensures c.audio == AudioOf(audio)
    ensures audio.Some? ==> c.audio == Url(audio.value)
    ensures audio.None? ==> c.audio == Null
  {
    Comment(id, Guest, Trim(text), today, 0, [], Some(ObjectUrls(images, objectUrl)), AudioOf(audio))
  }

  /** Root ids are exactly 1, 2, ..., n in list order. */
  ghost predicate SequentialIds(cs: seq<Comment>) {
    forall k :: 0 <= k < |cs| ==> cs[k].id == k + 1
  }

  /** With ids 1..n, the next id `n + 1` is not in use, and appending a
      comment that carries it keeps the ids 1..n+1. */
  lemma NextIdFresh(cs: seq<Comment>, c: Comment)
    requires SequentialIds(cs)
    requires c.id == |cs| + 1
    ensures c.id !in RootIds(cs)
    ensures SequentialIds(cs + [c])
  {
    forall k | 0 <= k < |cs| ensures RootIds(cs)[k] != c.id {
      assert cs[k].id == k + 1;
    }
  }

  /** Ids 1..n are pairwise distinct, so as long as comments are only
      appended with `length + 1` no two root comments share an id. */
  lemma SequentialIdsDistinct(cs: seq<Comment>)
    requires SequentialIds(cs)
    ensures forall i, j :: 0 <= i < j < |cs| ==> cs[i].id != cs[j].id
  {
  }

  /** The main comment box's recorder maps failures with four names only;
      unlike the reply box (`MicErrorMessage`) it has no AbortError case. */
  function MainMicErrorMessage(name: string): (msg: string)
    ensures msg == MicGenericMessage <==>
      name !in ["NotAllowedError", "NotFoundError", "NotSupportedError", "NotReadableError"]
  {
    if name == "NotAllowedError" then MicNotAllowedMessage
    else if name == "NotFoundError" then MicNotFoundMessage
    else if name == "NotSupportedError" then MicNotSupportedMessage
    else if name == "NotReadableError" then MicNotReadableMessage
    else MicGenericMessage
  }

  /** The two recorders of the page agree on every error name but AbortError,
      which the main recorder reports with the generic message. */
  lemma MicMappingsDifferOnlyOnAbort(name: string)
    ensures MainMicErrorMessage(name) == MicErrorMessage(name) <==> name != "AbortError"
    ensures MainMicErrorMessage("AbortError") == MicGenericMessage
  {
    MicMessagesDistinct();
  }

  class Page {
    var comments: seq<Comment>
    var newComment: string
    var newReply: string
    var replyingTo: Option<int>
    var attachedImages: seq<File>
    var attachedAudio: Option<string>
    var mainAttachedImages: seq<File>
    var mainAttachedAudio: Option<string>

    ghost predicate Valid()
      reads this
    {
      SequentialIds(comments)
    }

    constructor ()
      ensures Valid()
      ensures comments == SeedComments()
      ensures newComment == "" && newReply == "" && replyingTo == None
      ensures attachedImages == [] && attachedAudio == None
      ensures mainAttachedImages == [] && mainAttachedAudio == None
    {
      comments := SeedComments();
      newComment, newReply, replyingTo := "", "", None;
      attachedImages, attachedAudio := [], None;
      mainAttachedImages, mainAttachedAudio := [], None;
    }

    /** Posts the main draft at the END of the list with id `length + 1`,
        when it has text, an image or a clip; then clears the main draft.
        Otherwise nothing changes. */
    method AddComment(today: string, objectUrl: File -> string)
      requires Valid()
      modifies this`comments, this`newComment, this`mainAttachedImages, this`mainAttachedAudio
      ensures Valid()
      ensures comments == if old(HasContent(newComment, mainAttachedImages, mainAttachedAudio))
        then old(comments) + [NewComment(|old(comments)| + 1, old(newComment), today,
                                         old(mainAttachedImages), old(mainAttachedAudio), objectUrl)]
        else old(comments)
      ensures newComment == if old(HasContent(newComment, mainAttachedImages, mainAttachedAudio))
        then "" else old(newComment)
      ensures mainAttachedImages == if old(HasContent(newComment, mainAttachedImages, mainAttachedAudio))
        then [] else old(mainAttachedImages)
      ensures mainAttachedAudio == if old(HasContent(newComment, mainAttachedImages, mainAttachedAudio))
        then None else old(mainAttachedAudio)
    {
      var ok := HasContent(newComment, mainAttachedImages, mainAttachedAudio);
      if ok {
        var c := NewComment(|comments| + 1, newComment, today, mainAttachedImages, mainAttachedAudio, objectUrl);
        NextIdFresh(comments, c);
        comments, newComment, mainAttachedImages, mainAttachedAudio := comments + [c], "", [], None;
      }
    }

    /** Adds one to the pray count of the root comments with id `commentId`;
        length, order, ids and replies stay as they were. */
    method IncrementCommentPrayCount(commentId: int)
      requires Valid()
      modifies this`comments
      ensures Valid()
      ensures comments == IncrementRoot(old(comments), commentId)
    {
      RootIdsPreserved(comments, commentId, Comment(0, "", "", "", 0, [], None, Absent));
      comments := IncrementRoot(comments, commentId);
      assert forall k :: 0 <= k < |comments| ==> comments[k].id == RootIds(comments)[k];
    }

    /** Appends the reply draft to the replies of the root comments with id
        `commentId` when its trimmed text is non-empty (media alone is not
        enough), then closes the reply box and clears the reply draft. */
    method AddReply(commentId: int, now: int, today: string, objectUrl: File -> string)
      requires Valid()
      modifies this`comments, this`newReply, this`replyingTo, this`attachedImages, this`attachedAudio
      ensures Valid()
      ensures Trim(old(newReply)) != "" ==>
        var reply := Comment(now, Guest, Trim(old(newReply)), today, 0, [],
                             Some(ObjectUrls(old(attachedImages), objectUrl)), AudioOf(old(attachedAudio)));
        && comments == AppendReply(old(comments), commentId, reply)
        && newReply == "" && replyingTo == None && attachedImages == [] && attachedAudio == None
      ensures Trim(old(newReply)) == "" ==>
        && comments == old(comments) && newReply == old(newReply) && replyingTo == old(replyingTo)
        && attachedImages == old(attachedImages) && attachedAudio == old(attachedAudio)
    {
      if Trim(newReply) != "" {
        var reply := Comment(now, Guest, Trim(newReply), today, 0, [],
                             Some(ObjectUrls(attachedImages, objectUrl)), AudioOf(attachedAudio));
        RootIdsPreserved(comments, commentId, reply);
        comments := AppendReply(comments, commentId, reply);
        assert forall k :: 0 <= k < |comments| ==> comments[k].id == RootIds(comments)[k];
        newReply := "";
        replyingTo := None;
        attachedImages := [];
        attachedAudio := None;
      }
    }

    /** Removes the reply draft's image at `index`; any other index changes
        nothing. */
    method RemoveImage(index: int)
      modifies this`attachedImages
      ensures attachedImages == DropIndex(old(attachedImages), index)
    {
      attachedImages := DropIndex(attachedImages, index);
    }

    /** Removes the main draft's image at `index`; any other index changes
        nothing. */
    method RemoveMainImage(index: int)
      modifies this`mainAttachedImages
      ensures mainAttachedImages == DropIndex(old(mainAttachedImages), index)
    {
      mainAttachedImages := DropIndex(mainAttachedImages, index);
    }

    method RemoveAudio()
      modifies this`attachedAudio
      ensures attachedAudio == None
    {
      attachedAudio := None;
    }

    method RemoveMainAudio()
      modifies this`mainAttachedAudio
      ensures mainAttachedAudio == None
    {
      mainAttachedAudio := None;
    }

    /** Reply box: attaches the selected files that pass the image check, in
        order; when none passes, the draft is left as it was. */
    method AttachImages(files: seq<File>)
      modifies this`attachedImages
      ensures attachedImages == old(attachedImages) + ValidImages(files)
    {
      if |files| > 0 {
        var valid := ValidImages(files);
        if |valid| > 0 {
          attachedImages := attachedImages + valid;
        }
      }
    }

    /** Main box: attaches every selected file, without any check. */
    method AttachMainImages(files: seq<File>)
      modifies this`mainAttachedImages
      ensures mainAttachedImages == old(mainAttachedImages) + files
    {
      mainAttachedImages := mainAttachedImages + files;
    }

    method FinishRecording(url: string)
      modifies this`attachedAudio
      ensures attachedAudio == Some(url)
    {
      attachedAudio := Some(url);
    }

    method FinishMainRecording(url: string)
      modifies this`mainAttachedAudio
      ensures mainAttachedAudio == Some(url)
    {
      mainAttachedAudio := Some(url);
    }

    method SetNewComment(text: string)
      modifies this`newComment
      ensures newComment == text
    {
      newComment := text;
    }

    method SetNewReply(text: string)
      modifies this`newReply
      ensures newReply == text
    {
      newReply := text;
    }

    method ToggleReplyingTo(commentId: int)
      modifies this`replyingTo
      ensures replyingTo == if old(replyingTo) == Some(commentId) then None else Some(commentId)
    {
      replyingTo := if replyingTo == Some(commentId) then None else Some(commentId);
    }

    method CancelReply()
      modifies this`replyingTo, this`attachedImages, this`attachedAudio
      ensures replyingTo == None && attachedImages == [] && attachedAudio == None
    {
      replyingTo := None;
      attachedImages := [];
      attachedAudio := None;
    }
  }
}
