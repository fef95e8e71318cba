/** The comment record of server/models/Comment.js: six required content
    fields and the timestamps Mongoose adds. The range is two numbers with no
    constraint between them. */
module CommentSchema {
  import opened Common

  datatype Comment = Comment(
    documentId: string,
    userId: UserId,
    userName: string,
    commentText: string,
    rangeStart: int,
    rangeEnd: int,
    createdAt: nat,
    updatedAt: nat)

  /** Mongoose's `required` on a String path: present and not "". */
  predicate RequiredString(f: Option<string>) {
    f.Some? && f.value != []
  }

  /** new Comment({...}) followed by validation on save: every required field
      must be there (a required string must also be non-empty). Numbers are
      kept as given, whatever their order. Both timestamps are the save time. */
  function Construct(documentId: Option<string>, userId: UserId, userName: Option<string>,
                     commentText: Option<string>, rangeStart: Option<int>, rangeEnd: Option<int>,
                     now: nat): (r: Option<Comment>)
    ensures r.Some? <==> RequiredString(documentId) && userId != [] && RequiredString(userName)
                         && RequiredString(commentText) && rangeStart.Some? && rangeEnd.Some?
    ensures r.Some? ==> r.value == Comment(documentId.value, userId, userName.value, commentText.value,
                                          rangeStart.value, rangeEnd.value, now, now)
  {
    if RequiredString(documentId) && userId != [] && RequiredString(userName)
       && RequiredString(commentText) && rangeStart.Some? && rangeEnd.Some?
    then Some(Comment(documentId.value, userId, userName.value, commentText.value,
                      rangeStart.value, rangeEnd.value, now, now))
    else None
  }

  /** The schema does not order the two ends of a range: a reversed range is
      stored as given. */
  lemma ReversedRangeAccepted(documentId: string, userId: UserId, userName: string, text: string,
                              rangeStart: int, rangeEnd: int, now: nat)
    requires documentId != [] && userId != [] && userName != [] && text != []
    requires rangeStart > rangeEnd
    ensures Construct(Some(documentId), userId, Some(userName), Some(text), Some(rangeStart), Some(rangeEnd), now)
            == Some(Comment(documentId, userId, userName, text, rangeStart, rangeEnd, now, now))
  {
  }
}
