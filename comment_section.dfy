/**
 * The comment thread of one post (src/components/comments/commentSection.tsx):
 * the loaded comments, the page cursor, whether more pages remain and the ids of
 * the comments whose deletion is in flight.
 */
module CommentSection {
  import opened Wrappers
  import opened ApiTypes
  import opened UniqueMerge

  /** `a` is `b` with some elements left out, the rest in their original order. */
  predicate IsSubsequence<T(==)>(a: seq<T>, b: seq<T>)
    decreases |b|
  {
    a == [] || (b != [] && (IsSubsequence(a, b[1..]) || (a[0] == b[0] && IsSubsequence(a[1..], b[1..]))))
  }

  /** `prev.filter(comment => comment._id !== commentId)`. */
  function RemoveById(comments: seq<Comment>, commentId: string): (r: seq<Comment>)
    ensures IsSubsequence(r, comments)
    ensures forall c: Comment :: c.id == commentId ==> multiset(r)[c] == 0
    ensures forall c: Comment :: c.id != commentId ==> multiset(r)[c] == multiset(comments)[c]
  {
    if comments == [] then []
    else
      assert comments == [comments[0]] + comments[1..];
      var rest := RemoveById(comments[1..], commentId);
      if comments[0].id == commentId then rest else [comments[0]] + rest
  }

  /** Every element of a subsequence is an element of the whole. */
  lemma {:induction false} SubsequenceMembers<T>(a: seq<T>, b: seq<T>)
    requires IsSubsequence(a, b)
    ensures forall x :: x in a ==> x in b
  {
    if a != [] {
      if IsSubsequence(a, b[1..]) {
        SubsequenceMembers(a, b[1..]);
      } else {
        SubsequenceMembers(a[1..], b[1..]);
        assert a == [a[0]] + a[1..];
      }
      assert b == [b[0]] + b[1..];
    }
  }

  /** A subsequence of a list without repeated ids has no repeated ids either. */
  lemma {:induction false} SubsequenceKeepsUniqueIds<T>(a: seq<T>, b: seq<T>, id: T -> string)
    requires IsSubsequence(a, b) && UniqueIds(b, id)
    ensures UniqueIds(a, id)
  {
    if a != [] {
      assert UniqueIds(b[1..], id);
      if IsSubsequence(a, b[1..]) {
        SubsequenceKeepsUniqueIds(a, b[1..], id);
      } else {
        SubsequenceKeepsUniqueIds(a[1..], b[1..], id);
        SubsequenceMembers(a[1..], b[1..]);
        forall j | 0 < j < |a|
          ensures id(a[0]) != id(a[j])
        {
          assert a[j] in a[1..];
          var k :| 0 <= k < |b[1..]| && b[1..][k] == a[j];
          assert b[k + 1] == a[j];
        }
      }
    }
  }

  class CommentThread {
    var postId: string
    var comments: seq<Comment>
    var page: int
    var hasMore: bool
    var deletingComments: set<string>

    /** The loaded comments never repeat an id, and the cursor starts at 1 and only grows. */
    ghost predicate Valid()
      reads this
    {
      UniqueIds(comments, CommentId) && page >= 1
    }

    constructor (postId: string)
      ensures Valid()
      ensures this.postId == postId
      ensures comments == [] && page == 1 && hasMore && deletingComments == {}
    {
      this.postId := postId;
      comments := [];
      page := 1;
      hasMore := true;
      deletingComments := {};
    }

    /** The effect on a `postId` change: the whole thread state starts over. */
    method Reset(newPostId: string)
      modifies this
      ensures Valid()
      ensures postId == newPostId
      ensures comments == [] && page == 1 && hasMore && deletingComments == {}
    {
      postId := newPostId;
      comments := [];
      page := 1;
      hasMore := true;
      deletingComments := {};
    }

    /**
     * `fetchComments`: request page `page` of this post's comments; on success
     * merge them and either close the thread or advance the cursor; on failure
     * change nothing.
     */
    method FetchComments(getComments: (string, int) -> Outcome<CommentsResponse>)
      requires Valid()
      modifies this`comments, this`page, this`hasMore
      ensures Valid()
      ensures match getComments(postId, old(page))
        case Failure(_) =>
          comments == old(comments) && page == old(page) && hasMore == old(hasMore)
        case Success(data) =>
          && comments == Merge(old(comments), data.items, CommentId)
          && if data.currentPage >= data.totalPages
             then !hasMore && page == old(page)
             else page == old(page) + 1 && hasMore == old(hasMore)
      ensures old(page) <= page <= old(page) + 1
      ensures hasMore ==> old(hasMore)
    {
      var response := getComments(postId, page);
      match response {
        case Failure(_) =>
          // logged and swallowed
        case Success(data) =>
          var merged := MergeUnique(comments, data.items, CommentId);
          comments := merged;
          if data.currentPage >= data.totalPages {
            hasMore := false;
          } else {
            page := page + 1;
          }
      }
    }

    /** First half of `handleDeleteComment`: mark the comment while the call is pending. */
    method MarkDeleting(commentId: string)
      modifies this`deletingComments
      ensures deletingComments == old(deletingComments) + {commentId}
    {
      deletingComments := deletingComments + {commentId};
    }

    /**
     * Second half of `handleDeleteComment`, once `deleteComment` settles: on
     * success drop the comment, on failure keep the list; always clear the mark.
     */
    method SettleDelete(commentId: string, deleted: Outcome<()>)
      requires Valid()
      modifies this`comments, this`deletingComments
      ensures Valid()
      ensures comments == if deleted.Success? then RemoveById(old(comments), commentId) else old(comments)
      ensures deletingComments == old(deletingComments) - {commentId}
    {
      if deleted.Success? {
        SubsequenceKeepsUniqueIds(RemoveById(comments, commentId), comments, CommentId);
        comments := RemoveById(comments, commentId);
      }
      deletingComments := deletingComments - {commentId};
    }

    /** `handleDeleteComment`: the whole handler, with the remote call's outcome as input. */
    method HandleDeleteComment(commentId: string, deleted: Outcome<()>)
      requires Valid()
      modifies this`comments, this`deletingComments
      ensures Valid()
      ensures comments == if deleted.Success? then RemoveById(old(comments), commentId) else old(comments)
      ensures deletingComments == old(deletingComments) - {commentId}
    {
      MarkDeleting(commentId);
      assert commentId in deletingComments;
      SettleDelete(commentId, deleted);
    }

    /** Whether the card of `commentId` shows its deletion overlay. */
    function IsDeleting(commentId: string): bool
      reads this
    {
      commentId in deletingComments
    }
  }
}
