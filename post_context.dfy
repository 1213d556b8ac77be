/**
 * The paginated post feed (src/post/PostContext.tsx): the loaded posts, the next
 * page to request and whether more pages remain, plus the local like toggle and
 * the lookup by id.
 */
module PostContext {
  import opened Wrappers
  import opened ApiTypes
  import opened UniqueMerge

  /** `post` with its like flipped: liking adds one like, unliking removes one. */
  function Toggled(post: Post): Post {
    post.(isLiked := !post.isLiked,
          totalLikes := if post.isLiked then post.totalLikes - 1 else post.totalLikes + 1)
  }

  /** The `prev.map(...)` of `toggleLike`: only the posts with id `id` change. */
  function ToggleLikeIn(posts: seq<Post>, id: string): (r: seq<Post>)
    ensures |r| == |posts|
    ensures forall i :: 0 <= i < |posts| && posts[i].id != id ==> r[i] == posts[i]
    ensures forall i :: 0 <= i < |posts| && posts[i].id == id ==>
      && r[i].isLiked == !posts[i].isLiked
      && r[i].totalLikes == (if r[i].isLiked then posts[i].totalLikes + 1 else posts[i].totalLikes - 1)
      && r[i].(isLiked := posts[i].isLiked, totalLikes := posts[i].totalLikes) == posts[i]
    ensures Ids(r, PostId) == Ids(posts, PostId)
  {
    seq(|posts|, i requires 0 <= i < |posts| => if posts[i].id == id then Toggled(posts[i]) else posts[i])
  }

  /** Toggling the same like twice gives back the original list. */
  lemma ToggleLikeTwice(posts: seq<Post>, id: string)
    ensures ToggleLikeIn(ToggleLikeIn(posts, id), id) == posts
  {
    var once := ToggleLikeIn(posts, id);
    var twice := ToggleLikeIn(once, id);
    forall i | 0 <= i < |posts|
      ensures twice[i] == posts[i]
    {
      if posts[i].id == id {
        assert once[i].id == id;
      }
    }
  }

  /** `posts.find(p => p._id === id)`: the first post with that id, if any. */
  function FindById(posts: seq<Post>, id: string): (r: Option<Post>)
    ensures r.None? <==> id !in Ids(posts, PostId)
    ensures r.Some? ==> r.value == posts[FirstIndexOfId(posts, id, PostId)]
  {
    if posts == [] then None
    else
      IdsCons(posts, PostId);
      if posts[0].id == id then Some(posts[0]) else FindById(posts[1..], id)
  }

  class PostStore {
    var posts: seq<Post>
    var page: int
    var hasMore: bool

    /** The loaded posts never repeat an id, and the cursor starts at 1 and only grows. */
    ghost predicate Valid()
      reads this
    {
      UniqueIds(posts, PostId) && page >= 1
    }

    constructor ()
      ensures Valid()
      ensures posts == [] && page == 1 && hasMore
    {
      posts := [];
      page := 1;
      hasMore := true;
    }

    /**
     * `fetchPosts`: request page `page`; on success merge its items and either
     * close the feed or advance the cursor; on failure change nothing.
     */
    method FetchPosts(getFeed: int -> Outcome<FeedResponse>)
      requires Valid()
      modifies this
      ensures Valid()
      ensures match getFeed(old(page))
        case Failure(_) =>
          posts == old(posts) && page == old(page) && hasMore == old(hasMore)
        case Success(data) =>
          && posts == Merge(old(posts), data.items, PostId)
          && if data.currentPage >= data.totalPages
             then !hasMore && page == old(page)
             else page == old(page) + 1 && hasMore == old(hasMore)
      ensures old(page) <= page <= old(page) + 1
      ensures hasMore ==> old(hasMore)
    {
      var response := getFeed(page);
      match response {
        case Failure(_) =>
          // logged and swallowed
        case Success(data) =>
          var merged := MergeUnique(posts, data.items, PostId);
          posts := merged;
          if data.currentPage >= data.totalPages {
            hasMore := false;
          } else {
            page := page + 1;
          }
      }
    }

    /** `toggleLike`: a purely local flip of one post's like; nothing is sent. */
    method ToggleLike(id: string)
      requires Valid()
      modifies this`posts
      ensures Valid()
      ensures posts == ToggleLikeIn(old(posts), id)
    {
      posts := ToggleLikeIn(posts, id);
    }

    /** `getPostById`: a lookup in the loaded posts only; a missing post is not fetched. */
    function GetPostById(id: string): (r: Option<Post>)
      reads this
      ensures r.None? <==> forall i :: 0 <= i < |posts| ==> posts[i].id != id
      ensures r.Some? ==> r.value in posts && r.value.id == id
    {
      FindById(posts, id)
    }
  }
}
