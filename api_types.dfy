/** The records the client receives from the server (src/api/types.ts). */
module ApiTypes {
  import opened Wrappers

  datatype User = User(id: string, username: string, role: string, profilePicture: Option<string>)

  datatype AuthResponse = AuthResponse(user: User)

  /** Dates are kept as opaque timestamps. */
  datatype Post = Post(
    id: string,
    description: string,
    images: seq<string>,
    user: User,
    isLiked: bool,
    totalLikes: int,
    totalComments: int,
    createdAt: int,
    updatedAt: int)

  datatype Comment = Comment(
    id: string,
    description: string,
    user: User,
    post: string,
    createdAt: string,
    updatedAt: string)

  /** One page of a server-paginated listing. */
  datatype PaginatedResponse<T> = PaginatedResponse(
    items: seq<T>,
    currentPage: int,
    totalPages: int,
    totalItems: int)

  type FeedResponse = PaginatedResponse<Post>
  type CommentsResponse = PaginatedResponse<Comment>

  function PostId(p: Post): string { p.id }
  function CommentId(c: Comment): string { c.id }
}
