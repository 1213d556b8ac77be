# ai_useCase_Client state layer in Dafny

This project models the state layer beneath the React client `ai_useCase_Client`: the logic its components and contexts run between user events and server answers. The model has eight parts.

- **Paginated feed store** (`PostContext`). It merges each fetched page into the loaded posts by id, with the last copy winning, and moves a page cursor and a `hasMore` flag. It also has a local like toggle and a lookup by id.
- **Comment thread store** (`CommentSection`). The thread uses the same merge and cursor rules. It resets everything when its post changes, and tracks deletions with a set of "deleting" ids.
- **Bold markup tokenizer** (`FormattedText`). The `renderTextContent` loop cuts a text into plain runs and `**bold**` spans, following the global regular expression `\*\*(.*?)\*\*`.
- **HTTP client interceptors** (`ApiClient`). They attach the bearer token, and map every failure shape to one error message.
- **Session store** (`AuthContext`). It covers the one-shot bootstrap refresh, the current user and the `loading` flag.
- **Post composer** (`CreatePost`). The form holds at most four images, with one preview URL per image, and refuses a blank post.
- **Comment input** (`CommentInput`). It covers the 500-character cap, the trimmed-submit guard and the keyboard shortcut. The fields reset only after a successful submit.
- **Password reset page** (`ResetPassword`). It covers token validation on mount, ordered password validation, the submit, and the priority-ordered choice of view.

Shared modules:
- `Wrappers` holds `Option`, and `Outcome`, which describes how a remote call settled.
- `JsText` holds `trim`, line terminators, and the decimal printing of numbers.
- `ApiTypes` holds the server records.
- `UniqueMerge` holds the `Map`-based merge, which is written identically in two source files and is defined once here.

Every remote call is a parameter: either the `Outcome` the call settled with, or a function from the request to that outcome. Components whose handlers update state step by step are classes, with `modifies` on their handlers. The value transforms they use are functions, each with lemmas proved about it.

## Model

| member | source | states |
|---|---|---|
| JsText.Trim | src/components/post/createPost.tsx:68 | The result is empty exactly when every character is ECMAScript white space or a line terminator. Otherwise it is a contiguous piece of the input that starts and ends with a non-space character, and everything around it in the input is white space. |
| JsText.TrimIdempotent | src/components/comments/commentInput.tsx:36-39 | Trimming an already trimmed string changes nothing. |
| JsText.NatToString | src/components/post/createPost.tsx:41 | A number prints as a non-empty run of decimal digits, with no leading zero. |
| JsText.NatToStringRoundTrip | src/components/post/createPost.tsx:41 | Reading the printed digits back gives the number. |
| UniqueMerge.FirstIndexOfId | src/post/PostContext.tsx:56 | Gives the index of the first element with the id, or -1 exactly when the id is absent. No earlier element has that id. |
| UniqueMerge.LastIndexOfId | src/post/PostContext.tsx:21-22 | Gives the index of the last element with the id, or -1 exactly when the id is absent. No later element has that id. |
| UniqueMerge.FillIndexes | src/post/PostContext.tsx:20-23 | After setting every element under its id, the map's keys are the ids of the input, each once, in insertion order. Every entry carries its own key. |
| UniqueMerge.Values | src/post/PostContext.tsx:24 | The values are read in key-insertion order, one per key. |
| UniqueMerge.Merge | src/post/PostContext.tsx:19-25 | The merged list never repeats an id. An id is in it exactly when it is in the loaded list or in the page. |
| UniqueMerge.MergeUnique | src/post/PostContext.tsx:19-25 | The map-filling loop returns exactly `Merge(prev, page)`. |
| UniqueMerge.FillLastWins | src/post/PostContext.tsx:21-22 | The entry stored under an id is the last element of the input with that id. |
| UniqueMerge.FillFirstOccurrenceOrderAt | src/post/PostContext.tsx:20-24 | For two keys of the filled map, the earlier key's id first occurs earlier in the input. |
| UniqueMerge.FillFirstOccurrenceOrder | src/post/PostContext.tsx:20-24 | The map's keys are ordered by first occurrence in the input. |
| UniqueMerge.FillKeysExtend | src/post/PostContext.tsx:21-23 | Setting more elements only appends keys: the earlier key order is a prefix of the later one. |
| UniqueMerge.FillKeysOfUnique | src/post/PostContext.tsx:21-23 | Without repeated ids, the keys are exactly the input's ids, in order. |
| UniqueMerge.LastIndexOfIdAppend | src/post/PostContext.tsx:21 | In `prev ++ page`, the last element with an id the page carries is that id's last element in the page. |
| UniqueMerge.LastIndexOfIdPrepend | src/post/PostContext.tsx:21 | An id the page lacks has its last occurrence inside `prev`. |
| UniqueMerge.MergeLastWins | src/post/PostContext.tsx:20-23 | Each merged element is the last element of `prev ++ page` with its id. For an id the page carries, it is the page's copy. |
| UniqueMerge.MergeFirstOccurrenceOrder | src/post/PostContext.tsx:20-24 | Merged elements appear in the order of their ids' first occurrence in `prev ++ page`. |
| UniqueMerge.MergeKeepsLoadedIds | src/post/PostContext.tsx:20-24 | With no repeated ids already loaded, the loaded ids keep their positions at the front of the merged list. |
| UniqueMerge.MergeKeepsUntouched | src/post/PostContext.tsx:20-24 | A loaded element whose id the page lacks stays exactly as it was, at its position. |
| UniqueMerge.MergeAppendsNew | src/post/PostContext.tsx:20-24 | Everything after the loaded elements has an id that was not loaded and that the page carries. |
| PostContext.ToggleLikeIn | src/post/PostContext.tsx:42-54 | The length, the order, the ids and every other post stay the same. A matching post flips `isLiked`, gains one like when it becomes liked and loses one otherwise, and keeps all its other fields. |
| PostContext.ToggleLikeTwice | src/post/PostContext.tsx:44-52 | Toggling the same id twice restores the list. |
| PostContext.FindById | src/post/PostContext.tsx:56 | Gives nothing exactly when no post has the id. Otherwise gives the first post with that id. |
| PostContext.PostStore.GetPostById | src/post/PostContext.tsx:56 | Looks only in the loaded posts. Gives nothing exactly when no loaded post has the id. Otherwise gives a loaded post with that id. |
| PostContext.PostStore.constructor | src/post/PostContext.tsx:16-18 | The store starts with no posts, page 1 and `hasMore` true. |
| PostContext.PostStore.FetchPosts | src/post/PostContext.tsx:27-40 | The request is for the current page. A failure changes nothing and is not rethrown. A success merges the page into the posts. It then sets `hasMore` to false with the page unchanged when `currentPage >= totalPages`, and otherwise adds one to the page. Ids stay unique. |
| PostContext.PostStore.ToggleLike | src/post/PostContext.tsx:42-54 | The posts become `ToggleLikeIn(old posts, id)`. Nothing else changes and ids stay unique. |
| CommentSection.RemoveById | src/components/comments/commentSection.tsx:59 | The result is a subsequence of the comments, in their order. It has no comment with the id and every other comment as often as before. |
| CommentSection.SubsequenceMembers | src/components/comments/commentSection.tsx:59 | A subsequence only holds elements of the whole. |
| CommentSection.SubsequenceKeepsUniqueIds | src/components/comments/commentSection.tsx:59 | Filtering a list without repeated ids keeps it without repeated ids. |
| CommentSection.CommentThread.constructor | src/components/comments/commentSection.tsx:14-17 | The thread starts empty on page 1, with `hasMore` true and no deletions pending. |
| CommentSection.CommentThread.Reset | src/components/comments/commentSection.tsx:43-48 | A new post id resets the comments to empty, the page to 1, `hasMore` to true and the deleting set to empty. |
| CommentSection.CommentThread.FetchComments | src/components/comments/commentSection.tsx:27-41 | Requests this post's current page. A failure changes nothing. A success merges and either closes the thread or advances the cursor by exactly one. |
| CommentSection.CommentThread.MarkDeleting | src/components/comments/commentSection.tsx:54 | The id joins the deleting set while the call is pending. Nothing else changes. |
| CommentSection.CommentThread.SettleDelete | src/components/comments/commentSection.tsx:56-69 | A success removes exactly that id's comments. A failure leaves the comments unchanged and is not rethrown. Either way only that id leaves the deleting set. |
| CommentSection.CommentThread.HandleDeleteComment | src/components/comments/commentSection.tsx:53-70 | The whole handler: mark, call, then settle as above. |
| FormattedText.CloseFrom | src/components/FormattedText.tsx:24 | The lazy group closes at the first `**` on the same line, or the result is nothing exactly when no closing `**` is reachable. |
| FormattedText.CloseIsUnique | src/components/FormattedText.tsx:24 | The lazy group can close in only one place. |
| FormattedText.NextMatch | src/components/FormattedText.tsx:28 | A match starts at or after the cursor, is at least four characters long and is framed by `**` at both ends. |
| FormattedText.NextMatchIsLeftmost | src/components/FormattedText.tsx:24-28 | The match found is a match of the regular expression and the leftmost one from the cursor. Finding none means the expression matches nowhere from the cursor on. |
| FormattedText.ScanStep | src/components/FormattedText.tsx:28-39 | One loop step emits the non-empty gap before the match as plain text, then the group as bold, then continues at the match's end. |
| FormattedText.ScanEnd | src/components/FormattedText.tsx:43-45 | After the last match, the rest of the text, if any, is one plain part. |
| FormattedText.MatchContentWellFormed | src/components/FormattedText.tsx:24 | Bold content has no line terminator and no `**`. |
| FormattedText.ScanWellFormed | src/components/FormattedText.tsx:28-45 | Plain parts are never empty, and bold parts are always well formed as above. |
| FormattedText.RenderTextContent | src/components/FormattedText.tsx:18-48 | The loop returns exactly `Tokens(text)`. The parts render back to the text, and every part is well formed. |
| FormattedText.MatchSource | src/components/FormattedText.tsx:34-38 | The bold content wrapped in `**` again is exactly the matched text. |
| FormattedText.StepRoundTrip | src/components/FormattedText.tsx:30-39 | One step's parts, followed by parts that render the rest, render the text from the cursor. |
| FormattedText.ScanRoundTrip | src/components/FormattedText.tsx:28-45 | The parts from a cursor render back to the text from that cursor. |
| FormattedText.TokensRoundTrip | src/components/FormattedText.tsx:18-48 | Concatenating the parts, each bold one re-wrapped in `**`, reproduces the input exactly. |
| FormattedText.NoMarkupIsOnePlainPart | src/components/FormattedText.tsx:43-47 | The text has no closed `**…**` pair exactly when it yields one plain part equal to the text, or no parts when it is empty. |
| FormattedText.FourStarsIsEmptyBold | src/components/FormattedText.tsx:24 | `"****"` yields one bold part with empty content. |
| ApiClient.MessageOr | src/api/axios.ts:29 | The server's message when it is present and non-empty, otherwise the fallback. Never empty. |
| ApiClient.OnResponse | src/api/axios.ts:27-32 | Rejects exactly when the body says `success: false`, with its message or `'An unexpected error occurred.'`. Any other response passes through unchanged. |
| ApiClient.OnResponseError | src/api/axios.ts:33-38 | Always rejects. An HTTP error carries the server's message or `'A server error occurred.'`. Anything else carries `'A network error occurred.'`. |
| ApiClient.InterceptNormalises | src/api/axios.ts:26-39 | Every failure path ends in one rejection with a non-empty message. A response survives exactly when it is delivered and is not `success: false`. |
| ApiClient.FallbacksAreDistinct | src/api/axios.ts:29-37 | The three fallback messages differ from one another. |
| ApiClient.WithAuthorization | src/api/axios.ts:14-17 | With a non-empty token, `Authorization` becomes `Bearer <token>`. Otherwise the headers are unchanged. No other header is touched. |
| ApiClient.AuthorizationRoundTrip | src/api/axios.ts:16 | Stripping the `Bearer ` prefix from the attached header gives back the token. |
| ApiClient.WithAuthorizationIdempotent | src/api/axios.ts:14-17 | Running the request interceptor twice equals running it once. |
| ApiClient.RequestConfig.AttachAuthorization | src/api/axios.ts:12-19 | The request's headers become `WithAuthorization(old headers, token)`. |
| AuthContext.SessionStore.constructor | src/auth/AuthContext.tsx:9-11 | Starts signed out, loading, with the latch open. |
| AuthContext.SessionStore.Login | src/auth/AuthContext.tsx:33 | Sets the user, which makes the session authenticated. `loading` and the latch are untouched. |
| AuthContext.SessionStore.Logout | src/auth/AuthContext.tsx:34 | Clears the user. `loading` and the latch are untouched. |
| AuthContext.SessionStore.CheckUserSession | src/auth/AuthContext.tsx:18-28 | One refresh call. Success signs the user in and navigates to `/`. Failure signs out and is swallowed. `loading` ends false, so the children show. |
| AuthContext.SessionStore.RunBootstrapEffect | src/auth/AuthContext.tsx:14-31 | The first run closes the latch and runs the session check. Every later run changes nothing, so the refresh endpoint is called at most once. |
| CreatePost.TooManyImagesError | src/components/post/createPost.tsx:41 | The message is `Only `, then decimal digits that read back as the remaining count, then ` more images allowed`. |
| CreatePost.Accepted | src/components/post/createPost.tsx:37-40 | Gives the first `4 - selected` chosen files, in order. Some files are dropped exactly when more were chosen than fit. |
| CreatePost.RemoveAt | src/components/post/createPost.tsx:55-56 | Deletes exactly position `index`, and the other elements keep their order. An index out of range changes nothing. |
| CreatePost.RemoveAtMultiset | src/components/post/createPost.tsx:55-56 | Removal takes out exactly the one element at that index. |
| CreatePost.Previews | src/components/post/createPost.tsx:46-49 | One object URL per file, in the files' order. |
| CreatePost.PostComposer.constructor | src/components/post/createPost.tsx:21-25 | The composer starts empty, not loading, with no error. |
| CreatePost.PostComposer.EditText | src/components/post/createPost.tsx:114 | Only the text changes. |
| CreatePost.PostComposer.HandleImageChange | src/components/post/createPost.tsx:33-51 | Choosing nothing changes nothing. Otherwise the accepted files and their previews are appended, and the limit of four holds with the two lists the same length. The `Only N more images allowed` error is set when files are dropped, and the error is left alone when everything fits. |
| CreatePost.PostComposer.RemoveImage | src/components/post/createPost.tsx:53-57 | Deletes the same index from both lists, keeping them the same length. |
| CreatePost.PostComposer.ClearAll | src/components/post/createPost.tsx:59-65 | Empties the text and both lists and clears the error. |
| CreatePost.PostComposer.HandleSubmit | src/components/post/createPost.tsx:67-84 | A blank form sets `'Add some text or image to post'` and makes no call. Otherwise the trimmed text and the images are sent. Success clears everything. Failure sets `'Failed to create post'` and keeps the inputs. `loading` ends false. |
| CommentInput.SubmittedCommentShape | src/components/comments/commentInput.tsx:36-39 | A comment the guard lets through is non-blank, at most 500 characters, and has no surrounding white space. |
| CommentInput.CommentBox.constructor | src/components/comments/commentInput.tsx:26-28 | Starts empty, with `askAI` off and unfocused. |
| CommentInput.CommentBox.HandleCommentChange | src/components/comments/commentInput.tsx:55-60 | An edit is accepted only when it is at most 500 characters long. Otherwise nothing changes, so the cap always holds. |
| CommentInput.CommentBox.HandleSubmit | src/components/comments/commentInput.tsx:35-47 | No call is made exactly when the send button is disabled. Otherwise the trimmed comment and `askAI` are sent. Success resets all three fields. Failure leaves everything unchanged. |
| CommentInput.CommentBox.HandleKeyPress | src/components/comments/commentInput.tsx:49-53 | Submits only on Enter with Ctrl or Meta, under the same guard as the button. Otherwise nothing changes. |
| CommentInput.CommentBox.ToggleAskAI | src/components/comments/commentInput.tsx:170 | Negates `askAI`, so two toggles restore it. |
| CommentInput.CommentBox.Focus | src/components/comments/commentInput.tsx:116 | Sets the focus flag. |
| CommentInput.CommentBox.Blur | src/components/comments/commentInput.tsx:117 | Clears the focus flag. |
| ResetPassword.PasswordProblem | src/pages/resetPassword/index.tsx:79-92 | A password shorter than 8 gives the length error, whatever the confirmation. A long enough password that differs from its confirmation gives the mismatch error. Otherwise there is no problem. |
| ResetPassword.SelectView | src/pages/resetPassword/index.tsx:135-232 | The view follows a fixed priority: validating, then reset succeeded, then invalid link, then the form. The invalid-link view shows the error, or the fixed default when the error is empty. |
| ResetPassword.ResetPasswordPage.constructor | src/pages/resetPassword/index.tsx:38-45 | The page starts in the validating view with every other flag off. |
| ResetPassword.ResetPasswordPage.ValidateToken | src/pages/resetPassword/index.tsx:59-77 | The token becomes valid only on an `isValid` answer. A negative answer sets the expired-token error and a failed call sets the validation-failed error. Validation always ends. |
| ResetPassword.ResetPasswordPage.OnMount | src/pages/resetPassword/index.tsx:47-57 | A token is validated, with the same outcomes and errors as `ValidateToken`. Without one, the server is not asked, the no-token error is set, validation ends, and the page shows the invalid-link view. The reset flags, the field error, the show flags and the scheduled redirects are unchanged. |
| ResetPassword.ResetPasswordPage.ValidatePasswords | src/pages/resetPassword/index.tsx:79-92 | Returns true exactly when `PasswordProblem` finds nothing. Sets the field error to the problem, or clears it. |
| ResetPassword.ResetPasswordPage.HandleSubmit | src/pages/resetPassword/index.tsx:94-124 | A submit that fails validation never calls the server. Otherwise it sends the token and the new password. Success marks the reset done and schedules `/login`. Failure sets `'Failed to reset password.'`. The resetting flag ends false. The token flags and the show flags are unchanged. |
| ResetPassword.ResetPasswordPage.TogglePasswordVisibility | src/pages/resetPassword/index.tsx:126-128 | Negates the password visibility. Every other field is unchanged, so the view is too. |
| ResetPassword.ResetPasswordPage.ToggleConfirmPasswordVisibility | src/pages/resetPassword/index.tsx:130-132 | Negates the confirmation visibility. Every other field is unchanged, so the view is too. |

## Left out

- **Asynchronous interleaving and React batching.** Each handler is one sequential step, and the settled outcome of its remote call is an input. State while a call is pending (for example `loading` or `isResettingPassword` being true) is visible only inside the step.
- **The stale closure in the comment reset effect.** The effect calls `fetchComments` right after resetting (src/components/comments/commentSection.tsx:49), and that call reads the page captured before the reset. `CommentThread.Reset` models only the reset of the state; the fetch it triggers is left out.
- **Like rollback, in-flight sets for posts, and a resolver that fetches a missing post.** The code has none of these, and does not rethrow a failed delete. The model follows the code:
  - `toggleLike` never calls the server;
  - `getPostById` only searches the loaded posts;
  - a failed comment delete is logged and swallowed.
- **`fetchPosts` and `fetchComments` do not check `hasMore`.** Guarding against fetching past the end is left to the infinite-scroll component. The model follows this: a fetch always requests the current page.
- **Timers.** The 3-second `setTimeout` that clears the image error (src/components/post/createPost.tsx:42) is left out, and so is the timer that navigates to `/login` after a reset (src/pages/resetPassword/index.tsx:114). For the second, `scheduledRedirects` only records that the navigation was scheduled.
- **Browser and I/O wrappers.**
  - `URL.createObjectURL` is a parameter, and the URLs are opaque strings.
  - `URL.revokeObjectURL`, clearing the file input's value, `document.title`, `console.error`, and reading the token cookie (the token is an input) are left out.
  - The transport modules (src/api/post.ts, src/api/auth.ts, src/api/cloudinary.ts) and the error snackbars are not part of this model.
- **Navigation.** The session store records the navigations it requests in a ghost sequence. The router itself is not part of this model.
- **JavaScript string lengths.** Strings are sequences of Unicode characters, whereas `length`, `trim` and the regular expression's `.` work on UTF-16 code units. The 500-character cap and the 8-character minimum therefore count characters, which differs from the source only for characters outside the Basic Multilingual Plane.
- ApiClient.OnResponse: a response body is either a `{ success, message }` envelope or absent. A `success` field that is not a boolean counts as "not `false`", and a message that is not a string is not modelled.
- ApiClient.OnResponseError: an HTTP error always carries a JSON body. In the source, an error response with a `null` body makes the handler throw a `TypeError` instead, and that path is not modelled.
- **The request interceptor's error handler** (src/api/axios.ts:20-22) passes the error through unchanged and is not modelled.
- **Presentation.**
  - `isAuthenticated`, `isFormValid`, the send-button rule and the current view are predicates (`SessionStore.IsAuthenticated`, `PostComposer.IsFormValid`, `CommentBox.SendDisabled`, `ResetPasswordPage.CurrentView`). So are the provider's render gate (`SessionStore.ShowsChildren`) and the per-comment spinner flag (`CommentThread.IsDeleting`, src/components/comments/commentSection.tsx:106). Their meaning is stated through the handlers' contracts above.
- **Helpers specified by lemmas.** These have no contract of their own; the lemmas listed above state their properties.
  - `ApiClient.Intercept` composes the two response handlers (src/api/axios.ts:26-39), and `InterceptNormalises` states what it does.
  - `UniqueMerge.Put` is one `Map.set`, and `UniqueMerge.Fill` is the `forEach` of `Map.set` calls (src/post/PostContext.tsx:20-23). `FillIndexes`, `FillLastWins`, `FillFirstOccurrenceOrder` and `FillKeysExtend` state what they do.
  - The markup these predicates drive, such as the disabled attributes and the loader page, is not part of this model.
