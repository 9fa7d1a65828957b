# Blog: a verified model

This project models the core of a small blogging application, written in
JavaScript: an Express back end over MongoDB and a React front end.

The back end is modelled on values and small classes:

- the User and Blog schemas: required fields, the trim and lower-case
  setters, the email pattern, the role enumeration and the defaults;
- the bearer-token guard in front of the protected routes;
- registration and login over a user collection (`UserStore`);
- the five blog endpoints over a blog collection (`BlogStore`): create,
  list newest first, get, update with the `x || old` field rule, and
  delete with the ownership check;
- the router, which says which routes sit behind the guard.

The front end is modelled as the pages' own logic:

- the tag list of the editor form;
- the edit page's validation and its unsaved-changes flag;
- the create page's presence check;
- word count and reading time;
- the search filter of the blog list;
- the author check and the two-step delete control of the detail page;
- the password-strength meter of the registration page;
- how each page reads the server's answers.

The modules follow the source files:

| module | file |
|---|---|
| `UserModel` | `backend/src/models/user.model.js` |
| `BlogModel` | `backend/src/models/blog.model.js` |
| `AuthGuard` | `backend/src/middelware/auth.js` |
| `AuthController` | `backend/src/controllers/auth.controller.js` |
| `BlogController` | `backend/src/controllers/blog.controller.js` |
| `Routes` | `backend/src/routes/user.Routes.js` |
| `ApiClient` | `frontend/blog/src/services/api.js` (headers and response tests only) |
| `BlogForm` | the form state shared by `CreateBlog.jsx` and `EditBlog.jsx` |
| `EditBlog` | `frontend/blog/src/pages/EditBlog.jsx` |
| `CreateBlog` | `frontend/blog/src/pages/CreateBlog.jsx` |
| `BlogList` | `frontend/blog/src/pages/BlogList.jsx` |
| `Reading` | `getReadingTime`, of which `BlogList.jsx` and `BlogDetail.jsx` hold identical copies |
| `BlogDetail` | `frontend/blog/src/pages/BlogDetail.jsx` |
| `Register` | `frontend/blog/src/pages/Register.jsx` |

Shared modules:

- `Common`: `Option` and object ids.
- `Text`: the JavaScript string operations used, on `seq<char>`. These are `trim`, ASCII `toLowerCase`, `includes`, `split(/\s+/)` and decimal formatting.
- `Seqs`: `filter`, subsequences and duplicates.
- `Session`: token payloads and the cryptographic primitives.
- `Http`: the JSON bodies.

Each request is one atomic step. Object ids are natural numbers handed out
by a counter, so comparing two ids with `toString()` is comparing the
numbers.

Duplicated helpers are modelled once:

- `getReadingTime` appears with the same text in `BlogList.jsx` and `BlogDetail.jsx`.
- The tag add and remove handlers of `CreateBlog.jsx` and `EditBlog.jsx` compute the same values.
- Each is one function here, and the table cites both copies.

## Model

| member | source | states |
|---|---|---|
| Text.Trim | frontend/blog/src/pages/EditBlog.jsx:90-102 | `trim()` leaves no whitespace at either end. The result is empty exactly when the input is all whitespace. |
| Text.TrimIsInfix | frontend/blog/src/pages/EditBlog.jsx:90-102 | `trim()` removes only whitespace, and only at the ends: its result is the slice of the input between a whitespace prefix and a whitespace suffix. |
| Text.TrimIdempotent | backend/src/models/blog.model.js:4-8 | Trimming an already trimmed title changes nothing. |
| Text.TrimToLowerCommute | backend/src/models/user.model.js:18-19 | Lower-casing then trimming equals trimming then lower-casing. |
| Text.IncludesIff | frontend/blog/src/pages/BlogList.jsx:49-51 | `includes(q)` holds exactly when `q` starts at some index of the string. |
| Text.SplitLength | frontend/blog/src/pages/BlogList.jsx:40 | `split(/\s+/)` gives one piece per word, plus one for leading and one for trailing whitespace. |
| Text.WordsTrim | frontend/blog/src/pages/CreateBlog.jsx:78-80 | Trimming does not change the number of words. |
| Text.SplitTrimmed | frontend/blog/src/pages/EditBlog.jsx:141-143 | On non-empty trimmed text, the split gives exactly one piece per word. |
| Seqs.FilterSpec | frontend/blog/src/pages/CreateBlog.jsx:51 | `filter` keeps a subsequence: exactly the elements the test accepts, each as often as before. Accepting all returns the input. |
| UserModel.ParseRole | backend/src/models/user.model.js:22-26 | An absent role defaults to `user`. Only `admin` and `user` are accepted, and the stored name is the one given. |
| UserModel.NormaliseEmail | backend/src/models/user.model.js:14-19 | The setters give a lower-case, trimmed email, equal to lower-casing the trimmed input. |
| UserModel.NormalisedIff | backend/src/models/user.model.js:18-19 | An email is normalised exactly when the setters leave it unchanged. |
| UserModel.NormaliseEmailIdempotent | backend/src/models/user.model.js:18-19 | Normalising twice equals normalising once. |
| UserModel.EmailCheckIsPattern | backend/src/models/user.model.js:20 | The left-to-right check accepts exactly the strings that `^\S+@\S+\.\S+$` matches. |
| UserModel.NewUser | backend/src/models/user.model.js:3-27 | A record is built exactly when all of these hold: a non-empty username, a normalised email matching the pattern, a password of length at least 6, and a valid role. It then holds the normalised email and validates. |
| BlogModel.NewBlog | backend/src/models/blog.model.js:3-23 | A blog is built exactly when the title is present and not blank and the content is present and non-empty. The content is not trimmed. The title is stored trimmed, tags default to empty and `createdAt` to the clock. |
| AuthGuard.ExtractToken | backend/src/middelware/auth.js:13-15 | After an exact `Bearer ` prefix the token is the rest of the header. Without the prefix it is the whole header. |
| AuthGuard.ExtractBearer | backend/src/middelware/auth.js:13-15 | Extracting from `Bearer ` + t gives back t. |
| AuthGuard.Authenticate | backend/src/middelware/auth.js:4-27 | A missing or empty header gives 401. A token the verifier refuses gives 403. Otherwise the request proceeds with exactly the decoded payload as identity. |
| ApiClient.AuthHeader | frontend/blog/src/services/api.js:3-6 | A stored non-empty token is sent as `Bearer <token>`. Otherwise no header is sent. |
| ApiClient.HeaderRoundTrip | frontend/blog/src/services/api.js:3-6 | The guard extracts the client's own token from the client's header. A client without a token gets 401 whatever the verifier. |
| ApiClient.SignedTokenAuthenticates | backend/src/controllers/auth.controller.js:79-83 | A token the server signed, sent back by the client, authenticates as exactly its payload. |
| ApiClient.ErrorOr | frontend/blog/src/pages/CreateBlog.jsx:69 | `response.error \|\| fallback` is the body's error when one is set, else the fallback. |
| AuthController.HashLengthChecked | backend/src/models/user.model.js:9-13 | The minimum length of 6 is checked on the stored hash, not on the typed password. |
| AuthController.InsertKeepsValid | backend/src/models/user.model.js:4-21 | Inserting a valid record under a fresh id keeps every record valid. If the unique indexes accept it, emails and usernames stay unique. |
| AuthController.UserStore.Insert | backend/src/controllers/auth.controller.js:35 | `save` stores the record under the next id and keeps the collection valid. |
| AuthController.UserStore.Signup | backend/src/controllers/auth.controller.js:7-58 | 400 is given exactly when a stored user has the username or the email, which the query compares after the schema's trim and lower-case setters. Otherwise a record the schema refuses gives 500. Both refusals write nothing. Success is 201 and adds exactly one user, with role `user` and the hashed password. It returns a token for `{userId, username, role}` and a summary without the password. |
| AuthController.UserStore.Login | backend/src/controllers/auth.controller.js:60-99 | The user is looked up by the normalised email, as the query's setters give it. An unknown email and a wrong password give the same 401. Success is 200 with a token and that user's summary. Nothing is written. |
| AuthController.RegisterThenLogin | backend/src/controllers/auth.controller.js:7-99 | After a successful signup, login with the email as typed at signup and the same password succeeds, for the same user. |
| BlogController.Populate | backend/src/controllers/blog.controller.js:28 | `populate("author", "username")` copies every field. The author appears, with its username, exactly when it is set and still stored. |
| BlogController.InsertByDate | backend/src/controllers/blog.controller.js:18 | Inserting into a newest-first list keeps it newest first and adds exactly that blog. |
| BlogController.SortNewestFirst | backend/src/controllers/blog.controller.js:18 | `sort({ createdAt: -1 })` gives a newest-first permutation of its input. |
| BlogController.ListingIsStore | backend/src/controllers/blog.controller.js:16-24 | The listing is newest first and holds every stored blog exactly once, and nothing else. |
| BlogController.ListNewestFirstExample | backend/src/controllers/blog.controller.js:18 | Three blogs created in order are listed in reverse order. |
| BlogController.ApplyPatch | backend/src/controllers/blog.controller.js:50-53 | Title, content and image take the new value only when it is a non-empty string, and the title goes through the trim setter. Supplied tags always replace the old ones. Id, author and `createdAt` are kept. |
| BlogController.UpdateNeverClearsImage | backend/src/controllers/blog.controller.js:53 | An image, once set, survives every update. An empty tag list does clear the tags. |
| BlogController.ApplyPatchIdempotent | backend/src/controllers/blog.controller.js:50-53 | Applying the same update twice equals applying it once. |
| BlogController.EmptyPatchKeeps | backend/src/controllers/blog.controller.js:50-53 | An update with no fields leaves a stored blog unchanged. |
| BlogController.PatchValidIff | backend/src/controllers/blog.controller.js:50-54 | The updated blog fails validation, so the update gives 500, exactly when the new title is non-empty but all whitespace. |
| BlogController.BlogStore.Create | backend/src/controllers/blog.controller.js:3-14 | A valid input is stored under a new id with the caller as author, and the answer is 201 with the blog. There is no ownership check. Otherwise the answer is 500 and nothing changes. |
| BlogController.BlogStore.List | backend/src/controllers/blog.controller.js:16-24 | 200 with the populated newest-first listing. |
| BlogController.BlogStore.Get | backend/src/controllers/blog.controller.js:26-37 | A missing id gives 404. Otherwise 200 with the populated blog. |
| BlogController.BlogStore.Update | backend/src/controllers/blog.controller.js:39-60 | A missing id gives 404. A blog with an author other than the caller gives 403. An invalid result gives 500. Each leaves the store as it was. Otherwise only that blog changes, to the patched blog, and the answer is 200. |
| BlogController.BlogStore.Delete | backend/src/controllers/blog.controller.js:62-78 | 404 and 403 as for update, with nothing removed. Otherwise exactly that id is removed and the answer is 200. |
| Routes.HandleOpen | backend/src/routes/user.Routes.js:20-25 | The unguarded routes never answer with the guard's errors and never write blogs. Only signup writes users. |
| Routes.HandleGuarded | backend/src/routes/user.Routes.js:24-28 | Exactly the route's controller runs for the caller. Create stores the new blog with the caller as author, or gives 500. Update and delete give 404 for a missing blog and 403 for one the caller may not change. Otherwise update applies the patch (or 500) and delete removes exactly that blog. |
| Routes.Handle | backend/src/routes/user.Routes.js:20-28 | On create, update and delete the guard runs first. When it answers, nothing is written. Otherwise the controller's full effect holds with the token's `userId` as the caller. The other routes are never guarded. |
| BlogForm.WithField | frontend/blog/src/pages/CreateBlog.jsx:31-33 | `handleChange` replaces only the named field. The other fields and the tags are unchanged. |
| BlogForm.AddTag | frontend/blog/src/pages/EditBlog.jsx:65-77 | Only Enter with non-blank input acts. The trimmed input is appended exactly when it is new. Acting always clears the input. A duplicate-free list stays duplicate-free. |
| BlogForm.RemoveTag | frontend/blog/src/pages/CreateBlog.jsx:48-53 | Every occurrence of the tag goes. The rest keep their order and counts, and a duplicate-free list stays duplicate-free. |
| BlogForm.RemoveUndoesAdd | frontend/blog/src/pages/EditBlog.jsx:65-85 | Removing the tag just added gives the old list back. |
| BlogForm.WordCount | frontend/blog/src/pages/CreateBlog.jsx:78-80 | The count is the number of words of the content. It is 0 exactly for blank content. |
| BlogForm.SaveOutcomeAsWritten | frontend/blog/src/pages/CreateBlog.jsx:64-75 | As written, a save counts as done exactly when the body has a top-level `_id`. Otherwise the page shows the body's error or the fallback. A failed request shows its own message. |
| BlogForm.SaveOutcome | frontend/blog/src/pages/EditBlog.jsx:126-138 | Corrected: a save counts as done exactly when the body carries the saved blog. |
| Reading.ReadingMinutes | frontend/blog/src/pages/BlogList.jsx:41 | `max(1, ceil(words / 200))`: the least m ≥ 1 with words ≤ 200·m. |
| Reading.ReadingMinutesMonotone | frontend/blog/src/pages/BlogList.jsx:41 | Minutes never decrease as words grow, and exceed 1 exactly above 200 words. |
| Reading.MinutesForIsReadingMinutes | frontend/blog/src/pages/BlogList.jsx:41 | The arithmetic form `max(1, ceil(words / 200))` equals the characterisation. |
| Reading.GetReadingTime | frontend/blog/src/pages/BlogList.jsx:38-43 | Missing or empty content gives "1 min", without " read". Otherwise the text is "m min read" for the number of split pieces. |
| Reading.ReadingTimeCountsPieces | frontend/blog/src/pages/BlogDetail.jsx:81-86 | The same function serves the detail page's copy. Leading or trailing whitespace adds one piece each to the count. |
| BlogList.FilteredBlogs | frontend/blog/src/pages/BlogList.jsx:45-53 | The result is a subsequence, and a blog is kept exactly when it matches. A blank query keeps all blogs. Otherwise a blog matches when the lower-cased query occurs in its lower-cased title, content or author name. |
| BlogList.SearchIgnoresQueryCase | frontend/blog/src/pages/BlogList.jsx:46-47 | Lower-casing the query first gives the same result. |
| BlogList.TitleOccurrenceKept | frontend/blog/src/pages/BlogList.jsx:49 | A blog whose lower-cased title contains the lower-cased query is kept. |
| BlogDetail.UnderscoreId | frontend/blog/src/pages/BlogDetail.jsx:121 | `user._id` is undefined: the session's user summary carries `id`. |
| BlogDetail.IsAuthorAsWrittenIgnoresUser | frontend/blog/src/pages/BlogDetail.jsx:121 | As written, the author controls appear exactly for a signed-in user on a blog without a populated author. |
| BlogDetail.IsAuthorMatchesOwnership | frontend/blog/src/pages/BlogDetail.jsx:121 | Corrected: the check holds exactly when the signed-in user is the blog's stored author, and such a user may update and delete it. |
| BlogDetail.ControlStep | frontend/blog/src/pages/BlogDetail.jsx:216-254 | The author controls exist only for the author. Delete sets the flag, Cancel clears it, and only Confirm with the flag set calls delete. |
| BlogDetail.DeletesNeedsConfirm | frontend/blog/src/pages/BlogDetail.jsx:216-254 | Any sequence of presses that calls delete comes from the author and contains a Confirm. A Delete press precedes that Confirm, unless the flag was already set. |
| BlogDetail.DeleteThenConfirm | frontend/blog/src/pages/BlogDetail.jsx:231-248 | Delete then Confirm calls delete. |
| BlogDetail.DeleteControls.Press | frontend/blog/src/pages/BlogDetail.jsx:231-248 | A click updates `showDeleteConfirm` and calls delete as the step function says. |
| BlogDetail.DeleteSettled | frontend/blog/src/pages/BlogDetail.jsx:61-68 | `handleDelete` goes home whenever an answer arrives. A failed request shows "Failed to delete blog". |
| BlogDetail.DeleteLeavesOnRefusal | frontend/blog/src/pages/BlogDetail.jsx:61-68 | Even a 403 or 404 from the delete endpoint sends the page home. |
| BlogDetail.ErrorScreen | frontend/blog/src/pages/BlogDetail.jsx:106-111 | The error screen shows exactly when there is an error or no blog. It shows the error if set, else "Blog not found". |
| Register.Score | frontend/blog/src/pages/Register.jsx:57-60 | The count of character classes present is at most 3. |
| Register.PasswordStrength | frontend/blog/src/pages/Register.jsx:51-63 | The empty password gives level 0. Below 4 characters: "Too short"/1. 4–5: "Weak"/1. 6–7: "Fair"/2. From 8: "Strong"/3 with at least two classes, else "Good"/2. The level is at most 3, and level 3 needs length ≥ 8. |
| Register.StrengthGrowsWithTyping | frontend/blog/src/pages/Register.jsx:51-63 | Typing one more character never lowers the level. |
| Register.MeterWidth | frontend/blog/src/pages/Register.jsx:65-68 | Indexing the width table by the level is in bounds. The meter is full exactly at level 3. |
| Register.SignupOutcome | frontend/blog/src/pages/Register.jsx:32-48 | A body with a non-empty `message` goes to login; an empty one is falsy and does not. Otherwise the page shows the error or "Registration failed". A failed request shows its own message. |
| Register.SignupOutcomeMatchesServer | frontend/blog/src/pages/Register.jsx:38-42 | For the signup endpoint's answers, the page goes to login exactly on 201 and otherwise shows the server's error. |
| EditBlog.TitleMessages | frontend/blog/src/pages/EditBlog.jsx:90-96 | There is at most one title message. "required" for a blank title, "at least 5" below 5 trimmed characters, "less than 200" above 200. No message for 5 to 200. |
| EditBlog.ContentMessages | frontend/blog/src/pages/EditBlog.jsx:98-102 | "required" for blank content and "at least 20" below 20 trimmed characters. No message from 20. |
| EditBlog.ImageMessages | frontend/blog/src/pages/EditBlog.jsx:104-110 | A blank image is never an error. Another is an error exactly when it does not parse as a URL. |
| EditBlog.ValidateFormIff | frontend/blog/src/pages/EditBlog.jsx:87-114 | The form is valid exactly when all three bounds hold. |
| EditBlog.ValidFormIsStorable | frontend/blog/src/pages/EditBlog.jsx:87-114 | A valid form has a non-blank title and non-empty content, so the schema accepts it. |
| EditBlog.UpdateSuccessMissed | frontend/blog/src/pages/EditBlog.jsx:128-132 | As written, a successful update is shown as "Failed to update blog". |
| EditBlog.SaveOutcomeMatchesUpdate | frontend/blog/src/pages/EditBlog.jsx:126-138 | Corrected: the page moves on exactly on the server's 200, and otherwise shows the server's error. |
| EditBlog.EditBlogPage.constructor | frontend/blog/src/pages/EditBlog.jsx:40-58 | A fetched blog fills the form and a missing image becomes "". An error body shows its error, and a failed fetch shows "Failed to fetch blog details". The page starts clean. |
| EditBlog.EditBlogPage.TogglePreview | frontend/blog/src/pages/EditBlog.jsx:190 | The preview button flips the preview flag. |
| EditBlog.EditBlogPage.HandleChange | frontend/blog/src/pages/EditBlog.jsx:60-63 | Any field change marks the page dirty. |
| EditBlog.EditBlogPage.HandleAddTag | frontend/blog/src/pages/EditBlog.jsx:65-77 | The page becomes dirty only when a tag was actually added. |
| EditBlog.EditBlogPage.RemoveTag | frontend/blog/src/pages/EditBlog.jsx:79-85 | A removal always marks the page dirty. |
| EditBlog.EditBlogPage.Validate | frontend/blog/src/pages/EditBlog.jsx:87-114 | `validateForm` sets the messages and reports whether there are none. |
| EditBlog.EditBlogPage.BeginSubmit | frontend/blog/src/pages/EditBlog.jsx:116-125 | The update request goes out exactly when the form is valid. The button is then disabled (`saving \|\| !isDirty`, line 199) and the error is cleared. |
| EditBlog.EditBlogPage.FinishSubmit | frontend/blog/src/pages/EditBlog.jsx:126-138 | Saving ends. A save clears the dirty flag and leaves the page. Otherwise the error is shown and the edits are kept. |
| CreateBlog.CreateSuccessMissed | frontend/blog/src/pages/CreateBlog.jsx:66-69 | As written, a created blog is shown as "Failed to create blog". |
| CreateBlog.SaveOutcomeMatchesCreate | frontend/blog/src/pages/CreateBlog.jsx:64-75 | Corrected: the page moves on exactly on the server's 201, and otherwise shows the server's error. |
| CreateBlog.CreateBlogPage.constructor | frontend/blog/src/pages/CreateBlog.jsx:19-28 | The page starts with an empty form and no error. |
| CreateBlog.CreateBlogPage.TogglePreview | frontend/blog/src/pages/CreateBlog.jsx:100 | The preview button flips the preview flag. |
| CreateBlog.CreateBlogPage.HandleChange | frontend/blog/src/pages/CreateBlog.jsx:31-33 | Only the named field changes. |
| CreateBlog.CreateBlogPage.HandleAddTag | frontend/blog/src/pages/CreateBlog.jsx:35-46 | The same add rule as the edit page. |
| CreateBlog.CreateBlogPage.RemoveTag | frontend/blog/src/pages/CreateBlog.jsx:48-53 | The same remove rule as the edit page. |
| CreateBlog.CreateBlogPage.BeginSubmit | frontend/blog/src/pages/CreateBlog.jsx:55-63 | The request is refused with "Title and content are required" exactly when the title or the content is the empty string. There is no trimming. |
| CreateBlog.CreateBlogPage.FinishSubmit | frontend/blog/src/pages/CreateBlog.jsx:64-75 | Loading ends. A created blog leaves the page. Otherwise the error is shown. |

## Left out

- MongoDB itself is not modelled: queries, `populate` internals, cast errors, and the 500 answers a database failure gives in listing, reading and login. Collections are maps keyed by a counter-issued id.
- The unique indexes on email and username are not modelled as such. Requests are atomic, so a record that passes the `findOne` check never collides with a stored one. The 500 a concurrent duplicate signup would get from the index is not modelled. The collection invariant states the uniqueness the indexes enforce.
- bcrypt and JWT are parameters, a bundle of function values. Two properties are stated as preconditions where they are needed: a password matches its own hash, and a signed token verifies to its payload. Salts, the JWT secret and the clock are plain parameters.
- Express, `fetch`, `app.js`, `server.js` and `routes/index.js` (an unused draft) are not part of this model.
- Request bodies with absent `username`, `email` or `password` are not modelled: those fields are strings here.
- `toLowerCase` maps only the ASCII letters. `\s` is the JavaScript whitespace set, character by character. String lengths count Dafny characters, where JavaScript counts UTF-16 code units.
- `new URL(...)` is the browser's parser and is not modelled. Validation takes `urlParses`, whether it accepts the trimmed image.
- Listing order: blogs with equal `createdAt` are listed in id order. MongoDB leaves the order of ties unspecified.
- Login.jsx, Navbar.jsx, App.jsx and all markup and styles are not part of this model. The auth context (`frontend/blog/src/context/AuthContext`) is not part of this model either; the session user is the summary the login answer returns.
- The reading-progress bar, `navigator.share`/clipboard and date formatting are browser APIs over floating point and the DOM.
- Fetching on the list and detail pages is not modelled. The blog list stores whatever `getBlogs` returns. `BlogDetail.ErrorScreen` takes the fetch results as inputs.
- EditBlog.EditBlogPage.constructor: a fetched body that is neither a blog nor an error leaves the empty form. The get endpoint never gives one.
- Concurrency: async interleavings and races between overlapping requests. Every request and every page event is one atomic step.
- BlogForm.SaveOutcome, EditBlog.EditBlogPage.FinishSubmit, CreateBlog.CreateBlogPage.FinishSubmit: the pages as modelled use the corrected success test of the findings below. The literal `_id` test is `BlogForm.SaveOutcomeAsWritten`.

## Findings

| source | as written | input that shows it | evidently intended | confidence | as-written member | corrected member |
|---|---|---|---|---|---|---|
| frontend/blog/src/pages/CreateBlog.jsx:66-69 | success is `response._id` | a 201 answer `{message, blog}` from `backend/src/controllers/blog.controller.js:9` has no top-level `_id` | a created blog leaves the page | not executed | CreateBlog.CreateSuccessMissed | CreateBlog.SaveOutcomeMatchesCreate |
| frontend/blog/src/pages/EditBlog.jsx:128-132 | success is `response._id` | a 200 answer `{message, blog}` from `backend/src/controllers/blog.controller.js:55` has no top-level `_id` | a saved update leaves the page and clears the dirty flag | not executed | EditBlog.UpdateSuccessMissed | EditBlog.SaveOutcomeMatchesUpdate |
| frontend/blog/src/pages/BlogDetail.jsx:121 | `user._id === blog.author?._id` | a signed-in user whose summary (`backend/src/controllers/auth.controller.js:88-93`) has `id` views a blog they wrote: `user._id` is undefined, so the check fails. On a blog without an author, both sides are undefined and it holds | author controls exactly for the blog's author | not executed; the auth context is not part of this model | BlogDetail.IsAuthorAsWrittenIgnoresUser | BlogDetail.IsAuthorMatchesOwnership |
