# DevConnector back end: a Dafny model of its route logic

DevConnector is an Express and MongoDB social network for developers. This
project models the part of its back end that decides what each request does
to the data. That part has four pieces:

- the authentication middleware that guards the private routes;
- registration and login against the users collection;
- the post routes: create, delete, like, unlike, add and delete comments;
- the profile routes: experience and education entries, the `skills` parse,
  the profile upsert and the account-deletion cascade.

The database becomes state:

- `Models.Database` holds the three collections as sequences; its `Valid()`
  says emails, user ids, profile owners and post ids are unique.
- A handler that loads one document and changes its arrays in place before
  `save()` gets that document (`Models.Post`, `Models.Profile`) as a
  nullable object and updates its fields. Null is the "not found" result
  whose field access throws and lands in the handler's `catch`.

Each handler's reply is an `Http.Response`:

- `Ok` for `res.json(value)`;
- `Error(status, body)` with the exact status and message the code sends;
- `Unanswered` for an exception thrown outside the handler's `try`.

The JavaScript built-ins the handlers rely on live in module `Js`. Strings
are sequences of Unicode code points, and the built-ins behave as ECMAScript
says on them:

- Array `map`, `indexOf`, `filter`, `find`, `splice` and `join`;
- String `indexOf`, `trim` (ECMAScript's white-space set) and `split`;
- the conversion of an array argument to a number, through the decimal
  strings of its elements joined by commas.

bcrypt, gravatar and the email validator are uninterpreted functions in
`Models.Libraries`. `jwt.sign` yields the `Models.Token` value it signs, and
`jwt.verify` is a function parameter of the gate. The id the store gives a
new document and the generated salt are parameters.

The token lifetime is 36000 seconds, as both token-issuing routes pass it.
The gate's 401 message keeps the code's spelling, "Token is not vallid".

## Model

| member | source | states |
|---|---|---|
| Js.StringIndexOf | routes/api/posts.js:142-144 | -1 exactly when `t` occurs nowhere in `s`; otherwise the first position where `t` occurs |
| Js.IndexOfSelf | routes/api/posts.js:143 | a user id searched inside itself is found at 0 |
| Js.ArrayIndexOf | routes/api/profile.js:274-276 | -1 exactly when `x` is absent; otherwise an index holding `x` with no earlier occurrence |
| Js.Filter | routes/api/posts.js:113 | keeps exactly the elements that pass, never more than the input, and everything when all pass |
| Js.FilterSubMultiset | routes/api/posts.js:113 | the filter holds no element more often than the input does |
| Js.FilterAppend | routes/api/posts.js:113 | filtering `a + b` is filtering `a` and then `b`: the kept elements stay in their input order |
| Js.FilterSingleton | routes/api/posts.js:113 | a one-element array keeps its element exactly when it passes |
| Js.Find | routes/api/posts.js:194-196 | `undefined` exactly when nothing matches; otherwise the first matching element |
| Js.DigitsRoundTrip | routes/api/posts.js:146 | reading the decimal digits of a natural number back gives that number |
| Js.NumberRoundTrip | routes/api/posts.js:146 | ToNumber of the decimal string of an integer is that integer |
| Js.CommaIsNaN | routes/api/posts.js:146 | ToNumber of a string holding a comma is NaN |
| Js.ArrayToNumber | routes/api/posts.js:146 | `Number` of an array, taken as ToNumber of the comma join of its elements' decimal strings: `[]` is 0, `[x]` is `x`, two or more elements are NaN |
| Js.SpliceStart | routes/api/posts.js:146 | the splice start is clamped into the array |
| Js.SpliceOne | routes/api/posts.js:146 | a start inside the array removes exactly the entry there and keeps the others in order; a start at the end leaves the array unchanged |
| Js.SpliceOneAtIndex | routes/api/profile.js:277 | `splice(i, 1)` with an in-range `i` removes exactly `a[i]` |
| Js.SpliceOneAtMinusOne | routes/api/profile.js:277 | `splice(-1, 1)` removes the last element and leaves `[]` alone |
| Js.SpliceOneAtNaN | routes/api/posts.js:146 | `splice(NaN, 1)` removes the first element, since ToIntegerOrInfinity reads NaN as 0 |
| Js.ArrayStartOfManyIsZero | routes/api/posts.js:142-146 | an array of two or more numbers converts to NaN, so the splice starts at 0 |
| Js.TrimStart | routes/api/profile.js:123 | a suffix that starts with a non-space, with only white space cut off |
| Js.TrimEnd | routes/api/profile.js:123 | a prefix that ends with a non-space, with only white space cut off |
| Js.Trim | routes/api/profile.js:123 | no longer than the input; starts and ends with a non-space |
| Js.TrimIsTrimEndOfTrimStart | routes/api/profile.js:123 | `trim` is `trimEnd` applied to `trimStart`: removing both ends at once is removing the leading and then the trailing white space |
| Js.TrimKeepsContent | routes/api/profile.js:123 | `trim` gives the substring that starts after the leading white space; everything before and after it is white space |
| Js.TrimKeepsNonSpace | routes/api/profile.js:123 | each non-space character of the input is in the trim, at its position less the leading white space |
| Js.TrimAddsNothing | routes/api/profile.js:123 | a character absent from the input is absent from its trim |
| Js.Split | routes/api/profile.js:123 | one piece more than there are separators; no piece holds one; the pieces join back to the input |
| Js.SplitJoin | routes/api/profile.js:123 | splitting the join of separator-free pieces gives those pieces back |
| Js.Join | routes/api/profile.js:123 | the inverse of `split`: one piece joins to itself, and more pieces start with the first piece and the separator |
| Models.AppendKeepsDistinct | routes/api/users.js:67 | appending a document with a new key keeps keys unique |
| Models.FilterKeepsDistinct | routes/api/profile.js:203 | deleting documents keeps keys unique |
| Models.FirstMatch | routes/api/profile.js:206-209 | -1 exactly when nothing matches; otherwise the index of the first match |
| Models.RemoveFirst | routes/api/profile.js:206-209 | `findOneAndRemove` leaves the collection as it is when nothing matches; otherwise it drops the first match and keeps all other documents in order |
| Models.RemoveFirstKeepsDistinct | routes/api/profile.js:206-209 | `findOneAndRemove` keeps keys unique |
| Models.RemoveFirstOfUnique | routes/api/profile.js:206-209 | when at most one document matches, none is left afterwards and all others stay |
| Models.FindUserByEmail | routes/api/users.js:38 | `findOne({ email })` is null exactly when no user has the email; otherwise a user with it |
| Models.FindUserById | routes/api/posts.js:23 | `findById` is null exactly when no user has the id; otherwise that user |
| Models.FindProfileOf | routes/api/profile.js:256 | `findOne({ user })` is null exactly when the user has no profile; otherwise theirs |
| Models.FindPostById | routes/api/posts.js:80 | `findById` is null exactly when no post has the id; otherwise that post |
| Models.FindUserByEmailUnique | routes/api/auth.js:46 | with unique emails, looking up a user's email finds that user |
| Models.Database.constructor | routes/api/users.js:38-67 | the base case of `Valid()`: a store with no documents has unique emails, ids, owners and post ids, which registration then keeps |
| Posts.LikesBy | routes/api/posts.js:113 | the filter of the like guard keeps exactly the likes of the given user |
| Posts.HasLiked | routes/api/posts.js:112-114 | the like guard holds exactly when some like belongs to the caller |
| Posts.LikeKeepsSet | routes/api/posts.js:112-118 | prepending the like of a user without one keeps `likes` free of duplicate users |
| Posts.FindComment | routes/api/posts.js:194-196 | the comment found is one with the asked id, and none is found only when no comment has it |
| Posts.RemoveIndex | routes/api/posts.js:142-144 | the `removeIndex` array of `map` has one entry per like or comment |
| Posts.RemoveIndexEntries | routes/api/posts.js:207-209 | the entry `map` computes for each user is -1 exactly when the caller's id does not occur in that user's id, and 0 for the caller's own entries |
| Posts.SpliceAtRemoveIndex | routes/api/posts.js:142-146 | splicing at the array of `indexOf` results removes the first entry, whoever owns it |
| Posts.UnlikeRemovesFirstLike | routes/api/posts.js:142-146 | once the guard passes, unlike leaves exactly `likes[1..]` |
| Posts.DeleteCommentRemovesFirstComment | routes/api/posts.js:207-211 | once the checks pass, comment delete leaves exactly `comments[1..]` |
| Posts.UnlikeCanRemoveAnotherUsersLike | routes/api/posts.js:142-146 | a post liked by "ann" and then "bob" has `likes` equal to `[bob, ann]`; when "ann" unlikes it, bob's like goes and ann's stays |
| Posts.DeleteCommentCanRemoveAnotherUsersComment | routes/api/posts.js:207-211 | deleting ann's comment `c2` removes bob's comment `c1` instead |
| Posts.RemoveOnlyLikeOf | routes/api/posts.js:142-146 | removing the caller's one like from a set of likes leaves no like of theirs and keeps every other like |
| Posts.UnlikeOwnRemovesOnlyCallersLike | routes/api/posts.js:142-146 | the intended unlike removes the caller's like and keeps every other like and the set property |
| Posts.IdIndexIsFoundComment | routes/api/posts.js:194-196 | the first index of the asked id among the comment ids is where `find` found the comment |
| Posts.DeleteCommentByIdRemovesTarget | routes/api/posts.js:194-211 | the intended delete removes exactly the comment the existence and ownership checks examined |
| Posts.CreatePost | routes/api/posts.js:13-31 | 400 without text; 500 when the author is not found; otherwise one new post with the author's name and avatar; ids stay unique |
| Posts.RemovePost | routes/api/posts.js:91 | removing a post drops exactly the documents with that id |
| Posts.DeletePost | routes/api/posts.js:80-92 | 404 when missing, else 401 when not the caller's, else only that post is removed; no change on the error paths |
| Posts.LikePost | routes/api/posts.js:109-120 | 400 "Post already liked." with no change; otherwise the caller's like is prepended; likes stay a set; comments untouched |
| Posts.UnlikePost | routes/api/posts.js:132-148 | 400 "Post has not yet been liked." with no change; otherwise, as written, `likes[0]` is removed |
| Posts.AddComment | routes/api/posts.js:163-179 | 400 without text; 500 without user or post; otherwise the comment with the author's snapshot is prepended |
| Posts.DeleteComment | routes/api/posts.js:192-213 | 404, then 401, with comments unchanged; otherwise, as written, `comments[0]` is removed |
| Profiles.ExperienceErrors | routes/api/profile.js:226-236 | no error exactly when title, company and from are non-empty; the title message comes first |
| Profiles.EducationErrors | routes/api/profile.js:295-305 | no error exactly when school, degree, fieldofstudy and from are non-empty |
| Profiles.RemoveByIndexOf | routes/api/profile.js:274-277 | splicing at `indexOf(id)` removes exactly one entry from a non-empty list, whether the id is there or not |
| Profiles.RemoveByIndexOfEffect | routes/api/profile.js:274-277 | a present id removes its first entry and keeps the rest in order; an absent id removes the last entry; `[]` stays `[]` |
| Profiles.DeleteAbsentExperienceDropsLast | routes/api/profile.js:274-277 | deleting a missing id from `[b, a]` leaves `[b]` |
| Profiles.RemoveIfPresentEffect | routes/api/profile.js:274-277 | the intended removal leaves the list unchanged for an absent id and removes the first match otherwise |
| Profiles.AddExperience | routes/api/profile.js:232-262 | 400 with no change on failed checks; 500 without a profile; otherwise the new entry is prepended and the rest of the profile is unchanged |
| Profiles.DeleteExperience | routes/api/profile.js:270-282 | removes the entry at `indexOf(id)`: the first match, or the last entry when the id is absent; the rest of the profile is unchanged |
| Profiles.AddEducation | routes/api/profile.js:302-332 | the same as adding an experience, for education |
| Profiles.DeleteEducation | routes/api/profile.js:340-352 | the same -1 behaviour as deleting an experience, for education |
| Profiles.Skill | routes/api/profile.js:123 | an entry is a space and then a trimmed piece without commas |
| Profiles.ParseSkills | routes/api/profile.js:121-123 | an array is kept; a string gives commas + 1 entries, each a space then a trimmed comma-free piece |
| Profiles.ParseSkillsPieces | routes/api/profile.js:123 | each entry is `' ' + trim(piece)` for the matching piece, and the pieces join back to the input |
| Profiles.ParseSkillsOfJoin | routes/api/profile.js:121-123 | comma-joined, trimmed, comma-free skills parse back to themselves, each with a leading space |
| Profiles.ProfileErrors | routes/api/profile.js:41-48 | no error exactly when the status is non-empty and `skills` is given (`SkillsGiven`: a non-empty string, or an array with no empty item) |
| Profiles.UpsertProfile | routes/api/profile.js:46-144 | 400 on failed checks; no reply when `normalize` is reached (`ReachesStore` fails: a website or social link other than "", or a missing link); otherwise the caller's one profile gets the `$set` fields of `ProfileFields` (the request's company, location, bio, status and githubusername, the parsed skills, website "" and empty social links) or a new profile with them is created; at most one profile per user; other profiles unchanged |
| Profiles.PostsNotBy | routes/api/profile.js:203 | `deleteMany({ user })` keeps exactly the posts by other users |
| Profiles.WithoutProfileOf | routes/api/profile.js:206 | `Profile.findOneAndRemove({ user })` keeps only profiles that were there |
| Profiles.WithoutProfileOfRemovesIt | routes/api/profile.js:206 | with one profile per user, the user's profile is gone, every other profile stays, and owners stay unique |
| Profiles.WithoutUser | routes/api/profile.js:209 | `User.findOneAndRemove({ _id })` keeps only users that were there |
| Profiles.WithoutUserRemovesIt | routes/api/profile.js:209 | with unique ids, the user with the id is gone, every other user stays, and ids and emails stay unique |
| Profiles.DeleteAccount | routes/api/profile.js:197-211 | afterwards no post, profile or user of the caller remains, everything else is kept, and the invariant holds |
| AuthGate.GateEffects | middleware/auth.js:6-24 | exactly one of next or a 401 happens; without a token, no verify and no next; a verified token sets the claim and calls next once; a failed one answers 401 |
| AuthGate.Authenticate | middleware/auth.js:4-25 | the middleware performs those effects and writes `req.user` only for a verified token |
| Users.RegistrationErrors | routes/api/users.js:16-31 | no error exactly when the name is non-empty, the email valid and the password at least 6 long |
| Users.Register | routes/api/users.js:26-85 | 400 with no change on failed checks or a taken email; otherwise exactly one user is appended, `NewUser` with the email's gravatar and `hash(password, salt)` as password, and its token issued, payload `{ user: { id } }` with lifetime 36000; emails stay unique |
| Users.RegisteredIsFound | routes/api/users.js:38-67 | after registration the new user is found by its email and every earlier user by theirs |
| AuthRoutes.LoginErrors | routes/api/auth.js:29-39 | no error exactly when the email is valid and a password is present |
| AuthRoutes.Login | routes/api/auth.js:34-77 | a token exactly when the request is valid, the email is known and bcrypt accepts the password; the token carries that user's id; an unknown email gets `BadCredentials`, the 400 "Invalid Credentials" reply |
| AuthRoutes.LoginHidesRegisteredEmails | routes/api/auth.js:46-60 | an unknown email and a wrong password get the identical 400 "Invalid Credentials" reply |
| AuthRoutes.LoginAfterRegister | routes/api/auth.js:46-77 | a freshly registered user logs in with the same credentials and gets a token for their id |
| AuthRoutes.CurrentUser | routes/api/auth.js:13-21 | `select('-password')` of the caller's record: its id, name, email and avatar, or null when no user has the id |
| AuthRoutes.CurrentUserAfterRegister | routes/api/auth.js:15 | a freshly registered user reads back their own public record |

## Left out

- The outbound GitHub request (routes/api/profile.js:360-382). It is a network call that depends on configuration secrets.
- The read-only listing routes: the posts list and single post, the profile list, one user's profile, and the caller's own profile. They run store queries with `populate` and `sort` and change nothing.
- Mongoose mechanics are the store's job: `populate`, `ObjectId` cast errors with their 404/400 replies, the date sort, and the store's own failures with their 500 replies.
- The internals of bcrypt, jsonwebtoken and gravatar. They are opaque functions, and `sign`'s callback error is not modelled.
- Posts.CreatePost and Posts.AddComment: a failed text check here replies 400 and returns. The code sends the 400 and carries on without returning, which adds a second reply. That is a matter of reply order, not state, on the assumption that the Post schema requires `text`, so that the `save()` after the 400 fails. The Post schema is not part of this model.
- Strings are sequences of Unicode code points, not of UTF-16 code units. After a character outside the Basic Multilingual Plane, positions and lengths differ from JavaScript's, and a lone surrogate cannot be represented. The ids the handlers compare are hexadecimal, so no modelled outcome depends on this.
- Js.StringToNumber reads only the empty string and an optionally signed run of decimal digits. Fractions, exponents, surrounding white space, radix prefixes and `Infinity` read as NaN here, while JavaScript reads them as numbers. Js.NumberToString writes every integer in decimal, while JavaScript switches to exponent notation from 10^21. Neither case arises for the string positions the handlers convert.
- Profiles.ProfileFields, Profiles.UpsertProfile, Profiles.AddExperience and Profiles.AddEducation: an omitted optional text field (company, location, bio or githubusername of a profile; location of an experience; to or description of an experience or an education) is taken as "". The code passes `undefined` instead, and the store then keeps the old value or stores null, never "". In the same way `current` of an entry is a `bool`, so an omitted `current`, which the code passes on as `undefined`, appears in the model as one of the two values; what the store then keeps depends on the Profile schema, which is not part of this model.
- Sending the reply and then running more code that replies again (the post delete, and the caller's own profile) is not modelled.
- Profiles.UpsertProfile: `normalize` is never imported by the module. Any website other than "" and any social link other than "" throws before the `try`. The model answers nothing in that case and does not model what `normalize` would produce.
- Profiles.SkillsGiven: an array `skills` is taken to pass `not().isEmpty()` exactly when every item is non-empty, so `[]` passes, since the validator runs once per item. This is an assumption about the validator library, which is not part of this model.
- Users.RegistrationErrors: the password length counts every character. The validator library, which is not part of this model, may leave the variation selectors U+FE0E and U+FE0F out of its count.
- The entries of a validation reply carry only their messages, not the `param`, `value` and `location` fields.
- Concurrent requests on one document. The handlers' read-modify-write races are not modelled; every request runs alone.
- The React client and `server.js`, which are rendering, routing and process wiring.

## Findings

| source | as written | input that shows it | evidently intended | confidence | as-written member | corrected member |
|---|---|---|---|---|---|---|
| routes/api/posts.js:142-146 | the splice start is the array of `indexOf` results, which converts to 0 or NaN, so `likes[0]` is removed | a post liked by "ann" and then "bob", so `likes` is `[bob, ann]`; "ann" unlikes and bob's like goes | remove the caller's own like | not executed | Posts.UnlikeCanRemoveAnotherUsersLike | Posts.UnlikeOwnRemovesOnlyCallersLike |
| routes/api/posts.js:207-211 | the same array start, so `comments[0]` is removed | comments `c1` by "bob", `c2` by "ann"; "ann" deletes `c2` and `c1` goes | remove the comment whose id was checked | not executed | Posts.DeleteCommentCanRemoveAnotherUsersComment | Posts.DeleteCommentByIdRemovesTarget |
| routes/api/profile.js:274-277 | an absent id gives `indexOf` -1, and `splice(-1, 1)` removes the last entry | experience `[b, a]`, delete id "missing", and `a` goes | leave the list unchanged when the id is absent | not executed | Profiles.DeleteAbsentExperienceDropsLast | Profiles.RemoveIfPresentEffect |

The handlers themselves keep the code's behaviour; the corrected removals
stand beside them with their intended properties proved.
