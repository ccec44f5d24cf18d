# Blog REST API: JWT authentication, posts and categories

A Dafny model of the core of a Spring Boot blog service. The model covers:

- **JWT provider.** It issues a signed JWT for a user name, with the issue time and an expiry. It validates a token, mapping each jjwt failure to a 400 `BlogAPIException`, and reads the user name back.
- **Authentication filter.** It takes a bearer token from the `Authorization` header. When the token validates, it loads the user and stores an authenticated principal in the security context. It then passes the request on.
- **Method security.** The `@PreAuthorize("hasRole('ADMIN')")` guards on the controllers, decided against that context.
- **Post service and controller.** Create, read, update and delete of posts, which belong to categories. The sort choice of the paged listing.
- **Category service and controller.** Add, read and list categories. The delete-message format.
- **The transfer objects `PostDto` and `CommentDto`.** Their Bean Validation constraints.

Modules, one per file:

- `Wrappers`: `Option` and `Result`. A Java `null` is `None`; a thrown exception is `Failure`.
- `JavaLang`: the parts of `java.lang` the core depends on:
  - `long` wrap-around;
  - division truncating toward zero;
  - `Character.isWhitespace`, `StringUtils.hasText` and `startsWith`;
  - UTF-16 length;
  - decimal `Long.toString` and its parse;
  - `equalsIgnoreCase`.
- `Jws`: a stand-in for jjwt's compact JWS. Claims `(sub, iat, exp)` and a signature are '.'-separated escaped fields, with no header. The signature is an injective encoding of the key and the payload fields as written. Parsing checks, in this order:
  - blank text (`IllegalArgumentException`);
  - the number of fields (`MalformedJwtException`);
  - an empty signature, standing for an unsecured token (`UnsupportedJwtException`);
  - the signature over the payload (`SignatureException`);
  - the date fields (`MalformedJwtException`);
  - expiry (`ExpiredJwtException`).
- `Exceptions`: the HTTP statuses and the exceptions the core throws.
- `JwtTokenProvider`: the provider, as a value holding its two settings.
- `JwtAuthenticationFilter`: the filter class. The security context and the rest of the chain are objects it updates. `Decide` is the function that specifies it.
- `MethodSecurity`: roles, the guard decision, and what the guard decides for requests that went through the filter.
- `CommentDto` and `PostDto`: the transfer objects and their constraints.
- `Store`: the `posts` and `categories` tables as a class. It keeps identity counters, and keeps each table's ids listed in increasing order.
- `PostServiceImpl` and `CategoryServiceImpl`: the services over the store.
- `ResponseEntities`, `PostController` and `CategoryController`: the handlers, their guard tables and their statuses.

Time is a parameter (`nowMillis`). It replaces `new Date()` in `generateToken` and jjwt's clock in the parsers.

Three behaviours of the code differ from what a reader might expect:

- **Exceptions escape the filter.** A reader might expect a failed validation to leave the context empty and let the request continue. In the code, `validateToken` throws: the exception leaves the filter, the chain is not invoked and the context is not set (`JwtAuthenticationFilter.JwtAuthenticationFilter.DoFilterInternal`, `BasicHeaderThrows`).
- **A wrong signature is not mapped.** jjwt's `SignatureException` is not among the caught exceptions. It leaves `validateToken` unmapped, not as a 400 `BlogAPIException` (`OtherSecretRefused`).
- **`validateToken` never returns false.** It returns true or throws.

## Model

| member | source | states |
|---|---|---|
| JavaLang.AddLong | src/main/java/com/springboot/blog/security/JwtTokenProvider.java:39 | the `long` sum `currentDate.getTime() + jwtExpirationDate` is the true sum when that fits in 64 bits, and otherwise agrees with it modulo 2^64 (wrap-around) |
| JavaLang.IsWhitespace | src/main/java/com/springboot/blog/security/JwtAuthenticationFilter.java:44 | `Character.isWhitespace`: the ASCII controls TAB to CR and FS to US, and the Unicode space, line and paragraph separators other than the non-breaking ones |
| JavaLang.HasText | src/main/java/com/springboot/blog/security/JwtAuthenticationFilter.java:77 | `StringUtils.hasText`: some character is not whitespace |
| JavaLang.JavaDiv | src/main/java/com/springboot/blog/security/JwtTokenProvider.java:45-46 | Java's integer division by a positive divisor: for a non-negative dividend the quotient times the divisor is at most the dividend and within one divisor of it; for a negative dividend it is at least the dividend and within one divisor (rounding toward zero, not down) |
| JavaLang.Utf16Length | src/main/java/com/springboot/blog/payload/PostDto.java:19 | the length `@Size` measures lies between the number of characters and twice that, and is zero only for the empty string |
| JavaLang.Utf16LengthOfBmp | src/main/java/com/springboot/blog/payload/PostDto.java:19 | for text in the Basic Multilingual Plane the UTF-16 length is the number of characters |
| JavaLang.TextInFront | src/main/java/com/springboot/blog/security/JwtAuthenticationFilter.java:77 | a string whose first character is not whitespace has text in the sense of `StringUtils.hasText` |
| JavaLang.WhitespaceHasNoText | src/main/java/com/springboot/blog/security/JwtAuthenticationFilter.java:44 | a string made only of whitespace has no text |
| JavaLang.DigitsRoundTrip | src/main/java/com/springboot/blog/controller/CategoryController.java:55 | the decimal digits of a natural number read back as that number |
| JavaLang.LongToString | src/main/java/com/springboot/blog/controller/CategoryController.java:55 | the decimal text string concatenation gives a number: a leading '-' exactly for negative numbers |
| JavaLang.LongToStringRoundTrip | src/main/java/com/springboot/blog/controller/CategoryController.java:55 | the decimal text Java's string concatenation gives an integer parses back as that integer, negative numbers included |
| JavaLang.EqualsIgnoreCase | src/main/java/com/springboot/blog/service/impl/PostServiceImpl.java:47 | `equalsIgnoreCase` against an ASCII capital word: same length, and each character equal to the capital, its small letter, or one of the non-ASCII letters Java folds to it |
| Jws.SplitAfterEscape | src/main/java/com/springboot/blog/security/JwtTokenProvider.java:43-48 | an escaped field in front of any text is restored, unescaped, in front of the first field that text splits into |
| Jws.SplitJoin | src/main/java/com/springboot/blog/security/JwtTokenProvider.java:43-48 | round trip: the fields of a compact token are recovered exactly from its text |
| Jws.SplitPlain | src/main/java/com/springboot/blog/security/JwtTokenProvider.java:81-83 | text with no '.' or escape is a single field, so it is not a token |
| Jws.Sign | src/main/java/com/springboot/blog/security/JwtTokenProvider.java:47 | the signature over the payload fields as written, under the key |
| Jws.SignInjective | src/main/java/com/springboot/blog/security/JwtTokenProvider.java:47 | two signatures are equal only for the same key and the same payload |
| Jws.MacInjective | src/main/java/com/springboot/blog/security/JwtTokenProvider.java:47 | the signature of a token determines both the key and the claims |
| Jws.Compact | src/main/java/com/springboot/blog/security/JwtTokenProvider.java:43-48 | a compact token has text, and splitting it recovers exactly the claim fields followed by their signature |
| Jws.Parse | src/main/java/com/springboot/blog/security/JwtTokenProvider.java:81-83 | a parse fails as blank exactly for text without text; a successful parse means four fields whose signature verifies under the key over the payload as written, the subject field as the subject, and the current time not after `exp` |
| Jws.ParseCompact | src/main/java/com/springboot/blog/security/JwtTokenProvider.java:81-83 | a token signed with the verifying key parses back to its claims until its `exp` instant, and is refused as expired after it |
| Jws.ParseWithOtherKey | src/main/java/com/springboot/blog/security/JwtTokenProvider.java:81-83 | a token signed with another key is refused with a signature failure |
| Jws.SignatureCheckedFirst | src/main/java/com/springboot/blog/security/JwtTokenProvider.java:81-83 | four fields with a non-empty signature that does not verify are refused for the signature, whatever the claim fields hold |
| JwtTokenProvider.JwtTokenProvider.ExpirationDate | src/main/java/com/springboot/blog/security/JwtTokenProvider.java:37-39 | expiry minus issue time is the configured lifetime when the `long` sum does not overflow |
| JwtTokenProvider.JwtTokenProvider.Key | src/main/java/com/springboot/blog/security/JwtTokenProvider.java:59-61 | the signing and verifying key, made from the configured secret |
| JwtTokenProvider.JwtTokenProvider.TokenClaims | src/main/java/com/springboot/blog/security/JwtTokenProvider.java:34-46 | the claims signed at issue: the user name, the issue second and the expiry second |
| JwtTokenProvider.JwtTokenProvider.GenerateToken | src/main/java/com/springboot/blog/security/JwtTokenProvider.java:32-52 | the issued token has text and parses back under the provider's key, at its expiry instant still, to the claims it was issued with |
| JwtTokenProvider.JwtTokenProvider.ValidateToken | src/main/java/com/springboot/blog/security/JwtTokenProvider.java:79-94 | never returns false; succeeds exactly when the token parses under the key; a blank token gives 400 "JWT claims string is null empty", a malformed one 400 "Invalid JWT token", an unsecured one 400 "Unsupported JWT token", an expired one 400 "Expired JWT token"; a bad signature escapes as the unmapped signature exception |
| JwtTokenProvider.JwtTokenProvider.GetUsernameFromToken | src/main/java/com/springboot/blog/security/JwtTokenProvider.java:63-70 | yields a name exactly when the token parses under the key (the same tokens `validateToken` accepts at that instant); the name is the parsed subject, the subject field as written; otherwise the parse failure, as the unmapped jjwt exception |
| JwtTokenProvider.NumericDateBounds | src/main/java/com/springboot/blog/security/JwtTokenProvider.java:45-46 | the second count stored in the token is the millisecond time truncated to whole seconds |
| JwtTokenProvider.GeneratedTokenClaims | src/main/java/com/springboot/blog/security/JwtTokenProvider.java:32-52 | the issued token carries the user name as subject, the issue time as `iat` and issue time plus lifetime as `exp`, and parses back to those claims until `exp` |
| JwtTokenProvider.UsernameRoundTrip | src/main/java/com/springboot/blog/security/JwtTokenProvider.java:32-70 | until its expiry, the token issued for a user validates and reads back as that user name |
| JwtTokenProvider.UsernameRoundTripAtIssue | src/main/java/com/springboot/blog/security/JwtTokenProvider.java:32-70 | with a lifetime of at least a second, a token reads back at the instant it was issued |
| JwtTokenProvider.ExpiredTokenRefused | src/main/java/com/springboot/blog/security/JwtTokenProvider.java:87-88 | after its expiry the token is refused with 400 "Expired JWT token" |
| JwtTokenProvider.SubSecondLifetimeExpiredAtIssue | src/main/java/com/springboot/blog/security/JwtTokenProvider.java:39-46 | with a 100 ms lifetime, a token issued at 1500 ms is already expired at 1500 ms, because `exp` is truncated to whole seconds |
| JwtTokenProvider.OtherSecretRefused | src/main/java/com/springboot/blog/security/JwtTokenProvider.java:79-94 | a token issued under another secret is refused, and the signature exception escapes unmapped |
| JwtTokenProvider.BlankTokenRefused | src/main/java/com/springboot/blog/security/JwtTokenProvider.java:91-92 | a blank token gives 400 "JWT claims string is null empty" |
| JwtTokenProvider.PlainTextRefused | src/main/java/com/springboot/blog/security/JwtTokenProvider.java:85-86 | text that is not '.'-separated gives 400 "Invalid JWT token" |
| JwtTokenProvider.UnsignedTokenRefused | src/main/java/com/springboot/blog/security/JwtTokenProvider.java:89-90 | a token with an empty signature gives 400 "Unsupported JWT token" |
| JwtTokenProvider.WrongFieldCountRefused | src/main/java/com/springboot/blog/security/JwtTokenProvider.java:85-86 | joined fields other than four give 400 "Invalid JWT token" |
| JwtTokenProvider.NonNumericDatesRefused | src/main/java/com/springboot/blog/security/JwtTokenProvider.java:85-86 | a token signed with the key whose dates are not numbers gives 400 "Invalid JWT token" |
| JwtAuthenticationFilter.GetTokenFromRequest | src/main/java/com/springboot/blog/security/JwtAuthenticationFilter.java:72-83 | a header with text that starts with "Bearer " yields exactly the rest after the prefix; any other header, or none, is returned as it is |
| JwtAuthenticationFilter.BearerHasText | src/main/java/com/springboot/blog/security/JwtAuthenticationFilter.java:77 | a header starting with "Bearer " always has text, so the prefix test alone decides |
| JwtAuthenticationFilter.BearerTokenExtracted | src/main/java/com/springboot/blog/security/JwtAuthenticationFilter.java:77-79 | "Bearer " followed by any token yields that token |
| JwtAuthenticationFilter.NonBearerHeadersUnchanged | src/main/java/com/springboot/blog/security/JwtAuthenticationFilter.java:82 | "Basic xyz", "bearer x", "Bearer" and a blank header are handed on unchanged |
| JwtAuthenticationFilter.UserDetailsService.LoadUserByUsername | src/main/java/com/springboot/blog/security/JwtAuthenticationFilter.java:49 | a known name yields its user; an unknown one throws `UsernameNotFoundException` |
| JwtAuthenticationFilter.Authenticated | src/main/java/com/springboot/blog/security/JwtAuthenticationFilter.java:52-56 | the stored authentication has the loaded user as principal, no credentials and the user's authorities |
| JwtAuthenticationFilter.Decide | src/main/java/com/springboot/blog/security/JwtAuthenticationFilter.java:37-63 | a run of the filter never both stores an authentication and throws |
| JwtAuthenticationFilter.JwtAuthenticationFilter.DoFilterInternal | src/main/java/com/springboot/blog/security/JwtAuthenticationFilter.java:37-63 | the exception thrown, the new context and the requests passed down the chain are those `Decide` gives; the context is only ever set, and the chain runs exactly when nothing is thrown |
| JwtAuthenticationFilter.FilterChain.DoFilter | src/main/java/com/springboot/blog/security/JwtAuthenticationFilter.java:62 | the request is passed to the rest of the chain once |
| JwtAuthenticationFilter.NoTextNoValidation | src/main/java/com/springboot/blog/security/JwtAuthenticationFilter.java:44 | without a token with text, nothing is validated, nothing is stored, nothing is thrown |
| JwtAuthenticationFilter.StoredIff | src/main/java/com/springboot/blog/security/JwtAuthenticationFilter.java:44-59 | the context is set exactly when the token has text, validates and names a known user, and it then holds that user with the user's authorities |
| JwtAuthenticationFilter.ValidationFailureEscapes | src/main/java/com/springboot/blog/security/JwtAuthenticationFilter.java:44 | an exception from `validateToken` leaves the filter, with nothing stored |
| JwtAuthenticationFilter.BasicHeaderThrows | src/main/java/com/springboot/blog/security/JwtAuthenticationFilter.java:41-44 | "Authorization: Basic xyz" makes the filter throw 400 "Invalid JWT token" |
| JwtAuthenticationFilter.IssuedTokenAuthenticates | src/main/java/com/springboot/blog/security/JwtAuthenticationFilter.java:41-59 | a bearer token the provider issued for a known user, used before expiry, stores that user in the context |
| JwtAuthenticationFilter.ForeignTokenThrows | src/main/java/com/springboot/blog/security/JwtAuthenticationFilter.java:41-46 | a bearer token signed under another secret makes the filter throw the signature exception |
| MethodSecurity.Role.Authority | src/main/java/com/springboot/blog/SpringbootBlogRestApiApplication.java:60-64 | each role's authority is the seeded "ROLE_" name |
| MethodSecurity.AuthoritiesDistinct | src/main/java/com/springboot/blog/SpringbootBlogRestApiApplication.java:60-64 | two roles share an authority only when they are the same role |
| MethodSecurity.Decision.Status | src/main/java/com/springboot/blog/controller/PostController.java:67 | an allowed request gets no rejection status; Unauthenticated is answered exactly with 401 (the entry point) and Forbidden exactly with 403 (the access-denied handler) |
| MethodSecurity.Authorize | src/main/java/com/springboot/blog/controller/PostController.java:67 | an unguarded handler admits everyone; a guarded one admits exactly holders of the role's authority, answers an empty context 401 and anyone else 403 |
| MethodSecurity.NoTokenUnauthenticated | src/main/java/com/springboot/blog/security/JwtAuthenticationFilter.java:44-62 | a request without an `Authorization` header reaches a guarded handler unauthenticated (401) |
| MethodSecurity.AdminTokenAllowed | src/main/java/com/springboot/blog/controller/PostController.java:67 | a live token of a user holding "ROLE_ADMIN" passes an ADMIN guard |
| MethodSecurity.UserTokenForbidden | src/main/java/com/springboot/blog/controller/PostController.java:67 | a live token of a user holding only "ROLE_USER" is refused 403 by an ADMIN guard |
| CommentDto.FieldRules | src/main/java/com/springboot/blog/payload/CommentDto.java:16-31 | name must be non-null and non-empty; email non-empty and of address format; body non-null with at least 10 UTF-16 units; `id` is free |
| CommentDto.Valid | src/main/java/com/springboot/blog/payload/CommentDto.java:19-31 | a comment is valid when its name, email and body constraints all hold |
| CommentDto.BlankBodyAccepted | src/main/java/com/springboot/blog/payload/CommentDto.java:29-30 | ten spaces are a valid body: the rule is not-empty, not not-blank |
| PostDto.FieldRules | src/main/java/com/springboot/blog/payload/PostDto.java:18-31 | title non-null with at least 2 UTF-16 units, description with at least 10, content non-empty |
| PostDto.Valid | src/main/java/com/springboot/blog/payload/PostDto.java:18-31 | a post is valid when its title, description and content constraints all hold |
| PostDto.UnconstrainedFields | src/main/java/com/springboot/blog/payload/PostDto.java:13-35 | `id`, `comments` and `categoryId` never change whether the object is valid |
| PostDto.BlankFieldsAccepted | src/main/java/com/springboot/blog/payload/PostDto.java:18-31 | blank text of the required length passes every constraint |
| PostDto.SupplementaryCharTitle | src/main/java/com/springboot/blog/payload/PostDto.java:19 | one character outside the Basic Multilingual Plane is already a long enough title, one letter "a" is not |
| Store.Remove | src/main/java/com/springboot/blog/service/impl/PostServiceImpl.java:99 | removing an id from an increasing list keeps every other id, drops that one and keeps the list increasing |
| Store.ListLength | src/main/java/com/springboot/blog/service/impl/CategoryServiceImpl.java:39-41 | an increasing list of exactly the table's ids has as many entries as the table has rows |
| Store.BlogStore.constructor | src/main/java/com/springboot/blog/service/impl/PostServiceImpl.java:24-25 | the repositories start empty and valid |
| Store.BlogStore.FindPostById | src/main/java/com/springboot/blog/service/impl/PostServiceImpl.java:71 | `findById` yields the stored post exactly when its id is in the table |
| Store.BlogStore.FindCategoryById | src/main/java/com/springboot/blog/service/impl/PostServiceImpl.java:31 | `findById` yields the stored category exactly when its id is in the table |
| Store.BlogStore.InsertPost | src/main/java/com/springboot/blog/service/impl/PostServiceImpl.java:37 | `save` of a new post stores it under a fresh id, appends the id to the listing and leaves categories alone |
| Store.BlogStore.UpdatePost | src/main/java/com/springboot/blog/service/impl/PostServiceImpl.java:90 | `save` of an existing post replaces that row only |
| Store.BlogStore.DeletePost | src/main/java/com/springboot/blog/service/impl/PostServiceImpl.java:99 | `delete` removes that row and its id from the listing only |
| Store.BlogStore.InsertCategory | src/main/java/com/springboot/blog/service/impl/CategoryServiceImpl.java:24 | `save` of a new category stores it under a fresh id and leaves posts alone |
| PostServiceImpl.MapRoundTrip | src/main/java/com/springboot/blog/service/impl/PostServiceImpl.java:114-140 | mapping a DTO to an entity, setting the category the service looked up, and mapping back gives the DTO again |
| PostServiceImpl.MapToDto | src/main/java/com/springboot/blog/service/impl/PostServiceImpl.java:114-126 | a field-by-field copy of the post, its category becoming the category id |
| PostServiceImpl.MapToEntity | src/main/java/com/springboot/blog/service/impl/PostServiceImpl.java:128-140 | a field-by-field copy of the transfer object, with no category set |
| PostServiceImpl.PostsOfCategory | src/main/java/com/springboot/blog/service/impl/PostServiceImpl.java:109 | a category's posts are exactly the stored posts pointing to it, in increasing id order |
| PostServiceImpl.MapAll | src/main/java/com/springboot/blog/service/impl/PostServiceImpl.java:111 | one DTO per post, in the same order |
| PostServiceImpl.CreatePost | src/main/java/com/springboot/blog/service/impl/PostServiceImpl.java:29-42 | a null category id throws; an unknown category throws `ResourceNotFoundException("Category", "id", …)` with the store unchanged; otherwise the post is stored under a fresh id and returned with it, and reads back by that id |
| PostServiceImpl.GetPostById | src/main/java/com/springboot/blog/service/impl/PostServiceImpl.java:69-75 | the stored post's DTO exactly when the id exists, otherwise `ResourceNotFoundException("Post", "id", id)` |
| PostServiceImpl.UpdatePost | src/main/java/com/springboot/blog/service/impl/PostServiceImpl.java:78-93 | the post is looked up before the category; on success title, description, content and category are overwritten and nothing else changes; every failure leaves the store unchanged |
| PostServiceImpl.DeletePost | src/main/java/com/springboot/blog/service/impl/PostServiceImpl.java:96-102 | never returns false: either the post is removed and true returned, or `ResourceNotFoundException("Post", "id", id)` with the store unchanged |
| PostServiceImpl.GetPostsByCategory | src/main/java/com/springboot/blog/service/impl/PostServiceImpl.java:105-112 | fails exactly for an unknown category; otherwise lists every post of the category and nothing else, in increasing id order |
| PostServiceImpl.SortFor | src/main/java/com/springboot/blog/service/impl/PostServiceImpl.java:47-48 | the sort `getAllPosts` asks for: by `sortBy`, ascending when `sortDir` equals "ASC" ignoring case, descending otherwise |
| PostServiceImpl.SortDirectionRule | src/main/java/com/springboot/blog/service/impl/PostServiceImpl.java:47-48 | the sort is ascending exactly when `sortDir` is three characters matching A, S, C ignoring case as Java does (U+017F counts as s), otherwise descending |
| PostServiceImpl.SortDirectionExamples | src/main/java/com/springboot/blog/service/impl/PostServiceImpl.java:47-48 | "asc" and "aSc" sort ascending; "desc", "ascending" and "" sort descending |
| CategoryServiceImpl.AddCategory | src/main/java/com/springboot/blog/service/impl/CategoryServiceImpl.java:20-28 | the category is stored once under a fresh id, returned with that id, and reads back by it; posts are untouched |
| CategoryServiceImpl.MapToDto | src/main/java/com/springboot/blog/service/impl/CategoryServiceImpl.java:26 | a field-by-field copy of the category |
| CategoryServiceImpl.MapToEntity | src/main/java/com/springboot/blog/service/impl/CategoryServiceImpl.java:22 | a field-by-field copy of the transfer object, a null id becoming 0 until the store assigns one |
| CategoryServiceImpl.MapRoundTrip | src/main/java/com/springboot/blog/service/impl/CategoryServiceImpl.java:22-26 | category to transfer object and back is the identity, and so is the other way for a transfer object with an id |
| CategoryServiceImpl.GetCategory | src/main/java/com/springboot/blog/service/impl/CategoryServiceImpl.java:31-35 | the category's DTO exactly when the id exists, otherwise `ResourceNotFoundException("Category", "Id", id)` |
| CategoryServiceImpl.GetCategories | src/main/java/com/springboot/blog/service/impl/CategoryServiceImpl.java:38-42 | one DTO per stored category, each matching its row, none missing, in increasing id order |
| ResponseEntities.Respond | src/main/java/com/springboot/blog/controller/PostController.java:83 | a handler answers the service's result with its fixed status, and lets the service's exception through unchanged |
| PostController.RequiredRole | src/main/java/com/springboot/blog/controller/PostController.java:67-97 | the `@PreAuthorize` table: ADMIN for `createPost` and `updatePost`, nothing for the other handlers |
| PostController.GuardTable | src/main/java/com/springboot/blog/controller/PostController.java:46-132 | only `createPost` and `updatePost` are guarded, both for ADMIN |
| PostController.GuardDecision | src/main/java/com/springboot/blog/controller/PostController.java:67-115 | reading and deleting posts pass the guard for anyone, anonymous included; creating and updating pass exactly for holders of "ROLE_ADMIN" |
| PostController.CreatePostHandler | src/main/java/com/springboot/blog/controller/PostController.java:69-71 | 201 with the saved post exactly when its category exists: the new row is stored under the next post id and appended to the listing, the post counter advances by one, categories, their listing and counter are unchanged, and the post then reads back with 200; failures change nothing |
| PostController.GetPostByIdHandler | src/main/java/com/springboot/blog/controller/PostController.java:82-84 | 200 with the stored post exactly when it exists, otherwise the not-found exception |
| PostController.UpdatePostHandler | src/main/java/com/springboot/blog/controller/PostController.java:99-101 | 200 with the updated post exactly when post and category exist: title, description, content and category overwritten, id kept, every other row, listing and counter unchanged, and the post then reads back as returned; failures change nothing |
| PostController.DeletePostResponse | src/main/java/com/springboot/blog/controller/PostController.java:118-119 | status 200 exactly for true, with "Post deleted successfully"; 404 "Post not found" for false |
| PostController.DeletePostHandler | src/main/java/com/springboot/blog/controller/PostController.java:115-120 | the 404 answer is unreachable: an existing post is removed with 200 "Post deleted successfully", its row and its id in the listing go and every other row, listing and counter stays; a missing one ends in the service's exception with the store unchanged |
| PostController.GetPostsByCategoryHandler | src/main/java/com/springboot/blog/controller/PostController.java:131-133 | 200 exactly when the category exists, with every stored post of the category and nothing else, in increasing id order |
| CategoryController.RequiredRole | src/main/java/com/springboot/blog/controller/CategoryController.java:26-52 | the `@PreAuthorize` table: ADMIN for adding, updating and deleting, nothing for reading and listing |
| CategoryController.GuardDecision | src/main/java/com/springboot/blog/controller/CategoryController.java:26-52 | adding, updating and deleting demand ADMIN (an empty context gets 401); reading and listing admit anyone |
| CategoryController.AddCategoryHandler | src/main/java/com/springboot/blog/controller/CategoryController.java:26-31 | 201 with the saved category: stored under the next category id and appended to the listing, the category counter advances by one, posts, their listing and counter are unchanged, and the category then reads back with 200 and adds one entry to the listing |
| CategoryController.GetCategoryHandler | src/main/java/com/springboot/blog/controller/CategoryController.java:33-37 | 200 with the category exactly when it exists, otherwise the not-found exception |
| CategoryController.GetCategoriesHandler | src/main/java/com/springboot/blog/controller/CategoryController.java:39-42 | 200 with one entry per stored category, each matching its row, none missing, in increasing id order |
| CategoryController.UpdateCategoryHandler | src/main/java/com/springboot/blog/controller/CategoryController.java:44-49 | 200 with whatever the service returns; its exception passes through |
| CategoryController.DeleteMessage | src/main/java/com/springboot/blog/controller/CategoryController.java:55 | the body starts "Deleted " and ends " rows" |
| CategoryController.DeleteMessageReadBack | src/main/java/com/springboot/blog/controller/CategoryController.java:55 | the deleted-row count reads back out of the message |
| CategoryController.DeleteMessageInjective | src/main/java/com/springboot/blog/controller/CategoryController.java:55 | two counts give the same message only when they are equal |
| CategoryController.DeleteCategoryHandler | src/main/java/com/springboot/blog/controller/CategoryController.java:51-56 | 200 with the message for the service's count; its exception passes through |

## Left out

- Real signing and the token format. HMAC-SHA, Base64URL encoding of header and payload, and JSON claims are replaced by the `Jws` stand-in. It keeps only what the core relies on: a round trip under the same key, refusal under another key, and jjwt's failure order.
- Jws.Parse: the stand-in token has no JOSE header. An empty signature field stands for an unsecured (`alg` "none") token, which jjwt refuses as unsupported. A token whose header names an HMAC algorithm but whose signature is empty is a `MalformedJwtException` in jjwt; the model cannot express that case.
- Jws.Parse: jjwt decodes the header and the Base64URL payload before it checks the signature, and a failure there is malformed. The stand-in has no encoding, so only the number of fields is checked before the signature. The claim values are read after it, as in jjwt.
- JwtTokenProvider.JwtTokenProvider.Key: Base64 decoding of `app.jwtSecret` and jjwt's `WeakKeyException` for short keys are not modelled. The key is the secret itself. So `OtherSecretRefused` and `ForeignTokenThrows` take "another secret" to mean another key: two Base64 secrets that differ only in unused padding bits ("AAE=" and "AAF=") decode to the same key in the code, and a token under one is accepted under the other.
- CategoryController.DeleteMessage: the count is taken to be a `long` (the service interface's return type is not part of this model). Were it a boxed `Long`, a `null` count would print as "null", which the model does not cover.
- jjwt's handling of an empty or missing subject is not modelled. The subject is any string.
- JwtAuthenticationFilter.JwtAuthenticationFilter.DoFilterInternal: `validateToken` and `getUsernameFromToken` read jjwt's clock separately. The model uses one reading for both, so the second parse cannot newly find the token expired.
- The response object, `ServletException`/`IOException` and the servlet container are not modelled. The chain is a recorder of forwarded requests.
- `WebAuthenticationDetailsSource` and the thread-local `SecurityContextHolder` are not modelled. The details are the request's address and session id, and the context is an explicit object.
- Spring's resolution of `hasRole` to "ROLE_"-prefixed authorities is taken as a fact, not modelled.
- URL-level security rules (the security configuration) and `JwtAuthenticationEntryPoint` are not part of this model. The guard's 401/403 is stated as a status.
- The mapping of an exception to an HTTP error response (global exception handler, `ErrorDetails`) is not part of this model. Handlers return the exception itself.
- `getAllPosts`: pagination, `PageRequest`, the `PostResponse` page metadata and the page content are not modelled; only the sort choice is (`PostServiceImpl.SortFor`). Paging belongs to the repository.
- Bean Validation runs before the handlers and is modelled only as predicates on the transfer objects. The `@Email` address format is a parameter, because the validator's pattern is not part of this source.
- `CategoryServiceImpl.updateCategory` and `deleteCategoryById` have no implementation in this source. The controller handlers take their outcome as an input.
- `CategoryDto` is not part of the shown source. Its fields (id, name, description) mirror the `Category` entity.
- The entity classes and repositories are not part of the shown source. Posts and categories are values in the store's tables, not shared mutable objects. `findAll` and `Category.getPosts()` are taken to list rows in increasing id order.
- Store.BlogStore.InsertPost: Spring Data's `save` merges an entity whose id is already set. The model assigns a fresh id to every new row, so a client-sent `id` in `createPost`/`addCategory` never overwrites an existing row.
- `findById(null)` throws `IllegalArgumentException`; it is modelled as the `NullId` exception.
- Comments, `CommentController` and the comment service are not part of this model. `PostDto.comments` is carried but never filled by the post service.
- Application bootstrap, OpenAPI metadata and `ModelMapper` configuration are not modelled. Mapping is a field-by-field copy.
