/** `PostController`: the `/api/posts` handlers. Each passes its path id and
    body to the post service and wraps the result in a response with a fixed
    status; an exception from the service passes through unchanged. */
module PostController {
  import opened Wrappers
  import opened Exceptions
  import opened ResponseEntities
  import opened Store
  import opened MethodSecurity
  import Filter = JwtAuthenticationFilter
  import opened Dto = PostDto
  import Service = PostServiceImpl

  /** The handlers of the controller. */
  datatype Route = GetAllPosts | CreatePost | GetPostById | UpdatePost | DeletePost | GetPostsByCategory

  /** The `@PreAuthorize` table: the role a handler demands, if any. */
  function RequiredRole(route: Route): Option<Role> {
    match route
    case CreatePost => Some(ADMIN)
    case UpdatePost => Some(ADMIN)
    case _ => None
  }

  /** Only creating and updating a post are guarded, and only for ADMIN;
      deleting a post carries no role guard at this layer. */
  lemma GuardTable(route: Route)
    ensures RequiredRole(route).Some? <==> route == CreatePost || route == UpdatePost
    ensures RequiredRole(route).Some? ==> RequiredRole(route) == Some(ADMIN)
  {
  }

  /** Whoever is (or is not) authenticated, reading and deleting posts pass
      the guard; creating and updating pass it exactly for holders of
      "ROLE_ADMIN". */
  lemma {:induction false} GuardDecision(route: Route, authentication: Option<Filter.Authentication>)
    ensures route !in {CreatePost, UpdatePost} ==> Authorize(authentication, RequiredRole(route)) == Allowed
    ensures route in {CreatePost, UpdatePost} ==>
      (Authorize(authentication, RequiredRole(route)) == Allowed <==>
        authentication.Some? && "ROLE_ADMIN" in authentication.value.authorities)
  {
    GuardTable(route);
  }

  /** `createPost(postDto)`: 201 with the saved post. */
  method CreatePostHandler(store: BlogStore, postDto: PostDto) returns (r: Result<ResponseEntity<PostDto>, Exception>)
    requires store.Valid()
    modifies store
    ensures store.Valid()
    ensures r.Success? <==> postDto.categoryId.Some? && postDto.categoryId.value in old(store.categories)
    ensures r.Success? ==>
      && r.value.status == CREATED
      && r.value.body == postDto.(id := old(store.nextPostId))
      && store.posts == old(store.posts)[r.value.body.id :=
           Service.MapToEntity(postDto).(id := r.value.body.id, category := postDto.categoryId)]
      && store.postOrder == old(store.postOrder) + [r.value.body.id]
      && store.categories == old(store.categories) && store.categoryOrder == old(store.categoryOrder)
      && store.nextPostId == old(store.nextPostId) + 1 && store.nextCategoryId == old(store.nextCategoryId)
      && GetPostByIdHandler(store, r.value.body.id) == Success(ResponseEntity(r.value.body, OK))
    ensures r.Failure? ==> unchanged(store)
  {
    var saved := Service.CreatePost(store, postDto);
    r := Respond(saved, CREATED);
  }

  /** `getPostById(id)`: 200 with the post. */
  function GetPostByIdHandler(store: BlogStore, id: int): (r: Result<ResponseEntity<PostDto>, Exception>)
    reads store
    ensures r.Success? <==> id in store.posts
    ensures r.Success? ==> r.value == ResponseEntity(Service.MapToDto(store.posts[id]), OK)
    ensures r.Failure? ==> r.error == ResourceNotFound("Post", "id", id)
  {
    Respond(Service.GetPostById(store, id), OK)
  }

  /** `updatePost(postDto, id)`: 200 with the updated post. */
  method UpdatePostHandler(store: BlogStore, postDto: PostDto, id: int) returns (r: Result<ResponseEntity<PostDto>, Exception>)
    requires store.Valid()
    modifies store
    ensures store.Valid()
    ensures r.Success? <==>
      id in old(store.posts) && postDto.categoryId.Some? && postDto.categoryId.value in old(store.categories)
    ensures r.Success? ==>
      var updated := old(store.posts[id]).(
        title := postDto.title, description := postDto.description,
        content := postDto.content, category := postDto.categoryId);
      && r.value == ResponseEntity(Service.MapToDto(updated), OK)
      && r.value.body.id == id
      && store.posts == old(store.posts)[id := updated]
      && store.postOrder == old(store.postOrder) && store.nextPostId == old(store.nextPostId)
      && store.categories == old(store.categories) && store.categoryOrder == old(store.categoryOrder)
      && store.nextCategoryId == old(store.nextCategoryId)
      && GetPostByIdHandler(store, id) == Success(r.value)
    ensures r.Failure? ==> unchanged(store)
  {
    var updated := Service.UpdatePost(store, postDto, id);
    r := Respond(updated, OK);
  }

  /** The answer to the service's boolean: 200 with a confirmation for true,
      404 for false. */
  function DeletePostResponse(result: bool): (r: ResponseEntity<string>)
    ensures r.status == OK <==> result
    ensures !result ==> r.status == NOT_FOUND && r.body == "Post not found"
    ensures result ==> r.body == "Post deleted successfully"
  {
    if result then ResponseEntity("Post deleted successfully", OK)
    else ResponseEntity("Post not found", NOT_FOUND)
  }

  /** `deletePost(id)`: since the service answers true or throws, the 404
      branch is never taken; a missing post ends in the service's exception. */
  method DeletePostHandler(store: BlogStore, id: int) returns (r: Result<ResponseEntity<string>, Exception>)
    requires store.Valid()
    modifies store
    ensures store.Valid()
    ensures r.Success? <==> id in old(store.posts)
    ensures r.Success? ==>
      && r.value == ResponseEntity("Post deleted successfully", OK)
      && store.posts == old(store.posts) - {id}
      && store.postOrder == Remove(old(store.postOrder), id)
      && store.categories == old(store.categories) && store.categoryOrder == old(store.categoryOrder)
      && store.nextPostId == old(store.nextPostId) && store.nextCategoryId == old(store.nextCategoryId)
    ensures r.Failure? ==> r.error == ResourceNotFound("Post", "id", id) && unchanged(store)
  {
    var result := Service.DeletePost(store, id);
    if result.Failure? {
      return Failure(result.error);
    }
    r := Success(DeletePostResponse(result.value));
  }

  /** `getPostsByCategory(categoryId)`: 200 with the category's posts. */
  function GetPostsByCategoryHandler(store: BlogStore, categoryId: int): (r: Result<ResponseEntity<seq<PostDto>>, Exception>)
    requires store.Valid()
    reads store
    ensures r.Success? <==> categoryId in store.categories
    ensures r.Success? ==> r.value.status == OK && forall k | 0 <= k < |r.value.body| ::
      var p := r.value.body[k];
      p.id in store.posts && p == Service.MapToDto(store.posts[p.id]) && p.categoryId == Some(categoryId)
    ensures r.Success? ==> forall id | id in store.posts && store.posts[id].category == Some(categoryId) ::
      Service.MapToDto(store.posts[id]) in r.value.body
    ensures r.Success? ==> forall i, j | 0 <= i < j < |r.value.body| :: r.value.body[i].id < r.value.body[j].id
    ensures r.Failure? ==> r.error == ResourceNotFound("Category", "id", categoryId)
  {
    Respond(Service.GetPostsByCategory(store, categoryId), OK)
  }
}
