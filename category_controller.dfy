/** `CategoryController`: the `/api/v1/categories` handlers. */
module CategoryController {
  import opened Wrappers
  import opened JavaLang
  import opened Exceptions
  import opened ResponseEntities
  import opened Store
  import opened MethodSecurity
  import Filter = JwtAuthenticationFilter
  import opened CategoryServiceImpl

  /** The handlers of the controller. */
  datatype Route = AddCategory | GetCategory | GetCategories | UpdateCategory | DeleteCategory

  /** The `@PreAuthorize` table: the role a handler demands, if any. */
  function RequiredRole(route: Route): Option<Role> {
    match route
    case AddCategory => Some(ADMIN)
    case UpdateCategory => Some(ADMIN)
    case DeleteCategory => Some(ADMIN)
    case _ => None
  }

  /** Every change to the categories demands ADMIN; reading them demands
      nothing. */
  lemma {:induction false} GuardDecision(route: Route, authentication: Option<Filter.Authentication>)
    ensures route in {GetCategory, GetCategories} ==> Authorize(authentication, RequiredRole(route)) == Allowed
    ensures route !in {GetCategory, GetCategories} ==>
      && (Authorize(authentication, RequiredRole(route)) == Allowed <==>
           authentication.Some? && "ROLE_ADMIN" in authentication.value.authorities)
      && (authentication.None? ==> Authorize(authentication, RequiredRole(route)) == Unauthenticated)
  {
    assert route !in {GetCategory, GetCategories} ==> RequiredRole(route) == Some(ADMIN);
  }

  /** `addCategory(categoryDto)`: 201 with the saved category. */
  method AddCategoryHandler(store: BlogStore, categoryDto: CategoryDto) returns (r: ResponseEntity<CategoryDto>)
    requires store.Valid()
    modifies store
    ensures store.Valid()
    ensures r.status == CREATED
    ensures r.body == categoryDto.(id := Some(old(store.nextCategoryId)))
    ensures store.categories == old(store.categories)[r.body.id.value :=
      Category(r.body.id.value, categoryDto.name, categoryDto.description)]
    ensures store.categoryOrder == old(store.categoryOrder) + [r.body.id.value]
    ensures store.posts == old(store.posts) && store.postOrder == old(store.postOrder)
    ensures store.nextCategoryId == old(store.nextCategoryId) + 1 && store.nextPostId == old(store.nextPostId)
    ensures GetCategoryHandler(store, r.body.id.value) == Success(ResponseEntity(r.body, OK))
    ensures |GetCategoriesHandler(store).body| == |old(store.categories)| + 1
  {
    var savedCategory := CategoryServiceImpl.AddCategory(store, categoryDto);
    r := ResponseEntity(savedCategory, CREATED);
  }

  /** `getCategory(categoryId)`: 200 with the category. */
  function GetCategoryHandler(store: BlogStore, categoryId: int): (r: Result<ResponseEntity<CategoryDto>, Exception>)
    requires store.Valid()
    reads store
    ensures r.Success? <==> categoryId in store.categories
    ensures r.Success? ==> r.value.status == OK && r.value.body == MapToDto(store.categories[categoryId])
    ensures r.Failure? ==> r.error == ResourceNotFound("Category", "Id", categoryId)
  {
    Respond(CategoryServiceImpl.GetCategory(store, categoryId), OK)
  }

  /** `getCategories()`: 200 with every category. */
  function GetCategoriesHandler(store: BlogStore): (r: ResponseEntity<seq<CategoryDto>>)
    requires store.Valid()
    reads store
    ensures r.status == OK && |r.body| == |store.categories|
    ensures forall k | 0 <= k < |r.body| ::
      r.body[k].id.Some? && r.body[k].id.value in store.categories
      && r.body[k] == MapToDto(store.categories[r.body[k].id.value])
    ensures forall id | id in store.categories :: MapToDto(store.categories[id]) in r.body
    ensures forall i, j | 0 <= i < j < |r.body| :: r.body[i].id.value < r.body[j].id.value
  {
    ResponseEntity(CategoryServiceImpl.GetCategories(store), OK)
  }

  /** `updateCategory(categoryId, categoryDto)`: 200 with what the service
      returns; the service's update is not part of this model, so its
      outcome is the input here. */
  function UpdateCategoryHandler(updated: Result<CategoryDto, Exception>): (r: Result<ResponseEntity<CategoryDto>, Exception>)
    ensures r.Success? <==> updated.Success?
    ensures r.Success? ==> r.value == ResponseEntity(updated.value, OK)
    ensures r.Failure? ==> r.error == updated.error
  {
    Respond(updated, OK)
  }

  /** The body of the delete answer for `rowsDeleted` rows. */
  function DeleteMessage(rowsDeleted: Long): (m: string)
    ensures |m| > 13 && m[..8] == "Deleted " && m[|m| - 5..] == " rows"
  {
    "Deleted " + LongToString(rowsDeleted) + " rows"
  }

  /** The count can be read back out of the message, so two different counts
      never give the same message. */
  lemma {:induction false} DeleteMessageReadBack(rowsDeleted: Long)
    ensures var m := DeleteMessage(rowsDeleted); ParseLong(m[8..|m| - 5]) == Some(rowsDeleted)
  {
    var m := DeleteMessage(rowsDeleted);
    assert m[8..|m| - 5] == LongToString(rowsDeleted);
    LongToStringRoundTrip(rowsDeleted);
  }

  lemma {:induction false} DeleteMessageInjective(n1: Long, n2: Long)
    ensures DeleteMessage(n1) == DeleteMessage(n2) <==> n1 == n2
  {
    if DeleteMessage(n1) == DeleteMessage(n2) {
      DeleteMessageReadBack(n1);
      DeleteMessageReadBack(n2);
    }
  }

  /** `deleteCategory(categoryId)`: 200 with "Deleted n rows", where n is the
      count the service returns; the service's delete is not part of this
      model, so its outcome is the input here. */
  function DeleteCategoryHandler(rowsDeleted: Result<Long, Exception>): (r: Result<ResponseEntity<string>, Exception>)
    ensures r.Success? <==> rowsDeleted.Success?
    ensures r.Success? ==> r.value == ResponseEntity(DeleteMessage(rowsDeleted.value), OK)
    ensures r.Failure? ==> r.error == rowsDeleted.error
  {
    match rowsDeleted
    case Success(n) => Success(ResponseEntity(DeleteMessage(n), OK))
    case Failure(e) => Failure(e)
  }
}
