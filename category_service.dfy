/** `CategoryServiceImpl`: adds and reads categories. */
module CategoryServiceImpl {
  import opened Wrappers
  import opened Exceptions
  import opened Store

  datatype CategoryDto = CategoryDto(id: Option<int>, name: Option<string>, description: Option<string>)

  /** `modelMapper.map(categoryDto, Category.class)`: a field copy; a null id
      becomes 0 here, and the store assigns the real one on `save`. */
  function MapToEntity(dto: CategoryDto): Category {
    Category(if dto.id.Some? then dto.id.value else 0, dto.name, dto.description)
  }

  /** `modelMapper.map(category, CategoryDto.class)`: a field copy. */
  function MapToDto(category: Category): CategoryDto {
    CategoryDto(Some(category.id), category.name, category.description)
  }

  /** Mapping a category to its transfer object and back gives the category
      again; a transfer object that carries an id survives the other way. */
  lemma MapRoundTrip(category: Category, dto: CategoryDto)
    ensures MapToEntity(MapToDto(category)) == category
    ensures dto.id.Some? ==> MapToDto(MapToEntity(dto)) == dto
  {
  }

  /** `addCategory(categoryDto)`: saves the category once and returns it with
      the id the store assigned. */
  method AddCategory(store: BlogStore, categoryDto: CategoryDto) returns (r: CategoryDto)
    requires store.Valid()
    modifies store
    ensures store.Valid()
    ensures var id := old(store.nextCategoryId);
      && id !in old(store.categories)
      && r == categoryDto.(id := Some(id))
      && store.categories == old(store.categories)[id := Category(id, categoryDto.name, categoryDto.description)]
      && store.categoryOrder == old(store.categoryOrder) + [id]
      && store.posts == old(store.posts) && store.postOrder == old(store.postOrder)
      && store.nextCategoryId == id + 1 && store.nextPostId == old(store.nextPostId)
      && GetCategory(store, id) == Success(r)
  {
    var category := MapToEntity(categoryDto);
    var savedCategory := store.InsertCategory(category);
    r := MapToDto(savedCategory);
  }

  /** `getCategory(categoryId)`; note the field name "Id" in the exception. */
  function GetCategory(store: BlogStore, categoryId: int): (r: Result<CategoryDto, Exception>)
    requires store.Valid()
    reads store
    ensures r.Success? <==> categoryId in store.categories
    ensures r.Success? ==> r.value == MapToDto(store.categories[categoryId]) && r.value.id == Some(categoryId)
    ensures r.Failure? ==> r.error == ResourceNotFound("Category", "Id", categoryId)
  {
    match store.FindCategoryById(categoryId)
    case None => Failure(ResourceNotFound("Category", "Id", categoryId))
    case Some(category) => Success(MapToDto(category))
  }

  /** `getCategories()`: one transfer object per stored category, in the
      order `findAll` lists them. */
  function GetCategories(store: BlogStore): (r: seq<CategoryDto>)
    requires store.Valid()
    reads store
    ensures |r| == |store.categories|
    ensures forall k | 0 <= k < |r| ::
      r[k].id.Some? && r[k].id.value in store.categories && r[k] == MapToDto(store.categories[r[k].id.value])
    ensures forall id | id in store.categories :: MapToDto(store.categories[id]) in r
    ensures forall i, j | 0 <= i < j < |r| :: r[i].id.value < r[j].id.value
  {
    var order, categories := store.categoryOrder, store.categories;
    ListLength(order, categories.Keys);
    forall k | 0 <= k < |order| ensures order[k] in categories {
      assert order[k] in order;
    }
    var dtos := seq(|order|, k requires 0 <= k < |order| => MapToDto(categories[order[k]]));
    assert forall id | id in categories :: MapToDto(categories[id]) in dtos by {
      forall id | id in categories ensures MapToDto(categories[id]) in dtos {
        assert id in order;
        var k :| 0 <= k < |order| && order[k] == id;
        assert dtos[k] == MapToDto(categories[id]);
      }
    }
    dtos
  }
}
