/** `PostServiceImpl`: creates, reads, updates and deletes posts in the store,
    converting between `PostDto` and the `Post` entity. */
module PostServiceImpl {
  import opened Wrappers
  import opened JavaLang
  import opened Exceptions
  import opened Store
  import opened Dto = PostDto

  /** `mapToDTO`: a field-by-field copy; the category becomes its id. */
  function MapToDto(post: Post): (dto: PostDto) {
    PostDto(post.id, post.title, post.description, post.content, post.comments, post.category)
  }

  /** `mapToEntity`: a field-by-field copy; the category is left unset. */
  function MapToEntity(dto: PostDto): (post: Post) {
    Post(dto.id, dto.title, dto.description, dto.content, dto.comments, None)
  }

  /** Mapping to the entity, setting the category and mapping back gives the
      transfer object again. */
  lemma MapRoundTrip(dto: PostDto)
    requires dto.categoryId.Some?
    ensures MapToDto(MapToEntity(dto).(category := dto.categoryId)) == dto
  {
  }

  /** The posts of category `c` among the ids `order`, in that order: what
      `category.getPosts()` returns. */
  function PostsOfCategory(order: seq<int>, posts: map<int, Post>, c: int): (r: seq<Post>)
    requires forall id | id in order :: id in posts && posts[id].id == id
    ensures forall k | 0 <= k < |r| :: r[k].id in order && posts[r[k].id] == r[k] && r[k].category == Some(c)
    ensures forall id | id in order && posts[id].category == Some(c) :: posts[id] in r
    ensures Increasing(order) ==> forall i, j | 0 <= i < j < |r| :: r[i].id < r[j].id
  {
    if order == [] then []
    else
      var first := order[0];
      assert first in order;
      assert first in posts;
      var head := posts[first];
      var rest := PostsOfCategory(order[1..], posts, c);
      if head.category == Some(c) then
        assert Increasing(order) ==> forall k | 0 <= k < |rest| :: head.id < rest[k].id by {
          if Increasing(order) {
            forall k | 0 <= k < |rest| ensures head.id < rest[k].id {
              var m :| 0 <= m < |order[1..]| && order[1..][m] == rest[k].id;
              assert order[m + 1] == rest[k].id;
            }
          }
        }
        [head] + rest
      else
        rest
  }

  /** `posts.stream().map(this::mapToDTO).collect(...)` */
  function MapAll(posts: seq<Post>): (r: seq<PostDto>)
    ensures |r| == |posts| && forall k | 0 <= k < |r| :: r[k] == MapToDto(posts[k])
  {
    seq(|posts|, k requires 0 <= k < |posts| => MapToDto(posts[k]))
  }

  /** `createPost(postDto)` */
  method CreatePost(store: BlogStore, postDto: PostDto) returns (r: Result<PostDto, Exception>)
    requires store.Valid()
    modifies store
    ensures store.Valid()
    ensures postDto.categoryId.None? ==> r == Failure(NullId) && unchanged(store)
    ensures postDto.categoryId.Some? && postDto.categoryId.value !in old(store.categories) ==>
      r == Failure(ResourceNotFound("Category", "id", postDto.categoryId.value)) && unchanged(store)
    ensures postDto.categoryId.Some? && postDto.categoryId.value in old(store.categories) ==>
      var id := old(store.nextPostId);
      && id !in old(store.posts)
      && r == Success(postDto.(id := id))
      && store.posts == old(store.posts)[id := MapToEntity(postDto).(id := id, category := postDto.categoryId)]
      && store.postOrder == old(store.postOrder) + [id]
      && store.categories == old(store.categories) && store.categoryOrder == old(store.categoryOrder)
      && store.nextPostId == id + 1 && store.nextCategoryId == old(store.nextCategoryId)
      && GetPostById(store, id) == r
  {
    // categoryRepository.findById(null) throws before any lookup
    if postDto.categoryId.None? {
      return Failure(NullId);
    }
    var category := store.FindCategoryById(postDto.categoryId.value);
    if category.None? {
      return Failure(ResourceNotFound("Category", "id", postDto.categoryId.value));
    }
    var post := MapToEntity(postDto);
    post := post.(category := Some(category.value.id));
    var newPost := store.InsertPost(post);
    r := Success(MapToDto(newPost));
  }

  /** `getPostById(id)` */
  function GetPostById(store: BlogStore, id: int): (r: Result<PostDto, Exception>)
    reads store
    ensures r.Success? <==> id in store.posts
    ensures r.Success? ==> r.value == MapToDto(store.posts[id])
    ensures r.Failure? ==> r.error == ResourceNotFound("Post", "id", id)
  {
    match store.FindPostById(id)
    case None => Failure(ResourceNotFound("Post", "id", id))
    case Some(post) => Success(MapToDto(post))
  }

  /** `updatePost(postDto, id)`: the post is looked up first, then the category;
      then title, description, content and category are overwritten. */
  method UpdatePost(store: BlogStore, postDto: PostDto, id: int) returns (r: Result<PostDto, Exception>)
    requires store.Valid()
    modifies store
    ensures store.Valid()
    ensures id !in old(store.posts) ==> r == Failure(ResourceNotFound("Post", "id", id)) && unchanged(store)
    ensures id in old(store.posts) && postDto.categoryId.None? ==> r == Failure(NullId) && unchanged(store)
    ensures id in old(store.posts) && postDto.categoryId.Some? && postDto.categoryId.value !in old(store.categories) ==>
      r == Failure(ResourceNotFound("Category", "id", postDto.categoryId.value)) && unchanged(store)
    ensures id in old(store.posts) && postDto.categoryId.Some? && postDto.categoryId.value in old(store.categories) ==>
      var updated := old(store.posts[id]).(
        title := postDto.title, description := postDto.description,
        content := postDto.content, category := postDto.categoryId);
      && store.posts == old(store.posts)[id := updated]
      && r == Success(MapToDto(updated))
      && store.postOrder == old(store.postOrder)
      && store.categories == old(store.categories) && store.categoryOrder == old(store.categoryOrder)
      && store.nextPostId == old(store.nextPostId) && store.nextCategoryId == old(store.nextCategoryId)
  {
    var found := store.FindPostById(id);
    if found.None? {
      return Failure(ResourceNotFound("Post", "id", id));
    }
    if postDto.categoryId.None? {
      return Failure(NullId);
    }
    var category := store.FindCategoryById(postDto.categoryId.value);
    if category.None? {
      return Failure(ResourceNotFound("Category", "id", postDto.categoryId.value));
    }
    var post := found.value;
    post := post.(title := postDto.title);
    post := post.(description := postDto.description);
    post := post.(content := postDto.content);
    post := post.(category := Some(category.value.id));
    store.UpdatePost(post);
    r := Success(MapToDto(post));
  }

  /** `deletePost(id)`: true once the post is gone; a missing post throws. */
  method DeletePost(store: BlogStore, id: int) returns (r: Result<bool, Exception>)
    requires store.Valid()
    modifies store
    ensures store.Valid()
    ensures r.Success? ==> r.value
    ensures id in old(store.posts) ==>
      && r == Success(true)
      && store.posts == old(store.posts) - {id}
      && store.postOrder == Remove(old(store.postOrder), id)
      && store.categories == old(store.categories) && store.categoryOrder == old(store.categoryOrder)
      && store.nextPostId == old(store.nextPostId) && store.nextCategoryId == old(store.nextCategoryId)
    ensures id !in old(store.posts) ==> r == Failure(ResourceNotFound("Post", "id", id)) && unchanged(store)
  {
    var post := GetPostById(store, id);
    if post.Failure? {
      return Failure(post.error);
    }
    store.DeletePost(MapToEntity(post.value));
    r := Success(true);
  }

  /** `getPostsByCategory(categoryId)`: the posts of an existing category, in
      the order the category lists them (increasing id). */
  function GetPostsByCategory(store: BlogStore, categoryId: int): (r: Result<seq<PostDto>, Exception>)
    requires store.Valid()
    reads store
    ensures r.Failure? <==> categoryId !in store.categories
    ensures r.Failure? ==> r.error == ResourceNotFound("Category", "id", categoryId)
    ensures r.Success? ==> forall k | 0 <= k < |r.value| ::
      r.value[k].id in store.posts && r.value[k] == MapToDto(store.posts[r.value[k].id])
      && r.value[k].categoryId == Some(categoryId)
    ensures r.Success? ==> forall id | id in store.posts && store.posts[id].category == Some(categoryId) ::
      MapToDto(store.posts[id]) in r.value
    ensures r.Success? ==> forall i, j | 0 <= i < j < |r.value| :: r.value[i].id < r.value[j].id
  {
    match store.FindCategoryById(categoryId)
    case None => Failure(ResourceNotFound("Category", "id", categoryId))
    case Some(category) =>
      var posts := PostsOfCategory(store.postOrder, store.posts, category.id);
      var dtos := MapAll(posts);
      assert forall id | id in store.posts && store.posts[id].category == Some(categoryId) :: MapToDto(store.posts[id]) in dtos by {
        forall id | id in store.posts && store.posts[id].category == Some(categoryId)
          ensures MapToDto(store.posts[id]) in dtos
        {
          var k :| 0 <= k < |posts| && posts[k] == store.posts[id];
          assert dtos[k] == MapToDto(store.posts[id]);
        }
      }
      Success(dtos)
  }

  datatype Direction = ASC | DESC

  /** `Sort.by(sortBy).ascending()` or `.descending()` */
  datatype Sort = Sort(property: string, direction: Direction)

  /** The sort `getAllPosts` asks the repository for: ascending when `sortDir`
      equals "ASC" ignoring case, descending for any other text. */
  function SortFor(sortBy: string, sortDir: string): Sort {
    if EqualsIgnoreCase(sortDir, "ASC") then Sort(sortBy, ASC) else Sort(sortBy, DESC)
  }

  /** Which texts ask for ascending order: three characters, matching A, S and
      C ignoring case as Java does (the long s U+017F counts as an s). */
  lemma SortDirectionRule(sortBy: string, sortDir: string)
    ensures SortFor(sortBy, sortDir).property == sortBy
    ensures SortFor(sortBy, sortDir).direction == ASC <==>
      && |sortDir| == 3
      && (sortDir[0] == 'A' || sortDir[0] == 'a')
      && (sortDir[1] == 'S' || sortDir[1] == 's' || sortDir[1] == '\U{017F}')
      && (sortDir[2] == 'C' || sortDir[2] == 'c')
  {
  }

  lemma SortDirectionExamples()
    ensures SortFor("id", "asc").direction == ASC
    ensures SortFor("id", "aSc").direction == ASC
    ensures SortFor("id", "desc").direction == DESC
    ensures SortFor("id", "ascending").direction == DESC
    ensures SortFor("id", "").direction == DESC
  {
    SortDirectionRule("id", "asc");
    SortDirectionRule("id", "aSc");
    SortDirectionRule("id", "desc");
  }
}
