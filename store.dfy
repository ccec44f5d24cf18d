/** The persistent state behind the services: the `posts` and `categories`
    tables, reached through `PostRepository` and `CategoryRepository`. The
    tables are maps from id to entity; ids are handed out in increasing order,
    and each table also keeps its ids in that order, which is the order
    `findAll` and `Category.getPosts()` list them in. */
module Store {
  import opened Wrappers
  import opened CommentDto

  /** The `Post` entity; `category` is the id of the category it belongs to
      (null until `setCategory`). */
  datatype Post = Post(
    id: int,
    title: Option<string>,
    description: Option<string>,
    content: Option<string>,
    comments: Option<set<CommentDto>>,
    category: Option<int>)

  /** The `Category` entity. */
  datatype Category = Category(id: int, name: Option<string>, description: Option<string>)

  /** The ids are strictly increasing, so each appears once. */
  predicate Increasing(s: seq<int>) {
    forall i, j | 0 <= i < j < |s| :: s[i] < s[j]
  }

  /** `s` lists exactly the ids in `keys`, in increasing order. */
  predicate ListsInOrder(s: seq<int>, keys: set<int>) {
    Increasing(s) && (forall x | x in s :: x in keys) && (forall x | x in keys :: x in s)
  }

  lemma PrependIncreasing(x: int, s: seq<int>)
    requires Increasing(s) && forall y | y in s :: x < y
    ensures Increasing([x] + s)
  {
    forall i, j | 0 <= i < j < |[x] + s| ensures ([x] + s)[i] < ([x] + s)[j] {
      assert ([x] + s)[j] == s[j - 1];
      if i > 0 {
        assert ([x] + s)[i] == s[i - 1];
      } else {
        assert s[j - 1] in s;
      }
    }
  }

  lemma AppendIncreasing(s: seq<int>, x: int)
    requires Increasing(s) && forall y | y in s :: y < x
    ensures Increasing(s + [x])
  {
    forall i, j | 0 <= i < j < |s + [x]| ensures (s + [x])[i] < (s + [x])[j] {
      assert (s + [x])[i] == s[i];
      assert s[i] in s;
    }
  }

  /** `s` without `x`. */
  function Remove(s: seq<int>, x: int): (r: seq<int>)
    ensures forall y | y in r :: y in s && y != x
    ensures forall y | y in s && y != x :: y in r
    ensures Increasing(s) ==> Increasing(r)
  {
    if s == [] then []
    else if s[0] == x then Remove(s[1..], x)
    else
      var rest := Remove(s[1..], x);
      assert Increasing(s) ==> forall y | y in rest :: s[0] < y by {
        if Increasing(s) {
          forall y | y in rest ensures s[0] < y {
            var k :| 0 <= k < |s[1..]| && s[1..][k] == y;
            assert s[k + 1] == y;
          }
        }
      }
      if Increasing(s) then
        PrependIncreasing(s[0], rest);
        [s[0]] + rest
      else
        [s[0]] + rest
  }

  /** A list of distinct ids is as long as the set of them. */
  lemma {:induction false} ListLength(s: seq<int>, keys: set<int>)
    requires ListsInOrder(s, keys)
    ensures |s| == |keys|
  {
    if s != [] {
      var rest := keys - {s[0]};
      forall x | x in s[1..] ensures x in rest {
        var k :| 0 <= k < |s[1..]| && s[1..][k] == x;
        assert s[0] < s[k + 1];
      }
      forall x | x in rest ensures x in s[1..] {
        assert x in s && x != s[0];
        var k :| 0 <= k < |s| && s[k] == x;
        assert s[1..][k - 1] == x;
      }
      assert s[0] in keys;
      assert |rest| == |keys| - 1;
      ListLength(s[1..], rest);
    } else {
      assert forall x | x in keys :: false;
      assert keys == {};
    }
  }

  class BlogStore {
    var posts: map<int, Post>
    var postOrder: seq<int>
    var categories: map<int, Category>
    var categoryOrder: seq<int>
    var nextPostId: int
    var nextCategoryId: int

    ghost predicate Valid()
      reads this
    {
      && (forall id | id in posts ::
            posts[id].id == id && 0 < id < nextPostId
            && posts[id].category.Some? && posts[id].category.value in categories)
      && (forall id | id in categories :: categories[id].id == id && 0 < id < nextCategoryId)
      && ListsInOrder(postOrder, posts.Keys)
      && ListsInOrder(categoryOrder, categories.Keys)
      && 0 < nextPostId && 0 < nextCategoryId
    }

    /** Empty tables; both identity columns start at 1. */
    constructor()
      ensures Valid()
      ensures posts == map[] && categories == map[] && postOrder == [] && categoryOrder == []
    {
      posts, postOrder, nextPostId := map[], [], 1;
      categories, categoryOrder, nextCategoryId := map[], [], 1;
    }

    /** `postRepository.findById(id)` */
    function FindPostById(id: int): (r: Option<Post>)
      reads this
      ensures r.Some? <==> id in posts
      ensures r.Some? ==> r.value == posts[id]
    {
      if id in posts then Some(posts[id]) else None
    }

    /** `categoryRepository.findById(id)` for a non-null id */
    function FindCategoryById(id: int): (r: Option<Category>)
      reads this
      ensures r.Some? <==> id in categories
      ensures r.Some? ==> r.value == categories[id]
    {
      if id in categories then Some(categories[id]) else None
    }

    /** `postRepository.save(post)` for a new post: the store assigns the next id. */
    method InsertPost(post: Post) returns (saved: Post)
      requires Valid()
      requires post.category.Some? && post.category.value in categories
      modifies this
      ensures Valid()
      ensures saved == post.(id := old(nextPostId))
      ensures posts == old(posts)[saved.id := saved] && postOrder == old(postOrder) + [saved.id]
      ensures saved.id !in old(posts) && nextPostId == old(nextPostId) + 1
      ensures categories == old(categories) && categoryOrder == old(categoryOrder)
      ensures nextCategoryId == old(nextCategoryId)
    {
      saved := post.(id := nextPostId);
      AppendIncreasing(postOrder, saved.id);
      posts := posts[saved.id := saved];
      postOrder := postOrder + [saved.id];
      nextPostId := nextPostId + 1;
    }

    /** `postRepository.save(post)` for a post that is already stored. */
    method UpdatePost(post: Post)
      requires Valid()
      requires post.id in posts && post.category.Some? && post.category.value in categories
      modifies this
      ensures Valid()
      ensures posts == old(posts)[post.id := post]
      ensures postOrder == old(postOrder) && nextPostId == old(nextPostId)
      ensures categories == old(categories) && categoryOrder == old(categoryOrder)
      ensures nextCategoryId == old(nextCategoryId)
    {
      posts := posts[post.id := post];
    }

    /** `postRepository.delete(post)`: removes the row with the post's id, if any. */
    method DeletePost(post: Post)
      requires Valid()
      modifies this
      ensures Valid()
      ensures posts == old(posts) - {post.id} && postOrder == Remove(old(postOrder), post.id)
      ensures nextPostId == old(nextPostId)
      ensures categories == old(categories) && categoryOrder == old(categoryOrder)
      ensures nextCategoryId == old(nextCategoryId)
    {
      posts := posts - {post.id};
      postOrder := Remove(postOrder, post.id);
    }

    /** `categoryRepository.save(category)` for a new category. */
    method InsertCategory(category: Category) returns (saved: Category)
      requires Valid()
      modifies this
      ensures Valid()
      ensures saved == category.(id := old(nextCategoryId))
      ensures categories == old(categories)[saved.id := saved]
      ensures categoryOrder == old(categoryOrder) + [saved.id]
      ensures saved.id !in old(categories) && nextCategoryId == old(nextCategoryId) + 1
      ensures posts == old(posts) && postOrder == old(postOrder) && nextPostId == old(nextPostId)
    {
      saved := category.(id := nextCategoryId);
      AppendIncreasing(categoryOrder, saved.id);
      categories := categories[saved.id := saved];
      categoryOrder := categoryOrder + [saved.id];
      nextCategoryId := nextCategoryId + 1;
    }
  }
}
