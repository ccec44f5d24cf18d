/** `PostDto` and its Bean Validation constraints. */
module PostDto {
  import opened Wrappers
  import opened JavaLang
  import opened CommentDto

  datatype PostDto = PostDto(
    id: int,
    title: Option<string>,
    description: Option<string>,
    content: Option<string>,
    comments: Option<set<CommentDto>>,
    categoryId: Option<int>)

  predicate TitleValid(title: Option<string>) {
    NotEmpty(title) && SizeAtLeast(title, 2)
  }

  predicate DescriptionValid(description: Option<string>) {
    NotEmpty(description) && SizeAtLeast(description, 10)
  }

  predicate ContentValid(content: Option<string>) {
    NotEmpty(content)
  }

  /** The object is valid when title, description and content are; `id`,
      `comments` and `categoryId` carry no constraint. */
  predicate Valid(dto: PostDto) {
    TitleValid(dto.title) && DescriptionValid(dto.description) && ContentValid(dto.content)
  }

  /** What each constraint set comes to, field by field. */
  lemma FieldRules(dto: PostDto)
    ensures TitleValid(dto.title) <==> dto.title.Some? && Utf16Length(dto.title.value) >= 2
    ensures DescriptionValid(dto.description) <==> dto.description.Some? && Utf16Length(dto.description.value) >= 10
    ensures ContentValid(dto.content) <==> dto.content.Some? && dto.content.value != []
  {
  }

  /** The unconstrained fields never change the verdict. */
  lemma UnconstrainedFields(dto: PostDto, id: int, comments: Option<set<CommentDto>>, categoryId: Option<int>)
    ensures Valid(dto) == Valid(dto.(id := id, comments := comments, categoryId := categoryId))
  {
  }

  /** Blank text of enough length passes: the rules are not-empty, not not-blank. */
  lemma {:induction false} BlankFieldsAccepted(dto: PostDto)
    requires dto.title == Some("  ")
    requires dto.description == Some("          ")
    requires dto.content == Some(" ")
    ensures Valid(dto)
  {
    Utf16LengthOfBmp("  ");
    Utf16LengthOfBmp("          ");
  }

  /** A single character outside the Basic Multilingual Plane is two UTF-16
      code units, so it is already a long enough title. */
  lemma SupplementaryCharTitle()
    ensures TitleValid(Some("\U{1F600}"))
    ensures !TitleValid(Some("a"))
  {
  }
}
