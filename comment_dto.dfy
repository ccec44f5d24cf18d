/** `CommentDto` and its Bean Validation constraints. */
module CommentDto {
  import opened Wrappers
  import opened JavaLang

  datatype CommentDto = CommentDto(id: Option<int>, name: Option<string>, email: Option<string>, body: Option<string>)

  /** `@NotEmpty`: not null and not of length zero. */
  predicate NotEmpty(s: Option<string>) {
    s.Some? && Utf16Length(s.value) > 0
  }

  /** `@Size(min = m)`: null passes; otherwise at least `m` UTF-16 code units. */
  predicate SizeAtLeast(s: Option<string>, m: nat) {
    s.None? || Utf16Length(s.value) >= m
  }

  /** `@Email`: null passes; otherwise the (external) address format decides. */
  predicate Email(s: Option<string>, emailFormat: string -> bool) {
    s.None? || emailFormat(s.value)
  }

  predicate NameValid(name: Option<string>) {
    NotEmpty(name)
  }

  predicate EmailValid(email: Option<string>, emailFormat: string -> bool) {
    NotEmpty(email) && Email(email, emailFormat)
  }

  predicate BodyValid(body: Option<string>) {
    NotEmpty(body) && SizeAtLeast(body, 10)
  }

  /** The whole object is valid when every constrained field is; `id` is free. */
  predicate Valid(dto: CommentDto, emailFormat: string -> bool) {
    NameValid(dto.name) && EmailValid(dto.email, emailFormat) && BodyValid(dto.body)
  }

  /** What each constraint set comes to, field by field. */
  lemma FieldRules(dto: CommentDto, emailFormat: string -> bool)
    ensures NameValid(dto.name) <==> dto.name.Some? && dto.name.value != []
    ensures EmailValid(dto.email, emailFormat) <==>
      dto.email.Some? && dto.email.value != [] && emailFormat(dto.email.value)
    ensures BodyValid(dto.body) <==> dto.body.Some? && Utf16Length(dto.body.value) >= 10
    ensures Valid(dto, emailFormat) == Valid(dto.(id := None), emailFormat)
  {
  }

  /** Ten spaces make a valid body: the rule is not-empty, not not-blank. */
  lemma BlankBodyAccepted()
    ensures BodyValid(Some("          "))
  {
    Utf16LengthOfBmp("          ");
  }
}
