/**
 * entity/video.go: the Person and Video records, the bounds their binding
 * tags declare, and the BeforeCreate hooks gorm calls before an insert.
 *
 * Strings are sequences of Unicode code points, so a length here is the
 * rune count the validator's min/max tags measure.
 */
module Entities {
  import opened Wrappers

  type byte = bv8

  /** uuid.UUID: sixteen bytes. */
  type Uuid = s: seq<byte> | |s| == 16 witness [0, 0, 0, 0, 0, 0, 0, 0, 0, 0, 0, 0, 0, 0, 0, 0]

  /** uuid.Nil, all zero bytes. */
  const NilUuid: Uuid := [0, 0, 0, 0, 0, 0, 0, 0, 0, 0, 0, 0, 0, 0, 0, 0]

  /** entity.Person; the embedded gorm timestamps are not part of this model. */
  datatype Person = Person(id: Uuid, name: string, age: int, email: string)

  /** entity.Video; the embedded gorm timestamps are not part of this model. */
  datatype Video = Video(id: Uuid, title: string, description: string, url: string, author: Person, authorId: Uuid)

  /** A Go pointer to a record: the receiver the hooks update in place. */
  class Ref<T> {
    var value: T

    constructor (value: T)
      ensures this.value == value
    {
      this.value := value;
    }
  }

  /** The ID after a hook: a nil ID is replaced by the generated one, any other is kept. */
  function AssignedId(id: Uuid, generated: Uuid): (r: Uuid)
    ensures id != NilUuid ==> r == id
    ensures id == NilUuid ==> r == generated
  {
    if id == NilUuid then generated else id
  }

  /** Person.BeforeCreate; `generated` is the value uuid.New would return. The hook never fails. */
  method PersonBeforeCreate(p: Ref<Person>, generated: Uuid) returns (err: Option<string>)
    modifies p
    ensures p.value == old(p.value).(id := AssignedId(old(p.value).id, generated))
    ensures err == None
  {
    if p.value.id == NilUuid {
      p.value := p.value.(id := generated);
    }
    err := None;
  }

  /** Video.BeforeCreate; `generated` is the value uuid.New would return. The hook never fails. */
  method VideoBeforeCreate(v: Ref<Video>, generated: Uuid) returns (err: Option<string>)
    modifies v
    ensures v.value == old(v.value).(id := AssignedId(old(v.value).id, generated))
    ensures err == None
  {
    if v.value.id == NilUuid {
      v.value := v.value.(id := generated);
    }
    err := None;
  }

  /** With a generator that never yields nil, the ID is non-nil after a hook. */
  lemma AssignedIdNonNil(id: Uuid, generated: Uuid)
    requires generated != NilUuid
    ensures AssignedId(id, generated) != NilUuid
  {
  }

  /** A second hook call changes nothing, whatever it would generate. */
  lemma AssignedIdIdempotent(id: Uuid, first: Uuid, second: Uuid)
    requires first != NilUuid
    ensures AssignedId(AssignedId(id, first), second) == AssignedId(id, first)
  {
  }

  /** A hook keeps every field but the ID, and the ID too unless it was nil. */
  lemma HookTouchesOnlyNilId(v: Video, generated: Uuid)
    ensures var w := v.(id := AssignedId(v.id, generated));
      && w.title == v.title && w.description == v.description && w.url == v.url
      && w.author == v.author && w.authorId == v.authorId
      && (v.id != NilUuid ==> w == v)
  {
  }

  const MinNameLength := 2
  const MaxNameLength := 50
  const MinAge := 0
  const MaxAge := 120
  const MinTitleLength := 3
  const MaxTitleLength := 100
  const MaxDescriptionLength := 500

  /**
   * Person's tags: a required name of 2 to 50 runes, an age from 0 to 120, a
   * required e-mail address. The address syntax is the validator's own and is
   * the parameter `isEmail`.
   */
  predicate PersonValid(p: Person, isEmail: string -> bool)
    ensures PersonValid(p, isEmail) <==> 2 <= |p.name| <= 50 && 0 <= p.age <= 120 && p.email != "" && isEmail(p.email)
  {
    && p.name != "" && MinNameLength <= |p.name| <= MaxNameLength
    && MinAge <= p.age <= MaxAge
    && p.email != "" && isEmail(p.email)
  }

  /**
   * Video's tags: a title of 3 to 100 runes, a description of at most 500,
   * a required URL whose syntax is the parameter `isUrl`, and an author that
   * passes Person's own tags (the validator descends into the nested struct).
   */
  predicate VideoValid(v: Video, isUrl: string -> bool, isEmail: string -> bool)
    ensures VideoValid(v, isUrl, isEmail) <==>
      && 3 <= |v.title| <= 100 && |v.description| <= 500
      && v.url != "" && isUrl(v.url) && PersonValid(v.author, isEmail)
  {
    && MinTitleLength <= |v.title| <= MaxTitleLength
    && |v.description| <= MaxDescriptionLength
    && v.url != "" && isUrl(v.url)
    && PersonValid(v.author, isEmail)
  }

  /** The title bounds are exactly 3 and 100: one rune fewer or more is refused. */
  lemma TitleBounds(v: Video, isUrl: string -> bool, isEmail: string -> bool)
    requires VideoValid(v, isUrl, isEmail)
    ensures !VideoValid(v.(title := v.title[..2]), isUrl, isEmail)
    ensures forall extra: string :: |v.title| == 100 && extra != "" ==> !VideoValid(v.(title := v.title + extra), isUrl, isEmail)
  {
  }

  /** The bounds themselves are accepted: titles of exactly 3 and 100 runes, a 500-rune description. */
  lemma EdgesAccepted(v: Video, isUrl: string -> bool, isEmail: string -> bool)
    requires VideoValid(v, isUrl, isEmail)
    ensures forall t: string :: |t| == 3 || |t| == 100 ==> VideoValid(v.(title := t), isUrl, isEmail)
    ensures forall d: string :: |d| == 500 ==> VideoValid(v.(description := d), isUrl, isEmail)
    ensures forall n: string :: |n| == 2 || |n| == 50 ==> PersonValid(v.author.(name := n), isEmail)
    ensures PersonValid(v.author.(age := 0), isEmail) && PersonValid(v.author.(age := 120), isEmail)
  {
  }

  /** The name and age bounds: 2..50 runes, 0..120 years. */
  lemma PersonBounds(p: Person, isEmail: string -> bool)
    requires PersonValid(p, isEmail)
    ensures !PersonValid(p.(name := p.name[..1]), isEmail)
    ensures !PersonValid(p.(age := -1), isEmail) && !PersonValid(p.(age := 121), isEmail)
  {
  }

  /** The hooks do not affect validation: an ID carries no binding tag. */
  lemma HookKeepsValidity(v: Video, generated: Uuid, isUrl: string -> bool, isEmail: string -> bool)
    ensures VideoValid(v.(id := AssignedId(v.id, generated)), isUrl, isEmail) <==> VideoValid(v, isUrl, isEmail)
  {
  }
}
