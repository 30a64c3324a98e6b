/**
 * validators/is-idx.go: the custom `is-idx` field validator, true when the
 * field's value starts with "idx_".
 */
module Validators {
  import opened GoStrings

  const IdxPrefix := "idx_"

  /**
   * The field under validation. reflect.Value.String gives a string field's
   * contents; for any other kind it gives "<T Value>" with T the type name.
   */
  datatype FieldValue = StringField(s: string) | OtherKind(typeName: string) {
    function String(): (text: string)
      ensures StringField? ==> text == s
      ensures OtherKind? ==> |text| == |typeName| + 8 && text[0] == '<'
    {
      match this
      case StringField(s) => s
      case OtherKind(t) => "<" + t + " Value>"
    }
  }

  /** IsIdx. */
  predicate IsIdx(field: FieldValue)
    ensures IsIdx(field) ==> field.StringField?
    ensures field.StringField? ==> (IsIdx(field) <==> |field.s| >= 4 && field.s[..4] == IdxPrefix)
  {
    assert field.OtherKind? ==> field.String()[0] == '<';
    HasPrefix(field.String(), IdxPrefix)
  }

  /** A string field is accepted exactly when its first four characters are "idx_". */
  lemma IdxIffPrefix(s: string)
    ensures IsIdx(StringField(s)) <==> (|s| >= 4 && s[0] == 'i' && s[1] == 'd' && s[2] == 'x' && s[3] == '_')
  {
  }

  /** "idx_" followed by anything, nothing included, is accepted. */
  lemma IdxWithAnySuffix(suffix: string)
    ensures IsIdx(StringField(IdxPrefix + suffix))
  {
    assert (IdxPrefix + suffix)[..4] == IdxPrefix;
  }

  /** Strings shorter than the prefix are refused. */
  lemma ShortRejected(s: string)
    requires |s| < 4
    ensures !IsIdx(StringField(s))
  {
  }

  /** The comparison is case-sensitive. */
  lemma UpperCaseRejected(suffix: string)
    ensures !IsIdx(StringField("IDX_" + suffix))
  {
    assert ("IDX_" + suffix)[0] == 'I';
  }

  /** A field of another kind is refused: its text starts with '<'. */
  lemma OtherKindsRejected(typeName: string)
    ensures !IsIdx(OtherKind(typeName))
  {
    assert OtherKind(typeName).String()[0] == '<';
  }
}
