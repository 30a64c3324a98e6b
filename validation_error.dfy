/**
 * utils/validation-error.go: turning a validator's multi-line message
 * (one `Key: '<field>' Error:<text>` line per failed field) into an ordered
 * list of key/error records for a 400 response body.
 */
module ValidationErrors {
  import opened Wrappers
  import opened GoStrings

  datatype ValidationError = ValidationError(key: string, error: string)

  /** Go's zero value of the record, left at indices whose line has no separator. */
  const Zero := ValidationError("", "")
  const Separator := " Error:"
  const KeyPrefix := "Key: '"
  const Quote := "'"

  /** The record one line of the message becomes. */
  function FormatLine(line: string): (e: ValidationError)
    ensures !Contains(line, Separator) ==> e == Zero
  {
    var parts := SplitN2(line, Separator);
    var key := TrimSuffix(TrimPrefix(parts[0], KeyPrefix), Quote);
    if |parts| == 2 then ValidationError(TrimSpace(key), TrimSpace(parts[1])) else Zero
  }

  /** The list FormatValidationError builds: entry i comes from line i. */
  function Formatted(message: string): (entries: seq<ValidationError>)
    ensures |entries| == |Split(message, '\n')| == Count(message, '\n') + 1
    ensures forall i :: 0 <= i < |entries| ==> entries[i] == FormatLine(Split(message, '\n')[i])
  {
    SplitCount(message, '\n');
    var lines := Split(message, '\n');
    seq(|lines|, i requires 0 <= i < |lines| => FormatLine(lines[i]))
  }

  /**
   * FormatValidationError: splits on newlines, allocates one zero record per
   * line and fills in each line that carries the separator.
   */
  method FormatValidationError(message: string) returns (out: seq<ValidationError>)
    ensures out == Formatted(message)
  {
    var ve := Split(message, '\n');
    var a := new ValidationError[|ve|](_ => Zero);
    for i := 0 to |ve|
      invariant forall j :: 0 <= j < i ==> a[j] == FormatLine(ve[j])
      invariant forall j :: i <= j < |ve| ==> a[j] == Zero
    {
      FillEntry(a, i, ve[i]);
    }
    out := a[..];
  }

  /**
   * One pass of the loop: split the line at the first separator, cut the key
   * decoration, and store the trimmed pair only when the separator was found.
   */
  method FillEntry(a: array<ValidationError>, i: nat, line: string)
    requires i < a.Length && a[i] == Zero
    modifies a
    ensures a[i] == FormatLine(line)
    ensures forall j :: 0 <= j < a.Length && j != i ==> a[j] == old(a[j])
  {
    var parts := SplitN2(line, Separator);
    var key := TrimPrefix(parts[0], KeyPrefix);
    key := TrimSuffix(key, Quote);
    if |parts| == 2 {
      a[i] := ValidationError(TrimSpace(key), TrimSpace(parts[1]));
    }
  }

  /** One record per newline-separated line; an empty message still gives one. */
  lemma FormattedLength(message: string)
    ensures |Formatted(message)| == Count(message, '\n') + 1
    ensures message == "" ==> Formatted(message) == [Zero]
  {
    SplitCount(message, '\n');
    if message == "" {
      assert Split(message, '\n') == [""];
      assert !Contains("", Separator);
    }
  }

  /** The separator begins with its only space and holds no quote. */
  lemma SeparatorShape()
    ensures |Separator| == 7 && Separator[0] == ' ' && Separator[1] == 'E'
    ensures forall m :: 1 <= m < |Separator| ==> Separator[m] != ' ' && Separator[m] != '\''
  {
    assert Separator == [' ', 'E', 'r', 'r', 'o', 'r', ':'];
  }

  /**
   * The separator's first character is its only space, so an occurrence of it
   * cannot begin inside text that has none and run into a following copy.
   */
  lemma FirstSeparator(before: string, after: string)
    requires !Contains(before, Separator)
    ensures SplitN2(before + Separator + after, Separator) == [before, after]
  {
    var line := before + Separator + after;
    assert OccursAt(line, Separator, |before|);
    SeparatorShape();
    forall j: nat | j < |before| ensures !OccursAt(line, Separator, j) {
      if j + |Separator| <= |before| {
        assert before[j..j + |Separator|] == line[j..j + |Separator|];
        assert !OccursAt(before, Separator, j);
      } else {
        assert line[j..j + |Separator|][|before| - j] == ' ' != Separator[|before| - j];
      }
    }
    var parts := SplitN2(line, Separator);
    assert Index(line, Separator) == Some(|before|);
    assert parts == [line[..|before|], line[|before| + |Separator|..]];
    assert line[..|before|] == before;
    assert line[|before| + |Separator|..] == after;
  }

  /**
   * For a line `before + " Error:" + after` whose first separator is the one
   * shown, the key is `before` with one `Key: '` and one trailing quote cut
   * off, trimmed; the error is `after` trimmed, later separators included.
   */
  lemma LineKeyAndError(before: string, after: string)
    requires !Contains(before, Separator)
    ensures FormatLine(before + Separator + after)
         == ValidationError(TrimSpace(TrimSuffix(TrimPrefix(before, KeyPrefix), Quote)), TrimSpace(after))
  {
    FirstSeparator(before, after);
  }

  /** The line the validator writes for a failed field, as in the comment at the top of the Go file. */
  function ErrorLine(entry: ValidationError): (line: string)
    ensures HasPrefix(line, KeyPrefix) && HasSuffix(line, entry.error)
    ensures |line| == |KeyPrefix| + |entry.key| + |Quote| + |Separator| + |entry.error|
  {
    KeyPrefix + entry.key + Quote + Separator + entry.error
  }

  /** A record that survives being written as a line and parsed back. */
  predicate Representable(entry: ValidationError) {
    && IsTrimmed(entry.key) && IsTrimmed(entry.error)
    && !Contains(entry.key, Separator)
    && '\n' !in entry.key && '\n' !in entry.error
  }

  lemma {:induction false} KeyPartHasNoSeparator(k: string)
    requires !Contains(k, Separator)
    ensures !Contains(KeyPrefix + k + Quote, Separator)
  {
    forall j: nat | j + |Separator| <= |KeyPrefix + k + Quote| ensures !OccursAt(KeyPrefix + k + Quote, Separator, j) {
      NoSeparatorAt(k, j);
    }
  }

  /** One position of the decorated key: the separator does not start there. */
  lemma NoSeparatorAt(k: string, j: nat)
    requires !Contains(k, Separator)
    requires j + |Separator| <= |KeyPrefix + k + Quote|
    ensures !OccursAt(KeyPrefix + k + Quote, Separator, j)
  {
    var before := KeyPrefix + k + Quote;
    SeparatorShape();
    assert KeyPrefix == ['K', 'e', 'y', ':', ' ', '\''];
    var w := before[j..j + |Separator|];
    if j < |KeyPrefix| {
      assert w[0] == before[j];
      assert w[1] == before[j + 1];
    } else if j + |Separator| <= |KeyPrefix| + |k| {
      assert k[j - |KeyPrefix|..j - |KeyPrefix| + |Separator|] == w;
      assert !OccursAt(k, Separator, j - |KeyPrefix|);
    } else {
      assert w[|Separator| - 1] == before[j + |Separator| - 1] == '\'';
    }
  }

  /** Writing a record as a validator line and formatting it gives the record back. */
  lemma LineRoundTrip(entry: ValidationError)
    requires Representable(entry)
    ensures FormatLine(ErrorLine(entry)) == entry
  {
    var before := KeyPrefix + entry.key + Quote;
    assert ErrorLine(entry) == before + Separator + entry.error;
    KeyPartHasNoSeparator(entry.key);
    LineKeyAndError(before, entry.error);
    assert before == KeyPrefix + (entry.key + Quote);
    TrimPrefixOfConcat(KeyPrefix, entry.key + Quote);
    assert TrimPrefix(before, KeyPrefix) == entry.key + Quote;
    TrimSuffixOfConcat(entry.key, Quote);
    TrimSpaceOfTrimmed(entry.key);
    TrimSpaceOfTrimmed(entry.error);
  }

  /** The message a validator builds: one line per record, separated by newlines. */
  function Message(entries: seq<ValidationError>): string
    requires |entries| >= 1
  {
    Join(seq(|entries|, i requires 0 <= i < |entries| => ErrorLine(entries[i])), '\n')
  }

  /** Formatting a validator message recovers its records, in order. */
  lemma MessageRoundTrip(entries: seq<ValidationError>)
    requires |entries| >= 1
    requires forall i :: 0 <= i < |entries| ==> Representable(entries[i])
    ensures Formatted(Message(entries)) == entries
  {
    var lines := seq(|entries|, i requires 0 <= i < |entries| => ErrorLine(entries[i]));
    forall i | 0 <= i < |lines| ensures '\n' !in lines[i] {
      assert lines[i] == KeyPrefix + entries[i].key + Quote + Separator + entries[i].error;
      assert '\n' !in KeyPrefix + entries[i].key + Quote + Separator;
    }
    SplitJoin(lines, '\n');
    forall i | 0 <= i < |entries| ensures FormatLine(lines[i]) == entries[i] {
      LineRoundTrip(entries[i]);
    }
  }
}
