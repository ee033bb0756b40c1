/** CsvConfiguration: the fluent settings object for reading CSV files. */
module CsvConfig {
  import opened Wrappers
  import opened Text

  const DefaultDelimiter: string := ";"

  /** A text encoding, known by its name. */
  datatype Encoding = Encoding(name: string)

  const UTF8: Encoding := Encoding("utf-8")

  /** AllowedDelimiters: the blank delimiters that are nevertheless accepted (compared ignoring case). */
  const AllowedDelimiters: seq<string> := ["\t"]

  /** The guard of ChangeDelimiter: rejected when blank (or null) and not an allowed delimiter. */
  predicate RejectsDelimiter(d: Option<string>) {
    IsNullOrWhiteSpace(d) && !(d.Some? && exists a | a in AllowedDelimiters :: EqualsIgnoreCase(a, d.value))
  }

  /** Exactly the tab and the non-blank strings are accepted as delimiters. */
  lemma AcceptedDelimiters(d: Option<string>)
    ensures !RejectsDelimiter(d) <==> d == Some("\t") || (d.Some? && !IsBlank(d.value))
  {
    if d == Some("\t") {
      assert EqualsIgnoreCase(AllowedDelimiters[0], d.value);
    }
    if d.Some? && EqualsIgnoreCase("\t", d.value) {
      assert Fold("\t")[0] == '\t';
      assert |d.value| == 1 && FoldChar(d.value[0]) == '\t';
      assert d.value == "\t";
    }
  }

  class CsvConfiguration {
    var firstLineIsHeader: bool
    var encoding: Encoding
    var delimiter: string
    /** null until one of its setters is called. */
    var hasFieldsEnclosedInQuotes: Option<bool>

    constructor ()
      ensures firstLineIsHeader && encoding == UTF8 && delimiter == DefaultDelimiter
      ensures hasFieldsEnclosedInQuotes == None
    {
      firstLineIsHeader := true;
      encoding := UTF8;
      delimiter := DefaultDelimiter;
      hasFieldsEnclosedInQuotes := None;
    }

    method NoHeaders() returns (self: CsvConfiguration)
      modifies this
      ensures self == this && !firstLineIsHeader
      ensures encoding == old(encoding) && delimiter == old(delimiter)
      ensures hasFieldsEnclosedInQuotes == old(hasFieldsEnclosedInQuotes)
    {
      firstLineIsHeader := false;
      self := this;
    }

    method ChangeEncoding(e: Option<Encoding>) returns (r: Result<CsvConfiguration>)
      modifies this
      ensures e.None? ==> r == Err(ArgumentNull("encoding")) && encoding == old(encoding)
      ensures e.Some? ==> r == Ok(this) && encoding == e.value
      ensures firstLineIsHeader == old(firstLineIsHeader) && delimiter == old(delimiter)
      ensures hasFieldsEnclosedInQuotes == old(hasFieldsEnclosedInQuotes)
    {
      if e.None? {
        return Err(ArgumentNull("encoding"));
      }
      encoding := e.value;
      r := Ok(this);
    }

    /** ChangeDelimiter: a tab or any non-blank string; anything else throws and changes nothing. */
    method ChangeDelimiter(d: Option<string>) returns (r: Result<CsvConfiguration>)
      modifies this
      ensures RejectsDelimiter(d) ==> r == Err(Argument("Value cannot be null or empty.")) && delimiter == old(delimiter)
      ensures !RejectsDelimiter(d) ==> r == Ok(this) && d.Some? && delimiter == d.value
      ensures firstLineIsHeader == old(firstLineIsHeader) && encoding == old(encoding)
      ensures hasFieldsEnclosedInQuotes == old(hasFieldsEnclosedInQuotes)
    {
      if RejectsDelimiter(d) {
        return Err(Argument("Value cannot be null or empty."));
      }
      delimiter := d.value;
      r := Ok(this);
    }

    method ChangeHasFieldsEnclosedInQuotes(b: bool) returns (self: CsvConfiguration)
      modifies this
      ensures self == this && hasFieldsEnclosedInQuotes == Some(b)
      ensures firstLineIsHeader == old(firstLineIsHeader) && encoding == old(encoding) && delimiter == old(delimiter)
    {
      hasFieldsEnclosedInQuotes := Some(b);
      self := this;
    }

    method DisableHasFieldsEnclosedInQuotes() returns (self: CsvConfiguration)
      modifies this
      ensures self == this && hasFieldsEnclosedInQuotes == Some(false)
      ensures firstLineIsHeader == old(firstLineIsHeader) && encoding == old(encoding) && delimiter == old(delimiter)
    {
      hasFieldsEnclosedInQuotes := Some(false);
      self := this;
    }
  }
}
