/** A reader for the comma-separated format of section 2 of RFC 4180, with
    records separated by a line feed: the inverse against which the export
    of pages/DashboardPage.tsx is checked. A field that starts with a double
    quote runs to the next lone double quote, a doubled quote inside it
    standing for one; any other field runs to the next comma or line feed.
    Each parser returns the value read and the text that follows it. */
module CsvReader {
  import opened Types

  const Quote: char := '"'
  const Comma: char := ','
  const LineFeed: char := '\n'
  const CarriageReturn: char := '\r'

  /** The characters that force a cell to be quoted. */
  predicate IsSpecial(c: char) {
    c == Quote || c == Comma || c == LineFeed || c == CarriageReturn
  }

  /** A cell that can be written as it is: it holds no special character. */
  predicate IsPlain(s: string) {
    forall c :: c in s ==> !IsSpecial(c)
  }

  /** The text after a complete field: nothing, or a separator. */
  predicate AtFieldEnd(rest: string) {
    rest == [] || rest[0] == Comma || rest[0] == LineFeed
  }

  /** The body of a quoted field, after its opening quote. */
  function ParseQuoted(s: string): (r: Option<(string, string)>)
    ensures r.Some? ==> |r.value.1| < |s|
    decreases |s|
  {
    if s == [] then None
    else if s[0] == Quote then
      if |s| > 1 && s[1] == Quote then
        match ParseQuoted(s[2..])
        case None => None
        case Some((v, rest)) => Some(([Quote] + v, rest))
      else Some(([], s[1..]))
    else
      match ParseQuoted(s[1..])
      case None => None
      case Some((v, rest)) => Some(([s[0]] + v, rest))
  }

  /** An unquoted field: everything up to the next comma or line feed. */
  function ParseBare(s: string): (r: (string, string))
    ensures |r.1| <= |s|
    ensures AtFieldEnd(r.1)
    ensures s == r.0 + r.1
    decreases |s|
  {
    if AtFieldEnd(s) then ([], s)
    else
      var (v, rest) := ParseBare(s[1..]);
      ([s[0]] + v, rest)
  }

  function ParseField(s: string): (r: Option<(string, string)>)
    ensures r.Some? ==> |r.value.1| <= |s|
  {
    if s != [] && s[0] == Quote then ParseQuoted(s[1..]) else Some(ParseBare(s))
  }

  /** The comma-separated fields of one record, up to a line feed or the end. */
  function ParseRecord(s: string): (r: Option<(seq<string>, string)>)
    ensures r.Some? ==> |r.value.1| <= |s| && (r.value.1 == [] || r.value.1[0] == LineFeed)
    decreases |s|
  {
    match ParseField(s)
    case None => None
    case Some((v, rest)) =>
      if rest != [] && rest[0] == Comma then
        match ParseRecord(rest[1..])
        case None => None
        case Some((fields, after)) => Some(([v] + fields, after))
      else if rest == [] || rest[0] == LineFeed then Some(([v], rest))
      else None
  }

  /** Every record of a document. */
  function ParseDocument(s: string): Option<seq<seq<string>>>
    decreases |s|
  {
    match ParseRecord(s)
    case None => None
    case Some((fields, rest)) =>
      if rest == [] then Some([fields])
      else
        match ParseDocument(rest[1..])
        case None => None
        case Some(records) => Some([fields] + records)
  }
}
