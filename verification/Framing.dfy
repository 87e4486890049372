/** Message framing checks on the raw header block and on parsed headers (sections 6.1 and 6.3 of
    RFC 9112; empty list elements as in section 5.6.1.2 of RFC 9110). One character is a byte. */
module Framing {
  import opened Options
  import opened Text
  import opened Words

  const MAX_EMPTY_ELEMENTS: nat := 8

  datatype Reason =
    | MissingRequestLine | FoldedLine | InvalidLine | InvalidName | InvalidContentLength
    | MultipleContentLength | Ambiguous | MultipleTransferEncoding
    | TooManyEmptyElements | UnsupportedCoding | NoCoding | ChunkedNotAllowed

  datatype Check = Ok | Err(reason: Reason)

  // ---- bytes ----

  predicate Is(name: string, expected: string) { Lowered(name) == expected }

  predicate Digits(s: string) { forall i | 0 <= i < |s| :: '0' <= s[i] <= '9' }

  function StripCr(s: string): string { if s != "" && s[|s| - 1] == '\r' then s[..|s| - 1] else s }

  function IndexOf(s: string, b: char): (i: nat)
    ensures i <= |s| && (i < |s| ==> s[i] == b) && forall j | 0 <= j < i :: s[j] != b
  {
    if s == "" || s[0] == b then 0 else 1 + IndexOf(s[1..], b)
  }

  // ---- the value of one header ----

  /** A content length is a nonempty run of digits. */
  predicate LengthOk(value: string) { value != "" && Digits(value) }

  function Empties(l: seq<string>): nat { if l == [] then 0 else (if l[0] == "" then 1 else 0) + Empties(l[1..]) }

  /** The list names one coding, chunked, among at most eight empty elements. */
  ghost predicate OnlyChunked(l: seq<string>) {
    Empties(l) <= 8 && OneChunked(l)
  }

  ghost predicate AllEmpty(l: seq<string>) { forall i | 0 <= i < |l| :: l[i] == "" }

  ghost predicate OneChunked(l: seq<string>) {
    exists i | 0 <= i < |l| :: Is(l[i], "chunked") && forall j | 0 <= j < |l| && j != i :: l[j] == ""
  }

  /** The coding loop: it stops at a bad element or reports whether it saw a coding. */
  datatype Codings = Stop(reason: Reason) | Saw(coding: bool)

  function ScanCodings(l: seq<string>, saw: bool, empties: nat): Codings {
    if l == [] then Saw(saw)
    else if l[0] == "" then
      if empties + 1 > MAX_EMPTY_ELEMENTS then Stop(TooManyEmptyElements) else ScanCodings(l[1..], saw, empties + 1)
    else if saw || !Is(l[0], "chunked") then Stop(UnsupportedCoding)
    else ScanCodings(l[1..], true, empties)
  }

  lemma AllEmptyFirst(l: seq<string>)
    requires l != []
    ensures AllEmpty(l) <==> l[0] == "" && AllEmpty(l[1..])
  {
    if AllEmpty(l[1..]) { assert forall i | 1 <= i < |l| :: l[i] == l[1..][i - 1]; }
  }

  lemma OneChunkedFirst(l: seq<string>)
    requires l != []
    ensures OneChunked(l) <==>
      (l[0] == "" && OneChunked(l[1..])) || (Is(l[0], "chunked") && AllEmpty(l[1..]))
  {
    assert |"chunked"| == 7 && |Lowered("")| == 0;
    if OneChunked(l) {
      var i :| 0 <= i < |l| && Is(l[i], "chunked") && forall j | 0 <= j < |l| && j != i :: l[j] == "";
      if i > 0 { assert Is(l[1..][i - 1], "chunked"); }
    }
    if l[0] == "" && OneChunked(l[1..]) {
      var i :| 0 <= i < |l[1..]| && Is(l[1..][i], "chunked")
               && forall j | 0 <= j < |l[1..]| && j != i :: l[1..][j] == "";
      assert Is(l[i + 1], "chunked");
      assert forall j | 1 <= j < |l| && j != i + 1 :: l[j] == l[1..][j - 1];
    }
    if Is(l[0], "chunked") && AllEmpty(l[1..]) { assert forall j | 1 <= j < |l| :: l[j] == l[1..][j - 1]; }
  }

  /** What the coding loop decides. */
  lemma {:induction false} CodingsMeaning(l: seq<string>, saw: bool, empties: nat)
    requires empties <= MAX_EMPTY_ELEMENTS
    ensures ScanCodings(l, saw, empties) == Saw(true) <==>
      empties + Empties(l) <= MAX_EMPTY_ELEMENTS && if saw then AllEmpty(l) else OneChunked(l)
    ensures ScanCodings(l, saw, empties) == Saw(false) <==>
      empties + |l| <= MAX_EMPTY_ELEMENTS && !saw && AllEmpty(l)
    decreases |l|
  {
    if l != [] {
      AllEmptyFirst(l);
      OneChunkedFirst(l);
      assert |"chunked"| == 7 && |Lowered("")| == 0;
      if l[0] == "" {
        if empties + 1 <= MAX_EMPTY_ELEMENTS { CodingsMeaning(l[1..], saw, empties + 1); }
      } else {
        CodingsMeaning(l[1..], true, empties);
      }
    }
  }

  /** The check on a transfer encoding accepts exactly a single chunked coding, and only when
      chunked bodies are allowed. */
  method ValidateTransferEncoding(value: string, allowChunked: bool) returns (r: Check)
    ensures r == Ok <==> allowChunked && OnlyChunked(Elements(value))
    ensures r == Err(ChunkedNotAllowed) <==> !allowChunked && OnlyChunked(Elements(value))
    ensures r == Err(NoCoding) <==> AllEmpty(Elements(value)) && |Elements(value)| <= MAX_EMPTY_ELEMENTS
    ensures ScanCodings(Elements(value), false, 0).Stop? ==> r == Err(ScanCodings(Elements(value), false, 0).reason)
  {
    var codings := Elements(value);
    CodingsMeaning(codings, false, 0);
    var sawCoding, empties, i := false, 0, 0;
    while i < |codings|
      invariant 0 <= i <= |codings|
      invariant ScanCodings(codings, false, 0) == ScanCodings(codings[i..], sawCoding, empties)
    {
      assert codings[i..][1..] == codings[i + 1..];
      if codings[i] == "" {
        empties := empties + 1;
        if empties > MAX_EMPTY_ELEMENTS {
          return Err(TooManyEmptyElements);
        }
      } else {
        if sawCoding || !Is(codings[i], "chunked") {
          return Err(UnsupportedCoding);
        }
        sawCoding := true;
      }
      i := i + 1;
    }
    if !sawCoding {
      return Err(NoCoding);
    }
    if !allowChunked {
      return Err(ChunkedNotAllowed);
    }
    return Ok;
  }

  // ---- header fields ----

  datatype Field = Field(name: string, value: string)

  predicate IsLength(f: Field) { Is(f.name, "content-length") }
  predicate IsEncoding(f: Field) { Is(f.name, "transfer-encoding") }

  function Lengths(fields: seq<Field>): seq<string> {
    if fields == [] then []
    else (if IsLength(fields[0]) then [fields[0].value] else []) + Lengths(fields[1..])
  }

  function Encodings(fields: seq<Field>): seq<string> {
    if fields == [] then []
    else (if IsEncoding(fields[0]) then [fields[0].value] else []) + Encodings(fields[1..])
  }

  /** How a message body is delimited. */
  datatype Body = NoBody | Sized(digits: string) | Chunked

  /** The framing the fields give the message, if they give it exactly one. */
  ghost function BodyOf(fields: seq<Field>, allowChunked: bool): Option<Body> {
    if Lengths(fields) == [] && Encodings(fields) == [] then Some(NoBody)
    else if |Lengths(fields)| == 1 && Encodings(fields) == [] && LengthOk(Lengths(fields)[0])
        then Some(Sized(Lengths(fields)[0]))
    else if Lengths(fields) == [] && |Encodings(fields)| == 1 && allowChunked
        && OnlyChunked(Elements(Encodings(fields)[0]))
      then Some(Chunked)
    else None
  }

  lemma NotBoth(f: Field)
    ensures !(IsLength(f) && IsEncoding(f))
  {
    assert |"content-length"| == 14 && |"transfer-encoding"| == 17;
  }

  // ---- the same framing, by positions ----

  ghost predicate Length(f: Field) { Lowered(f.name) == "content-length" }
  ghost predicate Encoding(f: Field) { Lowered(f.name) == "transfer-encoding" }

  /** At most the i-th field has to do with framing. */
  ghost predicate OnlyAt(fields: seq<Field>, i: nat) {
    i < |fields| && forall j | 0 <= j < |fields| && j != i :: !Length(fields[j]) && !Encoding(fields[j])
  }

  lemma {:induction false} NoneFramed(fields: seq<Field>)
    ensures Lengths(fields) == [] && Encodings(fields) == [] <==>
      forall i | 0 <= i < |fields| :: !Length(fields[i]) && !Encoding(fields[i])
  {
    if fields != [] {
      NoneFramed(fields[1..]);
      hide Lowered;
      assert forall i | 1 <= i < |fields| :: fields[i] == fields[1..][i - 1];
    }
  }

  lemma {:induction false} OneFramed(fields: seq<Field>, i: nat)
    requires OnlyAt(fields, i)
    ensures Lengths(fields) == (if Length(fields[i]) then [fields[i].value] else [])
    ensures Encodings(fields) == (if Encoding(fields[i]) then [fields[i].value] else [])
  {
    var rest := fields[1..];
    hide Lowered;
    assert forall j | 1 <= j < |fields| :: fields[j] == rest[j - 1];
    if i == 0 { NoneFramed(rest); } else { OneFramed(rest, i - 1); }
  }

  lemma {:induction false} FindFramed(fields: seq<Field>) returns (i: nat)
    requires |Lengths(fields)| + |Encodings(fields)| == 1
    ensures OnlyAt(fields, i)
  {
    var rest := fields[1..];
    NotBoth(fields[0]);
    hide Lowered;
    assert forall j | 1 <= j < |fields| :: fields[j] == rest[j - 1];
    if Length(fields[0]) || Encoding(fields[0]) {
      NoneFramed(rest);
      i := 0;
    } else {
      i := FindFramed(rest);
      i := i + 1;
    }
  }

  /** The framing of a message: none without framing fields; a size for a single one, when it is a
      content length of digits; chunked for a single one, when it is a transfer encoding naming just
      that and chunked bodies are allowed. */
  lemma BodyExactly(fields: seq<Field>, allowChunked: bool, digits: string)
    ensures var body := BodyOf(fields, allowChunked);
      && (body == Some(NoBody) <==> forall i | 0 <= i < |fields| :: !Length(fields[i]) && !Encoding(fields[i]))
      && (body == Some(Sized(digits)) <==>
          exists i: nat :: OnlyAt(fields, i) && Length(fields[i]) && fields[i].value == digits && LengthOk(digits))
      && (body == Some(Chunked) <==>
          exists i: nat ::
            OnlyAt(fields, i) && Encoding(fields[i]) && allowChunked && OnlyChunked(Elements(fields[i].value)))
  {
    NoneFramed(fields);
    hide LengthOk, OnlyChunked, Elements;
    forall i: nat | OnlyAt(fields, i)
      ensures Lengths(fields) == (if Length(fields[i]) then [fields[i].value] else [])
      ensures Encodings(fields) == (if Encoding(fields[i]) then [fields[i].value] else [])
      ensures !(Length(fields[i]) && Encoding(fields[i]))
    {
      OneFramed(fields, i);
      NotBoth(fields[i]);
    }
    hide Lengths, Encodings, OnlyAt;
    if |Lengths(fields)| + |Encodings(fields)| == 1 {
      var i := FindFramed(fields);
    }
  }

  /** One header line: its field, or what is wrong with it. */
  datatype Line = Good(field: Field) | Bad(reason: Reason)

  function ParseLine(line: string): Line
    requires line != ""
  {
    if Space(line[0]) then Bad(FoldedLine)
    else
      var colon := IndexOf(line, ':');
      if colon == |line| then Bad(InvalidLine)
      else if !ValidName(line[..colon]) then Bad(InvalidName)
      else Good(Field(line[..colon], Trim(line[colon + 1..])))
  }

  /** The fields of the lines up to the first blank one, unless a line is bad. */
  function Fields(lines: seq<string>): Option<seq<Field>> {
    if lines == [] || StripCr(lines[0]) == "" then Some([])
    else
      match ParseLine(StripCr(lines[0]))
      case Bad(_) => None
      case Good(f) =>
        match Fields(lines[1..])
        case None => None
        case Some(rest) => Some([f] + rest)
  }

  // ---- what a header line is, position by position ----

  /** A line with nothing on it, which ends the header. */
  predicate Empty(raw: string) { raw == "" || raw == "\r" }

  /** Where the content of a line ends: at a trailing carriage return, if there is one. */
  function ContentEnd(raw: string): nat {
    if |raw| > 0 && raw[|raw| - 1] == '\r' then |raw| - 1 else |raw|
  }

  /** The line has a colon at `c`, after one or more bytes that are all token characters. */
  ghost predicate NamedUpTo(raw: string, c: nat) {
    0 < c < ContentEnd(raw) && raw[c] == ':' && forall j | 0 <= j < c :: TokenChar(raw[j])
  }

  /** The line is the field's name, a colon, and the field's value between blanks. */
  ghost predicate Holds(raw: string, f: Field) {
    var c := |f.name|;
    NamedUpTo(raw, c) && f.name == raw[..c] && f.value == Trim(raw[c + 1..ContentEnd(raw)])
  }

  /** The fields are those of the lines before the first empty one, in order. */
  ghost predicate FieldsAre(lines: seq<string>, fields: seq<Field>) {
    && |fields| <= |lines| && (|fields| < |lines| ==> Empty(lines[|fields|]))
    && forall i | 0 <= i < |fields| :: !Empty(lines[i]) && Holds(lines[i], fields[i])
  }

  ghost predicate Named(raw: string) { exists c: nat :: NamedUpTo(raw, c) }

  /** None of the lines up to the i-th is empty. */
  ghost predicate InHead(lines: seq<string>, i: nat) {
    i < |lines| && forall j | 0 <= j <= i :: !Empty(lines[j])
  }

  /** Every line before the first empty one has a name and a colon. */
  ghost predicate AllNamed(lines: seq<string>) {
    forall i: nat | InHead(lines, i) :: Named(lines[i])
  }

  lemma StripMeaning(raw: string)
    ensures StripCr(raw) == raw[..ContentEnd(raw)] && (StripCr(raw) == "" <==> Empty(raw))
  {
  }

  lemma FirstColon(raw: string, c: nat)
    requires NamedUpTo(raw, c)
    ensures IndexOf(StripCr(raw), ':') == c && !Empty(raw)
  {
    StripMeaning(raw);
    var line := StripCr(raw);
    assert line[c] == ':' && forall j | 0 <= j < c :: line[j] == raw[j] && TokenChar(raw[j]);
  }

  lemma GoodLine(raw: string)
    requires !Empty(raw) && ParseLine(StripCr(raw)).Good?
    ensures Holds(raw, ParseLine(StripCr(raw)).field)
  {
    StripMeaning(raw);
    var line, end := StripCr(raw), ContentEnd(raw);
    var c := IndexOf(line, ':');
    assert raw[..c] == line[..c] && raw[c + 1..end] == line[c + 1..];
    assert forall j | 0 <= j < c :: raw[j] == line[..c][j];
  }

  lemma NamedLine(raw: string, c: nat)
    requires NamedUpTo(raw, c)
    ensures !Empty(raw) && ParseLine(StripCr(raw)) == Good(Field(raw[..c], Trim(raw[c + 1..ContentEnd(raw)])))
  {
    FirstColon(raw, c);
    StripMeaning(raw);
    hide Trim, IndexOf;
    var line, end := StripCr(raw), ContentEnd(raw);
    assert raw[..c] == line[..c] && raw[c + 1..end] == line[c + 1..];
    assert line[0] == raw[0] && TokenChar(raw[0]);
  }

  /** A line is a field exactly when it has a name and a colon, and then the field is the bytes before
      that colon and the trimmed bytes after it. */
  lemma LineMeaning(raw: string, f: Field)
    requires !Empty(raw)
    ensures ParseLine(StripCr(raw)) == Good(f) <==> Holds(raw, f)
    ensures ParseLine(StripCr(raw)).Good? <==> Named(raw)
  {
    StripMeaning(raw);
    if Holds(raw, f) { NamedLine(raw, |f.name|); }
    if ParseLine(StripCr(raw)).Good? { GoodLine(raw); }
    hide ParseLine, Trim, ContentEnd, StripCr;
    if Named(raw) {
      var c: nat :| NamedUpTo(raw, c);
      NamedLine(raw, c);
    }
  }

  /** What is wrong with any other line: a leading blank, else no colon at all, else its name. */
  lemma BadLine(raw: string)
    requires !Empty(raw) && !Named(raw)
    ensures ParseLine(StripCr(raw)) == Bad(
      if raw[0] == ' ' || raw[0] == '\t' then FoldedLine
      else if ':' !in raw[..ContentEnd(raw)] then InvalidLine
      else InvalidName)
  {
    StripMeaning(raw);
    LineMeaning(raw, Field("", ""));
  }

  /** The fields of a header are read off its lines exactly. */
  lemma {:induction false} FieldsMeaning(lines: seq<string>, fields: seq<Field>)
    ensures Fields(lines) == Some(fields) <==> FieldsAre(lines, fields)
  {
    hide ParseLine, Holds, StripCr, Empty;
    if lines != [] {
      StripMeaning(lines[0]);
      if !Empty(lines[0]) && fields != [] {
        LineMeaning(lines[0], fields[0]);
        FieldsMeaning(lines[1..], fields[1..]);
        FieldsFirst(lines, fields);
        hide FieldsAre, Named;
        assert fields == [fields[0]] + fields[1..];
      }
    }
  }

  lemma FieldsFirst(lines: seq<string>, fields: seq<Field>)
    requires lines != [] && fields != []
    ensures FieldsAre(lines, fields) <==>
      !Empty(lines[0]) && Holds(lines[0], fields[0]) && FieldsAre(lines[1..], fields[1..])
  {
    hide Holds, Empty;
    if !Empty(lines[0]) && Holds(lines[0], fields[0]) && FieldsAre(lines[1..], fields[1..]) {
      forall i | 0 <= i < |fields| ensures !Empty(lines[i]) && Holds(lines[i], fields[i]) {
        if i > 0 { assert lines[i] == lines[1..][i - 1] && fields[i] == fields[1..][i - 1]; }
      }
    }
  }

  /** A header has fields exactly when every line before the first empty one has a name and a colon. */
  lemma {:induction false} FieldsExactly(lines: seq<string>)
    ensures Fields(lines).Some? <==> AllNamed(lines)
  {
    hide ParseLine, StripCr, Empty, Named;
    if lines != [] {
      StripMeaning(lines[0]);
      if !Empty(lines[0]) {
        LineMeaning(lines[0], Field("", ""));
        FieldsExactly(lines[1..]);
        NamedFirst(lines);
        hide AllNamed;
      }
    }
  }

  lemma NamedFirst(lines: seq<string>)
    requires lines != [] && !Empty(lines[0])
    ensures AllNamed(lines) <==> Named(lines[0]) && AllNamed(lines[1..])
  {
    hide Empty, Named;
    var rest := lines[1..];
    if AllNamed(lines) {
      assert InHead(lines, 0);
      forall i: nat | InHead(rest, i) ensures Named(rest[i]) {
        assert forall j | 1 <= j <= i + 1 :: lines[j] == rest[j - 1];
        assert InHead(lines, i + 1);
      }
    }
    if Named(lines[0]) && AllNamed(rest) {
      forall i: nat | InHead(lines, i) ensures Named(lines[i]) {
        if i > 0 {
          assert forall j | 0 <= j <= i - 1 :: rest[j] == lines[j + 1];
          assert InHead(rest, i - 1);
        }
      }
    }
  }

  /** Names compare without regard to letter case: the same length, and each byte the expected one or,
      for a letter, its capital 32 places before. */
  lemma CaseInsensitive(name: string, expected: string)
    ensures Is(name, expected) <==>
      && |name| == |expected|
      && forall i | 0 <= i < |name| ::
           if 'a' <= expected[i] <= 'z' then name[i] == expected[i] || name[i] as int == expected[i] as int - 32
           else name[i] == expected[i] && !('A' <= expected[i] <= 'Z')
  {
    assert Is(name, expected) ==> forall i | 0 <= i < |name| :: Lowered(name)[i] == expected[i];
    if |name| == |expected| && forall i | 0 <= i < |name| :: LowerChar(name[i]) == expected[i] {
      assert Lowered(name) == expected;
    }
  }

  /** ASCII white space: blanks, line breaks and form feed. */
  predicate White(b: char) { b == ' ' || b == '\t' || b == '\n' || b == '\r' || b == '\U{0c}' }

  predicate Blank(s: string) { forall i | 0 <= i < |s| :: White(s[i]) }

  // ---- the raw check ----

  /** The counters of the header loop. */
  datatype Tally = Tally(lengths: nat, encodings: nat, encoding: Option<string>)

  function Tallied(t: Tally, f: Field): Tally {
    if IsLength(f) then t.(lengths := t.lengths + 1)
    else if IsEncoding(f) then Tally(t.lengths, t.encodings + 1, Some(f.value))
    else t
  }

  /** The header loop: either it stops at a bad line or length, or it hands over its counters. */
  datatype Loop = Stopped(reason: Reason) | Finished(tally: Tally)

  function ScanLine(line: string, t: Tally): Loop
    requires line != ""
  {
    match ParseLine(line)
    case Bad(reason) => Stopped(reason)
    case Good(f) => if IsLength(f) && !LengthOk(f.value) then Stopped(InvalidContentLength) else Finished(Tallied(t, f))
  }

  function ScanLines(lines: seq<string>, t: Tally): Loop {
    if lines == [] || StripCr(lines[0]) == "" then Finished(t)
    else
      var one := ScanLine(StripCr(lines[0]), t);
      if one.Stopped? then one else ScanLines(lines[1..], one.tally)
  }

  function TallyAll(t: Tally, fields: seq<Field>): Tally
    decreases |fields|
  {
    if fields == [] then t else TallyAll(Tallied(t, fields[0]), fields[1..])
  }

  lemma {:induction false} TallyMeaning(t: Tally, fields: seq<Field>)
    ensures var r, e := TallyAll(t, fields), Encodings(fields);
      && r.lengths == t.lengths + |Lengths(fields)|
      && r.encodings == t.encodings + |e|
      && r.encoding == if e == [] then t.encoding else Some(e[|e| - 1])
    decreases |fields|
  {
    if fields != [] {
      NotBoth(fields[0]);
      TallyMeaning(Tallied(t, fields[0]), fields[1..]);
    }
  }

  lemma {:induction false} ScanFields(lines: seq<string>, t: Tally)
    ensures ScanLines(lines, t).Finished? <==>
      Fields(lines).Some? && LengthsOk(Fields(lines).value)
    ensures ScanLines(lines, t).Finished? ==> ScanLines(lines, t).tally == TallyAll(t, Fields(lines).value)
  {
    if lines != [] && StripCr(lines[0]) != "" {
      var line := ParseLine(StripCr(lines[0]));
      if line.Good? {
        var f := line.field;
        ScanFields(lines[1..], Tallied(t, f));
        if Fields(lines[1..]).Some? {
          var rest := Fields(lines[1..]).value;
          assert ([f] + rest)[1..] == rest;
          var all := Lengths([f] + rest);
          assert all == (if IsLength(f) then [f.value] else []) + Lengths(rest);
          if IsLength(f) {
            assert all[0] == f.value;
            forall i | 0 <= i < |Lengths(rest)| ensures Lengths(rest)[i] == all[i + 1] {
            }
          } else {
            assert all == Lengths(rest);
          }
        }
      }
    }
  }

  /** The loop finishes exactly when every line up to the empty one is a field and every content
      length is all digits, and then it has counted those fields. */
  lemma ScanMeaning(lines: seq<string>, t: Tally)
    ensures ScanLines(lines, t).Finished? <==> exists fields :: FieldsAre(lines, fields) && LengthsOk(fields)
    ensures forall fields | FieldsAre(lines, fields) && LengthsOk(fields) ::
      ScanLines(lines, t) == Finished(TallyAll(t, fields))
  {
    hide Fields, FieldsAre, ScanLines, LengthsOk;
    ScanFields(lines, t);
    forall fields ensures Fields(lines) == Some(fields) <==> FieldsAre(lines, fields) {
      FieldsMeaning(lines, fields);
    }
  }

  /** What is left to decide once the loop has counted. */
  ghost predicate Settles(t: Tally, allowChunked: bool) {
    && t.lengths <= 1
    && (t.encodings == 0 || (t.lengths == 0 && t.encodings == 1 && t.encoding.Some? && allowChunked
                             && OnlyChunked(Elements(t.encoding.value))))
  }

  const START := Tally(0, 0, None)

  ghost predicate LengthsOk(fields: seq<Field>) {
    forall i | 0 <= i < |Lengths(fields)| :: LengthOk(Lengths(fields)[i])
  }

  lemma BodyMeaning(fields: seq<Field>, allowChunked: bool)
    ensures BodyOf(fields, allowChunked).Some? <==> LengthsOk(fields) && Settles(TallyAll(START, fields), allowChunked)
    ensures TallyAll(START, fields).encodings >= 1 ==> TallyAll(START, fields).encoding.Some?
  {
    TallyMeaning(START, fields);
  }

  lemma RawMeaning(lines: seq<string>, allowChunked: bool)
    ensures var loop := ScanLines(lines, START);
      && (loop.Finished? && Settles(loop.tally, allowChunked)
          <==> Fields(lines).Some? && BodyOf(Fields(lines).value, allowChunked).Some?)
      && (loop.Finished? && loop.tally.encodings == 1 ==> loop.tally.encoding.Some?)
  {
    ScanFields(lines, START);
    if Fields(lines).Some? {
      BodyMeaning(Fields(lines).value, allowChunked);
    }
  }

  lemma RawExists(lines: seq<string>, allowChunked: bool)
    ensures Fields(lines).Some? && BodyOf(Fields(lines).value, allowChunked).Some? <==>
      exists fields :: FieldsAre(lines, fields) && BodyOf(fields, allowChunked).Some?
  {
    hide Fields, BodyOf, FieldsAre;
    forall fields ensures Fields(lines) == Some(fields) <==> FieldsAre(lines, fields) {
      FieldsMeaning(lines, fields);
    }
  }

  lemma ScanStep(lines: seq<string>, i: nat, t: Tally)
    requires i <= |lines|
    ensures i == |lines| || StripCr(lines[i]) == "" ==> ScanLines(lines[i..], t) == Finished(t)
    ensures i < |lines| && StripCr(lines[i]) != "" ==>
      var one := ScanLine(StripCr(lines[i]), t);
      ScanLines(lines[i..], t) == if one.Stopped? then one else ScanLines(lines[i + 1..], one.tally)
  {
    if i < |lines| { assert lines[i..][1..] == lines[i + 1..]; }
  }

  /** The loop over the header lines of a block. */
  method CountFraming(lines: seq<string>) returns (loop: Loop)
    ensures loop == ScanLines(lines, START)
  {
    hide ScanLines, ParseLine, LengthOk, StripCr, Is;
    var lengths, encodings, encoding := 0, 0, None;
    var i := 0;
    assert lines[0..] == lines;
    while i < |lines|
      invariant 0 <= i <= |lines|
      invariant ScanLines(lines, START) == ScanLines(lines[i..], Tally(lengths, encodings, encoding))
    {
      var line := StripCr(lines[i]);
      ScanStep(lines, i, Tally(lengths, encodings, encoding));
      if line == "" {
        return Finished(Tally(lengths, encodings, encoding));
      }
      var parsed := ParseLine(line);
      if parsed.Bad? {
        return Stopped(parsed.reason);
      }
      if IsLength(parsed.field) {
        lengths := lengths + 1;
        if !LengthOk(parsed.field.value) {
          return Stopped(InvalidContentLength);
        }
      } else if IsEncoding(parsed.field) {
        encodings := encodings + 1;
        encoding := Some(parsed.field.value);
      }
      i := i + 1;
    }
    ScanStep(lines, i, Tally(lengths, encodings, encoding));
    return Finished(Tally(lengths, encodings, encoding));
  }

  /** The raw check on a header block accepts exactly the blocks with a request line, then lines that
      are fields up to an empty one, and a single body framing. */
  method ValidateRaw(block: string, allowChunked: bool) returns (r: Check)
    ensures r == Ok <==>
      var lines := SplitOn(block, '\n');
      && !Blank(lines[0])
      && exists fields :: FieldsAre(lines[1..], fields) && BodyOf(fields, allowChunked).Some?
    ensures Blank(SplitOn(block, '\n')[0]) ==> r == Err(MissingRequestLine)
    ensures var lines := SplitOn(block, '\n'); var loop := ScanLines(lines[1..], START);
      !Blank(lines[0]) && loop.Stopped? ==> r == Err(loop.reason)
  {
    hide ScanLines, Fields, BodyOf, SplitOn, Elements, ScanCodings, OnlyChunked, AllEmpty;
    var lines := SplitOn(block, '\n');
    if Blank(lines[0]) {
      return Err(MissingRequestLine);
    }
    RawMeaning(lines[1..], allowChunked);
    RawExists(lines[1..], allowChunked);
    var loop := CountFraming(lines[1..]);
    if loop.Stopped? {
      return Err(loop.reason);
    }
    var t := loop.tally;
    if t.lengths > 1 {
      return Err(MultipleContentLength);
    }
    if t.encodings == 0 {
      return Ok;
    }
    if t.lengths > 0 {
      return Err(Ambiguous);
    }
    if t.encodings > 1 {
      return Err(MultipleTransferEncoding);
    }
    r := ValidateTransferEncoding(t.encoding.value, allowChunked);
  }

  // ---- the parsed check ----

  function Number(digits: string): nat
    requires Digits(digits)
  {
    if digits == "" then 0 else 10 * Number(digits[..|digits| - 1]) + (digits[|digits| - 1] - '0') as nat
  }

  /** A content length the parsed check accepts also fits in 64 bits. */
  predicate Fits(value: string) { LengthOk(value) && Number(value) <= U64_MAX }

  /** The fields as the parsed check reads them: with blanks trimmed off the content lengths. */
  function TrimLengths(fields: seq<Field>): (r: seq<Field>)
    ensures |r| == |fields|
  {
    seq(|fields|, i requires 0 <= i < |fields| =>
      if IsLength(fields[i]) then Field(fields[i].name, Trim(fields[i].value)) else fields[i])
  }

  lemma {:induction false} LengthsTrimmed(fields: seq<Field>)
    ensures Lengths(TrimLengths(fields)) == Trimmed(Lengths(fields))
    ensures Encodings(TrimLengths(fields)) == Encodings(fields)
  {
    if fields != [] {
      hide Trim, Is;
      NotBoth(fields[0]);
      LengthsTrimmed(fields[1..]);
      assert TrimLengths(fields)[1..] == TrimLengths(fields[1..]);
      assert Lengths(TrimLengths(fields)) == Trimmed(Lengths(fields));
    }
  }

  /** The check on parsed header fields. */
  method ValidateParsed(fields: seq<Field>, allowChunked: bool) returns (r: Check)
    ensures var body := BodyOf(TrimLengths(fields), allowChunked);
      r == Ok <==> body.Some? && (body.value.Sized? ==> Fits(body.value.digits))
  {
    LengthsTrimmed(fields);
    hide Number, OnlyChunked, Elements;
    var lengths := Lengths(fields);
    if |lengths| > 1 {
      return Err(MultipleContentLength);
    }
    if |lengths| == 1 && !Fits(Trim(lengths[0])) {
      return Err(InvalidContentLength);
    }
    var encodings := Encodings(fields);
    if encodings == [] {
      return Ok;
    }
    if lengths != [] {
      return Err(Ambiguous);
    }
    if |encodings| > 1 {
      return Err(MultipleTransferEncoding);
    }
    r := ValidateTransferEncoding(encodings[0], allowChunked);
  }

  // ---- the two checks see the same message ----

  /** A header block as it is sent: request line, one line per field, blank line. */
  function Render(request: string, fields: seq<Field>): string { request + "\r\n" + RenderFields(fields) }

  function RenderFields(fields: seq<Field>): string {
    if fields == [] then "\r\n"
    else fields[0].name + ":" + fields[0].value + "\r\n" + RenderFields(fields[1..])
  }

  /** Values without line breaks, under valid names. */
  ghost predicate WellNamed(fields: seq<Field>) {
    forall i | 0 <= i < |fields| :: ValidName(fields[i].name) && '\r' !in fields[i].value && '\n' !in fields[i].value
  }

  /** What a parser hands over: the same fields with blanks trimmed off the values. */
  function Parsed(fields: seq<Field>): (r: seq<Field>)
    ensures |r| == |fields|
  {
    seq(|fields|, i requires 0 <= i < |fields| => Field(fields[i].name, Trim(fields[i].value)))
  }

  lemma NameFacts(name: string, value: string)
    requires ValidName(name)
    ensures var line := name + ":" + value;
      && !Space(line[0]) && IndexOf(line, ':') == |name| && line[..|name|] == name && line[|name| + 1..] == value
    ensures '\n' !in name
  {
    var line := name + ":" + value;
    assert forall i | 0 <= i < |name| :: line[i] == name[i] && TokenChar(name[i]);
    assert line[|name|] == ':';
  }

  lemma RenderedLine(f: Field, rest: string)
    requires ValidName(f.name) && '\r' !in f.value && '\n' !in f.value
    ensures var line := f.name + ":" + f.value;
      && SplitOn(line + "\r\n" + rest, '\n') == [line + "\r"] + SplitOn(rest, '\n')
      && line != "" && StripCr(line + "\r") == line && ParseLine(line) == Good(Field(f.name, Trim(f.value)))
  {
    var line := f.name + ":" + f.value;
    NameFacts(f.name, f.value);
    assert line + "\r\n" + rest == (line + "\r") + ['\n'] + rest;
    SplitFirst(line + "\r", rest, '\n');
    assert StripCr(line + "\r") == line;
  }

  lemma RenderedEnd()
    ensures Fields(SplitOn("\r\n", '\n')) == Some([])
  {
    assert "\r\n" == "\r" + ['\n'] + "";
    SplitFirst("\r", "", '\n');
    assert StripCr("\r") == "";
  }

  lemma {:induction false} RenderedFields(fields: seq<Field>)
    requires WellNamed(fields)
    ensures Fields(SplitOn(RenderFields(fields), '\n')) == Some(Parsed(fields))
  {
    hide SplitOn, ParseLine, StripCr, Trim;
    if fields == [] {
      RenderedEnd();
    } else {
      var f := fields[0];
      RenderedFields(fields[1..]);
      RenderedLine(f, RenderFields(fields[1..]));
      var lines := SplitOn(RenderFields(fields), '\n');
      assert lines[0] == f.name + ":" + f.value + "\r";
      assert lines[1..] == SplitOn(RenderFields(fields[1..]), '\n');
      assert Parsed(fields) == [Field(f.name, Trim(f.value))] + Parsed(fields[1..]);
    }
  }

  lemma ParsedTrimmed(fields: seq<Field>)
    ensures TrimLengths(Parsed(fields)) == Parsed(fields)
  {
    hide Trim, Is;
    forall i | 0 <= i < |fields| ensures TrimLengths(Parsed(fields))[i] == Parsed(fields)[i] {
      TrimTwice(fields[i].value);
    }
  }

  lemma RenderedRequest(request: string, fields: seq<Field>)
    requires !Blank(request) && '\n' !in request
    ensures var lines := SplitOn(Render(request, fields), '\n');
      !Blank(lines[0]) && lines[1..] == SplitOn(RenderFields(fields), '\n')
  {
    assert Render(request, fields) == (request + "\r") + ['\n'] + RenderFields(fields);
    SplitFirst(request + "\r", RenderFields(fields), '\n');
    hide RenderFields, SplitOn;
    var lines := SplitOn(Render(request, fields), '\n');
    var i :| 0 <= i < |request| && !White(request[i]);
    assert lines[0][i] == request[i];
  }

  /** Raw and parsed checks accept the same well-named header lists, except that the raw check
      also accepts a single content length too long for 64 bits. */
  method BothChecks(request: string, fields: seq<Field>, allowChunked: bool) returns (raw: Check, parsed: Check)
    requires !Blank(request) && '\n' !in request && WellNamed(fields)
    ensures parsed == Ok ==> raw == Ok
    ensures raw == Ok && parsed != Ok <==>
      && BodyOf(Parsed(fields), allowChunked).Some? && BodyOf(Parsed(fields), allowChunked).value.Sized?
      && Number(BodyOf(Parsed(fields), allowChunked).value.digits) >= 0x1_0000_0000_0000_0000
  {
    RenderedRequest(request, fields);
    RenderedFields(fields);
    RawExists(SplitOn(RenderFields(fields), '\n'), allowChunked);
    ParsedTrimmed(fields);
    SizedDigits(Parsed(fields), allowChunked);
    hide Render, SplitOn, Blank, Fields, FieldsAre, BodyOf, Number, WellNamed, Parsed, ScanLines;
    raw := ValidateRaw(Render(request, fields), allowChunked);
    parsed := ValidateParsed(Parsed(fields), allowChunked);
  }

  lemma SizedDigits(fields: seq<Field>, allowChunked: bool)
    ensures var body := BodyOf(fields, allowChunked); body.Some? && body.value.Sized? ==> LengthOk(body.value.digits)
  {
  }

  function Zeros(n: nat): (s: string)
    ensures |s| == n && forall i | 0 <= i < n :: s[i] == '0'
  {
    seq(n, i => '0')
  }

  function PowerOfTen(n: nat): nat { if n == 0 then 1 else 10 * PowerOfTen(n - 1) }

  lemma {:induction false} ZerosMultiply(n: nat)
    ensures Digits("1" + Zeros(n)) && Number("1" + Zeros(n)) == PowerOfTen(n)
  {
    var s := "1" + Zeros(n);
    assert forall i | 0 <= i < |s| :: s[i] == if i == 0 then '1' else '0';
    if n == 0 {
      assert s[..0] == "";
    } else {
      ZerosMultiply(n - 1);
      assert s[..|s| - 1] == "1" + Zeros(n - 1);
    }
  }

  lemma FiveMore(n: nat)
    ensures PowerOfTen(n + 5) == 100000 * PowerOfTen(n)
  {
    assert PowerOfTen(n + 3) == 1000 * PowerOfTen(n) by { assert PowerOfTen(n + 2) == 100 * PowerOfTen(n); }
    assert PowerOfTen(n + 5) == 100 * PowerOfTen(n + 3);
  }

  lemma {:induction false} PowersGrow(n: nat)
    requires n >= 20
    ensures PowerOfTen(n) > U64_MAX
  {
    if n == 20 {
      FiveMore(0);
      FiveMore(5);
      FiveMore(10);
      FiveMore(15);
    } else {
      PowersGrow(n - 1);
    }
  }

  /** A content length of one and n zeros. */
  function LongLength(n: nat): Field { Field("content-length", "1" + Zeros(n)) }

  lemma OnlyLength(f: Field)
    requires IsLength(f)
    ensures Lengths([f]) == [f.value] && Encodings([f]) == []
  {
    NotBoth(f);
    hide Is;
    assert [f][1..] == [];
  }

  lemma LongLengthFacts(n: nat, allowChunked: bool)
    requires n >= 20
    ensures var fields := [LongLength(n)]; var body := BodyOf(Parsed(fields), allowChunked);
      WellNamed(fields) && body == Some(Sized(fields[0].value)) && Number(fields[0].value) > U64_MAX
  {
    var f := LongLength(n);
    ZerosMultiply(n);
    PowersGrow(n);
    assert Lowered(f.name) == "content-length";
    NotBoth(f);
    assert Trim(f.value) == f.value;
    assert Parsed([f]) == [f];
    assert forall i | 0 <= i < |f.value| :: f.value[i] == '1' || f.value[i] == '0';
    OnlyLength(f);
  }

  /** The two checks do differ: on every request whose only header is a content length of one and
      twenty or more zeros. */
  method ChecksDiffer(request: string, n: nat, allowChunked: bool) returns (raw: Check, parsed: Check)
    requires !Blank(request) && '\n' !in request && n >= 20
    ensures raw == Ok && parsed != Ok
  {
    LongLengthFacts(n, allowChunked);
    raw, parsed := BothChecks(request, [LongLength(n)], allowChunked);
  }
}
