/** Byte strings, one character per byte: splitting, joining and letter case. */
module Text {

  /** None of the pieces holds the separator. */
  ghost predicate Free(l: seq<string>, sep: char) { forall i | 0 <= i < |l| :: sep !in l[i] }

  function SplitOn(s: string, sep: char): (r: seq<string>)
    ensures |r| >= 1 && Free(r, sep)
  {
    if s == "" then [""]
    else
      var rest := SplitOn(s[1..], sep);
      if s[0] == sep then [""] + rest else [[s[0]] + rest[0]] + rest[1..]
  }

  function JoinOn(l: seq<string>, sep: char): string
    requires l != []
  {
    if |l| == 1 then l[0] else l[0] + [sep] + JoinOn(l[1..], sep)
  }

  lemma {:induction false} SplitPrepend(x: string, s: string, sep: char)
    requires sep !in x
    ensures SplitOn(x + s, sep) == [x + SplitOn(s, sep)[0]] + SplitOn(s, sep)[1..]
  {
    var rest := SplitOn(s, sep);
    if x == "" {
      assert x + s == s;
      assert x + rest[0] == rest[0];
    } else {
      assert (x + s)[1..] == x[1..] + s;
      SplitPrepend(x[1..], s, sep);
      assert [x[0]] + (x[1..] + rest[0]) == x + rest[0];
    }
  }

  /** A piece, the separator, and then the rest. */
  lemma SplitFirst(x: string, s: string, sep: char)
    requires sep !in x
    ensures SplitOn(x + [sep] + s, sep) == [x] + SplitOn(s, sep)
  {
    var rest := [sep] + s;
    assert x + [sep] + s == x + rest;
    assert rest[1..] == s;
    SplitPrepend(x, rest, sep);
    assert x + "" == x;
  }

  /** Joining pieces and splitting again gives the pieces back. */
  lemma {:induction false} SplitJoin(l: seq<string>, sep: char)
    requires l != [] && Free(l, sep)
    ensures SplitOn(JoinOn(l, sep), sep) == l
  {
    if |l| == 1 {
      SplitPrepend(l[0], "", sep);
      assert l[0] + "" == l[0];
    } else {
      SplitJoin(l[1..], sep);
      SplitFirst(l[0], JoinOn(l[1..], sep), sep);
    }
  }

  lemma {:induction false} JoinAppend(l: seq<string>, x: string, sep: char)
    requires l != []
    ensures JoinOn(l + [x], sep) == JoinOn(l, sep) + [sep] + x
  {
    if |l| > 1 {
      assert (l + [x])[1..] == l[1..] + [x];
      JoinAppend(l[1..], x, sep);
    }
  }

  /** Splitting at a separator commutes with concatenation around one. */
  lemma {:induction false} SplitAround(a: string, b: string, sep: char)
    ensures SplitOn(a + [sep] + b, sep) == SplitOn(a, sep) + SplitOn(b, sep)
  {
    if a == "" {
      assert a + [sep] + b == [sep] + b;
      assert ([sep] + b)[1..] == b;
    } else {
      assert (a + [sep] + b)[1..] == a[1..] + [sep] + b;
      SplitAround(a[1..], b, sep);
      var x, y := SplitOn(a[1..], sep), SplitOn(b, sep);
      if a[0] == sep {
        assert [""] + (x + y) == ([""] + x) + y;
      } else {
        assert (x + y)[1..] == x[1..] + y && (x + y)[0] == x[0];
        assert [[a[0]] + x[0]] + (x[1..] + y) == ([[a[0]] + x[0]] + x[1..]) + y;
      }
    }
  }

  predicate Space(b: char) { b == ' ' || b == '\t' }

  /** Without the first bytes that are blanks. */
  function TrimStart(s: string): string { if s != "" && Space(s[0]) then TrimStart(s[1..]) else s }

  function TrimEnd(s: string): string {
    if s != "" && Space(s[|s| - 1]) then TrimEnd(s[..|s| - 1]) else s
  }

  function Trim(s: string): string { TrimEnd(TrimStart(s)) }

  ghost predicate Blanks(s: string) { forall i | 0 <= i < |s| :: s[i] == ' ' || s[i] == '\t' }

  lemma {:induction false} TrimStartMeaning(s: string)
    ensures var t := TrimStart(s); var n := |s| - |t|;
      n >= 0 && t == s[n..] && Blanks(s[..n]) && (t == "" || !Space(t[0]))
  {
    if s != "" && Space(s[0]) {
      TrimStartMeaning(s[1..]);
      var n := |s| - |TrimStart(s)|;
      assert s[..n] == [s[0]] + s[1..][..n - 1];
    }
  }

  lemma {:induction false} TrimEndMeaning(s: string)
    ensures var t := TrimEnd(s); var n := |t|;
      n <= |s| && t == s[..n] && Blanks(s[n..]) && (t == "" || !Space(t[n - 1]))
  {
    if s != "" && Space(s[|s| - 1]) {
      var m := |s| - 1;
      TrimEndMeaning(s[..m]);
      var n := |TrimEnd(s)|;
      assert s[n..] == s[..m][n..] + [s[m]];
    }
  }

  /** Trimming removes blanks from both ends, all of them and nothing else. */
  lemma TrimMeaning(s: string)
    ensures exists i, j | 0 <= i <= j <= |s| :: Trim(s) == s[i..j] && Blanks(s[..i]) && Blanks(s[j..])
    ensures var t := Trim(s);
      t != "" ==> t[0] != ' ' && t[0] != '\t' && t[|t| - 1] != ' ' && t[|t| - 1] != '\t'
  {
    hide TrimStart, TrimEnd;
    var t := TrimStart(s);
    TrimStartMeaning(s);
    TrimEndMeaning(t);
    var i, n := |s| - |t|, |Trim(s)|;
    assert s[i..i + n] == t[..n] && s[i + n..] == t[n..];
  }

  lemma TrimTwice(s: string)
    ensures Trim(Trim(s)) == Trim(s)
  {
    TrimMeaning(s);
  }

  /** The blank-trimmed elements of a comma-separated list. */
  function Elements(value: string): (r: seq<string>)
    ensures |r| >= 1
  {
    Trimmed(SplitOn(value, ','))
  }

  function Trimmed(l: seq<string>): (r: seq<string>)
    ensures |r| == |l| && forall i | 0 <= i < |r| :: r[i] == Trim(l[i])
  {
    seq(|l|, i requires 0 <= i < |l| => Trim(l[i]))
  }

  lemma ElementsAround(a: string, b: string)
    ensures Elements(a + "," + b) == Elements(a) + Elements(b)
  {
    SplitAround(a, b, ',');
    hide SplitOn, Trim;
    assert "," == [','];
  }

  function LowerChar(b: char): char { if 'A' <= b <= 'Z' then b - 'A' + 'a' else b }

  function Lowered(s: string): (r: string)
    ensures |r| == |s|
  {
    seq(|s|, i requires 0 <= i < |s| => LowerChar(s[i]))
  }

  /** The bytes a header name is made of. */
  predicate TokenChar(b: char) {
    ('0' <= b <= '9') || ('a' <= b <= 'z') || ('A' <= b <= 'Z') || b in "!#$%&'*+-.^_`|~"
  }

  predicate ValidName(s: string) { s != "" && forall i | 0 <= i < |s| :: TokenChar(s[i]) }
}
