/** Path normalisation: the signature's normalised path, the rate-limit path shape and the
    short-token parent shape. Paths are strings of bytes, one character per byte. */
module PathShapes {
  import opened Options
  import opened Text

  // ---- splitting and joining ----

  ghost predicate Clean(l: seq<string>) { Free(l, '/') }

  function Split(s: string): (r: seq<string>)
    ensures |r| >= 1 && Clean(r)
  {
    SplitOn(s, '/')
  }

  function Join(l: seq<string>): string
    requires l != []
  {
    JoinOn(l, '/')
  }

  /** Filling an empty last segment appends to the joined string. */
  lemma JoinFillLast(m: seq<string>, x: string)
    ensures Join(m + [x]) == Join(m + [""]) + x
  {
    if m == [] {
      assert m + [x] == [x] && m + [""] == [""];
    } else {
      JoinAppend(m, x, '/');
      JoinAppend(m, "", '/');
      assert Join(m) + "/" + "" == Join(m) + "/";
    }
  }

  // ---- segment classes ----

  predicate Digit(b: char) { '0' <= b <= '9' }
  predicate Upper(b: char) { 'A' <= b <= 'Z' }
  predicate Lower(b: char) { 'a' <= b <= 'z' }
  predicate Alnum(b: char) { Digit(b) || Upper(b) || Lower(b) }
  predicate Hex(b: char) { Digit(b) || 'a' <= b <= 'f' || 'A' <= b <= 'F' }

  predicate All(p: char -> bool, s: string) { forall i | 0 <= i < |s| :: p(s[i]) }
  predicate Any(p: char -> bool, s: string) { exists i | 0 <= i < |s| :: p(s[i]) }

  predicate IsCommon(s: string) {
    s in {"api", "app", "auth", "blog", "cart", "docs", "home", "jobs", "json", "login", "news",
          "oauth", "order", "price", "store", "users", "subscription", "membership", "onboarding",
          "authentication", "authorization", "notification", "notifications", "preferences",
          "marketplace", "integration", "integrations", "transaction", "transactions",
          "organization", "organizations", "certificate", "certificates", "configuration",
          "documentation", "catalog", "checkout", "dashboard", "inventory", "customers", "products",
          "settings", "profile", "profiles", "analytics", "warehouse", "fulfillment", "warehouses"}
  }

  predicate IsVersion(s: string) { |s| >= 2 && s[0] == 'v' && All(Digit, s[1..]) }

  predicate IsUuid(s: string) {
    |s| == 36 && forall i | 0 <= i < 36 :: if i in {8, 13, 18, 23} then s[i] == '-' else Hex(s[i])
  }

  predicate IsLongToken(s: string) {
    |s| >= 10 && All(Alnum, s) && (Any(Digit, s) || Any(Upper, s) || !IsCommon(s))
  }

  predicate IsShortToken(s: string) {
    2 <= |s| < 10 && All(Alnum, s) && !IsVersion(s) && !IsCommon(s) && Any((b: char) => Digit(b) || Upper(b), s)
  }

  /** Two or three lowercase letters that are not a common word: a token only by its churn. */
  predicate IsLowConfidence(s: string) {
    2 <= |s| <= 3 && All(Lower, s) && !IsVersion(s) && !IsCommon(s)
  }

  /** What a segment is written as; `tokens` turns on the high-entropy classes. */
  function Piece(s: string, tokens: bool): string {
    if s == "" then ""
    else if All(Digit, s) then ":num"
    else if IsUuid(s) then ":uuid"
    else if |s| >= 16 && All(Hex, s) then ":hex"
    else if tokens && IsLongToken(s) then ":token"
    else if tokens && IsShortToken(s) then ":short-token"
    else s
  }

  function Pieces(segs: seq<string>, tokens: bool): (r: seq<string>)
    ensures |r| == |segs| && forall i | 0 <= i < |r| :: r[i] == Piece(segs[i], tokens)
  {
    seq(|segs|, i requires 0 <= i < |segs| => Piece(segs[i], tokens))
  }

  lemma MarkerStays(m: string, tokens: bool)
    requires 2 <= |m| <= 15 && m[0] == ':'
    ensures Piece(m, tokens) == m
  {
  }

  lemma PieceFacts(s: string, tokens: bool)
    ensures Piece(s, tokens) == "" <==> s == ""
    ensures '/' !in s ==> '/' !in Piece(s, tokens)
  {
  }

  /** Classifying after normalising is classifying at once. */
  lemma PieceTwice(s: string, tokens: bool)
    ensures Piece(Piece(s, tokens), true) == Piece(s, true)
  {
    var p := Piece(s, tokens);
    if p != s { MarkerStays(p, true); }
  }

  // ---- which segments keep their text, and which become one ----

  ghost predicate AllIn(s: string, low: char, high: char) { forall i | 0 <= i < |s| :: low <= s[i] <= high }

  ghost predicate LettersAndDigits(s: string) {
    forall i | 0 <= i < |s| :: '0' <= s[i] <= '9' || 'A' <= s[i] <= 'Z' || 'a' <= s[i] <= 'z'
  }

  ghost predicate HexDigits(s: string) {
    forall i | 0 <= i < |s| :: '0' <= s[i] <= '9' || 'A' <= s[i] <= 'F' || 'a' <= s[i] <= 'f'
  }

  /** The letter v and then digits. */
  ghost predicate VersionNumber(s: string) { |s| >= 2 && s[0] == 'v' && forall i | 1 <= i < |s| :: '0' <= s[i] <= '9' }

  /** Groups of 8, 4, 4, 4 and 12 hexadecimal digits with dashes between them. */
  ghost predicate Dashed(s: string) {
    && |s| == 36 && s[8] == s[13] == s[18] == s[23] == '-'
    && HexDigits(s[..8] + s[9..13] + s[14..18] + s[19..23] + s[24..])
  }

  lemma CommonIsShort(s: string)
    requires IsCommon(s)
    ensures 3 <= |s| <= 14
  {
  }

  lemma ClassesMean(s: string)
    ensures All(Digit, s) <==> AllIn(s, '0', '9')
    ensures All(Hex, s) <==> HexDigits(s)
    ensures All(Alnum, s) <==> LettersAndDigits(s)
    ensures IsVersion(s) <==> VersionNumber(s)
    ensures All(Alnum, s) ==> (Any(Digit, s) || Any(Upper, s) <==> !AllIn(s, 'a', 'z'))
    ensures All(Alnum, s) ==> (Any((b: char) => Digit(b) || Upper(b), s) <==> !AllIn(s, 'a', 'z'))
  {
    if |s| >= 2 && s[0] == 'v' {
      assert forall i | 1 <= i < |s| :: s[i] == s[1..][i - 1];
    }
  }

  /** Where a position of a UUID is among its hexadecimal digits. */
  function Undashed(i: nat): nat
    requires i < 36
  {
    if i < 8 then i else if i < 13 then i - 1 else if i < 18 then i - 2 else if i < 23 then i - 3 else i - 4
  }

  function Redashed(k: nat): nat {
    if k < 8 then k else if k < 12 then k + 1 else if k < 16 then k + 2 else if k < 20 then k + 3 else k + 4
  }

  lemma UuidMeans(s: string)
    ensures IsUuid(s) <==> Dashed(s)
  {
    if |s| == 36 {
      var t := s[..8] + s[9..13] + s[14..18] + s[19..23] + s[24..];
      assert |t| == 32;
      if Dashed(s) {
        forall i | 0 <= i < 36 ensures if i in {8, 13, 18, 23} then s[i] == '-' else Hex(s[i]) {
          if i !in {8, 13, 18, 23} { assert t[Undashed(i)] == s[i]; }
        }
      }
      if IsUuid(s) {
        forall k | 0 <= k < 32 ensures Hex(t[k]) {
          assert t[k] == s[Redashed(k)] && Redashed(k) !in {8, 13, 18, 23};
        }
        assert HexDigits(t);
      }
    }
  }

  /** A segment is written as it is exactly when it is empty; or has some byte other than letters and
      digits and is no UUID; or is a single letter; or has up to nine letters and digits and is a common
      word, all in lower case, or a version number; or is a longer common word. */
  lemma KeptExactly(s: string)
    ensures Piece(s, true) == s <==>
      if !LettersAndDigits(s) then !Dashed(s)
      else
        || s == ""
        || (!AllIn(s, '0', '9') &&
            if |s| == 1 then true
            else if |s| < 10 then IsCommon(s) || AllIn(s, 'a', 'z') || VersionNumber(s)
            else IsCommon(s) && AllIn(s, 'a', 'z'))
  {
    ClassesMean(s);
    UuidMeans(s);
    if IsCommon(s) { CommonIsShort(s); }
    hide IsCommon, IsVersion, IsUuid, All, Any;
    assert ":num"[0] == ":uuid"[0] == ":hex"[0] == ":token"[0] == ":short-token"[0] == ':';
    assert LettersAndDigits(s) && s != "" ==> s[0] != ':';
    assert Dashed(s) ==> |s| == 36;
  }

  /** Segments of the same class become one: numbers; UUIDs; 16 or more hexadecimal digits that are no
      number; ten or more letters and digits with a digit or capital that are neither; and two to nine
      letters and digits with a digit or capital that are no number, version or common word. */
  lemma SegmentsMerge(s: string, t: string)
    requires s != "" && t != ""
    requires
      || (AllIn(s, '0', '9') && AllIn(t, '0', '9'))
      || (Dashed(s) && Dashed(t))
      || (|s| >= 16 && |t| >= 16 && HexDigits(s) && HexDigits(t) && !AllIn(s, '0', '9') && !AllIn(t, '0', '9'))
      || (Mixed(s) && Mixed(t) && |s| >= 10 && |t| >= 10
          && (|s| < 16 || !HexDigits(s)) && (|t| < 16 || !HexDigits(t)))
      || (Mixed(s) && Mixed(t) && 2 <= |s| < 10 && 2 <= |t| < 10
          && !VersionNumber(s) && !VersionNumber(t) && !IsCommon(s) && !IsCommon(t))
    ensures Piece(s, true) == Piece(t, true)
  {
    ClassesMean(s);
    ClassesMean(t);
    UuidMeans(s);
    UuidMeans(t);
    assert Dashed(s) && Dashed(t) ==> s[8] == '-' && t[8] == '-';
    hide IsCommon, IsVersion, IsUuid, All, Any;
  }

  /** Letters and digits, with a digit or a capital, but not digits alone. */
  ghost predicate Mixed(s: string) { LettersAndDigits(s) && !AllIn(s, 'a', 'z') && !AllIn(s, '0', '9') }

  // ---- laying the pieces out ----

  /** An empty piece directly before a nonempty one leaves no trace: its slash is the slash that
      the nonempty piece needs anyway. */
  function Keep(p: seq<string>): seq<string> {
    if p == [] then []
    else if p[0] == "" && |p| >= 2 && p[1] != "" then Keep(p[1..])
    else [p[0]] + Keep(p[1..])
  }

  lemma {:induction false} KeepFacts(p: seq<string>)
    requires p != []
    ensures Keep(p) != [] && Keep(p)[|Keep(p)| - 1] == p[|p| - 1]
    ensures Clean(p) ==> Clean(Keep(p))
  {
    if |p| > 1 { KeepFacts(p[1..]); }
  }

  /** The kept pieces after one more piece. */
  function Extended(k: seq<string>, last: string, x: string): seq<string>
    requires k != []
  {
    if x != "" && last == "" then k[..|k| - 1] + [x] else k + [x]
  }

  lemma {:induction false} KeepAppend(p: seq<string>, x: string)
    requires p != []
    ensures Keep(p) != [] && Keep(p + [x]) == Extended(Keep(p), p[|p| - 1], x)
  {
    var q := p + [x];
    if |p| == 1 {
      assert q == [p[0], x] && q[1..] == [x] && Keep([x]) == [x] && Keep(p) == [p[0]];
    } else {
      var k := Keep(p[1..]);
      assert q[1..] == p[1..] + [x] && q[0] == p[0] && q[1] == p[1];
      KeepAppend(p[1..], x);
      if !(p[0] == "" && p[1] != "") {
        assert Keep(p) == [p[0]] + k && Keep(q) == [p[0]] + Keep(q[1..]);
        ExtendedPrepend(p[0], k, p[|p| - 1], x);
      }
    }
  }

  lemma ExtendedPrepend(y: string, k: seq<string>, last: string, x: string)
    requires k != []
    ensures Extended([y] + k, last, x) == [y] + Extended(k, last, x)
  {
  }

  function Layout(p: seq<string>): string
    requires p != []
  {
    KeepFacts(p);
    "/" + Join(Keep(p))
  }

  function Normalize(path: string): string { Layout(Pieces(Split(path), false)) }

  function Shape(path: string): string { Layout(Pieces(Split(path), true)) }

  /** How the layout grows by one piece: the way the source builds its output. */
  lemma LayoutAppend(p: seq<string>, x: string)
    requires p != [] && Clean(p)
    ensures var out := Layout(p);
      && out != ""
      && Layout(p + [x]) == if x == "" then out + "/" else if out[|out| - 1] == '/' then out + x else out + "/" + x
  {
    KeepFacts(p);
    KeepAppend(p, x);
    var k := Keep(p);
    JoinAppend(k, x, '/');
    JoinEndsWith(k);
    if p[|p| - 1] == "" {
      var m, e := k[..|k| - 1], k[|k| - 1];
      assert k == m + [e];
      JoinFillLast(m, x);
    }
  }

  lemma {:induction false} JoinEndsWith(l: seq<string>)
    requires l != [] && '/' !in l[|l| - 1]
    ensures var out := "/" + Join(l); out[|out| - 1] == '/' <==> l[|l| - 1] == ""
  {
    if |l| > 1 { JoinEndsWith(l[1..]); }
  }

  /** The source's `append_normalized_segment`. */
  method AppendSegment(out: string, segment: string, tokens: bool, force: bool) returns (r: string)
    requires segment != ""
    ensures r == Grown(out, if force then ":short-token" else Piece(segment, tokens))
  {
    r := out;
    if out == "" || out[|out| - 1] != '/' {
      r := r + "/";
    }
    if force {
      r := r + ":short-token";
    } else if All(Digit, segment) {
      r := r + ":num";
    } else if IsUuid(segment) {
      r := r + ":uuid";
    } else if |segment| >= 16 && All(Hex, segment) {
      r := r + ":hex";
    } else if tokens && IsLongToken(segment) {
      r := r + ":token";
    } else if tokens && IsShortToken(segment) {
      r := r + ":short-token";
    } else {
      r := r + segment;
    }
  }

  method NormalizePathWith(path: string, tokens: bool) returns (out: string)
    ensures out == if tokens then Shape(path) else Normalize(path)
  {
    out := "";
    var segments := Split(path);
    ghost var pieces := Pieces(segments, tokens);
    PiecesClean(segments, tokens);
    var i := 0;
    while i < |segments|
      invariant 0 <= i <= |segments|
      invariant out == Output(pieces[..i])
    {
      PieceFacts(segments[i], tokens);
      assert pieces[..i + 1] == pieces[..i] + [pieces[i]];
      OutputNext(pieces[..i], pieces[i]);
      if segments[i] == "" {
        out := out + "/";
      } else {
        out := AppendSegment(out, segments[i], tokens, false);
      }
      i := i + 1;
    }
    assert pieces[..i] == pieces;
    if out == "" {
      out := "/";
    }
  }

  function Grown(out: string, x: string): string {
    if x == "" then out + "/" else if out != "" && out[|out| - 1] == '/' then out + x else out + "/" + x
  }

  /** The output after the pieces written so far. */
  function Output(p: seq<string>): string { if p == [] then "" else Layout(p) }

  lemma OutputNext(p: seq<string>, x: string)
    requires Clean(p)
    ensures Output(p + [x]) == Grown(Output(p), x)
  {
    if p == [] {
      assert p + [x] == [x] && Keep([x]) == [x];
    } else {
      LayoutAppend(p, x);
    }
  }

  lemma PiecesClean(segments: seq<string>, tokens: bool)
    requires Clean(segments)
    ensures Clean(Pieces(segments, tokens))
  {
    forall i | 0 <= i < |segments| ensures '/' !in Pieces(segments, tokens)[i] {
      PieceFacts(segments[i], tokens);
    }
  }

  // ---- the shape is a function of the normalised path ----

  lemma {:induction false} KeepPieces(p: seq<string>)
    ensures Keep(Pieces(p, true)) == Pieces(Keep(p), true)
  {
    if p != [] {
      PieceFacts(p[0], true);
      assert Pieces(p, true)[1..] == Pieces(p[1..], true);
      if |p| >= 2 { PieceFacts(p[1], true); }
      KeepPieces(p[1..]);
    }
  }

  lemma LayoutSplit(p: seq<string>)
    requires p != [] && Clean(p)
    ensures Split(Layout(p)) == [""] + Keep(p)
  {
    KeepFacts(p);
    SplitJoin(Keep(p), '/');
    assert Layout(p)[1..] == Join(Keep(p));
  }

  lemma PiecesTwice(segs: seq<string>, tokens: bool)
    ensures Pieces(Pieces(segs, tokens), true) == Pieces(segs, true)
  {
    forall i | 0 <= i < |segs| ensures Pieces(Pieces(segs, tokens), true)[i] == Pieces(segs, true)[i] {
      PieceTwice(segs[i], tokens);
    }
  }

  lemma JoinAfterRoot(k: seq<string>)
    requires k != []
    ensures Join([""] + k) == "/" + Join(k)
  {
    assert ([""] + k)[1..] == k;
    assert "" + "/" == "/";
  }

  lemma ReclassifyKept(segs: seq<string>)
    requires segs != []
    ensures var k := Keep(Pieces(segs, false));
      k != [] && Pieces([""] + k, true) == [""] + Keep(Pieces(segs, true))
  {
    var norm := Pieces(segs, false);
    KeepFacts(norm);
    PiecesTwice(segs, false);
    KeepPieces(norm);
    assert Pieces([""] + Keep(norm), true) == [""] + Pieces(Keep(norm), true);
  }

  /** For every path, the shape is obtained from the normalised path by classifying each of its
      segments in place, so equal normalised paths force equal shapes. */
  lemma ShapeFromNormalized(path: string)
    ensures Shape(path) == Join(Pieces(Split(Normalize(path)), true))
  {
    var segs := Split(path);
    PiecesClean(segs, false);
    LayoutSplit(Pieces(segs, false));
    ReclassifyKept(segs);
    KeepFacts(Pieces(segs, true));
    JoinAfterRoot(Keep(Pieces(segs, true)));
  }

  lemma EqualNormalizedEqualShape(p: string, q: string)
    requires Normalize(p) == Normalize(q)
    ensures Shape(p) == Shape(q)
  {
    ShapeFromNormalized(p);
    ShapeFromNormalized(q);
  }

  // ---- when shapes agree ----

  /** Two shapes are equal exactly when their laid-out pieces agree position by position. */
  lemma ShapesEqualIff(p: string, q: string)
    ensures Shape(p) == Shape(q) <==> Keep(Pieces(Split(p), true)) == Keep(Pieces(Split(q), true))
  {
    PiecesClean(Split(p), true);
    PiecesClean(Split(q), true);
    LayoutSplit(Pieces(Split(p), true));
    LayoutSplit(Pieces(Split(q), true));
    var a, b := Keep(Pieces(Split(p), true)), Keep(Pieces(Split(q), true));
    assert ([""] + a)[1..] == a && ([""] + b)[1..] == b;
  }

  /** Paths of nonempty segments, each preceded by one slash. */
  ghost predicate Canonical(path: string) {
    var s := Split(path);
    |s| >= 2 && s[0] == "" && forall i | 1 <= i < |s| :: s[i] != ""
  }

  lemma {:induction false} KeepAll(p: seq<string>)
    requires forall i | 0 <= i < |p| :: p[i] != ""
    ensures Keep(p) == p
  {
    if p != [] { KeepAll(p[1..]); }
  }

  lemma CanonicalKeep(path: string)
    requires Canonical(path)
    ensures Keep(Pieces(Split(path), true)) == Pieces(Split(path)[1..], true)
  {
    var s := Split(path);
    var p := Pieces(s, true);
    assert p[1..] == Pieces(s[1..], true);
    forall i | 0 <= i < |s| ensures p[i] == "" <==> s[i] == "" { PieceFacts(s[i], true); }
    KeepAll(p[1..]);
  }

  /** On canonical paths: the same number of segments with the same classes, in order. */
  lemma CanonicalShapesEqualIff(p: string, q: string)
    requires Canonical(p) && Canonical(q)
    ensures Shape(p) == Shape(q) <==>
            && |Split(p)| == |Split(q)|
            && forall i | 0 <= i < |Split(p)| :: Piece(Split(p)[i], true) == Piece(Split(q)[i], true)
  {
    ShapesEqualIff(p, q);
    CanonicalKeep(p);
    CanonicalKeep(q);
    var a, b := Split(p), Split(q);
    forall i | 1 <= i < |a| && |a| == |b|
      ensures Pieces(a[1..], true)[i - 1] == Piece(a[i], true) && Pieces(b[1..], true)[i - 1] == Piece(b[i], true)
    {
    }
    if |a| == |b| && forall i | 0 <= i < |a| :: Piece(a[i], true) == Piece(b[i], true) {
      assert Pieces(a[1..], true) == Pieces(b[1..], true);
    }
  }

  /** Paths whose segments at some position are different and kept as they are have different shapes. */
  lemma KeptSegmentsSeparate(p: string, q: string, i: nat)
    requires Canonical(p) && Canonical(q) && i < |Split(p)| && i < |Split(q)| && Split(p)[i] != Split(q)[i]
    requires Piece(Split(p)[i], true) == Split(p)[i] && Piece(Split(q)[i], true) == Split(q)[i]
    ensures Shape(p) != Shape(q)
  {
    CanonicalShapesEqualIff(p, q);
  }

  /** So versions of up to eight digits, and short words in lower case, keep paths apart. */
  lemma VersionsSeparate(p: string, q: string, i: nat)
    requires Canonical(p) && Canonical(q) && i < |Split(p)| && i < |Split(q)| && Split(p)[i] != Split(q)[i]
    requires var s, t := Split(p)[i], Split(q)[i];
      && |s| < 10 && |t| < 10 && (VersionNumber(s) || AllIn(s, 'a', 'z')) && (VersionNumber(t) || AllIn(t, 'a', 'z'))
    ensures Shape(p) != Shape(q)
  {
    var s, t := Split(p)[i], Split(q)[i];
    KeptExactly(s);
    KeptExactly(t);
    assert VersionNumber(s) ==> s[0] == 'v';
    assert VersionNumber(t) ==> t[0] == 'v';
    hide Piece, IsCommon, Canonical, Split, Shape;
    assert Piece(s, true) == s && Piece(t, true) == t;
    KeptSegmentsSeparate(p, q, i);
  }

  // ---- when the shape is a fixed point ----

  function DropLeading(p: seq<string>): seq<string> {
    if p != [] && p[0] == "" then DropLeading(p[1..]) else p
  }

  /** No empty segment directly before a nonempty one. */
  ghost predicate Settled(p: seq<string>) {
    forall i | 0 <= i && i + 1 < |p| :: p[i] == "" ==> p[i + 1] == ""
  }

  /** No two empty segments in a row directly before a nonempty one. */
  ghost predicate NoDoubleGap(p: seq<string>) {
    forall i | 0 <= i && i + 2 < |p| :: p[i] == "" && p[i + 1] == "" ==> p[i + 2] == ""
  }

  lemma {:induction false} KeepShortens(p: seq<string>)
    ensures |Keep(p)| <= |p|
    ensures |Keep(p)| == |p| ==> Keep(p) == p
    ensures Keep(p) == p <==> Settled(p)
  {
    if p != [] {
      KeepShortens(p[1..]);
      if Settled(p) {
        assert Settled(p[1..]);
      } else if Settled(p[1..]) {
        assert p[0] == "" && |p| >= 2 && p[1] != "" by {
          var i :| 0 <= i && i + 1 < |p| && p[i] == "" && p[i + 1] != "";
          if i > 0 { assert p[1..][i - 1] == "" && p[1..][i] != ""; }
        }
      }
    }
  }

  lemma {:induction false} SettledKeep(p: seq<string>)
    ensures Settled(Keep(p)) <==> NoDoubleGap(p)
  {
    if p == [] {
    } else {
      SettledKeep(p[1..]);
      var rest, k := p[1..], Keep(p[1..]);
      if p[0] == "" && |p| >= 2 && p[1] != "" {
        DoubleGapTail(p);
      } else {
        SettledTail(p[0], k);
        DoubleGapTail(p);
        KeepHead(rest);
      }
    }
  }

  lemma SettledTail(x: string, k: seq<string>)
    ensures Settled([x] + k) <==> Settled(k) && (x == "" && k != [] ==> k[0] == "")
  {
    var l := [x] + k;
    if Settled(l) {
      forall i | 0 <= i && i + 1 < |k| ensures k[i] == "" ==> k[i + 1] == "" {
        assert l[i + 1] == k[i] && l[i + 2] == k[i + 1];
      }
      if k != [] { assert l[0] == x && l[1] == k[0]; }
    }
  }

  lemma DoubleGapTail(p: seq<string>)
    requires p != []
    ensures NoDoubleGap(p) <==> NoDoubleGap(p[1..]) && (|p| >= 3 && p[0] == "" && p[1] == "" ==> p[2] == "")
  {
    if NoDoubleGap(p) {
      forall i | 0 <= i && i + 2 < |p[1..]|
        ensures p[1..][i] == "" && p[1..][i + 1] == "" ==> p[1..][i + 2] == ""
      {
        assert p[1..][i] == p[i + 1] && p[1..][i + 1] == p[i + 2] && p[1..][i + 2] == p[i + 3];
      }
    }
    if NoDoubleGap(p[1..]) && (|p| >= 3 && p[0] == "" && p[1] == "" ==> p[2] == "") {
      forall i | 0 <= i && i + 2 < |p| ensures p[i] == "" && p[i + 1] == "" ==> p[i + 2] == "" {
        if i > 0 { assert p[1..][i - 1] == p[i] && p[1..][i] == p[i + 1] && p[1..][i + 1] == p[i + 2]; }
      }
    }
  }

  /** What survives first: the second piece if the first is an empty one before it. */
  lemma KeepHead(p: seq<string>)
    ensures p == [] <==> Keep(p) == []
    ensures p != [] ==> Keep(p)[0] == if p[0] == "" && |p| >= 2 && p[1] != "" then p[1] else p[0]
  {
    if p != [] { KeepFacts(p); }
  }

  lemma {:induction false} DropKeep(p: seq<string>)
    ensures DropLeading(Keep(p)) == Keep(DropLeading(p))
  {
    if p != [] && p[0] == "" {
      DropKeep(p[1..]);
      KeepHead(p[1..]);
    }
  }

  lemma {:induction false} KeepAgainIff(k: seq<string>)
    requires k != []
    ensures Keep([""] + k) == k <==> DropLeading(k) != [] && Settled(DropLeading(k))
  {
    assert ([""] + k)[1..] == k;
    KeepShortens(k);
    if k[0] == "" {
      assert Keep([""] + k) == [""] + Keep(k);
      assert k == [""] + k[1..];
      if |k| > 1 { KeepAgainIff(k[1..]); }
    }
  }

  lemma {:induction false} DropLeadingPieces(segs: seq<string>)
    ensures DropLeading(Pieces(segs, true)) == Pieces(DropLeading(segs), true)
  {
    if segs != [] {
      PieceFacts(segs[0], true);
      assert Pieces(segs, true)[1..] == Pieces(segs[1..], true);
      DropLeadingPieces(segs[1..]);
    }
  }

  lemma NoDoubleGapPieces(segs: seq<string>)
    ensures NoDoubleGap(Pieces(segs, true)) <==> NoDoubleGap(segs)
  {
    forall i | 0 <= i < |segs| ensures Pieces(segs, true)[i] == "" <==> segs[i] == "" { PieceFacts(segs[i], true); }
  }

  /** The segments of a shape are classified as themselves. */
  lemma ShapeSegments(path: string)
    ensures var k := Keep(Pieces(Split(path), true));
      k != [] && Split(Shape(path)) == [""] + k && Pieces(Split(Shape(path)), true) == [""] + k
  {
    var p := Pieces(Split(path), true);
    PiecesClean(Split(path), true);
    KeepFacts(p);
    LayoutSplit(p);
    PiecesTwice(Split(path), true);
    KeepPieces(p);
    assert Pieces([""] + Keep(p), true) == [""] + Pieces(Keep(p), true);
  }

  lemma ShapeOfShape(path: string)
    ensures Keep(Pieces(Split(path), true)) != []
    ensures Shape(Shape(path)) == Shape(path) <==>
            var k := Keep(Pieces(Split(path), true)); Keep([""] + k) == k
  {
    ShapeSegments(path);
    ShapesEqualIff(Shape(path), path);
  }

  /** Shaping a shape changes nothing exactly when the path has a nonempty segment and, from the
      first such segment on, no two empty segments in a row before another nonempty one. */
  lemma ShapeFixedIff(path: string)
    ensures Shape(Shape(path)) == Shape(path) <==>
            var t := DropLeading(Split(path)); t != [] && NoDoubleGap(t)
  {
    var p := Pieces(Split(path), true);
    ShapeOfShape(path);
    KeepAgainIff(Keep(p));
    DropKeep(p);
    DropLeadingPieces(Split(path));
    var t := DropLeading(Split(path));
    SettledKeep(Pieces(t, true));
    NoDoubleGapPieces(t);
    KeepHead(Pieces(t, true));
  }

  lemma CanonicalShapeFixed(path: string)
    requires Canonical(path)
    ensures Shape(Shape(path)) == Shape(path)
  {
    ShapeFixedIff(path);
  }

  /** The root path is not a fixed point: each empty segment writes a slash of its own. */
  lemma RootShapeGrows()
    ensures Shape("/") == "//" && Shape("//") == "///"
  {
    assert Split("") == [""] && Split("/") == ["", ""] && Split("//") == ["", "", ""] by {
      assert "/"[1..] == "" && "//"[1..] == "/";
    }
    var two, three := ["", ""], ["", "", ""];
    assert Pieces(two, true) == two && Pieces(three, true) == three;
    assert two[1..] == [""] && three[1..] == two;
    assert Keep([""]) == [""] && Keep(two) == two && Keep(three) == three;
    assert Join([""]) == "" && Join(two) == "/" && Join(three) == "//";
  }

  // ---- the parent of a short lowercase token ----

  function FirstLow(segs: seq<string>): (i: nat)
    ensures i <= |segs|
    ensures i < |segs| ==> IsLowConfidence(segs[i])
    ensures forall j | 0 <= j < i :: !IsLowConfidence(segs[j])
  {
    if segs == [] then 0 else if IsLowConfidence(segs[0]) then 0 else 1 + FirstLow(segs[1..])
  }

  function ParentPieces(segs: seq<string>): seq<string>
    requires FirstLow(segs) < |segs|
  {
    Pieces(segs, true)[FirstLow(segs) := ":short-token"]
  }

  /** The parent shape and the replaced token, if a segment is a low-confidence short token. */
  function Parent(path: string): Option<(string, string)> {
    var segs := Split(path);
    var i := FirstLow(segs);
    if i == |segs| then None else Some((Layout(ParentPieces(segs)), segs[i]))
  }

  /** The pieces the parent loop has written after `i` segments, `low` being the one it replaces. */
  ghost function Written(p: seq<string>, low: nat, i: nat): seq<string>
    requires i <= |p|
  {
    if low < i then p[low := ":short-token"][..i] else p[..i]
  }

  lemma WrittenNext(p: seq<string>, low: nat, i: nat)
    requires i < |p| && Clean(p)
    ensures var x := if i == low then ":short-token" else p[i];
      Output(Written(p, low, i + 1)) == Grown(Output(Written(p, low, i)), x)
  {
    var x := if i == low then ":short-token" else p[i];
    assert Written(p, low, i + 1) == Written(p, low, i) + [x];
    OutputNext(Written(p, low, i), x);
  }

  lemma LowFacts(segs: seq<string>, i: nat)
    requires i < |segs|
    ensures i <= FirstLow(segs) ==> (IsLowConfidence(segs[i]) <==> i == FirstLow(segs))
    ensures IsLowConfidence(segs[i]) ==> segs[i] != ""
  {
  }

  /** What the finished loop returns. */
  lemma ParentFromWritten(path: string)
    ensures var segs := Split(path);
      var w := Written(Pieces(segs, true), FirstLow(segs), |segs|);
      && Output(w) != ""
      && Parent(path) == if FirstLow(segs) < |segs| then Some((Output(w), segs[FirstLow(segs)])) else None
  {
    var segs := Split(path);
    var p := Pieces(segs, true);
    if FirstLow(segs) < |segs| {
      assert Written(p, FirstLow(segs), |segs|) == ParentPieces(segs);
    } else {
      assert Written(p, FirstLow(segs), |segs|) == p;
    }
  }

  method ShortTokenParentShape(path: string) returns (r: Option<(string, string)>)
    ensures r == Parent(path)
  {
    hide Piece, IsLowConfidence, FirstLow, Layout, Keep, Join, Split, Parent;
    var out := "";
    var token: Option<string> := None;
    var segments := Split(path);
    ghost var pieces, low := Pieces(segments, true), FirstLow(segments);
    PiecesClean(segments, true);
    ParentFromWritten(path);
    var i := 0;
    while i < |segments|
      invariant 0 <= i <= |segments|
      invariant token == if low < i then Some(segments[low]) else None
      invariant out == Output(Written(pieces, low, i))
    {
      WrittenNext(pieces, low, i);
      PieceFacts(segments[i], true);
      LowFacts(segments, i);
      if segments[i] == "" {
        out := out + "/";
      } else {
        var replace := token.None? && IsLowConfidence(segments[i]);
        out := AppendSegment(out, segments[i], true, replace);
        if replace {
          token := Some(segments[i]);
        }
      }
      i := i + 1;
    }
    if token.None? {
      return None;
    }
    if out == "" {
      out := "/";
    }
    r := Some((out, token.value));
  }

  lemma LowIsLiteral(s: string)
    requires IsLowConfidence(s)
    ensures Piece(s, true) == s && s != ":short-token"
  {
  }

  /** On canonical paths the parent shape is the shape with exactly the first short lowercase
      token replaced, and that token stands in the shape unchanged. */
  lemma ParentReplacesOne(path: string)
    requires Canonical(path) && Parent(path).Some?
    ensures var segs := Split(path);
      var i := FirstLow(segs);
      && Parent(path).value.1 == segs[i]
      && |Split(Shape(path))| == |segs| && Split(Shape(path))[i] == segs[i] != ":short-token"
      && Split(Parent(path).value.0) == Split(Shape(path))[i := ":short-token"]
  {
    var segs := Split(path);
    var p := Pieces(segs, true);
    LowIsLiteral(segs[FirstLow(segs)]);
    PiecesClean(segs, true);
    forall j | 0 <= j < |segs| ensures p[j] == "" <==> segs[j] == "" { PieceFacts(segs[j], true); }
    RootedLayout(p);
    RootedLayout(ParentPieces(segs));
  }

  /** Two or three lowercase letters that are no common word. */
  ghost predicate ShortWord(s: string) { 2 <= |s| <= 3 && AllIn(s, 'a', 'z') && !IsCommon(s) }

  lemma LowMeans(s: string)
    ensures IsLowConfidence(s) <==> ShortWord(s)
  {
    hide IsCommon;
    if |s| >= 2 { assert s[1..][0] == s[1]; }
  }

  /** A path has a parent shape exactly when some segment is a short word, and the token is the first. */
  lemma ParentExactly(path: string, i: nat)
    ensures var segs := Split(path);
      && (Parent(path).None? <==> forall j | 0 <= j < |segs| :: !ShortWord(segs[j]))
      && (i < |segs| && ShortWord(segs[i]) && (forall j | 0 <= j < i :: !ShortWord(segs[j])) ==>
            Parent(path).Some? && Parent(path).value.1 == segs[i])
  {
    forall s: string ensures IsLowConfidence(s) <==> ShortWord(s) { LowMeans(s); }
    hide IsLowConfidence, ShortWord, Layout, ParentPieces, Split;
  }

  /** Laying out an empty piece and then nonempty ones loses nothing. */
  lemma RootedLayout(p: seq<string>)
    requires Clean(p) && |p| >= 2 && p[0] == "" && forall i | 1 <= i < |p| :: p[i] != ""
    ensures Split(Layout(p)) == p
  {
    LayoutSplit(p);
    KeepAll(p[1..]);
    assert p == [p[0]] + p[1..];
  }
}
