/** The blanker of Rust comments and literals
    (tools/checks/check_security_matrix.py). Its loop is proved against a
    lexical reading of the source: the source is tiled by pieces, each the only
    piece that fits where it stands, and the output is what the pieces leave.
    No piece changes how many lines it spans. */
module CodeOnly {
  import opened Common

  // -----------------------------------------------------------------
  // Looking at a text

  predicate StartsAt(s: string, i: nat, pat: string) {
    i + |pat| <= |s| && s[i..i + |pat|] == pat
  }

  /** The text at `i` starts with these two characters. */
  predicate Pair(s: string, i: nat, a: char, b: char) {
    i + 1 < |s| && s[i] == a && s[i + 1] == b
  }

  /** Two characters stand at `i` exactly when the text from there is theirs, up to
      its very end. */
  lemma PairStands(s: string, i: nat, a: char, b: char)
    ensures Pair(s, i, a, b) <==> i + 2 <= |s| && s[i..i + 2] == [a, b]
  {
    if i + 2 <= |s| {
      assert s[i..i + 2][0] == s[i] && s[i..i + 2][1] == s[i + 1];
    }
  }

  /** Where `pat` first starts at or after `from`. */
  function FindFrom(s: string, pat: string, from: nat): (r: Option<nat>)
    requires from <= |s|
    ensures r.Some? ==> from <= r.value && StartsAt(s, r.value, pat)
    ensures r.Some? ==> forall k :: from <= k < r.value ==> !StartsAt(s, k, pat)
    ensures r.None? ==> forall k :: from <= k <= |s| ==> !StartsAt(s, k, pat)
    decreases |s| - from
  {
    if StartsAt(s, from, pat) then Some(from)
    else if from == |s| then None
    else FindFrom(s, pat, from + 1)
  }

  /** How many line breaks stand from `i` up to `j`. */
  function Count(s: string, i: nat, j: nat): (n: nat)
    ensures j <= i ==> n == 0
  {
    if j <= i then 0
    else Count(s, i, j - 1) + if j <= |s| && s[j - 1] == '\n' then 1 else 0
  }

  function Newlines(s: string): nat {
    Count(s, 0, |s|)
  }

  lemma {:induction false} CountOn(s: string, i: nat, j: nat, k: nat)
    requires i <= j <= k
    ensures Count(s, i, k) == Count(s, i, j) + Count(s, j, k)
  {
    if j < k {
      CountOn(s, i, j, k - 1);
    }
  }

  lemma {:induction false} CountNone(s: string, i: nat, j: nat)
    requires forall k :: i <= k < j && k < |s| ==> s[k] != '\n'
    ensures Count(s, i, j) == 0
  {
    if i < j {
      CountNone(s, i, j - 1);
    }
  }

  lemma {:induction false} CountShifted(s: string, t: string, k: nat)
    requires k <= |t|
    ensures Count(s + t, |s|, |s| + k) == Count(t, 0, k)
  {
    if k > 0 {
      CountShifted(s, t, k - 1);
      assert (s + t)[|s| + k - 1] == t[k - 1];
    }
  }

  lemma {:induction false} CountInPrefix(s: string, t: string, k: nat)
    requires k <= |s|
    ensures Count(s + t, 0, k) == Count(s, 0, k)
  {
    if k > 0 {
      CountInPrefix(s, t, k - 1);
    }
  }

  lemma NewlinesOfBoth(s: string, t: string)
    ensures Newlines(s + t) == Newlines(s) + Newlines(t)
  {
    CountOn(s + t, 0, |s|, |s + t|);
    CountInPrefix(s, t, |s|);
    CountShifted(s, t, |t|);
  }

  function Breaks(n: nat): (s: string)
    ensures |s| == n && forall i :: 0 <= i < n ==> s[i] == '\n'
  {
    seq(n, _ => '\n')
  }

  lemma {:induction false} BreaksBreak(n: nat, k: nat)
    requires k <= n
    ensures Count(Breaks(n), 0, k) == k
  {
    if k > 0 {
      BreaksBreak(n, k - 1);
    }
  }

  // -----------------------------------------------------------------
  // The pieces of Rust source

  datatype Kind = Open | Close | Inside | Comment | Raw | Quoted | Character | Code

  /** A stretch of source: `Open` and `Close` are the marks of a block comment,
      `Inside` one character within it. */
  datatype Piece = Piece(kind: Kind, chars: nat)

  /** The line that `i` is on ends at `e`. */
  ghost predicate EndsLine(s: string, i: nat, e: nat) {
    i <= e <= |s| && '\n' !in s[i..e] && (e == |s| || s[e] == '\n')
  }

  /** How many backslashes stand just before `k`, none before `from` counted. */
  ghost function Backslashes(s: string, from: nat, k: nat): nat
    requires k <= |s|
  {
    if from < k && s[k - 1] == '\\' then 1 + Backslashes(s, from, k - 1) else 0
  }

  /** A quote that no backslash escapes: an even number stand before it. */
  ghost predicate ClosesString(s: string, from: nat, k: nat)
    requires k < |s|
  {
    s[k] == '"' && Backslashes(s, from, k) % 2 == 0
  }

  /** The string whose first character is at `from` ends at `e`: just past
      its first closing quote, or with the text when it has none. */
  ghost predicate EndsString(s: string, from: nat, e: nat) {
    && from <= e <= |s|
    && (forall k :: from <= k < e - 1 ==> !ClosesString(s, from, k))
    && if from < e && ClosesString(s, from, e - 1) then true else e == |s|
  }

  function Hashes(s: string, i: nat): (n: nat)
    requires i <= |s|
    ensures i + n <= |s|
    decreases |s| - i
  {
    if i < |s| && s[i] == '#' then 1 + Hashes(s, i + 1) else 0
  }

  /** The raw string opened at `i`, if one is: the number of its hashes and
      where its first character is. */
  function OpensRaw(s: string, i: nat): (r: Option<(nat, nat)>)
    requires i < |s|
    ensures r.Some? ==> i < r.value.1 <= |s| && '\n' !in s[i..r.value.1]
  {
    var at := if s[i] == 'b' || s[i] == 'c' then i + 1 else i;
    if at < |s| && s[at] == 'r' then
      var n := Hashes(s, at + 1);
      var q := at + 1 + n;
      if q < |s| && s[q] == '"' then
        HashesAreHashes(s, at + 1);
        Some((n, q + 1))
      else None
    else None
  }

  lemma {:induction false} HashesAreHashes(s: string, i: nat)
    requires i <= |s|
    ensures forall k :: i <= k < i + Hashes(s, i) ==> s[k] == '#'
    decreases |s| - i
  {
    if i < |s| && s[i] == '#' {
      HashesAreHashes(s, i + 1);
    }
  }

  function RawClose(hashes: nat): (pat: string)
    ensures |pat| == 1 + hashes
    ensures pat[0] == '"' && forall k :: 0 < k < |pat| ==> pat[k] == '#'
  {
    "\"" + seq(hashes, _ => '#')
  }

  ghost predicate EndsRaw(s: string, from: nat, pat: string, e: nat) {
    && from <= e <= |s|
    && (forall k :: from <= k < e - |pat| ==> !StartsAt(s, k, pat))
    && if from + |pat| <= e && StartsAt(s, e - |pat|, pat) then true
       else e == |s| && forall k :: from <= k <= |s| ==> !StartsAt(s, k, pat)
  }

  /** Not in the middle of a word. */
  predicate WordStarts(alnum: char -> bool, s: string, i: nat)
    requires i < |s|
  {
    i == 0 || !(alnum(s[i - 1]) || s[i - 1] == '_')
  }

  predicate RawHere(alnum: char -> bool, s: string, i: nat)
    requires i < |s|
  {
    s[i] in "bcr" && WordStarts(alnum, s, i) && OpensRaw(s, i).Some?
  }

  ghost predicate EndsRawAt(s: string, i: nat, e: nat)
    requires i < |s| && OpensRaw(s, i).Some?
  {
    var open := OpensRaw(s, i).value;
    EndsRaw(s, open.1, RawClose(open.0), e)
  }

  /** The characters of the literal that opens at `i`, if one does: a quote,
      one character or an escape, a quote. */
  function CharacterHere(s: string, i: nat): (r: Option<nat>)
    requires i < |s|
    ensures r.Some? ==> 3 <= r.value <= 4 && i + r.value <= |s| && '\n' !in s[i..i + r.value]
  {
    if s[i] != '\'' then None
    else if i + 3 < |s| && s[i + 1] == '\\' && s[i + 2] != '\n' && s[i + 3] == '\'' then Some(4)
    else if i + 2 < |s| && s[i + 1] != '\\' && s[i + 1] != '\'' && s[i + 1] != '\n' && s[i + 2] == '\''
    then Some(3)
    else None
  }

  /** What opens a raw string: `r`, or `br` or `cr`, hashes and a quote. */
  ghost predicate IsRawOpening(text: string, hashes: nat) {
    RawAfter(text, hashes, 1) || (RawAfter(text, hashes, 2) && text[0] in "bc")
  }

  ghost predicate RawAfter(text: string, hashes: nat, p: nat) {
    && 0 < p && |text| == p + hashes + 1
    && text[p - 1] == 'r' && (forall k :: p <= k < p + hashes ==> text[k] == '#') && text[p + hashes] == '"'
  }

  lemma HashesAreAll(s: string, i: nat, n: nat)
    requires i + n < |s| && (forall k :: i <= k < i + n ==> s[k] == '#') && s[i + n] != '#'
    ensures Hashes(s, i) == n
    decreases n
  {
    if n > 0 {
      HashesAreAll(s, i + 1, n - 1);
    }
  }

  lemma RawOpeningIsSeen(s: string, i: nat, hashes: nat, e: nat)
    requires i < |s| && i <= e <= |s| && IsRawOpening(s[i..e], hashes)
    ensures OpensRaw(s, i) == Some((hashes, e))
  {
    var p := if RawAfter(s[i..e], hashes, 1) then 1 else 2;
    assert s[i] == s[i..e][0] && s[i + p - 1] == s[i..e][p - 1] && s[i + p + hashes] == s[i..e][p + hashes];
    forall k | i + p <= k < i + p + hashes
      ensures s[k] == '#'
    {
      assert s[k] == s[i..e][k - i];
    }
    HashesAreAll(s, i + p, hashes);
  }

  /** A raw string opens exactly where an opening stands. */
  lemma RawOpens(s: string, i: nat, hashes: nat, e: nat)
    requires i < |s|
    ensures OpensRaw(s, i) == Some((hashes, e)) <==> i <= e <= |s| && IsRawOpening(s[i..e], hashes)
  {
    if OpensRaw(s, i) == Some((hashes, e)) {
      var p := if s[i] == 'b' || s[i] == 'c' then 2 else 1;
      HashesAreHashes(s, i + p);
      assert RawAfter(s[i..e], hashes, p);
    } else if i <= e <= |s| && IsRawOpening(s[i..e], hashes) {
      RawOpeningIsSeen(s, i, hashes, e);
    }
  }

  /** And is read as one unless it stands in the middle of a word. */
  lemma RawStands(alnum: char -> bool, s: string, i: nat)
    requires i < |s|
    ensures RawHere(alnum, s, i) <==>
            && (i == 0 || (!alnum(s[i - 1]) && s[i - 1] != '_'))
            && exists hashes: nat, e: nat :: i <= e <= |s| && IsRawOpening(s[i..e], hashes)
  {
    if OpensRaw(s, i).Some? {
      RawOpens(s, i, OpensRaw(s, i).value.0, OpensRaw(s, i).value.1);
    }
    if hashes: nat, e: nat :| i <= e <= |s| && IsRawOpening(s[i..e], hashes) {
      RawOpens(s, i, hashes, e);
      assert s[i] == s[i..e][0];
    }
  }

  /** A character literal: a quote, one character that is no quote, backslash or
      line break, or a backslash and any one but a line break, and a quote. */
  ghost predicate IsCharacter(text: string) {
    || (|text| == 3 && text == ['\'', text[1], '\''] && text[1] !in "\\'\n")
    || (|text| == 4 && text == ['\'', '\\', text[2], '\''] && text[2] != '\n')
  }

  /** A literal opens exactly where one stands, and is as long. */
  lemma CharacterStands(s: string, i: nat, n: nat)
    requires i < |s|
    ensures CharacterHere(s, i) == Some(n) <==> i + n <= |s| && IsCharacter(s[i..i + n])
  {
    if i + n <= |s| && 3 <= n {
      var text := s[i..i + n];
      assert text[0] == s[i] && text[1] == s[i + 1] && text[2] == s[i + 2] && (n > 3 ==> text[3] == s[i + 3]);
    }
  }

  /** What stands at `i` under `depth` open comments. */
  ghost function KindAt(alnum: char -> bool, s: string, i: nat, depth: nat): Kind
    requires i < |s|
  {
    if Pair(s, i, '/', '*') then Open
    else if depth > 0 then if Pair(s, i, '*', '/') then Close else Inside
    else if Pair(s, i, '/', '/') then Comment
    else if RawHere(alnum, s, i) then Raw
    else if s[i] == '"' then Quoted
    else if CharacterHere(s, i).Some? then Character
    else Code
  }

  /** A piece of that kind that starts at `i` ends at `e`. */
  ghost predicate Ends(s: string, i: nat, kind: Kind, e: nat)
    requires i < |s|
  {
    match kind
    case Open => e == i + 2
    case Close => e == i + 2
    case Inside => e == i + 1
    case Comment => EndsLine(s, i, e)
    case Raw => OpensRaw(s, i).Some? && EndsRawAt(s, i, e)
    case Quoted => EndsString(s, i + 1, e)
    case Character => CharacterHere(s, i).Some? && e == i + CharacterHere(s, i).value
    case Code => e == i + 1
  }

  ghost predicate Fits(alnum: char -> bool, s: string, i: nat, depth: nat, p: Piece)
    requires i < |s|
  {
    p.kind == KindAt(alnum, s, i, depth) && Ends(s, i, p.kind, i + p.chars)
  }

  lemma OneLineEnd(s: string, i: nat, d: nat, e: nat)
    requires EndsLine(s, i, d) && EndsLine(s, i, e)
    ensures d <= e
  {
  }

  lemma OneRawEnd(s: string, from: nat, pat: string, d: nat, e: nat)
    requires |pat| > 0 && EndsRaw(s, from, pat, d) && EndsRaw(s, from, pat, e)
    ensures d <= e
  {
  }

  lemma OneStringEnd(s: string, from: nat, d: nat, e: nat)
    requires EndsString(s, from, d) && EndsString(s, from, e)
    ensures d <= e
  {
  }

  lemma OneEnd(s: string, i: nat, kind: Kind, d: nat, e: nat)
    requires i < |s| && Ends(s, i, kind, d) && Ends(s, i, kind, e)
    ensures d <= e
  {
    match kind
    case Comment => OneLineEnd(s, i, d, e);
    case Quoted => OneStringEnd(s, i + 1, d, e);
    case Raw =>
      var open := OpensRaw(s, i).value;
      OneRawEnd(s, open.1, RawClose(open.0), d, e);
    case _ =>
  }

  /** One piece fits at each place. */
  lemma FitsAlone(alnum: char -> bool, s: string, i: nat, depth: nat, p: Piece, q: Piece)
    requires i < |s| && Fits(alnum, s, i, depth, p) && Fits(alnum, s, i, depth, q)
    ensures p == q
  {
    OneEnd(s, i, p.kind, i + p.chars, i + q.chars);
    OneEnd(s, i, p.kind, i + q.chars, i + p.chars);
  }

  // -----------------------------------------------------------------
  // Tiling the source

  ghost function End(pieces: seq<Piece>): nat {
    if pieces == [] then 0 else End(pieces[..|pieces| - 1]) + pieces[|pieces| - 1].chars
  }

  ghost function DepthAfter(depth: nat, kind: Kind): int {
    match kind
    case Open => depth + 1
    case Close => depth - 1
    case _ => depth
  }

  ghost function Depth(pieces: seq<Piece>): int {
    if pieces == [] then 0
    else
      var d := Depth(pieces[..|pieces| - 1]);
      if d < 0 then d else DepthAfter(d, pieces[|pieces| - 1].kind)
  }

  /** Each piece is the one that fits where those before it end. */
  ghost predicate Tiles(alnum: char -> bool, s: string, pieces: seq<Piece>) {
    pieces == [] ||
    var init, last := pieces[..|pieces| - 1], pieces[|pieces| - 1];
    && Tiles(alnum, s, init)
    && End(init) < |s| && Depth(init) >= 0
    && Fits(alnum, s, End(init), Depth(init), last)
  }

  lemma TilesOneMore(alnum: char -> bool, s: string, pieces: seq<Piece>, p: Piece)
    requires Tiles(alnum, s, pieces) && End(pieces) < |s| && Depth(pieces) >= 0
    requires Fits(alnum, s, End(pieces), Depth(pieces), p)
    ensures Tiles(alnum, s, pieces + [p]) && End(pieces + [p]) == End(pieces) + p.chars
    ensures Depth(pieces + [p]) == DepthAfter(Depth(pieces), p.kind) >= 0
  {
    assert (pieces + [p])[..|pieces|] == pieces;
  }

  lemma {:induction false} TilesBefore(alnum: char -> bool, s: string, pieces: seq<Piece>, k: nat)
    requires Tiles(alnum, s, pieces) && k < |pieces|
    ensures Tiles(alnum, s, pieces[..k]) && End(pieces[..k]) < |s| && Depth(pieces[..k]) >= 0
    ensures Fits(alnum, s, End(pieces[..k]), Depth(pieces[..k]), pieces[k])
  {
    var init := pieces[..|pieces| - 1];
    if k < |init| {
      TilesBefore(alnum, s, init, k);
      assert init[..k] == pieces[..k];
    }
  }

  lemma Longer(a: seq<Piece>, b: seq<Piece>, k: nat)
    requires k < |a| && k < |b| && a[..k] == b[..k] && a[k] == b[k]
    ensures a[..k + 1] == b[..k + 1]
  {
    assert a[..k + 1] == a[..k] + [a[k]] && b[..k + 1] == b[..k] + [b[k]];
  }

  lemma {:induction false} TilesAgree(alnum: char -> bool, s: string, a: seq<Piece>, b: seq<Piece>, k: nat)
    requires Tiles(alnum, s, a) && Tiles(alnum, s, b) && k <= |a| && k <= |b|
    ensures a[..k] == b[..k]
  {
    if k > 0 {
      TilesAgree(alnum, s, a, b, k - 1);
      TilesBefore(alnum, s, a, k - 1);
      TilesBefore(alnum, s, b, k - 1);
      FitsAlone(alnum, s, End(a[..k - 1]), Depth(a[..k - 1]), a[k - 1], b[k - 1]);
      Longer(a, b, k - 1);
    }
  }

  lemma TilesNoFurther(alnum: char -> bool, s: string, a: seq<Piece>, b: seq<Piece>)
    requires Tiles(alnum, s, a) && Tiles(alnum, s, b) && End(a) == |s|
    ensures |b| <= |a|
  {
    if |a| < |b| {
      TilesAgree(alnum, s, a, b, |a|);
      assert a[..|a|] == a;
      TilesBefore(alnum, s, b, |a|);
    }
  }

  /** A text has one reading. */
  lemma OneReading(alnum: char -> bool, s: string, a: seq<Piece>, b: seq<Piece>)
    requires Tiles(alnum, s, a) && Tiles(alnum, s, b) && End(a) == End(b) == |s|
    ensures a == b
  {
    TilesNoFurther(alnum, s, a, b);
    TilesNoFurther(alnum, s, b, a);
    TilesAgree(alnum, s, a, b, |a|);
    assert a[..|a|] == a && b[..|b|] == b;
  }

  // -----------------------------------------------------------------
  // What the pieces leave

  function Left(s: string, i: nat, p: Piece): string
    requires i < |s|
  {
    match p.kind
    case Inside => if s[i] == '\n' then "\n" else " "
    case Raw => "\"\"" + Breaks(Count(s, i, i + p.chars))
    case Quoted => "\"\"" + Breaks(Count(s, i, i + p.chars))
    case Character => "' '"
    case Code => [s[i]]
    case _ => ""
  }

  /** A literal leaves its own quotes, empty or blank, and the line breaks it
      spans; comment marks leave nothing, and a comment's body blanks. */
  lemma WhatIsLeft(s: string, i: nat, p: Piece)
    requires i < |s|
    ensures p.kind.Raw? || p.kind.Quoted? ==>
              Left(s, i, p)[..2] == "\"\"" && forall k :: 2 <= k < |Left(s, i, p)| ==> Left(s, i, p)[k] == '\n'
    ensures p.kind.Character? ==> Left(s, i, p) == "' '"
    ensures p.kind.Open? || p.kind.Close? || p.kind.Comment? ==> Left(s, i, p) == ""
    ensures p.kind.Inside? ==> Left(s, i, p) in ["\n", " "]
  {
    assert "\n" in ["\n", " "] && " " in ["\n", " "] by { assert ["\n", " "][0] == "\n" && ["\n", " "][1] == " "; }
  }

  ghost function Rendered(s: string, pieces: seq<Piece>): string {
    if pieces == [] then ""
    else
      var init := pieces[..|pieces| - 1];
      Rendered(s, init) + if End(init) < |s| then Left(s, End(init), pieces[|pieces| - 1]) else ""
  }

  lemma FitsWithin(alnum: char -> bool, s: string, i: nat, depth: nat, p: Piece)
    requires i < |s| && Fits(alnum, s, i, depth, p)
    ensures p.chars >= 1 && i + p.chars <= |s|
  {
  }

  lemma QuotesBreak(n: nat)
    ensures Newlines("\"\"" + Breaks(n)) == n
  {
    NewlinesOfBoth("\"\"", Breaks(n));
    CountNone("\"\"", 0, 2);
    BreaksBreak(n, n);
  }

  /** A piece spans as many lines as what it leaves. */
  lemma PieceKeepsLines(alnum: char -> bool, s: string, i: nat, depth: nat, p: Piece)
    requires i < |s| && Fits(alnum, s, i, depth, p)
    ensures Newlines(Left(s, i, p)) == Count(s, i, i + p.chars)
  {
    match p.kind
    case Open => CountNone(s, i, i + p.chars);
    case Close => CountNone(s, i, i + p.chars);
    case Comment => CountNone(s, i, i + p.chars);
    case Character =>
      CountNone(s, i, i + p.chars);
      CountNone("' '", 0, 3);
    case Raw => QuotesBreak(Count(s, i, i + p.chars));
    case Quoted => QuotesBreak(Count(s, i, i + p.chars));
    case Inside =>
    case Code =>
  }

  lemma LinesStep(alnum: char -> bool, s: string, i: nat, depth: nat, p: Piece, out: string)
    requires i < |s| && Fits(alnum, s, i, depth, p) && Newlines(out) == Count(s, 0, i)
    ensures i + p.chars <= |s|
    ensures Newlines(out + Left(s, i, p)) == Count(s, 0, i + p.chars)
  {
    FitsWithin(alnum, s, i, depth, p);
    PieceKeepsLines(alnum, s, i, depth, p);
    NewlinesOfBoth(out, Left(s, i, p));
    CountOn(s, 0, i, i + p.chars);
  }

  /** However far the tiling has come, the output holds as many line breaks as
      the source read. */
  lemma {:induction false} LinesKept(alnum: char -> bool, s: string, pieces: seq<Piece>)
    requires Tiles(alnum, s, pieces)
    ensures End(pieces) <= |s|
    ensures Newlines(Rendered(s, pieces)) == Count(s, 0, End(pieces))
  {
    if pieces != [] {
      var init, last := pieces[..|pieces| - 1], pieces[|pieces| - 1];
      LinesKept(alnum, s, init);
      LinesStep(alnum, s, End(init), Depth(init), last, Rendered(s, init));
    }
  }

  lemma {:induction false} RenderedBefore(s: string, pieces: seq<Piece>, k: nat)
    requires k < |pieces| && End(pieces[..k]) < |s|
    ensures Rendered(s, pieces[..k]) + Left(s, End(pieces[..k]), pieces[k]) <= Rendered(s, pieces)
  {
    var init := pieces[..|pieces| - 1];
    if k < |init| {
      assert init[..k] == pieces[..k];
      RenderedBefore(s, init, k);
    }
  }

  /** Code is kept, on the line it was on. */
  lemma CodeKeepsItsLine(alnum: char -> bool, s: string, pieces: seq<Piece>, k: nat)
    requires Tiles(alnum, s, pieces) && k < |pieces| && pieces[k].kind.Code?
    ensures var i, q, out := End(pieces[..k]), |Rendered(s, pieces[..k])|, Rendered(s, pieces);
            && i < |s| && q < |out| && out[q] == s[i]
            && Count(out, 0, q) == Count(s, 0, i)
  {
    TilesBefore(alnum, s, pieces, k);
    RenderedBefore(s, pieces, k);
    LinesKept(alnum, s, pieces[..k]);
    OneCharacter(alnum, s, End(pieces[..k]), Depth(pieces[..k]), pieces[k]);
    NextInPrefix(Rendered(s, pieces[..k]), s[End(pieces[..k])], Rendered(s, pieces));
  }

  lemma OneCharacter(alnum: char -> bool, s: string, i: nat, depth: nat, p: Piece)
    requires i < |s| && Fits(alnum, s, i, depth, p) && p.kind.Code?
    ensures Left(s, i, p) == [s[i]]
  {
  }

  lemma NextInPrefix(a: string, c: char, out: string)
    requires a + [c] <= out
    ensures |a| < |out| && out[|a|] == c && Count(out, 0, |a|) == Newlines(a)
  {
    var rest := out[|a|..];
    assert out == a + rest && rest[0] == (a + [c])[|a|];
    CountInPrefix(a, rest, |a|);
  }

  lemma LeftIsCode(s: string, i: nat, p: Piece, k: nat)
    requires i < |s| && k < |Left(s, i, p)| && Left(s, i, p)[k] !in " \"'\n"
    ensures p.kind.Code? && k == 0
  {
  }

  /** Nothing else is: but for blanks, empty quotes and line breaks, every
      character of the output is one of code. */
  lemma {:induction false} OnlyCodeIsKept(alnum: char -> bool, s: string, pieces: seq<Piece>, q: nat)
    requires Tiles(alnum, s, pieces) && q < |Rendered(s, pieces)|
    requires Rendered(s, pieces)[q] !in " \"'\n"
    ensures exists k :: 0 <= k < |pieces| && pieces[k].kind.Code? && q == |Rendered(s, pieces[..k])|
  {
    var init, last := pieces[..|pieces| - 1], pieces[|pieces| - 1];
    var before := Rendered(s, init);
    if q < |before| {
      OnlyCodeIsKept(alnum, s, init, q);
      var k :| 0 <= k < |init| && init[k].kind.Code? && q == |Rendered(s, init[..k])|;
      assert init[..k] == pieces[..k];
      assert pieces[k].kind.Code?;
    } else {
      LeftIsCode(s, End(init), last, q - |before|);
      assert pieces[..|init|] == init && pieces[|init|] == last;
    }
  }

  // -----------------------------------------------------------------
  // The loop

  /** An odd run of backslashes escapes; the scan steps over what it escapes. */
  method StringEnd(s: string, from: nat) returns (j: nat)
    requires from <= |s|
    ensures EndsString(s, from, Min(j + 1, |s|))
    ensures from <= j && (j < |s| ==> s[j] == '"')
  {
    j := from;
    while j < |s| && s[j] != '"'
      invariant from <= j
      invariant j <= |s| ==> Backslashes(s, from, j) % 2 == 0
      invariant forall k :: from <= k < j && k < |s| ==> !ClosesString(s, from, k)
    {
      if s[j] == '\\' {
        Escaped(s, from, j);
        j := j + 2;
      } else {
        j := j + 1;
      }
    }
  }

  lemma Escaped(s: string, from: nat, j: nat)
    requires from <= j < |s| && s[j] == '\\' && Backslashes(s, from, j) % 2 == 0
    ensures j + 1 < |s| ==> !ClosesString(s, from, j + 1)
    ensures j + 2 <= |s| ==> Backslashes(s, from, j + 2) % 2 == 0
  {
    assert Backslashes(s, from, j + 1) == 1 + Backslashes(s, from, j);
  }

  method RawEnd(s: string, from: nat, hashes: nat) returns (e: nat)
    requires from <= |s|
    ensures EndsRaw(s, from, RawClose(hashes), e)
  {
    var close := RawClose(hashes);
    var at := FindFrom(s, close, from);
    e := if at.None? then |s| else at.value + |close|;
  }

  method LineEnd(s: string, i: nat) returns (e: nat)
    requires i < |s|
    ensures EndsLine(s, i, e)
  {
    var at := FindFrom(s, "\n", i);
    e := if at.None? then |s| else at.value;
    forall k | i <= k < e
      ensures s[k] != '\n'
    {
      assert !StartsAt(s, k, "\n");
    }
  }

  method TurnRaw(s: string, i: nat) returns (more: string, e: nat)
    requires i < |s| && OpensRaw(s, i).Some?
    ensures i <= e <= |s| && Ends(s, i, Raw, e)
    ensures more == Left(s, i, Piece(Raw, e - i))
  {
    var open := OpensRaw(s, i).value;
    e := RawEnd(s, open.1, open.0);
    more := "\"\"" + Breaks(Count(s, i, e));
    assert EndsRawAt(s, i, e);
  }

  method TurnString(s: string, i: nat) returns (more: string, i': nat)
    requires i < |s| && s[i] == '"'
    ensures i < i' && Ends(s, i, Quoted, Min(i', |s|))
    ensures more == Left(s, i, Piece(Quoted, Min(i', |s|) - i))
  {
    var j := StringEnd(s, i + 1);
    i' := j + 1;
    more := "\"\"" + Breaks(Count(s, i, j));
    ClosingQuoteIsNoBreak(s, i, j);
  }

  /** A turn within a block comment. */
  method TurnInside(alnum: char -> bool, s: string, i: nat, depth: nat)
    returns (more: string, i': nat, depth': nat, ghost p: Piece)
    requires i < |s| && depth > 0
    ensures Fits(alnum, s, i, depth, p) && more == Left(s, i, p)
    ensures i + p.chars == Min(i', |s|) && depth' == DepthAfter(depth, p.kind)
  {
    more := "";
    if Pair(s, i, '/', '*') {
      p := Piece(Open, 2);
      depth', i' := depth + 1, i + 2;
    } else if Pair(s, i, '*', '/') {
      p := Piece(Close, 2);
      depth', i' := depth - 1, i + 2;
    } else {
      p := Piece(Inside, 1);
      more, i', depth' := if s[i] == '\n' then "\n" else " ", i + 1, depth;
      }
  }

  /** A turn outside any comment. */
  method TurnOutside(alnum: char -> bool, s: string, i: nat) returns (more: string, i': nat, ghost p: Piece)
    requires i < |s| && !Pair(s, i, '/', '*') && !Pair(s, i, '/', '/')
    ensures Fits(alnum, s, i, 0, p) && more == Left(s, i, p)
    ensures i + p.chars == Min(i', |s|) && p.kind in {Raw, Quoted, Character, Code}
  {
    if RawHere(alnum, s, i) {
      more, i' := TurnRaw(s, i);
      p := Piece(Raw, i' - i);
      return;
    }
    if s[i] == '"' {
      more, i' := TurnString(s, i);
      p := Piece(Quoted, Min(i', |s|) - i);
      return;
    }
    var literal := CharacterHere(s, i);
    if literal.Some? {
      p := Piece(Character, literal.value);
      more, i' := "' '", i + literal.value;
      return;
    }
    p := Piece(Code, 1);
    more, i' := [s[i]], i + 1;
  }

  /** One turn of the loop: the piece at `i`, what is written for it, and
      where the next begins. */
  method Turn(alnum: char -> bool, s: string, i: nat, depth: nat)
    returns (more: string, i': nat, depth': nat, ghost p: Piece)
    requires i < |s|
    ensures Fits(alnum, s, i, depth, p) && more == Left(s, i, p)
    ensures i + p.chars == Min(i', |s|) && depth' == DepthAfter(depth, p.kind)
  {
    if depth > 0 {
      more, i', depth', p := TurnInside(alnum, s, i, depth);
      return;
    }
    more, i', depth' := "", i, depth;
    if Pair(s, i, '/', '*') {
      p := Piece(Open, 2);
      depth', i' := 1, i + 2;
      return;
    }
    if Pair(s, i, '/', '/') {
      i' := LineEnd(s, i);
      p := Piece(Comment, i' - i);
      return;
    }
    more, i', p := TurnOutside(alnum, s, i);
  }

  lemma ClosingQuoteIsNoBreak(s: string, i: nat, j: nat)
    requires i <= |s| && i <= j && (j < |s| ==> s[j] == '"')
    ensures Count(s, i, j) == Count(s, i, Min(j + 1, |s|))
  {
    CountOn(s, i, Min(j, |s|), j);
    CountNone(s, Min(j, |s|), j);
  }

  lemma RenderOneMore(s: string, pieces: seq<Piece>, p: Piece)
    requires End(pieces) < |s|
    ensures Rendered(s, pieces + [p]) == Rendered(s, pieces) + Left(s, End(pieces), p)
  {
    assert (pieces + [p])[..|pieces|] == pieces;
  }

  lemma NewlinesSnoc(s: string, c: char)
    ensures Newlines(s + [c]) == Newlines(s) + if c == '\n' then 1 else 0
  {
    NewlinesOfBoth(s, [c]);
  }

  /** The text cut at its line breaks. */
  function Split(s: string): (lines: seq<string>)
    ensures |lines| == 1 + Newlines(s)
    ensures Joined(lines) == s
    ensures forall k :: 0 <= k < |lines| ==> '\n' !in lines[k]
  {
    if s == "" then [""]
    else
      NewlinesSnoc(s[..|s| - 1], s[|s| - 1]);
      assert s == s[..|s| - 1] + [s[|s| - 1]];
      var init, last := Split(s[..|s| - 1]), s[|s| - 1];
      if last == '\n' then
        assert (init + [""])[..|init|] == init;
        init + [""]
      else
        var k := |init| - 1;
        assert (init[k := init[k] + [last]])[..k] == init[..k];
        init[k := init[k] + [last]]
  }

  function Joined(lines: seq<string>): string
    requires |lines| > 0
  {
    if |lines| == 1 then lines[0]
    else Joined(lines[..|lines| - 1]) + "\n" + lines[|lines| - 1]
  }

  method CodeLines(alnum: char -> bool, source: string) returns (lines: seq<string>, ghost pieces: seq<Piece>)
    ensures Tiles(alnum, source, pieces) && End(pieces) == |source|
    ensures lines == Split(Rendered(source, pieces))
    ensures |lines| == 1 + Newlines(source)
  {
    var out, i, depth := "", 0, 0;
    pieces := [];
    while i < |source|
      invariant Tiles(alnum, source, pieces)
      invariant End(pieces) == Min(i, |source|) && Depth(pieces) == depth
      invariant out == Rendered(source, pieces)
      invariant Newlines(out) == Count(source, 0, Min(i, |source|))
      decreases |source| - i
    {
      ghost var p;
      var more;
      ghost var was := i;
      more, i, depth, p := Turn(alnum, source, i, depth);
      FitsWithin(alnum, source, was, Depth(pieces), p);
      TilesOneMore(alnum, source, pieces, p);
      RenderOneMore(source, pieces, p);
      pieces, out := pieces + [p], out + more;
      LinesKept(alnum, source, pieces);
    }
    lines := Split(out);
  }
}
