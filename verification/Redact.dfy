/** The log scrubber: marked values, signature parameters and URL user information. */
module Redact {
  import opened Wrappers
  import Text

  const REDACTED := "***redacted***"

  predicate IsWhitespace(c: char) {
    var n := c as int;
    || n == 0x20 || 0x09 <= n <= 0x0D || n == 0x85 || n == 0xA0 || n == 0x1680 || 0x2000 <= n <= 0x200A
    || n == 0x2028 || n == 0x2029 || n == 0x202F || n == 0x205F || n == 0x3000
  }

  /** Markers, the characters they can start with, and what ends the value behind one. */
  datatype Shape = Shape(markers: seq<string>, starts: set<char>, isDelim: char -> bool)

  const BEARER := Shape(["bearer ", "basic ", "x-api-key: ", "x-api-key="], {'b', 'x'},
                        c => IsWhitespace(c) || c == '"' || c == ',' || c == '\'')

  const SIGNATURE := Shape(["?sig=", "&sig=", "?signature=", "&signature=", "-signature="], {'?', '&', '-'},
                           c => c == '&' || IsWhitespace(c) || c == '"' || c == '\'')

  // ---- Finding ----

  /** The marker stands at position `p`, in any letter case. */
  predicate Occurs(s: string, p: nat, m: string) {
    p + |m| <= |s| && forall j :: 0 <= j < |m| ==> Text.LowerChar(s[p + j]) == m[j]
  }

  predicate Marked(s: string, p: nat, shape: Shape) {
    exists m :: m in shape.markers && Occurs(s, p, m)
  }

  /** The length of the first listed marker that stands at `p`. */
  function MarkerAt(s: string, p: nat, markers: seq<string>): Option<nat> {
    if markers == [] then None
    else if Occurs(s, p, markers[0]) then Some(|markers[0]|)
    else MarkerAt(s, p, markers[1..])
  }

  /** Position and length of the earliest marker from `from` on. */
  function FindMarker(s: string, from: nat, markers: seq<string>): Option<(nat, nat)>
    decreases |s| - from
  {
    match MarkerAt(s, from, markers)
    case Some(len) => Some((from, len))
    case None => if from >= |s| then None else FindMarker(s, from + 1, markers)
  }

  /** The position of the first delimiter from `from` on, or the end. */
  function FindDelim(s: string, from: nat, isDelim: char -> bool): (n: nat)
    requires from <= |s|
    ensures from <= n <= |s|
    decreases |s| - from
  {
    if from == |s| || isDelim(s[from]) then from else FindDelim(s, from + 1, isDelim)
  }

  lemma {:induction false} FindDelimMeans(s: string, from: nat, isDelim: char -> bool)
    requires from <= |s|
    ensures var n := FindDelim(s, from, isDelim);
            (n < |s| ==> isDelim(s[n])) && forall i :: from <= i < n ==> !isDelim(s[i])
    decreases |s| - from
  {
    if from < |s| && !isDelim(s[from]) {
      FindDelimMeans(s, from + 1, isDelim);
    }
  }

  lemma {:induction false} MarkerAtMeans(s: string, p: nat, markers: seq<string>)
    ensures match MarkerAt(s, p, markers)
            case Some(len) => exists m :: m in markers && Occurs(s, p, m) && |m| == len
            case None => forall m :: m in markers ==> !Occurs(s, p, m)
  {
    if markers != [] {
      MarkerAtMeans(s, p, markers[1..]);
      assert forall m :: m in markers <==> m == markers[0] || m in markers[1..];
      assert markers[0] in markers;
    }
  }

  /** No marker stands at `from` or later, before `to`. */
  predicate Unmarked(s: string, from: nat, to: nat, shape: Shape) {
    forall p :: from <= p < to ==> !Marked(s, p, shape)
  }

  /** The found marker stands where it is said to, and none stands before it; finding none means there is none. */
  lemma {:induction false} FindMarkerMeans(s: string, from: nat, shape: Shape)
    requires from <= |s|
    ensures match FindMarker(s, from, shape.markers)
            case Some((p, len)) =>
              from <= p && Unmarked(s, from, p, shape) && exists m :: m in shape.markers && Occurs(s, p, m) && |m| == len
            case None => Unmarked(s, from, |s| + 1, shape)
    decreases |s| - from
  {
    MarkerAtMeans(s, from, shape.markers);
    if MarkerAt(s, from, shape.markers).None? && from < |s| {
      FindMarkerMeans(s, from + 1, shape);
    }
  }

  // ---- One pass ----

  predicate UsableMarkers(markers: seq<string>) {
    forall i :: 0 <= i < |markers| ==> markers[i] != ""
  }

  lemma MarkerFits(s: string, from: nat, shape: Shape, pos: nat, len: nat)
    requires from <= |s| && UsableMarkers(shape.markers) && FindMarker(s, from, shape.markers) == Some((pos, len))
    ensures from <= pos < pos + len <= |s|
  {
    FindMarkerMeans(s, from, shape);
  }

  /** What stands for a value; nothing stands for an empty one. */
  function Token(length: nat): string {
    if length > 0 then REDACTED else ""
  }

  /** A stretch copied up to the end of a marker, what stands for the value behind it, and the rest. */
  function Piece(s: string, cursor: nat, start: nat, end: nat, rest: string): string
    requires cursor <= start <= end && start <= |s|
  {
    s[cursor..start] + Token(end - start) + rest
  }

  /** After each marker from the cursor on the value is replaced, and scanning goes on behind it. */
  function Scan(s: string, cursor: nat, shape: Shape): string
    requires cursor <= |s| && UsableMarkers(shape.markers)
    decreases |s| - cursor
  {
    match FindMarker(s, cursor, shape.markers)
    case None => s[cursor..]
    case Some((pos, len)) =>
      MarkerFits(s, cursor, shape, pos, len);
      var end := FindDelim(s, pos + len, shape.isDelim);
      Piece(s, cursor, pos + len, end, Scan(s, end, shape))
  }

  /** The position of one marker's first occurrence. */
  function Find(s: string, from: nat, m: string): Option<nat>
    decreases |s| - from
  {
    if Occurs(s, from, m) then Some(from) else if from >= |s| then None else Find(s, from + 1, m)
  }

  /** The earlier of two finds; the first wins a tie. */
  function Earlier(a: Option<(nat, nat)>, b: Option<nat>, len: nat): Option<(nat, nat)> {
    if b.None? then a
    else if a.None? || b.value < a.value.0 then Some((b.value, len))
    else a
  }

  lemma {:induction false} MarkerAtSnoc(s: string, p: nat, markers: seq<string>, m: string)
    ensures MarkerAt(s, p, markers + [m]) ==
            if MarkerAt(s, p, markers).Some? then MarkerAt(s, p, markers) else if Occurs(s, p, m) then Some(|m|) else None
  {
    if markers == [] {
      assert ([] + [m])[0] == m && ([] + [m])[1..] == [];
    } else {
      assert (markers + [m])[0] == markers[0] && (markers + [m])[1..] == markers[1..] + [m];
      MarkerAtSnoc(s, p, markers[1..], m);
    }
  }

  lemma {:induction false} FindIsFrom(s: string, from: nat, markers: seq<string>, m: string)
    ensures FindMarker(s, from, markers).Some? ==> FindMarker(s, from, markers).value.0 >= from
    ensures Find(s, from, m).Some? ==> Find(s, from, m).value >= from
    decreases |s| - from
  {
    if from < |s| {
      FindIsFrom(s, from + 1, markers, m);
    }
  }

  lemma {:induction false} FindSnoc(s: string, from: nat, markers: seq<string>, m: string)
    ensures FindMarker(s, from, markers + [m]) == Earlier(FindMarker(s, from, markers), Find(s, from, m), |m|)
    decreases |s| - from
  {
    MarkerAtSnoc(s, from, markers, m);
    FindIsFrom(s, from, markers, m);
    if from < |s| {
      FindSnoc(s, from + 1, markers, m);
      FindIsFrom(s, from + 1, markers, m);
    }
  }

  lemma {:induction false} FindNothing(s: string, from: nat)
    ensures FindMarker(s, from, []).None?
    decreases |s| - from
  {
    if from < |s| {
      FindNothing(s, from + 1);
    }
  }

  /** Each marker's own first occurrence; the earliest wins, and of two at one place the one listed first. */
  method EarliestMarker(s: string, from: nat, markers: seq<string>) returns (next: Option<(nat, nat)>)
    ensures next == FindMarker(s, from, markers)
  {
    next := None;
    FindNothing(s, from);
    for i := 0 to |markers|
      invariant next == FindMarker(s, from, markers[..i])
    {
      FindSnoc(s, from, markers[..i], markers[i]);
      assert markers[..i + 1] == markers[..i] + [markers[i]];
      next := Earlier(next, Find(s, from, markers[i]), |markers[i]|);
    }
    assert markers[..|markers|] == markers;
  }

  lemma ScanStep(s: string, cursor: nat, shape: Shape, pos: nat, len: nat, end: nat, rest: string)
    requires cursor <= |s| && UsableMarkers(shape.markers) && FindMarker(s, cursor, shape.markers) == Some((pos, len))
    requires cursor <= pos < pos + len <= |s| && end == FindDelim(s, pos + len, shape.isDelim) && rest == Scan(s, end, shape)
    ensures Scan(s, cursor, shape) == Piece(s, cursor, pos + len, end, rest)
  {
  }

  /** The cursor loop: it only advances, past each value, and never looks at an inserted token. */
  method ScanLoop(s: string, shape: Shape) returns (out: string)
    requires UsableMarkers(shape.markers)
    ensures out == Scan(s, 0, shape)
  {
    out := "";
    var cursor := 0;
    ghost var total := Scan(s, 0, shape);
    assert "" + total == total;
    while cursor < |s|
      invariant 0 <= cursor <= |s|
      invariant out + Scan(s, cursor, shape) == total
    {
      var next := EarliestMarker(s, cursor, shape.markers);
      if next.None? {
        assert Scan(s, cursor, shape) == s[cursor..];
        return out + s[cursor..];
      }
      var (pos, len) := next.value;
      MarkerFits(s, cursor, shape, pos, len);
      var end := FindDelim(s, pos + len, shape.isDelim);
      ScanStep(s, cursor, shape, pos, len, end, Scan(s, end, shape));
      var copied := s[cursor..pos + len] + Token(end - (pos + len));
      Text.SeqAssociates(out, copied, Scan(s, end, shape));
      out := out + copied;
      cursor := end;
    }
    EmptyScan(s, shape);
  }

  lemma EmptyScan(s: string, shape: Shape)
    requires UsableMarkers(shape.markers)
    ensures Scan(s, |s|, shape) == ""
  {
    NoMarkerAtEnd(s, shape);
  }

  lemma NoMarkerAtEnd(s: string, shape: Shape)
    requires UsableMarkers(shape.markers)
    ensures FindMarker(s, |s|, shape.markers).None?
  {
    FindMarkerMeans(s, |s|, shape);
  }

  // ---- What a pass guarantees ----

  /** The end of the text, or a delimiter. */
  predicate Ended(s: string, q: nat, shape: Shape) {
    q == |s| || (q < |s| && shape.isDelim(s[q]))
  }

  predicate TokenAt(s: string, q: nat) {
    q + |REDACTED| <= |s| && s[q..q + |REDACTED|] == REDACTED
  }

  /** Nothing is left of a value: a delimiter follows, or the token and then a delimiter. */
  predicate Followed(s: string, q: nat, shape: Shape) {
    Ended(s, q, shape) || (TokenAt(s, q) && Ended(s, q + |REDACTED|, shape))
  }

  /** No value stands behind any marker from `from` on. */
  ghost predicate Clean(s: string, from: nat, shape: Shape) {
    forall p: nat, m {:trigger Occurs(s, p, m)} :: from <= p && m in shape.markers && Occurs(s, p, m) ==> Followed(s, p + |m|, shape)
  }

  /** Markers start where no marker goes on, none starts another, and the token holds no start and no delimiter. */
  ghost predicate WellShaped(shape: Shape) {
    && UsableMarkers(shape.markers)
    && (forall m {:trigger TailAvoids(m, shape.starts)} :: m in shape.markers ==> m != "" && m[0] in shape.starts && TailAvoids(m, shape.starts))
    && (forall m, n {:trigger Agree(m, n)} :: m in shape.markers && n in shape.markers && Agree(m, n) ==> m == n)
    && (forall i :: 0 <= i < |REDACTED| ==> Text.LowerChar(REDACTED[i]) !in shape.starts && !shape.isDelim(REDACTED[i]))
  }

  predicate TailAvoids(m: string, starts: set<char>) {
    forall i :: 1 <= i < |m| ==> m[i] !in starts
  }

  /** One is the beginning of the other. */
  predicate Agree(m: string, n: string) {
    forall i :: 0 <= i < |m| && i < |n| ==> m[i] == n[i]
  }

  lemma {:induction false} FindDelimAt(s: string, from: nat, n: nat, shape: Shape)
    requires from <= n <= |s| && Ended(s, n, shape) && forall i :: from <= i < n ==> !shape.isDelim(s[i])
    ensures FindDelim(s, from, shape.isDelim) == n
    decreases n - from
  {
    if from < n {
      FindDelimAt(s, from + 1, n, shape);
    }
  }

  /** The value behind a marker of clean text is empty or the token. */
  lemma CleanValue(s: string, start: nat, shape: Shape)
    requires WellShaped(shape) && start <= |s| && Followed(s, start, shape)
    ensures var end := FindDelim(s, start, shape.isDelim); s[start..end] == Token(end - start)
  {
    if Ended(s, start, shape) {
      FindDelimAt(s, start, start, shape);
    } else {
      var n := start + |REDACTED|;
      forall i | start <= i < n
        ensures !shape.isDelim(s[i])
      {
        assert s[i] == s[start..n][i - start] == REDACTED[i - start];
      }
      FindDelimAt(s, start, n, shape);
    }
  }

  lemma FoundIsFollowed(s: string, cursor: nat, shape: Shape, pos: nat, len: nat)
    requires cursor <= |s| && Clean(s, cursor, shape) && FindMarker(s, cursor, shape.markers) == Some((pos, len))
    ensures Followed(s, pos + len, shape)
  {
    FindMarkerMeans(s, cursor, shape);
  }

  lemma UnchangedPiece(s: string, cursor: nat, start: nat, end: nat)
    requires cursor <= start <= end <= |s| && s[start..end] == Token(end - start)
    ensures Piece(s, cursor, start, end, s[end..]) == s[cursor..]
  {
    ThreePieces(s, cursor, start, end);
  }

  lemma ThreePieces(s: string, i: nat, j: nat, k: nat)
    requires i <= j <= k <= |s|
    ensures s[i..] == s[i..j] + s[j..k] + s[k..]
  {
    var joined := s[i..j] + s[j..k] + s[k..];
    assert |joined| == |s[i..]|;
    forall n | 0 <= n < |joined|
      ensures joined[n] == s[i..][n]
    {
      assert s[i..][n] == s[i + n];
    }
  }

  lemma CleanLater(s: string, from: nat, to: nat, shape: Shape)
    requires Clean(s, from, shape) && from <= to
    ensures Clean(s, to, shape)
  {
  }

  lemma CleanBehind(s: string, cursor: nat, shape: Shape, pos: nat, len: nat)
    requires WellShaped(shape) && cursor <= |s| && Clean(s, cursor, shape) && FindMarker(s, cursor, shape.markers) == Some((pos, len))
    requires cursor <= pos < pos + len <= |s|
    ensures var end := FindDelim(s, pos + len, shape.isDelim); s[pos + len..end] == Token(end - (pos + len)) && Clean(s, end, shape)
  {
    FoundIsFollowed(s, cursor, shape, pos, len);
    CleanValue(s, pos + len, shape);
    CleanLater(s, cursor, FindDelim(s, pos + len, shape.isDelim), shape);
  }

  /** Scanning clean text changes nothing. */
  lemma {:induction false} CleanIsFixed(s: string, cursor: nat, shape: Shape)
    requires WellShaped(shape) && cursor <= |s| && Clean(s, cursor, shape)
    ensures Scan(s, cursor, shape) == s[cursor..]
    decreases |s| - cursor
  {
    match FindMarker(s, cursor, shape.markers)
    case None =>
    case Some((pos, len)) =>
      MarkerFits(s, cursor, shape, pos, len);
      var start := pos + len;
      var end := FindDelim(s, start, shape.isDelim);
      CleanBehind(s, cursor, shape, pos, len);
      CleanIsFixed(s, end, shape);
      ScanStep(s, cursor, shape, pos, len, end, s[end..]);
      UnchangedPiece(s, cursor, start, end);
  }

  // ---- Occurrences in pieces ----

  lemma OccursRight(x: string, y: string, p: nat, m: string)
    ensures Occurs(x + y, |x| + p, m) <==> Occurs(y, p, m)
  {
    var z := x + y;
    if p + |m| <= |y| {
      assert forall k :: |x| <= k < |z| ==> z[k] == y[k - |x|];
    }
  }

  lemma OccursInSlice(s: string, from: nat, to: nat, p: nat, m: string)
    requires from <= to <= |s| && p + |m| <= to - from
    ensures Occurs(s[from..to], p, m) <==> Occurs(s, from + p, m)
  {
    var t := s[from..to];
    assert forall k :: 0 <= k < |t| ==> t[k] == s[from + k];
  }

  lemma FollowedRight(x: string, y: string, q: nat, shape: Shape)
    ensures Followed(x + y, |x| + q, shape) <==> Followed(y, q, shape)
  {
    var z := x + y;
    if q + |REDACTED| <= |y| {
      assert z[|x| + q..|x| + q + |REDACTED|] == y[q..q + |REDACTED|];
    }
    assert q < |y| ==> z[|x| + q] == y[q];
    assert q + |REDACTED| < |y| ==> z[|x| + q + |REDACTED|] == y[q + |REDACTED|];
  }

  /** The scanned text begins with the character under the cursor. */
  lemma ScanBegins(s: string, cursor: nat, shape: Shape)
    requires cursor <= |s| && UsableMarkers(shape.markers)
    ensures var o := Scan(s, cursor, shape); if cursor == |s| then o == "" else o != "" && o[0] == s[cursor]
  {
    if cursor == |s| {
      EmptyScan(s, shape);
    } else if FindMarker(s, cursor, shape.markers).Some? {
      var (pos, len) := FindMarker(s, cursor, shape.markers).value;
      MarkerFits(s, cursor, shape, pos, len);
      var end := FindDelim(s, pos + len, shape.isDelim);
      ScanStep(s, cursor, shape, pos, len, end, Scan(s, end, shape));
    }
  }

  /** What an occurrence says of one character, wherever it is asked. */
  lemma CharOf(s: string, p: nat, m: string, i: int)
    ensures Occurs(s, p, m) && 0 <= i < |m| ==> p + i < |s| && Text.LowerChar(s[p + i]) == m[i]
  {
  }

  lemma MarkerStart(m: string, shape: Shape)
    requires WellShaped(shape) && m in shape.markers
    ensures m != "" && m[0] in shape.starts && TailAvoids(m, shape.starts)
  {
    assert TailAvoids(m, shape.starts);
  }

  /** The token holds no marker start. */
  lemma TokenHoldsNoStart(o: string, a: nat, p: nat, m: string, shape: Shape)
    requires WellShaped(shape) && m in shape.markers && TokenAt(o, a) && a <= p < a + |REDACTED|
    ensures !Occurs(o, p, m)
  {
    MarkerStart(m, shape);
    assert o[p] == o[a..a + |REDACTED|][p - a];
    CharOf(o, p, m, 0);
  }

  /** An occurrence in text that starts with a slice of `s`, within that slice, is one in `s`. */
  lemma OccursBySlice(s: string, from: nat, to: nat, o: string, p: nat, m: string)
    requires from <= to <= |s| && to - from <= |o| && o[..to - from] == s[from..to]
    ensures Occurs(o, p, m) && p + |m| <= to - from ==> Occurs(s, from + p, m)
  {
    assert forall k :: 0 <= k < to - from ==> o[k] == o[..to - from][k] == s[from..to][k] == s[from + k];
  }

  lemma SameChar(s: string, from: nat, to: nat, o: string, k: int)
    requires from <= to <= |s| && to - from <= |o| && o[..to - from] == s[from..to]
    ensures 0 <= k < to - from ==> o[k] == s[from + k]
  {
    if 0 <= k < to - from {
      assert o[k] == o[..to - from][k] && s[from + k] == s[from..to][k];
    }
  }

  lemma AgreeIfTogether(s: string, pos: nat, n: string, o: string, p: nat, m: string)
    requires Occurs(s, pos, n) && Occurs(o, p, m)
    requires p <= pos && forall k :: p <= k < p + |n| && k < |o| ==> o[k] == s[pos - p + k]
    ensures Agree(m, n)
  {
    forall i | 0 <= i < |m| && i < |n|
      ensures m[i] == n[i]
    {
      CharOf(o, p, m, i);
      CharOf(s, pos, n, i);
    }
  }

  /** Within the copied piece, a marker of the scanned shape is the found one or none. */
  lemma OnlyFoundMarker(s: string, cursor: nat, pos: nat, n: string, o: string, p: nat, m: string, shape: Shape)
    requires WellShaped(shape) && m in shape.markers && n in shape.markers
    requires cursor <= pos && Occurs(s, pos, n) && Unmarked(s, cursor, pos, shape)
    requires pos + |n| - cursor <= |o| && o[..pos + |n| - cursor] == s[cursor..pos + |n|]
    requires Occurs(o, p, m) && p < pos + |n| - cursor
    ensures cursor + p == pos && m == n
  {
    var at, to := cursor + p, pos + |n|;
    MarkerStart(m, shape);
    MarkerStart(n, shape);
    CharOf(o, p, m, 0);
    CharOf(s, pos, n, at - pos);
    SameChar(s, cursor, to, o, p);
    assert at <= pos;
    CharOf(o, p, m, pos - at);
    CharOf(s, pos, n, 0);
    SameChar(s, cursor, to, o, pos - cursor);
    assert at == pos || at + |m| <= pos;
    OccursBySlice(s, cursor, to, o, p, m);
    assert at + |m| <= pos ==> Marked(s, at, shape);
    assert at == pos;
    forall k | p <= k < p + |n| && k < |o|
      ensures o[k] == s[pos - p + k]
    {
      SameChar(s, cursor, to, o, k);
    }
    AgreeIfTogether(s, pos, n, o, p, m);
  }

  lemma FollowedByToken(s: string, start: nat, end: nat, pre: string, rest: string, shape: Shape)
    requires WellShaped(shape) && start <= |s| && end == FindDelim(s, start, shape.isDelim)
    requires if end == |s| then rest == "" else rest != "" && rest[0] == s[end]
    ensures Followed(pre + Token(end - start) + rest, |pre|, shape)
  {
    FindDelimMeans(s, start, shape.isDelim);
    var o := pre + Token(end - start) + rest;
    if end > start {
      assert o[|pre|..|pre| + |REDACTED|] == REDACTED;
    }
  }

  /** Behind the inserted token an occurrence belongs to the rest, which is clean. */
  lemma RestIsClean(pre: string, token: string, rest: string, p: nat, m: string, shape: Shape)
    requires Clean(rest, 0, shape) && m in shape.markers && |pre| + |token| <= p
    requires Occurs(pre + token + rest, p, m)
    ensures Followed(pre + token + rest, p + |m|, shape)
  {
    var b := |pre| + |token|;
    OccursRight(pre + token, rest, p - b, m);
    FollowedRight(pre + token, rest, p - b + |m|, shape);
  }

  lemma NotInToken(pre: string, length: nat, rest: string, p: nat, m: string, shape: Shape)
    requires WellShaped(shape) && m in shape.markers && Occurs(pre + Token(length) + rest, p, m)
    ensures p < |pre| || |pre| + |Token(length)| <= p
  {
    var o := pre + Token(length) + rest;
    if length > 0 {
      assert o[|pre|..|pre| + |REDACTED|] == REDACTED;
      if |pre| <= p < |pre| + |REDACTED| {
        TokenHoldsNoStart(o, |pre|, p, m, shape);
      }
    }
  }

  lemma CopiedMarkerIsFollowed(s: string, cursor: nat, pos: nat, n: string, end: nat, pre: string, rest: string, o: string, p: nat, m: string, shape: Shape)
    requires WellShaped(shape) && m in shape.markers && n in shape.markers
    requires cursor <= pos && Occurs(s, pos, n) && Unmarked(s, cursor, pos, shape)
    requires end == FindDelim(s, pos + |n|, shape.isDelim)
    requires if end == |s| then rest == "" else rest != "" && rest[0] == s[end]
    requires pre == s[cursor..pos + |n|] && o == pre + Token(end - (pos + |n|)) + rest
    requires Occurs(o, p, m) && p < |pre|
    ensures Followed(o, p + |m|, shape)
  {
    assert o[..|pre|] == pre;
    OnlyFoundMarker(s, cursor, pos, n, o, p, m, shape);
    FollowedByToken(s, pos + |n|, end, pre, rest, shape);
  }

  lemma PieceIsClean(s: string, cursor: nat, pos: nat, n: string, end: nat, rest: string, p: nat, m: string, shape: Shape)
    requires WellShaped(shape) && m in shape.markers && n in shape.markers
    requires cursor <= pos && Occurs(s, pos, n) && Unmarked(s, cursor, pos, shape)
    requires end == FindDelim(s, pos + |n|, shape.isDelim)
    requires if end == |s| then rest == "" else rest != "" && rest[0] == s[end]
    requires Clean(rest, 0, shape) && Occurs(s[cursor..pos + |n|] + Token(end - (pos + |n|)) + rest, p, m)
    ensures Followed(s[cursor..pos + |n|] + Token(end - (pos + |n|)) + rest, p + |m|, shape)
  {
    var pre, token := s[cursor..pos + |n|], Token(end - (pos + |n|));
    NotInToken(pre, end - (pos + |n|), rest, p, m, shape);
    if p < |pre| {
      CopiedMarkerIsFollowed(s, cursor, pos, n, end, pre, rest, pre + token + rest, p, m, shape);
    } else {
      RestIsClean(pre, token, rest, p, m, shape);
    }
  }

  /** The output of a pass is clean: no scanned value survives. */
  lemma {:induction false} ScanIsClean(s: string, cursor: nat, shape: Shape)
    requires WellShaped(shape) && cursor <= |s|
    ensures Clean(Scan(s, cursor, shape), 0, shape)
    decreases |s| - cursor
  {
    match FindMarker(s, cursor, shape.markers)
    case None => UnmarkedIsClean(s, cursor, shape);
    case Some((pos, len)) =>
      MarkerFits(s, cursor, shape, pos, len);
      var end := FindDelim(s, pos + len, shape.isDelim);
      ScanStep(s, cursor, shape, pos, len, end, Scan(s, end, shape));
      ScanIsClean(s, end, shape);
      ScanBegins(s, end, shape);
      FoundPieceIsClean(s, cursor, pos, len, end, Scan(s, end, shape), shape);
  }

  lemma UnmarkedIsClean(s: string, cursor: nat, shape: Shape)
    requires cursor <= |s| && FindMarker(s, cursor, shape.markers).None?
    ensures Clean(s[cursor..], 0, shape)
  {
    FindMarkerMeans(s, cursor, shape);
    assert s[cursor..|s|] == s[cursor..];
    forall p: nat, m | m in shape.markers
      ensures !Occurs(s[cursor..], p, m)
    {
      if p + |m| <= |s| - cursor {
        OccursInSlice(s, cursor, |s|, p, m);
        assert !Marked(s, cursor + p, shape);
      }
    }
  }

  lemma FoundPieceIsClean(s: string, cursor: nat, pos: nat, len: nat, end: nat, rest: string, shape: Shape)
    requires WellShaped(shape) && cursor <= |s| && FindMarker(s, cursor, shape.markers) == Some((pos, len))
    requires cursor <= pos < pos + len <= |s| && end == FindDelim(s, pos + len, shape.isDelim)
    requires if end == |s| then rest == "" else rest != "" && rest[0] == s[end]
    requires Clean(rest, 0, shape)
    ensures Clean(s[cursor..pos + len] + Token(end - (pos + len)) + rest, 0, shape)
  {
    var n := FoundMarker(s, cursor, shape, pos, len);
    PiecesAreClean(s, cursor, pos, n, end, rest, shape);
  }

  lemma PiecesAreClean(s: string, cursor: nat, pos: nat, n: string, end: nat, rest: string, shape: Shape)
    requires WellShaped(shape) && n in shape.markers
    requires cursor <= pos && Occurs(s, pos, n) && Unmarked(s, cursor, pos, shape)
    requires end == FindDelim(s, pos + |n|, shape.isDelim)
    requires if end == |s| then rest == "" else rest != "" && rest[0] == s[end]
    requires Clean(rest, 0, shape)
    ensures Clean(s[cursor..pos + |n|] + Token(end - (pos + |n|)) + rest, 0, shape)
  {
    var o := s[cursor..pos + |n|] + Token(end - (pos + |n|)) + rest;
    forall p: nat, m | m in shape.markers && Occurs(o, p, m)
      ensures Followed(o, p + |m|, shape)
    {
      PieceIsClean(s, cursor, pos, n, end, rest, p, m, shape);
    }
  }

  // ---- A later pass keeps an earlier one's work ----

  predicate Avoids(n: string, starts: set<char>) {
    forall i :: 0 <= i < |n| ==> n[i] !in starts
  }

  /** Two markers do not overlap when the second starts inside the first. */
  predicate Clash(m: string, n: string, i: nat) {
    exists k :: i <= k < |m| && k - i < |n| && m[k] != n[k - i]
  }

  /** Markers of the second shape never run into those of the first, hold none of its starts, and start with none of its delimiters. */
  ghost predicate Apart(first: Shape, second: Shape) {
    && WellShaped(first) && WellShaped(second)
    && (forall n {:trigger Avoids(n, first.starts)} :: n in second.markers ==> Avoids(n, first.starts))
    && (forall m, n, i {:trigger Clash(m, n, i)} :: m in first.markers && n in second.markers && 1 <= i < |m| ==> Clash(m, n, i))
    && (forall c :: Text.LowerChar(c) in second.starts ==> !first.isDelim(c))
  }

  /** Two markers that overlap in one text do not clash. */
  lemma OverlapAgrees(s: string, cursor: nat, pos: nat, n: string, o: string, p: nat, m: string, i: nat)
    requires cursor <= pos && Occurs(s, pos, n) && Occurs(o, p, m) && cursor + p + i == pos
    requires pos + |n| - cursor <= |o| && o[..pos + |n| - cursor] == s[cursor..pos + |n|]
    ensures !Clash(m, n, i)
  {
    forall k | i <= k < |m| && k - i < |n|
      ensures m[k] == n[k - i]
    {
      CharOf(o, p, m, k);
      CharOf(s, pos, n, k - i);
      SameChar(s, cursor, pos + |n|, o, p + k);
    }
  }

  /** A marker of the first shape in the copied piece ends before the scanned marker, and stood there before. */
  lemma EarlierMarkerIsWhole(s: string, cursor: nat, pos: nat, n: string, o: string, p: nat, m: string, first: Shape, second: Shape)
    requires Apart(first, second) && m in first.markers && n in second.markers
    requires cursor <= pos && Occurs(s, pos, n)
    requires pos + |n| - cursor <= |o| && o[..pos + |n| - cursor] == s[cursor..pos + |n|]
    requires Occurs(o, p, m) && p < pos + |n| - cursor
    ensures cursor + p + |m| <= pos && Occurs(s, cursor + p, m)
  {
    var at, to := cursor + p, pos + |n|;
    MarkerStart(m, first);
    assert Avoids(n, first.starts);
    CharOf(o, p, m, 0);
    CharOf(s, pos, n, at - pos);
    SameChar(s, cursor, to, o, p);
    assert at < pos;
    assert pos - at < |m| ==> Clash(m, n, pos - at);
    OverlapAgrees(s, cursor, pos, n, o, p, m, pos - at);
    OccursBySlice(s, cursor, to, o, p, m);
  }

  lemma TokenChar(s: string, q: nat, k: int)
    ensures TokenAt(s, q) && q <= k < q + |REDACTED| ==> s[k] == REDACTED[k - q]
  {
    if TokenAt(s, q) && q <= k < q + |REDACTED| {
      assert s[k] == s[q..q + |REDACTED|][k - q];
    }
  }

  lemma TokenBefore(s: string, q: nat, pos: nat, second: Shape)
    requires WellShaped(second) && TokenAt(s, q) && pos < |s| && Text.LowerChar(s[pos]) in second.starts && q <= pos
    ensures q + |REDACTED| <= pos
  {
    TokenChar(s, q, pos);
  }

  lemma SubSlice(s: string, a: nat, b: nat, i: nat, j: nat)
    requires a <= b <= |s| && i <= j <= b - a
    ensures s[a..b][i..j] == s[a + i..a + j]
  {
    var x, y := s[a..b][i..j], s[a + i..a + j];
    forall k | 0 <= k < j - i
      ensures x[k] == y[k]
    {
      assert x[k] == s[a..b][i + k];
    }
  }

  /** The token, where it stands in a shared slice, stands in both texts. */
  lemma TokenShared(s: string, cursor: nat, to: nat, o: string, q: nat)
    requires cursor <= q && q + |REDACTED| <= to <= |s| && TokenAt(s, q)
    requires to - cursor <= |o| && o[..to - cursor] == s[cursor..to]
    ensures TokenAt(o, q - cursor)
  {
    var i, j := q - cursor, q + |REDACTED| - cursor;
    SubSlice(s, cursor, to, i, j);
    SubSlice(o, 0, to - cursor, i, j);
    assert o[0..to - cursor] == o[..to - cursor];
  }

  /** What follows a marker before `pos` in `s` follows it in any text that starts like `s` up to there. */
  lemma StillFollowed(s: string, cursor: nat, pos: nat, to: nat, o: string, q: nat, first: Shape, second: Shape)
    requires Apart(first, second) && cursor <= q <= pos < to <= |s| && Text.LowerChar(s[pos]) in second.starts
    requires to - cursor <= |o| && o[..to - cursor] == s[cursor..to]
    requires Followed(s, q, first)
    ensures Followed(o, q - cursor, first)
  {
    SameChar(s, cursor, to, o, q - cursor);
    if !Ended(s, q, first) {
      TokenBefore(s, q, pos, second);
      TokenShared(s, cursor, to, o, q);
      SameChar(s, cursor, to, o, q + |REDACTED| - cursor);
    }
  }

  lemma KeptPieceIsClean(s: string, cursor: nat, pos: nat, len: nat, length: nat, rest: string, p: nat, m: string, first: Shape, second: Shape)
    requires Apart(first, second) && m in first.markers && Clean(s, cursor, first)
    requires cursor <= |s| && FindMarker(s, cursor, second.markers) == Some((pos, len)) && cursor <= pos < pos + len <= |s|
    requires Clean(rest, 0, first) && Occurs(s[cursor..pos + len] + Token(length) + rest, p, m)
    ensures Followed(s[cursor..pos + len] + Token(length) + rest, p + |m|, first)
  {
    var pre, token := s[cursor..pos + len], Token(length);
    NotInToken(pre, length, rest, p, m, first);
    if p < |pre| {
      KeptMarkerIsFollowed(s, cursor, pos, len, pre, pre + token + rest, p, m, first, second);
    } else {
      RestIsClean(pre, token, rest, p, m, first);
    }
  }

  lemma FoundMarker(s: string, from: nat, shape: Shape, pos: nat, len: nat) returns (n: string)
    requires WellShaped(shape) && from <= |s| && FindMarker(s, from, shape.markers) == Some((pos, len))
    ensures n in shape.markers && Occurs(s, pos, n) && |n| == len > 0 && from <= pos && pos + len <= |s|
    ensures Text.LowerChar(s[pos]) in shape.starts && Unmarked(s, from, pos, shape)
  {
    FindMarkerMeans(s, from, shape);
    n :| n in shape.markers && Occurs(s, pos, n) && |n| == len;
    MarkerStart(n, shape);
    CharOf(s, pos, n, 0);
  }

  lemma KeptMarkerIsFollowed(s: string, cursor: nat, pos: nat, len: nat, pre: string, o: string, p: nat, m: string, first: Shape, second: Shape)
    requires Apart(first, second) && m in first.markers && Clean(s, cursor, first)
    requires cursor <= |s| && FindMarker(s, cursor, second.markers) == Some((pos, len)) && cursor <= pos < pos + len <= |s|
    requires pre == s[cursor..pos + len] && pre <= o && Occurs(o, p, m) && p < |pre|
    ensures Followed(o, p + |m|, first)
  {
    var n := FoundMarker(s, cursor, second, pos, len);
    assert o[..|pre|] == pre;
    KeptMarkerEnds(s, cursor, pos, n, o, p, m, first, second);
  }

  lemma KeptMarkerEnds(s: string, cursor: nat, pos: nat, n: string, o: string, p: nat, m: string, first: Shape, second: Shape)
    requires Apart(first, second) && m in first.markers && n in second.markers && Clean(s, cursor, first)
    requires cursor <= pos && Occurs(s, pos, n) && n != "" && Text.LowerChar(s[pos]) in second.starts
    requires pos + |n| - cursor <= |o| && o[..pos + |n| - cursor] == s[cursor..pos + |n|]
    requires Occurs(o, p, m) && p < pos + |n| - cursor
    ensures Followed(o, p + |m|, first)
  {
    EarlierMarkerIsWhole(s, cursor, pos, n, o, p, m, first, second);
    assert Followed(s, cursor + p + |m|, first);
    StillFollowed(s, cursor, pos, pos + |n|, o, cursor + p + |m|, first, second);
  }

  /** Text clean of one shape is still clean of it after a pass for another. */
  lemma {:induction false} ScanKeepsClean(s: string, cursor: nat, first: Shape, second: Shape)
    requires Apart(first, second) && cursor <= |s| && Clean(s, cursor, first)
    ensures Clean(Scan(s, cursor, second), 0, first)
    decreases |s| - cursor
  {
    match FindMarker(s, cursor, second.markers)
    case None => SuffixIsClean(s, cursor, first);
    case Some((pos, len)) =>
      MarkerFits(s, cursor, second, pos, len);
      var end := FindDelim(s, pos + len, second.isDelim);
      ScanStep(s, cursor, second, pos, len, end, Scan(s, end, second));
      CleanLater(s, cursor, end, first);
      ScanKeepsClean(s, end, first, second);
      KeptPiecesAreClean(s, cursor, pos, len, end - (pos + len), Scan(s, end, second), first, second);
  }

  lemma KeptPiecesAreClean(s: string, cursor: nat, pos: nat, len: nat, length: nat, rest: string, first: Shape, second: Shape)
    requires Apart(first, second) && Clean(s, cursor, first)
    requires cursor <= |s| && FindMarker(s, cursor, second.markers) == Some((pos, len)) && cursor <= pos < pos + len <= |s|
    requires Clean(rest, 0, first)
    ensures Clean(s[cursor..pos + len] + Token(length) + rest, 0, first)
  {
    var o := s[cursor..pos + len] + Token(length) + rest;
    forall p: nat, m | m in first.markers && Occurs(o, p, m)
      ensures Followed(o, p + |m|, first)
    {
      KeptPieceIsClean(s, cursor, pos, len, length, rest, p, m, first, second);
    }
  }

  lemma SuffixIsClean(s: string, cursor: nat, shape: Shape)
    requires cursor <= |s| && Clean(s, cursor, shape)
    ensures Clean(s[cursor..], 0, shape)
  {
    var t := s[cursor..];
    assert s == s[..cursor] + t;
    forall p: nat, m | m in shape.markers && Occurs(t, p, m)
      ensures Followed(t, p + |m|, shape)
    {
      OccursRight(s[..cursor], t, p, m);
      FollowedRight(s[..cursor], t, p + |m|, shape);
    }
  }

  // ---- User information in a URL ----

  predicate SchemeAt(s: string, p: nat) {
    p + 3 <= |s| && s[p] == ':' && s[p + 1] == '/' && s[p + 2] == '/'
  }

  /** The first `://`. */
  function FindScheme(s: string, from: nat): (r: Option<nat>)
    ensures r.Some? ==> from <= r.value && SchemeAt(s, r.value) && forall p :: from <= p < r.value ==> !SchemeAt(s, p)
    ensures r.None? ==> forall p :: from <= p ==> !SchemeAt(s, p)
    decreases |s| - from
  {
    if SchemeAt(s, from) then Some(from) else if from >= |s| then None else FindScheme(s, from + 1)
  }

  predicate EndsAuthority(c: char) {
    c == '/' || c == '?' || c == '#' || IsWhitespace(c) || c == '"'
  }

  /** Where the user information of the URL whose authority starts at `from` stands, when it has a password part. */
  function UserinfoAt(s: string, from: nat): (r: Option<(nat, nat)>)
    requires from <= |s|
    ensures r.Some? ==> from == r.value.0 <= r.value.1 < |s|
  {
    var authorityEnd := FindDelim(s, from, EndsAuthority);
    var at := FindDelim(s, from, c => c == '@');
    if at < authorityEnd && ':' in s[from..at] then Some((from, at)) else None
  }

  /** … that of the first URL. */
  function Userinfo(s: string): (r: Option<(nat, nat)>)
    ensures r.Some? ==> 3 <= r.value.0 <= r.value.1 < |s|
  {
    match FindScheme(s, 0)
    case None => None
    case Some(p) => UserinfoAt(s, p + 3)
  }

  function ScrubUserinfo(s: string): string {
    match Userinfo(s)
    case None => s
    case Some((from, to)) => s[..from] + REDACTED + s[to..]
  }

  ghost predicate SlashFree(shape: Shape) {
    forall m :: m in shape.markers ==> '/' !in m
  }

  lemma CharIn(m: string, i: int)
    ensures 0 <= i < |m| ==> m[i] in m
  {
  }

  /** A marker in front of the end of a `//` ends before it. */
  lemma MarkerBeforeSlashes(o: string, from: nat, p: nat, m: string, shape: Shape)
    requires SlashFree(shape) && m in shape.markers && m != "" && Occurs(o, p, m)
    requires 2 <= from <= |o| && o[from - 1] == '/' && o[from - 2] == '/' && p < from
    ensures p + |m| <= from - 2
  {
    CharOf(o, p, m, from - 1 - p);
    CharOf(o, p, m, from - 2 - p);
    CharIn(m, from - 1 - p);
    CharIn(m, from - 2 - p);
  }

  lemma TokenBeforeSlash(s: string, q: nat, k: nat)
    requires TokenAt(s, q) && q <= k < |s| && s[k] == '/'
    ensures q + |REDACTED| <= k
  {
    TokenChar(s, q, k);
    assert '/' !in REDACTED;
  }

  /** What follows a marker before a URL's `//` follows it still when what stands behind the `//` changes. */
  lemma FollowedBeforeSlashes(s: string, from: nat, o: string, q: nat, shape: Shape)
    requires 2 <= from <= |s| && from <= |o| && o[..from] == s[..from]
    requires s[from - 2] == '/' && q <= from - 2 && Followed(s, q, shape)
    ensures Followed(o, q, shape)
  {
    assert s[0..from] == s[..from];
    SameChar(s, 0, from, o, q);
    if !Ended(s, q, shape) {
      TokenBeforeSlash(s, q, from - 2);
      TokenShared(s, 0, from, o, q);
      SameChar(s, 0, from, o, q + |REDACTED|);
    }
  }

  lemma UserinfoIsBehindSlashes(s: string)
    requires Userinfo(s).Some?
    ensures var (from, to) := Userinfo(s).value; s[from - 1] == '/' && s[from - 2] == '/'
  {
  }

  /** Replacing a URL's user information keeps text clean. */
  lemma ScrubUserinfoKeepsClean(s: string, shape: Shape)
    requires WellShaped(shape) && SlashFree(shape) && Clean(s, 0, shape)
    ensures Clean(ScrubUserinfo(s), 0, shape)
  {
    if Userinfo(s).Some? {
      var (from, to) := Userinfo(s).value;
      UserinfoIsBehindSlashes(s);
      CleanLater(s, 0, to, shape);
      SuffixIsClean(s, to, shape);
      forall p: nat, m | m in shape.markers && Occurs(ScrubUserinfo(s), p, m)
        ensures Followed(ScrubUserinfo(s), p + |m|, shape)
      {
        UserinfoPieceIsClean(s, from, s[to..], p, m, shape);
      }
    }
  }

  lemma UserinfoPieceIsClean(s: string, from: nat, rest: string, p: nat, m: string, shape: Shape)
    requires WellShaped(shape) && SlashFree(shape) && Clean(s, 0, shape) && Clean(rest, 0, shape) && m in shape.markers
    requires 2 <= from <= |s| && s[from - 1] == '/' && s[from - 2] == '/'
    requires Occurs(s[..from] + REDACTED + rest, p, m)
    ensures Followed(s[..from] + REDACTED + rest, p + |m|, shape)
  {
    var o := s[..from] + REDACTED + rest;
    NotInToken(s[..from], 1, rest, p, m, shape);
    if p < from {
      assert o[..from] == s[..from] && s[0..from] == s[..from];
      MarkerBeforeSlashes(o, from, p, m, shape);
      OccursBySlice(s, 0, from, o, p, m);
      FollowedBeforeSlashes(s, from, o, p + |m|, shape);
    } else {
      RestIsClean(s[..from], REDACTED, rest, p, m, shape);
    }
  }

  /** The replaced user information has no password part, so replacing again changes nothing. */
  lemma ScrubUserinfoIsIdempotent(s: string)
    ensures Userinfo(ScrubUserinfo(s)).None?
  {
    if Userinfo(s).Some? {
      var (from, to) := Userinfo(s).value;
      var o := ScrubUserinfo(s);
      SchemeStays(s, from, o);
      TokenIsWholeUserinfo(s, from, to, o);
    }
  }

  lemma SchemeStays(s: string, from: nat, o: string)
    requires FindScheme(s, 0) == Some(from - 3) && 3 <= from <= |o| && from <= |s| && o[..from] == s[..from]
    ensures FindScheme(o, 0) == Some(from - 3)
  {
    assert forall k :: 0 <= k < from ==> o[k] == o[..from][k] == s[..from][k] == s[k];
    assert SchemeAt(s, from - 3) && SchemeAt(o, from - 3);
    forall p | 0 <= p < from - 3
      ensures !SchemeAt(o, p)
    {
      assert !SchemeAt(s, p);
    }
  }

  lemma TokenIsWholeUserinfo(s: string, from: nat, to: nat, o: string)
    requires Userinfo(s) == Some((from, to)) && o == s[..from] + REDACTED + s[to..]
    ensures FindDelim(o, from, c => c == '@') == from + |REDACTED|
    ensures o[from..from + |REDACTED|] == REDACTED
  {
    var at := from + |REDACTED|;
    FindDelimMeans(s, from, c => c == '@');
    assert o[from..at] == REDACTED;
    assert o[at] == s[to] == '@';
    var atSign := Shape([], {}, c => c == '@');
    assert '@' !in REDACTED;
    forall i | from <= i < at
      ensures !atSign.isDelim(o[i])
    {
      assert o[i] == o[from..at][i - from] == REDACTED[i - from];
    }
    FindDelimAt(o, from, at, atSign);
  }

  // ---- The scrubber's own shapes ----

  lemma BearerMarkers(m: string)
    requires m in BEARER.markers
    ensures m == "bearer " || m == "basic " || m == "x-api-key: " || m == "x-api-key="
  {
  }

  lemma BearerIsWellShaped()
    ensures WellShaped(BEARER)
  {
    forall m | m in BEARER.markers
      ensures m != "" && m[0] in BEARER.starts && TailAvoids(m, BEARER.starts)
    {
      BearerStarts(m);
    }
    forall m, n | m in BEARER.markers && n in BEARER.markers && Agree(m, n)
      ensures m == n
    {
      BearerPrefixFree(m, n);
    }
    forall i | 0 <= i < |REDACTED|
      ensures Text.LowerChar(REDACTED[i]) !in BEARER.starts && !BEARER.isDelim(REDACTED[i])
    {
      BearerSparesToken(i);
    }
  }

  lemma BearerStarts(m: string)
    requires m in BEARER.markers
    ensures m != "" && m[0] in BEARER.starts && TailAvoids(m, BEARER.starts)
  {
    BearerMarkers(m);
  }

  lemma BearerPrefixFree(m: string, n: string)
    requires m in BEARER.markers && n in BEARER.markers && Agree(m, n)
    ensures m == n
  {
    BearerMarkers(m);
    BearerMarkers(n);
    BearerMarkersDiffer(m, n);
  }

  lemma BearerSparesToken(i: nat)
    requires i < |REDACTED|
    ensures Text.LowerChar(REDACTED[i]) !in BEARER.starts && !BEARER.isDelim(REDACTED[i])
  {
  }

  lemma BearerMarkersDiffer(m: string, n: string)
    requires m == "bearer " || m == "basic " || m == "x-api-key: " || m == "x-api-key="
    requires n == "bearer " || n == "basic " || n == "x-api-key: " || n == "x-api-key="
    requires Agree(m, n)
    ensures m == n
  {
    assert m[0] == n[0] && m[1] == n[1];
    assert |m| > 9 && |n| > 9 ==> m[9] == n[9];
  }

  lemma SignatureMarkers(m: string)
    requires m in SIGNATURE.markers
    ensures IsSignatureMarker(m)
  {
  }

  lemma SignaturePrefixFree(m: string, n: string)
    requires m in SIGNATURE.markers && n in SIGNATURE.markers && Agree(m, n)
    ensures m == n
  {
    SignatureMarkers(m);
    SignatureMarkers(n);
    SignatureMarkersDiffer(m, n);
  }

  lemma SignatureStarts(m: string)
    requires m in SIGNATURE.markers
    ensures m != "" && m[0] in SIGNATURE.starts && TailAvoids(m, SIGNATURE.starts)
  {
    SignatureMarkers(m);
    SignatureTails(m);
  }

  lemma SignatureSparesToken(i: nat)
    requires i < |REDACTED|
    ensures Text.LowerChar(REDACTED[i]) !in SIGNATURE.starts && !SIGNATURE.isDelim(REDACTED[i])
  {
  }

  lemma SignatureIsWellShaped()
    ensures WellShaped(SIGNATURE)
  {
    forall m | m in SIGNATURE.markers
      ensures m != "" && m[0] in SIGNATURE.starts && TailAvoids(m, SIGNATURE.starts)
    {
      SignatureStarts(m);
    }
    forall m, n | m in SIGNATURE.markers && n in SIGNATURE.markers && Agree(m, n)
      ensures m == n
    {
      SignaturePrefixFree(m, n);
    }
    forall i | 0 <= i < |REDACTED|
      ensures Text.LowerChar(REDACTED[i]) !in SIGNATURE.starts && !SIGNATURE.isDelim(REDACTED[i])
    {
      SignatureSparesToken(i);
    }
  }

  predicate IsSignatureMarker(m: string) {
    m == "?sig=" || m == "&sig=" || m == "?signature=" || m == "&signature=" || m == "-signature="
  }

  lemma SignatureMarkersDiffer(m: string, n: string)
    requires IsSignatureMarker(m) && IsSignatureMarker(n) && Agree(m, n)
    ensures m == n
  {
    assert m[0] == n[0];
    assert m[4] == n[4];
  }

  lemma SignatureTails(m: string)
    requires IsSignatureMarker(m)
    ensures m != "" && m[0] in {'?', '&', '-'} && TailAvoids(m, {'?', '&', '-'})
    ensures forall i :: 0 <= i < |m| ==> m[i] !in {'b', 'x'}
  {
  }

  lemma SignatureStartIsNoDelim(c: char)
    requires Text.LowerChar(c) in SIGNATURE.starts
    ensures !BEARER.isDelim(c)
  {
    assert c == '?' || c == '&' || c == '-';
  }

  lemma MarkersClashEverywhere(m: string, n: string)
    requires m in BEARER.markers && n in SIGNATURE.markers
    ensures forall i :: 1 <= i < |m| ==> Clash(m, n, i)
  {
    BearerMarkers(m);
    SignatureMarkers(n);
    forall i | 1 <= i < |m|
      ensures Clash(m, n, i)
    {
      MarkersClash(m, n, i);
    }
  }

  lemma BearerAndSignatureAreApart()
    ensures Apart(BEARER, SIGNATURE)
  {
    BearerIsWellShaped();
    SignatureIsWellShaped();
    forall n | n in SIGNATURE.markers
      ensures Avoids(n, BEARER.starts)
    {
      SignatureMarkers(n);
      SignatureTails(n);
    }
    forall m, n, i | m in BEARER.markers && n in SIGNATURE.markers && 1 <= i < |m|
      ensures Clash(m, n, i)
    {
      MarkersClashEverywhere(m, n);
    }
    forall c | Text.LowerChar(c) in SIGNATURE.starts
      ensures !BEARER.isDelim(c)
    {
      SignatureStartIsNoDelim(c);
    }
  }

  /** A hyphen inside a bearer marker is not that of a signature marker. */
  lemma MarkersClash(m: string, n: string, i: nat)
    requires m == "bearer " || m == "basic " || m == "x-api-key: " || m == "x-api-key="
    requires IsSignatureMarker(n)
    requires 1 <= i < |m|
    ensures Clash(m, n, i)
  {
    if m[i] != n[0] {
      assert i <= i < |m| && i - i < |n|;
    } else {
      assert m[i + 1] != n[i + 1 - i];
    }
  }

  lemma MarkersAreSlashFree()
    ensures SlashFree(BEARER) && SlashFree(SIGNATURE)
  {
    forall m | m in BEARER.markers
      ensures '/' !in m
    {
      BearerMarkers(m);
    }
    forall m | m in SIGNATURE.markers
      ensures '/' !in m
    {
      SignatureMarkers(m);
    }
  }

  // ---- The scrubber ----

  function Scrub(line: string): string {
    BearerIsWellShaped();
    SignatureIsWellShaped();
    ScrubUserinfo(Scan(Scan(line, 0, BEARER), 0, SIGNATURE))
  }

  /** The three passes, each over the last one's output. */
  method ScrubLine(line: string) returns (out: string)
    ensures out == Scrub(line)
  {
    BearerIsWellShaped();
    SignatureIsWellShaped();
    out := ScanLoop(line, BEARER);
    out := ScanLoop(out, SIGNATURE);
    out := RebuildUserinfo(out);
  }

  method RebuildUserinfo(s: string) returns (out: string)
    ensures out == ScrubUserinfo(s)
  {
    var info := Userinfo(s);
    if info.None? {
      return s;
    }
    out := s[..info.value.0];
    out := out + REDACTED;
    out := out + s[info.value.1..];
  }

  /** No value survives behind any marker, and the first URL holds no password. */
  ghost predicate Scrubbed(s: string) {
    Clean(s, 0, BEARER) && Clean(s, 0, SIGNATURE) && Userinfo(s).None?
  }

  /** Whatever goes in, what comes out is scrubbed: no pass undoes an earlier one. */
  lemma ScrubScrubs(line: string)
    ensures Scrubbed(Scrub(line))
  {
    BearerAndSignatureAreApart();
    MarkersAreSlashFree();
    var first := Scan(line, 0, BEARER);
    var second := Scan(first, 0, SIGNATURE);
    ScanIsClean(line, 0, BEARER);
    ScanKeepsClean(first, 0, BEARER, SIGNATURE);
    ScanIsClean(first, 0, SIGNATURE);
    ScrubUserinfoKeepsClean(second, BEARER);
    ScrubUserinfoKeepsClean(second, SIGNATURE);
    ScrubUserinfoIsIdempotent(second);
  }

  /** A line is left alone exactly when it is scrubbed already; a line with no marker and no user information is. */
  lemma LeftAloneExactlyWhenScrubbed(line: string)
    ensures Scrub(line) == line <==> Scrubbed(line)
  {
    ScrubScrubs(line);
    if Scrubbed(line) {
      BearerIsWellShaped();
      SignatureIsWellShaped();
      CleanIsFixed(line, 0, BEARER);
      assert line[0..] == line;
      CleanIsFixed(line, 0, SIGNATURE);
    }
  }

  lemma ScrubIsIdempotent(line: string)
    ensures Scrub(Scrub(line)) == Scrub(line)
  {
    ScrubScrubs(line);
    LeftAloneExactlyWhenScrubbed(Scrub(line));
  }

  lemma BenignLinesAreLeftAlone(line: string)
    requires Unmarked(line, 0, |line| + 1, BEARER) && Unmarked(line, 0, |line| + 1, SIGNATURE) && Userinfo(line).None?
    ensures Scrub(line) == line
  {
    NoMarkerIsClean(line, BEARER);
    NoMarkerIsClean(line, SIGNATURE);
    LeftAloneExactlyWhenScrubbed(line);
  }

  lemma NoMarkerIsClean(line: string, shape: Shape)
    requires Unmarked(line, 0, |line| + 1, shape)
    ensures Clean(line, 0, shape)
  {
    forall p: nat, m | m in shape.markers
      ensures !Occurs(line, p, m)
    {
      assert p <= |line| ==> !Marked(line, p, shape);
    }
  }
}
