/** What scrubbing keeps, and what it leaves: the spans it replaces, and the secrets it does not reach. */
module RedactSpans {
  import opened Wrappers
  import opened Redact
  import Text

  // ---- The text outside the replaced values survives ----

  /** A stretch of text that ends in a marker, and the value behind it. */
  datatype Cut = Cut(kept: string, value: string)

  /** The text as it was … */
  function Original(cuts: seq<Cut>, tail: string): string {
    if cuts == [] then tail else cuts[0].kept + (cuts[0].value + Original(cuts[1..], tail))
  }

  /** … and with a token for each value. */
  function Masked(cuts: seq<Cut>, tail: string): string {
    if cuts == [] then tail else cuts[0].kept + (Token(|cuts[0].value|) + Masked(cuts[1..], tail))
  }

  /** The text's first marker stands at its end. */
  predicate EndsInMarker(kept: string, shape: Shape) {
    exists m :: m in shape.markers && |m| <= |kept| && Occurs(kept, |kept| - |m|, m) && Unmarked(kept, 0, |kept| - |m|, shape)
  }

  /** The text is at its end, or starts with a delimiter. */
  predicate Stops(s: string, shape: Shape) {
    s == "" || shape.isDelim(s[0])
  }

  /** Each value runs from the first marker to the next delimiter; behind the last no marker is left. */
  predicate Cuts(cuts: seq<Cut>, tail: string, shape: Shape) {
    if cuts == [] then Unmarked(tail, 0, |tail| + 1, shape)
    else
      && EndsInMarker(cuts[0].kept, shape)
      && (forall i :: 0 <= i < |cuts[0].value| ==> !shape.isDelim(cuts[0].value[i]))
      && Stops(Original(cuts[1..], tail), shape)
      && Cuts(cuts[1..], tail, shape)
  }

  lemma NotMarked(s: string, p: nat, m: string, shape: Shape)
    ensures !Marked(s, p, shape) && m in shape.markers ==> !Occurs(s, p, m)
  {
  }

  /** No marker stands in a slice where none stands in the text. */
  lemma SliceUnmarked(s: string, from: nat, to: nat, end: nat, shape: Shape)
    requires from <= end <= |s| && from <= to && Unmarked(s, from, to, shape)
    ensures Unmarked(s[from..end], 0, to - from, shape)
  {
    forall p | 0 <= p < to - from
      ensures !Marked(s[from..end], p, shape)
    {
      forall m | m in shape.markers
        ensures !Occurs(s[from..end], p, m)
      {
        NotMarked(s, from + p, m, shape);
        if p + |m| <= end - from {
          OccursInSlice(s, from, end, p, m);
        }
      }
    }
  }

  /** A pass cuts the text at its markers, keeps everything else in order, and puts a token for each value. */
  lemma {:induction false} ScanCuts(s: string, cursor: nat, shape: Shape) returns (cuts: seq<Cut>, tail: string)
    requires WellShaped(shape) && cursor <= |s|
    ensures Original(cuts, tail) == s[cursor..] && Masked(cuts, tail) == Scan(s, cursor, shape)
    ensures Cuts(cuts, tail, shape)
    decreases |s| - cursor
  {
    match FindMarker(s, cursor, shape.markers)
    case None =>
      cuts, tail := [], s[cursor..];
      TailUnmarked(s, cursor, shape);
    case Some((pos, len)) =>
      MarkerFits(s, cursor, shape, pos, len);
      var end := FindDelim(s, pos + len, shape.isDelim);
      var rest;
      rest, tail := ScanCuts(s, end, shape);
      cuts := [Cut(s[cursor..pos + len], s[pos + len..end])] + rest;
      ScanStep(s, cursor, shape, pos, len, end, Masked(rest, tail));
      KeptEndsInMarker(s, cursor, shape, pos, len);
      CutInFront(s, cursor, pos + len, end, shape, rest, tail);
  }

  lemma CutInFront(s: string, cursor: nat, start: nat, end: nat, shape: Shape, rest: seq<Cut>, tail: string)
    requires cursor <= start <= end <= |s| && end == FindDelim(s, start, shape.isDelim) && EndsInMarker(s[cursor..start], shape)
    requires Original(rest, tail) == s[end..] && Cuts(rest, tail, shape)
    ensures var cuts := [Cut(s[cursor..start], s[start..end])] + rest;
            && Original(cuts, tail) == s[cursor..]
            && Masked(cuts, tail) == Piece(s, cursor, start, end, Masked(rest, tail))
            && Cuts(cuts, tail, shape)
  {
    var cut := Cut(s[cursor..start], s[start..end]);
    CutsOneMore(cut, rest, tail);
    FourPieces(s, cursor, start, end, Masked(rest, tail));
    ValueStops(s, start, end, shape);
    CutsBehind(cut, rest, tail, shape);
  }

  lemma CutsOneMore(cut: Cut, rest: seq<Cut>, tail: string)
    ensures Original([cut] + rest, tail) == cut.kept + (cut.value + Original(rest, tail))
    ensures Masked([cut] + rest, tail) == cut.kept + (Token(|cut.value|) + Masked(rest, tail))
  {
    assert ([cut] + rest)[1..] == rest;
  }

  lemma CutsBehind(cut: Cut, rest: seq<Cut>, tail: string, shape: Shape)
    requires EndsInMarker(cut.kept, shape) && (forall i :: 0 <= i < |cut.value| ==> !shape.isDelim(cut.value[i]))
    requires Stops(Original(rest, tail), shape) && Cuts(rest, tail, shape)
    ensures Cuts([cut] + rest, tail, shape)
  {
    assert ([cut] + rest)[0] == cut && ([cut] + rest)[1..] == rest;
  }

  lemma FourPieces(s: string, cursor: nat, start: nat, end: nat, rest: string)
    requires cursor <= start <= end <= |s|
    ensures s[cursor..start] + (s[start..end] + s[end..]) == s[cursor..]
    ensures Piece(s, cursor, start, end, rest) == s[cursor..start] + (Token(|s[start..end]|) + rest)
  {
    Text.SeqAssociates(s[cursor..start], Token(end - start), rest);
    ThreePieces(s, cursor, start, end);
    Text.SeqAssociates(s[cursor..start], s[start..end], s[end..]);
  }

  lemma ValueStops(s: string, start: nat, end: nat, shape: Shape)
    requires start <= |s| && end == FindDelim(s, start, shape.isDelim)
    ensures (forall i :: 0 <= i < |s[start..end]| ==> !shape.isDelim(s[start..end][i])) && Stops(s[end..], shape)
  {
    FindDelimMeans(s, start, shape.isDelim);
  }

  lemma TailUnmarked(s: string, cursor: nat, shape: Shape)
    requires cursor <= |s| && FindMarker(s, cursor, shape.markers).None? && UsableMarkers(shape.markers)
    ensures Unmarked(s[cursor..], 0, |s[cursor..]| + 1, shape)
  {
    FindMarkerMeans(s, cursor, shape);
    assert s[cursor..|s|] == s[cursor..];
    SliceUnmarked(s, cursor, |s| + 1, |s|, shape);
  }

  lemma KeptEndsInMarker(s: string, cursor: nat, shape: Shape, pos: nat, len: nat)
    requires WellShaped(shape) && cursor <= |s| && FindMarker(s, cursor, shape.markers) == Some((pos, len))
    ensures cursor <= pos && pos + len <= |s| && EndsInMarker(s[cursor..pos + len], shape)
  {
    var m := FoundMarker(s, cursor, shape, pos, len);
    var kept := s[cursor..pos + len];
    OccursInSlice(s, cursor, pos + len, pos - cursor, m);
    SliceUnmarked(s, cursor, pos, pos + len, shape);
    assert Occurs(kept, |kept| - |m|, m) && Unmarked(kept, 0, |kept| - |m|, shape);
  }

  /** `user:password` between the first `://` and an `@`, and the same text with the token in its place. */
  predicate CutOut(s: string, o: string, from: nat, to: nat) {
    && 3 <= from <= to < |s|
    && s == s[..from] + (s[from..to] + s[to..])
    && o == s[..from] + (REDACTED + s[to..])
    && FindScheme(s, 0) == Some(from - 3)
    && s[to] == '@' && ':' in s[from..to] && '/' !in s[from..to]
  }

  /** The user information of the first URL, if it has a password part, and what stands around it. */
  lemma UserinfoIsCut(s: string)
    ensures Userinfo(s).None? ==> ScrubUserinfo(s) == s
    ensures Userinfo(s).Some? ==> CutOut(s, ScrubUserinfo(s), Userinfo(s).value.0, Userinfo(s).value.1)
  {
    if Userinfo(s).Some? {
      var (from, to) := Userinfo(s).value;
      FindDelimMeans(s, from, EndsAuthority);
      FindDelimMeans(s, from, c => c == '@');
      assert s == s[..from] + s[from..to] + s[to..];
      Text.SeqAssociates(s[..from], s[from..to], s[to..]);
      Text.SeqAssociates(s[..from], REDACTED, s[to..]);
      forall i | 0 <= i < |s[from..to]|
        ensures s[from..to][i] != '/'
      {
        assert !EndsAuthority(s[from + i]);
      }
    }
  }

  /** What scrubbing keeps: each pass cuts its values out of the last one's output and keeps the rest in order. */
  lemma ScrubKeepsTheRest(line: string) returns (bearer: seq<Cut>, middle: string, signature: seq<Cut>, tail: string)
    ensures Original(bearer, middle) == line && Cuts(bearer, middle, BEARER)
    ensures Original(signature, tail) == Masked(bearer, middle) && Cuts(signature, tail, SIGNATURE)
    ensures Scrub(line) == ScrubUserinfo(Masked(signature, tail))
  {
    BearerIsWellShaped();
    SignatureIsWellShaped();
    bearer, middle := ScanCuts(line, 0, BEARER);
    signature, tail := ScanCuts(Scan(line, 0, BEARER), 0, SIGNATURE);
    assert line[0..] == line && Scan(line, 0, BEARER)[0..] == Scan(line, 0, BEARER);
  }

  // ---- Passwords behind the first URL ----

  lemma {:induction false} FindDelimRight(x: string, y: string, q: nat, isDelim: char -> bool)
    requires q <= |y|
    ensures FindDelim(x + y, |x| + q, isDelim) == |x| + FindDelim(y, q, isDelim)
    decreases |y| - q
  {
    if q < |y| {
      assert (x + y)[|x| + q] == y[q];
      FindDelimRight(x, y, q + 1, isDelim);
    }
  }

  /** A URL's user information does not depend on what stands before it. */
  lemma UserinfoRight(x: string, y: string, q: nat)
    requires q <= |y|
    ensures UserinfoAt(x + y, |x| + q).Some? <==> UserinfoAt(y, q).Some?
  {
    FindDelimRight(x, y, q, EndsAuthority);
    var isAt: char -> bool := c => c == '@';
    FindDelimRight(x, y, q, isAt);
    var at := FindDelim(y, q, isAt);
    assert (x + y)[|x| + q..|x| + at] == y[q..at];
  }

  lemma SchemeRight(x: string, y: string, q: nat)
    ensures SchemeAt(x + y, |x| + q) <==> SchemeAt(y, q)
  {
    assert q + 3 <= |y| ==> (x + y)[|x| + q] == y[q] && (x + y)[|x| + q + 1] == y[q + 1] && (x + y)[|x| + q + 2] == y[q + 2];
  }

  /** The URL at `p` holds no password. */
  predicate Bare(s: string, p: nat) {
    SchemeAt(s, p) ==> UserinfoAt(s, p + 3).None?
  }

  /** No other URL starts before the `@` of the first one's user information. */
  lemma NextScheme(s: string, from: nat, to: nat, p: nat)
    requires Userinfo(s) == Some((from, to))
    ensures from - 3 < p < to ==> !SchemeAt(s, p)
    ensures p < from - 3 ==> !SchemeAt(s, p)
  {
    UserinfoIsCut(s);
    UserinfoIsBehindSlashes(s);
    NotIn(s, from, to, p + 1, '/');
  }

  lemma NotIn(s: string, from: nat, to: nat, k: int, c: char)
    requires from <= to <= |s| && c !in s[from..to]
    ensures from <= k < to ==> s[k] != c
  {
    assert from <= k < to ==> s[k] == s[from..to][k - from];
  }

  lemma NextSchemeMasked(s: string, from: nat, to: nat, p: nat)
    requires Userinfo(s) == Some((from, to))
    ensures from - 3 < p < from + |REDACTED| ==> !SchemeAt(ScrubUserinfo(s), p)
    ensures p < from - 3 ==> !SchemeAt(ScrubUserinfo(s), p)
  {
    var o := ScrubUserinfo(s);
    UserinfoIsCut(s);
    UserinfoIsBehindSlashes(s);
    assert o[..from] == s[..from] && s[0..from] == s[..from];
    SchemeStays(s, from, o);
    SameChar(s, 0, from, o, from - 1);
    SameChar(s, 0, from, o, from - 2);
    MaskedToken(s, from, to, o);
    TokenChar(o, from, p);
    assert ':' !in REDACTED;
  }

  lemma MaskedToken(s: string, from: nat, to: nat, o: string)
    requires CutOut(s, o, from, to)
    ensures TokenAt(o, from)
  {
    assert o[from..from + |REDACTED|] == REDACTED;
  }

  ghost predicate AllBare(s: string) {
    forall p :: Bare(s, p)
  }

  /** No URL but the first holds a password. */
  ghost predicate LaterBare(s: string) {
    forall p: nat :: Some(p) != FindScheme(s, 0) ==> Bare(s, p)
  }

  /** After the pass no URL holds a password exactly when none behind the first did before. */
  lemma PasswordsLeftExactly(s: string)
    ensures AllBare(ScrubUserinfo(s)) <==> LaterBare(s)
  {
    if Userinfo(s).None? {
      NothingToMask(s);
    } else {
      var (from, to) := Userinfo(s).value;
      FirstUrl(s, from, to);
      if AllBare(ScrubUserinfo(s)) {
        LaterWereBare(s, from, to, ScrubUserinfo(s));
      }
      if LaterBare(s) {
        MaskedUrlIsBare(s, from, to);
        AllAreBare(s, from, to, ScrubUserinfo(s));
      }
    }
  }

  lemma FirstUrl(s: string, from: nat, to: nat)
    requires Userinfo(s) == Some((from, to))
    ensures FindScheme(s, 0) == Some(from - 3)
  {
  }

  lemma NothingToMask(s: string)
    requires Userinfo(s).None?
    ensures AllBare(ScrubUserinfo(s)) <==> LaterBare(s)
  {
    assert ScrubUserinfo(s) == s;
    assert FindScheme(s, 0).Some? ==> Bare(s, FindScheme(s, 0).value);
  }

  lemma LaterWereBare(s: string, from: nat, to: nat, o: string)
    requires Userinfo(s) == Some((from, to)) && o == ScrubUserinfo(s) && AllBare(o)
    requires FindScheme(s, 0) == Some(from - 3)
    ensures LaterBare(s)
  {
    forall p: nat | Some(p) != FindScheme(s, 0)
      ensures Bare(s, p)
    {
      LaterUrlStays(s, from, to, o, p);
    }
  }

  lemma AllAreBare(s: string, from: nat, to: nat, o: string)
    requires Userinfo(s) == Some((from, to)) && o == ScrubUserinfo(s) && LaterBare(s) && Bare(o, from - 3)
    requires FindScheme(s, 0) == Some(from - 3)
    ensures AllBare(o)
  {
    forall p: nat
      ensures Bare(o, p)
    {
      if p != from - 3 {
        LaterUrlAppears(s, from, to, o, p);
      }
    }
  }

  /** The two marker passes. */
  function Passed(line: string): string {
    BearerIsWellShaped();
    SignatureIsWellShaped();
    Scan(Scan(line, 0, BEARER), 0, SIGNATURE)
  }

  /** So a scrubbed line holds no password exactly when, after the marker passes, no URL behind the first does. */
  lemma ScrubLeavesPasswordsExactly(line: string)
    ensures AllBare(Scrub(line)) <==> LaterBare(Passed(line))
  {
    PasswordsLeftExactly(Passed(line));
  }

  lemma MaskedUrlIsBare(s: string, from: nat, to: nat)
    requires Userinfo(s) == Some((from, to))
    ensures Bare(ScrubUserinfo(s), from - 3)
  {
    ScrubUserinfoIsIdempotent(s);
    UserinfoIsCut(s);
    assert ScrubUserinfo(s)[..from] == s[..from];
    SchemeStays(s, from, ScrubUserinfo(s));
  }

  lemma ShiftedUrl(s: string, from: nat, to: nat, o: string, q: nat)
    requires from <= to <= |s| && o == s[..from] + REDACTED + s[to..]
    ensures Bare(s, to + q) <==> Bare(o, from + |REDACTED| + q)
  {
    assert s == s[..to] + s[to..];
    BareRight(s[..to], s[to..], q);
    BareRight(s[..from] + REDACTED, s[to..], q);
  }

  lemma BareRight(x: string, y: string, q: nat)
    ensures Bare(x + y, |x| + q) <==> Bare(y, q)
  {
    SchemeRight(x, y, q);
    if SchemeAt(y, q) {
      UserinfoRight(x, y, q + 3);
    }
  }

  /** A URL behind the first stands in the output too, as it was. */
  lemma LaterUrlStays(s: string, from: nat, to: nat, o: string, p: nat)
    requires Userinfo(s) == Some((from, to)) && o == ScrubUserinfo(s) && p != from - 3
    ensures SchemeAt(s, p) ==> p >= to && (Bare(s, p) <==> Bare(o, from + |REDACTED| + (p - to)))
  {
    NextScheme(s, from, to, p);
    if p >= to {
      ShiftedUrl(s, from, to, o, p - to);
    }
  }

  /** … and every other URL of the output is one of those. */
  lemma LaterUrlAppears(s: string, from: nat, to: nat, o: string, p: nat)
    requires Userinfo(s) == Some((from, to)) && o == ScrubUserinfo(s) && p != from - 3
    ensures SchemeAt(o, p) ==> p >= from + |REDACTED| && (Bare(o, p) <==> Bare(s, to + (p - from - |REDACTED|)))
  {
    NextSchemeMasked(s, from, to, p);
    if p >= from + |REDACTED| {
      ShiftedUrl(s, from, to, o, p - from - |REDACTED|);
    }
  }

  // ---- Values behind a delimiter ----

  /** Behind every marker stands the token, or nothing at all. */
  ghost predicate AllMasked(o: string, shape: Shape) {
    forall p: nat, m {:trigger Occurs(o, p, m)} :: m in shape.markers && Occurs(o, p, m) ==> MaskedAt(o, p + |m|)
  }

  predicate MaskedAt(o: string, q: nat) {
    q == |o| || TokenAt(o, q)
  }

  /** No delimiter stands directly behind a marker the pass stops at. */
  predicate NoEmptyValue(s: string, cursor: nat, shape: Shape)
    requires cursor <= |s| && UsableMarkers(shape.markers)
    decreases |s| - cursor
  {
    match FindMarker(s, cursor, shape.markers)
    case None => true
    case Some((pos, len)) =>
      MarkerFits(s, cursor, shape, pos, len);
      var end := FindDelim(s, pos + len, shape.isDelim);
      (pos + len < end || end == |s|) && NoEmptyValue(s, end, shape)
  }

  lemma MaskedRight(x: string, y: string, q: nat)
    ensures MaskedAt(x + y, |x| + q) <==> MaskedAt(y, q)
  {
    assert q + |REDACTED| <= |y| ==> (x + y)[|x| + q..|x| + q + |REDACTED|] == y[q..q + |REDACTED|];
  }

  lemma OccursLeft(x: string, y: string, p: nat, m: string)
    requires Occurs(x, p, m)
    ensures Occurs(x + y, p, m)
  {
  }

  /** Masked text stays masked behind a piece, whose own marker is masked exactly when a value stood behind it. */
  lemma RestStaysMasked(pre: string, token: string, rest: string, shape: Shape)
    requires AllMasked(pre + token + rest, shape)
    ensures AllMasked(rest, shape)
  {
    var front := pre + token;
    forall p: nat, m | m in shape.markers && Occurs(rest, p, m)
      ensures MaskedAt(rest, p + |m|)
    {
      OccursRight(front, rest, p, m);
      MaskedRight(front, rest, p + |m|);
    }
  }

  lemma FrontIsMasked(s: string, cursor: nat, pos: nat, n: string, end: nat, pre: string, rest: string, shape: Shape)
    requires WellShaped(shape) && n in shape.markers && cursor <= pos && Occurs(s, pos, n) && pre == s[cursor..pos + |n|]
    requires end == FindDelim(s, pos + |n|, shape.isDelim)
    requires if end == |s| then rest == "" else rest != "" && rest[0] == s[end]
    requires AllMasked(pre + Token(end - (pos + |n|)) + rest, shape)
    ensures pos + |n| < end || end == |s|
  {
    var o := pre + Token(end - (pos + |n|)) + rest;
    OccursInSlice(s, cursor, pos + |n|, pos - cursor, n);
    OccursLeft(pre, Token(end - (pos + |n|)), pos - cursor, n);
    OccursLeft(pre + Token(end - (pos + |n|)), rest, pos - cursor, n);
    assert MaskedAt(o, |pre|);
    FindDelimMeans(s, pos + |n|, shape.isDelim);
    TokenChar(o, |pre|, |pre|);
    assert !shape.isDelim(REDACTED[0]);
  }

  lemma PieceIsMasked(s: string, cursor: nat, pos: nat, n: string, end: nat, pre: string, rest: string, shape: Shape)
    requires WellShaped(shape) && n in shape.markers && cursor <= pos && Occurs(s, pos, n) && Unmarked(s, cursor, pos, shape)
    requires pre == s[cursor..pos + |n|] && end == FindDelim(s, pos + |n|, shape.isDelim)
    requires if end == |s| then rest == "" else rest != "" && rest[0] == s[end]
    requires (pos + |n| < end || end == |s|) && AllMasked(rest, shape)
    ensures AllMasked(pre + Token(end - (pos + |n|)) + rest, shape)
  {
    var token := Token(end - (pos + |n|));
    var o := pre + token + rest;
    assert o[..|pre|] == pre;
    forall p: nat, m | m in shape.markers && Occurs(o, p, m)
      ensures MaskedAt(o, p + |m|)
    {
      NotInToken(pre, end - (pos + |n|), rest, p, m, shape);
      if p < |pre| {
        OnlyFoundMarker(s, cursor, pos, n, o, p, m, shape);
        TokenBehind(pre, token, rest);
      } else {
        OccursRight(pre + token, rest, p - |pre + token|, m);
        MaskedRight(pre + token, rest, p - |pre + token| + |m|);
      }
    }
  }

  lemma TokenBehind(pre: string, token: string, rest: string)
    requires token == REDACTED || (token == "" && rest == "")
    ensures MaskedAt(pre + token + rest, |pre|)
  {
    assert token == REDACTED ==> (pre + token + rest)[|pre|..|pre| + |REDACTED|] == REDACTED;
  }

  lemma NoEmptyStep(s: string, cursor: nat, shape: Shape, pos: nat, len: nat, end: nat, others: bool)
    requires cursor <= |s| && UsableMarkers(shape.markers) && FindMarker(s, cursor, shape.markers) == Some((pos, len))
    requires cursor <= pos < pos + len <= |s| && end == FindDelim(s, pos + len, shape.isDelim) && others == NoEmptyValue(s, end, shape)
    ensures NoEmptyValue(s, cursor, shape) <==> (pos + len < end || end == |s|) && others
  {
  }

  /** A pass leaves the token, or nothing, behind every marker exactly when no marker it stops at is followed by a delimiter. */
  lemma {:induction false} MaskedExactly(s: string, cursor: nat, shape: Shape)
    requires WellShaped(shape) && cursor <= |s|
    ensures AllMasked(Scan(s, cursor, shape), shape) <==> NoEmptyValue(s, cursor, shape)
    decreases |s| - cursor
  {
    match FindMarker(s, cursor, shape.markers)
    case None => UnmarkedIsMasked(s, cursor, shape);
    case Some((pos, len)) =>
      MarkerFits(s, cursor, shape, pos, len);
      var end := FindDelim(s, pos + len, shape.isDelim);
      var rest := Scan(s, end, shape);
      ScanStep(s, cursor, shape, pos, len, end, rest);
      NoEmptyStep(s, cursor, shape, pos, len, end, NoEmptyValue(s, end, shape));
      MaskedExactly(s, end, shape);
      ScanBegins(s, end, shape);
      MaskedStep(s, cursor, shape, pos, len, end, rest);
  }

  lemma UnmarkedIsMasked(s: string, cursor: nat, shape: Shape)
    requires WellShaped(shape) && cursor <= |s| && FindMarker(s, cursor, shape.markers).None?
    ensures AllMasked(s[cursor..], shape)
  {
    TailUnmarked(s, cursor, shape);
    forall p: nat, m | m in shape.markers
      ensures !Occurs(s[cursor..], p, m)
    {
      if p <= |s[cursor..]| {
        NotMarked(s[cursor..], p, m, shape);
      }
    }
  }

  lemma MaskedStep(s: string, cursor: nat, shape: Shape, pos: nat, len: nat, end: nat, rest: string)
    requires WellShaped(shape) && cursor <= |s| && FindMarker(s, cursor, shape.markers) == Some((pos, len))
    requires cursor <= pos < pos + len <= |s| && end == FindDelim(s, pos + len, shape.isDelim)
    requires if end == |s| then rest == "" else rest != "" && rest[0] == s[end]
    ensures AllMasked(Piece(s, cursor, pos + len, end, rest), shape) <==> (pos + len < end || end == |s|) && AllMasked(rest, shape)
  {
    var n := FoundMarker(s, cursor, shape, pos, len);
    var pre := s[cursor..pos + len];
    if AllMasked(Piece(s, cursor, pos + len, end, rest), shape) {
      RestStaysMasked(pre, Token(end - (pos + len)), rest, shape);
      FrontIsMasked(s, cursor, pos, n, end, pre, rest, shape);
    }
    if (pos + len < end || end == |s|) && AllMasked(rest, shape) {
      PieceIsMasked(s, cursor, pos, n, end, pre, rest, shape);
    }
  }

  // ---- Two lines that keep their secrets ----

  /** Text without a character markers start with holds no marker. */
  lemma NoStartNoMarker(line: string, from: nat, shape: Shape)
    requires WellShaped(shape)
    requires forall i :: from <= i < |line| ==> Text.LowerChar(line[i]) !in shape.starts
    ensures forall p: nat, m :: from <= p && m in shape.markers ==> !Occurs(line, p, m)
  {
    forall p: nat, m | from <= p && m in shape.markers
      ensures !Occurs(line, p, m)
    {
      MarkerStart(m, shape);
      CharOf(line, p, m, 0);
    }
  }

  const TWO_URLS := "http://a/ http://u:p@h"

  lemma TwoUrlsHoldNoMarker()
    ensures Unmarked(TWO_URLS, 0, |TWO_URLS| + 1, BEARER) && Unmarked(TWO_URLS, 0, |TWO_URLS| + 1, SIGNATURE)
  {
    BearerIsWellShaped();
    SignatureIsWellShaped();
    NoStartNoMarker(TWO_URLS, 0, BEARER);
    NoStartNoMarker(TWO_URLS, 0, SIGNATURE);
  }

  lemma FirstUrlIsBare()
    ensures Userinfo(TWO_URLS).None?
  {
    FirstSchemeAt(TWO_URLS, 4);
    FindDelimIs(TWO_URLS, 7, 8, EndsAuthority);
    var isAt: char -> bool := c => c == '@';
    FindDelimMeans(TWO_URLS, 7, isAt);
    assert TWO_URLS[7] != '@';
    assert FindDelim(TWO_URLS, 7, isAt) >= 8;
  }

  lemma SecondUrlHasPassword()
    ensures SchemeAt(TWO_URLS, 14) && UserinfoAt(TWO_URLS, 17) == Some((17, 20))
  {
    FindDelimIs(TWO_URLS, 17, 22, EndsAuthority);
    FindDelimIs(TWO_URLS, 17, 20, c => c == '@');
    assert TWO_URLS[17..20][1] == ':';
  }

  /** A password in the second URL is kept. */
  lemma SecondPasswordIsKept()
    ensures Scrub(TWO_URLS) == TWO_URLS && !Bare(TWO_URLS, 14)
  {
    TwoUrlsHoldNoMarker();
    FirstUrlIsBare();
    SecondUrlHasPassword();
    BenignLinesAreLeftAlone(TWO_URLS);
  }

  lemma FirstSchemeAt(s: string, p: nat)
    requires SchemeAt(s, p) && forall q :: 0 <= q < p ==> !SchemeAt(s, q)
    ensures FindScheme(s, 0) == Some(p)
  {
  }

  lemma {:induction false} FindDelimIs(s: string, from: nat, n: nat, isDelim: char -> bool)
    requires from <= n <= |s| && (n < |s| ==> isDelim(s[n])) && forall i :: from <= i < n ==> !isDelim(s[i])
    ensures FindDelim(s, from, isDelim) == n
    decreases n - from
  {
    if from < n {
      FindDelimIs(s, from + 1, n, isDelim);
    }
  }

  /** A second space behind `bearer` ends the value before it starts. */
  lemma SecondSpaceKeepsTheToken()
    ensures Scrub("bearer  k") == "bearer  k"
  {
    var line := "bearer  k";
    BearerIsWellShaped();
    SignatureIsWellShaped();
    NoStartNoMarker(line, 1, BEARER);
    NoStartNoMarker(line, 0, SIGNATURE);
    assert forall p :: !SchemeAt(line, p);
    forall p: nat, m | m in BEARER.markers && Occurs(line, p, m)
      ensures Followed(line, p + |m|, BEARER)
    {
      BearerMarkers(m);
      CharOf(line, p, m, 1);
      assert line[7] == ' ';
    }
    assert Userinfo(line).None?;
    LeftAloneExactlyWhenScrubbed(line);
  }
}
