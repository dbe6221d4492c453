/** Slash-separated paths as strings: trimming, splitting and rendering. */
module Paths {

  /** Drops every leading occurrence of `c`. */
  function TrimStart(s: string, c: char): (r: string)
    ensures r == [] || r[0] != c
    ensures |r| <= |s| && s[|s| - |r|..] == r
    ensures forall i :: 0 <= i < |s| - |r| ==> s[i] == c
  {
    if s != [] && s[0] == c then TrimStart(s[1..], c) else s
  }

  /** The pieces between occurrences of `c`; always at least one. */
  function SplitOn(s: string, c: char): (r: seq<string>)
    ensures r != []
    ensures forall i :: 0 <= i < |r| ==> c !in r[i]
  {
    if s == [] then [""]
    else
      var rest := SplitOn(s[1..], c);
      if s[0] == c then [""] + rest else [[s[0]] + rest[0]] + rest[1..]
  }

  function JoinWith(parts: seq<string>, c: char): string {
    if parts == [] then ""
    else if |parts| == 1 then parts[0]
    else parts[0] + [c] + JoinWith(parts[1..], c)
  }

  /** Splitting inverts joining, for pieces free of the separator. */
  lemma {:induction false} SplitOfJoin(parts: seq<string>, c: char)
    requires parts != [] && forall i :: 0 <= i < |parts| ==> c !in parts[i]
    ensures SplitOn(JoinWith(parts, c), c) == parts
    decreases |parts|, if parts == [] then 0 else |parts[0]|
  {
    var first := parts[0];
    if first == "" {
      if |parts| > 1 {
        SplitOfJoin(parts[1..], c);
        assert JoinWith(parts, c)[1..] == JoinWith(parts[1..], c);
      }
    } else {
      var shorter := [first[1..]] + parts[1..];
      forall i | 0 <= i < |shorter|
        ensures c !in shorter[i]
      {
        if i > 0 {
          assert shorter[i] == parts[i];
        }
      }
      SplitOfJoin(shorter, c);
      assert shorter[1..] == parts[1..];
      assert JoinWith(parts, c)[1..] == JoinWith(shorter, c) && JoinWith(parts, c)[0] == first[0];
      assert first == [first[0]] + first[1..];
    }
  }

  /** `/a/b/c`, or `/` for no segments. */
  function Render(segments: seq<string>): string {
    if segments == [] then "/" else Slashed(segments)
  }

  function Slashed(segments: seq<string>): string {
    if segments == [] then "" else "/" + segments[0] + Slashed(segments[1..])
  }

  /** The same string, pushed segment by segment into a buffer. */
  method RenderPath(segments: seq<string>) returns (s: string)
    ensures s == Render(segments)
  {
    if segments == [] {
      return "/";
    }
    s := "";
    for i := 0 to |segments|
      invariant s + Slashed(segments[i..]) == Slashed(segments)
    {
      assert segments[i..][1..] == segments[i + 1..];
      assert s + ("/" + segments[i] + Slashed(segments[i + 1..])) == (s + "/" + segments[i]) + Slashed(segments[i + 1..]);
      s := s + "/" + segments[i];
    }
  }

  lemma {:induction false} SlashedIsJoin(segments: seq<string>)
    requires segments != []
    ensures Slashed(segments) == "/" + JoinWith(segments, '/')
  {
    if |segments| > 1 {
      SlashedIsJoin(segments[1..]);
    }
  }

  /** The segments of a path after its leading slashes; none for the root. */
  function Segments(path: string): (r: seq<string>)
    ensures forall i :: 0 <= i < |r| ==> '/' !in r[i]
  {
    var trimmed := TrimStart(path, '/');
    if trimmed == "" then [] else SplitOn(trimmed, '/')
  }

  function LeadingSegment(path: string): string {
    SplitOn(TrimStart(path, '/'), '/')[0]
  }

  /** Segments a path can be written with unambiguously. */
  predicate Clean(segments: seq<string>) {
    forall i :: 0 <= i < |segments| ==> segments[i] != "" && '/' !in segments[i]
  }

  lemma SegmentsOfRender(segments: seq<string>)
    requires forall i :: 0 <= i < |segments| ==> '/' !in segments[i]
    requires segments != [] ==> segments[0] != ""
    ensures Segments(Render(segments)) == segments
    ensures segments != [] ==> LeadingSegment(Render(segments)) == segments[0]
    ensures segments == [] ==> LeadingSegment(Render(segments)) == ""
  {
    if segments != [] {
      SlashedIsJoin(segments);
      var joined := JoinWith(segments, '/');
      assert Render(segments)[1..] == joined;
      assert joined[0] == segments[0][0];
      assert TrimStart(Render(segments), '/') == joined;
      SplitOfJoin(segments, '/');
    }
  }
}
