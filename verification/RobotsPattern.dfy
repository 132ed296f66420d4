/**
 * robots.txt path patterns: `*` stands for any substring, a trailing `$` anchors
 * the pattern at the end of the path (section 2.2.3 of RFC 9309). The matcher is
 * greedy: each literal piece is taken at its leftmost occurrence.
 */
module RobotsPattern {
  import opened Text

  predicate Anchored(pattern: string) {
    EndsWith(pattern, "$")
  }

  /** The literal pieces of the pattern, between its `*` signs. */
  function Segments(pattern: string): (segments: seq<string>)
    ensures |segments| >= 1
  {
    Split(if Anchored(pattern) then pattern[..|pattern| - 1] else pattern, '*')
  }

  /** The pattern with its `*` signs replaced by the given substrings. */
  function Fill(segments: seq<string>, stars: seq<string>): string
    requires |segments| == |stars| + 1
  {
    if stars == [] then segments[0]
    else segments[0] + stars[0] + Fill(segments[1..], stars[1..])
  }

  /** Some substrings for the `*` signs make the pattern spell a prefix of the
      path, or the whole path when the pattern is anchored. */
  ghost predicate Matches(pattern: string, path: string) {
    exists stars: seq<string>, tail: string ::
      && |Segments(pattern)| == |stars| + 1
      && path == Fill(Segments(pattern), stars) + tail
      && (Anchored(pattern) ==> tail == "")
  }

  /** The pieces occur in `s` one after the other, the last one at the end of `s`
      when anchored. */
  ghost predicate Chain(segments: seq<string>, s: string, anchored: bool)
    decreases |segments|
  {
    if segments == [] then anchored ==> s == ""
    else exists k :: OccursAt(s, segments[0], k) && Chain(segments[1..], s[k + |segments[0]|..], anchored)
  }

  lemma OccursInSuffix(s: string, p: string, from: nat, j: nat)
    requires from <= |s|
    ensures OccursAt(s[from..], p, j) <==> OccursAt(s, p, from + j)
    ensures OccursAt(s, p, from + j) ==> s[from..][j + |p|..] == s[from + j + |p|..]
  {
    if from + j + |p| <= |s| {
      assert s[from..][j..j + |p|] == s[from + j..from + j + |p|];
    }
  }

  lemma ChainIntro(segments: seq<string>, s: string, from: nat, k: nat, anchored: bool)
    requires segments != [] && from <= k && OccursAt(s, segments[0], k)
    requires Chain(segments[1..], s[k + |segments[0]|..], anchored)
    ensures Chain(segments, s[from..], anchored)
  {
    OccursInSuffix(s, segments[0], from, k - from);
  }

  lemma ChainElim(segments: seq<string>, s: string, from: nat, anchored: bool) returns (k: nat)
    requires segments != [] && from <= |s| && Chain(segments, s[from..], anchored)
    ensures from <= k && OccursAt(s, segments[0], k)
    ensures Chain(segments[1..], s[k + |segments[0]|..], anchored)
  {
    var p := segments[0];
    var j :| OccursAt(s[from..], p, j) && Chain(segments[1..], s[from..][j + |p|..], anchored);
    OccursInSuffix(s, p, from, j);
    k := from + j;
  }

  /** Text in front never hurts: the first `*` can swallow it. */
  lemma ChainExtend(segments: seq<string>, s: string, from: nat, later: nat, anchored: bool)
    requires segments != [] && from <= later <= |s| && Chain(segments, s[later..], anchored)
    ensures Chain(segments, s[from..], anchored)
  {
    var k := ChainElim(segments, s, later, anchored);
    ChainIntro(segments, s, from, k, anchored);
  }

  /** Taking the leftmost occurrence loses no match. */
  lemma ChainLeftmost(segments: seq<string>, s: string, from: nat, found: int, anchored: bool)
    requires |segments| >= 2 && from <= |s| && found == IndexOf(s, segments[0], from)
    ensures Chain(segments, s[from..], anchored) <==>
      found >= 0 && Chain(segments[1..], s[found + |segments[0]|..], anchored)
  {
    hide Chain;
    if Chain(segments, s[from..], anchored) {
      var k := ChainElim(segments, s, from, anchored);
      ChainExtend(segments[1..], s, found + |segments[0]|, k + |segments[0]|, anchored);
    } else if found >= 0 && Chain(segments[1..], s[found + |segments[0]|..], anchored) {
      ChainIntro(segments, s, from, found, anchored);
    }
  }

  lemma ChainNone(s: string, anchored: bool)
    ensures Chain([], s, anchored) <==> (anchored ==> s == "")
  {
  }

  lemma ChainLast(last: string, s: string, from: nat, anchored: bool)
    requires from <= |s|
    ensures Chain([last], s[from..], anchored) <==>
      if anchored then |s| - |last| >= from && EndsWith(s, last) else IndexOf(s, last, from) != -1
  {
    assert [last][1..] == [];
    if Chain([last], s[from..], anchored) {
      var k := ChainElim([last], s, from, anchored);
      assert anchored ==> k + |last| == |s|;
    } else if anchored && |s| - |last| >= from && EndsWith(s, last) {
      ChainIntro([last], s, from, |s| - |last|, anchored);
    } else if !anchored && IndexOf(s, last, from) != -1 {
      ChainIntro([last], s, from, IndexOf(s, last, from), anchored);
    }
  }

  /** A chain of the pieces after the first gives the substrings for the stars. */
  lemma {:induction false} ChainToStars(segments: seq<string>, s: string, anchored: bool)
      returns (stars: seq<string>, tail: string)
    requires segments != [] && StartsWith(s, segments[0])
    requires Chain(segments[1..], s[|segments[0]|..], anchored)
    ensures |segments| == |stars| + 1
    ensures s == Fill(segments, stars) + tail && (anchored ==> tail == "")
    decreases |segments|
  {
    var t := s[|segments[0]|..];
    if |segments| == 1 {
      stars, tail := [], t;
    } else {
      var p := segments[1];
      var k :| OccursAt(t, p, k) && Chain(segments[1..][1..], t[k + |p|..], anchored);
      var u := t[k..];
      assert u[|p|..] == t[k + |p|..];
      hide Chain;
      var stars', tail' := ChainToStars(segments[1..], u, anchored);
      stars, tail := [t[..k]] + stars', tail';
      FillStep(segments, t[..k], stars', tail);
      Reassemble(s, segments[0], t, k);
    }
  }

  lemma FillStep(segments: seq<string>, star: string, stars: seq<string>, tail: string)
    requires |segments| == |stars| + 2
    ensures Fill(segments, [star] + stars) + tail == segments[0] + star + (Fill(segments[1..], stars) + tail)
  {
    var filled := [star] + stars;
    assert filled[0] == star && filled[1..] == stars;
    Reassociate(segments[0] + star, Fill(segments[1..], stars), tail);
  }

  lemma Reassociate(a: string, b: string, c: string)
    ensures a + b + c == a + (b + c)
  {
  }

  lemma Reassemble(s: string, first: string, t: string, k: nat)
    requires s == first + t && k <= |t|
    ensures s == first + t[..k] + t[k..]
  {
    assert t == t[..k] + t[k..];
  }

  lemma {:induction false} StarsToChain(segments: seq<string>, stars: seq<string>, tail: string, anchored: bool)
    requires |segments| == |stars| + 1 && (anchored ==> tail == "")
    ensures StartsWith(Fill(segments, stars) + tail, segments[0])
    ensures Chain(segments[1..], (Fill(segments, stars) + tail)[|segments[0]|..], anchored)
    decreases |segments|
  {
    var s := Fill(segments, stars) + tail;
    if stars == [] {
      assert s[|segments[0]|..] == tail;
    } else {
      var inner := Fill(segments[1..], stars[1..]) + tail;
      var t := s[|segments[0]|..];
      assert s == segments[0] + (stars[0] + inner);
      assert t == stars[0] + inner;
      StarsToChain(segments[1..], stars[1..], tail, anchored);
      var p, k := segments[1], |stars[0]|;
      assert t[k..] == inner;
      assert t[k..k + |p|] == inner[..|p|];
      assert t[k + |p|..] == inner[|p|..];
      assert OccursAt(t, p, k);
    }
  }

  /** The chain form used by the matcher's proof is the declarative one. */
  lemma MatchesIffChain(pattern: string, path: string)
    ensures Matches(pattern, path) <==>
      var segments := Segments(pattern);
      && StartsWith(path, segments[0])
      && Chain(segments[1..], path[|segments[0]|..], Anchored(pattern))
  {
    var segments, anchored := Segments(pattern), Anchored(pattern);
    if Matches(pattern, path) {
      var stars: seq<string>, tail: string :|
        && |segments| == |stars| + 1
        && path == Fill(segments, stars) + tail
        && (anchored ==> tail == "");
      StarsToChain(segments, stars, tail, anchored);
    }
    if StartsWith(path, segments[0]) && Chain(segments[1..], path[|segments[0]|..], anchored) {
      var stars, tail := ChainToStars(segments, path, anchored);
    }
  }

  lemma EmptyPieceIsFree(segments: seq<string>, s: string, anchored: bool)
    requires |segments| >= 2 && segments[0] == ""
    ensures Chain(segments, s, anchored) <==> Chain(segments[1..], s, anchored)
  {
    assert IndexOf(s, "", 0) == 0 by { assert OccursAt(s, "", 0); }
    ChainLeftmost(segments, s, 0, 0, anchored);
    assert s[0..] == s;
  }

  /** The greedy, leftmost matcher decides exactly the declarative match. */
  method MatchesRobotsPattern(pattern: string, path: string) returns (r: bool)
    ensures r <==> Matches(pattern, path)
  {
    hide Chain, Matches, Anchored;
    MatchesIffChain(pattern, path);
    var anchored := Anchored(pattern);
    var segments := Segments(pattern);
    var first := segments[0];
    if !StartsWith(path, first) { return false; }
    if |segments| == 1 {
      assert segments[1..] == [];
      ChainNone(path[|first|..], anchored);
      return if anchored then |path| == |first| else true;
    }
    var index := |first|;
    var i := 1;
    while i < |segments| - 1
      invariant 1 <= i <= |segments| - 1 && 0 <= index <= |path|
      invariant Matches(pattern, path) <==> Chain(segments[i..], path[index..], anchored)
    {
      var segment := segments[i];
      assert segments[i..][1..] == segments[i + 1..];
      if segment != "" {
        var found := IndexOf(path, segment, index);
        ChainLeftmost(segments[i..], path, index, found, anchored);
        if found == -1 { return false; }
        index := found + |segment|;
      } else {
        EmptyPieceIsFree(segments[i..], path[index..], anchored);
      }
      i := i + 1;
    }
    var last := segments[|segments| - 1];
    assert segments[i..] == [last];
    ChainLast(last, path, index, anchored);
    if last == "" {
      assert !anchored ==> OccursAt(path, last, index);
      return true;
    }
    if !anchored { return IndexOf(path, last, index) != -1; }
    return |path| - |last| >= index && EndsWith(path, last);
  }
}
