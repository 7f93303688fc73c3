/** Splitting, joining and replacing in strings. */
module Strings {
  import opened VehicleTypes

  predicate MatchAt(s: string, d: string, i: nat) {
    i + |d| <= |s| && s[i..i + |d|] == d
  }

  /** The first match of `d` in `s` at or after `from`. */
  function Find(s: string, d: string, from: nat): (r: Option<nat>)
    requires from <= |s|
    ensures r.Some? ==> from <= r.value && r.value + |d| <= |s|
    decreases |s| - from
  {
    if MatchAt(s, d, from) then Some(from)
    else if from < |s| then Find(s, d, from + 1)
    else None
  }

  lemma {:induction false} FindIsFirst(s: string, d: string, from: nat)
    requires from <= |s|
    ensures var r := Find(s, d, from);
            && (r.Some? ==> MatchAt(s, d, r.value))
            && forall i: nat :: from <= i && (r.Some? ==> i < r.value) ==> !MatchAt(s, d, i)
    decreases |s| - from
  {
    if !MatchAt(s, d, from) && from < |s| {
      FindIsFirst(s, d, from + 1);
    }
  }

  lemma FindIs(s: string, d: string, from: nat, p: nat)
    requires from <= p && MatchAt(s, d, p)
    requires forall i: nat :: from <= i < p ==> !MatchAt(s, d, i)
    ensures Find(s, d, from) == Some(p)
  {
    FindIsFirst(s, d, from);
  }

  /** Searching from a position finds what searching the rest finds. */
  lemma FindInRest(s: string, d: string, from: nat)
    requires from <= |s|
    ensures Find(s, d, from) == match Find(s[from..], d, 0) case None => None case Some(p) => Some(from + p)
  {
    hide Find;
    FindIsFirst(s, d, from);
    FindIsFirst(s[from..], d, 0);
    forall i: nat ensures MatchAt(s[from..], d, i) <==> MatchAt(s, d, from + i) {
      if from + i + |d| <= |s| {
        assert s[from..][i..i + |d|] == s[from + i..from + i + |d|];
      }
    }
    match Find(s[from..], d, 0)
    case Some(p) =>
      forall j: nat | from <= j < from + p ensures !MatchAt(s, d, j) {
        assert !MatchAt(s[from..], d, j - from);
      }
      FindIs(s, d, from, from + p);
    case None =>
      if Find(s, d, from).Some? {
        assert MatchAt(s[from..], d, Find(s, d, from).value - from);
      }
  }

  /** A match found in a beginning is the first match of the whole. */
  lemma FindInPrefix(x: string, y: string, d: string)
    requires Find(x, d, 0).Some?
    ensures Find(x + y, d, 0) == Find(x, d, 0)
  {
    hide Find;
    FindIsFirst(x, d, 0);
    var p := Find(x, d, 0).value;
    forall i: nat | i <= p ensures MatchAt(x + y, d, i) <==> MatchAt(x, d, i) {
      assert i + |d| <= |x|;
      assert (x + y)[i..i + |d|] == x[i..i + |d|];
    }
    FindIs(x + y, d, 0, p);
  }

  /** The pieces of a string between the matches of `d`, found from the left. */
  function Pieces(s: string, d: string): (pieces: seq<string>)
    requires d != []
    ensures pieces != []
  {
    match Find(s, d, 0)
    case None => [s]
    case Some(p) => [s[..p]] + Pieces(s[p + |d|..], d)
  }

  function Joined(v: seq<string>, sep: string): string {
    if v == [] then ""
    else if |v| == 1 then v[0]
    else v[0] + sep + Joined(v[1..], sep)
  }

  /** Joining what was split gives the string back. */
  lemma {:induction false} JoinOfSplit(s: string, d: string)
    requires d != []
    ensures Joined(Pieces(s, d), d) == s
  {
    match Find(s, d, 0)
    case None =>
    case Some(p) =>
      var rest := s[p + |d|..];
      JoinOfSplit(rest, d);
      assert Pieces(s, d)[1..] == Pieces(rest, d);
      FindIsFirst(s, d, 0);
      assert s == s[..p] + s[p..p + |d|] + rest;
  }

  /** No piece but the last can hide an earlier match: followed by the delimiter it has its first match
      at its own end. The last has none. */
  predicate Clean(v: seq<string>, d: string) {
    && v != []
    && (forall i :: 0 <= i < |v| - 1 ==> Find(v[i] + d, d, 0) == Some(|v[i]|))
    && Find(v[|v| - 1], d, 0) == None
  }

  lemma {:induction false} SplitIsClean(s: string, d: string)
    requires d != []
    ensures Clean(Pieces(s, d), d)
  {
    match Find(s, d, 0)
    case None =>
    case Some(p) =>
      var rest := s[p + |d|..];
      SplitIsClean(rest, d);
      FirstPieceIsClean(s, d, p);
      CleanGrows(s[..p], Pieces(rest, d), d);
  }

  lemma CleanGrows(x: string, w: seq<string>, d: string)
    requires Clean(w, d) && Find(x + d, d, 0) == Some(|x|)
    ensures Clean([x] + w, d)
  {
    hide Find;
    var v := [x] + w;
    assert forall i :: 0 < i < |v| ==> v[i] == w[i - 1];
  }

  lemma FirstPieceIsClean(s: string, d: string, p: nat)
    requires Find(s, d, 0) == Some(p)
    ensures Find(s[..p] + d, d, 0) == Some(p)
  {
    hide Find;
    FindIsFirst(s, d, 0);
    var x := s[..p] + d;
    assert x == s[..p + |d|];
    assert x[p..p + |d|] == d;
    forall i: nat | i < p ensures !MatchAt(x, d, i) {
      assert !MatchAt(s, d, i);
      if i + |d| <= |x| {
        assert x[i..i + |d|] == s[i..i + |d|];
      }
    }
    FindIs(x, d, 0, p);
  }

  lemma {:induction false} SplitOfCleanJoin(v: seq<string>, d: string)
    requires d != [] && Clean(v, d)
    ensures Pieces(Joined(v, d), d) == v
  {
    if |v| > 1 {
      assert Find(v[0] + d, d, 0) == Some(|v[0]|);
      FindInPrefix(v[0] + d, Joined(v[1..], d), d);
      SplitOfCleanJoin(v[1..], d);
      var s := Joined(v, d);
      assert s == (v[0] + d) + Joined(v[1..], d);
      assert s[..|v[0]|] == v[0] && s[|v[0]| + |d|..] == Joined(v[1..], d);
    }
  }

  /** Splitting what was joined gives the pieces back exactly when none hides a match. */
  lemma SplitOfJoinExactly(v: seq<string>, d: string)
    requires d != []
    ensures Pieces(Joined(v, d), d) == v <==> Clean(v, d)
  {
    if Clean(v, d) {
      SplitOfCleanJoin(v, d);
    }
    SplitIsClean(Joined(v, d), d);
  }

  function ReplacedFirst(s: string, from: string, to: string): string {
    match Find(s, from, 0)
    case None => s
    case Some(p) => s[..p] + to + s[p + |from|..]
  }

  function ReplacedAll(s: string, from: string, to: string): string
    requires from != []
  {
    Joined(Pieces(s, from), to)
  }

  /** A replacement can be undone when `to` hides in none of the pieces it joins. */
  lemma ReplacementIsUndone(s: string, from: string, to: string)
    requires from != [] && to != [] && Clean(Pieces(s, from), to)
    ensures ReplacedAll(ReplacedAll(s, from, to), to, from) == s
  {
    SplitOfCleanJoin(Pieces(s, from), to);
    JoinOfSplit(s, from);
  }

  /** Replacing once exchanges the first match, and changes nothing where there is none. */
  lemma ReplacedFirstExactly(s: string, from: string, to: string) returns (first: Option<nat>)
    ensures match first
            case None => ReplacedFirst(s, from, to) == s && forall j: nat :: !MatchAt(s, from, j)
            case Some(i) =>
              && i + |from| <= |s| && s[i..i + |from|] == from && (forall j: nat :: j < i ==> !MatchAt(s, from, j))
              && ReplacedFirst(s, from, to) == s[..i] + to + s[i + |from|..]
  {
    FindIsFirst(s, from, 0);
    first := Find(s, from, 0);
  }

  /** Replacing everywhere puts the new text between the pieces that the old one joins to the string, none of
      which hides an earlier match. */
  lemma ReplacedAllExactly(s: string, from: string, to: string) returns (pieces: seq<string>)
    requires from != []
    ensures Joined(pieces, from) == s && Clean(pieces, from) && ReplacedAll(s, from, to) == Joined(pieces, to)
  {
    pieces := Pieces(s, from);
    JoinOfSplit(s, from);
    SplitIsClean(s, from);
  }

  lemma PiecesAre(s: string, d: string)
    requires d != []
    ensures Find(s, d, 0) == None ==> Pieces(s, d) == [s]
    ensures forall p :: Find(s, d, 0) == Some(p) ==> Pieces(s, d) == [s[..p]] + Pieces(s[p + |d|..], d)
  {
    hide Find, MatchAt;
  }

  /** Taking one piece off the rest of a string. */
  lemma PiecesStep(s: string, d: string, start: nat)
    requires d != [] && start <= |s|
    ensures match Find(s, d, start)
            case None => Pieces(s[start..], d) == [s[start..]]
            case Some(p) => Pieces(s[start..], d) == [s[start..p]] + Pieces(s[p + |d|..], d)
  {
    hide MatchAt, Find, Pieces;
    FindInRest(s, d, start);
    PiecesAre(s[start..], d);
    if Find(s, d, start).Some? {
      var p := Find(s, d, start).value;
      assert s[start..][..p - start] == s[start..p];
      assert s[start..][p - start + |d|..] == s[p + |d|..];
    }
  }

  method Split(s: string, delim: string) returns (result: seq<string>)
    requires delim != []  // an empty delimiter is found again at the same place for ever
    ensures result == Pieces(s, delim)
  {
    hide Find, Pieces;
    result := [];
    var start := 0;
    assert s[0..] == s;
    var pos := Find(s, delim, start);
    while pos.Some?
      invariant start <= |s| && pos == Find(s, delim, start)
      invariant result + Pieces(s[start..], delim) == Pieces(s, delim)
      decreases |s| - start
    {
      PiecesStep(s, delim, start);
      result := result + [s[start..pos.value]];
      start := pos.value + |delim|;
      pos := Find(s, delim, start);
    }
    PiecesStep(s, delim, start);
    result := result + [s[start..]];
  }

  method Join(v: seq<string>, sep: string) returns (result: string)
    ensures result == Joined(v, sep)
  {
    result := "";
    assert v[..|v|] == v;
    for i := 0 to |v|
      invariant result == Joined(v[..i], sep)
    {
      JoinedGrows(v[..i], v[i], sep);
      assert v[..i + 1] == v[..i] + [v[i]];
      if i != 0 {
        result := result + sep;
      }
      result := result + v[i];
    }
  }

  lemma {:induction false} JoinedGrows(v: seq<string>, x: string, sep: string)
    ensures Joined(v + [x], sep) == if v == [] then x else Joined(v, sep) + sep + x
  {
    if v != [] {
      JoinedGrows(v[1..], x, sep);
      assert (v + [x])[1..] == v[1..] + [x];
    }
  }

  lemma JoinedAfter(x: string, w: seq<string>, sep: string)
    requires w != []
    ensures Joined([x] + w, sep) == x + sep + Joined(w, sep)
  {
    assert ([x] + w)[1..] == w;
  }

  lemma ReplacedAllStep(s: string, from: string, to: string, start: nat)
    requires from != [] && start <= |s|
    ensures match Find(s, from, start)
            case None => ReplacedAll(s[start..], from, to) == s[start..]
            case Some(p) =>
              ReplacedAll(s[start..], from, to) == s[start..p] + to + ReplacedAll(s[p + |from|..], from, to)
  {
    hide Find, MatchAt, Pieces;
    PiecesStep(s, from, start);
    if Find(s, from, start).Some? {
      hide Joined;
      var p := Find(s, from, start).value;
      JoinedAfter(s[start..p], Pieces(s[p + |from|..], from), to);
    }
  }

  /** Replacing in place is splitting and joining. */
  method StringReplace(s: string, from: string, to: string, all: bool) returns (result: string)
    requires all ==> from != []  // an empty `from` is found again after every replacement
    ensures all ==> result == ReplacedAll(s, from, to)
    ensures !all ==> result == ReplacedFirst(s, from, to)
  {
    hide Find, MatchAt, ReplacedAll;
    result := s;
    var position := 0;
    assert s[0..] == s;
    var pos := Find(result, from, position);
    while pos.Some?
      invariant position <= |result| && pos == Find(result, from, position)
      invariant !all ==> position == 0 && result == s
      invariant all ==> result[..position] + ReplacedAll(result[position..], from, to) == ReplacedAll(s, from, to)
      decreases |result| - position
    {
      var p := pos.value;
      ghost var before := result;
      result := result[..p] + to + result[p + |from|..];
      if !all {
        return;
      }
      ReplacedAllStep(before, from, to, position);
      assert before[..p] == before[..position] + before[position..p];
      position := p + |to|;
      assert result[..position] == before[..p] + to;
      assert result[position..] == before[p + |from|..];
      pos := Find(result, from, position);
    }
    if all {
      ReplacedAllStep(result, from, to, position);
      assert result == result[..position] + result[position..];
    }
  }
}
