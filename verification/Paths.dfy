/**
 Remote display names and the local relative paths made of them.

 Strings are sequences of UTF-16 code units, so lengths and cuts count what the program's
 string class counts.
 */
module Paths {
  import opened Wire

  const SLASH: u16 := 47
  const BACKSLASH: u16 := 92
  const COLON: u16 := 58
  const DOT: u16 := 46
  const NUL: u16 := 0

  function Replace(s: QString, from: u16, to: u16): (r: QString)
    ensures |r| == |s|
    ensures forall i | 0 <= i < |s| :: r[i] == if s[i] == from then to else s[i]
  {
    seq(|s|, i requires 0 <= i < |s| => if s[i] == from then to else s[i])
  }

  // The number of characters before the first separator.
  function RunLength(s: QString): (n: nat)
    ensures n <= |s|
    ensures forall i | 0 <= i < n :: s[i] != SLASH
    ensures n < |s| ==> s[n] == SLASH
  {
    if s == [] || s[0] == SLASH then 0 else 1 + RunLength(s[1..])
  }

  // The parts between separators, empty ones skipped.
  function Split(s: QString): seq<QString>
    decreases |s|
  {
    if s == [] then []
    else if s[0] == SLASH then Split(s[1..])
    else [s[..RunLength(s)]] + Split(s[RunLength(s)..])
  }

  function Join(parts: seq<QString>, separator: u16): QString {
    if parts == [] then []
    else if |parts| == 1 then parts[0]
    else parts[0] + [separator] + Join(parts[1..], separator)
  }

  predicate IsPart(p: QString) { p != [] && SLASH !in p }

  ghost predicate AllParts(parts: seq<QString>) { forall i | 0 <= i < |parts| :: IsPart(parts[i]) }

  predicate Dots(p: QString) { p == [DOT] || p == [DOT, DOT] }

  function AnyDots(parts: seq<QString>): bool {
    parts != [] && (Dots(parts[0]) || AnyDots(parts[1..]))
  }

  predicate HasDrive(s: QString) { |s| >= 2 && s[1] == COLON }

  // The empty string stands for a rejected name.
  function SafeRelativePath(displayName: QString): QString {
    var normalized := Replace(displayName, BACKSLASH, SLASH);
    if (normalized != [] && normalized[0] == SLASH) || HasDrive(normalized) then []
    else
      var parts := Split(normalized);
      if parts == [] || AnyDots(parts) then [] else Join(parts, SLASH)
  }

  lemma {:induction false} SplitParts(s: QString)
    ensures AllParts(Split(s))
    decreases |s|
  {
    if s != [] {
      SplitParts(if s[0] == SLASH then s[1..] else s[RunLength(s)..]);
    }
  }

  lemma {:induction false} SplitLacks(s: QString, c: u16)
    requires c !in s
    ensures forall k | 0 <= k < |Split(s)| :: c !in Split(s)[k]
    decreases |s|
  {
    if s != [] {
      SplitLacks(if s[0] == SLASH then s[1..] else s[RunLength(s)..], c);
    }
  }

  lemma RunLengthIs(s: QString, n: nat)
    requires n <= |s| && (forall i | 0 <= i < n :: s[i] != SLASH) && (n < |s| ==> s[n] == SLASH)
    ensures RunLength(s) == n
  {
  }

  lemma RunLengthOf(p: QString, rest: QString)
    requires SLASH !in p && (rest == [] || rest[0] == SLASH)
    ensures RunLength(p + rest) == |p|
  {
    RunLengthIs(p + rest, |p|);
  }

  /** Splitting undoes joining on non-empty parts without separators. */
  lemma {:induction false} SplitOfJoin(parts: seq<QString>)
    requires AllParts(parts)
    ensures Split(Join(parts, SLASH)) == parts
  {
    if parts != [] {
      var p := parts[0];
      assert IsPart(p);
      if |parts| == 1 {
        RunLengthOf(p, []);
        assert p + [] == p && p[|p|..] == [] && p[..|p|] == p;
      } else {
        var tail := Join(parts[1..], SLASH);
        SplitOfJoin(parts[1..]);
        var s := Join(parts, SLASH);
        assert s == p + ([SLASH] + tail);
        RunLengthOf(p, [SLASH] + tail);
        assert s[..|p|] == p && s[|p|..] == [SLASH] + tail;
        assert ([SLASH] + tail)[1..] == tail;
      }
    }
  }

  lemma ReplaceSeparator(a: QString, b: QString, from: u16, to: u16)
    requires from !in a
    ensures Replace(a + ([from] + b), from, to) == a + ([to] + Replace(b, from, to))
  {
  }

  lemma {:induction false} JoinReplace(parts: seq<QString>, from: u16, to: u16)
    requires forall i | 0 <= i < |parts| :: from !in parts[i]
    ensures Replace(Join(parts, from), from, to) == Join(parts, to)
  {
    if |parts| == 1 {
      assert Replace(parts[0], from, to) == parts[0];
    } else if |parts| > 1 {
      JoinReplace(parts[1..], from, to);
      var a, b := Join(parts[1..], from), Join(parts[1..], to);
      ReplaceSeparator(parts[0], a, from, to);
      assert Join(parts, from) == parts[0] + ([from] + a);
      assert parts[0] + ([to] + b) == Join(parts, to);
    }
  }

  lemma {:induction false} JoinLacks(parts: seq<QString>, separator: u16, c: u16)
    requires c != separator && forall i | 0 <= i < |parts| :: c !in parts[i]
    ensures c !in Join(parts, separator)
  {
    if |parts| > 1 {
      JoinLacks(parts[1..], separator, c);
    }
  }

  // A list of names that survives the trip: real file names, no backslash, no drive.
  ghost predicate PlainName(p: QString) { IsPart(p) && BACKSLASH !in p && !Dots(p) }

  ghost predicate PlainNames(parts: seq<QString>) {
    parts != [] && (forall i | 0 <= i < |parts| :: PlainName(parts[i])) && !HasDrive(parts[0])
  }

  lemma {:induction false} NoDots(parts: seq<QString>)
    ensures AnyDots(parts) <==> exists i | 0 <= i < |parts| :: Dots(parts[i])
  {
    if parts != [] {
      NoDots(parts[1..]);
      if AnyDots(parts[1..]) {
        var i :| 0 <= i < |parts| - 1 && Dots(parts[1..][i]);
        assert Dots(parts[i + 1]);
      }
      if i :| 0 <= i < |parts| && Dots(parts[i]) {
        assert i > 0 ==> Dots(parts[1..][i - 1]);
      }
    }
  }

  lemma JoinStart(parts: seq<QString>)
    requires parts != [] && IsPart(parts[0])
    ensures var s := Join(parts, SLASH);
      s != [] && s[0] != SLASH && s[0] == parts[0][0] && (HasDrive(s) <==> HasDrive(parts[0]))
  {
    if |parts| > 1 {
      var tail := Join(parts[1..], SLASH);
      assert Join(parts, SLASH) == parts[0] + ([SLASH] + tail);
    }
  }

  /** A display name of plain components is read back as those components. */
  lemma SafeOfPlain(parts: seq<QString>)
    requires PlainNames(parts)
    ensures SafeRelativePath(Join(parts, BACKSLASH)) == Join(parts, SLASH)
  {
    JoinReplace(parts, BACKSLASH, SLASH);
    SplitOfJoin(parts);
    NoDots(parts);
    JoinStart(parts);
  }

  // What an accepted name is made of.
  function PathParts(displayName: QString): seq<QString> { Split(Replace(displayName, BACKSLASH, SLASH)) }

  /** An accepted path is a join of non-empty components, none of them "." or "..", none holding
      a separator of either kind; and it is accepted again, unchanged. */
  lemma SafePathIsClean(displayName: QString)
    requires SafeRelativePath(displayName) != []
    ensures var path, parts := SafeRelativePath(displayName), PathParts(displayName);
      path == Join(parts, SLASH) && Split(path) == parts && PlainNames(parts) &&
      SafeRelativePath(path) == path
  {
    var normalized := Replace(displayName, BACKSLASH, SLASH);
    var parts := Split(normalized);
    SplitParts(normalized);
    SplitLacks(normalized, BACKSLASH);
    NoDots(parts);
    SplitOfJoin(parts);
    FirstPart(normalized);
    forall i | 0 <= i < |parts|
      ensures PlainName(parts[i])
    {
      assert IsPart(parts[i]) && !Dots(parts[i]);
    }
    var path := Join(parts, SLASH);
    JoinLacks(parts, SLASH, BACKSLASH);
    assert Replace(path, BACKSLASH, SLASH) == path;
    JoinStart(parts);
  }

  lemma FirstPart(s: QString)
    requires s != [] && s[0] != SLASH && !HasDrive(s)
    ensures Split(s) != [] && !HasDrive(Split(s)[0])
  {
    assert Split(s)[0] == s[..RunLength(s)];
  }

  // The first component of a relative path.
  function Top(path: QString): QString { path[..RunLength(path)] }

  lemma TopOfJoin(parts: seq<QString>)
    requires parts != [] && AllParts(parts)
    ensures Top(Join(parts, SLASH)) == parts[0]
  {
    assert IsPart(parts[0]);
    if |parts| == 1 {
      RunLengthOf(parts[0], []);
      assert parts[0] + [] == parts[0];
    } else {
      var tail := Join(parts[1..], SLASH);
      assert Join(parts, SLASH) == parts[0] + ([SLASH] + tail);
      RunLengthOf(parts[0], [SLASH] + tail);
    }
  }

  // The top of an accepted path is the first component of the name it was made from.
  lemma TopIsFirst(displayName: QString)
    requires SafeRelativePath(displayName) != []
    ensures PathParts(displayName) != [] && Top(SafeRelativePath(displayName)) == PathParts(displayName)[0]
  {
    hide SafeRelativePath, PathParts, Top, PlainName;
    SafePathIsClean(displayName);
    PlainAreParts(PathParts(displayName));
    TopOfJoin(PathParts(displayName));
  }

  lemma PlainAreParts(parts: seq<QString>)
    requires PlainNames(parts)
    ensures AllParts(parts)
  {
  }

  /** Joined names are equal only if the components are. */
  lemma JoinInjective(a: seq<QString>, b: seq<QString>)
    requires AllParts(a) && AllParts(b) && Join(a, SLASH) == Join(b, SLASH)
    ensures a == b
  {
    SplitOfJoin(a);
    SplitOfJoin(b);
  }

  // ---- which names are accepted -----------------------------------------------------------

  predicate IsSeparator(c: u16) { c == SLASH || c == BACKSLASH }

  // A longest run of characters other than separators.
  ghost predicate IsRun(name: QString, i: nat, j: nat) {
    && i < j <= |name|
    && (forall k | i <= k < j :: !IsSeparator(name[k]))
    && (i == 0 || IsSeparator(name[i - 1])) && (j == |name| || IsSeparator(name[j]))
  }

  ghost predicate IsPiece(s: QString, i: nat, j: nat) {
    && i < j <= |s|
    && (forall k | i <= k < j :: s[k] != SLASH)
    && (i == 0 || s[i - 1] == SLASH) && (j == |s| || s[j] == SLASH)
  }

  ghost predicate HasPiece(s: QString, p: QString) { exists i: nat, j: nat :: IsPiece(s, i, j) && s[i..j] == p }

  lemma PieceShifts(s: QString, n: nat, i: nat, j: nat)
    requires n <= |s| && (n > 0 ==> s[n - 1] == SLASH || (n < |s| ==> s[n] == SLASH))
    ensures IsPiece(s[n..], i, j) ==> IsPiece(s, i + n, j + n) && s[n..][i..j] == s[i + n..j + n]
    ensures i >= n && IsPiece(s, i, j) ==> IsPiece(s[n..], i - n, j - n) && s[n..][i - n..j - n] == s[i..j]
  {
  }

  lemma {:induction false} SplitIsPieces(s: QString, p: QString)
    ensures p in Split(s) <==> HasPiece(s, p)
    decreases |s|
  {
    if s != [] {
      var n := if s[0] == SLASH then 1 else RunLength(s);
      SplitIsPieces(s[n..], p);
      if HasPiece(s[n..], p) {
        var i: nat, j: nat :| IsPiece(s[n..], i, j) && s[n..][i..j] == p;
        PieceShifts(s, n, i, j);
        assert IsPiece(s, i + n, j + n) && s[i + n..j + n] == p;
      }
      if s[0] != SLASH {
        assert IsPiece(s, 0, n) && s[0..n] == s[..n];
      }
      if HasPiece(s, p) {
        var i: nat, j: nat :| IsPiece(s, i, j) && s[i..j] == p;
        if i >= n {
          PieceShifts(s, n, i, j);
          assert IsPiece(s[n..], i - n, j - n) && s[n..][i - n..j - n] == p;
        } else {
          OnlyFirstPiece(s, i, j);
        }
      }
    }
  }

  // A piece that begins within the first run is that run.
  lemma OnlyFirstPiece(s: QString, i: nat, j: nat)
    requires IsPiece(s, i, j) && s[0] != SLASH && i < RunLength(s)
    ensures i == 0 && j == RunLength(s)
  {
  }

  lemma RunsArePieces(name: QString, i: nat, j: nat)
    ensures var s := Replace(name, BACKSLASH, SLASH);
      (IsPiece(s, i, j) <==> IsRun(name, i, j)) && (IsRun(name, i, j) ==> s[i..j] == name[i..j])
  {
  }

  lemma {:induction false} AnyDotsIs(parts: seq<QString>)
    ensures AnyDots(parts) <==> [DOT] in parts || [DOT, DOT] in parts
  {
    if parts != [] {
      AnyDotsIs(parts[1..]);
      assert parts == [parts[0]] + parts[1..];
    }
  }

  lemma {:induction false} SplitEmpty(s: QString)
    ensures Split(s) == [] <==> forall i | 0 <= i < |s| :: s[i] == SLASH
    decreases |s|
  {
    if s != [] && s[0] == SLASH {
      SplitEmpty(s[1..]);
      assert forall i | 0 < i < |s| :: s[i] == s[1..][i - 1];
      assert forall i | 0 <= i < |s| - 1 :: s[1..][i] == s[i + 1];
    }
  }

  ghost predicate HasRun(name: QString, p: QString) { exists i: nat, j: nat :: IsRun(name, i, j) && name[i..j] == p }

  lemma RunInParts(name: QString, p: QString)
    ensures p in PathParts(name) <==> HasRun(name, p)
  {
    var s := Replace(name, BACKSLASH, SLASH);
    SplitIsPieces(s, p);
    if HasPiece(s, p) {
      var i: nat, j: nat :| IsPiece(s, i, j) && s[i..j] == p;
      RunsArePieces(name, i, j);
      assert IsRun(name, i, j) && name[i..j] == p;
    }
    if HasRun(name, p) {
      var i: nat, j: nat :| IsRun(name, i, j) && name[i..j] == p;
      RunsArePieces(name, i, j);
      assert IsPiece(s, i, j) && s[i..j] == p;
    }
  }

  /** A display name is accepted if and only if it does not begin with a separator, has no colon in
      second place, holds some character other than a separator, and has no run between
      separators, of either kind, that is "." or "..". */
  lemma AcceptedExactly(name: QString)
    ensures SafeRelativePath(name) != [] <==>
      && name != [] && name[0] != 47 && name[0] != 92
      && !(|name| >= 2 && name[1] == 58)
      && (exists i | 0 <= i < |name| :: name[i] != 47 && name[i] != 92)
      && !HasRun(name, [46]) && !HasRun(name, [46, 46])
  {
    var s := Replace(name, BACKSLASH, SLASH);
    var parts := Split(s);
    hide Split, IsRun, AnyDots;
    RunInParts(name, [DOT]);
    RunInParts(name, [DOT, DOT]);
    AnyDotsIs(parts);
    SplitEmpty(s);
    SplitParts(s);
    if parts != [] {
      assert IsPart(parts[0]);
      JoinStart(parts);
    }
  }
}
