/** The regular expression matcher of grep.c (the one of chapter 9 of The Practice of
    Programming), proved against a declarative meaning of patterns.

    A C string is the sequence of its characters before the terminating NUL, so
    `re[0] == '\0'` reads `|re| == 0`. */
module Grep {

  type CString = s: string | '\0' !in s

  /** What one piece of a pattern asks for. */
  datatype Atom = One(c: char) | Many(c: char) | End

  /** The pieces of a pattern: `c*` is one piece, a `$` in last position another, and any
      other character stands for itself (or, for `.`, for every character). */
  ghost function Atoms(re: string): seq<Atom>
  {
    if |re| == 0 then []
    else if |re| >= 2 && re[1] == '*' then [Many(re[0])] + Atoms(re[2..])
    else if re == "$" then [End]
    else [One(re[0])] + Atoms(re[1..])
  }

  predicate Accepts(c: char, x: char)
  {
    c == '.' || c == x
  }

  /** Whether the piece of text from `i` to `j` is what the atom asks for. */
  ghost predicate Fits(a: Atom, text: string, i: nat, j: nat)
    requires i <= j <= |text|
  {
    match a
    case One(c) => j == i + 1 && Accepts(c, text[i])
    case Many(c) => forall k :: i <= k < j ==> Accepts(c, text[k])
    case End => i == j == |text|
  }

  ghost predicate IsCut(text: string, cuts: seq<nat>)
  {
    && |cuts| > 0
    && (forall i :: 0 <= i < |cuts| ==> cuts[i] <= |text|)
    && (forall i :: 0 <= i < |cuts| - 1 ==> cuts[i] <= cuts[i + 1])
  }

  /** `cuts` splits the text from position `start` into consecutive pieces, one per atom. */
  ghost predicate Splits(atoms: seq<Atom>, text: string, start: nat, cuts: seq<nat>)
  {
    && |cuts| == |atoms| + 1
    && cuts[0] == start
    && IsCut(text, cuts)
    && forall i :: 0 <= i < |atoms| ==> Fits(atoms[i], text, cuts[i], cuts[i + 1])
  }

  /** The meaning of a pattern at one position of a text. */
  ghost predicate HoldsAt(atoms: seq<Atom>, text: string, start: nat)
  {
    exists cuts :: Splits(atoms, text, start, cuts)
  }

  /** The meaning of a whole pattern: anchored at 0 by a leading `^`, at any position
      (the end of the text included) otherwise. */
  ghost predicate Holds(re: string, text: string)
  {
    if |re| > 0 && re[0] == '^' then HoldsAt(Atoms(re[1..]), text, 0)
    else exists start :: 0 <= start <= |text| && HoldsAt(Atoms(re), text, start)
  }

  lemma {:induction false} EmptyHolds(text: string, start: nat)
    requires start <= |text|
    ensures HoldsAt([], text, start)
  {
    assert Splits([], text, start, [start]);
  }

  /** A pattern holds where its first atom fits a piece after which the rest holds. */
  lemma {:induction false} HoldsUnfold(a: Atom, rest: seq<Atom>, text: string, i: nat, j: nat)
    requires i <= j <= |text| && Fits(a, text, i, j) && HoldsAt(rest, text, j)
    ensures HoldsAt([a] + rest, text, i)
  {
    var cuts :| Splits(rest, text, j, cuts);
    var all := [i] + cuts;
    forall k | 0 <= k < |[a] + rest|
      ensures Fits(([a] + rest)[k], text, all[k], all[k + 1])
    {
      if k > 0 {
        assert ([a] + rest)[k] == rest[k - 1] && all[k] == cuts[k - 1] && all[k + 1] == cuts[k];
      }
    }
    forall k | 0 <= k < |all| - 1
      ensures all[k] <= all[k + 1]
    {
      if k > 0 { assert all[k] == cuts[k - 1] && all[k + 1] == cuts[k]; }
    }
    assert Splits([a] + rest, text, i, all);
  }

  lemma {:induction false} HoldsFold(a: Atom, rest: seq<Atom>, text: string, i: nat) returns (j: nat)
    requires HoldsAt([a] + rest, text, i)
    ensures i <= j <= |text| && Fits(a, text, i, j) && HoldsAt(rest, text, j)
  {
    var all :| Splits([a] + rest, text, i, all);
    j := all[1];
    assert ([a] + rest)[0] == a;
    var cuts := all[1..];
    forall k | 0 <= k < |rest|
      ensures Fits(rest[k], text, cuts[k], cuts[k + 1])
    {
      assert ([a] + rest)[k + 1] == rest[k];
    }
    assert Splits(rest, text, j, cuts);
  }

  /** matchhere (grep.c:85-96): does `re` match at the beginning of `text[i..]`? */
  method MatchHere(re: CString, text: CString, i: nat) returns (r: bool)
    requires i <= |text|
    ensures r <==> HoldsAt(Atoms(re), text, i)
    decreases |re|, 0
  {
    if |re| == 0 {
      EmptyHolds(text, i);
      return true;
    }
    if |re| >= 2 && re[1] == '*' {
      r := MatchStar(re[0], re[2..], text, i);
      return;
    }
    if re[0] == '$' && |re| == 1 {
      assert Atoms(re) == [End] + [];
      if i == |text| {
        EmptyHolds(text, i);
        HoldsUnfold(End, [], text, i, i);
      } else if HoldsAt([End] + [], text, i) {
        var _ := HoldsFold(End, [], text, i);
      }
      return i == |text|;
    }
    ghost var first, rest := One(re[0]), Atoms(re[1..]);
    if i < |text| && (re[0] == '.' || re[0] == text[i]) {
      r := MatchHere(re[1..], text, i + 1);
      if r { HoldsUnfold(first, rest, text, i, i + 1); }
      if HoldsAt([first] + rest, text, i) {
        var _ := HoldsFold(first, rest, text, i);
      }
      return;
    }
    if HoldsAt([first] + rest, text, i) {
      var _ := HoldsFold(first, rest, text, i);
    }
    return false;
  }

  /** matchstar (grep.c:99-106): does `c*re` match at the beginning of `text[i..]`? */
  method MatchStar(c: char, re: CString, text: CString, i: nat) returns (r: bool)
    requires i <= |text|
    ensures r <==> HoldsAt([Many(c)] + Atoms(re), text, i)
    decreases |re|, 1
  {
    var j := i;
    ghost var rest := Atoms(re);
    while true
      invariant i <= j <= |text|
      invariant forall k :: i <= k < j ==> Accepts(c, text[k])
      invariant forall k :: i <= k < j ==> !HoldsAt(rest, text, k)
      decreases |text| - j
    {
      var here := MatchHere(re, text, j);
      if here {
        HoldsUnfold(Many(c), rest, text, i, j);
        return true;
      }
      if !(j < |text| && (text[j] == c || c == '.')) { break; }
      j := j + 1;
    }
    if HoldsAt([Many(c)] + rest, text, i) {
      var e := HoldsFold(Many(c), rest, text, i);
    }
    return false;
  }

  /** match (grep.c:73-82): does `re` match anywhere in `text`? */
  method Match(re: CString, text: CString) returns (r: bool)
    ensures r <==> Holds(re, text)
  {
    if |re| > 0 && re[0] == '^' {
      r := MatchHere(re[1..], text, 0);
      return;
    }
    var i := 0;
    while true
      invariant 0 <= i <= |text|
      invariant forall k :: 0 <= k < i ==> !HoldsAt(Atoms(re), text, k)
      decreases |text| - i
    {
      var here := MatchHere(re, text, i);
      if here { return true; }
      if i == |text| { break; }
      i := i + 1;
    }
    return false;
  }
}
