/** The two string operations the core relies on: `String.prototype.split`
    with a one-character separator (token extraction) and
    `String.prototype.includes` (constraint-name matching). */
module Strings {
  import opened Js

  /** Position of the first occurrence of `c` in `s`, if any. */
  function IndexOf(s: string, c: char): (r: Option<nat>)
    ensures r.None? <==> c !in s
    ensures r.Some? ==> r.value < |s| && s[r.value] == c && c !in s[..r.value]
  {
    if |s| == 0 then None
    else if s[0] == c then Some(0)
    else match IndexOf(s[1..], c)
      case None => None
      case Some(k) =>
        assert s[..k + 1] == [s[0]] + s[1..][..k];
        Some(k + 1)
  }

  /** A character has at most one first occurrence. */
  lemma FirstOccurrenceUnique(s: string, c: char, k1: nat, k2: nat)
    requires k1 < |s| && s[k1] == c && c !in s[..k1]
    requires k2 < |s| && s[k2] == c && c !in s[..k2]
    ensures k1 == k2
  {
    forall j | 0 <= j < k1 ensures s[j] != c {
      assert s[..k1][j] == s[j];
    }
    forall j | 0 <= j < k2 ensures s[j] != c {
      assert s[..k2][j] == s[j];
    }
  }

  /** The inverse of `Split`: the pieces glued back together with `sep`
      between consecutive pieces, as `Array.prototype.join` does. */
  function Join(pieces: seq<string>, sep: char): string
  {
    if |pieces| == 0 then ""
    else if |pieces| == 1 then pieces[0]
    else pieces[0] + [sep] + Join(pieces[1..], sep)
  }

  /** `s.split(sep)` for a one-character separator: the maximal runs between
      separators, including empty ones, so there is always at least one
      piece. */
  function Split(s: string, sep: char): (pieces: seq<string>)
    ensures |pieces| >= 1
    ensures forall i :: 0 <= i < |pieces| ==> sep !in pieces[i]
    ensures Join(pieces, sep) == s
    ensures |pieces| == 1 <==> sep !in s
    decreases |s|
  {
    match IndexOf(s, sep)
    case None => [s]
    case Some(k) =>
      var rest := Split(s[k + 1..], sep);
      assert s == s[..k] + [sep] + s[k + 1..];
      [s[..k]] + rest
  }

  /** `w` is the whole run of non-`sep` characters that starts at `start`:
      it ends at the next `sep` or at the end of `s`. */
  predicate RunAt(s: string, start: int, w: string, sep: char)
  {
    && 0 <= start
    && start + |w| <= |s|
    && s[start..start + |w|] == w
    && sep !in w
    && (start + |w| == |s| || s[start + |w|] == sep)
  }

  /** Only one run starts at a given position. */
  lemma RunAtUnique(s: string, start: int, w1: string, w2: string, sep: char)
    requires RunAt(s, start, w1, sep) && RunAt(s, start, w2, sep)
    ensures w1 == w2
  {
  }

  /** The first piece of a split is the run at the start of the string. */
  lemma SplitHead(s: string, sep: char)
    ensures RunAt(s, 0, Split(s, sep)[0], sep)
  {
  }

  /** When `s` contains the separator, the pieces after the first are the
      split of what follows its first occurrence. */
  lemma SplitTail(s: string, sep: char)
    requires sep in s
    ensures IndexOf(s, sep).Some?
    ensures Split(s, sep)[1..] == Split(s[IndexOf(s, sep).value + 1..], sep)
  {
  }

  /** Splitting what `Join` produced gives the pieces back, provided no piece
      contains the separator. */
  lemma {:induction false} SplitJoin(pieces: seq<string>, sep: char)
    requires |pieces| >= 1
    requires forall i :: 0 <= i < |pieces| ==> sep !in pieces[i]
    ensures Split(Join(pieces, sep), sep) == pieces
    decreases |pieces|
  {
    if |pieces| > 1 {
      var s := Join(pieces, sep);
      var head := pieces[0];
      var tail := pieces[1..];
      assert s == head + [sep] + Join(tail, sep);
      assert s[|head|] == sep;
      assert s[..|head|] == head;
      assert IndexOf(s, sep) == Some(|head|);
      assert s[|head| + 1..] == Join(tail, sep);
      SplitJoin(tail, sep);
    }
  }

  /** Whether `sub` occurs in `s` starting exactly at position `i`. */
  predicate OccursAt(s: string, sub: string, i: int)
  {
    0 <= i && i + |sub| <= |s| && s[i..i + |sub|] == sub
  }

  /** `s.includes(sub)`, scanning left to right. */
  function Includes(s: string, sub: string): bool
    decreases |s|
  {
    if |sub| > |s| then false
    else if s[..|sub|] == sub then true
    else Includes(s[1..], sub)
  }

  /** `Includes` holds exactly when `sub` occurs at some position of `s`. */
  lemma {:induction false} IncludesIffOccurs(s: string, sub: string)
    ensures Includes(s, sub) <==> exists i :: OccursAt(s, sub, i)
    decreases |s|
  {
    if |sub| > |s| {
    } else if s[..|sub|] == sub {
      assert OccursAt(s, sub, 0);
    } else {
      IncludesIffOccurs(s[1..], sub);
      if exists i :: OccursAt(s[1..], sub, i) {
        var i :| OccursAt(s[1..], sub, i);
        assert s[1..][i..i + |sub|] == s[i + 1..i + 1 + |sub|];
        assert OccursAt(s, sub, i + 1);
      }
      if exists i :: OccursAt(s, sub, i) {
        var i :| OccursAt(s, sub, i);
        assert i != 0;
        assert s[1..][i - 1..i - 1 + |sub|] == s[i..i + |sub|];
        assert OccursAt(s[1..], sub, i - 1);
      }
    }
  }
}
