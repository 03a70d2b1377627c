/**
  The PHP string built-ins the plugin relies on, on strings of characters
  taken one byte each: strtolower, strpos, stripos, str_replace of one
  character, implode and explode with the separator ", ", and
  preg_split('/\R/', ..., PREG_SPLIT_NO_EMPTY).
 */
module PhpString {

  // ---------------------------------------------------------------------
  // strtolower (ASCII only, as in PHP 8.2 and later)
  // ---------------------------------------------------------------------

  predicate IsUpper(c: char) {
    'A' <= c <= 'Z'
  }

  function LowerChar(c: char): (d: char)
    ensures !IsUpper(d)
    ensures !IsUpper(c) ==> d == c
    ensures IsUpper(c) ==> d as int == c as int + 32
  {
    if IsUpper(c) then (c as int + 32) as char else c
  }

  /** `strtolower(s)`. */
  function Lower(s: string): (r: string)
    ensures |r| == |s|
    ensures forall i :: 0 <= i < |r| ==> !IsUpper(r[i])
    ensures forall i :: 0 <= i < |s| && !IsUpper(s[i]) ==> r[i] == s[i]
    ensures forall i :: 0 <= i < |s| ==> r[i] == LowerChar(s[i])
  {
    seq(|s|, i requires 0 <= i < |s| => LowerChar(s[i]))
  }

  /** Lower-casing twice is lower-casing once. */
  lemma LowerIdempotent(s: string)
    ensures Lower(Lower(s)) == Lower(s)
  {
  }

  /** Some string of `methods` lower-cases to k. */
  predicate LowersTo(methods: seq<string>, k: string) {
    exists m :: 0 <= m < |methods| && Lower(methods[m]) == k
  }

  lemma LowersToSnoc(methods: seq<string>, k: string)
    requires methods != []
    ensures LowersTo(methods, k)
        <==> LowersTo(methods[..|methods| - 1], k) || Lower(methods[|methods| - 1]) == k
  {
    var ms := methods[..|methods| - 1];
    if LowersTo(methods, k) {
      var m :| 0 <= m < |methods| && Lower(methods[m]) == k;
      if m < |ms| { assert ms[m] == methods[m]; }
    }
    if LowersTo(ms, k) {
      var m :| 0 <= m < |ms| && Lower(ms[m]) == k;
      assert methods[m] == ms[m];
    }
  }

  // ---------------------------------------------------------------------
  // strpos / stripos: is `needle` a substring of `hay`?
  // ---------------------------------------------------------------------

  predicate OccursAt(hay: string, needle: string, i: int) {
    0 <= i && i + |needle| <= |hay| && hay[i..i + |needle|] == needle
  }

  /** `strpos(hay, needle) !== false`. */
  predicate Contains(hay: string, needle: string)
    ensures Contains(hay, needle) ==> |needle| <= |hay|
  {
    exists i | 0 <= i <= |hay| - |needle| :: OccursAt(hay, needle, i)
  }

  /** `stripos(hay, needle) !== false`: substring test after ASCII case folding. */
  predicate ContainsIgnoreCase(hay: string, needle: string)
    ensures ContainsIgnoreCase(hay, needle) ==> |needle| <= |hay|
  {
    Contains(Lower(hay), Lower(needle))
  }

  // ---------------------------------------------------------------------
  // str_replace('/', '_', s)
  // ---------------------------------------------------------------------

  /** `str_replace('/', '_', s)`. */
  function ReplaceSlashes(s: string): (r: string)
    ensures |r| == |s|
    ensures forall i :: 0 <= i < |s| ==> r[i] == (if s[i] == '/' then '_' else s[i])
    ensures '/' !in r
  {
    seq(|s|, i requires 0 <= i < |s| => if s[i] == '/' then '_' else s[i])
  }

  // ---------------------------------------------------------------------
  // implode(', ', parts) and explode(', ', s)
  // ---------------------------------------------------------------------

  /** No ", " occurs in p. */
  predicate NoSeparator(p: string) {
    forall i :: 0 <= i < |p| - 1 ==> !(p[i] == ',' && p[i + 1] == ' ')
  }

  lemma NoSeparatorIsNotContains(p: string)
    ensures NoSeparator(p) <==> !Contains(p, ", ")
  {
    if !NoSeparator(p) {
      var i :| 0 <= i < |p| - 1 && p[i] == ',' && p[i + 1] == ' ';
      assert OccursAt(p, ", ", i);
    }
    if Contains(p, ", ") {
      var i :| 0 <= i <= |p| - 2 && OccursAt(p, ", ", i);
      assert p[i] == p[i..i + 2][0] && p[i + 1] == p[i..i + 2][1];
    }
  }

  /** The lengths of the pieces, added up. */
  function PiecesLength(parts: seq<string>): nat {
    if parts == [] then 0 else |parts[0]| + PiecesLength(parts[1..])
  }

  /** `implode(', ', parts)`. */
  function Implode(parts: seq<string>): string {
    if parts == [] then ""
    else if |parts| == 1 then parts[0]
    else parts[0] + ", " + Implode(parts[1..])
  }

  /** Joining puts one two-character separator between neighbouring pieces and nothing else. */
  lemma {:induction false} ImplodeLength(parts: seq<string>)
    ensures |Implode(parts)| == if parts == [] then 0 else PiecesLength(parts) + 2 * (|parts| - 1)
  {
    if |parts| > 1 {
      ImplodeLength(parts[1..]);
    }
  }

  /** `explode(', ', s)`: the pieces between occurrences of ", ", scanning left to right. */
  function Explode(s: string): (parts: seq<string>)
    ensures |parts| >= 1
    decreases |s|
  {
    if |s| >= 2 && s[0] == ',' && s[1] == ' ' then [""] + Explode(s[2..])
    else if s == [] then [""]
    else
      var rest := Explode(s[1..]);
      [[s[0]] + rest[0]] + rest[1..]
  }

  /** Joining the pieces of any string gives the string back. */
  lemma {:induction false} ImplodeExplode(s: string)
    ensures Implode(Explode(s)) == s
    decreases |s|
  {
    if |s| >= 2 && s[0] == ',' && s[1] == ' ' {
      ImplodeExplode(s[2..]);
      assert s == ", " + s[2..];
    } else if s != [] {
      var rest := Explode(s[1..]);
      ImplodeExplode(s[1..]);
      if |rest| > 1 {
        assert ([[s[0]] + rest[0]] + rest[1..])[1..] == rest[1..];
        assert s == [s[0]] + s[1..];
      }
    }
  }

  /**
    No piece of a split contains ", ", and the first piece is a prefix of
    the string: explode leaves no separator behind.
   */
  lemma {:induction false} ExplodePieces(s: string)
    ensures |Explode(s)[0]| <= |s| && Explode(s)[0] == s[..|Explode(s)[0]|]
    ensures forall i :: 0 <= i < |Explode(s)| ==> NoSeparator(Explode(s)[i])
    decreases |s|
  {
    if |s| >= 2 && s[0] == ',' && s[1] == ' ' {
      ExplodePieces(s[2..]);
      assert forall i :: 1 <= i < |Explode(s)| ==> Explode(s)[i] == Explode(s[2..])[i - 1];
    } else if s != [] {
      var rest := Explode(s[1..]);
      ExplodePieces(s[1..]);
      var p := [s[0]] + rest[0];
      assert Explode(s) == [p] + rest[1..];
      assert p == s[..|p|];
      assert NoSeparator(p) by {
        forall i | 0 <= i < |p| - 1 ensures !(p[i] == ',' && p[i + 1] == ' ') {
          if i == 0 {
            assert p[0] == s[0] && p[1] == s[1];
          } else {
            assert p[i] == rest[0][i - 1] && p[i + 1] == rest[0][i];
          }
        }
      }
      assert forall i :: 1 <= i < |Explode(s)| ==> Explode(s)[i] == rest[i];
    }
  }

  /** A string without ", " is one piece. */
  lemma {:induction false} ExplodeSingle(p: string)
    requires NoSeparator(p)
    ensures Explode(p) == [p]
  {
    if p != [] {
      assert NoSeparator(p[1..]) by {
        forall i | 0 <= i < |p[1..]| - 1 ensures !(p[1..][i] == ',' && p[1..][i + 1] == ' ') {
          assert p[1..][i] == p[i + 1] && p[1..][i + 1] == p[i + 2];
        }
      }
      ExplodeSingle(p[1..]);
      assert [p[0]] + p[1..] == p;
    }
  }

  /** A first piece without ", " is split off exactly at the separator that follows it. */
  lemma {:induction false} ExplodeCons(p: string, t: string)
    requires NoSeparator(p)
    ensures Explode(p + ", " + t) == [p] + Explode(t)
  {
    var s := p + ", " + t;
    if p == [] {
      assert s[2..] == t;
    } else {
      assert s[0] == p[0];
      assert |p| == 1 ==> s[1] == ',';
      assert |p| > 1 ==> s[1] == p[1];
      assert NoSeparator(p[1..]) by {
        forall i | 0 <= i < |p[1..]| - 1 ensures !(p[1..][i] == ',' && p[1..][i + 1] == ' ') {
          assert p[1..][i] == p[i + 1] && p[1..][i + 1] == p[i + 2];
        }
      }
      assert s[1..] == p[1..] + ", " + t;
      ExplodeCons(p[1..], t);
      assert [p[0]] + p[1..] == p;
    }
  }

  /** Splitting a joined list gives the list back when no piece contains ", ". */
  lemma {:induction false} ExplodeImplode(parts: seq<string>)
    requires |parts| >= 1
    requires forall i :: 0 <= i < |parts| ==> NoSeparator(parts[i])
    ensures Explode(Implode(parts)) == parts
  {
    if |parts| == 1 {
      ExplodeSingle(parts[0]);
    } else {
      ExplodeImplode(parts[1..]);
      ExplodeCons(parts[0], Implode(parts[1..]));
      assert [parts[0]] + parts[1..] == parts;
    }
  }

  /**
    Splitting a joined list gives the list back exactly when the list is
    non-empty and no piece contains ", ".
   */
  lemma ExplodeImplodeIff(parts: seq<string>)
    ensures Explode(Implode(parts)) == parts
        <==> |parts| >= 1 && forall i :: 0 <= i < |parts| ==> NoSeparator(parts[i])
  {
    if |parts| >= 1 && forall i :: 0 <= i < |parts| ==> NoSeparator(parts[i]) {
      ExplodeImplode(parts);
    }
    ExplodePieces(Implode(parts));
  }

  // ---------------------------------------------------------------------
  // preg_split('/\R/', text, -1, PREG_SPLIT_NO_EMPTY)
  // ---------------------------------------------------------------------

  /**
    A character that \R matches on its own in a non-Unicode pattern: LF, CR,
    VT, FF and NEL. The two-character CRLF match needs no case of its own:
    splitting CR and LF separately leaves an empty piece between them, and
    empty pieces are dropped.
   */
  predicate IsLineBreak(c: char) {
    c == '\n' || c == '\r' || c == '\U{000B}' || c == '\U{000C}' || c == '\U{0085}'
  }

  predicate HasNoLineBreak(s: string) {
    forall i :: 0 <= i < |s| ==> !IsLineBreak(s[i])
  }

  /** Position of the first line break, or |s| when there is none. */
  function FirstBreak(s: string): (n: nat)
    ensures n <= |s|
    ensures forall i :: 0 <= i < n ==> !IsLineBreak(s[i])
    ensures n < |s| ==> IsLineBreak(s[n])
  {
    if s == [] || IsLineBreak(s[0]) then 0 else 1 + FirstBreak(s[1..])
  }

  /** `preg_split('/\R/', text, -1, PREG_SPLIT_NO_EMPTY)`: the non-empty lines of text, in order. */
  function SplitLines(text: string): (lines: seq<string>)
    ensures forall i :: 0 <= i < |lines| ==> lines[i] != [] && HasNoLineBreak(lines[i])
    decreases |text|
  {
    if text == [] then []
    else if IsLineBreak(text[0]) then SplitLines(text[1..])
    else
      var n := FirstBreak(text);
      [text[..n]] + SplitLines(text[n..])
  }

  /** A line break cuts the text in two, and the lines of each half are kept in order. */
  lemma {:induction false} SplitLinesAt(a: string, b: char, c: string)
    requires IsLineBreak(b)
    ensures SplitLines(a + [b] + c) == SplitLines(a) + SplitLines(c)
    decreases |a|
  {
    var s := a + [b] + c;
    if a == [] {
      assert s[1..] == c;
    } else if IsLineBreak(a[0]) {
      assert s[1..] == a[1..] + [b] + c;
      SplitLinesAt(a[1..], b, c);
    } else {
      var n := FirstBreak(s);
      assert IsLineBreak(s[|a|]);
      assert n <= |a|;
      var m := FirstBreak(a);
      assert forall i :: 0 <= i < |a| ==> s[i] == a[i];
      assert m == n;
      assert s[..n] == a[..n];
      assert s[n..] == a[n..] + [b] + c;
      SplitLinesAt(a[n..], b, c);
    }
  }

  /** A non-empty string without line breaks is one line. */
  lemma SplitLinesSingle(s: string)
    requires s != [] && HasNoLineBreak(s)
    ensures SplitLines(s) == [s]
  {
    assert FirstBreak(s) == |s|;
    assert s[..|s|] == s && s[|s|..] == [];
  }

  /** The text has no non-empty lines exactly when it consists of line breaks only. */
  lemma {:induction false} SplitLinesEmpty(text: string)
    ensures SplitLines(text) == [] <==> forall i :: 0 <= i < |text| ==> IsLineBreak(text[i])
    decreases |text|
  {
    if text != [] {
      SplitLinesEmpty(text[1..]);
      if IsLineBreak(text[0]) {
        assert forall i :: 1 <= i < |text| ==> text[i] == text[1..][i - 1];
      }
    }
  }

  /** `implode("\n", lines)`. */
  function JoinLines(lines: seq<string>): string {
    if lines == [] then ""
    else if |lines| == 1 then lines[0]
    else lines[0] + "\n" + JoinLines(lines[1..])
  }

  /** Splitting lines joined by "\n" gives them back when each is non-empty and break-free. */
  lemma {:induction false} SplitJoinLines(lines: seq<string>)
    requires forall i :: 0 <= i < |lines| ==> lines[i] != [] && HasNoLineBreak(lines[i])
    ensures SplitLines(JoinLines(lines)) == lines
  {
    if |lines| == 1 {
      SplitLinesSingle(lines[0]);
    } else if |lines| > 1 {
      SplitJoinLines(lines[1..]);
      SplitLinesSingle(lines[0]);
      SplitLinesAt(lines[0], '\n', JoinLines(lines[1..]));
      assert lines[0] + "\n" + JoinLines(lines[1..]) == lines[0] + ['\n'] + JoinLines(lines[1..]);
      assert [lines[0]] + lines[1..] == lines;
    }
  }
}
