/**
 * The string operations the matcher relies on, modelled on their
 * JavaScript counterparts: `toLowerCase`, `includes`, `split(" ")` and
 * `join(sep)`. Strings are sequences of characters.
 */
module Text {

  /** ASCII case mapping: upper-case Latin letters become lower-case, everything else is kept. */
  function LowerChar(c: char): (d: char)
    ensures 'A' <= c <= 'Z' ==> 'a' <= d <= 'z' && d as int - c as int == 32
    ensures !('A' <= c <= 'Z') ==> d == c
  {
    if 'A' <= c <= 'Z' then (c as int + 32) as char else c
  }

  /** `s.toLowerCase()`, restricted to ASCII letters. */
  function Lower(s: string): (r: string)
    ensures |r| == |s|
  {
    if s == [] then [] else [LowerChar(s[0])] + Lower(s[1..])
  }

  /** Lower-casing maps each character on its own. */
  lemma {:induction false} LowerAt(s: string)
    ensures forall i :: 0 <= i < |s| ==> Lower(s)[i] == LowerChar(s[i])
    ensures forall i :: 0 <= i < |s| && 'A' <= s[i] <= 'Z' ==> Lower(s)[i] as int == s[i] as int + 32
    ensures forall i :: 0 <= i < |s| && !('A' <= s[i] <= 'Z') ==> Lower(s)[i] == s[i]
  {
    if s != [] {
      LowerAt(s[1..]);
      assert forall i :: 1 <= i < |s| ==> Lower(s)[i] == Lower(s[1..])[i - 1];
    }
  }

  /** No ASCII upper-case letter occurs in s. */
  predicate IsLowerCase(s: string) {
    forall i :: 0 <= i < |s| ==> !('A' <= s[i] <= 'Z')
  }

  /** Lower-casing leaves no upper-case letter behind and is idempotent. */
  lemma LowerIsLowerCase(s: string)
    ensures IsLowerCase(Lower(s))
    ensures Lower(Lower(s)) == Lower(s)
  {
    var l := Lower(s);
    LowerAt(s);
    LowerAt(l);
    assert forall i :: 0 <= i < |l| ==> Lower(l)[i] == l[i];
  }

  /** A string without upper-case letters is its own lower-case form. */
  lemma LowerKeepsLowerCase(s: string)
    requires IsLowerCase(s)
    ensures Lower(s) == s
  {
    LowerAt(s);
  }

  /** The needle occurs in hay starting at position i. */
  predicate OccursAt(hay: string, needle: string, i: nat) {
    i + |needle| <= |hay| && hay[i..i + |needle|] == needle
  }

  /**
   * `hay.includes(needle)`: some suffix of hay starts with needle. The
   * empty needle is found in every string, and a needle is never found in
   * a shorter string.
   */
  predicate Contains(hay: string, needle: string): (found: bool)
    ensures needle <= hay ==> found
    ensures found ==> |needle| <= |hay|
  {
    needle <= hay || (hay != [] && Contains(hay[1..], needle))
  }

  /** Contains means: the needle occurs at some position of hay. */
  lemma ContainsOccurs(hay: string, needle: string)
    ensures Contains(hay, needle) <==> exists i: nat :: OccursAt(hay, needle, i)
  {
    if Contains(hay, needle) {
      ContainsWitness(hay, needle);
    }
    if i: nat :| OccursAt(hay, needle, i) {
      OccursContains(hay, needle, i);
    }
  }

  /** A string that contains the needle has it at some position. */
  lemma {:induction false} ContainsWitness(hay: string, needle: string)
    requires Contains(hay, needle)
    ensures exists i: nat :: OccursAt(hay, needle, i)
  {
    if needle <= hay {
      assert OccursAt(hay, needle, 0);
    } else {
      var tail := hay[1..];
      ContainsWitness(tail, needle);
      var j: nat :| OccursAt(tail, needle, j);
      assert hay[j + 1..j + 1 + |needle|] == tail[j..j + |needle|];
      assert OccursAt(hay, needle, j + 1);
    }
  }

  /** A needle at any position is contained. */
  lemma {:induction false} OccursContains(hay: string, needle: string, i: nat)
    requires OccursAt(hay, needle, i)
    ensures Contains(hay, needle)
    decreases i
  {
    if i == 0 {
      assert hay[..|needle|] == hay[0..0 + |needle|];
    } else {
      var tail := hay[1..];
      assert tail[i - 1..i - 1 + |needle|] == hay[i..i + |needle|];
      OccursContains(tail, needle, i - 1);
    }
  }

  /** Whatever occurs in mid also occurs in any string that surrounds mid. */
  lemma ContainsWithin(before: string, mid: string, after: string, needle: string)
    requires Contains(mid, needle)
    ensures Contains(before + mid + after, needle)
  {
    var hay := before + mid + after;
    ContainsOccurs(mid, needle);
    var i: nat :| OccursAt(mid, needle, i);
    assert hay[|before| + i..|before| + i + |needle|] == mid[i..i + |needle|];
    assert OccursAt(hay, needle, |before| + i);
    ContainsOccurs(hay, needle);
  }

  /** `parts.join(sep)`. */
  function Join(parts: seq<string>, sep: string): (r: string)
    ensures |parts| == 1 ==> r == parts[0]
  {
    if |parts| == 0 then ""
    else if |parts| == 1 then parts[0]
    else parts[0] + sep + Join(parts[1..], sep)
  }

  /** The joined string contains each of its parts. */
  lemma {:induction false} JoinContainsParts(parts: seq<string>, sep: string)
    ensures forall k :: 0 <= k < |parts| ==> Contains(Join(parts, sep), parts[k])
  {
    if |parts| > 1 {
      var rest := Join(parts[1..], sep);
      JoinContainsParts(parts[1..], sep);
      assert Join(parts, sep) == parts[0] + sep + rest;
      forall k | 0 <= k < |parts| ensures Contains(Join(parts, sep), parts[k]) {
        if k == 0 {
          ContainsWithin("", parts[0], sep + rest, parts[0]);
          assert "" + parts[0] + (sep + rest) == parts[0] + sep + rest;
        } else {
          assert parts[k] == parts[1..][k - 1];
          ContainsWithin(parts[0] + sep, rest, "", parts[k]);
          assert parts[0] + sep + rest + "" == parts[0] + sep + rest;
        }
      }
    }
  }

  /**
   * `s.split(" ")`: the pieces between single spaces. Two adjacent spaces,
   * or a leading or trailing space, yield an empty piece, and the empty
   * string yields one empty piece.
   */
  function SplitOnSpace(s: string): (r: seq<string>)
    ensures |r| >= 1
  {
    if s == [] then [""]
    else
      var rest := SplitOnSpace(s[1..]);
      if s[0] == ' ' then [""] + rest
      else [[s[0]] + rest[0]] + rest[1..]
  }

  /** The pieces hold no space, and joining them with single spaces gives s back. */
  lemma {:induction false} SplitOnSpaceJoin(s: string)
    ensures forall k :: 0 <= k < |SplitOnSpace(s)| ==> ' ' !in SplitOnSpace(s)[k]
    ensures Join(SplitOnSpace(s), " ") == s
  {
    if s != [] {
      var rest := SplitOnSpace(s[1..]);
      SplitOnSpaceJoin(s[1..]);
      assert s == [s[0]] + s[1..];
      if s[0] != ' ' {
        var r := SplitOnSpace(s);
        assert r == [[s[0]] + rest[0]] + rest[1..];
        assert Join(r, " ") == [s[0]] + Join(rest, " ") by {
          if |rest| > 1 {
            assert r[1..] == rest[1..];
          }
        }
        forall k | 0 <= k < |r| ensures ' ' !in r[k] {
          if k > 0 {
            assert r[k] == rest[k];
          }
        }
      }
    }
  }

  /** Splitting a string made by joining space-free pieces gives the pieces back. */
  lemma {:induction false} SplitJoin(parts: seq<string>)
    requires |parts| >= 1
    requires forall k :: 0 <= k < |parts| ==> ' ' !in parts[k]
    ensures SplitOnSpace(Join(parts, " ")) == parts
  {
    if |parts| == 1 {
      SplitSpaceFree(parts[0]);
    } else {
      SplitJoin(parts[1..]);
      SplitPrefix(parts[0], Join(parts[1..], " "));
    }
  }

  /** A space-free string splits into itself alone. */
  lemma {:induction false} SplitSpaceFree(s: string)
    requires ' ' !in s
    ensures SplitOnSpace(s) == [s]
  {
    if s != [] {
      assert ' ' !in s[1..];
      SplitSpaceFree(s[1..]);
      assert [s[0]] + s[1..] == s;
    }
  }

  /** A space-free piece followed by a space starts the split of what follows. */
  lemma {:induction false} SplitPrefix(a: string, b: string)
    requires ' ' !in a
    ensures SplitOnSpace(a + " " + b) == [a] + SplitOnSpace(b)
  {
    if a == [] {
      assert (a + " " + b)[1..] == b;
    } else {
      assert (a + " " + b)[1..] == a[1..] + " " + b;
      assert ' ' !in a[1..];
      SplitPrefix(a[1..], b);
      assert [a[0]] + a[1..] == a;
    }
  }

  /** The pieces of a lower-case string are lower-case. */
  lemma {:induction false} SplitPiecesLowerCase(s: string)
    requires IsLowerCase(s)
    ensures forall k :: 0 <= k < |SplitOnSpace(s)| ==> IsLowerCase(SplitOnSpace(s)[k])
  {
    if s != [] {
      assert IsLowerCase(s[1..]);
      SplitPiecesLowerCase(s[1..]);
    }
  }
}
