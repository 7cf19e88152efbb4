/** The string operations of Python that the components rely on: whitespace
    (`str.isspace`, regex `\s`), `strip`, `lower`, `in` on strings,
    `str(int)`, `sep.join(parts)` and `str.split()`. */
module Text {

  /** The characters Python's `str.isspace()` accepts, which are also the ones
      a regex `\s` matches on `str` patterns. */
  predicate IsSpace(c: char)
  {
    ('\U{9}' <= c <= '\U{D}') || ('\U{1C}' <= c <= '\U{20}')
    || c == '\U{85}' || c == '\U{A0}' || c == '\U{1680}'
    || ('\U{2000}' <= c <= '\U{200A}') || c == '\U{2028}' || c == '\U{2029}'
    || c == '\U{202F}' || c == '\U{205F}' || c == '\U{3000}'
  }

  /** Drops leading characters that satisfy `drop`. */
  function TrimLeft(s: string, drop: char -> bool): (r: string)
    ensures |r| <= |s| && r == s[|s| - |r|..]
    ensures r == [] || !drop(r[0])
    ensures forall i :: 0 <= i < |s| - |r| ==> drop(s[i])
    decreases |s|
  {
    if s != [] && drop(s[0]) then TrimLeft(s[1..], drop) else s
  }

  /** Drops trailing characters that satisfy `drop`. */
  function TrimRight(s: string, drop: char -> bool): (r: string)
    ensures |r| <= |s| && r == s[..|r|]
    ensures r == [] || !drop(r[|r| - 1])
    ensures forall i :: |r| <= i < |s| ==> drop(s[i])
    decreases |s|
  {
    if s != [] && drop(s[|s| - 1]) then TrimRight(s[..|s| - 1], drop) else s
  }

  /** Python's `s.strip(chars)`: both ends, characters chosen by `drop`. */
  function Trim(s: string, drop: char -> bool): (r: string)
    ensures r == [] || (!drop(r[0]) && !drop(r[|r| - 1]))
    ensures |r| <= |s|
  {
    TrimRight(TrimLeft(s, drop), drop)
  }

  /** Python's `s.strip()`. */
  function Strip(s: string): string
  {
    Trim(s, IsSpace)
  }

  /** Trimming cuts a contiguous piece out of the text, starting where the
      left trim stops. */
  lemma TrimAt(s: string, drop: char -> bool) returns (lo: nat)
    ensures lo == |s| - |TrimLeft(s, drop)| && lo + |Trim(s, drop)| <= |s|
    ensures forall i {:trigger Trim(s, drop)[i]} :: 0 <= i < |Trim(s, drop)| ==> Trim(s, drop)[i] == s[lo + i]
  {
    var l := TrimLeft(s, drop);
    var r := TrimRight(l, drop);
    lo := |s| - |l|;
    forall i | 0 <= i < |r| ensures r[i] == s[lo + i] {
      assert r[i] == l[i];
    }
  }

  /** Every character left after trimming was a character of the text, so
      whatever holds of all characters of the text holds of all of them. */
  lemma TrimKeeps(s: string, drop: char -> bool, keep: char -> bool)
    requires forall i :: 0 <= i < |s| ==> keep(s[i])
    ensures forall i :: 0 <= i < |Trim(s, drop)| ==> keep(Trim(s, drop)[i])
  {
    var lo := TrimAt(s, drop);
  }

  /** Trimming the right end keeps whatever holds of every character. */
  lemma TrimRightKeeps(s: string, drop: char -> bool, keep: char -> bool)
    requires forall i :: 0 <= i < |s| ==> keep(s[i])
    ensures forall i :: 0 <= i < |TrimRight(s, drop)| ==> keep(TrimRight(s, drop)[i])
  {
    var r := TrimRight(s, drop);
    forall i | 0 <= i < |r| ensures keep(r[i]) {
      assert r[i] == s[i];
    }
  }

  /** Neighbours after trimming were neighbours in the text, so whatever holds
      of every pair of neighbours in the text holds of them. */
  lemma TrimKeepsNeighbours(s: string, drop: char -> bool, ok: (char, char) -> bool)
    requires forall i, j {:trigger ok(s[i], s[j])} :: 0 <= i < j < |s| && j == i + 1 ==> ok(s[i], s[j])
    ensures var t := Trim(s, drop);
            forall i, j {:trigger ok(t[i], t[j])} :: 0 <= i < j < |t| && j == i + 1 ==> ok(t[i], t[j])
  {
    var lo := TrimAt(s, drop);
    PieceKeepsNeighbours(s, Trim(s, drop), lo, ok);
  }

  /** A contiguous piece of a text keeps any property of neighbours. */
  lemma PieceKeepsNeighbours(s: string, t: string, lo: int, ok: (char, char) -> bool)
    requires 0 <= lo && lo + |t| <= |s|
    requires forall i {:trigger t[i]} :: 0 <= i < |t| ==> t[i] == s[lo + i]
    requires forall i, j {:trigger ok(s[i], s[j])} :: 0 <= i < j < |s| && j == i + 1 ==> ok(s[i], s[j])
    ensures forall i, j {:trigger ok(t[i], t[j])} :: 0 <= i < j < |t| && j == i + 1 ==> ok(t[i], t[j])
  {
    forall i, j | 0 <= i < j < |t| && j == i + 1 ensures ok(t[i], t[j]) {
      assert t[i] == s[lo + i] && t[j] == s[lo + j];
    }
  }

  /** Lower case of one character; only ASCII letters change. */
  function LowerChar(c: char): (r: char)
    ensures !('A' <= r <= 'Z')
    ensures ('a' <= c <= 'z' || 'A' <= c <= 'Z') <==> ('a' <= r <= 'z')
  {
    if 'A' <= c <= 'Z' then (c as int + 32) as char else c
  }

  /** Python's `s.lower()` restricted to ASCII letters. */
  function Lower(s: string): (r: string)
    ensures |r| == |s|
    ensures forall i :: 0 <= i < |s| ==> r[i] == LowerChar(s[i])
  {
    seq(|s|, i requires 0 <= i < |s| => LowerChar(s[i]))
  }

  /** `needle in hay` on strings: `needle` occurs as a contiguous block of `hay`. */
  predicate Contains(hay: string, needle: string)
    decreases |hay|
  {
    needle <= hay || (hay != [] && Contains(hay[1..], needle))
  }

  /** `needle` sits in `hay` starting at position `i`. */
  predicate OccursAt(hay: string, needle: string, i: int)
  {
    0 <= i && i + |needle| <= |hay| && hay[i..i + |needle|] == needle
  }

  /** An occurrence past the first character is an occurrence in the rest. */
  lemma OccursShift(hay: string, needle: string, i: int)
    requires hay != [] && 0 < i
    ensures OccursAt(hay, needle, i) == OccursAt(hay[1..], needle, i - 1)
  {
    if i + |needle| <= |hay| {
      assert hay[i..i + |needle|] == hay[1..][i - 1..i - 1 + |needle|];
    }
  }

  /** `Contains` holds exactly when `needle` sits at some position of `hay`. */
  lemma {:induction false} ContainsAt(hay: string, needle: string)
    ensures Contains(hay, needle) <==> exists i :: OccursAt(hay, needle, i)
    decreases |hay|
  {
    if needle <= hay {
      assert OccursAt(hay, needle, 0);
    } else if hay == [] {
      assert forall i :: !OccursAt(hay, needle, i);
    } else {
      ContainsAt(hay[1..], needle);
      assert !OccursAt(hay, needle, 0);
      forall i | OccursAt(hay, needle, i) ensures OccursAt(hay[1..], needle, i - 1) {
        OccursShift(hay, needle, i);
      }
      forall i | OccursAt(hay[1..], needle, i) ensures OccursAt(hay, needle, i + 1) {
        OccursShift(hay, needle, i + 1);
      }
    }
  }

  function Digit(d: nat): (c: char)
    requires d < 10
    ensures '0' <= c <= '9'
  {
    "0123456789"[d]
  }

  /** Python's `str(n)` for n >= 0: decimal digits, no leading zero. */
  function NatToString(n: nat): (r: string)
    ensures |r| >= 1
    ensures forall i :: 0 <= i < |r| ==> '0' <= r[i] <= '9'
    ensures |r| > 1 ==> r[0] != '0'
    decreases n
  {
    if n < 10 then [Digit(n)] else NatToString(n / 10) + [Digit(n % 10)]
  }

  /** Python's `str(i)` for any integer. */
  function IntToString(i: int): (r: string)
    ensures |r| >= 1
    ensures (r[0] == '-') <==> i < 0
  {
    if i < 0 then "-" + NatToString(-i) else NatToString(i)
  }

  /** Python's `sep.join(parts)`. */
  function Join(parts: seq<string>, sep: string): (r: string)
    ensures parts == [] ==> r == ""
    ensures |parts| == 1 ==> r == parts[0]
    decreases |parts|
  {
    if parts == [] then ""
    else if |parts| == 1 then parts[0]
    else parts[0] + sep + Join(parts[1..], sep)
  }

  /** Joining one more part adds the separator and the part at the end. */
  lemma {:induction false} JoinSnoc(parts: seq<string>, part: string, sep: string)
    requires parts != []
    ensures Join(parts + [part], sep) == Join(parts, sep) + sep + part
    decreases |parts|
  {
    if |parts| > 1 {
      assert (parts + [part])[1..] == parts[1..] + [part];
      JoinSnoc(parts[1..], part, sep);
    } else {
      assert (parts + [part])[1..] == [part];
    }
  }

  /** Trimming the right end of `p + c` stops inside `c` when `c` opens
      with a character that is kept. */
  lemma {:induction false} TrimRightAfter(p: string, c: string, drop: char -> bool)
    requires c != [] && !drop(c[0])
    ensures TrimRight(p + c, drop) == p + TrimRight(c, drop)
    decreases |c|
  {
    if drop(c[|c| - 1]) {
      var c' := c[..|c| - 1];
      assert (p + c)[..|p + c| - 1] == p + c';
      TrimRightAfter(p, c', drop);
    }
  }

  /** A dropped first character goes with the trim. */
  lemma TrimDropsHead(x: char, c: string, drop: char -> bool)
    requires drop(x)
    ensures Trim([x] + c, drop) == Trim(c, drop)
  {
    assert ([x] + c)[1..] == c;
  }

  /** A text with kept characters at both ends is its own trim. */
  lemma TrimWhole(c: string, drop: char -> bool)
    requires c != [] && !drop(c[0]) && !drop(c[|c| - 1])
    ensures Trim(c, drop) == c
  {
  }

  /** A dropped last character goes with the trim of a text whose ends are kept. */
  lemma TrimDropsLast(c: string, x: char, drop: char -> bool)
    requires c != [] && !drop(c[0]) && !drop(c[|c| - 1]) && drop(x)
    ensures Trim(c + [x], drop) == c
  {
    assert (c + [x])[0] == c[0];
    assert (c + [x])[..|c + [x]| - 1] == c;
  }

  /** Trimming `p + c` touches only `c` when both open with a kept character. */
  lemma TrimAfter(p: string, c: string, drop: char -> bool)
    requires p != [] && !drop(p[0]) && c != [] && !drop(c[0])
    ensures Trim(p + c, drop) == p + Trim(c, drop)
  {
    assert (p + c)[0] == p[0];
    TrimRightAfter(p, c, drop);
  }

  /** A word of `str.split()`: non-empty, without whitespace. */
  predicate IsWord(w: string)
  {
    w != [] && forall i :: 0 <= i < |w| ==> !IsSpace(w[i])
  }

  /** The longest prefix of `s` without whitespace. */
  function WordPrefix(s: string): (w: string)
    ensures w <= s
    ensures forall i :: 0 <= i < |w| ==> !IsSpace(w[i])
    ensures |w| < |s| ==> IsSpace(s[|w|])
    decreases |s|
  {
    if s == [] || IsSpace(s[0]) then [] else [s[0]] + WordPrefix(s[1..])
  }

  /** Python's `s.split()`: the maximal runs of non-whitespace characters, in order. */
  function Words(s: string): (ws: seq<string>)
    ensures forall i :: 0 <= i < |ws| ==> IsWord(ws[i])
    decreases |s|
  {
    if s == [] then []
    else if IsSpace(s[0]) then Words(s[1..])
    else
      var w := WordPrefix(s);
      [w] + Words(s[|w|..])
  }

  /** Leading whitespace does not change the words. */
  lemma {:induction false} WordsTrimLeft(s: string)
    ensures Words(TrimLeft(s, IsSpace)) == Words(s)
    decreases |s|
  {
    if s != [] && IsSpace(s[0]) {
      WordsTrimLeft(s[1..]);
    }
  }

  lemma {:induction false} WordPrefixOfWord(w: string, rest: string)
    requires IsWord(w) && (rest == [] || IsSpace(rest[0]))
    ensures WordPrefix(w + rest) == w
    decreases |w|
  {
    var s := w + rest;
    assert s[0] == w[0] && !IsSpace(s[0]);
    if |w| > 1 {
      assert s[1..] == w[1..] + rest;
      assert IsWord(w[1..]) by {
        forall i | 0 <= i < |w[1..]| ensures !IsSpace(w[1..][i]) {
          assert w[1..][i] == w[i + 1];
        }
      }
      WordPrefixOfWord(w[1..], rest);
      assert [w[0]] + w[1..] == w;
    } else {
      assert s[1..] == rest;
      assert WordPrefix(rest) == [];
      assert [w[0]] == w;
    }
  }

  /** Splitting words joined by single spaces gives the words back. */
  lemma {:induction false} WordsOfJoin(ws: seq<string>)
    requires forall i :: 0 <= i < |ws| ==> IsWord(ws[i])
    ensures Words(Join(ws, " ")) == ws
    decreases |ws|
  {
    if |ws| == 1 {
      WordPrefixOfWord(ws[0], "");
      assert ws[0] + "" == ws[0];
      assert ws[0][|ws[0]|..] == [];
    } else if |ws| > 1 {
      var rest := Join(ws[1..], " ");
      var s := ws[0] + " " + rest;
      assert s == ws[0] + (" " + rest);
      WordPrefixOfWord(ws[0], " " + rest);
      assert s[|ws[0]|..] == " " + rest;
      assert (" " + rest)[1..] == rest;
      WordsOfJoin(ws[1..]);
      assert [ws[0]] + ws[1..] == ws;
    }
  }
}
