/** The string operations the handlers use: SQL ILIKE '%p%' matching, Python's
    `str.split`, `str.replace(' ', '')`, slicing with negative and out-of-range bounds,
    and the `str()` of a 2-tuple of strings. */
module Text {

  /** ASCII lower-casing, the case folding ILIKE applies to the text and the pattern. */
  function LowerChar(c: char): char
  {
    if 'A' <= c <= 'Z' then (c as int + 32) as char else c
  }

  function Lower(s: string): string
  {
    seq(|s|, i requires 0 <= i < |s| => LowerChar(s[i]))
  }

  predicate IsPrefix(p: string, s: string)
  {
    |p| <= |s| && p == s[..|p|]
  }

  /** `p` occurs somewhere in `s` as a contiguous piece. */
  predicate Contains(s: string, p: string)
    decreases |s|
  {
    IsPrefix(p, s) || (|s| > 0 && Contains(s[1..], p))
  }

  /** `text ILIKE '%' || pattern || '%'` for a pattern without wildcards. */
  predicate ILike(text: string, pattern: string)
  {
    Contains(Lower(text), Lower(pattern))
  }

  /** Python's `s.split(sep)`: the pieces between separators, at least one. */
  function Split(s: string, sep: char): (r: seq<string>)
    ensures |r| >= 1
    ensures sep in s <==> |r| >= 2
    ensures forall k :: 0 <= k < |r| ==> sep !in r[k]
    decreases |s|
  {
    if s == [] then [""]
    else
      var rest := Split(s[1..], sep);
      if s[0] == sep then [""] + rest
      else [[s[0]] + rest[0]] + rest[1..]
  }

  /** Python's `sep.join(pieces)`, the inverse of `Split`. */
  function Join(pieces: seq<string>, sep: char): string
  {
    if |pieces| <= 1 then (if pieces == [] then "" else pieces[0])
    else pieces[0] + [sep] + Join(pieces[1..], sep)
  }

  lemma {:induction false} JoinSplit(s: string, sep: char)
    ensures Join(Split(s, sep), sep) == s
    decreases |s|
  {
    if s != [] {
      var rest := Split(s[1..], sep);
      JoinSplit(s[1..], sep);
      if s[0] == sep {
        assert Split(s, sep) == [""] + rest;
        assert ([""] + rest)[1..] == rest;
      } else {
        var r := Split(s, sep);
        assert r == [[s[0]] + rest[0]] + rest[1..];
        if |rest| == 1 {
          assert Join(rest, sep) == rest[0];
        } else {
          assert Join(rest, sep) == rest[0] + [sep] + Join(rest[1..], sep);
          assert r[1..] == rest[1..];
        }
      }
    }
  }

  /** A string with no separator in it is a single piece. */
  lemma {:induction false} SplitWithoutSep(s: string, sep: char)
    requires sep !in s
    ensures Split(s, sep) == [s]
  {
    JoinSplit(s, sep);
  }

  /** The first piece ends at the first separator; the rest splits on its own. */
  lemma {:induction false} SplitAtFirst(a: string, b: string, sep: char)
    requires sep !in a
    ensures Split(a + [sep] + b, sep) == [a] + Split(b, sep)
    decreases |a|
  {
    if a == [] {
      assert a + [sep] + b == [sep] + b;
      assert ([sep] + b)[1..] == b;
    } else {
      SplitAtFirst(a[1..], b, sep);
      assert (a + [sep] + b)[1..] == a[1..] + [sep] + b;
      assert [a[0]] + a[1..] == a;
    }
  }

  /** Python's `s.replace(' ', '')`: every space character dropped, all else kept in order. */
  function RemoveSpaces(s: string): (r: string)
    ensures ' ' !in r
    ensures ' ' !in s ==> r == s
    ensures forall c :: c != ' ' ==> multiset(r)[c] == multiset(s)[c]
    ensures |s| == 1 ==> r == (if s[0] == ' ' then [] else s)
  {
    if s == [] then []
    else
      assert s == [s[0]] + s[1..];
      (if s[0] == ' ' then [] else [s[0]]) + RemoveSpaces(s[1..])
  }

  /** Spaces are dropped piece by piece, so the kept characters stay in their order. */
  lemma {:induction false} RemoveSpacesAppend(a: string, b: string)
    ensures RemoveSpaces(a + b) == RemoveSpaces(a) + RemoveSpaces(b)
  {
    if a == [] {
      assert a + b == b;
    } else {
      var c := a[0];
      assert (a + b)[0] == c && (a + b)[1..] == a[1..] + b;
      RemoveSpacesAppend(a[1..], b);
      var head := if c == ' ' then [] else [c];
      assert RemoveSpaces(a + b) == head + RemoveSpaces(a[1..] + b);
      assert RemoveSpaces(a) == head + RemoveSpaces(a[1..]);
    }
  }

  /** A Python slice bound: negative counts from the end, then clamped into the string. */
  function SliceBound(i: int, n: nat): (b: nat)
    ensures b <= n
    ensures 0 <= i <= n ==> b == i
    ensures i < 0 && 0 <= i + n ==> b == i + n
    ensures i + n < 0 ==> b == 0
    ensures i > n ==> b == n
  {
    if i < 0 then (if i + n < 0 then 0 else i + n)
    else if i > n then n
    else i
  }

  /** Python's `s[start:stop]`. */
  function PySlice(s: string, start: int, stop: int): (r: string)
    ensures |r| <= |s|
    ensures 0 <= start <= stop ==> |r| <= stop - start
    ensures 0 <= start <= stop <= |s| ==> r == s[start..stop]
    ensures stop < 0 && 0 <= start <= |s| + stop ==> r == s[start..|s| + stop]
    ensures 0 <= start <= |s| < stop ==> r == s[start..]
  {
    var lo := SliceBound(start, |s|);
    var hi := SliceBound(stop, |s|);
    if lo < hi then s[lo..hi] else []
  }

  /** The quote Python's `repr` of a string chooses. */
  function QuoteOf(s: string): char
  {
    if '\'' in s && '"' !in s then '"' else '\''
  }

  function EscapeChar(c: char, quote: char): string
  {
    if c == '\\' then "\\\\"
    else if c == quote then ['\\', quote]
    else if c == '\n' then "\\n"
    else if c == '\r' then "\\r"
    else if c == '\t' then "\\t"
    else [c]
  }

  function Escape(s: string, quote: char): string
  {
    if s == [] then [] else EscapeChar(s[0], quote) + Escape(s[1..], quote)
  }

  /** Python's `repr` of a string (other non-printable characters are not modelled). */
  function Repr(s: string): string
  {
    var q := QuoteOf(s);
    [q] + Escape(s, q) + [q]
  }

  /** Python's `str((a, b))` for two strings. */
  function TupleRepr(a: string, b: string): string
  {
    "(" + Repr(a) + ", " + Repr(b) + ")"
  }

  /** No character that `repr` escapes or quotes, and no comma. */
  predicate Plain(s: string)
  {
    forall c :: c in s ==> c !in {',', '\'', '"', '\\', '\n', '\r', '\t'}
  }

  lemma {:induction false} EscapePlain(s: string)
    requires Plain(s)
    ensures Escape(s, '\'') == s
  {
    if s != [] {
      assert s[0] in s;
      assert Plain(s[1..]) by {
        forall c | c in s[1..] ensures c in s { }
      }
      EscapePlain(s[1..]);
      assert [s[0]] + s[1..] == s;
    }
  }

  /** A plain string is repr'd between single quotes, unchanged. */
  lemma ReprPlain(s: string)
    requires Plain(s)
    ensures Repr(s) == "'" + s + "'"
  {
    EscapePlain(s);
  }
}
