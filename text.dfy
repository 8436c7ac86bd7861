/**
 * The few Python string operations the core relies on: `lower()`, `upper()`, `strip()`,
 * `split()` with no separator, the substring test `a in b`, and `str(n)`
 * for a natural number. Only ASCII letters are case-folded.
 */
module Text {

  /** Whitespace as `str.strip()` and `str.split()` see it, restricted to ASCII. */
  predicate IsSpace(c: char)
  {
    c == ' ' || c == '\t' || c == '\n' || c == '\r' ||
    c == '\U{000B}' || c == '\U{000C}' ||
    ('\U{001C}' <= c <= '\U{001F}')
  }

  function LowerChar(c: char): char
  {
    if 'A' <= c <= 'Z' then (c as int + 32) as char else c
  }

  /** `s.lower()` on ASCII letters. */
  function Lower(s: string): (r: string)
    ensures |r| == |s|
    ensures forall i :: 0 <= i < |s| ==> r[i] == LowerChar(s[i])
  {
    if s == [] then [] else [LowerChar(s[0])] + Lower(s[1..])
  }

  function UpperChar(c: char): char
  {
    if 'a' <= c <= 'z' then (c as int - 32) as char else c
  }

  /** `s.upper()` on ASCII letters. */
  function Upper(s: string): (r: string)
    ensures |r| == |s|
    ensures forall i :: 0 <= i < |s| ==> r[i] == UpperChar(s[i])
  {
    if s == [] then [] else [UpperChar(s[0])] + Upper(s[1..])
  }

  /** Upper-casing twice is upper-casing once. */
  lemma UpperIdempotent(s: string)
    ensures Upper(Upper(s)) == Upper(s)
  {
  }

  /** `s.lstrip()`: what is cut off is whitespace, and what is left does not start with it. */
  function TrimLeft(s: string): (r: string)
    ensures |r| <= |s| && r == s[|s| - |r|..]
    ensures forall i :: 0 <= i < |s| - |r| ==> IsSpace(s[i])
    ensures r != [] ==> !IsSpace(r[0])
  {
    if s != [] && IsSpace(s[0]) then TrimLeft(s[1..]) else s
  }

  /** `s.rstrip()`: what is cut off is whitespace, and what is left does not end with it. */
  function TrimRight(s: string): (r: string)
    ensures |r| <= |s| && r == s[..|r|]
    ensures forall i :: |r| <= i < |s| ==> IsSpace(s[i])
    ensures r != [] ==> !IsSpace(r[|r| - 1])
  {
    if s != [] && IsSpace(s[|s| - 1]) then TrimRight(s[..|s| - 1]) else s
  }

  /**
   * `s.strip()`: the part of `s` from position `i` on, for `|r|` characters,
   * with only whitespace before and after it and none at either of its ends:
   * `s` between its first and its last non-whitespace character, or nothing
   * when `s` is all whitespace.
   */
  function Strip(s: string): (r: string)
    ensures |r| <= |s|
    ensures exists i :: 0 <= i <= |s| - |r| && r == s[i..i + |r|] && LeftMargin(s, i) && RightMargin(s, i + |r|)
    ensures r != [] ==> !IsSpace(r[0]) && !IsSpace(r[|r| - 1])
    ensures (forall i :: 0 <= i < |s| ==> !IsSpace(s[i])) ==> r == s
  {
    var t := TrimLeft(s);
    var i := |s| - |t|;
    var r := TrimRight(t);
    assert r == s[i..i + |r|];
    assert LeftMargin(s, i);
    assert RightMargin(s, i + |r|) by {
      forall k | i + |r| <= k < |s| ensures IsSpace(s[k]) {
        assert s[k] == t[k - i];
      }
    }
    r
  }

  /** The first `i` characters of `s` are whitespace. */
  predicate LeftMargin(s: string, i: nat)
  {
    i <= |s| && forall k :: 0 <= k < i ==> IsSpace(s[k])
  }

  /** The characters of `s` from position `j` on are whitespace. */
  predicate RightMargin(s: string, j: nat)
  {
    j <= |s| && forall k :: j <= k < |s| ==> IsSpace(s[k])
  }

  /** A string that is all whitespace strips to nothing, and conversely. */
  lemma StripEmpty(s: string)
    ensures Strip(s) == [] <==> forall k :: 0 <= k < |s| ==> IsSpace(s[k])
  {
    if Strip(s) == [] {
      var i :| 0 <= i <= |s| && LeftMargin(s, i) && RightMargin(s, i);
      assert forall k :: 0 <= k < |s| ==> IsSpace(s[k]) by {
        forall k | 0 <= k < |s| ensures IsSpace(s[k]) {
          if k < i {
            assert LeftMargin(s, i);
          } else {
            assert RightMargin(s, i);
          }
        }
      }
    }
  }

  /** The substring test `needle in hay`; the empty needle is in every string. */
  function Contains(hay: string, needle: string): bool
    decreases |hay|
  {
    needle <= hay || (hay != [] && Contains(hay[1..], needle))
  }

  /** The longest prefix of `s` without whitespace. */
  function TakeWord(s: string): (w: string)
    ensures w <= s
    ensures forall i :: 0 <= i < |w| ==> !IsSpace(w[i])
    ensures |w| < |s| ==> IsSpace(s[|w|])
  {
    if s == [] || IsSpace(s[0]) then [] else [s[0]] + TakeWord(s[1..])
  }

  /** A non-empty run of non-whitespace characters. */
  predicate IsWord(w: string)
  {
    w != [] && forall i :: 0 <= i < |w| ==> !IsSpace(w[i])
  }

  /** The non-whitespace characters of `s`, in order. */
  function NonSpace(s: string): string
  {
    if s == [] then [] else (if IsSpace(s[0]) then [] else [s[0]]) + NonSpace(s[1..])
  }

  lemma {:induction false} NonSpaceAppend(a: string, b: string)
    ensures NonSpace(a + b) == NonSpace(a) + NonSpace(b)
  {
    if a == [] {
      assert a + b == b;
    } else {
      assert (a + b)[0] == a[0] && (a + b)[1..] == a[1..] + b;
      NonSpaceAppend(a[1..], b);
      var h := if IsSpace(a[0]) then [] else [a[0]];
      assert NonSpace(a + b) == h + (NonSpace(a[1..]) + NonSpace(b));
      assert NonSpace(a) == h + NonSpace(a[1..]);
    }
  }

  lemma {:induction false} NonSpaceBlank(s: string)
    requires forall k :: 0 <= k < |s| ==> IsSpace(s[k])
    ensures NonSpace(s) == []
  {
    if s != [] {
      NonSpaceBlank(s[1..]);
    }
  }

  lemma {:induction false} NonSpaceWord(s: string)
    requires forall k :: 0 <= k < |s| ==> !IsSpace(s[k])
    ensures NonSpace(s) == s
  {
    if s != [] {
      NonSpaceWord(s[1..]);
    }
  }

  /** The strings of `ws` written one after another. */
  function Concat(ws: seq<string>): string
  {
    if ws == [] then [] else ws[0] + Concat(ws[1..])
  }

  /** The words of `s`: its first run of non-whitespace characters, then the words after that run. */
  function Words(s: string): seq<string>
    decreases |s|
  {
    var t := TrimLeft(s);
    if t == [] then []
    else
      var w := TakeWord(t);
      assert w != [] by {
        assert !IsSpace(t[0]);
      }
      [w] + Words(t[|w|..])
  }

  /** Every word is a non-empty run of non-whitespace characters, and together they are the non-whitespace characters of `s`. */
  lemma {:induction false} WordsFacts(s: string)
    ensures forall k :: 0 <= k < |Words(s)| ==> IsWord(Words(s)[k])
    ensures Concat(Words(s)) == NonSpace(s)
    decreases |s|
  {
    var t := TrimLeft(s);
    if t == [] {
      NonSpaceTrimmed(s);
    } else {
      var w := TakeWord(t);
      assert !IsSpace(t[0]);
      var rest := Words(t[|w|..]);
      WordsFacts(t[|w|..]);
      assert Words(s) == [w] + rest;
      assert IsWord(w);
      SplitConcat(s, rest);
    }
  }

  /**
   * `s.split()`: runs of non-whitespace characters, in order, which written
   * one after another give back exactly the non-whitespace characters of `s`.
   * `SplitWordsSep` and `SplitWordsWord` pin where the runs begin and end.
   */
  function SplitWords(s: string): (ws: seq<string>)
    ensures forall k :: 0 <= k < |ws| ==> IsWord(ws[k])
    ensures Concat(ws) == NonSpace(s)
  {
    WordsFacts(s);
    Words(s)
  }

  /** The first word of `s` and then the words of the rest give back the non-whitespace characters of `s`. */
  lemma SplitConcat(s: string, rest: seq<string>)
    requires TrimLeft(s) != []
    requires Concat(rest) == NonSpace(TrimLeft(s)[|TakeWord(TrimLeft(s))|..])
    ensures Concat([TakeWord(TrimLeft(s))] + rest) == NonSpace(s)
  {
    var w := TakeWord(TrimLeft(s));
    NonSpaceTrimmed(s);
    NonSpaceWordFirst(TrimLeft(s));
    assert ([w] + rest)[0] == w && ([w] + rest)[1..] == rest;
  }

  /** Cutting off leading whitespace keeps the non-whitespace characters. */
  lemma NonSpaceTrimmed(s: string)
    ensures NonSpace(TrimLeft(s)) == NonSpace(s)
  {
    var t := TrimLeft(s);
    var cut := |s| - |t|;
    assert s == s[..cut] + t;
    NonSpaceAppend(s[..cut], t);
    NonSpaceBlank(s[..cut]);
  }

  /** The non-whitespace characters of `t` are its first word and then those of the rest. */
  lemma NonSpaceWordFirst(t: string)
    ensures NonSpace(t) == TakeWord(t) + NonSpace(t[|TakeWord(t)|..])
  {
    var w := TakeWord(t);
    assert t == w + t[|w|..];
    NonSpaceAppend(w, t[|w|..]);
    NonSpaceWord(w);
  }

  /** Leading whitespace is cut off whatever follows it. */
  lemma {:induction false} TrimLeftBlank(p: string, x: string)
    requires forall k :: 0 <= k < |p| ==> IsSpace(p[k])
    ensures TrimLeft(p + x) == TrimLeft(x)
  {
    if p != [] {
      assert (p + x)[1..] == p[1..] + x;
      TrimLeftBlank(p[1..], x);
    } else {
      assert p + x == x;
    }
  }

  /** Once `p` holds a non-whitespace character, `lstrip()` of `p + x` only cuts within `p`. */
  lemma {:induction false} TrimLeftKeep(p: string, x: string)
    requires TrimLeft(p) != []
    ensures TrimLeft(p + x) == TrimLeft(p) + x
  {
    assert (p + x)[0] == p[0];
    if IsSpace(p[0]) {
      assert (p + x)[1..] == p[1..] + x;
      TrimLeftKeep(p[1..], x);
    }
  }

  /** A word ends at the first whitespace character, whatever follows it. */
  lemma {:induction false} TakeWordSep(t: string, c: char, b: string)
    requires IsSpace(c)
    ensures TakeWord(t + [c] + b) == TakeWord(t)
  {
    var s := t + [c] + b;
    if t == [] {
      assert s[0] == c;
    } else {
      assert s[0] == t[0];
      if !IsSpace(t[0]) {
        assert s[1..] == t[1..] + [c] + b;
        TakeWordSep(t[1..], c, b);
      }
    }
  }

  /** The words of a string with no non-whitespace characters: none. */
  lemma WordsBlank(s: string)
    requires TrimLeft(s) == []
    ensures Words(s) == []
  {
  }

  /** The words of a string with a non-whitespace character: its first word, then the words after it. */
  lemma WordsFirst(s: string)
    requires TrimLeft(s) != []
    ensures TakeWord(TrimLeft(s)) != []
    ensures Words(s) == [TakeWord(TrimLeft(s))] + Words(TrimLeft(s)[|TakeWord(TrimLeft(s))|..])
  {
    assert !IsSpace(TrimLeft(s)[0]);
  }

  /** A single word splits into itself. */
  lemma SplitWordsWord(w: string)
    requires IsWord(w)
    ensures SplitWords(w) == [w]
  {
    assert TrimLeft(w) == w;
    WordsFirst(w);
    assert TakeWord(w) == w;
    WordsBlank(w[|w|..]);
  }

  /** The words depend only on what `lstrip()` leaves. */
  lemma WordsEquiv(s: string, x: string)
    requires TrimLeft(s) == TrimLeft(x)
    ensures Words(s) == Words(x)
  {
  }

  /** Whitespace only before `c` adds no word in front of `b`'s. */
  lemma WordsSepBlank(a: string, c: char, b: string)
    requires IsSpace(c) && TrimLeft(a) == []
    ensures Words(a + [c] + b) == Words(a) + Words(b)
  {
    var p := a + [c];
    assert forall k :: 0 <= k < |p| ==> IsSpace(p[k]);
    TrimLeftBlank(p, b);
    assert a + [c] + b == p + b;
    WordsBlank(a);
    WordsEquiv(p + b, b);
  }

  /** When `a` holds a non-whitespace character, `lstrip()` of `a + [c] + b` is that of `a`, then `c` and `b`. */
  lemma TrimLeftSep(a: string, c: char, b: string)
    requires TrimLeft(a) != []
    ensures TrimLeft(a + [c] + b) == TrimLeft(a) + [c] + b
  {
    AppendAssoc(a, [c], b);
    TrimLeftKeep(a, [c] + b);
    AppendAssoc(TrimLeft(a), [c], b);
  }

  /** When `a` holds a word, `a + [c] + b` starts with the first word of `a`, and the rest is split further. */
  lemma WordsSepStep(a: string, c: char, b: string, t: string, w: string)
    requires IsSpace(c) && t == TrimLeft(a) && t != [] && w == TakeWord(t)
    ensures Words(a + [c] + b) == [w] + Words(t[|w|..] + [c] + b)
  {
    TrimLeftSep(a, c, b);
    TakeWordSep(t, c, b);
    DropAppend(t, [c], b, |w|);
    WordsFirst(a + [c] + b);
  }

  /** Joining three sequences does not depend on the grouping. */
  lemma AppendAssoc<T>(x: seq<T>, y: seq<T>, z: seq<T>)
    ensures x + y + z == x + (y + z)
  {
  }

  /** Dropping a prefix of the first part of a join drops it from the join. */
  lemma DropAppend<T>(t: seq<T>, y: seq<T>, z: seq<T>, n: nat)
    requires n <= |t|
    ensures (t + y + z)[n..] == t[n..] + y + z
  {
  }

  /** Putting `x` in front of two joined sequences is putting it in front of the first. */
  lemma ConsAssoc<T>(x: T, y: seq<T>, z: seq<T>)
    ensures [x] + (y + z) == ([x] + y) + z
  {
  }

  /** The words of `a`, a whitespace character and `b` are the words of `a`, then those of `b`. */
  lemma {:induction false} WordsSep(a: string, c: char, b: string)
    requires IsSpace(c)
    ensures Words(a + [c] + b) == Words(a) + Words(b)
    decreases |a|
  {
    if TrimLeft(a) == [] {
      WordsSepBlank(a, c, b);
    } else {
      var t := TrimLeft(a);
      var w := TakeWord(t);
      var u := t[|w|..];
      WordsFirst(a);
      WordsSepStep(a, c, b, t, w);
      WordsSep(u, c, b);
      ConsAssoc(w, Words(u), Words(b));
    }
  }

  /**
   * A whitespace character separates words: splitting `a`, a whitespace
   * character and `b` gives the words of `a` and then those of `b`, so no
   * word runs across whitespace and no two words are merged.
   */
  lemma SplitWordsSep(a: string, c: char, b: string)
    requires IsSpace(c)
    ensures SplitWords(a + [c] + b) == SplitWords(a) + SplitWords(b)
  {
    WordsSep(a, c, b);
  }

  /** `set(s.split())`. */
  function WordSet(s: string): set<string>
  {
    set w | w in SplitWords(s)
  }

  /** The decimal digit for `d`. */
  function DigitChar(d: nat): (c: char)
    requires d < 10
    ensures '0' <= c <= '9' && c as int - '0' as int == d
  {
    ('0' as int + d) as char
  }

  /** `str(n)` for a natural number. */
  function NatToString(n: nat): (r: string)
    ensures r != []
    ensures forall i :: 0 <= i < |r| ==> '0' <= r[i] <= '9'
  {
    if n < 10 then [DigitChar(n)] else NatToString(n / 10) + [DigitChar(n % 10)]
  }

  /** `int(r)`: the number a string of decimal digits stands for. */
  function DigitsValue(r: string): nat
    requires forall i :: 0 <= i < |r| ==> '0' <= r[i] <= '9'
  {
    if r == [] then 0 else DigitsValue(r[..|r| - 1]) * 10 + (r[|r| - 1] as int - '0' as int)
  }

  /** Reading `str(n)` back gives `n`. */
  lemma {:induction false} NatToStringValue(n: nat)
    ensures DigitsValue(NatToString(n)) == n
  {
    if n >= 10 {
      NatToStringValue(n / 10);
      var r := NatToString(n);
      assert r[..|r| - 1] == NatToString(n / 10);
    }
  }

  /** Different numbers have different decimal strings. */
  lemma NatToStringInjective(a: nat, b: nat)
    ensures NatToString(a) == NatToString(b) ==> a == b
  {
    NatToStringValue(a);
    NatToStringValue(b);
  }

  /** `sep.join(xs)`. */
  function Join(sep: string, xs: seq<string>): string
  {
    if xs == [] then "" else if |xs| == 1 then xs[0] else xs[0] + sep + Join(sep, xs[1..])
  }
}
