/** The JavaScript string primitives the modelled code relies on: the white-space
    set of `trim()` and `\s`, ASCII case mapping, `trim`, `includes`, `startsWith`,
    `split`, `join`, and the decimal rendering of integers. */
module Text {

  /** The characters that `String.prototype.trim` removes and that the regex class `\s`
      matches: the ECMAScript WhiteSpace and LineTerminator characters. */
  const WsChars: set<char> := {
    ' ', '\t', '\n', '\r', '\U{B}', '\U{C}', '\U{A0}', '\U{1680}',
    '\U{2000}', '\U{2001}', '\U{2002}', '\U{2003}', '\U{2004}', '\U{2005}',
    '\U{2006}', '\U{2007}', '\U{2008}', '\U{2009}', '\U{200A}',
    '\U{2028}', '\U{2029}', '\U{202F}', '\U{205F}', '\U{3000}', '\U{FEFF}'
  }

  predicate IsWs(c: char)
  {
    c in WsChars
  }

  predicate IsDigit(c: char) { '0' <= c <= '9' }
  predicate IsUpper(c: char) { 'A' <= c <= 'Z' }
  predicate IsLowerLetter(c: char) { 'a' <= c <= 'z' }
  predicate IsLetter(c: char) { IsUpper(c) || IsLowerLetter(c) }

  /** No ASCII letter is white space. */
  lemma LetterIsNotWs(c: char)
    requires IsLetter(c)
    ensures !IsWs(c)
  {
  }

  function LowerChar(c: char): char
  {
    if IsUpper(c) then (c as int + 32) as char else c
  }

  /** `toLowerCase()` on the ASCII letters. */
  function Lower(s: string): string
  {
    seq(|s|, i requires 0 <= i < |s| => LowerChar(s[i]))
  }

  predicate NoUpper(s: string)
  {
    forall i :: 0 <= i < |s| ==> !IsUpper(s[i])
  }

  lemma LowerHasNoUpper(s: string)
    ensures NoUpper(Lower(s))
  {
  }

  // ---------------------------------------------------------------- trim

  function TrimStart(s: string): (r: string)
    ensures |r| <= |s|
  {
    if s != [] && IsWs(s[0]) then TrimStart(s[1..]) else s
  }

  function TrimEnd(s: string): (r: string)
    ensures |r| <= |s|
  {
    if s != [] && IsWs(s[|s| - 1]) then TrimEnd(s[..|s| - 1]) else s
  }

  /** `TrimStart` drops a prefix of white space and stops at the first other character. */
  lemma {:induction false} TrimStartSpec(s: string)
    ensures var r := TrimStart(s);
      && r == s[|s| - |r|..]
      && (r == [] || !IsWs(r[0]))
      && (forall k :: 0 <= k < |s| - |r| ==> IsWs(s[k]))
  {
    if s != [] && IsWs(s[0]) {
      TrimStartSpec(s[1..]);
      var r := TrimStart(s[1..]);
      assert s[1..][|s| - 1 - |r|..] == s[|s| - |r|..];
      forall k | 0 <= k < |s| - |r| ensures IsWs(s[k]) {
        if k > 0 { assert s[k] == s[1..][k - 1]; }
      }
    }
  }

  /** `TrimEnd` drops a suffix of white space and stops at the last other character. */
  lemma {:induction false} TrimEndSpec(s: string)
    ensures var r := TrimEnd(s);
      && r == s[..|r|]
      && (r == [] || !IsWs(r[|r| - 1]))
      && (forall k :: |r| <= k < |s| ==> IsWs(s[k]))
  {
    if s != [] && IsWs(s[|s| - 1]) {
      TrimEndSpec(s[..|s| - 1]);
      var r := TrimEnd(s[..|s| - 1]);
      assert s[..|s| - 1][..|r|] == s[..|r|];
      forall k | |r| <= k < |s| ensures IsWs(s[k]) {
        if k < |s| - 1 { assert s[k] == s[..|s| - 1][k]; }
      }
    }
  }

  /** `s.trim()` */
  function Trim(s: string): string
  {
    TrimEnd(TrimStart(s))
  }

  /** No white space at either end. */
  predicate Trimmed(s: string)
  {
    s == [] || (!IsWs(s[0]) && !IsWs(s[|s| - 1]))
  }

  lemma TrimIsTrimmed(s: string)
    ensures Trimmed(Trim(s))
  {
    var t := TrimStart(s);
    var r := TrimEnd(t);
    TrimStartSpec(s);
    TrimEndSpec(t);
    if r != [] {
      assert r[0] == t[0];
    }
  }

  lemma TrimOfTrimmed(s: string)
    requires Trimmed(s)
    ensures Trim(s) == s
  {
  }

  /** Trimming only removes white space from the two ends: the result is a slice of the input. */
  lemma TrimIsSlice(s: string)
    ensures exists i, j :: 0 <= i <= j <= |s| && Trim(s) == s[i..j]
  {
    var t := TrimStart(s);
    var r := TrimEnd(t);
    TrimStartSpec(s);
    TrimEndSpec(t);
    assert r == s[|s| - |t|..][..|r|];
    assert r == s[|s| - |t| .. |s| - |t| + |r|];
  }

  // ---------------------------------------------------------------- includes, startsWith, endsWith

  predicate StartsWith(s: string, p: string)
  {
    |p| <= |s| && s[..|p|] == p
  }

  predicate EndsWith(s: string, p: string)
  {
    |p| <= |s| && s[|s| - |p|..] == p
  }

  /** `s.includes(p)` */
  predicate Contains(s: string, p: string)
    ensures Contains(s, p) ==> |p| <= |s|
  {
    StartsWith(s, p) || (s != [] && Contains(s[1..], p))
  }

  /** `p` occurs in `s` starting at position `i`. */
  predicate OccursAt(s: string, p: string, i: int)
  {
    0 <= i <= |s| - |p| && s[i..i + |p|] == p
  }

  /** `Contains` holds exactly when `p` occurs at some position of `s`. */
  lemma {:induction false} ContainsIffOccurs(s: string, p: string)
    ensures Contains(s, p) <==> exists i :: OccursAt(s, p, i)
  {
    if s == [] {
      if Contains(s, p) {
        assert OccursAt(s, p, 0);
      }
    } else {
      ContainsIffOccurs(s[1..], p);
      if Contains(s, p) {
        if StartsWith(s, p) {
          assert OccursAt(s, p, 0);
        } else {
          var i :| OccursAt(s[1..], p, i);
          assert s[1..][i..i + |p|] == s[i + 1..i + 1 + |p|];
          assert OccursAt(s, p, i + 1);
        }
      } else {
        forall i | OccursAt(s, p, i)
          ensures false
        {
          if i > 0 {
            assert s[1..][i - 1..i - 1 + |p|] == s[i..i + |p|];
            assert OccursAt(s[1..], p, i - 1);
          }
        }
      }
    }
  }

  /** A string with no upper-case letter never contains a pattern that has one; so the
      lower-cased text of a test never contains a mixed-case literal. */
  lemma {:induction false} NoUpperExcludes(s: string, p: string, k: nat)
    requires NoUpper(s) && k < |p| && IsUpper(p[k])
    ensures !Contains(s, p)
  {
    if s != [] {
      NoUpperExcludes(s[1..], p, k);
    }
  }

  // ---------------------------------------------------------------- prefixes of sequences

  function Min(a: nat, b: nat): nat { if a <= b then a else b }

  /** `xs.slice(0, n)`: the first `n` elements, or all of them when there are fewer. */
  function Take<T>(s: seq<T>, n: nat): (r: seq<T>)
    ensures |r| == Min(n, |s|) && r == s[..|r|]
  {
    if n <= |s| then s[..n] else s
  }

  // ---------------------------------------------------------------- split and join

  /** The separator of a `split`: one given character, or any white-space character. */
  datatype Separator = Exactly(c: char) | AnyWhitespace

  predicate Separates(sep: Separator, x: char)
  {
    match sep
    case Exactly(c) => x == c
    case AnyWhitespace => IsWs(x)
  }

  predicate HasNo(s: string, sep: Separator)
  {
    forall j :: 0 <= j < |s| ==> !Separates(sep, s[j])
  }

  /** `s.split(c)` for a one-character separator: the pieces between the separators,
      so there is always at least one piece. */
  function SplitBy(s: string, sep: Separator): (r: seq<string>)
    ensures |r| >= 1
  {
    if s == [] then [[]]
    else
      var rest := SplitBy(s[1..], sep);
      if Separates(sep, s[0]) then [[]] + rest else [[s[0]] + rest[0]] + rest[1..]
  }

  /** No piece of a split contains a separator. */
  lemma {:induction false} SplitPiecesHaveNoSeparator(s: string, sep: Separator)
    ensures forall i :: 0 <= i < |SplitBy(s, sep)| ==> HasNo(SplitBy(s, sep)[i], sep)
  {
    if s != [] {
      SplitPiecesHaveNoSeparator(s[1..], sep);
      var rest := SplitBy(s[1..], sep);
      if !Separates(sep, s[0]) {
        assert HasNo([s[0]] + rest[0], sep);
      }
    }
  }

  /** `parts.join(sep)` */
  function Join(parts: seq<string>, sep: string): string
  {
    if |parts| == 0 then []
    else if |parts| == 1 then parts[0]
    else parts[0] + sep + Join(parts[1..], sep)
  }

  /** One step of `SplitBy`, for a string written as its first character and the rest. */
  lemma SplitCons(x: char, t: string, sep: Separator)
    ensures SplitBy([x] + t, sep) ==
      var rest := SplitBy(t, sep);
      if Separates(sep, x) then [[]] + rest else [[x] + rest[0]] + rest[1..]
  {
    assert ([x] + t)[1..] == t;
  }

  /** Splitting at a separator character splits the two sides independently. */
  lemma {:induction false} SplitAtSeparator(a: string, c: char, b: string, sep: Separator)
    requires Separates(sep, c)
    ensures SplitBy(a + [c] + b, sep) == SplitBy(a, sep) + SplitBy(b, sep)
  {
    if a == [] {
      assert a + [c] + b == [c] + b;
      SplitCons(c, b, sep);
    } else {
      var t := a[1..] + [c] + b;
      assert a + [c] + b == [a[0]] + t;
      SplitAtSeparator(a[1..], c, b, sep);
      SplitConsAppend(a[0], a[1..], t, SplitBy(b, sep), sep);
    }
  }

  /** The inductive step of `SplitAtSeparator`. */
  lemma SplitConsAppend(x: char, a: string, t: string, sb: seq<string>, sep: Separator)
    requires SplitBy(t, sep) == SplitBy(a, sep) + sb
    ensures SplitBy([x] + t, sep) == SplitBy([x] + a, sep) + sb
  {
    SplitCons(x, t, sep);
    SplitCons(x, a, sep);
    if Separates(sep, x) {
      ConsAssoc([], SplitBy(a, sep), sb);
    } else {
      GlueAppend(x, SplitBy(a, sep), sb);
    }
  }

  lemma ConsAssoc(y: string, ra: seq<string>, sb: seq<string>)
    ensures [y] + (ra + sb) == ([y] + ra) + sb
  {
  }

  /** Gluing a character to the first piece commutes with appending further pieces. */
  lemma GlueAppend(x: char, ra: seq<string>, sb: seq<string>)
    requires |ra| >= 1
    ensures var r := ra + sb; [[x] + r[0]] + r[1..] == ([[x] + ra[0]] + ra[1..]) + sb
  {
    assert (ra + sb)[0] == ra[0];
    assert (ra + sb)[1..] == ra[1..] + sb;
    ConsAssoc([x] + ra[0], ra[1..], sb);
  }

  /** A string without separators is a single piece. */
  lemma {:induction false} SplitWithoutSeparator(w: string, sep: Separator)
    requires HasNo(w, sep)
    ensures SplitBy(w, sep) == [w]
  {
    if w != [] {
      SplitWithoutSeparator(w[1..], sep);
      assert [w[0]] + w[1..] == w;
    }
  }

  /** Splitting and re-joining with the same character gives back the input. */
  lemma {:induction false} JoinSplit(s: string, c: char)
    ensures Join(SplitBy(s, Exactly(c)), [c]) == s
  {
    if s != [] {
      var rest := SplitBy(s[1..], Exactly(c));
      JoinSplit(s[1..], c);
      if s[0] == c {
        assert SplitBy(s, Exactly(c)) == [[]] + rest;
        assert ([[]] + rest)[1..] == rest;
      } else {
        var r := SplitBy(s, Exactly(c));
        assert r == [[s[0]] + rest[0]] + rest[1..];
        if |rest| == 1 {
          assert Join(rest, [c]) == rest[0];
        } else {
          assert r[1..] == rest[1..];
          assert Join(rest, [c]) == rest[0] + [c] + Join(rest[1..], [c]);
        }
      }
    }
  }

  /** The non-empty pieces, `pieces.filter(Boolean)`. */
  function NonEmpty(ps: seq<string>): (r: seq<string>)
    ensures forall i :: 0 <= i < |r| ==> r[i] != []
  {
    if ps == [] then [] else (if ps[0] == [] then [] else [ps[0]]) + NonEmpty(ps[1..])
  }

  lemma {:induction false} NonEmptyAppend(a: seq<string>, b: seq<string>)
    ensures NonEmpty(a + b) == NonEmpty(a) + NonEmpty(b)
  {
    if a != [] {
      NonEmptyAppend(a[1..], b);
      assert (a + b)[1..] == a[1..] + b;
    } else {
      assert a + b == b;
    }
  }

  /** The white-space separated words of `s`: `s.split(/\s+/).filter(Boolean)`. */
  function Words(s: string): seq<string>
  {
    NonEmpty(SplitBy(s, AnyWhitespace))
  }

  /** `s.split(/\s+/)`: a run of white space separates two pieces, so only the first and the
      last piece can be empty (when `s` starts or ends with white space). */
  function RegexSplitWs(s: string): seq<string>
  {
    var ps := SplitBy(s, AnyWhitespace);
    if |ps| <= 1 then ps else [ps[0]] + NonEmpty(ps[1..|ps| - 1]) + [ps[|ps| - 1]]
  }

  predicate IsWord(w: string)
  {
    w != [] && HasNo(w, AnyWhitespace)
  }

  lemma {:induction false} FirstPieceNonEmpty(s: string, sep: Separator)
    requires s != [] && !Separates(sep, s[0])
    ensures SplitBy(s, sep)[0] != []
  {
  }

  lemma {:induction false} LastPieceNonEmpty(s: string, sep: Separator)
    requires s != [] && !Separates(sep, s[|s| - 1])
    ensures var ps := SplitBy(s, sep); ps[|ps| - 1] != []
  {
    if |s| > 1 {
      assert s[1..][|s[1..]| - 1] == s[|s| - 1];
      LastPieceNonEmpty(s[1..], sep);
    }
  }

  /** On a trimmed non-empty string `split(/\s+/)` yields exactly the words. */
  lemma RegexSplitOfTrimmed(s: string)
    requires Trimmed(s) && s != []
    ensures RegexSplitWs(s) == Words(s)
  {
    var ps := SplitBy(s, AnyWhitespace);
    FirstPieceNonEmpty(s, AnyWhitespace);
    LastPieceNonEmpty(s, AnyWhitespace);
    if |ps| > 1 {
      var mid := ps[1..|ps| - 1];
      assert ps == [ps[0]] + mid + [ps[|ps| - 1]];
      NonEmptyAppend([ps[0]] + mid, [ps[|ps| - 1]]);
      NonEmptyAppend([ps[0]], mid);
      assert NonEmpty([ps[0]]) == [ps[0]];
      assert NonEmpty([ps[|ps| - 1]]) == [ps[|ps| - 1]];
    } else {
      assert NonEmpty(ps) == [ps[0]];
    }
  }

  /** Words joined by single spaces split back into the same words. */
  lemma {:induction false} WordsOfJoin(ws: seq<string>)
    requires forall i :: 0 <= i < |ws| ==> IsWord(ws[i])
    ensures Words(Join(ws, " ")) == ws
  {
    if |ws| == 1 {
      SplitWithoutSeparator(ws[0], AnyWhitespace);
    } else if |ws| > 1 {
      WordsOfJoin(ws[1..]);
      SplitAtSeparator(ws[0], ' ', Join(ws[1..], " "), AnyWhitespace);
      assert ws[0] + " " + Join(ws[1..], " ") == ws[0] + [' '] + Join(ws[1..], " ");
      SplitWithoutSeparator(ws[0], AnyWhitespace);
      NonEmptyAppend([ws[0]], SplitBy(Join(ws[1..], " "), AnyWhitespace));
      assert NonEmpty([ws[0]]) == [ws[0]];
    }
  }

  /** The words of each text in turn. */
  function WordsOfAll(ls: seq<string>): seq<string>
  {
    if ls == [] then [] else Words(ls[0]) + WordsOfAll(ls[1..])
  }

  /** Texts joined by single spaces have as words the words of each text in turn. */
  lemma {:induction false} WordsOfJoinedTexts(ls: seq<string>)
    ensures Words(Join(ls, " ")) == WordsOfAll(ls)
  {
    if |ls| == 0 {
      assert Join(ls, " ") == [];
      assert SplitBy([], AnyWhitespace) == [[]];
    } else if |ls| == 1 {
      assert WordsOfAll(ls[1..]) == [];
    } else {
      WordsOfJoinedTexts(ls[1..]);
      var t := Join(ls[1..], " ");
      assert Join(ls, " ") == ls[0] + [' '] + t;
      SplitAtSeparator(ls[0], ' ', t, AnyWhitespace);
      NonEmptyAppend(SplitBy(ls[0], AnyWhitespace), SplitBy(t, AnyWhitespace));
    }
  }

  /** Words joined by single spaces have no white space at either end. */
  lemma {:induction false} JoinOfWordsTrimmed(ws: seq<string>)
    requires forall i :: 0 <= i < |ws| ==> IsWord(ws[i])
    ensures Trimmed(Join(ws, " "))
    ensures ws != [] ==> Join(ws, " ") != []
  {
    if |ws| > 1 {
      JoinOfWordsTrimmed(ws[1..]);
      var t := Join(ws[1..], " ");
      assert Join(ws, " ") == ws[0] + " " + t;
      assert (ws[0] + " " + t)[0] == ws[0][0];
      assert (ws[0] + " " + t)[|ws[0] + " " + t| - 1] == t[|t| - 1];
    }
  }

  lemma {:induction false} WordsAreWords(s: string)
    ensures forall i :: 0 <= i < |Words(s)| ==> IsWord(Words(s)[i])
  {
    var ps := SplitBy(s, AnyWhitespace);
    SplitPiecesHaveNoSeparator(s, AnyWhitespace);
    NonEmptyPieces(ps);
  }

  lemma {:induction false} NonEmptyPieces(ps: seq<string>)
    requires forall i :: 0 <= i < |ps| ==> HasNo(ps[i], AnyWhitespace)
    ensures forall i :: 0 <= i < |NonEmpty(ps)| ==> IsWord(NonEmpty(ps)[i])
  {
    if ps != [] {
      NonEmptyPieces(ps[1..]);
    }
  }

  /** Number of occurrences of the character `c`. */
  function CountChar(s: string, c: char): nat
  {
    if s == [] then 0 else (if s[0] == c then 1 else 0) + CountChar(s[1..], c)
  }

  /** `s.split(c)` has one piece more than `s` has separators. */
  lemma {:induction false} SplitCount(s: string, c: char)
    ensures |SplitBy(s, Exactly(c))| == CountChar(s, c) + 1
  {
    if s != [] {
      SplitCount(s[1..], c);
    }
  }

  // ---------------------------------------------------------------- numbers

  function DigitChar(d: nat): char
    requires d < 10
  {
    ('0' as int + d) as char
  }

  /** The decimal rendering of a natural number, as `String(n)` prints it. */
  function NatToString(n: nat): (r: string)
    ensures |r| >= 1
    ensures forall i :: 0 <= i < |r| ==> IsDigit(r[i])
  {
    if n < 10 then [DigitChar(n)] else NatToString(n / 10) + [DigitChar(n % 10)]
  }

  /** `String(n)` for an integer: a minus sign before the digits of a negative. */
  function IntToString(n: int): string
  {
    if n < 0 then "-" + NatToString(-n) else NatToString(n)
  }

  function DigitValue(c: char): nat
    requires IsDigit(c)
  {
    c as int - '0' as int
  }

  /** The value of a string of decimal digits. */
  function ParseDigits(s: string): nat
    requires forall i :: 0 <= i < |s| ==> IsDigit(s[i])
  {
    if s == [] then 0 else ParseDigits(s[..|s| - 1]) * 10 + DigitValue(s[|s| - 1])
  }

  lemma {:induction false} ParseNatToString(n: nat)
    ensures ParseDigits(NatToString(n)) == n
  {
    if n >= 10 {
      var x := NatToString(n / 10);
      ParseNatToString(n / 10);
      assert (x + [DigitChar(n % 10)])[..|x|] == x;
    }
  }

  /** `String(t / 10)` for a number held as integer tenths: the integer part, then a dot
      and the tenths digit when that digit is not zero (`7`, `7.5`, `-0.5`). */
  function TenthsToString(t: int): string
    decreases if t < 0 then 1 else 0
  {
    if t < 0 then "-" + TenthsToString(-t)
    else NatToString(t / 10) + (if t % 10 == 0 then "" else "." + [DigitChar(t % 10)])
  }

  /** Digits, optionally followed by a dot and one digit. */
  predicate IsTenthsText(s: string)
  {
    if |s| >= 2 && s[|s| - 2] == '.' then
      |s| >= 3 && (forall i :: 0 <= i < |s| - 2 ==> IsDigit(s[i])) && IsDigit(s[|s| - 1])
    else s != [] && forall i :: 0 <= i < |s| ==> IsDigit(s[i])
  }

  /** The value of such a text, in tenths. */
  function ParseTenths(s: string): nat
    requires IsTenthsText(s)
  {
    if |s| >= 2 && s[|s| - 2] == '.' then ParseDigits(s[..|s| - 2]) * 10 + DigitValue(s[|s| - 1])
    else ParseDigits(s) * 10
  }

  /** The rendering of a non-negative number of tenths reads back as that number. */
  lemma TenthsRoundTrip(t: nat)
    ensures IsTenthsText(TenthsToString(t)) && ParseTenths(TenthsToString(t)) == t
  {
    var x := NatToString(t / 10);
    ParseNatToString(t / 10);
    if t % 10 != 0 {
      var s := x + "." + [DigitChar(t % 10)];
      assert s[..|s| - 2] == x;
      assert s[|s| - 2] == '.';
    } else {
      assert TenthsToString(t) == x;
      if |x| >= 2 { assert IsDigit(x[|x| - 2]); }
    }
  }

  // ---------------------------------------------------------------- rounding

  /** `Math.round(10 * total / n)` for `n > 0`, as the nearest integer with halves
      rounded up. */
  function RoundTenths(total: int, n: nat): (r: int)
    requires n > 0
    ensures 2 * n * r <= 20 * total + n < 2 * n * r + 2 * n
  {
    (20 * total + n) / (2 * n)
  }

  lemma RoundTenthsRange(total: int, n: nat)
    requires n > 0 && 0 <= total <= 10 * n
    ensures 0 <= RoundTenths(total, n) <= 100
  {
    var r := RoundTenths(total, n);
    MulMono(2 * n, r, 101);
    MulMono(2 * n, -1, r);
  }

  lemma MulMono(m: nat, x: int, y: int)
    ensures x >= y ==> m * x >= m * y
  {
  }

  /** `x.toFixed(1)` for a non-negative number held as integer tenths: always one
      decimal (`7.0`, `7.5`). */
  function FixedTenths(t: nat): string
  {
    NatToString(t / 10) + "." + [DigitChar(t % 10)]
  }

  /** The one-decimal rendering reads back as the same number of tenths. */
  lemma FixedTenthsRoundTrip(t: nat)
    ensures IsTenthsText(FixedTenths(t)) && ParseTenths(FixedTenths(t)) == t
  {
    var x := NatToString(t / 10);
    ParseNatToString(t / 10);
    var s := x + "." + [DigitChar(t % 10)];
    assert s[..|s| - 2] == x;
    assert s[|s| - 2] == '.';
  }
}
