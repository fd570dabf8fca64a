/** The regular expressions of the resume readers, as languages (predicates on the
    matched text) together with the search `String.prototype.match` performs.

    A non-global `match` returns the leftmost match. For the patterns here every
    quantifier is greedy and the backtracking order finds, at the leftmost start,
    the longest text in the language, so `LeftmostLongest` is the search. */
module Patterns {
  import opened Wrappers
  import opened Text

  /** A match: the slice `text[start..end]`. */
  datatype Span = Span(start: nat, end: nat)

  /** The text of a span. */
  function SpanText(s: string, m: Span): string
    requires m.start <= m.end <= |s|
  {
    s[m.start..m.end]
  }

  // ---------------------------------------------------------------- the search

  /** The longest `s[start..e]` with `e <= end` in the language. */
  function LongestAt(s: string, start: nat, end: nat, lang: string -> bool): (r: Option<nat>)
    requires start <= end <= |s|
    ensures r.Some? ==> start <= r.value <= end && lang(s[start..r.value])
    ensures r.Some? ==> forall e :: r.value < e <= end ==> !lang(s[start..e])
    ensures r.None? ==> forall e :: start <= e <= end ==> !lang(s[start..e])
    decreases end - start
  {
    if lang(s[start..end]) then Some(end)
    else if end == start then None
    else LongestAt(s, start, end - 1, lang)
  }

  /** The leftmost start at or after `from` where some text is in the language, with the
      longest such text there. */
  function LeftmostLongestFrom(s: string, from: nat, lang: string -> bool): (r: Option<Span>)
    requires from <= |s|
    ensures r.Some? ==> from <= r.value.start <= r.value.end <= |s|
    ensures r.Some? ==> lang(s[r.value.start..r.value.end])
    ensures r.Some? ==> forall e :: r.value.end < e <= |s| ==> !lang(s[r.value.start..e])
    ensures r.Some? ==> forall p, e :: from <= p < r.value.start && p <= e <= |s| ==> !lang(s[p..e])
    ensures r.None? ==> forall p, e :: from <= p <= e <= |s| ==> !lang(s[p..e])
    decreases |s| - from
  {
    match LongestAt(s, from, |s|, lang)
    case Some(e) => Some(Span(from, e))
    case None => if from == |s| then None else LeftmostLongestFrom(s, from + 1, lang)
  }

  /** `s.match(re)` for the pattern whose language is `lang`. */
  function Match(s: string, lang: string -> bool): Option<Span>
  {
    LeftmostLongestFrom(s, 0, lang)
  }

  /** `s.match(re)?.[0]`: the matched text, if any. */
  function MatchText(s: string, lang: string -> bool): (r: Option<string>)
    ensures r.Some? ==> lang(r.value)
    ensures r.None? ==> forall p, e :: 0 <= p <= e <= |s| ==> !lang(s[p..e])
  {
    match Match(s, lang)
    case Some(m) => Some(s[m.start..m.end])
    case None => None
  }

  // ---------------------------------------------------------------- e-mail

  /** `[A-Za-z0-9._%+-]`, the local-part class (with the `i` flag in one reader). */
  predicate IsLocalChar(c: char)
  {
    IsLetter(c) || IsDigit(c) || c == '.' || c == '_' || c == '%' || c == '+' || c == '-'
  }

  /** `[A-Za-z0-9.-]`, the domain class. */
  predicate IsDomainChar(c: char)
  {
    IsLetter(c) || IsDigit(c) || c == '.' || c == '-'
  }

  predicate AllLocal(s: string) { forall i :: 0 <= i < |s| ==> IsLocalChar(s[i]) }
  predicate AllDomain(s: string) { forall i :: 0 <= i < |s| ==> IsDomainChar(s[i]) }
  predicate AllLetters(s: string) { forall i :: 0 <= i < |s| ==> IsLetter(s[i]) }

  /** Index of the first occurrence of `c`, or `|s|`. */
  function IndexOf(s: string, c: char): (r: nat)
    ensures r <= |s|
    ensures r < |s| ==> s[r] == c
    ensures forall i :: 0 <= i < r ==> s[i] != c
  {
    if s == [] then 0 else if s[0] == c then 0 else 1 + IndexOf(s[1..], c)
  }

  /** Index of the last occurrence of `c`, or `|s|` when there is none. */
  function LastIndexOf(s: string, c: char): (r: nat)
    ensures r <= |s|
    ensures r < |s| ==> s[r] == c && forall i :: r < i < |s| ==> s[i] != c
    ensures r == |s| ==> forall i :: 0 <= i < |s| ==> s[i] != c
  {
    if s == [] then 0
    else if s[|s| - 1] == c then |s| - 1
    else
      var k := LastIndexOf(s[..|s| - 1], c);
      if k == |s| - 1 then |s| else k
  }

  /** The language of `[A-Za-z0-9._%+-]+@[A-Za-z0-9.-]+\.[A-Za-z]{2,}`. Neither class holds
      `@`, so its position is the first `@`; the top-level domain holds no dot, so the dot
      before it is the last dot. */
  predicate IsEmail(w: string)
  {
    var at := IndexOf(w, '@');
    && 0 < at < |w|
    && AllLocal(w[..at])
    && var rest := w[at + 1..];
       var dot := LastIndexOf(rest, '.');
       && 0 < dot < |rest|
       && AllDomain(rest[..dot])
       && |rest| - dot - 1 >= 2
       && AllLetters(rest[dot + 1..])
  }

  // ---------------------------------------------------------------- phone

  /** `[\d\s\-()]`, the class between the first and the last digit. */
  predicate IsPhoneChar(c: char)
  {
    IsDigit(c) || IsWs(c) || c == '-' || c == '(' || c == ')'
  }

  /** `\d[\d\s\-()]{7,}\d` */
  predicate IsPhoneBody(b: string)
  {
    && |b| >= 9
    && IsDigit(b[0]) && IsDigit(b[|b| - 1])
    && forall i :: 1 <= i < |b| - 1 ==> IsPhoneChar(b[i])
  }

  /** The language of `\+?\d[\d\s\-()]{7,}\d`. A leading `+` cannot be read as a digit,
      so when present it belongs to the optional `\+?`. */
  predicate IsPhone(w: string)
  {
    if |w| > 0 && w[0] == '+' then IsPhoneBody(w[1..]) else IsPhoneBody(w)
  }

  /** A match of either pattern has no white space at its ends, so the `.trim()` the
      readers apply to it changes nothing. */
  lemma EmailIsTrimmed(w: string)
    requires IsEmail(w)
    ensures Trimmed(w)
  {
    var at := IndexOf(w, '@');
    assert w[..at][0] == w[0];
    var rest := w[at + 1..];
    assert rest[|rest| - 1] == w[|w| - 1];
    assert rest[LastIndexOf(rest, '.') + 1..][|rest| - LastIndexOf(rest, '.') - 2] == rest[|rest| - 1];
  }

  lemma PhoneIsTrimmed(w: string)
    requires IsPhone(w)
    ensures Trimmed(w)
  {
    if w[0] == '+' {
      assert w[1..][|w| - 2] == w[|w| - 1];
    }
  }
}
