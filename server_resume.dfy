/** `parseResume` of the `server/` backend: the buffer check, the PDF/DOCX dispatch on
    the MIME type or the lower-cased file name, the wrapping of decoder errors, and the
    e-mail, phone and name fields read from the decoded text. The decoders themselves
    are outside the model: their outcome is an input. */
module ServerResume {
  import opened Wrappers
  import opened Text
  import opened Patterns
  import RP = ResumeParser

  /** The uploaded file as the parser receives it: the original name, the MIME type, and
      whether a byte buffer is attached. */
  datatype ResumeFile = ResumeFile(originalName: string, mimetype: string, hasBuffer: bool)

  /** What the decoder did: produced text (an absent text read as `""`) or threw. */
  datatype DecoderRun = Produced(text: string) | Threw(message: string)

  /** A rejected upload: the HTTP status attached to the error, and its message. */
  datatype ParseError = ParseError(status: nat, message: string)

  /** The three fields; `None` stands for `undefined`. */
  datatype Fields = Fields(name: Option<string>, email: Option<string>, phone: Option<string>)

  /** The result: the decoded text as it came, and the fields. */
  datatype Parsed = Parsed(text: string, fields: Fields)

  const PdfMime: string := "application/pdf"
  const DocxMime: string := "application/vnd.openxmlformats-officedocument.wordprocessingml.document"
  const BufferMessage: string := "File buffer is missing or invalid"
  const UnsupportedMessage: string := "Unsupported file type"
  const PdfPrefix: string := "Failed to parse PDF: "
  const DocxPrefix: string := "Failed to parse DOCX: "

  predicate IsPdf(f: ResumeFile)
  {
    f.mimetype == PdfMime || EndsWith(Lower(f.originalName), ".pdf")
  }

  predicate IsDocx(f: ResumeFile)
  {
    f.mimetype == DocxMime || EndsWith(Lower(f.originalName), ".docx")
  }

  // ---------------------------------------------------------------- decoding

  /** The steps before the fields: the buffer check, then PDF, then DOCX, else rejection;
      a decoder error is rethrown with the decoder's prefix and status 422. */
  function DecodedText(file: Option<ResumeFile>, run: DecoderRun): Result<string, ParseError>
  {
    if file.None? || !file.value.hasBuffer then Failure(ParseError(400, BufferMessage))
    else if IsPdf(file.value) then
      match run
      case Threw(m) => Failure(ParseError(422, PdfPrefix + m))
      case Produced(t) => Success(t)
    else if IsDocx(file.value) then
      match run
      case Threw(m) => Failure(ParseError(422, DocxPrefix + m))
      case Produced(t) => Success(t)
    else Failure(ParseError(400, UnsupportedMessage))
  }

  /** What `parseResume(file)` resolves to, or the error it throws. */
  function ParseResumeOf(file: Option<ResumeFile>, run: DecoderRun): Result<Parsed, ParseError>
  {
    match DecodedText(file, run)
    case Failure(e) => Failure(e)
    case Success(t) => Success(Parsed(t, FieldsFrom(t)))
  }

  /** `parseResume`, with `text` assigned by the branch that decodes. */
  method ParseResume(file: Option<ResumeFile>, run: DecoderRun) returns (r: Result<Parsed, ParseError>)
    ensures r == ParseResumeOf(file, run)
  {
    if file.None? || !file.value.hasBuffer {
      return Failure(ParseError(400, BufferMessage));
    }
    var f := file.value;
    var text := "";
    if IsPdf(f) {
      if run.Threw? {
        return Failure(ParseError(422, PdfPrefix + run.message));
      }
      text := run.text;
    } else if IsDocx(f) {
      if run.Threw? {
        return Failure(ParseError(422, DocxPrefix + run.message));
      }
      text := run.text;
    } else {
      return Failure(ParseError(400, UnsupportedMessage));
    }
    var fields := ExtractFields(text);
    return Success(Parsed(text, fields));
  }

  /** The outcomes: the buffer is checked before the type, PDF wins over DOCX, a decoder
      error carries the prefix of the decoder that ran, and on success the text is the
      decoder's, unchanged. */
  lemma ParseOutcomes(file: Option<ResumeFile>, run: DecoderRun)
    ensures var r := ParseResumeOf(file, run);
      && (r == Failure(ParseError(400, BufferMessage)) <==> file.None? || !file.value.hasBuffer)
      && (r == Failure(ParseError(400, UnsupportedMessage)) <==>
            file.Some? && file.value.hasBuffer && !IsPdf(file.value) && !IsDocx(file.value))
      && (r.Failure? && r.error.status == 422 <==>
            file.Some? && file.value.hasBuffer && (IsPdf(file.value) || IsDocx(file.value)) && run.Threw?)
      && (r.Failure? && r.error.status == 422 ==>
            r.error.message == (if IsPdf(file.value) then PdfPrefix else DocxPrefix) + run.message)
      && (r.Success? <==>
            file.Some? && file.value.hasBuffer && (IsPdf(file.value) || IsDocx(file.value)) && run.Produced?)
      && (r.Success? ==> r.value.text == run.text && r.value.fields == FieldsFrom(run.text))
  {
    if file.Some? && file.value.hasBuffer && !IsPdf(file.value) && !IsDocx(file.value) {
      assert UnsupportedMessage != BufferMessage;
    }
    if file.Some? && file.value.hasBuffer && (IsPdf(file.value) || IsDocx(file.value)) && run.Threw? {
      assert ParseResumeOf(file, run).error.status == 422;
    }
  }

  /** A file whose MIME type says PDF is read as a PDF whatever its name. */
  lemma PdfChecksFirst(name: string, run: DecoderRun)
    requires run.Threw?
    ensures ParseResumeOf(Some(ResumeFile(name, PdfMime, true)), run)
      == Failure(ParseError(422, PdfPrefix + run.message))
  {
  }

  // ---------------------------------------------------------------- the name hint

  /** `[:\s\-]`, the separators after the word "name". */
  predicate IsHintSep(c: char)
  {
    c == ':' || IsWs(c) || c == '-'
  }

  /** `[A-Za-z\s.'-]`, the characters of the captured name after its first letter. */
  predicate IsNameChar(c: char)
  {
    IsLetter(c) || IsWs(c) || c == '.' || c == '\'' || c == '-'
  }

  /** The end of the longest run of characters satisfying `p` from `j`. */
  function RunEnd(s: string, j: nat, p: char -> bool): (e: nat)
    requires j <= |s|
    ensures j <= e <= |s|
    ensures forall t :: j <= t < e ==> p(s[t])
    ensures e == |s| || !p(s[e])
    decreases |s| - j
  {
    if j < |s| && p(s[j]) then RunEnd(s, j + 1, p) else j
  }

  /** No run of `p` from `j` reaches past the end `RunEnd` finds. */
  lemma RunEndMaximal(s: string, j: nat, p: char -> bool, x: nat)
    requires j <= x <= |s| && forall t :: j <= t < x ==> p(s[t])
    ensures x <= RunEnd(s, j, p)
  {
  }

  /** The word "name", in any letter case, starts at `i`. */
  predicate NameWordAt(l: string, i: nat)
  {
    i + 4 <= |l| && Lower(l[i..i + 4]) == "name"
  }

  /** `/(name[:\s\-]*)([A-Za-z][A-Za-z\s.'-]{2,})/i` matches `l[i..e]` with its second
      group `l[k..e]`. */
  predicate HintMatch(l: string, i: int, k: int, e: int)
  {
    && 0 <= i && i + 4 <= k < e <= |l| && NameWordAt(l, i)
    && (forall t :: i + 4 <= t < k ==> IsHintSep(l[t]))
    && IsLetter(l[k]) && e - k >= 3
    && (forall t :: k < t < e ==> IsNameChar(l[t]))
  }

  /** The second group of a match attempt at `i`. No separator is a letter, so the first
      group must take the whole separator run; the greedy second group takes a letter and
      the whole run of name characters after it. */
  function HintAt(l: string, i: nat): Option<string>
  {
    if !NameWordAt(l, i) then None
    else
      var k := RunEnd(l, i + 4, IsHintSep);
      if k == |l| || !IsLetter(l[k]) then None
      else
        var e := RunEnd(l, k + 1, IsNameChar);
        if e - k < 3 then None else Some(l[k..e])
  }

  /** An attempt at `i` succeeds exactly when the pattern matches there, and then it
      captures the longest second group of the only possible split. */
  lemma HintAtSpec(l: string, i: nat)
    ensures HintAt(l, i).None? ==> forall k, e :: !HintMatch(l, i, k, e)
    ensures HintAt(l, i).Some? ==>
      exists k, e :: (HintMatch(l, i, k, e) && HintAt(l, i).value == l[k..e]
        && forall k', e' :: HintMatch(l, i, k', e') ==> k' == k && e' <= e)
  {
    if NameWordAt(l, i) {
      var k := RunEnd(l, i + 4, IsHintSep);
      forall k', e' | HintMatch(l, i, k', e') ensures k' == k {
        RunEndMaximal(l, i + 4, IsHintSep, k');
      }
      if k < |l| && IsLetter(l[k]) {
        var e := RunEnd(l, k + 1, IsNameChar);
        forall k', e' | HintMatch(l, i, k', e') ensures e' <= e {
          RunEndMaximal(l, k + 1, IsNameChar, e');
        }
        if e - k >= 3 {
          assert HintMatch(l, i, k, e);
        }
      }
    }
  }

  /** The capture of the leftmost match at or after `i`. */
  function HintFrom(l: string, i: nat): Option<string>
    requires i <= |l|
    decreases |l| - i
  {
    if i == |l| then None
    else
      match HintAt(l, i)
      case Some(c) => Some(c)
      case None => HintFrom(l, i + 1)
  }

  /** `l.match(NAME_HINT)?.[2]` */
  function HintCapture(l: string): Option<string>
  {
    HintFrom(l, 0)
  }

  /** `NAME_HINT.test(l)` */
  predicate HasHint(l: string)
  {
    HintCapture(l).Some?
  }

  /** The search finds the leftmost start where the pattern matches, and there the
      longest second group. */
  lemma {:induction false} HintFromSpec(l: string, i: nat)
    requires i <= |l|
    ensures HintFrom(l, i).None? ==> forall j, k, e :: i <= j && HintMatch(l, j, k, e) ==> false
    ensures HintFrom(l, i).Some? ==>
      exists j, k, e :: (i <= j && HintMatch(l, j, k, e) && HintFrom(l, i).value == l[k..e]
        && forall j', k', e' :: i <= j' && HintMatch(l, j', k', e') ==> j <= j' && (j' == j ==> k' == k && e' <= e))
    decreases |l| - i
  {
    HintAtSpec(l, i);
    if i < |l| && HintAt(l, i).None? {
      HintFromSpec(l, i + 1);
      forall j, k, e | i <= j && HintMatch(l, j, k, e) ensures i + 1 <= j {
      }
    }
  }

  lemma CaptureShape(l: string, j: int, k: int, e: int)
    requires HintMatch(l, j, k, e)
    ensures var c := l[k..e]; |c| >= 3 && IsLetter(c[0]) && forall t :: 0 < t < |c| ==> IsNameChar(c[t])
  {
    var c := l[k..e];
    assert c[0] == l[k];
    forall t | 0 < t < |c| ensures IsNameChar(c[t]) {
      assert c[t] == l[k + t];
    }
  }

  /** The test holds exactly when the pattern matches somewhere in the line, and the
      capture is a letter followed by at least two name characters. */
  lemma HintCaptureSpec(l: string)
    ensures HasHint(l) <==> exists j, k, e :: HintMatch(l, j, k, e)
    ensures HasHint(l) ==> var c := HintCapture(l).value;
      |c| >= 3 && IsLetter(c[0]) && forall t :: 0 < t < |c| ==> IsNameChar(c[t])
  {
    HintFromSpec(l, 0);
    if HasHint(l) {
      var j, k, e :| 0 <= j && HintMatch(l, j, k, e) && HintCapture(l).value == l[k..e]
        && forall j', k', e' :: 0 <= j' && HintMatch(l, j', k', e') ==> j <= j' && (j' == j ==> k' == k && e' <= e);
      CaptureShape(l, j, k, e);
    }
  }

  // ---------------------------------------------------------------- the fields

  predicate HasLetter(l: string)
  {
    exists i :: 0 <= i < |l| && IsLetter(l[i])
  }

  predicate HasDigit(l: string)
  {
    exists i :: 0 <= i < |l| && IsDigit(l[i])
  }

  /** `/[A-Za-z]/.test(l) && !/\d/.test(l) && l.split(/\s+/).length <= 5` */
  predicate IsPlainLine(l: string)
  {
    HasLetter(l) && !HasDigit(l) && |RegexSplitWs(l)| <= 5
  }

  /** The trimmed capture on the first line the hint matches. */
  function HintedName(lines: seq<string>): Option<string>
  {
    match RP.FindFirst(lines, HasHint)
    case Some(h) => (match HintCapture(h) case Some(c) => Some(Trim(c)) case None => None)
    case None => None
  }

  /** The name: the trimmed capture on the first line the hint matches, when it is not
      empty; otherwise the first plain line, if any. */
  function NameFrom(text: string): Option<string>
  {
    var lines := RP.TrimmedLines(text);
    var hinted := HintedName(lines);
    if hinted.Some? && hinted.value != [] then hinted
    else
      match RP.FindFirst(lines, IsPlainLine)
      case Some(f) => Some(f)
      case None => hinted
  }

  /** The fields read from the decoded text: e-mail and phone are the leftmost matches of
      their patterns, untrimmed. */
  function FieldsFrom(text: string): Fields
  {
    Fields(NameFrom(text), MatchText(text, IsEmail), MatchText(text, IsPhone))
  }

  /** The field extraction, with `name` reassigned as the hint and the fallback apply. */
  method ExtractFields(text: string) returns (f: Fields)
    ensures f == FieldsFrom(text)
  {
    var email := MatchText(text, IsEmail);
    var phone := MatchText(text, IsPhone);
    var name: Option<string> := None;
    var lines := RP.TrimmedLines(text);
    var hint := RP.FindFirst(lines, HasHint);
    if hint.Some? {
      var m := HintCapture(hint.value);
      name := if m.Some? then Some(Trim(m.value)) else None;
    }
    if name.None? || name.value == [] {
      var first := RP.FindFirst(lines, IsPlainLine);
      if first.Some? {
        name := first;
      }
    }
    return Fields(name, email, phone);
  }

  /** A string that starts with a character other than white space keeps it under trim. */
  lemma TrimKeepsFirst(s: string)
    requires s != [] && !IsWs(s[0])
    ensures Trim(s) != [] && Trim(s)[0] == s[0]
  {
    TrimStartSpec(s);
    var t := TrimStart(s);
    assert t == s;
    TrimEndSpec(t);
  }

  /** On the first line with a hint the name is the trimmed capture, which is never empty:
      the capture starts with a letter. */
  lemma NameFromHinted(text: string)
    ensures var h := RP.FindFirst(RP.TrimmedLines(text), HasHint);
      h.Some? ==> var c := HintCapture(h.value).value;
        NameFrom(text) == Some(Trim(c)) && Trim(c) != [] && Trim(c)[0] == c[0] && IsLetter(c[0])
  {
    var lines := RP.TrimmedLines(text);
    var h := RP.FindFirst(lines, HasHint);
    if h.Some? {
      HintCaptureSpec(h.value);
      var c := HintCapture(h.value).value;
      LetterIsNotWs(c[0]);
      TrimKeepsFirst(c);
      assert HintedName(lines) == Some(Trim(c));
    }
  }

  /** Without a line that has a hint, the name is the first plain line, or none. */
  lemma NameFromUnhinted(text: string)
    ensures var lines := RP.TrimmedLines(text);
      RP.FindFirst(lines, HasHint).None? ==> NameFrom(text) == RP.FindFirst(lines, IsPlainLine)
  {
  }

  /** A name, when found, is never empty. */
  lemma NameFromNonEmpty(text: string)
    ensures NameFrom(text).Some? ==> NameFrom(text).value != []
  {
    NameFromHinted(text);
    var lines := RP.TrimmedLines(text);
    var f := RP.FindFirst(lines, IsPlainLine);
    if f.Some? {
      var i :| 0 <= i < |lines| && lines[i] == f.value && IsPlainLine(lines[i])
        && forall t :: 0 <= t < i ==> !IsPlainLine(lines[t]);
    }
  }

  /** E-mail and phone, when present, are in their patterns' languages and have no white
      space at their ends; absent, no part of the text is in the language. */
  lemma FieldsFromSpec(text: string)
    ensures var f := FieldsFrom(text);
      && (f.email.Some? ==> IsEmail(f.email.value) && Trimmed(f.email.value))
      && (f.email.None? ==> forall p, e :: 0 <= p <= e <= |text| ==> !IsEmail(text[p..e]))
      && (f.phone.Some? ==> IsPhone(f.phone.value) && Trimmed(f.phone.value))
      && (f.phone.None? ==> forall p, e :: 0 <= p <= e <= |text| ==> !IsPhone(text[p..e]))
  {
    var f := FieldsFrom(text);
    if f.email.Some? {
      EmailIsTrimmed(f.email.value);
    }
    if f.phone.Some? {
      PhoneIsTrimmed(f.phone.value);
    }
  }
}
