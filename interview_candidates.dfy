/** The candidate record of the `interview/` backend and its routes: creation with the
    missing-field list, resume upload (extension filter, size limit, extraction, backfill
    of personal fields), the field update, and the listing projection. The schema trims
    every personal field and lower-cases the e-mail on assignment. */
module InterviewCandidates {
  import opened Wrappers
  import opened Text
  import opened NodePath
  import opened InterviewRecords
  import RP = ResumeParser

  /** The schema setters. */
  function SetTrimmed(x: string): string
  {
    Trim(x)
  }

  function SetEmail(x: string): string
  {
    Lower(Trim(x))
  }

  /** A field of the update body: the setter's value when present, else the old value. */
  function PatchTrimmed(current: string, v: Option<string>): string
  {
    if v.Some? then SetTrimmed(v.value) else current
  }

  function PatchEmail(current: string, v: Option<string>): string
  {
    if v.Some? then SetEmail(v.value) else current
  }

  const NameField: string := ['n', 'a', 'm', 'e']
  const EmailField: string := ['e', 'm', 'a', 'i', 'l']
  const PhoneField: string := ['p', 'h', 'o', 'n', 'e']

  /** `["name", "email", "phone"].filter(f => !c[f])` */
  function MissingOf(name: string, email: string, phone: string): seq<string>
  {
    (if name == [] then [NameField] else []) + (if email == [] then [EmailField] else [])
      + (if phone == [] then [PhoneField] else [])
  }

  /** Position of a field name in `["name", "email", "phone"]`. */
  function Rank(f: string): nat
  {
    if f == NameField then 0 else if f == EmailField then 1 else 2
  }

  /** A field is listed exactly when it is empty, and the list keeps the order name,
      e-mail, phone without repeats. */
  lemma MissingOfSpec(name: string, email: string, phone: string)
    ensures var m := MissingOf(name, email, phone);
      && (NameField in m <==> name == [])
      && (EmailField in m <==> email == [])
      && (PhoneField in m <==> phone == [])
      && (forall k :: 0 <= k < |m| ==> m[k] == NameField || m[k] == EmailField || m[k] == PhoneField)
      && (forall i, j :: 0 <= i < j < |m| ==> Rank(m[i]) < Rank(m[j]))
  {
    assert NameField[0] != EmailField[0] && NameField[0] != PhoneField[0] && EmailField[0] != PhoneField[0];
  }

  /** `if (!c[f] && extracted[f]) c[f] = extracted[f]`, with the setter applied. */
  function Fill(current: string, extracted: string, stored: string): string
  {
    if current == [] && extracted != [] then stored else current
  }

  /** A non-empty field is never overwritten; an empty one takes the extracted value
      when that is non-empty and has no white space at its ends. */
  lemma FillSpec(current: string, extracted: string)
    ensures current != [] ==> Fill(current, extracted, SetTrimmed(extracted)) == current
    ensures current != [] ==> Fill(current, extracted, SetEmail(extracted)) == current
    ensures current == [] && extracted != [] && Trimmed(extracted) ==>
      Fill(current, extracted, SetTrimmed(extracted)) == extracted
      && Fill(current, extracted, SetEmail(extracted)) == Lower(extracted)
    ensures current == [] && extracted == [] ==> Fill(current, extracted, SetTrimmed(extracted)) == []
  {
    if current == [] && extracted != [] && Trimmed(extracted) {
      TrimOfTrimmed(extracted);
    }
  }

  // ---------------------------------------------------------------- upload

  const MaxUploadBytes: nat := 2 * 1024 * 1024

  /** The upload filter: the lower-cased extension of the original name is `.pdf` or
      `.docx`. */
  predicate AcceptedName(originalName: string)
  {
    var ext := Lower(Extname(originalName));
    ext == ".pdf" || ext == ".docx"
  }

  /** Where the upload is stored: `uploads/<Date.now()>-<random><ext>`, the clock and the
      random number being inputs. */
  function StoredPath(originalName: string, stamp: nat, random: nat): string
  {
    "uploads" + "/" + NatToString(stamp) + "-" + NatToString(random) + Extname(originalName)
  }

  /** The generated part of the stored name holds neither a slash nor a dot. */
  lemma StampPartClean(stamp: nat, random: nat)
    ensures var p := NatToString(stamp) + "-" + NatToString(random);
      p != [] && '/' !in p && '.' !in p
  {
    var a := NatToString(stamp);
    var b := NatToString(random);
    var p := a + "-" + b;
    forall i | 0 <= i < |p| ensures p[i] != '/' && p[i] != '.' {
      if i < |a| { assert p[i] == a[i]; }
      else if i > |a| { assert p[i] == b[i - |a| - 1]; }
    }
  }

  /** The stored file keeps the extension of the original name. */
  lemma StoredPathKeepsExtension(originalName: string, stamp: nat, random: nat)
    ensures Extname(StoredPath(originalName, stamp, random)) == Extname(originalName)
  {
    var prefix := NatToString(stamp) + "-" + NatToString(random);
    StampPartClean(stamp, random);
    var e := Extname(originalName);
    var x := prefix + e;
    assert StoredPath(originalName, stamp, random) == "uploads" + "/" + x;
    assert '/' !in x by {
      forall i | 0 <= i < |x| ensures x[i] != '/' {
        if i >= |prefix| { assert x[i] == e[i - |prefix|]; }
      }
    }
    ExtnameInDir("uploads", x);
    ExtnameOfPrefixed(prefix, originalName);
  }

  /** An upload the filter accepts always passes the parser's own extension test. */
  lemma AcceptedIsSupported(originalName: string, stamp: nat, random: nat, decoding: RP.Decoding)
    requires AcceptedName(originalName)
    ensures RP.ResumeSummaryOf(StoredPath(originalName, stamp, random), decoding) != Failure(RP.UnsupportedFileType)
  {
    StoredPathKeepsExtension(originalName, stamp, random);
    RP.ResumeSummaryOutcomes(StoredPath(originalName, stamp, random), decoding);
  }

  /** The file part of an upload request. */
  datatype Upload = Upload(originalName: string, size: nat)

  datatype UploadError = InvalidFileType | FileTooLarge | NoFileUploaded | ProcessingFailed

  /** What the upload route does before it touches the record: the filter and the size
      limit of the upload middleware, the missing file, the route's own repeat of the
      extension test, and the extraction. */
  function UploadOutcome(file: Option<Upload>, stamp: nat, random: nat, decoding: RP.Decoding)
    : Result<RP.ResumeFields, UploadError>
  {
    if file.None? then Failure(NoFileUploaded)
    else if !AcceptedName(file.value.originalName) then Failure(InvalidFileType)
    else if file.value.size > MaxUploadBytes then Failure(FileTooLarge)
    else match RP.ResumeSummaryOf(StoredPath(file.value.originalName, stamp, random), decoding)
      case Failure(_) => Failure(ProcessingFailed)
      case Success(ex) => Success(ex)
  }

  /** The route's checks and the extraction, in the order the route performs them. */
  method Checked(file: Option<Upload>, stamp: nat, random: nat, decoding: RP.Decoding)
    returns (r: Result<RP.ResumeFields, UploadError>)
    ensures r == UploadOutcome(file, stamp, random, decoding)
  {
    if file.None? {
      return Failure(NoFileUploaded);
    }
    var f := file.value;
    var ext := Lower(Extname(f.originalName));
    if ext != ".pdf" && ext != ".docx" {
      return Failure(InvalidFileType);
    }
    if f.size > MaxUploadBytes {
      return Failure(FileTooLarge);
    }
    var extracted := RP.ExtractResumeSummary(StoredPath(f.originalName, stamp, random), decoding);
    if extracted.Failure? {
      return Failure(ProcessingFailed);
    }
    return Success(extracted.value);
  }

  /** An accepted file of allowed size fails only when the decoder throws or its text is
      empty once normalised; otherwise the extracted fields are those of that text. */
  lemma UploadOutcomeSpec(file: Option<Upload>, stamp: nat, random: nat, decoding: RP.Decoding)
    requires file.Some? && AcceptedName(file.value.originalName) && file.value.size <= MaxUploadBytes
    ensures var r := UploadOutcome(file, stamp, random, decoding);
      && (r == Failure(ProcessingFailed) <==>
            decoding.DecoderThrew? || RP.NormalizeText(decoding.text) == [])
      && (r.Success? ==> r.value == RP.FieldsOf(RP.NormalizeText(decoding.text)))
  {
    AcceptedIsSupported(file.value.originalName, stamp, random, decoding);
    RP.ResumeSummaryOutcomes(StoredPath(file.value.originalName, stamp, random), decoding);
  }

  // ---------------------------------------------------------------- listing

  /** What the listing reads of a populated interview. */
  datatype InterviewInfo = InterviewInfo(status: Status, finalScore: Option<int>, summary: Option<string>)

  /** Index of the last completed interview, if any. */
  function LastCompleted(ivs: seq<InterviewInfo>): (r: Option<nat>)
    ensures r.Some? ==> r.value < |ivs| && ivs[r.value].status == Completed
    ensures r.Some? ==> forall j :: r.value < j < |ivs| ==> ivs[j].status != Completed
    ensures r.None? ==> forall j :: 0 <= j < |ivs| ==> ivs[j].status != Completed
  {
    if ivs == [] then None
    else if ivs[|ivs| - 1].status == Completed then Some(|ivs| - 1)
    else
      var r := LastCompleted(ivs[..|ivs| - 1]);
      assert forall j :: 0 <= j < |ivs| - 1 ==> ivs[..|ivs| - 1][j] == ivs[j];
      r
  }

  datatype Listing = Listing(
    name: string, email: string, phone: string, resumeSummary: string,
    latestFinalScore: Option<int>, latestSummary: Option<string>, totalInterviews: nat)

  // ---------------------------------------------------------------- the record

  class Candidate {
    var name: string
    var email: string
    var phone: string
    var resumeSummary: string
    var resumeFileName: string
    var resumeFilePath: string
    var missingFields: seq<string>
    /** The full text and sections older records may still hold. */
    var resumeText: Option<string>
    var resumeSections: Option<map<string, string>>

    /** The missing-field list matches the record. */
    predicate MissingCurrent()
      reads this
    {
      missingFields == MissingOf(name, email, phone)
    }

    /** The create route. Its missing list is taken from the request before the setters
        trim, so a field of only white space is stored empty yet not listed. */
    constructor (reqName: string, reqEmail: string, reqPhone: string)
      ensures name == SetTrimmed(reqName) && email == SetEmail(reqEmail) && phone == SetTrimmed(reqPhone)
      ensures missingFields == MissingOf(reqName, reqEmail, reqPhone)
      ensures resumeSummary == [] && resumeFileName == [] && resumeFilePath == []
      ensures resumeText.None? && resumeSections.None?
    {
      name := SetTrimmed(reqName);
      email := SetEmail(reqEmail);
      phone := SetTrimmed(reqPhone);
      resumeSummary := "";
      resumeFileName := "";
      resumeFilePath := "";
      missingFields := MissingOf(reqName, reqEmail, reqPhone);
      resumeText := None;
      resumeSections := None;
    }

    /** The update route: only the fields present in the body change; the list is then
        recomputed. */
    method Update(newName: Option<string>, newEmail: Option<string>, newPhone: Option<string>)
      modifies this`name, this`email, this`phone, this`missingFields
      ensures name == PatchTrimmed(old(name), newName)
      ensures email == PatchEmail(old(email), newEmail)
      ensures phone == PatchTrimmed(old(phone), newPhone)
      ensures MissingCurrent()
    {
      name := PatchTrimmed(name, newName);
      email := PatchEmail(email, newEmail);
      phone := PatchTrimmed(phone, newPhone);
      missingFields := MissingOf(name, email, phone);
    }

    /** The backfill of the upload route: each empty field takes the extracted value
        through its setter, and the list is recomputed. */
    method Backfill(ex: RP.ResumeFields)
      modifies this`name, this`email, this`phone, this`missingFields
      ensures name == Fill(old(name), ex.name, SetTrimmed(ex.name))
      ensures email == Fill(old(email), ex.email, SetEmail(ex.email))
      ensures phone == Fill(old(phone), ex.phone, SetTrimmed(ex.phone))
      ensures MissingCurrent()
    {
      name := Fill(name, ex.name, SetTrimmed(ex.name));
      email := Fill(email, ex.email, SetEmail(ex.email));
      phone := Fill(phone, ex.phone, SetTrimmed(ex.phone));
      missingFields := MissingOf(name, email, phone);
    }

    /** The record after a successful upload: the summary and the file's name and path
        are kept, the legacy text is dropped, empty personal fields are filled from the
        extraction, and the list is current. */
    predicate Attached(ex: RP.ResumeFields, fileName: string, filePath: string,
                       oldName: string, oldEmail: string, oldPhone: string)
      reads this
    {
      && resumeSummary == ex.summary && resumeFileName == fileName && resumeFilePath == filePath
      && resumeText.None? && resumeSections.None?
      && name == Fill(oldName, ex.name, SetTrimmed(ex.name))
      && email == Fill(oldEmail, ex.email, SetEmail(ex.email))
      && phone == Fill(oldPhone, ex.phone, SetTrimmed(ex.phone))
      && MissingCurrent()
    }

    /** The upload route on this record. On success only the summary and the file's name
        and path are kept, the legacy text is dropped, empty personal fields are filled
        from the extraction, and the list is recomputed; on any failure nothing changes. */
    method AttachResume(file: Option<Upload>, stamp: nat, random: nat, decoding: RP.Decoding)
      returns (r: Result<RP.ResumeFields, UploadError>)
      modifies this
      ensures r == UploadOutcome(file, stamp, random, decoding)
      ensures r.Failure? ==> unchanged(this)
      ensures r.Success? ==>
        file.Some? && Attached(r.value, file.value.originalName, StoredPath(file.value.originalName, stamp, random),
                               old(name), old(email), old(phone))
    {
      r := Checked(file, stamp, random, decoding);
      if r.Failure? {
        return;
      }
      ApplyUpload(r.value, file.value.originalName, StoredPath(file.value.originalName, stamp, random));
    }

    /** The record writes of a successful upload. */
    method ApplyUpload(ex: RP.ResumeFields, fileName: string, filePath: string)
      modifies this
      ensures Attached(ex, fileName, filePath, old(name), old(email), old(phone))
    {
      resumeText := None;
      resumeSections := None;
      resumeSummary := ex.summary;
      resumeFileName := fileName;
      resumeFilePath := filePath;
      Backfill(ex);
    }

    /** The listing entry, for the record's interviews in stored order: the score and the
        summary of the last completed one, or none. */
    function Listed(interviews: seq<InterviewInfo>): (l: Listing)
      reads this
      ensures l.totalInterviews == |interviews|
      ensures LastCompleted(interviews).None? ==> l.latestFinalScore.None? && l.latestSummary.None?
      ensures LastCompleted(interviews).Some? ==>
        l.latestFinalScore == interviews[LastCompleted(interviews).value].finalScore
        && l.latestSummary == interviews[LastCompleted(interviews).value].summary
    {
      var last := LastCompleted(interviews);
      Listing(name, email, phone, resumeSummary,
        if last.Some? then interviews[last.value].finalScore else None,
        if last.Some? then interviews[last.value].summary else None,
        |interviews|)
    }
  }

  /** Creating with a name of only white space stores an empty name that the missing list
      does not mention. */
  lemma CreateListsRawFields(reqEmail: string, reqPhone: string)
    ensures NameField !in MissingOf(" ", reqEmail, reqPhone)
    ensures SetTrimmed(" ") == []
  {
    MissingOfSpec(" ", reqEmail, reqPhone);
    assert TrimStart(" ") == [];
  }
}
