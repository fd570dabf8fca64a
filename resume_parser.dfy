/** Field extraction from the decoded text of a resume (interview service): white-space
    normalisation, heading detection and section segmentation, summary selection with a
    fallback, the name heuristic, and the first e-mail and phone matches. */
module ResumeParser {
  import opened Wrappers
  import opened Text
  import opened Patterns
  import opened NodePath

  // ---------------------------------------------------------------- normalizeText

  /** `.replace(/\r/g, "")` */
  function RemoveCR(s: string): (r: string)
    ensures '\r' !in r
    ensures forall c :: c in r ==> c in s
  {
    if s == [] then [] else (if s[0] == '\r' then [] else [s[0]]) + RemoveCR(s[1..])
  }

  predicate IsBlank(c: char) { c == ' ' || c == '\t' }

  predicate NoDoubleSpace(s: string)
  {
    forall i :: 0 <= i < |s| - 1 ==> !(s[i] == ' ' && s[i + 1] == ' ')
  }

  predicate NoTripleNewline(s: string)
  {
    forall i :: 0 <= i < |s| - 2 ==> !(s[i] == '\n' && s[i + 1] == '\n' && s[i + 2] == '\n')
  }

  /** `.replace(/[ \t]+/g, " ")`; `inRun` says whether the character before `s` was a blank. */
  function CollapseBlanks(s: string, inRun: bool): (r: string)
    ensures '\t' !in r
    ensures forall c :: c in r ==> c in s || c == ' '
    ensures NoDoubleSpace(r)
    ensures inRun ==> r == [] || r[0] != ' '
  {
    if s == [] then []
    else if IsBlank(s[0]) then (if inRun then [] else " ") + CollapseBlanks(s[1..], true)
    else [s[0]] + CollapseBlanks(s[1..], false)
  }

  /** `.replace(/\n{3,}/g, "\n\n")`; `run` is the number of newlines just before `s`. */
  function CapNewlines(s: string, run: nat): (r: string)
    ensures forall c :: c in r ==> c in s
    ensures run < 2 && s != [] ==> r != [] && r[0] == s[0]
    ensures NoDoubleSpace(s) ==> NoDoubleSpace(r)
    ensures NoTripleNewline(r)
    ensures run >= 2 ==> r == [] || r[0] != '\n'
    ensures run == 1 ==> !(|r| >= 2 && r[0] == '\n' && r[1] == '\n')
  {
    if s == [] then []
    else if s[0] == '\n' then (if run < 2 then "\n" else []) + CapNewlines(s[1..], run + 1)
    else [s[0]] + CapNewlines(s[1..], 0)
  }

  /** `normalizeText`: drop carriage returns, collapse runs of spaces and tabs into one
      space, cap runs of newlines at two, and trim. */
  function NormalizeText(t: string): string
  {
    Trim(CapNewlines(CollapseBlanks(RemoveCR(t), false), 0))
  }

  /** The shape of normalised text. */
  predicate Normalized(s: string)
  {
    '\r' !in s && '\t' !in s && NoDoubleSpace(s) && NoTripleNewline(s) && Trimmed(s)
  }

  /** The output of `normalizeText` is normalised. */
  lemma NormalizeTextIsNormalized(t: string)
    ensures Normalized(NormalizeText(t))
  {
    var a := RemoveCR(t);
    var b := CollapseBlanks(a, false);
    var c := CapNewlines(b, 0);
    assert '\r' !in b;
    TrimIsSlice(c);
    TrimIsTrimmed(c);
    var i, j :| 0 <= i <= j <= |c| && Trim(c) == c[i..j];
    SliceKeepsShape(c, i, j);
  }

  lemma SliceKeepsShape(s: string, i: nat, j: nat)
    requires i <= j <= |s|
    requires '\r' !in s && '\t' !in s && NoDoubleSpace(s) && NoTripleNewline(s)
    ensures var t := s[i..j]; '\r' !in t && '\t' !in t && NoDoubleSpace(t) && NoTripleNewline(t)
  {
    var t := s[i..j];
    forall k | 0 <= k < |t| - 1 ensures !(t[k] == ' ' && t[k + 1] == ' ') {
      assert t[k] == s[i + k] && t[k + 1] == s[i + k + 1];
    }
    forall k | 0 <= k < |t| - 2 ensures !(t[k] == '\n' && t[k + 1] == '\n' && t[k + 2] == '\n') {
      assert t[k] == s[i + k] && t[k + 1] == s[i + k + 1] && t[k + 2] == s[i + k + 2];
    }
  }

  /** Normalised text is left unchanged by `normalizeText`. */
  lemma NormalizeTextFixesNormalized(s: string)
    requires Normalized(s)
    ensures NormalizeText(s) == s
  {
    RemoveCRNoop(s);
    CollapseBlanksNoop(s, false);
    CapNewlinesNoop(s, 0);
    TrimOfTrimmed(s);
  }

  /** Applying `normalizeText` twice is the same as applying it once. */
  lemma NormalizeTextIdempotent(t: string)
    ensures NormalizeText(NormalizeText(t)) == NormalizeText(t)
  {
    NormalizeTextIsNormalized(t);
    NormalizeTextFixesNormalized(NormalizeText(t));
  }

  lemma {:induction false} RemoveCRNoop(s: string)
    requires '\r' !in s
    ensures RemoveCR(s) == s
  {
    if s != [] {
      RemoveCRNoop(s[1..]);
      assert [s[0]] + s[1..] == s;
    }
  }

  lemma {:induction false} CollapseBlanksNoop(s: string, inRun: bool)
    requires '\t' !in s && NoDoubleSpace(s)
    requires inRun ==> s == [] || s[0] != ' '
    ensures CollapseBlanks(s, inRun) == s
  {
    if s != [] {
      assert [s[0]] + s[1..] == s;
      if IsBlank(s[0]) {
        assert |s| > 1 ==> s[1..][0] == s[1];
        CollapseBlanksNoop(s[1..], true);
      } else {
        CollapseBlanksNoop(s[1..], false);
      }
    }
  }

  lemma {:induction false} CapNewlinesNoop(s: string, run: nat)
    requires NoTripleNewline(s) && run <= 2
    requires run == 1 ==> !(|s| >= 2 && s[0] == '\n' && s[1] == '\n')
    requires run == 2 ==> s == [] || s[0] != '\n'
    ensures CapNewlines(s, run) == s
  {
    if s != [] {
      assert [s[0]] + s[1..] == s;
      if s[0] == '\n' {
        assert |s| > 2 ==> !(s[1] == '\n' && s[2] == '\n');
        CapNewlinesNoop(s[1..], run + 1);
      } else {
        CapNewlinesNoop(s[1..], 0);
      }
    }
  }

  // ---------------------------------------------------------------- headings

  /** `.replace(/[^a-z]/gi, "")`: the ASCII letters only. */
  function LettersOnly(s: string): (r: string)
    ensures forall i :: 0 <= i < |r| ==> IsLetter(r[i])
    ensures |r| <= |s|
  {
    if s == [] then [] else (if IsLetter(s[0]) then [s[0]] else []) + LettersOnly(s[1..])
  }

  /** `normalizeHeading`: the ASCII letters of the line, lower-cased. */
  function NormalizeHeading(line: string): (r: string)
    ensures forall i :: 0 <= i < |r| ==> IsLowerLetter(r[i])
  {
    Lower(LettersOnly(line))
  }

  lemma {:induction false} LettersOnlyOfLetters(s: string)
    requires forall i :: 0 <= i < |s| ==> IsLetter(s[i])
    ensures LettersOnly(s) == s
  {
    if s != [] {
      LettersOnlyOfLetters(s[1..]);
      assert [s[0]] + s[1..] == s;
    }
  }

  /** A normalised heading is its own normal form. */
  lemma NormalizeHeadingIdempotent(line: string)
    ensures NormalizeHeading(NormalizeHeading(line)) == NormalizeHeading(line)
  {
    var n := NormalizeHeading(line);
    LettersOnlyOfLetters(n);
  }

  /** The section keys `mapKey` can produce besides `"_other"`. */
  const SectionKeys: set<string> := {
    "professionalsummary", "summary", "objective", "aboutme", "experience", "education",
    "projects", "skills", "certifications", "achievements", "publications", "interests",
    "contact"
  }

  /** `CANON_KEYS` */
  const CanonKeys: set<string> := {
    "professionalsummary", "summary", "objective", "profile", "aboutme", "experience",
    "workexperience", "employment", "education", "projects", "skills", "certifications",
    "achievements", "publications", "awards", "interests", "contact", "personaldetails"
  }

  /** `mapKey`: the canonical section key of a normalised heading. The rules are tried in
      order; the exact ones come first, then `PrefixKey`. */
  function MapKey(norm: string): (r: string)
    ensures r in SectionKeys || r == "_other"
  {
    if Contains(norm, "professionalsummary") then "professionalsummary"
    else if norm == "summary" then "summary"
    else if norm == "objective" then "objective"
    else if norm == "profile" || norm == "aboutme" then "aboutme"
    else if Contains(norm, "workexperience") || norm == "experience" || norm == "employment" then "experience"
    else if norm == "education" then "education"
    else PrefixKey(norm)
  }

  /** The prefix rules of `mapKey`. */
  function PrefixKey(norm: string): (r: string)
    ensures r in SectionKeys || r == "_other"
  {
    if StartsWith(norm, "project") then "projects"
    else if StartsWith(norm, "skill") then "skills"
    else if StartsWith(norm, "certification") then "certifications"
    else if StartsWith(norm, "achievement") || StartsWith(norm, "award") then "achievements"
    else if StartsWith(norm, "publication") then "publications"
    else if StartsWith(norm, "interest") then "interests"
    else if StartsWith(norm, "contact") || StartsWith(norm, "personaldetail") then "contact"
    else "_other"
  }

  /** `p` does not start `s` when they differ at some position both have. */
  lemma NotStartsWith(s: string, p: string, k: nat)
    requires k < |s| && k < |p| && s[k] != p[k]
    ensures !StartsWith(s, p)
  {
    if |p| <= |s| {
      assert s[..|p|][k] == s[k];
    }
  }

  /** Two strings that differ at a position both have are different. */
  lemma Differ(s: string, t: string, k: nat)
    requires k < |s| && k < |t| && s[k] != t[k]
    ensures s != t
  {
  }

  /** A string of the same length as `p` contains it only by being it. */
  lemma ContainsSameLength(s: string, p: string)
    requires |s| == |p| && s != p
    ensures !Contains(s, p)
  {
    assert s[..|p|] == s;
    if s != [] {
      assert |s[1..]| < |p|;
    }
  }

  /** The exact rules of `mapKey` on the canonical headings they cover; among them the
      synonyms `profile`/`aboutme` and `experience`/`workexperience`/`employment`. */
  lemma MapKeyExactRules1()
    ensures MapKey("professionalsummary") == "professionalsummary"
    ensures MapKey("summary") == "summary"
    ensures MapKey("objective") == "objective"
    ensures MapKey("profile") == "aboutme"
    ensures MapKey("aboutme") == "aboutme"
  {
    assert StartsWith("professionalsummary", "professionalsummary");
  }

  lemma MapKeyExactRules2()
    ensures MapKey("experience") == "experience"
    ensures MapKey("workexperience") == "experience"
  {
    assert StartsWith("workexperience", "workexperience");
  }

  /** A heading past the summary-like rules meets the experience and education rules. */
  lemma PastSummaryRules(norm: string)
    requires !Contains(norm, "professionalsummary")
    requires norm != "summary" && norm != "objective" && norm != "profile" && norm != "aboutme"
    ensures norm == "employment" ==> MapKey(norm) == "experience"
    ensures norm == "education" ==> MapKey(norm) == "education"
  {
  }

  lemma MapKeyExactRules3()
    ensures MapKey("employment") == "experience"
  {
    PastSummaryRules("employment");
  }

  lemma MapKeyExactRules4()
    ensures MapKey("education") == "education"
  {
    Differ("education", "objective", 0);
    PastSummaryRules("education");
  }

  /** The prefix rules on the remaining canonical headings. */
  lemma PrefixKeyRules1()
    ensures PrefixKey("projects") == "projects"
    ensures PrefixKey("skills") == "skills"
    ensures PrefixKey("certifications") == "certifications"
    ensures PrefixKey("achievements") == "achievements"
    ensures PrefixKey("awards") == "achievements"
  {
    assert StartsWith("projects", "project");
    assert StartsWith("skills", "skill");
    NotStartsWith("certifications", "project", 0);
    NotStartsWith("certifications", "skill", 0);
    assert StartsWith("certifications", "certification");
    NotStartsWith("achievements", "project", 0);
    NotStartsWith("achievements", "skill", 0);
    assert StartsWith("achievements", "achievement");
    NotStartsWith("awards", "skill", 0);
    assert StartsWith("awards", "award");
  }

  lemma PrefixKeyRules2()
    ensures PrefixKey("publications") == "publications"
    ensures PrefixKey("interests") == "interests"
    ensures PrefixKey("contact") == "contact"
    ensures PrefixKey("personaldetails") == "contact"
  {
    NotStartsWith("publications", "project", 1);
    NotStartsWith("publications", "skill", 0);
    NotStartsWith("publications", "achievement", 0);
    NotStartsWith("publications", "award", 0);
    assert StartsWith("publications", "publication");
    NotStartsWith("interests", "project", 0);
    NotStartsWith("interests", "skill", 0);
    NotStartsWith("interests", "award", 0);
    assert StartsWith("interests", "interest");
    NotStartsWith("contact", "project", 0);
    NotStartsWith("contact", "skill", 0);
    NotStartsWith("contact", "award", 0);
    assert StartsWith("contact", "contact");
    NotStartsWith("personaldetails", "project", 1);
    NotStartsWith("personaldetails", "skill", 0);
    NotStartsWith("personaldetails", "certification", 0);
    NotStartsWith("personaldetails", "achievement", 0);
    NotStartsWith("personaldetails", "award", 0);
    NotStartsWith("personaldetails", "publication", 1);
    NotStartsWith("personaldetails", "interest", 0);
    NotStartsWith("personaldetails", "contact", 0);
    assert StartsWith("personaldetails", "personaldetail");
  }

  /** A heading that none of the exact rules matches is left to the prefix rules. */
  lemma FallsThrough(norm: string)
    requires !Contains(norm, "professionalsummary") && !Contains(norm, "workexperience")
    requires norm != "summary" && norm != "objective" && norm != "profile" && norm != "aboutme"
    requires norm != "experience" && norm != "employment" && norm != "education"
    ensures MapKey(norm) == PrefixKey(norm)
  {
  }

  /** None of the exact rules applies to these headings. */
  lemma ExactRulesPass1()
    ensures MapKey("projects") == PrefixKey("projects")
    ensures MapKey("skills") == PrefixKey("skills")
  {
    FallsThrough("projects");
    FallsThrough("skills");
  }

  lemma ExactRulesPass2()
    ensures MapKey("certifications") == PrefixKey("certifications")
  {
    ContainsSameLength("certifications", "workexperience");
    FallsThrough("certifications");
  }

  lemma ExactRulesPass3()
    ensures MapKey("awards") == PrefixKey("awards")
    ensures MapKey("publications") == PrefixKey("publications")
  {
    FallsThrough("awards");
    FallsThrough("publications");
  }

  lemma ExactRulesPass4()
    ensures MapKey("interests") == PrefixKey("interests")
  {
    Differ("interests", "objective", 0);
    Differ("interests", "education", 0);
    FallsThrough("interests");
  }

  lemma ExactRulesPass5()
    ensures MapKey("personaldetails") == PrefixKey("personaldetails")
  {
    NotStartsWith("personaldetails", "workexperience", 0);
    ContainsSameLength("personaldetails"[1..], "workexperience");
    assert !Contains("personaldetails", "workexperience");
    FallsThrough("personaldetails");
  }

  lemma ExactRulesPass6()
    ensures MapKey("achievements") == PrefixKey("achievements")
  {
    FallsThrough("achievements");
  }

  lemma ExactRulesPass7()
    ensures MapKey("contact") == PrefixKey("contact")
  {
    Differ("contact", "summary", 0);
    Differ("contact", "profile", 0);
    Differ("contact", "aboutme", 0);
    FallsThrough("contact");
  }

  /** The canonical headings the exact rules of `mapKey` cover. */
  const ExactHeadings: set<string> := {
    "professionalsummary", "summary", "objective", "profile", "aboutme", "experience",
    "workexperience", "employment", "education"
  }

  /** The canonical headings left to the prefix rules. */
  const PrefixHeadings: set<string> := {
    "projects", "skills", "certifications", "achievements", "awards", "publications",
    "interests", "contact", "personaldetails"
  }

  lemma ExactHeadingsMapToKeys(norm: string)
    requires norm in ExactHeadings
    ensures MapKey(norm) in SectionKeys
  {
    if norm == "professionalsummary" {
      MapKeyExactRules1();
    } else if norm == "summary" {
      MapKeyExactRules1();
    } else if norm == "objective" {
      MapKeyExactRules1();
    } else if norm == "profile" {
      MapKeyExactRules1();
    } else if norm == "aboutme" {
      MapKeyExactRules1();
    } else if norm == "experience" {
      MapKeyExactRules2();
    } else if norm == "workexperience" {
      MapKeyExactRules2();
    } else if norm == "employment" {
      MapKeyExactRules3();
    } else if norm == "education" {
      MapKeyExactRules4();
    }
  }

  lemma PrefixHeadingsMapToKeys(norm: string)
    requires norm in PrefixHeadings
    ensures MapKey(norm) in SectionKeys
  {
    if norm == "projects" {
      PrefixKeyRules1();
      ExactRulesPass1();
    } else if norm == "skills" {
      PrefixKeyRules1();
      ExactRulesPass1();
    } else if norm == "certifications" {
      PrefixKeyRules1();
      ExactRulesPass2();
    } else if norm == "achievements" {
      PrefixKeyRules1();
      ExactRulesPass6();
    } else if norm == "awards" {
      PrefixKeyRules1();
      ExactRulesPass3();
    } else if norm == "publications" {
      PrefixKeyRules2();
      ExactRulesPass3();
    } else if norm == "interests" {
      PrefixKeyRules2();
      ExactRulesPass4();
    } else if norm == "contact" {
      PrefixKeyRules2();
      ExactRulesPass7();
    } else if norm == "personaldetails" {
      PrefixKeyRules2();
      ExactRulesPass5();
    }
  }

  // ---------------------------------------------------------------- extractSections

  /** A section: its key and its raw lines. */
  datatype Section = Section(title: string, content: seq<string>)

  /** How the loop of `extractSections` reads one line: a heading with its key, or a line
      of the open section. */
  datatype LineKind = Heading(key: string) | Body(text: string)

  /** The heading test of `extractSections`: the normalised line is non-empty and either a
      canonical heading or mapped to a key. */
  function Classify(line: string): LineKind
  {
    var norm := NormalizeHeading(Trim(line));
    if norm != [] && (norm in CanonKeys || MapKey(norm) != "_other") then Heading(MapKey(norm))
    else Body(line)
  }

  function ClassifyAll(lines: seq<string>): (r: seq<LineKind>)
    ensures |r| == |lines|
  {
    seq(|lines|, i requires 0 <= i < |lines| => Classify(lines[i]))
  }

  /** Every canonical heading maps to a section key, so the `CANON_KEYS` test of
      `extractSections` admits no heading that `mapKey` alone would not. */
  lemma CanonKeysMapToKeys(norm: string)
    requires norm in CanonKeys
    ensures MapKey(norm) in SectionKeys
  {
    if norm in ExactHeadings {
      ExactHeadingsMapToKeys(norm);
    } else {
      assert norm in PrefixHeadings;
      PrefixHeadingsMapToKeys(norm);
    }
  }

  /** Each section key maps to itself, so `MapKey` is idempotent on its results. */
  lemma MapKeyFixesKeys(k: string)
    requires k in SectionKeys
    ensures MapKey(k) == k
  {
    if k == "professionalsummary" {
      MapKeyExactRules1();
    } else if k == "summary" {
      MapKeyExactRules1();
    } else if k == "objective" {
      MapKeyExactRules1();
    } else if k == "aboutme" {
      MapKeyExactRules1();
    } else if k == "experience" {
      MapKeyExactRules2();
    } else if k == "education" {
      MapKeyExactRules4();
    } else if k == "projects" {
      PrefixKeyRules1();
      ExactRulesPass1();
    } else if k == "skills" {
      PrefixKeyRules1();
      ExactRulesPass1();
    } else if k == "certifications" {
      PrefixKeyRules1();
      ExactRulesPass2();
    } else if k == "achievements" {
      PrefixKeyRules1();
      ExactRulesPass6();
    } else if k == "publications" {
      PrefixKeyRules2();
      ExactRulesPass3();
    } else if k == "interests" {
      PrefixKeyRules2();
      ExactRulesPass4();
    } else if k == "contact" {
      PrefixKeyRules2();
      ExactRulesPass7();
    }
  }

  lemma OtherIsNotAKey()
    ensures "_other" !in SectionKeys
  {
  }

  /** A line is a heading exactly when its normalised form is non-empty and maps to a key
      (the canonical headings all do); the key of a heading is a section key, and any other
      line is kept as it is. */
  lemma ClassifyIff(line: string)
    ensures var norm := NormalizeHeading(Trim(line));
      Classify(line).Heading? <==> norm != [] && MapKey(norm) != "_other"
    ensures Classify(line).Heading? ==> Classify(line).key in SectionKeys
    ensures Classify(line).Body? ==> Classify(line).text == line
  {
    var norm := NormalizeHeading(Trim(line));
    OtherIsNotAKey();
    if norm in CanonKeys {
      CanonKeysMapToKeys(norm);
    }
  }

  /** A heading line names a key. */
  predicate KeysAreSectionKeys(ks: seq<LineKind>)
  {
    forall i :: 0 <= i < |ks| && ks[i].Heading? ==> ks[i].key in SectionKeys
  }

  lemma ClassifyAllKeys(lines: seq<string>)
    ensures KeysAreSectionKeys(ClassifyAll(lines))
  {
    forall i | 0 <= i < |lines| && ClassifyAll(lines)[i].Heading?
      ensures ClassifyAll(lines)[i].key in SectionKeys
    {
      ClassifyIff(lines[i]);
    }
  }

  /** The section pushed for `cur` when it is closed: none when it has no lines. */
  function Flush(cur: Section): seq<Section>
  {
    if |cur.content| > 0 then [cur] else []
  }

  /** The sections the loop of `extractSections` pushes while reading the classified `ks`
      with `cur` open, including the final push. */
  function Segment(ks: seq<LineKind>, cur: Section): seq<Section>
  {
    if ks == [] then Flush(cur)
    else match ks[0]
      case Heading(k) => Flush(cur) + Segment(ks[1..], Section(k, []))
      case Body(t) => Segment(ks[1..], Section(cur.title, cur.content + [t]))
  }

  /** The section open before the first line. */
  const StartSection := Section("_start", [])

  /** What is stored for one pushed section: its key and its normalised text. */
  datatype Entry = Entry(key: string, text: string)

  function EntryOf(s: Section): Entry
  {
    Entry(s.title, NormalizeText(Join(s.content, "\n")))
  }

  function Entries(secs: seq<Section>): (r: seq<Entry>)
    ensures |r| == |secs|
  {
    seq(|secs|, i requires 0 <= i < |secs| => EntryOf(secs[i]))
  }

  /** One step of the accumulation into `out`: replace a missing or empty entry, otherwise
      append after a blank line. */
  function Merge(out: map<string, string>, e: Entry): map<string, string>
  {
    if e.key !in out || out[e.key] == [] then out[e.key := e.text]
    else out[e.key := out[e.key] + "\n\n" + e.text]
  }

  /** The map `extractSections` returns for the pushed entries, in order. */
  function Collect(es: seq<Entry>): map<string, string>
  {
    if es == [] then map[] else Merge(Collect(es[..|es| - 1]), es[|es| - 1])
  }

  /** The sections of a text, `extractSections(raw)`. */
  function SectionsOf(raw: string): map<string, string>
  {
    Collect(Entries(Segment(ClassifyAll(SplitBy(raw, Exactly('\n'))), StartSection)))
  }

  /** One step of the segmentation loop. */
  lemma SegmentStep(ks: seq<LineKind>, i: nat, cur: Section)
    requires i < |ks|
    ensures Segment(ks[i..], cur) == match ks[i]
      case Heading(k) => Flush(cur) + Segment(ks[i + 1..], Section(k, []))
      case Body(t) => Segment(ks[i + 1..], Section(cur.title, cur.content + [t]))
  {
    assert ks[i..][0] == ks[i];
    assert ks[i..][1..] == ks[i + 1..];
  }

  /** One step of the accumulation loop. */
  lemma CollectStep(es: seq<Entry>, j: nat)
    requires j < |es|
    ensures Collect(es[..j + 1]) == Merge(Collect(es[..j]), es[j])
  {
    assert es[..j + 1][..j] == es[..j];
  }

  /** The heading test and key of one line, as the loop body of `extractSections`
      computes them. */
  method ClassifyLine(line: string) returns (kind: LineKind)
    ensures kind == Classify(line)
  {
    var trimmed := Trim(line);
    var norm := NormalizeHeading(trimmed);
    if norm != [] && (norm in CanonKeys || MapKey(norm) != "_other") {
      kind := Heading(MapKey(norm));
    } else {
      kind := Body(line);
    }
  }

  lemma WholeSuffix<T>(s: seq<T>)
    ensures s[0..] == s
  {
  }

  lemma EmptyAppend<T>(s: seq<T>)
    ensures [] + s == s
  {
  }

  /** The second loop of `extractSections`: each pushed section's lines are joined,
      normalised and merged into the result under its key. */
  method MergeSections(sections: seq<Section>) returns (out: map<string, string>)
    ensures out == Collect(Entries(sections))
  {
    ghost var entries := Entries(sections);
    out := map[];
    var j := 0;
    while j < |sections|
      invariant 0 <= j <= |sections|
      invariant out == Collect(entries[..j])
    {
      var s := sections[j];
      CollectStep(entries, j);
      var text := NormalizeText(Join(s.content, "\n"));
      assert entries[j] == Entry(s.title, text);
      if s.title !in out || out[s.title] == [] {
        out := out[s.title := text];
      } else {
        out := out[s.title := out[s.title] + "\n\n" + text];
      }
      j := j + 1;
    }
    assert entries[..|sections|] == entries;
  }

  /** `extractSections` */
  method ExtractSections(raw: string) returns (out: map<string, string>)
    ensures out == SectionsOf(raw)
  {
    var lines := SplitBy(raw, Exactly('\n'));
    ghost var kinds := ClassifyAll(lines);
    var sections: seq<Section> := [];
    var current := StartSection;
    var i := 0;
    ghost var whole := Segment(kinds, StartSection);
    WholeSuffix(kinds);
    EmptyAppend(whole);
    while i < |lines|
      invariant 0 <= i <= |lines|
      invariant sections + Segment(kinds[i..], current) == whole
    {
      var kind := ClassifyLine(lines[i]);
      assert kind == kinds[i];
      SegmentStep(kinds, i, current);
      match kind {
        case Heading(k) =>
          var next := Section(k, []);
          ghost var tail := Segment(kinds[i + 1..], next);
          assert Segment(kinds[i..], current) == Flush(current) + tail;
          if |current.content| > 0 {
            assert sections + ([current] + tail) == (sections + [current]) + tail;
            sections := sections + [current];
          } else {
            EmptyAppend(tail);
          }
          current := next;
        case Body(line) =>
          current := current.(content := current.content + [line]);
      }
      i := i + 1;
    }
    assert kinds[i..] == [];
    if |current.content| > 0 {
      sections := sections + [current];
    }
    assert sections == whole;
    out := MergeSections(sections);
  }

  /** All lines of all sections, in order. */
  function AllContent(secs: seq<Section>): seq<string>
  {
    if secs == [] then [] else secs[0].content + AllContent(secs[1..])
  }

  /** The lines that are not headings, in order. */
  function BodyLines(ks: seq<LineKind>): seq<string>
  {
    if ks == [] then []
    else (if ks[0].Body? then [ks[0].text] else []) + BodyLines(ks[1..])
  }

  lemma {:induction false} AllContentAppend(a: seq<Section>, b: seq<Section>)
    ensures AllContent(a + b) == AllContent(a) + AllContent(b)
  {
    if a != [] {
      assert (a + b)[0] == a[0];
      assert (a + b)[1..] == a[1..] + b;
      AllContentAppend(a[1..], b);
    } else {
      assert a + b == b;
    }
  }

  /** The sections hold exactly the non-heading lines in their original order: heading
      lines, and the text on them, never enter a section, and no other line is lost. */
  lemma {:induction false} SegmentKeepsBody(ks: seq<LineKind>, cur: Section)
    ensures AllContent(Segment(ks, cur)) == cur.content + BodyLines(ks)
  {
    if ks == [] {
      assert AllContent(Flush(cur)) == cur.content;
    } else {
      match ks[0]
      case Heading(k) =>
        SegmentKeepsBody(ks[1..], Section(k, []));
        AllContentAppend(Flush(cur), Segment(ks[1..], Section(k, [])));
        assert AllContent(Flush(cur)) == cur.content;
      case Body(t) =>
        SegmentKeepsBody(ks[1..], Section(cur.title, cur.content + [t]));
    }
  }

  /** No pushed section is empty (a heading directly followed by a heading yields nothing),
      and every title is the opening one or a section key. */
  lemma {:induction false} SegmentShape(ks: seq<LineKind>, cur: Section)
    requires KeysAreSectionKeys(ks)
    requires cur.title == "_start" || cur.title in SectionKeys
    ensures forall s :: s in Segment(ks, cur) ==>
      |s.content| > 0 && (s.title == "_start" || s.title in SectionKeys)
  {
    if ks != [] {
      assert KeysAreSectionKeys(ks[1..]) by {
        forall i | 0 <= i < |ks[1..]| && ks[1..][i].Heading? ensures ks[1..][i].key in SectionKeys {
          assert ks[1..][i] == ks[i + 1];
        }
      }
      match ks[0]
      case Heading(k) =>
        assert k in SectionKeys;
        SegmentShape(ks[1..], Section(k, []));
      case Body(t) =>
        SegmentShape(ks[1..], Section(cur.title, cur.content + [t]));
    }
  }

  /** Lines before the first heading stay in the open section. */
  lemma {:induction false} SegmentPrefix(pre: seq<string>, rest: seq<LineKind>, cur: Section)
    ensures Segment(Bodies(pre) + rest, cur) == Segment(rest, Section(cur.title, cur.content + pre))
  {
    if pre == [] {
      assert Bodies(pre) + rest == rest;
      assert cur.content + pre == cur.content;
    } else {
      assert (Bodies(pre) + rest)[0] == Body(pre[0]);
      assert (Bodies(pre) + rest)[1..] == Bodies(pre[1..]) + rest;
      SegmentPrefix(pre[1..], rest, Section(cur.title, cur.content + [pre[0]]));
      assert cur.content + [pre[0]] + pre[1..] == cur.content + pre;
    }
  }

  /** Lines read as lines of the open section. */
  function Bodies(pre: seq<string>): (r: seq<LineKind>)
    ensures |r| == |pre|
  {
    seq(|pre|, i requires 0 <= i < |pre| => Body(pre[i]))
  }

  /** So the text before the first heading is the `_start` section. */
  lemma StartSectionIsPrefix(pre: seq<string>, k: string, rest: seq<LineKind>)
    requires pre != []
    ensures Segment(Bodies(pre) + [Heading(k)] + rest, StartSection)
         == [Section("_start", pre)] + Segment(rest, Section(k, []))
  {
    assert Bodies(pre) + [Heading(k)] + rest == Bodies(pre) + ([Heading(k)] + rest);
    var hs := [Heading(k)] + rest;
    SegmentPrefix(pre, hs, StartSection);
    assert StartSection.content + pre == pre;
    assert hs[0] == Heading(k) && hs[1..] == rest;
  }

  /** The texts of the entries keyed `k`, in order. */
  function TextsFor(es: seq<Entry>, k: string): seq<string>
  {
    if es == [] then []
    else TextsFor(es[..|es| - 1], k) + (if es[|es| - 1].key == k then [es[|es| - 1].text] else [])
  }

  /** The texts from the first non-empty one on. */
  function DropLeadingEmpty(ts: seq<string>): (r: seq<string>)
    ensures r == [] || r[0] != []
  {
    if ts == [] then [] else if ts[0] == [] then DropLeadingEmpty(ts[1..]) else ts
  }

  lemma {:induction false} DropLeadingEmptySnoc(ts: seq<string>, t: string)
    ensures DropLeadingEmpty(ts + [t]) ==
      if DropLeadingEmpty(ts) == [] then DropLeadingEmpty([t]) else DropLeadingEmpty(ts) + [t]
  {
    if ts == [] {
      assert ts + [t] == [t];
    } else {
      assert (ts + [t])[1..] == ts[1..] + [t];
      DropLeadingEmptySnoc(ts[1..], t);
    }
  }

  lemma {:induction false} JoinSnoc(xs: seq<string>, t: string, sep: string)
    requires xs != []
    ensures Join(xs + [t], sep) == Join(xs, sep) + sep + t
  {
    if |xs| == 1 {
      assert (xs + [t])[1..] == [t];
    } else {
      assert (xs + [t])[1..] == xs[1..] + [t];
      JoinSnoc(xs[1..], t, sep);
    }
  }

  lemma JoinHeadNonEmpty(xs: seq<string>, sep: string)
    requires xs != [] && xs[0] != []
    ensures Join(xs, sep) != []
  {
  }

  /** The map holds a key exactly when some entry has that key, and its value is the texts
      of those entries joined by blank lines, from the first non-empty one on (an empty
      earlier text is replaced, a non-empty one is appended to). */
  lemma {:induction false} CollectValue(es: seq<Entry>, k: string)
    ensures (k in Collect(es)) == (TextsFor(es, k) != [])
    ensures k in Collect(es) ==> Collect(es)[k] == Join(DropLeadingEmpty(TextsFor(es, k)), "\n\n")
  {
    if es != [] {
      var init := es[..|es| - 1];
      var e := es[|es| - 1];
      CollectValue(init, k);
      var c := Collect(init);
      assert Collect(es) == Merge(c, e);
      if e.key == k {
        var ts := TextsFor(init, k);
        var d := DropLeadingEmpty(ts);
        assert TextsFor(es, k) == ts + [e.text];
        DropLeadingEmptySnoc(ts, e.text);
        if k in c && c[k] != [] {
          assert d == [] ==> Join(d, "\n\n") == [];
          JoinSnoc(d, e.text, "\n\n");
        } else {
          assert d == [] by {
            if d != [] { JoinHeadNonEmpty(d, "\n\n"); }
          }
          assert Join(DropLeadingEmpty([e.text]), "\n\n") == e.text by {
            assert [e.text][1..] == [];
          }
        }
      } else {
        assert TextsFor(es, k) == TextsFor(init, k);
      }
    }
  }

  // ---------------------------------------------------------------- pickSummaryLike

  /** The first key, in order, whose entry is present and non-empty. */
  function FirstTruthy(m: map<string, string>, keys: seq<string>): (r: string)
    ensures r != [] ==> exists i :: (0 <= i < |keys| && keys[i] in m && m[keys[i]] == r &&
      forall j :: 0 <= j < i ==> keys[j] !in m || m[keys[j]] == [])
    ensures r == [] ==> forall i :: 0 <= i < |keys| ==> keys[i] !in m || m[keys[i]] == []
  {
    if keys == [] then []
    else if keys[0] in m && m[keys[0]] != [] then m[keys[0]]
    else
      var r := FirstTruthy(m, keys[1..]);
      assert r != [] ==> exists i :: (1 <= i < |keys| && keys[i] in m && m[keys[i]] == r &&
        forall j :: 0 <= j < i ==> keys[j] !in m || m[keys[j]] == []) by {
        if r != [] {
          var i :| (0 <= i < |keys[1..]| && keys[1..][i] in m && m[keys[1..][i]] == r &&
            forall j :: 0 <= j < i ==> keys[1..][j] !in m || m[keys[1..][j]] == []);
          assert keys[i + 1] == keys[1..][i];
          forall j | 0 <= j < i + 1 ensures keys[j] !in m || m[keys[j]] == [] {
            if j > 0 { assert keys[j] == keys[1..][j - 1]; }
          }
        }
      }
      r
  }

  const SummaryKeys: seq<string> := ["professionalsummary", "summary", "objective", "aboutme"]

  /** `pickSummaryLike` */
  function PickSummaryLike(sections: map<string, string>): string
  {
    FirstTruthy(sections, SummaryKeys)
  }

  // ---------------------------------------------------------------- generateFallbackSummary

  /** `s` matches `/p/i` for a lower-case literal `p`. */
  predicate ContainsIgnoringCase(s: string, p: string)
  {
    Contains(Lower(s), p)
  }

  /** The skip patterns: any line matching one of them is left out. */
  predicate IsSkipped(l: string)
  {
    || Contains(l, "@")
    || ContainsIgnoringCase(l, "http")
    || ContainsIgnoringCase(l, "www.")
    || IsPhone(l)
    || ContainsIgnoringCase(l, "address")
    || ContainsIgnoringCase(l, "linkedin")
    || ContainsIgnoringCase(l, "github")
    || ContainsIgnoringCase(l, "portfolio")
    || ContainsIgnoringCase(l, "email")
  }

  /** `.map((l) => l.trim())` */
  function TrimEach(ps: seq<string>): (r: seq<string>)
    ensures |r| == |ps|
    ensures forall i :: 0 <= i < |r| ==> Trimmed(r[i])
  {
    if ps == [] then [] else (TrimIsTrimmed(ps[0]); [Trim(ps[0])] + TrimEach(ps[1..]))
  }

  /** The kept lines: the non-empty ones matching no skip pattern. */
  function KeepLines(ls: seq<string>): (r: seq<string>)
    ensures forall i :: 0 <= i < |r| ==> r[i] != [] && !IsSkipped(r[i]) && r[i] in ls
  {
    if ls == [] then []
    else (if ls[0] != [] && !IsSkipped(ls[0]) then [ls[0]] else []) + KeepLines(ls[1..])
  }

  /** The lines the fallback summary reads: trimmed, non-empty, and matching no skip
      pattern. */
  function KeptLines(raw: string): (r: seq<string>)
    ensures forall i :: 0 <= i < |r| ==> r[i] != [] && Trimmed(r[i])
  {
    var ts := TrimEach(SplitBy(raw, Exactly('\n')));
    KeepLinesKeepsTrimmed(ts);
    KeepLines(ts)
  }

  lemma {:induction false} KeepLinesKeepsTrimmed(ls: seq<string>)
    requires forall i :: 0 <= i < |ls| ==> Trimmed(ls[i])
    ensures forall i :: 0 <= i < |KeepLines(ls)| ==> Trimmed(KeepLines(ls)[i])
  {
    if ls != [] {
      KeepLinesKeepsTrimmed(ls[1..]);
    }
  }

  /** The first paragraph: the first 12 kept lines joined by spaces. */
  function FirstParagraph(raw: string): (r: string)
    ensures Trimmed(r)
  {
    var lines := KeptLines(raw);
    var kept := Take(lines, 12);
    JoinTrimmedPieces(kept);
    Join(kept, " ")
  }

  /** The first `maxWords` pieces of `split(/\s+/)`, joined by spaces and trimmed. */
  function FirstWords(para: string, maxWords: nat): string
  {
    var words := RegexSplitWs(para);
    Trim(Join(Take(words, maxWords), " "))
  }

  /** `generateFallbackSummary(raw, maxWords)` */
  function FallbackSummary(raw: string, maxWords: nat): string
  {
    FirstWords(FirstParagraph(raw), maxWords)
  }

  /** Trimmed non-empty pieces joined by spaces give a trimmed text. */
  lemma {:induction false} JoinTrimmedPieces(ls: seq<string>)
    requires forall i :: 0 <= i < |ls| ==> ls[i] != [] && Trimmed(ls[i])
    ensures Trimmed(Join(ls, " "))
    ensures ls != [] ==> Join(ls, " ") != []
  {
    if |ls| > 1 {
      JoinTrimmedPieces(ls[1..]);
      var t := Join(ls[1..], " ");
      var j := ls[0] + " " + t;
      assert j[0] == ls[0][0];
      assert j[|j| - 1] == t[|t| - 1];
    }
  }

  /** Of a trimmed paragraph, `FirstWords` keeps exactly its first `maxWords` words. */
  lemma FirstWordsOfTrimmed(para: string, maxWords: nat)
    requires Trimmed(para)
    ensures Words(FirstWords(para, maxWords)) == Take(Words(para), maxWords)
  {
    var words := RegexSplitWs(para);
    if para == [] {
      assert SplitBy(para, AnyWhitespace) == [[]];
      assert Join(Take(words, maxWords), " ") == [];
      assert Words([]) == NonEmpty([[]]) == [];
    } else {
      RegexSplitOfTrimmed(para);
      WordsAreWords(para);
      var prefix := Take(words, maxWords);
      JoinOfWordsTrimmed(prefix);
      TrimOfTrimmed(Join(prefix, " "));
      WordsOfJoin(prefix);
    }
  }

  /** The fallback summary is the first `maxWords` words of the first paragraph, joined by
      single spaces: in particular it has at most `maxWords` words. */
  lemma FallbackSummaryWords(raw: string, maxWords: nat)
    ensures Words(FallbackSummary(raw, maxWords)) == Take(Words(FirstParagraph(raw)), maxWords)
    ensures Words(FallbackSummary(raw, maxWords)) == Take(WordsOfAll(Take(KeptLines(raw), 12)), maxWords)
    ensures |Words(FallbackSummary(raw, maxWords))| <= maxWords
  {
    FirstWordsOfTrimmed(FirstParagraph(raw), maxWords);
    FirstParagraphWords(raw);
  }

  /** The words of the first paragraph are those of the first 12 kept lines, line by line;
      no later line contributes. */
  lemma FirstParagraphWords(raw: string)
    ensures Words(FirstParagraph(raw)) == WordsOfAll(Take(KeptLines(raw), 12))
    ensures |KeptLines(raw)| > 12 ==> Words(FirstParagraph(raw)) == WordsOfAll(KeptLines(raw)[..12])
  {
    WordsOfJoinedTexts(Take(KeptLines(raw), 12));
  }

  // ---------------------------------------------------------------- nameHeuristic

  /** `text.split(/\r?\n/).map((l) => l.trim()).filter(Boolean)`. Splitting at `\n` alone
      gives the same lines: a `\r` left before a newline is trimmed away (`TrimIgnoresCR`). */
  function TrimmedLines(text: string): (r: seq<string>)
    ensures forall i :: 0 <= i < |r| ==> r[i] != [] && Trimmed(r[i])
  {
    var ts := TrimEach(SplitBy(text, Exactly('\n')));
    NonEmptyKeepsTrimmed(ts);
    NonEmpty(ts)
  }

  lemma {:induction false} NonEmptyKeepsTrimmed(ps: seq<string>)
    requires forall i :: 0 <= i < |ps| ==> Trimmed(ps[i])
    ensures forall i :: 0 <= i < |NonEmpty(ps)| ==> Trimmed(NonEmpty(ps)[i])
  {
    if ps != [] {
      NonEmptyKeepsTrimmed(ps[1..]);
    }
  }

  lemma {:induction false} TrimStartSnocWs(p: string, c: char)
    requires IsWs(c)
    ensures TrimStart(p + [c]) == if TrimStart(p) == [] then [] else TrimStart(p) + [c]
  {
    if p == [] {
      assert [c][1..] == [];
    } else if IsWs(p[0]) {
      assert (p + [c])[1..] == p[1..] + [c];
      TrimStartSnocWs(p[1..], c);
    }
  }

  /** A white-space character at the end, such as the `\r` of a CRLF line end, does not
      change the trimmed line. */
  lemma TrimIgnoresCR(p: string)
    ensures Trim(p + ['\r']) == Trim(p)
  {
    TrimStartSnocWs(p, '\r');
    var t := TrimStart(p);
    if t != [] {
      assert (t + ['\r'])[..|t|] == t;
    }
  }

  /** `/^[A-Z][a-z]+$/` or `/^[A-Z]\.?$/` */
  predicate IsNameWord(w: string)
  {
    || (|w| >= 2 && IsUpper(w[0]) && forall i :: 1 <= i < |w| ==> IsLowerLetter(w[i]))
    || (|w| == 1 && IsUpper(w[0]))
    || (|w| == 2 && IsUpper(w[0]) && w[1] == '.')
  }

  /** The lines the first pass passes over. */
  predicate IsExcludedLine(line: string)
  {
    || |line| > 50
    || Contains(line, "@")
    || Contains(line, "http")
    || Contains(line, "www.")
    || Contains(Lower(line), "resume")
    || Contains(Lower(line), "curriculum")
    || (line != [] && IsDigit(line[0]))
    || Contains(line, ":")
  }

  /** The first-pass test: not excluded, and two to four name-like words. */
  predicate IsNameLine(line: string)
  {
    && !IsExcludedLine(line)
    && var ws := Words(line);
       2 <= |ws| <= 4 && forall i :: 0 <= i < |ws| ==> IsNameWord(ws[i])
  }

  /** The second-pass test. */
  predicate IsShortLine(l: string)
  {
    |l| <= 30 && !Contains(l, "@") && !Contains(Lower(l), "resume") && |SplitBy(l, Exactly(' '))| <= 4
  }

  /** The first element satisfying `p`, as `Array.prototype.find`. */
  function FindFirst(ls: seq<string>, p: string -> bool): (r: Option<string>)
    ensures r.Some? ==> exists i :: (0 <= i < |ls| && ls[i] == r.value && p(ls[i]) &&
      forall j :: 0 <= j < i ==> !p(ls[j]))
    ensures r.None? ==> forall i :: 0 <= i < |ls| ==> !p(ls[i])
  {
    if ls == [] then None
    else if p(ls[0]) then Some(ls[0])
    else
      var r := FindFirst(ls[1..], p);
      assert r.Some? ==> exists i :: (1 <= i < |ls| && ls[i] == r.value && p(ls[i]) &&
        forall j :: 0 <= j < i ==> !p(ls[j])) by {
        if r.Some? {
          var i :| (0 <= i < |ls[1..]| && ls[1..][i] == r.value && p(ls[1..][i]) &&
            forall j :: 0 <= j < i ==> !p(ls[1..][j]));
          assert ls[i + 1] == ls[1..][i];
          forall j | 0 <= j < i + 1 ensures !p(ls[j]) {
            if j > 0 { assert ls[j] == ls[1..][j - 1]; }
          }
        }
      }
      r
  }

  /** What `nameHeuristic(text)` returns. */
  function NameOf(text: string): string
  {
    var lines := TrimmedLines(text);
    match FindFirst(lines, IsNameLine)
    case Some(l) => l
    case None => FindFirst(lines, IsShortLine).GetOr("")
  }

  /** The first-pass test on one line, as the loop body of `nameHeuristic` computes it. */
  method NameLike(line: string) returns (b: bool)
    ensures b == IsNameLine(line)
  {
    b := false;
    var skip := IsExcludedLine(line);
    if !skip {
      var words := Words(line);
      if 2 <= |words| <= 4 {
        b := forall k :: 0 <= k < |words| ==> IsNameWord(words[k]);
      }
    }
  }

  /** One step of a search with `FindFirst`. */
  lemma FindFirstStep(ls: seq<string>, i: nat, p: string -> bool)
    requires i < |ls|
    ensures FindFirst(ls[i..], p) == if p(ls[i]) then Some(ls[i]) else FindFirst(ls[i + 1..], p)
  {
    assert ls[i..][0] == ls[i];
    assert ls[i..][1..] == ls[i + 1..];
  }

  /** `nameHeuristic`: the first name-like line, else the first short line, else `""`. */
  method NameHeuristic(text: string) returns (name: string)
    ensures name == NameOf(text)
  {
    var lines := TrimmedLines(text);
    var i := 0;
    while i < |lines|
      invariant 0 <= i <= |lines|
      invariant FindFirst(lines, IsNameLine) == FindFirst(lines[i..], IsNameLine)
    {
      FindFirstStep(lines, i, IsNameLine);
      var isName := NameLike(lines[i]);
      if isName {
        return lines[i];
      }
      i := i + 1;
    }
    return FindFirst(lines, IsShortLine).GetOr("");
  }

  /** The heuristic returns `""` or one of the trimmed lines: the first name-like one when
      there is one, otherwise the first short one. */
  lemma NameOfIsALine(text: string)
    ensures var n := NameOf(text); n == [] || (n in TrimmedLines(text) && Trimmed(n))
    ensures (exists i :: 0 <= i < |TrimmedLines(text)| && IsNameLine(TrimmedLines(text)[i])) ==>
      IsNameLine(NameOf(text))
    ensures (forall i :: 0 <= i < |TrimmedLines(text)| ==> !IsNameLine(TrimmedLines(text)[i])) ==>
      NameOf(text) == [] || IsShortLine(NameOf(text))
  {
  }

  // ---------------------------------------------------------------- extractResumeSummary

  /** What the document decoder produced: its text (`data.text || ""`), or an exception. */
  datatype Decoding = Decoded(text: string) | DecoderThrew

  datatype ResumeError =
    | UnsupportedFileType   // neither `.pdf` nor `.docx`
    | PdfUnreadable         // the PDF decoder threw; rethrown with a fixed message
    | DocxDecoderFailed     // the DOCX decoder threw; its error propagates
    | NoTextContent         // the normalised text is empty

  datatype ResumeFields = ResumeFields(name: string, email: string, phone: string, summary: string)

  /** `m?.[0]?.trim() || ""` */
  function TrimmedOrEmpty(m: Option<string>): string
  {
    match m
    case Some(t) => Trim(t)
    case None => ""
  }

  /** The fields read from the normalised text `raw`. */
  function FieldsOf(raw: string): ResumeFields
  {
    var picked := Trim(PickSummaryLike(SectionsOf(raw)));
    var summary := if picked == [] then FallbackSummary(raw, 120) else picked;
    ResumeFields(
      Trim(NameOf(raw)),
      TrimmedOrEmpty(MatchText(raw, IsEmail)),
      TrimmedOrEmpty(MatchText(raw, IsPhone)),
      summary)
  }

  /** What `extractResumeSummary(filePath)` produces when the decoder yields `decoding`. */
  function ResumeSummaryOf(filePath: string, decoding: Decoding): Result<ResumeFields, ResumeError>
  {
    var ext := Lower(Extname(filePath));
    if ext != ".pdf" && ext != ".docx" then Failure(UnsupportedFileType)
    else if decoding.DecoderThrew? then Failure(if ext == ".pdf" then PdfUnreadable else DocxDecoderFailed)
    else
      var raw := NormalizeText(decoding.text);
      if raw == [] then Failure(NoTextContent) else Success(FieldsOf(raw))
  }

  /** `extractResumeSummary`, after the decoder has run. */
  method ExtractResumeSummary(filePath: string, decoding: Decoding) returns (r: Result<ResumeFields, ResumeError>)
    ensures r == ResumeSummaryOf(filePath, decoding)
  {
    var ext := Lower(Extname(filePath));
    var raw := "";
    if ext == ".pdf" {
      if decoding.DecoderThrew? {
        return Failure(PdfUnreadable);
      }
      raw := decoding.text;
    } else if ext == ".docx" {
      if decoding.DecoderThrew? {
        return Failure(DocxDecoderFailed);
      }
      raw := decoding.text;
    } else {
      return Failure(UnsupportedFileType);
    }
    raw := NormalizeText(raw);
    if raw == [] {
      return Failure(NoTextContent);
    }
    var sections := ExtractSections(raw);
    var summary := Trim(PickSummaryLike(sections));
    if summary == [] {
      summary := FallbackSummary(raw, 120);
    }
    var email := TrimmedOrEmpty(MatchText(raw, IsEmail));
    var phone := TrimmedOrEmpty(MatchText(raw, IsPhone));
    var name := NameHeuristic(raw);
    name := Trim(name);
    return Success(ResumeFields(name, email, phone, summary));
  }

  /** The outcome: an unsupported extension is refused before decoding, a decoder failure
      is reported per type, a text that normalises to nothing is refused, and any other
      decoded text gives the fields of its normalised form. */
  lemma ResumeSummaryOutcomes(filePath: string, decoding: Decoding)
    ensures var ext := Lower(Extname(filePath)); var r := ResumeSummaryOf(filePath, decoding);
      && (r == Failure(UnsupportedFileType) <==> ext != ".pdf" && ext != ".docx")
      && (r == Failure(PdfUnreadable) <==> ext == ".pdf" && decoding.DecoderThrew?)
      && (r == Failure(DocxDecoderFailed) <==> ext == ".docx" && decoding.DecoderThrew?)
      && (r == Failure(NoTextContent) <==>
           (ext == ".pdf" || ext == ".docx") && decoding.Decoded? && NormalizeText(decoding.text) == [])
      && (r.Success? ==> decoding.Decoded? && r.value == FieldsOf(NormalizeText(decoding.text)))
  {
  }

  /** `m?.[0]?.trim() || ""` of a match whose text is trimmed and not empty is that text. */
  lemma TrimmedOrEmptyOfMatch(m: Option<string>)
    requires m.Some? ==> m.value != [] && Trimmed(m.value)
    ensures (TrimmedOrEmpty(m) == []) == m.None?
    ensures m.Some? ==> TrimmedOrEmpty(m) == m.value
  {
    if m.Some? {
      TrimOfTrimmed(m.value);
    }
  }

  /** The extracted fields: the e-mail and the phone are the leftmost matches of their
      patterns (or empty when there is none), the name is trimmed, and the summary is the
      first non-empty summary-like section, or the fallback when there is none. */
  lemma FieldsOfSpec(raw: string)
    ensures var f := FieldsOf(raw);
      && (f.email == [] <==> MatchText(raw, IsEmail).None?)
      && (f.email != [] ==> f.email == MatchText(raw, IsEmail).value && IsEmail(f.email))
      && (f.phone == [] <==> MatchText(raw, IsPhone).None?)
      && (f.phone != [] ==> f.phone == MatchText(raw, IsPhone).value && IsPhone(f.phone))
      && Trimmed(f.name)
      && (Trim(PickSummaryLike(SectionsOf(raw))) != [] ==> f.summary == Trim(PickSummaryLike(SectionsOf(raw))))
      && (Trim(PickSummaryLike(SectionsOf(raw))) == [] ==> f.summary == FallbackSummary(raw, 120))
  {
    TrimIsTrimmed(NameOf(raw));
    var em := MatchText(raw, IsEmail);
    if em.Some? {
      EmailIsTrimmed(em.value);
      assert 0 < IndexOf(em.value, '@') < |em.value|;
    }
    TrimmedOrEmptyOfMatch(em);
    var ph := MatchText(raw, IsPhone);
    if ph.Some? {
      PhoneIsTrimmed(ph.value);
    }
    TrimmedOrEmptyOfMatch(ph);
  }
}
