/**
 * Two rules both resume handlers apply to their inputs: the job title shown
 * on the resume, taken from the first line of the job description, and the
 * suggested file name, taken from the candidate's name.
 */
module ResumeFields {
  import opened Text

  const PdfTitleFallback: string := "LARGE LANGUAGE MODEL ENGINEER"
  const HtmlTitleFallback: string := "SOFTWARE ENGINEER"

  /** The first line of the job description with every `*` and `_` removed, trimmed. */
  function TitleText(jobDescription: string): string {
    Trim(RemoveChars(Split(jobDescription, '\n')[0], {'*', '_'}))
  }

  /** `jobDescription.split('\n')[0].replace(/[*_]/g, '').trim().toUpperCase() || fallback` */
  function JobTitle(jobDescription: string, fallback: string): string {
    var t := ToUpper(TitleText(jobDescription));
    if t != "" then t else fallback
  }

  /** What a derived title looks like: one non-empty line, no `*` or `_`, no lower-case ASCII
      letter, no whitespace at either end. */
  predicate TitleShaped(t: string) {
    && t != ""
    && !IsWhitespace(t[0]) && !IsWhitespace(t[|t| - 1])
    && forall k :: 0 <= k < |t| ==> t[k] != '\n' && t[k] != '*' && t[k] != '_' && !('a' <= t[k] <= 'z')
  }

  lemma FallbacksShaped()
    ensures TitleShaped(PdfTitleFallback) && TitleShaped(HtmlTitleFallback)
  {
  }

  /** Upper-casing a character keeps whether it is whitespace, `*`, `_` or a newline. */
  lemma UpperCharKeeps(c: char)
    ensures IsWhitespace(UpperChar(c)) == IsWhitespace(c)
    ensures (UpperChar(c) == '\n') == (c == '\n')
    ensures (UpperChar(c) == '*') == (c == '*') && (UpperChar(c) == '_') == (c == '_')
    ensures !('a' <= UpperChar(c) <= 'z')
  {
  }

  /** The title text is one line free of `*` and `_`, with no whitespace at either end. */
  lemma TitleTextShape(jobDescription: string)
    ensures var t := TitleText(jobDescription);
      && (t == [] || (!IsWhitespace(t[0]) && !IsWhitespace(t[|t| - 1])))
      && forall k :: 0 <= k < |t| ==> t[k] != '\n' && t[k] != '*' && t[k] != '_'
  {
    SplitPiecesFree(jobDescription, '\n');
    var first := Split(jobDescription, '\n')[0];
    var stripped := RemoveChars(first, {'*', '_'});
    var t := Trim(stripped);
    var i, j := TrimIsInfix(stripped);
    forall k | 0 <= k < |t|
      ensures t[k] != '\n' && t[k] != '*' && t[k] != '_'
    {
      assert t[k] == stripped[i + k];
      assert t[k] in first;
    }
  }

  /** Upper-casing such a text gives a title-shaped string. */
  lemma UpperShape(t: string)
    requires t != []
    requires !IsWhitespace(t[0]) && !IsWhitespace(t[|t| - 1])
    requires forall k :: 0 <= k < |t| ==> t[k] != '\n' && t[k] != '*' && t[k] != '_'
    ensures TitleShaped(ToUpper(t))
  {
    var u := ToUpper(t);
    forall k | 0 <= k < |u|
      ensures u[k] != '\n' && u[k] != '*' && u[k] != '_' && !('a' <= u[k] <= 'z')
    {
      UpperCharKeeps(t[k]);
    }
    UpperCharKeeps(t[0]);
    UpperCharKeeps(t[|t| - 1]);
  }

  /** The derived title always has the title shape, whatever the job description. */
  lemma JobTitleShaped(jobDescription: string, fallback: string)
    requires TitleShaped(fallback)
    ensures TitleShaped(JobTitle(jobDescription, fallback))
  {
    var t := TitleText(jobDescription);
    TitleTextShape(jobDescription);
    if t != [] {
      UpperShape(t);
    }
  }

  /** A title-shaped job description is its own title. */
  lemma JobTitleOfShaped(t: string, fallback: string)
    requires TitleShaped(t)
    ensures JobTitle(t, fallback) == t
  {
    assert Split(t, '\n')[0] == t by { SplitWithoutSeparator(t, '\n'); }
    assert RemoveChars(t, {'*', '_'}) == t by { RemoveCharsNone(t, {'*', '_'}); }
    assert Trim(t) == t by { TrimNoop(t); }
    assert ToUpper(t) == t by { ToUpperNoop(t); }
    assert TitleText(t) == t;
  }

  /** Deriving the title from a derived title changes nothing. */
  lemma JobTitleIdempotent(jobDescription: string, fallback: string)
    requires TitleShaped(fallback)
    ensures JobTitle(JobTitle(jobDescription, fallback), fallback) == JobTitle(jobDescription, fallback)
  {
    JobTitleShaped(jobDescription, fallback);
    JobTitleOfShaped(JobTitle(jobDescription, fallback), fallback);
  }

  /** The name part of the file name: `name.replace(/\s+/g, '_') || 'candidate'`. */
  function NamePart(name: string): string {
    var r := ReplaceWhitespaceRuns(name, '_');
    if r != "" then r else "candidate"
  }

  /** `resume_${...}.pdf` */
  function FileName(name: string): string {
    "resume_" + NamePart(name) + ".pdf"
  }

  /** The file name is `resume_`, a non-empty run of non-whitespace characters, and `.pdf`;
      the name part is `candidate` when the name is empty. */
  lemma FileNameShape(name: string)
    ensures var f := FileName(name);
      && StartsWith(f, "resume_") && |f| >= |"resume_.pdf"| + 1
      && f[|f| - 4..] == ".pdf"
      && var middle := f[7..|f| - 4];
         middle == NamePart(name)
         && (forall k :: 0 <= k < |middle| ==> !IsWhitespace(middle[k]))
         && (middle == "candidate" <== name == "")
  {
    var f := FileName(name);
    assert f[..7] == "resume_";
    assert f[7..|f| - 4] == NamePart(name);
  }

  /** A name without whitespace appears in the file name unchanged, so it can be read back. */
  lemma FileNameKeepsPlainName(name: string)
    requires name != []
    requires forall k :: 0 <= k < |name| ==> !IsWhitespace(name[k])
    ensures FileName(name) == "resume_" + name + ".pdf"
  {
    ReplaceWhitespaceRunsNoop(name, '_');
  }

  /** The optimizing handler writes the rule as `name ? name.replace(/\s+/g, '_') : 'candidate'`;
      for every string it gives the same file name. */
  lemma FileNameRulesAgree(name: string)
    ensures FileName(name)
         == "resume_" + (if name != "" then ReplaceWhitespaceRuns(name, '_') else "candidate") + ".pdf"
  {
  }
}
