/**
 * Input shaping in pages/api/optimize-resume.js: the request guards, how the
 * extracted resume fields become the lists the HTML template renders, the
 * rule that tells a project title from a project bullet, which blocks the
 * template omits, the contact line and the file name. The template itself is
 * modelled by the blocks it renders, not by its markup.
 */
module OptimizeResume {
  import opened Text
  import opened ResumeFields

  const BulletChar: char := '•'

  /** The request as far as the guards see it: its method, whether a file came in the
      `resume` field, and the job description (empty when missing). */
  datatype OptimizeRequest = OptimizeRequest(httpMethod: string, hasResumeFile: bool, jobDescription: string)

  /** The record the language model extracts from the resume text; a missing field is empty. */
  datatype Extracted = Extracted(
    name: string, email: string, phone: string, linkedIn: string,
    education: string, experience: string, skills: string, certifications: string, achievements: string)

  /** A project title with the bullets the template lists under it. */
  datatype ProjectEntry = ProjectEntry(title: string, bullets: seq<string>)

  /** The blocks of the template, in the order they appear. */
  datatype Block =
    | Projects(entries: seq<ProjectEntry>)
    | Education(lines: seq<string>)
    | TechnicalSkills(skills: string)
    | Certifications(lines: seq<string>)
    | Achievements(lines: seq<string>)
    | AdditionalInformation(jobTitle: string)

  datatype Resume = Resume(heading: string, contact: string, blocks: seq<Block>)

  datatype OptimizeResult =
    | Rejected(status: int, error: string)
    | Rendered(resume: Resume, fileName: string)

  // ---------------------------------------------------------------------
  // splitting

  /** `s ? s.split(c).filter(Boolean) : []`: the non-empty pieces, whitespace-only ones included. */
  function NonEmptyPieces(s: string, c: char): (r: seq<string>)
    ensures forall x :: x in r <==> x in Split(s, c) && x != ""
  {
    DropEmptyKeeps(Split(s, c));
    if s != "" then DropEmpty(Split(s, c)) else []
  }

  /** The guard on the empty field changes nothing: splitting "" yields only the empty piece. */
  lemma NonEmptyPiecesUnguarded(s: string, c: char)
    ensures NonEmptyPieces(s, c) == DropEmpty(Split(s, c))
  {
  }

  /** A piece that is only whitespace is kept: unlike the PDF handler, nothing here trims lines. */
  lemma WhitespaceLinesSurvive(s: string, c: char, line: string)
    requires line in Split(s, c) && line != "" && AllWhitespace(line)
    ensures line in NonEmptyPieces(s, c)
  {
  }

  function TrimAll(items: seq<string>): (r: seq<string>)
    ensures |r| == |items|
  {
    if items == [] then [] else [Trim(items[0])] + TrimAll(items[1..])
  }

  /** `map(s => s.trim())` trims each item in place. */
  lemma {:induction false} TrimAllAt(items: seq<string>)
    ensures forall i :: 0 <= i < |items| ==> TrimAll(items)[i] == Trim(items[i])
  {
    if items != [] {
      TrimAllAt(items[1..]);
    }
  }

  /** `skills.split(',').map(s => s.trim()).filter(Boolean)` (nothing for empty skills). */
  function SkillItems(skills: string): seq<string> {
    if skills != "" then DropEmpty(TrimAll(Split(skills, ','))) else []
  }

  /** A comma-free piece trims to a comma-free item with no whitespace at either end. */
  lemma TrimmedPieceShape(piece: string)
    requires ',' !in piece
    ensures var x := Trim(piece);
      ',' !in x && (x == "" || (!IsWhitespace(x[0]) && !IsWhitespace(x[|x| - 1])))
  {
    var x := Trim(piece);
    var i, j := TrimIsInfix(piece);
    assert forall t :: 0 <= t < |x| ==> x[t] == piece[i + t];
  }

  /** A well-formed skill item: non-empty, no comma, no whitespace at either end. */
  predicate SkillShaped(x: string) {
    x != "" && ',' !in x && !IsWhitespace(x[0]) && !IsWhitespace(x[|x| - 1])
  }

  /** Every skill item is non-empty, has no comma and no whitespace at either end. */
  lemma SkillItemsShape(skills: string)
    ensures forall x :: x in SkillItems(skills) ==>
      && x != "" && ',' !in x
      && !IsWhitespace(x[0]) && !IsWhitespace(x[|x| - 1])
  {
    if skills != "" {
      SplitPiecesFree(skills, ',');
      TrimmedItemsShape(Split(skills, ','));
    }
  }

  /** Trimming comma-free pieces and dropping the empty results leaves well-formed items. */
  lemma {:induction false} TrimmedItemsShape(pieces: seq<string>)
    requires forall i :: 0 <= i < |pieces| ==> ',' !in pieces[i]
    ensures forall x :: x in DropEmpty(TrimAll(pieces)) ==> SkillShaped(x)
  {
    if pieces != [] {
      var head := Trim(pieces[0]);
      TrimmedPieceShape(pieces[0]);
      TrimmedItemsShape(pieces[1..]);
      var rest := DropEmpty(TrimAll(pieces[1..]));
      assert TrimAll(pieces) == [head] + TrimAll(pieces[1..]);
      assert TrimAll(pieces)[1..] == TrimAll(pieces[1..]);
      if head != "" {
        assert DropEmpty(TrimAll(pieces)) == [head] + rest;
      } else {
        assert DropEmpty(TrimAll(pieces)) == rest;
      }
    }
  }

  /** A skill list written without spaces around its commas and without empty items comes back
      item for item. */
  lemma SkillItemsOfList(items: seq<string>)
    requires |items| >= 1
    requires forall i :: 0 <= i < |items| ==>
      && items[i] != "" && ',' !in items[i]
      && !IsWhitespace(items[i][0]) && !IsWhitespace(items[i][|items[i]| - 1])
    ensures SkillItems(Join(items, ",")) == items
  {
    var joined := Join(items, ",");
    SplitJoin(items, ',');
    JoinStartsWithFirst(items, ",");
    SkillItemsOfPieces(joined, items);
  }

  /** The same, read off the pieces the skills split into. */
  lemma SkillItemsOfPieces(skills: string, items: seq<string>)
    requires skills != "" && Split(skills, ',') == items
    requires forall i :: 0 <= i < |items| ==>
      && items[i] != ""
      && !IsWhitespace(items[i][0]) && !IsWhitespace(items[i][|items[i]| - 1])
    ensures SkillItems(skills) == items
  {
    TrimAllNoop(items);
    DropEmptyNoop(items);
  }

  /** Trimming items that have no whitespace at either end changes nothing. */
  lemma {:induction false} TrimAllNoop(items: seq<string>)
    requires forall i :: 0 <= i < |items| ==>
      items[i] != "" && !IsWhitespace(items[i][0]) && !IsWhitespace(items[i][|items[i]| - 1])
    ensures TrimAll(items) == items
  {
    if items != [] {
      TrimNoop(items[0]);
      TrimAllNoop(items[1..]);
      assert items == [items[0]] + items[1..];
    }
  }

  lemma {:induction false} JoinStartsWithFirst(parts: seq<string>, sep: string)
    requires |parts| >= 1
    ensures StartsWith(Join(parts, sep), parts[0])
  {
    if |parts| > 1 {
      assert Join(parts, sep) == parts[0] + sep + Join(parts[1..], sep);
    }
  }

  lemma {:induction false} DropEmptyNoop(ls: seq<string>)
    requires forall i :: 0 <= i < |ls| ==> ls[i] != ""
    ensures DropEmpty(ls) == ls
  {
    if ls != [] {
      DropEmptyNoop(ls[1..]);
    }
  }

  // ---------------------------------------------------------------------
  // project titles and bullets

  predicate NoBulletOrDash(s: string) {
    forall k :: 0 <= k < |s| ==> s[k] != BulletChar && s[k] != '-'
  }

  /** A trailing group `(...)` starting at `p`: the text before it is non-empty and free of
      bullets and dashes, the group holds at least one character and no `)`. */
  predicate TechGroupAt(line: string, p: int) {
    && 1 <= p && p + 2 < |line|
    && line[p] == '(' && line[|line| - 1] == ')'
    && NoBulletOrDash(line[..p])
    && ')' !in line[p + 1..|line| - 1]
  }

  /** `/^[^\•-]+(\([^)]+\))?$/`: a non-empty run of characters other than bullets and dashes,
      optionally followed by a parenthesised group that may hold anything but `)`. */
  predicate TitlePattern(line: string) {
    (line != "" && NoBulletOrDash(line))
    || exists p :: 1 <= p < |line| && TechGroupAt(line, p)
  }

  /** `line.match(...) && !line.startsWith('•')` */
  predicate IsTitle(line: string) {
    TitlePattern(line) && !StartsWith(line, [BulletChar])
  }

  /** The `startsWith('•')` clause never changes the outcome: the pattern already refuses a
      bullet as the first character. */
  lemma TitleGuardRedundant(line: string)
    ensures IsTitle(line) <==> TitlePattern(line)
  {
    if TitlePattern(line) {
      if line != "" && NoBulletOrDash(line) {
        assert line[0] != BulletChar;
      } else {
        var p :| 1 <= p < |line| && TechGroupAt(line, p);
        assert line[..p][0] != BulletChar;
      }
      assert line[..1] != [BulletChar];
    }
  }

  /** A non-empty line free of bullets and dashes is a title, and a title never begins with a
      bullet or a dash. */
  lemma TitleBasics(line: string)
    ensures line != "" && NoBulletOrDash(line) ==> IsTitle(line)
    ensures IsTitle(line) ==> line != "" && line[0] != BulletChar && line[0] != '-'
  {
    TitleGuardRedundant(line);
    if IsTitle(line) && !(line != "" && NoBulletOrDash(line)) {
      var p :| 1 <= p < |line| && TechGroupAt(line, p);
      assert line[..p][0] == line[0];
    }
  }

  /** The trailing group may hold dashes and bullets: `App (Node-JS)` is a title. */
  lemma TitleWithDashInGroup()
    ensures IsTitle("App (Node-JS)")
    ensures !IsTitle("App - Node")
  {
    var line := "App (Node-JS)";
    assert TechGroupAt(line, 4) by {
      assert line[..4] == "App ";
      assert line[5..|line| - 1] == "Node-JS";
    }
    TitleGuardRedundant(line);
    var other := "App - Node";
    assert other[4] == '-';
    forall p | 1 <= p < |other| ensures !TechGroupAt(other, p) {
      assert other[|other| - 1] == 'e';
    }
  }

  /** A title holding a bullet or a dash ends with a parenthesised group. */
  lemma TitleWithMarkEndsInGroup(line: string)
    requires IsTitle(line) && !NoBulletOrDash(line)
    ensures line[|line| - 1] == ')'
  {
  }

  /** The bullets in `lines`: each line starting with `•`, without that character, trimmed. */
  function ProjectBullets(lines: seq<string>): (r: seq<string>)
    ensures |r| <= |lines|
  {
    if lines == [] then []
    else (if StartsWith(lines[0], [BulletChar]) then [Trim(lines[0][1..])] else []) + ProjectBullets(lines[1..])
  }

  /** The bullets of a concatenation are the bullets of each part in order. */
  lemma {:induction false} ProjectBulletsAppend(a: seq<string>, b: seq<string>)
    ensures ProjectBullets(a + b) == ProjectBullets(a) + ProjectBullets(b)
  {
    if a == [] {
      assert a + b == b;
    } else {
      var head := if StartsWith(a[0], [BulletChar]) then [Trim(a[0][1..])] else [];
      assert (a + b)[0] == a[0];
      assert (a + b)[1..] == a[1..] + b;
      assert ProjectBullets(a + b) == head + ProjectBullets(a[1..] + b);
      ProjectBulletsAppend(a[1..], b);
      assert head + (ProjectBullets(a[1..]) + ProjectBullets(b)) == (head + ProjectBullets(a[1..])) + ProjectBullets(b);
    }
  }

  /** One entry per title in `lines[i..]`, each listing every bullet that follows it. */
  function ProjectEntries(lines: seq<string>, i: nat): seq<ProjectEntry>
    requires i <= |lines|
    decreases |lines| - i
  {
    if i == |lines| then []
    else
      (if IsTitle(lines[i]) then [ProjectEntry(lines[i], ProjectBullets(lines[i + 1..]))] else [])
      + ProjectEntries(lines, i + 1)
  }

  /** The bullets under the title at `i` are all later bullet lines, not only those before
      the next title: for a later title `j`, the list under `i` ends with the list under `j`. */
  lemma BulletsRunPastNextTitle(lines: seq<string>, i: nat, j: nat)
    requires i < j < |lines|
    ensures ProjectBullets(lines[i + 1..])
         == ProjectBullets(lines[i + 1..j + 1]) + ProjectBullets(lines[j + 1..])
  {
    assert lines[i + 1..] == lines[i + 1..j + 1] + lines[j + 1..];
    ProjectBulletsAppend(lines[i + 1..j + 1], lines[j + 1..]);
  }

  /** The positions of the title lines in `lines[i..]`, in increasing order. */
  function TitleIndices(lines: seq<string>, i: nat): (r: seq<nat>)
    requires i <= |lines|
    ensures forall t :: 0 <= t < |r| ==> i <= r[t] < |lines|
    decreases |lines| - i
  {
    if i == |lines| then []
    else (if IsTitle(lines[i]) then [i] else []) + TitleIndices(lines, i + 1)
  }

  /** `ks` holds title positions only, and every title position at or after `i`. */
  ghost predicate TitlesFrom(lines: seq<string>, i: nat, ks: seq<nat>) {
    && (forall t :: 0 <= t < |ks| ==> i <= ks[t] < |lines| && IsTitle(lines[ks[t]]))
    && (forall k :: i <= k < |lines| && IsTitle(lines[k]) ==> k in ks)
  }

  predicate Ascending(ks: seq<nat>) {
    forall t, u :: 0 <= t < u < |ks| ==> ks[t] < ks[u]
  }

  lemma AscendingCons(i: nat, ks: seq<nat>)
    requires Ascending(ks) && forall t :: 0 <= t < |ks| ==> i < ks[t]
    ensures Ascending([i] + ks)
  {
    var ks' := [i] + ks;
    forall t, u | 0 <= t < u < |ks'| ensures ks'[t] < ks'[u] {
      assert ks'[u] == ks[u - 1];
      if t > 0 {
        assert ks'[t] == ks[t - 1];
      }
    }
  }

  /** The positions are exactly those of the title lines at or after `i`. */
  lemma {:induction false} TitleIndicesExact(lines: seq<string>, i: nat)
    requires i <= |lines|
    ensures TitlesFrom(lines, i, TitleIndices(lines, i))
    decreases |lines| - i
  {
    if i < |lines| {
      TitleIndicesExact(lines, i + 1);
      var ks := TitleIndices(lines, i + 1);
      if IsTitle(lines[i]) {
        assert TitleIndices(lines, i) == [i] + ks;
      } else {
        assert TitleIndices(lines, i) == ks;
      }
    }
  }

  /** The positions come in increasing order, so each title appears once. */
  lemma {:induction false} TitleIndicesAscending(lines: seq<string>, i: nat)
    requires i <= |lines|
    ensures Ascending(TitleIndices(lines, i))
    decreases |lines| - i
  {
    if i < |lines| {
      TitleIndicesAscending(lines, i + 1);
      var ks, ks' := TitleIndices(lines, i + 1), TitleIndices(lines, i);
      if IsTitle(lines[i]) {
        AscendingCons(i, ks);
        assert ks' == [i] + ks;
      } else {
        assert ks' == ks;
      }
    }
  }

  /** `es` lists, for each position in `ks`, the line there with the bullets of every later line. */
  ghost predicate EntriesAt(lines: seq<string>, es: seq<ProjectEntry>, ks: seq<nat>) {
    && |es| == |ks|
    && forall t :: 0 <= t < |es| ==>
         ks[t] < |lines| && es[t] == ProjectEntry(lines[ks[t]], ProjectBullets(lines[ks[t] + 1..]))
  }

  lemma EntriesAtCons(lines: seq<string>, i: nat, es: seq<ProjectEntry>, ks: seq<nat>)
    requires i < |lines| && EntriesAt(lines, es, ks)
    ensures EntriesAt(lines, [ProjectEntry(lines[i], ProjectBullets(lines[i + 1..]))] + es, [i] + ks)
  {
    var es', ks' := [ProjectEntry(lines[i], ProjectBullets(lines[i + 1..]))] + es, [i] + ks;
    forall t | 0 <= t < |es'|
      ensures ks'[t] < |lines| && es'[t] == ProjectEntry(lines[ks'[t]], ProjectBullets(lines[ks'[t] + 1..]))
    {
      if t > 0 {
        assert es'[t] == es[t - 1] && ks'[t] == ks[t - 1];
      }
    }
  }

  /** The entries are exactly one per title line of `lines[i..]`, in order: the entry for the
      title at position `k` is that line with the bullets of every line after it. */
  lemma {:induction false} ProjectEntriesByTitle(lines: seq<string>, i: nat)
    requires i <= |lines|
    ensures EntriesAt(lines, ProjectEntries(lines, i), TitleIndices(lines, i))
    decreases |lines| - i
  {
    if i < |lines| {
      ProjectEntriesByTitle(lines, i + 1);
      var es, ks := ProjectEntries(lines, i + 1), TitleIndices(lines, i + 1);
      if IsTitle(lines[i]) {
        EntriesAtCons(lines, i, es, ks);
        assert ProjectEntries(lines, i) == [ProjectEntry(lines[i], ProjectBullets(lines[i + 1..]))] + es;
        assert TitleIndices(lines, i) == [i] + ks;
      } else {
        assert ProjectEntries(lines, i) == es && TitleIndices(lines, i) == ks;
      }
    }
  }

  /** Every entry is headed by a title line, and every title line of `lines[i..]` heads the
      entry that lists the bullets after it. */
  lemma ProjectEntriesTitled(lines: seq<string>, i: nat)
    requires i <= |lines|
    ensures forall e :: e in ProjectEntries(lines, i) ==> IsTitle(e.title) && e.title in lines[i..]
    ensures forall k :: i <= k < |lines| && IsTitle(lines[k]) ==>
      ProjectEntry(lines[k], ProjectBullets(lines[k + 1..])) in ProjectEntries(lines, i)
  {
    ProjectEntriesByTitle(lines, i);
    TitleIndicesExact(lines, i);
    EntriesHeaded(lines, i, ProjectEntries(lines, i), TitleIndices(lines, i));
    EntriesComplete(lines, i, ProjectEntries(lines, i), TitleIndices(lines, i));
  }

  lemma EntriesHeaded(lines: seq<string>, i: nat, es: seq<ProjectEntry>, ks: seq<nat>)
    requires i <= |lines| && EntriesAt(lines, es, ks) && TitlesFrom(lines, i, ks)
    ensures forall e :: e in es ==> IsTitle(e.title) && e.title in lines[i..]
  {
    forall e | e in es ensures IsTitle(e.title) && e.title in lines[i..] {
      var t :| 0 <= t < |es| && es[t] == e;
      var k := ks[t];
      assert e.title == lines[k] && IsTitle(lines[k]);
      assert lines[k] == lines[i..][k - i];
    }
  }

  lemma EntriesComplete(lines: seq<string>, i: nat, es: seq<ProjectEntry>, ks: seq<nat>)
    requires i <= |lines| && EntriesAt(lines, es, ks) && TitlesFrom(lines, i, ks)
    ensures forall k :: i <= k < |lines| && IsTitle(lines[k]) ==>
      ProjectEntry(lines[k], ProjectBullets(lines[k + 1..])) in es
  {
    forall k | i <= k < |lines| && IsTitle(lines[k])
      ensures ProjectEntry(lines[k], ProjectBullets(lines[k + 1..])) in es
    {
      assert k in ks;
      var t :| 0 <= t < |ks| && ks[t] == k;
      assert es[t] == ProjectEntry(lines[ks[t]], ProjectBullets(lines[ks[t] + 1..]));
      assert es[t] in es;
    }
  }

  /** Consecutive entries share bullets: the list under one title is the bullets up to and
      including the next title line, followed by the whole list of the next entry. */
  lemma EntryBulletsOverlap(lines: seq<string>, t: nat)
    requires t + 1 < |ProjectEntries(lines, 0)|
    ensures var es, ks := ProjectEntries(lines, 0), TitleIndices(lines, 0);
      && |ks| == |es|
      && ks[t] < ks[t + 1] < |lines|
      && es[t].bullets == ProjectBullets(lines[ks[t] + 1..ks[t + 1] + 1]) + es[t + 1].bullets
  {
    ProjectEntriesByTitle(lines, 0);
    TitleIndicesAscending(lines, 0);
    OverlapAt(lines, ProjectEntries(lines, 0), TitleIndices(lines, 0), t);
  }

  lemma OverlapAt(lines: seq<string>, es: seq<ProjectEntry>, ks: seq<nat>, t: nat)
    requires EntriesAt(lines, es, ks) && Ascending(ks) && t + 1 < |es|
    ensures ks[t] < ks[t + 1] < |lines|
    ensures es[t].bullets == ProjectBullets(lines[ks[t] + 1..ks[t + 1] + 1]) + es[t + 1].bullets
  {
    BulletsRunPastNextTitle(lines, ks[t], ks[t + 1]);
  }

  // ---------------------------------------------------------------------
  // the rendered resume

  /** `${phone ? phone + ' • ' : ''}${email || ''}${linkedIn ? ' • ' + linkedIn : ''}` */
  function ContactLine(phone: string, email: string, linkedIn: string): string {
    (if phone != "" then phone + [' ', BulletChar, ' '] else "")
    + email
    + (if linkedIn != "" then [' ', BulletChar, ' '] + linkedIn else "")
  }

  /** The contact line holds the three values in order, separated by ` • ` only where a value is
      present on both sides of the phone or the LinkedIn separator. */
  lemma ContactLineCases(phone: string, email: string, linkedIn: string)
    ensures phone == "" && linkedIn == "" ==> ContactLine(phone, email, linkedIn) == email
    ensures phone != "" ==> StartsWith(ContactLine(phone, email, linkedIn), phone + [' ', BulletChar, ' '])
    ensures |ContactLine(phone, email, linkedIn)|
         == |email| + (if phone != "" then |phone| + 3 else 0) + (if linkedIn != "" then |linkedIn| + 3 else 0)
  {
    var c := ContactLine(phone, email, linkedIn);
    if phone != "" {
      assert c[..|phone| + 3] == phone + [' ', BulletChar, ' '];
    }
  }

  /** The single block `b` when `present`, nothing otherwise. */
  function Optional(present: bool, b: Block): (r: seq<Block>)
    ensures forall x :: x in r <==> present && x == b
  {
    if present then [b] else []
  }

  /** The template's block sequence for the shaped lists and the job title: each list block
      only when its list is non-empty, the Additional Information block always, last. */
  function Layout(projectLines: seq<string>, educationLines: seq<string>, skills: seq<string>,
                  certifications: seq<string>, achievements: seq<string>, jobTitle: string): seq<Block>
  {
    Optional(|projectLines| > 0, Projects(ProjectEntries(projectLines, 0)))
    + Optional(|educationLines| > 0, Education(educationLines))
    + Optional(|skills| > 0, TechnicalSkills(Join(skills, ", ")))
    + Optional(|certifications| > 0, Certifications(certifications))
    + Optional(|achievements| > 0, Achievements(achievements))
    + [AdditionalInformation(jobTitle)]
  }

  /** The blocks rendered for an extracted record and a job description. */
  function Blocks(d: Extracted, jobDescription: string): seq<Block> {
    Layout(NonEmptyPieces(d.experience, '\n'), NonEmptyPieces(d.education, '\n'), SkillItems(d.skills),
           NonEmptyPieces(d.certifications, '\n'), NonEmptyPieces(d.achievements, '\n'),
           JobTitle(jobDescription, HtmlTitleFallback))
  }

  /** A list block appears only when its list is non-empty. */
  lemma LayoutOnlyNonEmpty(projectLines: seq<string>, educationLines: seq<string>, skills: seq<string>,
                           certifications: seq<string>, achievements: seq<string>, jobTitle: string)
    ensures var bs := Layout(projectLines, educationLines, skills, certifications, achievements, jobTitle);
      && ((exists b :: b in bs && b.Projects?) ==> projectLines != [])
      && ((exists b :: b in bs && b.Education?) ==> educationLines != [])
      && ((exists b :: b in bs && b.TechnicalSkills?) ==> skills != [])
      && ((exists b :: b in bs && b.Certifications?) ==> certifications != [])
      && ((exists b :: b in bs && b.Achievements?) ==> achievements != [])
  {
    var p := Optional(|projectLines| > 0, Projects(ProjectEntries(projectLines, 0)));
    var e := Optional(|educationLines| > 0, Education(educationLines));
    var k := Optional(|skills| > 0, TechnicalSkills(Join(skills, ", ")));
    var c := Optional(|certifications| > 0, Certifications(certifications));
    var a := Optional(|achievements| > 0, Achievements(achievements));
    var bs := Layout(projectLines, educationLines, skills, certifications, achievements, jobTitle);
    assert bs == p + e + k + c + a + [AdditionalInformation(jobTitle)];
    forall b | b in bs
      ensures b.Projects? ==> projectLines != []
      ensures b.Education? ==> educationLines != []
      ensures b.TechnicalSkills? ==> skills != []
      ensures b.Certifications? ==> certifications != []
      ensures b.Achievements? ==> achievements != []
    {
      assert b in p || b in e || b in k || b in c || b in a || b == AdditionalInformation(jobTitle);
    }
  }

  /** A non-empty list always gets its block. */
  lemma LayoutKeepsNonEmpty(projectLines: seq<string>, educationLines: seq<string>, skills: seq<string>,
                            certifications: seq<string>, achievements: seq<string>, jobTitle: string)
    ensures var bs := Layout(projectLines, educationLines, skills, certifications, achievements, jobTitle);
      && (projectLines != [] ==> Projects(ProjectEntries(projectLines, 0)) in bs)
      && (educationLines != [] ==> Education(educationLines) in bs)
      && (skills != [] ==> TechnicalSkills(Join(skills, ", ")) in bs)
      && (certifications != [] ==> Certifications(certifications) in bs)
      && (achievements != [] ==> Achievements(achievements) in bs)
      && 1 <= |bs| <= 6
      && bs[|bs| - 1] == AdditionalInformation(jobTitle)
  {
  }

  /** The same for the rendered record: a block for each non-empty shaped field. */
  lemma BlocksPresence(d: Extracted, jobDescription: string)
    ensures var bs := Blocks(d, jobDescription);
      && ((exists b :: b in bs && b.Projects?) <==> NonEmptyPieces(d.experience, '\n') != [])
      && ((exists b :: b in bs && b.Education?) <==> NonEmptyPieces(d.education, '\n') != [])
      && ((exists b :: b in bs && b.TechnicalSkills?) <==> SkillItems(d.skills) != [])
      && ((exists b :: b in bs && b.Certifications?) <==> NonEmptyPieces(d.certifications, '\n') != [])
      && ((exists b :: b in bs && b.Achievements?) <==> NonEmptyPieces(d.achievements, '\n') != [])
      && bs[|bs| - 1] == AdditionalInformation(JobTitle(jobDescription, HtmlTitleFallback))
  {
    LayoutOnlyNonEmpty(NonEmptyPieces(d.experience, '\n'), NonEmptyPieces(d.education, '\n'), SkillItems(d.skills),
                   NonEmptyPieces(d.certifications, '\n'), NonEmptyPieces(d.achievements, '\n'),
                   JobTitle(jobDescription, HtmlTitleFallback));
    LayoutKeepsNonEmpty(NonEmptyPieces(d.experience, '\n'), NonEmptyPieces(d.education, '\n'), SkillItems(d.skills),
                   NonEmptyPieces(d.certifications, '\n'), NonEmptyPieces(d.achievements, '\n'),
                   JobTitle(jobDescription, HtmlTitleFallback));
  }

  /** With every list empty, the resume holds only the Additional Information block. */
  lemma EmptyRecordRendersOnlyAdditional(name: string, jobDescription: string)
    ensures Blocks(Extracted(name, "", "", "", "", "", "", "", ""), jobDescription)
         == [AdditionalInformation(JobTitle(jobDescription, HtmlTitleFallback))]
  {
  }

  /** The handler: 405 for another method, then 400 for a missing resume file, a missing job
      description, and an extracted record without a name, in that order; otherwise the
      rendered resume headed by the name, and the file name. */
  function Optimize(req: OptimizeRequest, extracted: Extracted): (r: OptimizeResult)
    ensures r.Rendered? <==>
      req.httpMethod == "POST" && req.hasResumeFile && req.jobDescription != "" && extracted.name != ""
    ensures r.Rendered? ==>
      && r.resume.heading == extracted.name
      && r.fileName == "resume_" + ReplaceWhitespaceRuns(extracted.name, '_') + ".pdf"
      && r.resume.contact == ContactLine(extracted.phone, extracted.email, extracted.linkedIn)
      && r.resume.blocks == Blocks(extracted, req.jobDescription)
  {
    if req.httpMethod != "POST" then Rejected(405, "Method not allowed")
    else if !req.hasResumeFile then Rejected(400, "No resume file provided")
    else if req.jobDescription == "" then Rejected(400, "No job description provided")
    else if extracted.name == "" then Rejected(400, "Failed to extract name from resume")
    else
      Rendered(
        Resume(if extracted.name != "" then extracted.name else "CANDIDATE",
               ContactLine(extracted.phone, extracted.email, extracted.linkedIn),
               Blocks(extracted, req.jobDescription)),
        "resume_" + (if extracted.name != "" then ReplaceWhitespaceRuns(extracted.name, '_') else "candidate") + ".pdf")
  }

  /** The guards come in a fixed order: the first failing one decides the answer. */
  lemma GuardOrder(req: OptimizeRequest, extracted: Extracted)
    ensures req.httpMethod != "POST" ==> Optimize(req, extracted) == Rejected(405, "Method not allowed")
    ensures req.httpMethod == "POST" && !req.hasResumeFile
      ==> Optimize(req, extracted) == Rejected(400, "No resume file provided")
    ensures req.httpMethod == "POST" && req.hasResumeFile && req.jobDescription == ""
      ==> Optimize(req, extracted) == Rejected(400, "No job description provided")
    ensures req.httpMethod == "POST" && req.hasResumeFile && req.jobDescription != "" && extracted.name == ""
      ==> Optimize(req, extracted) == Rejected(400, "Failed to extract name from resume")
  {
  }

  /** Both resume handlers name the file the same way for the same name. */
  lemma FileNamesAgree(req: OptimizeRequest, extracted: Extracted)
    requires Optimize(req, extracted).Rendered?
    ensures Optimize(req, extracted).fileName == FileName(extracted.name)
  {
    FileNameRulesAgree(extracted.name);
  }

  /** A rendered resume carries a block for each non-empty shaped field of the extracted
      record, and ends with the Additional Information block for the job description. */
  lemma RenderedBlocks(req: OptimizeRequest, extracted: Extracted)
    requires Optimize(req, extracted).Rendered?
    ensures var bs := Optimize(req, extracted).resume.blocks;
      && ((exists b :: b in bs && b.Projects?) <==> NonEmptyPieces(extracted.experience, '\n') != [])
      && ((exists b :: b in bs && b.Education?) <==> NonEmptyPieces(extracted.education, '\n') != [])
      && ((exists b :: b in bs && b.TechnicalSkills?) <==> SkillItems(extracted.skills) != [])
      && ((exists b :: b in bs && b.Certifications?) <==> NonEmptyPieces(extracted.certifications, '\n') != [])
      && ((exists b :: b in bs && b.Achievements?) <==> NonEmptyPieces(extracted.achievements, '\n') != [])
      && bs[|bs| - 1] == AdditionalInformation(JobTitle(req.jobDescription, HtmlTitleFallback))
  {
    BlocksPresence(extracted, req.jobDescription);
  }
}
