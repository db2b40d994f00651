# Resume builder: layout, input shaping, resignation letter and middleware in Dafny

This project models the deterministic parts of a web application that builds resumes and
resignation letters, and proves properties about them.

- **The manual PDF layout of `pages/api/generate-resume.js`** (`resume_pdf.dfy`, `wrap.dfy`,
  `resume_fields.dfy`).
  - The PDF document is the class `PdfDocument`. It counts its pages and records every
    `drawText` call as a `Draw` (page, x, y, text, font, size).
  - `addText`, `addSectionWithBullets` and `checkPageOverflow` are its methods.
  - The handler composes the resume in its fixed order: job title, Contact Information,
    Summary, the five bulleted sections, References, tailoring note. It is split into stage
    methods, one per part of that order. Each stage is proved to draw exactly what a
    reference layout function (`ResumeLayout` and its parts) describes, and the order of
    the headings, the opening and the closing note are proved about that layout.
  - Text width is an uninterpreted integer measure, `Metrics`, passed in as a parameter.
  - The greedy word wrapper of `addText` is specified as a left fold over the words (`Wrap`).
    The loop (`WrapText`) is proved equal to that fold, and the fold's grouping properties
    are proved as lemmas.
- **Input shaping in `pages/api/optimize-resume.js`** (`optimize_resume.dfy`):
  - the request guards and their order;
  - newline and comma splitting;
  - the job title;
  - the project-title regular expression and the bullets listed under each title;
  - which template blocks are omitted;
  - the contact line and the file name.

  The HTML template is modelled by the sequence of blocks it renders, not by its markup.
- **The resignation-letter page, `app/resignation-letter/page.js`** (`resignation_letter.dfy`):
  - the phone-number formatter;
  - the two-step form, modelled as the class `LetterForm`, with `handleNext`, Back and the
    input edits;
  - the PDF pagination loop `generatePDF`, proved against a pagination function;
  - the paragraphs of the Word export.
- **The request middleware, `middleware.ts`** (`middleware.dfy`): whether a request is
  redirected to `/login`, redirected to `/dashboard` or passed through.

The shared JavaScript string operations are in `text.dfy`:
- `split` on one character (`"".split(c)` is `[""]`);
- `join`;
- `trim`, with the ECMAScript whitespace set;
- `startsWith`;
- `replace(/\s+/g, …)` and `replace(/[*_]/g, '')`;
- `filter(Boolean)`.

The bullet that `generate-resume.js` draws is modelled as written in that file: the three
characters `â€¢` (U+2022 encoded as UTF-8 and then read as Windows-1252). The optimizing
handler uses the real `•`.

Points where the model follows the code rather than the obvious reading of it:
- Overflow is checked after each section slot, not before its title.
- A bulleted section can run past the bottom margin. So the model proves
  `checkPageOverflow`'s contract and a bound on the page count, not that every line stays
  above the margin.
- The Technical Skills section of the PDF handler draws the skills text as bullets split on
  newlines. It has no `Skills:` prefix.
- The project-title rule of the optimizing handler is the regular expression
  `/^[^\•-]+(\([^)]+\))?$/`. It is not "contains neither `•` nor `-`": a trailing
  parenthesised group may hold both (`TitleWithDashInGroup`).
- A project title lists every later bullet line, not only those up to the next title
  (`EntryBulletsOverlap`).
- The middleware's matcher is a regular expression, so the `.` in `favicon.ico` matches any
  character other than a line terminator (`FaviconWildcard`).

## Model

| member | source | states |
|---|---|---|
| Text.Split | pages/api/generate-resume.js:44 | `split` yields at least one piece |
| Text.SplitPiecesFree | pages/api/generate-resume.js:44 | no piece `split` yields contains the separator |
| Text.JoinSplit | app/resignation-letter/page.js:105 | joining the pieces of a split with the same character gives back the string |
| Text.SplitJoin | pages/api/generate-resume.js:140-144 | splitting a join of separator-free pieces gives back the pieces |
| Text.Trim | pages/api/generate-resume.js:52 | `trim` leaves no whitespace at either end |
| Text.TrimIsInfix | pages/api/generate-resume.js:90 | `trim` keeps an infix of its argument and removes only whitespace around it |
| Text.TrimEmptyIff | pages/api/generate-resume.js:88 | a line trims to the empty string exactly when it is all whitespace |
| Text.RemoveChars | pages/api/generate-resume.js:127 | `replace(/[*_]/g, '')` leaves none of the removed characters and adds none |
| Text.ToUpper | pages/api/generate-resume.js:129 | upper-casing keeps the length, leaves no lower-case ASCII letter and changes only those |
| Text.ReplaceWhitespaceRuns | pages/api/generate-resume.js:231 | `replace(/\s+/g, '_')` leaves no whitespace and yields the empty string only for the empty string |
| Text.DropEmpty | pages/api/generate-resume.js:144 | `filter(Boolean)` never lengthens the list |
| Text.DropEmptyKeeps | pages/api/generate-resume.js:144 | `filter(Boolean)` keeps exactly the non-empty strings, all of them non-empty |
| Wrap.WrapText | pages/api/generate-resume.js:44-58 | the word loop of `addText` computes exactly the lines of the greedy wrapping fold |
| Wrap.AccumulateInvariant | pages/api/generate-resume.js:48-57 | after any prefix of the words, the closed lines and the open buffer hold those words in order, and every closed line was closed only because the next word overflowed it |
| Wrap.GroupsPartition | pages/api/generate-resume.js:44-58 | the lines' words, concatenated in order, are the text's space-separated words, and no line is empty of words |
| Wrap.GroupsFit | pages/api/generate-resume.js:51-55 | a line holding two or more words measures at most `maxWidth`, so only a single word can overflow |
| Wrap.GroupsGreedy | pages/api/generate-resume.js:51-53 | a line is closed only when its buffer plus the next word and a space is wider than `maxWidth` |
| Wrap.WrapLinesCount | pages/api/generate-resume.js:58 | at least one line is emitted, and never more lines than words |
| Wrap.WrapEmptyText | pages/api/generate-resume.js:44-58 | the empty text is drawn as one empty line |
| Wrap.LinesOfIndex | pages/api/generate-resume.js:51-58 | each emitted line is the trimmed buffer of its group of words |
| Wrap.LineFits | pages/api/generate-resume.js:51-52 | under a measure that is monotone on infixes, every emitted line of two or more words is within `maxWidth` |
| ResumePdf.LineDrawsPlaced | pages/api/generate-resume.js:60-68 | line `i` is drawn at `x`, at height `y - i * lineHeight`, in the given font and size, on the current page |
| ResumePdf.NonBlankLines | pages/api/generate-resume.js:88 | `filter(line => line.trim())` never lengthens the list |
| ResumePdf.NonBlankLinesKeeps | pages/api/generate-resume.js:88 | `filter(line => line.trim())` keeps exactly the lines that are not blank |
| ResumePdf.Bullet | pages/api/generate-resume.js:93-109 | one bullet lowers the cursor by at least 14 |
| ResumePdf.BulletPlaced | pages/api/generate-resume.js:93-109 | everything a bullet draws is on the current page, strictly above the new cursor and no higher than the old one |
| ResumePdf.BulletRun | pages/api/generate-resume.js:89-112 | the cursor never rises while a section's bullets are drawn |
| ResumePdf.BulletRunPlaced | pages/api/generate-resume.js:89-112 | all the bullets of a section are on one page, between the final cursor and the starting one |
| ResumePdf.BulletRunDrop | pages/api/generate-resume.js:89-112 | each non-blank line lowers the cursor by at least one 14-point line |
| ResumePdf.ContactLines | pages/api/generate-resume.js:140-144 | the contact content splits into the email line (or `Email: Not provided`), then the phone and LinkedIn lines when present |
| ResumePdf.ContactContentStart | pages/api/generate-resume.js:140-144 | the contact content starts with `Email: `, so the Contact Information section is always drawn |
| ResumePdf.PdfDocument.constructor | pages/api/generate-resume.js:30-31 | a new document has one page and no draws |
| ResumePdf.PdfDocument.AddPage | pages/api/generate-resume.js:118 | `addPage` adds one page and draws nothing |
| ResumePdf.PdfDocument.DrawText | pages/api/generate-resume.js:61-67 | `drawText` appends one draw on the current page |
| ResumePdf.PdfDocument.DrawLines | pages/api/generate-resume.js:60-68 | the drawing loop appends line `i` at `y - i * lineHeight` on the current page |
| ResumePdf.PdfDocument.AddText | pages/api/generate-resume.js:43-71 | `addText` appends the draws of the wrapped lines and returns the number of lines times `lineHeight` |
| ResumePdf.PdfDocument.TitledBullets | pages/api/generate-resume.js:78-112 | the bold 14-point title at `sectionY` on the current page, then the bullet run of the given lines from 20 points lower, and the cursor where the run ends |
| ResumePdf.PdfDocument.AddSectionWithBullets | pages/api/generate-resume.js:74-113 | empty content draws nothing and returns `sectionY`; otherwise the bold 14-point title at `sectionY`, then the bullets of the non-blank lines from `sectionY - 20`, and the cursor where they end |
| ResumePdf.PdfDocument.AddBullets | pages/api/generate-resume.js:89-111 | the loop draws one bullet per line with text and skips blank lines |
| ResumePdf.PdfDocument.AddBullet | pages/api/generate-resume.js:93-109 | the bullet glyph at `sectionX + 10`, the trimmed line wrapped to `width - sectionX - margin - 25` at `sectionX + 25`, and the cursor lowered by the height used |
| ResumePdf.PdfDocument.CheckPageOverflow | pages/api/generate-resume.js:116-122 | at or above the margin, `y` is returned and nothing changes; below it, exactly one page is added and `height - margin` is returned |
| ResumePdf.Overflowed | pages/api/generate-resume.js:116-122 | an overflow check draws nothing, leaves the cursor at or above the margin and adds at most one page |
| ResumePdf.Section | pages/api/generate-resume.js:74-113 | a section stays on the current page, keeps every earlier draw and never raises the cursor |
| ResumePdf.SectionSlotLayout | pages/api/generate-resume.js:164-166 | a bulleted section slot keeps every earlier draw, adds at most one page and leaves the cursor at or above the margin |
| ResumePdf.Headed | pages/api/generate-resume.js:149-158 | a heading with its text stays on the current page, keeps every earlier draw and lowers the cursor by at least 34 points |
| ResumePdf.HeadedSlot | pages/api/generate-resume.js:149-160 | the Summary or References slot keeps every earlier draw, adds at most one page and leaves the cursor at or above the margin |
| ResumePdf.OpeningLayout | pages/api/generate-resume.js:124-146 | the opening ends on the first or second page with the cursor at or above the margin |
| ResumePdf.BodyLayout | pages/api/generate-resume.js:148-186 | Summary and the five bulleted sections keep every earlier draw, add at most six pages and leave the cursor at or above the margin |
| ResumePdf.ReferencesLayout | pages/api/generate-resume.js:188-207 | the References slot keeps every earlier draw, adds at most one page and leaves the cursor at or above the margin |
| ResumePdf.TailoringLayout | pages/api/generate-resume.js:209-221 | the tailoring note stays on the current page and keeps every earlier draw |
| ResumePdf.ResumeLayout | pages/api/generate-resume.js:124-221 | the whole resume ends on page 9 at the latest |
| ResumePdf.BoldTextsAppend | pages/api/generate-resume.js:124-221 | the bold texts of consecutive draws are the bold texts of each part, in order |
| ResumePdf.SectionBold | pages/api/generate-resume.js:74-113 | a bulleted section slot adds its title to the bold texts exactly when its content is non-empty, and nothing else |
| ResumePdf.HeadedBold | pages/api/generate-resume.js:149-158 | a heading with its text adds exactly the heading to the bold texts |
| ResumePdf.BodyBold | pages/api/generate-resume.js:148-186 | the body adds Summary, Technical Skills, Professional Experience, Education, Certifications and Achievements to the bold texts, in that order, each exactly when its field is non-empty |
| ResumePdf.OpeningBold | pages/api/generate-resume.js:130-146 | the opening's bold texts are the job title and then the Contact Information heading |
| ResumePdf.ReferencesBold | pages/api/generate-resume.js:188-207 | the References slot adds exactly its heading to the bold texts |
| ResumePdf.TailoringBold | pages/api/generate-resume.js:209-221 | the tailoring slot adds `Tailored For:` to the bold texts exactly when the job description is non-empty |
| ResumePdf.ResumeSectionOrder | pages/api/generate-resume.js:124-221 | the bold texts of the resume are exactly the job title, Contact Information, each optional section heading whose field is non-empty, References and `Tailored For:`, in the fixed order of the handler |
| ResumePdf.OpeningStarts | pages/api/generate-resume.js:130-144 | the opening is the job title, the Contact Information heading 30 points below it, then the contact bullets from 20 points lower |
| ResumePdf.OpeningInResume | pages/api/generate-resume.js:124-221 | the opening's draws are the first draws of the resume |
| ResumePdf.ResumeOpening | pages/api/generate-resume.js:130-140 | the resume's first two draws are the job title in bold 16 at the top margin of the first page and the Contact Information heading 30 points below it |
| ResumePdf.BulletRunFirst | pages/api/generate-resume.js:89-109 | a section's draws start with the bullet of its first line when that line has text |
| ResumePdf.ResumeEmailFirst | pages/api/generate-resume.js:139-144 | right after the two opening headings the resume draws the email bullet, `Email: Not provided` without an email, 20 points below the contact heading |
| ResumePdf.TailoringCloses | pages/api/generate-resume.js:209-221 | for a non-empty job description the tailoring slot ends the draws with the bold `Tailored For:` heading at the cursor on the current page and the wrapped note 20 points below it |
| ResumePdf.ResumeClosing | pages/api/generate-resume.js:188-221 | the last draws of the resume are the `Tailored For:` heading on its last page and the wrapped note below it: nothing is drawn after the note |
| ResumePdf.SectionSlot | pages/api/generate-resume.js:164-166 | the section slot on the document draws exactly what the reference slot adds, on the same pages, and returns its cursor |
| ResumePdf.HeadedText | pages/api/generate-resume.js:149-158 | a heading at the margin with its text wrapped across the full width, exactly as the reference layout places them |
| ResumePdf.HeadedTextSlot | pages/api/generate-resume.js:149-160 | the Summary and References slots on the document equal the reference slot, overflow check included |
| ResumePdf.Opening | pages/api/generate-resume.js:124-146 | on a fresh document, the job title and the Contact Information slot produce exactly the reference opening |
| ResumePdf.Body | pages/api/generate-resume.js:148-186 | the Summary slot when there is a summary, then the five bulleted slots in order, produce exactly the reference body |
| ResumePdf.TailoringSlot | pages/api/generate-resume.js:209-221 | the tailoring note is drawn only for a non-empty job description, exactly as in the reference layout |
| ResumePdf.Compose | pages/api/generate-resume.js:124-221 | on a fresh one-page document the composition draws exactly the reference resume layout, with the page count it reaches |
| ResumePdf.GenerateResume | pages/api/generate-resume.js:3-240 | 405 for another method; 400 without details or job description; 500 when the name is missing; otherwise the reference layout's draws on between 1 and 9 pages, every draw on an existing page, the headings in the fixed section order, the job title and contact heading first, the tailoring note last, and the file name |
| ResumeFields.TitleTextShape | pages/api/generate-resume.js:125-128 | the stripped first line has no newline, `*` or `_`, and no whitespace at either end |
| ResumeFields.FallbacksShaped | pages/api/generate-resume.js:129 | both fallback titles have the shape of a derived title |
| ResumeFields.JobTitleShaped | pages/api/generate-resume.js:125-129 | the job title is always a non-empty single line without `*`, `_` or lower-case ASCII letters, and with no whitespace at either end |
| ResumeFields.JobTitleOfShaped | pages/api/generate-resume.js:125-129 | a job description that already has the title shape is its own title |
| ResumeFields.JobTitleIdempotent | pages/api/optimize-resume.js:132-136 | deriving the title from a derived title changes nothing |
| ResumeFields.FileNameShape | pages/api/generate-resume.js:231 | the file name is `resume_`, a non-empty run without whitespace, and `.pdf`; the middle is `candidate` for the empty name |
| ResumeFields.FileNameKeepsPlainName | pages/api/generate-resume.js:231 | a name without whitespace appears unchanged in the file name |
| ResumeFields.FileNameRulesAgree | pages/api/optimize-resume.js:264 | the two handlers' file-name rules agree on every name |
| OptimizeResume.NonEmptyPieces | pages/api/optimize-resume.js:123-124 | a string is in the split list exactly when it is a non-empty piece of the field |
| OptimizeResume.NonEmptyPiecesUnguarded | pages/api/optimize-resume.js:123 | the guard on an empty field does not change the result |
| OptimizeResume.WhitespaceLinesSurvive | pages/api/optimize-resume.js:123-129 | a line of only whitespace is kept |
| OptimizeResume.TrimAllAt | pages/api/optimize-resume.js:126 | `map(s => s.trim())` trims every item in place |
| OptimizeResume.SkillItemsShape | pages/api/optimize-resume.js:125-127 | each skill is non-empty, has no comma and has no whitespace at either end |
| OptimizeResume.TrimmedItemsShape | pages/api/optimize-resume.js:125-127 | trimming comma-free pieces and dropping the empty ones leaves only non-empty, comma-free items with no whitespace at either end |
| OptimizeResume.SkillItemsOfList | pages/api/optimize-resume.js:125-127 | a comma-joined list of such skills is read back item for item |
| OptimizeResume.TitleGuardRedundant | pages/api/optimize-resume.js:165 | the `!line.startsWith('•')` clause never changes whether a line is a title |
| OptimizeResume.TitleBasics | pages/api/optimize-resume.js:165 | a non-empty line without `•` or `-` is a title, and a title never starts with `•` or `-` |
| OptimizeResume.TitleWithDashInGroup | pages/api/optimize-resume.js:165 | `App (Node-JS)` is a title and `App - Node` is not |
| OptimizeResume.TitleWithMarkEndsInGroup | pages/api/optimize-resume.js:165 | a title that holds `•` or `-` ends with `)` |
| OptimizeResume.ProjectBullets | pages/api/optimize-resume.js:171-176 | at most one bullet per later line |
| OptimizeResume.ProjectBulletsAppend | pages/api/optimize-resume.js:171-176 | the bullets of consecutive runs of lines are the runs' bullets in order |
| OptimizeResume.BulletsRunPastNextTitle | pages/api/optimize-resume.js:171-176 | the bullets listed under a title are the bullet lines up to any later title, followed by every bullet line after that title |
| OptimizeResume.TitleIndicesExact | pages/api/optimize-resume.js:163-168 | the positions collected are title lines, and every title line at or after the start is among them |
| OptimizeResume.TitleIndicesAscending | pages/api/optimize-resume.js:163-168 | the title positions come in increasing order, so each title line once and in order |
| OptimizeResume.ProjectEntriesByTitle | pages/api/optimize-resume.js:160-181 | there is exactly one entry per title line, in order, and the entry for the title at position `k` is that line with the bullets of every line after `k` |
| OptimizeResume.ProjectEntriesTitled | pages/api/optimize-resume.js:160-181 | every entry is headed by a title line of the project lines, and every title line heads the entry listing the bullets after it |
| OptimizeResume.EntryBulletsOverlap | pages/api/optimize-resume.js:160-181 | consecutive entries share bullets: an entry lists the bullets up to the next title line, then the next entry's whole list |
| OptimizeResume.ContactLineCases | pages/api/optimize-resume.js:155 | without phone and LinkedIn the line is the email; with a phone it starts with `phone • `; its length counts each present value and separator |
| OptimizeResume.LayoutOnlyNonEmpty | pages/api/optimize-resume.js:160-225 | a list block appears only when its list is non-empty |
| OptimizeResume.LayoutKeepsNonEmpty | pages/api/optimize-resume.js:160-234 | a non-empty list always gets its block, and Additional Information is the last block |
| OptimizeResume.BlocksPresence | pages/api/optimize-resume.js:122-234 | for an extracted record, each list block appears exactly when its shaped field is non-empty, and the last block carries the derived job title |
| OptimizeResume.EmptyRecordRendersOnlyAdditional | pages/api/optimize-resume.js:227-234 | a record with no list fields renders only Additional Information |
| OptimizeResume.Optimize | pages/api/optimize-resume.js:81-264 | a resume is rendered exactly when the method is POST, a file came in, the job description is non-empty and a name was extracted; it is headed by the name, carries the contact line and the blocks of the extracted record, and is named after the name |
| OptimizeResume.RenderedBlocks | pages/api/optimize-resume.js:122-234 | a rendered resume has a block for each non-empty shaped field of the extracted record and none for an empty one, and ends with Additional Information for the derived job title |
| OptimizeResume.GuardOrder | pages/api/optimize-resume.js:82-119 | 405, then the two 400s for the file and the job description, then the 400 for the name, the first failing guard deciding |
| OptimizeResume.FileNamesAgree | pages/api/optimize-resume.js:264 | the optimizing handler's file name equals the resume handler's rule |
| ResignationLetter.Digits | app/resignation-letter/page.js:202 | `replace(/\D/g, '')` keeps only digits and never lengthens |
| ResignationLetter.FormatPhoneSplits | app/resignation-letter/page.js:202-208 | the kept digits are at most ten, and the output groups them 3-3-rest, 3-rest or bare |
| ResignationLetter.FormatPhoneShape | app/resignation-letter/page.js:202-211 | the output is at most 12 characters, the input's `maxLength`, and removing its dashes gives exactly the kept digits |
| ResignationLetter.FormatPhoneIdempotent | app/resignation-letter/page.js:201-209 | formatting a formatted number changes nothing |
| ResignationLetter.FailureMessage | app/resignation-letter/page.js:62-69 | a failed request always shows a non-empty error, the server's own when it sent one |
| ResignationLetter.LetterForm.constructor | app/resignation-letter/page.js:11-25 | the page starts on the personal step with every field, the letter and the error empty |
| ResignationLetter.LetterForm.EditPersonal | app/resignation-letter/page.js:160-267 | a personal input other than the phone stores its text and changes nothing else: the phone keeps its formatted value, and the step invariant holds |
| ResignationLetter.LetterForm.EditPhone | app/resignation-letter/page.js:201-211 | the phone field holds the formatted input, at most 12 characters, whose digits are the kept ones; the field stays a fixed point of the formatter |
| ResignationLetter.LetterForm.EditEmployer | app/resignation-letter/page.js:268-336 | an employer input changes only the employer details |
| ResignationLetter.LetterForm.EditLetter | app/resignation-letter/page.js:389-393 | editing the letter changes only the letter |
| ResignationLetter.LetterForm.HandleNext | app/resignation-letter/page.js:27-77 | the personal step advances and clears the error exactly when all six fields are filled, else sets the personal error; the employer step sends a request exactly when the four required fields are filled, then sets the letter or the failure message, else sets the employer error; the employer step always has complete personal details |
| ResignationLetter.LetterForm.Back | app/resignation-letter/page.js:341-348 | Back returns to the personal step and changes nothing else |
| ResignationLetter.Paginate | app/resignation-letter/page.js:92-99 | one placed line per input line |
| ResignationLetter.PaginateInOrder | app/resignation-letter/page.js:92-99 | lines are drawn in order at the left margin, and the cursor ends one line below the last |
| ResignationLetter.PaginateWithinMargins | app/resignation-letter/page.js:93-97 | when a page fits a line, every line lies between the top margin and `pageHeight - margin` |
| ResignationLetter.PaginateGreedy | app/resignation-letter/page.js:93-98 | the first line opens page 0 at the margin; each next line stays on the page one line lower exactly when it fits, else starts the next page at the margin |
| ResignationLetter.PaginateNoBlankPage | app/resignation-letter/page.js:93-96 | when a page fits a line, every page up to the last holds a line |
| ResignationLetter.GeneratePdf | app/resignation-letter/page.js:79-101 | the loop draws exactly the paginated lines, and the page count is the last page plus one |
| ResignationLetter.WordParagraphs | app/resignation-letter/page.js:104-119 | one paragraph per `'\n'`-separated line |
| ResignationLetter.WordRoundTrip | app/resignation-letter/page.js:105-117 | the paragraph texts joined with newlines give back the letter |
| ResignationLetter.WordParagraphPerLine | app/resignation-letter/page.js:105-117 | for a letter written as lines, paragraph `i` is line `i` in size 24, with spacing 100 exactly for the first five |
| Middleware.AnyPrefix | middleware.ts:36 | `some(startsWith)` holds exactly when some listed route is a prefix of the path |
| Middleware.Decide | middleware.ts:34-57 | the middleware only ever redirects to `/login` or `/dashboard` |
| Middleware.DecisionTable | middleware.ts:22-57 | `/login` exactly without a session on a non-public path; `/dashboard` exactly with a session on a path starting `/login` or `/signup`; otherwise, a failed lookup included, the request passes |
| Middleware.PublicByPrefix | middleware.ts:23-36 | any path extending a public route is public |
| Middleware.PublicExamples | middleware.ts:36 | `/loginfoo` is public and `/dashboard` is not |
| Middleware.NoRedirectLoop | middleware.ts:34-51 | the page a visitor is redirected to passes for the same visitor |
| Middleware.SignedInRedirectsArePublic | middleware.ts:23-31 | every path a signed-in visitor is sent away from is public |
| Middleware.StaticAssetsPass | middleware.ts:61-65 | nothing under `/_next/static` is redirected |
| Middleware.FaviconAnyDot | middleware.ts:63 | `favicon`, any one character other than a line terminator, then `ico`, starts a path the matcher excludes |
| Middleware.FaviconWildcard | middleware.ts:61-65 | the `.` of `favicon.ico` in the matcher matches any character: `/favicon.ico` and `/favicon-ico` both pass through |
| Middleware.FaviconOtherExtension | middleware.ts:61-65 | `/favicon.png` is not excluded by the matcher and reaches the session check |

## Left out

- The language-model calls, PDF parsing, the multipart upload, temporary files, Puppeteer rendering and base64 encoding are external I/O. The record the model extracts is an input to `OptimizeResume.Optimize`. The HTML markup and its CSS (the heading is upper-cased by a CSS class) are not modelled; the blocks the template renders are.
- Font widths are floating-point values from the PDF library. The measure is an uninterpreted integer function. Colours and the PDF bytes are not modelled.
- jsPDF's `splitTextToSize` is a library call. `GeneratePdf` takes the wrapped lines and the page height (A4, 297 mm, by default) as parameters. Saving the file and the docx `Packer`/`saveAs` calls are not modelled.
- ResumePdf.GenerateResume: the 500 answer models only the failure the handler itself causes, calling `replace` on a missing name. Failures inside the PDF library and the `details` field are not modelled.
- ResumePdf.UserDetails: text fields other than the name are strings, with a missing field as the empty string. The handler treats both alike in every test it makes.
- Text.ToUpper: upper-cases only the ASCII letters. JavaScript's `toUpperCase` also maps other letters, so the contract speaks only of ASCII letters.
- ResignationLetter.LetterForm.HandleNext: the server's answer is one `Outcome` parameter. So the `isGenerating` flag, which disables the button while the request is in flight and is cleared in `finally`, is not modelled. Neither is the JSON request body beyond its personal and employer fields.
- Middleware.Decide: a redirect is modelled by its new path only. The cloned URL's other parts, the logging and the session refresh are not modelled.
- The cover-letter and resignation generation endpoints, authentication pages, dashboard, sidebar and layouts are not part of this model.
