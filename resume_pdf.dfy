/**
 * The manual PDF layout of pages/api/generate-resume.js.
 *
 * The handler draws onto a PDF document page by page while moving a vertical
 * cursor down from the top margin. Here the document is an object that
 * records every draw call as a `Draw` instruction (page, position, text, font,
 * size) and counts its pages; `addText`, `addSectionWithBullets` and
 * `checkPageOverflow` are its methods, and the handler composes the resume
 * in its fixed section order. Text width comes from an uninterpreted measure.
 */
module ResumePdf {
  import opened Wrappers
  import opened Text
  import opened Wrap
  import opened ResumeFields

  /** US Letter, in points, and the margin on every side. */
  const PageWidth: int := 612
  const PageHeight: int := 792
  const Margin: int := 50

  /** The bullet string as it stands in the source: the UTF-8 bytes of U+2022 read as Windows-1252. */
  const BulletGlyph: string := "\U{00E2}\U{20AC}\U{00A2}"

  /** Where a body line of a bulleted section may run: from `x + 25` to the right margin. */
  function BulletTextWidth(x: int): int {
    PageWidth - x - Margin - 25
  }

  /** One `page.drawText` call. */
  datatype Draw = Draw(page: nat, x: int, y: int, text: string, font: Font, size: int)

  /** The draws of `lines`, one per line, in order. */
  function LineDraws(lines: seq<string>, page: nat, x: int, y: int, lineHeight: int, font: Font, size: int): (r: seq<Draw>)
    ensures |r| == |lines|
  {
    if lines == [] then []
    else LineDraws(lines[..|lines| - 1], page, x, y, lineHeight, font, size)
         + [Draw(page, x, y - (|lines| - 1) * lineHeight, lines[|lines| - 1], font, size)]
  }

  /** Line `i` is drawn at height `y - i * lineHeight`, in the given font and size, on `page`. */
  lemma {:induction false} LineDrawsPlaced(lines: seq<string>, page: nat, x: int, y: int, lineHeight: int, font: Font, size: int)
    ensures forall i :: 0 <= i < |lines| ==>
      LineDraws(lines, page, x, y, lineHeight, font, size)[i] == Draw(page, x, y - i * lineHeight, lines[i], font, size)
  {
    if lines != [] {
      LineDrawsPlaced(lines[..|lines| - 1], page, x, y, lineHeight, font, size);
    }
  }

  /** Drawing line `index` extends the draws of the lines before it. */
  lemma LineDrawsStep(lines: seq<string>, index: nat, page: nat, x: int, y: int, lineHeight: int, font: Font, size: int)
    requires index < |lines|
    ensures LineDraws(lines[..index + 1], page, x, y, lineHeight, font, size)
         == LineDraws(lines[..index], page, x, y, lineHeight, font, size) + [Draw(page, x, y - index * lineHeight, lines[index], font, size)]
  {
    assert lines[..index + 1][..index] == lines[..index];
  }

  /** `lines.filter(line => line.trim())`: the lines that are not blank, in order. */
  function NonBlankLines(lines: seq<string>): (r: seq<string>)
    ensures |r| <= |lines|
  {
    if lines == [] then []
    else
      var rest := NonBlankLines(lines[1..]);
      if Trim(lines[0]) != "" then [lines[0]] + rest else rest
  }

  /** The filter keeps exactly the lines with text. */
  lemma {:induction false} NonBlankLinesKeeps(lines: seq<string>)
    ensures var r := NonBlankLines(lines);
      && (forall i :: 0 <= i < |r| ==> Trim(r[i]) != "")
      && (forall l :: l in r <==> l in lines && Trim(l) != "")
  {
    if lines != [] {
      NonBlankLinesKeeps(lines[1..]);
      assert forall l :: l in lines <==> l == lines[0] || l in lines[1..];
    }
  }

  /** The draws of a run of bullets and where the cursor ends. */
  datatype Run = Run(draws: seq<Draw>, y: int)

  /** Every draw of `r` is on `page`, in plain Helvetica, strictly above the cursor `r.y` and no
      higher than `top`. */
  ghost predicate Within(r: Run, page: nat, top: int) {
    forall i :: 0 <= i < |r.draws| ==>
      r.draws[i].page == page && r.draws[i].font == Helvetica && r.y < r.draws[i].y <= top
  }

  /** One bullet at cursor `y`: the glyph at `x + 10` and the wrapped text at `x + 25`, the cursor
      dropping by 14 per wrapped line, so by at least 14. */
  function Bullet(text: string, m: Metrics, page: nat, x: int, y: int): (r: Run)
    ensures r.y <= y - 14
  {
    var wrapped := WrapLines(text, m, Helvetica, 12, BulletTextWidth(x));
    WrapLinesCount(text, m, Helvetica, 12, BulletTextWidth(x));
    Run([Draw(page, x + 10, y, BulletGlyph, Helvetica, 12)] + LineDraws(wrapped, page, x + 25, y, 14, Helvetica, 12),
        y - |wrapped| * 14)
  }

  /** Everything a bullet draws is on `page`, between the new cursor and `y`. */
  lemma BulletPlaced(text: string, m: Metrics, page: nat, x: int, y: int)
    ensures Within(Bullet(text, m, page, x, y), page, y)
  {
    var wrapped := WrapLines(text, m, Helvetica, 12, BulletTextWidth(x));
    LineDrawsPlaced(wrapped, page, x + 25, y, 14, Helvetica, 12);
  }

  /** The bullets of a section starting at cursor `y0`, one per line with text. */
  function BulletRun(lines: seq<string>, m: Metrics, page: nat, x: int, y0: int): (r: Run)
    ensures r.y <= y0
  {
    if lines == [] then Run([], y0)
    else
      var prev := BulletRun(lines[..|lines| - 1], m, page, x, y0);
      var trimmed := Trim(lines[|lines| - 1]);
      if trimmed != "" then
        var b := Bullet(trimmed, m, page, x, prev.y);
        Run(prev.draws + b.draws, b.y)
      else prev
  }

  /** Everything a section's bullets draw is on `page`, strictly above the final cursor and no
      higher than where they started. */
  lemma {:induction false} BulletRunPlaced(lines: seq<string>, m: Metrics, page: nat, x: int, y0: int)
    ensures Within(BulletRun(lines, m, page, x, y0), page, y0)
  {
    if lines != [] {
      var prefix := lines[..|lines| - 1];
      BulletRunPlaced(prefix, m, page, x, y0);
      var prev := BulletRun(prefix, m, page, x, y0);
      var trimmed := Trim(lines[|lines| - 1]);
      if trimmed != "" {
        BulletPlaced(trimmed, m, page, x, prev.y);
        var b := Bullet(trimmed, m, page, x, prev.y);
        var r := BulletRun(lines, m, page, x, y0);
        assert r == Run(prev.draws + b.draws, b.y);
        forall i | 0 <= i < |r.draws|
          ensures r.draws[i].page == page && r.draws[i].font == Helvetica && r.y < r.draws[i].y <= y0
        {
          if i < |prev.draws| {
            assert r.draws[i] == prev.draws[i];
          } else {
            assert r.draws[i] == b.draws[i - |prev.draws|];
          }
        }
      }
    }
  }

  /** The draws and cursor after the bullet of line `i`, if it has text, are those of the run
      over the first `i + 1` lines. */
  lemma BulletRunNext(lines: seq<string>, i: nat, m: Metrics, page: nat, x: int, y0: int,
                      start: seq<Draw>, drawn: seq<Draw>, y: int)
    requires i < |lines|
    requires var prev := BulletRun(lines[..i], m, page, x, y0);
      if Trim(lines[i]) != "" then
        var b := Bullet(Trim(lines[i]), m, page, x, prev.y);
        drawn == start + prev.draws + b.draws && y == b.y
      else
        drawn == start + prev.draws && y == prev.y
    ensures var r := BulletRun(lines[..i + 1], m, page, x, y0);
      drawn == start + r.draws && y == r.y
  {
    assert lines[..i + 1][..i] == lines[..i];
    var prev := BulletRun(lines[..i], m, page, x, y0);
    if Trim(lines[i]) != "" {
      var b := Bullet(Trim(lines[i]), m, page, x, prev.y);
      AppendAssoc(start, prev.draws, b.draws);
    }
  }

  lemma AppendAssoc<T>(a: seq<T>, b: seq<T>, c: seq<T>)
    ensures a + b + c == a + (b + c)
  {
  }

  /** With only non-blank lines, every line costs at least one 14-point line of height. */
  lemma {:induction false} BulletRunDrop(lines: seq<string>, m: Metrics, page: nat, x: int, y0: int)
    requires forall i :: 0 <= i < |lines| ==> Trim(lines[i]) != ""
    ensures BulletRun(lines, m, page, x, y0).y <= y0 - 14 * |lines|
  {
    if lines != [] {
      var prefix := lines[..|lines| - 1];
      BulletRunDrop(prefix, m, page, x, y0);
    }
  }

  /** The Contact Information content: the email line (or `Not provided`), then the phone
      and LinkedIn lines when given, joined by newlines. */
  function ContactContent(email: string, phone: string, linkedIn: string): string {
    Join(DropEmpty([
      "Email: " + (if email != "" then email else "Not provided"),
      if phone != "" then "Phone: " + phone else "",
      if linkedIn != "" then "LinkedIn: " + linkedIn else ""]), "\n")
  }

  /** The contact content is never empty: the section is always drawn, its first line being
      the email line. With no newline in the fields, its lines are exactly the given entries. */
  lemma ContactLines(email: string, phone: string, linkedIn: string)
    requires '\n' !in email && '\n' !in phone && '\n' !in linkedIn
    ensures var emailLine := "Email: " + (if email != "" then email else "Not provided");
      Split(ContactContent(email, phone, linkedIn), '\n')
        == [emailLine]
           + (if phone != "" then ["Phone: " + phone] else [])
           + (if linkedIn != "" then ["LinkedIn: " + linkedIn] else [])
  {
    var emailLine := "Email: " + (if email != "" then email else "Not provided");
    var phoneLine := if phone != "" then "Phone: " + phone else "";
    var linkedInLine := if linkedIn != "" then "LinkedIn: " + linkedIn else "";
    var entries := [emailLine, phoneLine, linkedInLine];
    var kept := [emailLine]
      + (if phone != "" then ["Phone: " + phone] else [])
      + (if linkedIn != "" then ["LinkedIn: " + linkedIn] else []);
    assert emailLine != [] && emailLine[0] == 'E';
    assert DropEmpty(entries) == kept by {
      assert entries[1..][1..] == [linkedInLine];
      assert [linkedInLine][1..] == [];
      assert DropEmpty([linkedInLine]) == if linkedIn != "" then [linkedInLine] else [];
      assert entries[1..] == [phoneLine, linkedInLine];
    }
    forall i | 0 <= i < |kept| ensures '\n' !in kept[i] {
      NoNewlineInLabelled(email, phone, linkedIn);
    }
    SplitJoin(kept, '\n');
  }

  lemma NoNewlineInLabelled(email: string, phone: string, linkedIn: string)
    requires '\n' !in email && '\n' !in phone && '\n' !in linkedIn
    ensures '\n' !in "Email: " + (if email != "" then email else "Not provided")
    ensures '\n' !in "Phone: " + phone && '\n' !in "LinkedIn: " + linkedIn
  {
  }

  // -----------------------------------------------------------------------
  // The document

  /** The PDF under construction: its pages and every text drawn so far. The page drawn on
      is always the last one added. */
  class PdfDocument {
    var pageCount: nat
    var draws: seq<Draw>
    const measure: Metrics

    ghost predicate Valid()
      reads this
    {
      pageCount >= 1 && forall i :: 0 <= i < |draws| ==> draws[i].page < pageCount
    }

    /** The document seen as a layout, with the cursor at `y`. */
    function State(y: int): Layout
      reads this
      requires pageCount >= 1
    {
      Layout(draws, pageCount - 1, y)
    }

    /** `PDFDocument.create()` followed by the first `addPage`. */
    constructor (measure: Metrics)
      ensures Valid() && pageCount == 1 && draws == [] && this.measure == measure
    {
      this.measure := measure;
      pageCount := 1;
      draws := [];
    }

    /** `pdfDoc.addPage`: the new page becomes the one drawn on. */
    method AddPage()
      requires Valid()
      modifies this
      ensures Valid() && pageCount == old(pageCount) + 1 && draws == old(draws)
    {
      pageCount := pageCount + 1;
    }

    /** `page.drawText` on the current page. */
    method DrawText(text: string, x: int, y: int, font: Font, size: int)
      requires Valid()
      modifies this
      ensures Valid() && pageCount == old(pageCount)
      ensures draws == old(draws) + [Draw(pageCount - 1, x, y, text, font, size)]
    {
      draws := draws + [Draw(pageCount - 1, x, y, text, font, size)];
    }

    /** The drawing half of `addText`: line `index` at `y - index * lineHeight` on the current page. */
    method DrawLines(lines: seq<string>, font: Font, size: int, x: int, y: int, lineHeight: int)
      requires Valid()
      modifies this
      ensures Valid() && pageCount == old(pageCount)
      ensures draws == old(draws) + LineDraws(lines, pageCount - 1, x, y, lineHeight, font, size)
    {
      ghost var start := draws;
      for index := 0 to |lines|
        invariant Valid() && pageCount == old(pageCount)
        invariant draws == start + LineDraws(lines[..index], pageCount - 1, x, y, lineHeight, font, size)
      {
        LineDrawsStep(lines, index, pageCount - 1, x, y, lineHeight, font, size);
        DrawText(lines[index], x, y - index * lineHeight, font, size);
      }
      assert lines[..|lines|] == lines;
    }

    /** `addText`: wraps `text` greedily and draws line `i` at `y - i * lineHeight`;
        returns the height used, one `lineHeight` per line. */
    method AddText(text: string, font: Font, size: int, x: int, y: int, maxWidth: int, lineHeight: int)
      returns (height: int)
      requires Valid()
      modifies this
      ensures Valid() && pageCount == old(pageCount)
      ensures draws == old(draws) + LineDraws(WrapLines(text, measure, font, size, maxWidth), pageCount - 1, x, y, lineHeight, font, size)
      ensures height == |WrapLines(text, measure, font, size, maxWidth)| * lineHeight
    {
      var lines := WrapText(text, measure, font, size, maxWidth);
      DrawLines(lines, font, size, x, y, lineHeight);
      height := |lines| * lineHeight;
    }

    /** `addSectionWithBullets`: nothing for empty content; otherwise the title in bold at
        `sectionY`, the cursor 20 lower, and the bullets of the non-blank lines. */
    method AddSectionWithBullets(title: string, content: string, sectionX: int, sectionY: int)
      returns (y: int)
      requires Valid()
      modifies this
      ensures Valid() && pageCount == old(pageCount)
      ensures content == "" ==> y == sectionY && draws == old(draws)
      ensures content != "" ==>
        var run := BulletRun(NonBlankLines(Split(content, '\n')), measure, pageCount - 1, sectionX, sectionY - 20);
        draws == old(draws) + [Draw(pageCount - 1, sectionX, sectionY, title, HelveticaBold, 14)] + run.draws
        && y == run.y
    {
      if content == "" {
        return sectionY;
      }
      y := TitledBullets(title, NonBlankLines(Split(content, '\n')), sectionX, sectionY);
    }

    /** The title in bold at `sectionY`, then the bullets of `lines` from 20 points lower. */
    method TitledBullets(title: string, lines: seq<string>, sectionX: int, sectionY: int) returns (y: int)
      requires Valid()
      modifies this
      ensures Valid() && pageCount == old(pageCount)
      ensures var run := BulletRun(lines, measure, pageCount - 1, sectionX, sectionY - 20);
        draws == old(draws) + [Draw(pageCount - 1, sectionX, sectionY, title, HelveticaBold, 14)] + run.draws
        && y == run.y
    {
      DrawText(title, sectionX, sectionY, HelveticaBold, 14);
      y := AddBullets(lines, sectionX, sectionY - 20);
    }

    /** The loop of `addSectionWithBullets`: for each line with text, the bullet glyph at
        `sectionX + 10` and the trimmed line wrapped at `sectionX + 25`, the cursor dropping by
        the height `addText` used. */
    method AddBullets(lines: seq<string>, sectionX: int, y0: int) returns (y: int)
      requires Valid()
      modifies this
      ensures Valid() && pageCount == old(pageCount)
      ensures var run := BulletRun(lines, measure, pageCount - 1, sectionX, y0);
        draws == old(draws) + run.draws && y == run.y
    {
      y := y0;
      ghost var start := draws;
      ghost var page := pageCount - 1;
      ghost var run := Run([], y0);
      for i := 0 to |lines|
        invariant Valid() && pageCount == old(pageCount)
        invariant run == BulletRun(lines[..i], measure, page, sectionX, y0)
        invariant draws == start + run.draws && y == run.y
      {
        var trimmedLine := Trim(lines[i]);
        if trimmedLine != "" {
          y := AddBullet(trimmedLine, sectionX, y);
        }
        BulletRunNext(lines, i, measure, page, sectionX, y0, start, draws, y);
        run := BulletRun(lines[..i + 1], measure, page, sectionX, y0);
      }
      assert lines[..|lines|] == lines;
    }

    /** One bullet of `addSectionWithBullets`: the glyph at `sectionX + 10`, then `addText` of the
        line at `sectionX + 25`, the cursor dropping by the height it used. */
    method AddBullet(text: string, sectionX: int, y: int) returns (newY: int)
      requires Valid()
      modifies this
      ensures Valid() && pageCount == old(pageCount)
      ensures var b := Bullet(text, measure, pageCount - 1, sectionX, y);
        draws == old(draws) + b.draws && newY == b.y
    {
      ghost var before := draws;
      ghost var glyph := Draw(pageCount - 1, sectionX + 10, y, BulletGlyph, Helvetica, 12);
      DrawText(BulletGlyph, sectionX + 10, y, Helvetica, 12);
      var h := AddText(text, Helvetica, 12, sectionX + 25, y, BulletTextWidth(sectionX), 14);
      newY := y - h;
      AppendAssoc(before, [glyph], LineDraws(WrapLines(text, measure, Helvetica, 12, BulletTextWidth(sectionX)), pageCount - 1, sectionX + 25, y, 14, Helvetica, 12));
    }

    /** `checkPageOverflow`: below the bottom margin, a new page and the cursor back at the top. */
    method CheckPageOverflow(y: int) returns (newY: int)
      requires Valid()
      modifies this
      ensures Valid() && draws == old(draws)
      ensures y >= Margin ==> newY == y && pageCount == old(pageCount)
      ensures y < Margin ==> newY == PageHeight - Margin && pageCount == old(pageCount) + 1
    {
      if y < Margin {
        AddPage();
        return PageHeight - Margin;
      }
      return y;
    }
  }

  // -----------------------------------------------------------------------
  // The handler

  /** The fields of `userDetails`. A missing text field behaves exactly like the empty string in
      every test the handler makes, so only `name`, which the handler dereferences, is optional. */
  datatype UserDetails = UserDetails(
    name: Option<string>, email: string, phone: string, linkedIn: string, summary: string,
    education: string, experience: string, skills: string, certifications: string, achievements: string)

  datatype ResumeRequest = ResumeRequest(httpMethod: string, userDetails: Option<UserDetails>, jobDescription: string)

  /** A JSON error with its status, or the finished document (its draws and page count) and file name. */
  datatype ResumeResponse =
    | Failure(status: int, error: string)
    | Success(draws: seq<Draw>, pageCount: nat, fileName: string)

  const TailoringHeading: string := "Tailored For:"
  const TailoringNote: string := "This resume is tailored to the provided job description for a Large Language Model Engineer."

  /** The draws of `before` are still the first draws of `after`. */
  predicate Extends(before: seq<Draw>, after: seq<Draw>) {
    |before| <= |after| && after[..|before|] == before
  }

  lemma ExtendsTrans(a: seq<Draw>, b: seq<Draw>, c: seq<Draw>)
    requires Extends(a, b) && Extends(b, c)
    ensures Extends(a, c)
  {
    assert c[..|a|] == c[..|b|][..|a|];
  }

  /** The email line always comes first, so the Contact Information content is never empty. */
  lemma ContactContentStart(email: string, phone: string, linkedIn: string)
    ensures StartsWith(ContactContent(email, phone, linkedIn), "Email: ")
  {
    var emailLine := "Email: " + (if email != "" then email else "Not provided");
    var entries := [emailLine,
      if phone != "" then "Phone: " + phone else "",
      if linkedIn != "" then "LinkedIn: " + linkedIn else ""];
    assert emailLine != [];
    var kept := DropEmpty(entries);
    assert kept == [emailLine] + DropEmpty(entries[1..]);
    var c := ContactContent(email, phone, linkedIn);
    if |kept| == 1 {
      assert c == emailLine;
    } else {
      assert c == emailLine + "\n" + Join(kept[1..], "\n");
    }
    assert c[..7] == emailLine[..7];
  }

  lemma ExtendsAppend(a: seq<Draw>, b: seq<Draw>)
    ensures Extends(a, a + b)
    ensures b != [] ==> (a + b)[|a|] == b[0]
  {
    assert (a + b)[..|a|] == a;
  }

  // -----------------------------------------------------------------------
  // The composition as a reference layout

  /** What the composition carries from slot to slot: the draws so far, the page drawn on
      (counted from 0) and the cursor. */
  datatype Layout = Layout(draws: seq<Draw>, page: nat, y: int)

  /** `checkPageOverflow` on a layout: nothing is drawn, and the cursor ends at or above the
      margin at the cost of at most one new page. */
  function Overflowed(l: Layout): (r: Layout)
    ensures r.draws == l.draws && r.y >= Margin && l.page <= r.page <= l.page + 1
  {
    if l.y < Margin then Layout(l.draws, l.page + 1, PageHeight - Margin) else l
  }

  /** `addSectionWithBullets(title, content, margin, y)`: nothing for empty content, otherwise the
      title and the bullets of the non-blank lines, on the current page. */
  function Section(l: Layout, m: Metrics, title: string, content: string): (r: Layout)
    ensures r.page == l.page && Extends(l.draws, r.draws) && r.y <= l.y
  {
    if content == "" then l
    else
      var run := BulletRun(NonBlankLines(Split(content, '\n')), m, l.page, Margin, l.y - 20);
      ExtendsAppend(l.draws, [Draw(l.page, Margin, l.y, title, HelveticaBold, 14)] + run.draws);
      AppendAssoc(l.draws, [Draw(l.page, Margin, l.y, title, HelveticaBold, 14)], run.draws);
      Layout(l.draws + [Draw(l.page, Margin, l.y, title, HelveticaBold, 14)] + run.draws, l.page, run.y)
  }

  /** A bulleted section slot: the section, the 20-point gap and `checkPageOverflow`. */
  function SectionSlotLayout(l: Layout, m: Metrics, title: string, content: string): (r: Layout)
    ensures Extends(l.draws, r.draws) && r.y >= Margin && l.page <= r.page <= l.page + 1
  {
    var s := Section(l, m, title, content);
    Overflowed(s.(y := s.y - 20))
  }

  /** A bold heading at the cursor, then `addText` of `text` across the full width from 20 points
      lower; the cursor ends below the last line. */
  function Headed(l: Layout, m: Metrics, heading: string, text: string): (r: Layout)
    ensures r.page == l.page && Extends(l.draws, r.draws) && r.y <= l.y - 34
  {
    var lines := WrapLines(text, m, Helvetica, 12, PageWidth - 2 * Margin);
    WrapLinesCount(text, m, Helvetica, 12, PageWidth - 2 * Margin);
    var heads := [Draw(l.page, Margin, l.y, heading, HelveticaBold, 14)];
    ExtendsAppend(l.draws, heads + LineDraws(lines, l.page, Margin, l.y - 20, 14, Helvetica, 12));
    AppendAssoc(l.draws, heads, LineDraws(lines, l.page, Margin, l.y - 20, 14, Helvetica, 12));
    Layout(l.draws + heads + LineDraws(lines, l.page, Margin, l.y - 20, 14, Helvetica, 12),
           l.page, l.y - 20 - |lines| * 14)
  }

  /** The Summary and References slots: a heading and its text, the gap and `checkPageOverflow`. */
  function HeadedSlot(l: Layout, m: Metrics, heading: string, text: string): (r: Layout)
    ensures Extends(l.draws, r.draws) && r.y >= Margin && l.page <= r.page <= l.page + 1
  {
    var h := Headed(l, m, heading, text);
    Overflowed(h.(y := h.y - 20))
  }

  /** The job title in bold 16 at the top of the first page, 30 points of gap, then the Contact
      Information slot. */
  function OpeningLayout(m: Metrics, jobTitle: string, contact: string): (r: Layout)
    ensures r.page <= 1 && r.y >= Margin
  {
    SectionSlotLayout(Layout([Draw(0, Margin, PageHeight - Margin, jobTitle, HelveticaBold, 16)], 0, PageHeight - Margin - 30),
                      m, "Contact Information:", contact)
  }

  /** The Summary slot when there is a summary, then the five bulleted sections in their fixed
      order; every slot ends with an overflow check, so at most six pages are added. */
  function BodyLayout(l: Layout, m: Metrics, d: UserDetails): (r: Layout)
    ensures Extends(l.draws, r.draws) && r.y >= Margin && l.page <= r.page <= l.page + 6
  {
    var s0 := if d.summary != "" then HeadedSlot(l, m, "Summary:", d.summary) else l;
    var s1 := SectionSlotLayout(s0, m, "Technical Skills:", d.skills);
    var s2 := SectionSlotLayout(s1, m, "Professional Experience:", d.experience);
    var s3 := SectionSlotLayout(s2, m, "Education:", d.education);
    var s4 := SectionSlotLayout(s3, m, "Certifications:", d.certifications);
    var s5 := SectionSlotLayout(s4, m, "Achievements:", d.achievements);
    ExtendsTrans(l.draws, s0.draws, s1.draws);
    ExtendsTrans(l.draws, s1.draws, s2.draws);
    ExtendsTrans(l.draws, s2.draws, s3.draws);
    ExtendsTrans(l.draws, s3.draws, s4.draws);
    ExtendsTrans(l.draws, s4.draws, s5.draws);
    s5
  }

  /** The References slot: its heading, the fixed line, the gap and `checkPageOverflow`. */
  function ReferencesLayout(l: Layout, m: Metrics): (r: Layout)
    ensures Extends(l.draws, r.draws) && r.y >= Margin && l.page <= r.page <= l.page + 1
  {
    HeadedSlot(l, m, "References:", "Available upon request.")
  }

  /** For a non-empty job description, the tailoring heading and note on the current page, with
      no overflow check after them. */
  function TailoringLayout(l: Layout, m: Metrics, jobDescription: string): (r: Layout)
    ensures r.page == l.page && Extends(l.draws, r.draws)
  {
    if jobDescription != "" then Headed(l, m, TailoringHeading, TailoringNote) else l
  }

  /** The document the handler draws for `d` and `jobDescription`: the opening, the body, the
      References slot and the tailoring note, in that order; at most nine pages. */
  function ResumeLayout(m: Metrics, d: UserDetails, jobDescription: string): (r: Layout)
    ensures r.page <= 8
  {
    var opening := OpeningLayout(m, JobTitle(jobDescription, PdfTitleFallback), ContactContent(d.email, d.phone, d.linkedIn));
    TailoringLayout(ReferencesLayout(BodyLayout(opening, m, d), m), m, jobDescription)
  }

  // -----------------------------------------------------------------------
  // What the layout promises

  /** The texts drawn in bold, in order. */
  function BoldTexts(draws: seq<Draw>): seq<string> {
    if draws == [] then []
    else (if draws[0].font == HelveticaBold then [draws[0].text] else []) + BoldTexts(draws[1..])
  }

  lemma {:induction false} BoldTextsAppend(a: seq<Draw>, b: seq<Draw>)
    ensures BoldTexts(a + b) == BoldTexts(a) + BoldTexts(b)
  {
    if a == [] {
      assert a + b == b;
    } else {
      var head := if a[0].font == HelveticaBold then [a[0].text] else [];
      assert (a + b)[0] == a[0] && (a + b)[1..] == a[1..] + b;
      calc {
        BoldTexts(a + b);
        head + BoldTexts(a[1..] + b);
        { BoldTextsAppend(a[1..], b); }
        head + (BoldTexts(a[1..]) + BoldTexts(b));
        { AppendAssoc(head, BoldTexts(a[1..]), BoldTexts(b)); }
        BoldTexts(a) + BoldTexts(b);
      }
    }
  }

  /** A bold heading followed by plain draws adds just the heading's text. */
  lemma HeadingThenPlain(before: seq<Draw>, heading: Draw, plain: seq<Draw>)
    requires heading.font == HelveticaBold
    requires forall i :: 0 <= i < |plain| ==> plain[i].font == Helvetica
    ensures BoldTexts(before + [heading] + plain) == BoldTexts(before) + [heading.text]
  {
    PlainNoBold(plain);
    BoldTextsAppend(before + [heading], plain);
    BoldTextsAppend(before, [heading]);
    assert BoldTexts([heading]) == [heading.text];
  }

  lemma {:induction false} PlainNoBold(draws: seq<Draw>)
    requires forall i :: 0 <= i < |draws| ==> draws[i].font == Helvetica
    ensures BoldTexts(draws) == []
  {
    if draws != [] {
      PlainNoBold(draws[1..]);
    }
  }

  /** `[title]` when the section has content, otherwise nothing. */
  function HeadingIf(content: string, title: string): seq<string> {
    if content != "" then [title] else []
  }

  /** A bulleted section slot adds its title to the bold texts exactly when it has content: the
      bullets and their text are plain. */
  lemma SectionBold(l: Layout, m: Metrics, title: string, content: string)
    ensures BoldTexts(SectionSlotLayout(l, m, title, content).draws) == BoldTexts(l.draws) + HeadingIf(content, title)
  {
    var s := Section(l, m, title, content);
    assert SectionSlotLayout(l, m, title, content).draws == s.draws;
    if content == "" {
      assert s.draws == l.draws;
    } else {
      var lines := NonBlankLines(Split(content, '\n'));
      var run := BulletRun(lines, m, l.page, Margin, l.y - 20);
      var heading := Draw(l.page, Margin, l.y, title, HelveticaBold, 14);
      assert s.draws == l.draws + [heading] + run.draws;
      BulletRunPlaced(lines, m, l.page, Margin, l.y - 20);
      HeadingThenPlain(l.draws, heading, run.draws);
    }
  }

  /** A heading with text adds exactly the heading to the bold texts. */
  lemma HeadedBold(l: Layout, m: Metrics, heading: string, text: string)
    ensures BoldTexts(Headed(l, m, heading, text).draws) == BoldTexts(l.draws) + [heading]
  {
    var lines := WrapLines(text, m, Helvetica, 12, PageWidth - 2 * Margin);
    LineDrawsPlaced(lines, l.page, Margin, l.y - 20, 14, Helvetica, 12);
    HeadingThenPlain(l.draws, Draw(l.page, Margin, l.y, heading, HelveticaBold, 14),
                     LineDraws(lines, l.page, Margin, l.y - 20, 14, Helvetica, 12));
  }

  /** The body adds the Summary heading and the five section titles, each exactly when its
      field has content, in the fixed order. */
  lemma BodyBold(l: Layout, m: Metrics, d: UserDetails)
    ensures BoldTexts(BodyLayout(l, m, d).draws)
      == BoldTexts(l.draws) + HeadingIf(d.summary, "Summary:") + HeadingIf(d.skills, "Technical Skills:")
         + HeadingIf(d.experience, "Professional Experience:") + HeadingIf(d.education, "Education:")
         + HeadingIf(d.certifications, "Certifications:") + HeadingIf(d.achievements, "Achievements:")
  {
    var s0 := if d.summary != "" then HeadedSlot(l, m, "Summary:", d.summary) else l;
    if d.summary != "" {
      HeadedBold(l, m, "Summary:", d.summary);
    }
    assert BoldTexts(s0.draws) == BoldTexts(l.draws) + HeadingIf(d.summary, "Summary:");
    var s1 := SectionSlotLayout(s0, m, "Technical Skills:", d.skills);
    SectionBold(s0, m, "Technical Skills:", d.skills);
    var s2 := SectionSlotLayout(s1, m, "Professional Experience:", d.experience);
    SectionBold(s1, m, "Professional Experience:", d.experience);
    var s3 := SectionSlotLayout(s2, m, "Education:", d.education);
    SectionBold(s2, m, "Education:", d.education);
    var s4 := SectionSlotLayout(s3, m, "Certifications:", d.certifications);
    SectionBold(s3, m, "Certifications:", d.certifications);
    SectionBold(s4, m, "Achievements:", d.achievements);
  }

  /** The title and headings of a resume, in the order the handler draws them. */
  function ResumeHeadings(jobTitle: string, d: UserDetails, jobDescription: string): seq<string> {
    [jobTitle, "Contact Information:"]
    + HeadingIf(d.summary, "Summary:") + HeadingIf(d.skills, "Technical Skills:")
    + HeadingIf(d.experience, "Professional Experience:") + HeadingIf(d.education, "Education:")
    + HeadingIf(d.certifications, "Certifications:") + HeadingIf(d.achievements, "Achievements:")
    + ["References:"] + HeadingIf(jobDescription, TailoringHeading)
  }

  /** The fixed section order: the bold texts of the resume are exactly the job title and the
      section headings, Contact Information and References always, every other section exactly
      when it has content, in the handler's order. */
  lemma ResumeSectionOrder(m: Metrics, d: UserDetails, jobDescription: string)
    ensures BoldTexts(ResumeLayout(m, d, jobDescription).draws)
      == ResumeHeadings(JobTitle(jobDescription, PdfTitleFallback), d, jobDescription)
  {
    var jobTitle := JobTitle(jobDescription, PdfTitleFallback);
    var contact := ContactContent(d.email, d.phone, d.linkedIn);
    ContactContentStart(d.email, d.phone, d.linkedIn);
    var opening := OpeningLayout(m, jobTitle, contact);
    OpeningBold(m, jobTitle, contact);
    var body := BodyLayout(opening, m, d);
    BodyBold(opening, m, d);
    var references := ReferencesLayout(body, m);
    ReferencesBold(body, m);
    TailoringBold(references, m, jobDescription);
  }

  /** The opening draws the job title and, for non-empty contact content, its heading in bold. */
  lemma OpeningBold(m: Metrics, jobTitle: string, contact: string)
    requires contact != ""
    ensures BoldTexts(OpeningLayout(m, jobTitle, contact).draws) == [jobTitle, "Contact Information:"]
  {
    var start := Layout([Draw(0, Margin, PageHeight - Margin, jobTitle, HelveticaBold, 16)], 0, PageHeight - Margin - 30);
    assert BoldTexts(start.draws) == [jobTitle];
    SectionBold(start, m, "Contact Information:", contact);
  }

  lemma ReferencesBold(l: Layout, m: Metrics)
    ensures BoldTexts(ReferencesLayout(l, m).draws) == BoldTexts(l.draws) + ["References:"]
  {
    var h := Headed(l, m, "References:", "Available upon request.");
    assert ReferencesLayout(l, m).draws == h.draws;
    HeadedBold(l, m, "References:", "Available upon request.");
  }

  lemma TailoringBold(l: Layout, m: Metrics, jobDescription: string)
    ensures BoldTexts(TailoringLayout(l, m, jobDescription).draws) == BoldTexts(l.draws) + HeadingIf(jobDescription, TailoringHeading)
  {
    if jobDescription != "" {
      HeadedBold(l, m, TailoringHeading, TailoringNote);
    } else {
      assert BoldTexts(l.draws) + [] == BoldTexts(l.draws);
    }
  }

  /** The resume opens with the job title in bold 16 at the top margin of the first page and
      the Contact Information heading 30 points below it. */
  lemma ResumeOpening(m: Metrics, d: UserDetails, jobDescription: string)
    ensures var r := ResumeLayout(m, d, jobDescription);
      && |r.draws| >= 2
      && r.draws[..2] == OpeningHeads(JobTitle(jobDescription, PdfTitleFallback))
  {
    var jobTitle := JobTitle(jobDescription, PdfTitleFallback);
    var contact := ContactContent(d.email, d.phone, d.linkedIn);
    ContactContentStart(d.email, d.phone, d.linkedIn);
    OpeningStarts(m, jobTitle, contact);
    OpeningInResume(m, d, jobDescription);
    PrefixOfExtends(OpeningHeads(jobTitle),
                    BulletRun(NonBlankLines(Split(contact, '\n')), m, 0, Margin, PageHeight - Margin - 50).draws,
                    ResumeLayout(m, d, jobDescription).draws);
  }

  lemma PrefixOfExtends(heads: seq<Draw>, rest: seq<Draw>, after: seq<Draw>)
    requires Extends(heads + rest, after)
    ensures |after| >= |heads| && after[..|heads|] == heads
  {
    assert after[..|heads|] == (heads + rest)[..|heads|];
  }

  /** The job title in bold 16 at the top margin of the first page and the Contact Information
      heading 30 points below it. */
  function OpeningHeads(jobTitle: string): seq<Draw> {
    [Draw(0, Margin, PageHeight - Margin, jobTitle, HelveticaBold, 16),
     Draw(0, Margin, PageHeight - Margin - 30, "Contact Information:", HelveticaBold, 14)]
  }

  /** For non-empty contact content the opening is the two headings, then the contact bullets. */
  lemma OpeningStarts(m: Metrics, jobTitle: string, contact: string)
    requires contact != ""
    ensures OpeningLayout(m, jobTitle, contact).draws
      == OpeningHeads(jobTitle) + BulletRun(NonBlankLines(Split(contact, '\n')), m, 0, Margin, PageHeight - Margin - 50).draws
  {
    var start := Layout([Draw(0, Margin, PageHeight - Margin, jobTitle, HelveticaBold, 16)], 0, PageHeight - Margin - 30);
    var s := Section(start, m, "Contact Information:", contact);
    assert OpeningLayout(m, jobTitle, contact).draws == s.draws;
  }

  /** The draws of the opening are the first draws of the resume. */
  lemma OpeningInResume(m: Metrics, d: UserDetails, jobDescription: string)
    ensures Extends(OpeningLayout(m, JobTitle(jobDescription, PdfTitleFallback), ContactContent(d.email, d.phone, d.linkedIn)).draws,
                    ResumeLayout(m, d, jobDescription).draws)
  {
    var opening := OpeningLayout(m, JobTitle(jobDescription, PdfTitleFallback), ContactContent(d.email, d.phone, d.linkedIn));
    var body := BodyLayout(opening, m, d);
    var references := ReferencesLayout(body, m);
    ExtendsTrans(opening.draws, body.draws, references.draws);
    ExtendsTrans(opening.draws, references.draws, TailoringLayout(references, m, jobDescription).draws);
  }

  /** The first bullet of a run is that of its first line, when that line has text. */
  lemma {:induction false} BulletRunFirst(lines: seq<string>, m: Metrics, page: nat, x: int, y0: int)
    requires |lines| >= 1 && Trim(lines[0]) != ""
    ensures Extends(Bullet(Trim(lines[0]), m, page, x, y0).draws, BulletRun(lines, m, page, x, y0).draws)
  {
    var prefix := lines[..|lines| - 1];
    if |lines| == 1 {
      assert prefix == [];
    } else {
      assert prefix[0] == lines[0];
      BulletRunFirst(prefix, m, page, x, y0);
      var prev := BulletRun(prefix, m, page, x, y0);
      var trimmed := Trim(lines[|lines| - 1]);
      if trimmed != "" {
        ExtendsAppend(prev.draws, Bullet(trimmed, m, page, x, prev.y).draws);
        ExtendsTrans(Bullet(Trim(lines[0]), m, page, x, y0).draws, prev.draws, BulletRun(lines, m, page, x, y0).draws);
      }
    }
  }

  /** The email line is always drawn: right after the two opening headings comes the bullet of
      the email line (`Not provided` without an email), 20 points below the Contact Information
      heading. */
  lemma ResumeEmailFirst(m: Metrics, d: UserDetails, jobDescription: string)
    requires '\n' !in d.email && '\n' !in d.phone && '\n' !in d.linkedIn
    ensures var emailLine := "Email: " + (if d.email != "" then d.email else "Not provided");
      Extends(OpeningHeads(JobTitle(jobDescription, PdfTitleFallback))
                + Bullet(Trim(emailLine), m, 0, Margin, PageHeight - Margin - 50).draws,
              ResumeLayout(m, d, jobDescription).draws)
  {
    var emailLine := "Email: " + (if d.email != "" then d.email else "Not provided");
    var jobTitle := JobTitle(jobDescription, PdfTitleFallback);
    var contact := ContactContent(d.email, d.phone, d.linkedIn);
    ContactContentStart(d.email, d.phone, d.linkedIn);
    var lines := ContactBulletLines(d.email, d.phone, d.linkedIn);
    var y0 := PageHeight - Margin - 50;
    var run := BulletRun(lines, m, 0, Margin, y0);
    BulletRunFirst(lines, m, 0, Margin, y0);
    var first := Bullet(Trim(emailLine), m, 0, Margin, y0).draws;
    OpeningStarts(m, jobTitle, contact);
    ExtendsBoth(OpeningHeads(jobTitle), first, run.draws);
    OpeningInResume(m, d, jobDescription);
    ExtendsTrans(OpeningHeads(jobTitle) + first, OpeningLayout(m, jobTitle, contact).draws, ResumeLayout(m, d, jobDescription).draws);
  }

  /** With no newline in the fields, the first contact line with text is the email line. */
  lemma ContactBulletLines(email: string, phone: string, linkedIn: string) returns (lines: seq<string>)
    requires '\n' !in email && '\n' !in phone && '\n' !in linkedIn
    ensures lines == NonBlankLines(Split(ContactContent(email, phone, linkedIn), '\n'))
    ensures |lines| >= 1 && lines[0] == "Email: " + (if email != "" then email else "Not provided")
    ensures Trim(lines[0]) != ""
  {
    var emailLine := "Email: " + (if email != "" then email else "Not provided");
    ContactLines(email, phone, linkedIn);
    var pieces := Split(ContactContent(email, phone, linkedIn), '\n');
    assert pieces[0] == emailLine;
    assert !IsWhitespace(emailLine[0]);
    TrimEmptyIff(emailLine);
    lines := NonBlankLines(pieces);
    assert lines == [emailLine] + NonBlankLines(pieces[1..]);
  }

  lemma ExtendsBoth(heads: seq<Draw>, a: seq<Draw>, b: seq<Draw>)
    requires Extends(a, b)
    ensures Extends(heads + a, heads + b)
  {
    assert (heads + b)[..|heads + a|] == heads + b[..|a|];
  }

  /** `r` ends with the bold tailoring heading on its last page, and below it, 20 points lower,
      the draws of `lines`. */
  ghost predicate EndsWithNote(r: Layout, lines: seq<string>) {
    && |r.draws| >= |lines| + 1
    && var heading := r.draws[|r.draws| - |lines| - 1];
    && heading.text == TailoringHeading && heading.font == HelveticaBold && heading.page == r.page
    && r.draws[|r.draws| - |lines|..] == LineDraws(lines, r.page, Margin, heading.y - 20, 14, Helvetica, 12)
  }

  /** The document ends with the tailoring heading on its last page and the wrapped note 20
      points below it: no later slot draws anything. */
  lemma ResumeClosing(m: Metrics, d: UserDetails, jobDescription: string)
    requires jobDescription != ""
    ensures EndsWithNote(ResumeLayout(m, d, jobDescription), WrapLines(TailoringNote, m, Helvetica, 12, PageWidth - 2 * Margin))
  {
    var opening := OpeningLayout(m, JobTitle(jobDescription, PdfTitleFallback), ContactContent(d.email, d.phone, d.linkedIn));
    var references := ReferencesLayout(BodyLayout(opening, m, d), m);
    assert ResumeLayout(m, d, jobDescription) == TailoringLayout(references, m, jobDescription);
    TailoringCloses(references, m, jobDescription);
  }

  /** A non-empty job description ends the layout with the tailoring heading at the cursor and
      the wrapped note. */
  lemma TailoringCloses(l: Layout, m: Metrics, jobDescription: string)
    requires jobDescription != ""
    ensures var r := TailoringLayout(l, m, jobDescription);
      var lines := WrapLines(TailoringNote, m, Helvetica, 12, PageWidth - 2 * Margin);
      && EndsWithNote(r, lines)
      && r.draws[|r.draws| - |lines| - 1] == Draw(l.page, Margin, l.y, TailoringHeading, HelveticaBold, 14)
  {
    var h := Headed(l, m, TailoringHeading, TailoringNote);
    HeadedDraws(l, m, TailoringHeading, TailoringNote);
    NoteAtEnd(l.draws, l.page, l.y, WrapLines(TailoringNote, m, Helvetica, 12, PageWidth - 2 * Margin), h);
    assert TailoringLayout(l, m, jobDescription) == h;
  }

  lemma HeadedDraws(l: Layout, m: Metrics, heading: string, text: string)
    ensures Headed(l, m, heading, text).draws
      == l.draws + [Draw(l.page, Margin, l.y, heading, HelveticaBold, 14)]
         + LineDraws(WrapLines(text, m, Helvetica, 12, PageWidth - 2 * Margin), l.page, Margin, l.y - 20, 14, Helvetica, 12)
  {
  }

  lemma NoteAtEnd(before: seq<Draw>, page: nat, y: int, lines: seq<string>, r: Layout)
    requires r.page == page
    requires r.draws == before + [Draw(page, Margin, y, TailoringHeading, HelveticaBold, 14)]
                        + LineDraws(lines, page, Margin, y - 20, 14, Helvetica, 12)
    ensures EndsWithNote(r, lines)
    ensures r.draws[|r.draws| - |lines| - 1] == Draw(page, Margin, y, TailoringHeading, HelveticaBold, 14)
  {
    var heading := Draw(page, Margin, y, TailoringHeading, HelveticaBold, 14);
    var body := LineDraws(lines, page, Margin, y - 20, 14, Helvetica, 12);
    HeadingThenTail(before, heading, body);
    var hy := r.draws[|r.draws| - |lines| - 1].y;
    assert hy == y;
    assert r.draws[|r.draws| - |lines|..] == body;
    LineDrawsAt(lines, r.page, page, hy - 20, y - 20);
  }

  /** The same lines drawn from equal positions are the same draws. */
  lemma LineDrawsAt(lines: seq<string>, p: nat, q: nat, y: int, z: int)
    requires p == q && y == z
    ensures LineDraws(lines, p, Margin, y, 14, Helvetica, 12) == LineDraws(lines, q, Margin, z, 14, Helvetica, 12)
  {
  }

  lemma HeadingThenTail(before: seq<Draw>, heading: Draw, tail: seq<Draw>)
    ensures var d := before + [heading] + tail;
      && |d| >= |tail| + 1 && d[|d| - |tail| - 1] == heading && d[|d| - |tail|..] == tail
  {
  }

  // -----------------------------------------------------------------------
  // The composition on the document

  /** One section slot of the composition: `addSectionWithBullets`, the 20-point gap and
      `checkPageOverflow`. */
  method SectionSlot(doc: PdfDocument, title: string, content: string, y: int) returns (newY: int)
    requires doc.Valid()
    modifies doc
    ensures doc.Valid() && doc.State(newY) == SectionSlotLayout(old(doc.State(y)), doc.measure, title, content)
  {
    ghost var before := doc.State(y);
    var sectionEnd := doc.AddSectionWithBullets(title, content, Margin, y);
    assert doc.State(sectionEnd) == Section(before, doc.measure, title, content);
    newY := doc.CheckPageOverflow(sectionEnd - 20);
  }

  /** A heading in bold 14 at the margin, 20 points of gap, then wrapped body text across the
      full width. */
  method HeadedText(doc: PdfDocument, heading: string, text: string, y: int) returns (newY: int)
    requires doc.Valid()
    modifies doc
    ensures doc.Valid() && doc.State(newY) == Headed(old(doc.State(y)), doc.measure, heading, text)
  {
    doc.DrawText(heading, Margin, y, HelveticaBold, 14);
    var h := doc.AddText(text, Helvetica, 12, Margin, y - 20, PageWidth - 2 * Margin, 14);
    newY := y - 20 - h;
  }

  /** The Summary and References slots: a heading with its text, the gap and `checkPageOverflow`. */
  method HeadedTextSlot(doc: PdfDocument, heading: string, text: string, y: int) returns (newY: int)
    requires doc.Valid()
    modifies doc
    ensures doc.Valid() && doc.State(newY) == HeadedSlot(old(doc.State(y)), doc.measure, heading, text)
  {
    newY := HeadedText(doc, heading, text, y);
    newY := doc.CheckPageOverflow(newY - 20);
  }

  /** The job title at the top of the first page, then the Contact Information slot. */
  method Opening(doc: PdfDocument, jobTitle: string, contact: string) returns (y: int)
    requires doc.Valid() && doc.pageCount == 1 && doc.draws == []
    modifies doc
    ensures doc.Valid() && doc.State(y) == OpeningLayout(doc.measure, jobTitle, contact)
  {
    doc.DrawText(jobTitle, Margin, PageHeight - Margin, HelveticaBold, 16);
    y := SectionSlot(doc, "Contact Information:", contact, PageHeight - Margin - 30);
  }

  /** The Summary slot (only when there is a summary) and the five bulleted section slots, in
      order. */
  method Body(doc: PdfDocument, details: UserDetails, y: int) returns (newY: int)
    requires doc.Valid()
    modifies doc
    ensures doc.Valid() && doc.State(newY) == BodyLayout(old(doc.State(y)), doc.measure, details)
  {
    newY := y;
    if details.summary != "" {
      newY := HeadedTextSlot(doc, "Summary:", details.summary, newY);
    }
    newY := SectionSlot(doc, "Technical Skills:", details.skills, newY);
    newY := SectionSlot(doc, "Professional Experience:", details.experience, newY);
    newY := SectionSlot(doc, "Education:", details.education, newY);
    newY := SectionSlot(doc, "Certifications:", details.certifications, newY);
    newY := SectionSlot(doc, "Achievements:", details.achievements, newY);
  }

  /** For a non-empty job description, the tailoring note, drawn without a further overflow
      check. */
  method TailoringSlot(doc: PdfDocument, jobDescription: string, y: int) returns (newY: int)
    requires doc.Valid()
    modifies doc
    ensures doc.Valid() && doc.State(newY) == TailoringLayout(old(doc.State(y)), doc.measure, jobDescription)
  {
    newY := y;
    if jobDescription != "" {
      newY := HeadedText(doc, TailoringHeading, TailoringNote, y);
    }
  }

  /** The fixed composition on a fresh document: job title, Contact Information, Summary, the
      five bulleted sections, References and the tailoring note; the document is the reference
      layout. */
  method Compose(doc: PdfDocument, details: UserDetails, jobDescription: string)
    requires doc.Valid() && doc.pageCount == 1 && doc.draws == []
    modifies doc
    ensures doc.Valid()
    ensures var l := ResumeLayout(doc.measure, details, jobDescription);
      doc.draws == l.draws && doc.pageCount == l.page + 1
  {
    var currentY := Opening(doc, JobTitle(jobDescription, PdfTitleFallback),
                            ContactContent(details.email, details.phone, details.linkedIn));
    currentY := Body(doc, details, currentY);
    currentY := HeadedTextSlot(doc, "References:", "Available upon request.", currentY);
    currentY := TailoringSlot(doc, jobDescription, currentY);
  }

  /** The resume handler: the guards, then the composition, then the file name. */
  method GenerateResume(req: ResumeRequest, measure: Metrics) returns (resp: ResumeResponse)
    ensures req.httpMethod != "POST" ==> resp == Failure(405, "Method not allowed")
    ensures req.httpMethod == "POST" && (req.userDetails.None? || req.jobDescription == "")
      ==> resp == Failure(400, "Missing required fields")
    ensures req.httpMethod == "POST" && req.userDetails.Some? && req.jobDescription != ""
      && req.userDetails.value.name.None?
      ==> resp == Failure(500, "Failed to generate resume")
    ensures req.httpMethod == "POST" && req.userDetails.Some? && req.jobDescription != ""
      && req.userDetails.value.name.Some?
      ==> && resp.Success?
          && resp.fileName == FileName(req.userDetails.value.name.value)
          && var l := ResumeLayout(measure, req.userDetails.value, req.jobDescription);
             && resp.draws == l.draws && resp.pageCount == l.page + 1
             && 1 <= resp.pageCount <= 9
             && (forall i :: 0 <= i < |resp.draws| ==> resp.draws[i].page < resp.pageCount)
             && BoldTexts(resp.draws) == ResumeHeadings(JobTitle(req.jobDescription, PdfTitleFallback), req.userDetails.value, req.jobDescription)
             && |resp.draws| >= 2
             && resp.draws[..2] == OpeningHeads(JobTitle(req.jobDescription, PdfTitleFallback))
             && EndsWithNote(l, WrapLines(TailoringNote, measure, Helvetica, 12, PageWidth - 2 * Margin))
  {
    if req.httpMethod != "POST" {
      return Failure(405, "Method not allowed");
    }
    if req.userDetails.None? || req.jobDescription == "" {
      return Failure(400, "Missing required fields");
    }
    var details := req.userDetails.value;
    var doc := new PdfDocument(measure);
    Compose(doc, details, req.jobDescription);
    ResumeSectionOrder(measure, details, req.jobDescription);
    ResumeOpening(measure, details, req.jobDescription);
    ResumeClosing(measure, details, req.jobDescription);
    if details.name.None? {
      return Failure(500, "Failed to generate resume");
    }
    return Success(doc.draws, doc.pageCount, FileName(details.name.value));
  }
}
