/**
 * The resignation-letter page (app/resignation-letter/page.js): the phone
 * number formatter behind the phone input, the two-step form that collects
 * personal and then employer details before asking the server for a letter,
 * the loop that lays the letter's lines out on PDF pages, and the paragraph
 * spacing of the Word export.
 */
module ResignationLetter {
  import opened Wrappers
  import opened Text

  // ---------------------------------------------------------------------
  // the phone formatter

  /** `value.replace(/\D/g, '')`: the ASCII digits of `s`, in order. */
  function Digits(s: string): (r: string)
    ensures |r| <= |s|
    ensures forall k :: 0 <= k < |r| ==> IsDigit(r[k])
  {
    if s == [] then []
    else (if IsDigit(s[0]) then [s[0]] else []) + Digits(s[1..])
  }

  /** The digits the formatter keeps: the first ten. */
  function KeptDigits(s: string): string {
    var d := Digits(s);
    if |d| > 10 then d[..10] else d
  }

  /** The input's `onChange`: keep the digits, at most ten, then write them as `ddd-ddd-d…`
      when more than six remain, as `ddd-d…` when more than three remain, bare otherwise. */
  function FormatPhone(input: string): string {
    var v := KeptDigits(input);
    if |v| > 6 then v[..3] + "-" + v[3..6] + "-" + v[6..]
    else if |v| > 3 then v[..3] + "-" + v[3..]
    else v
  }

  lemma {:induction false} DigitsAppend(a: string, b: string)
    ensures Digits(a + b) == Digits(a) + Digits(b)
  {
    if a == [] {
      assert a + b == b;
    } else {
      assert (a + b)[0] == a[0];
      assert (a + b)[1..] == a[1..] + b;
      DigitsAppend(a[1..], b);
    }
  }

  lemma {:induction false} DigitsOfDigits(s: string)
    requires forall k :: 0 <= k < |s| ==> IsDigit(s[k])
    ensures Digits(s) == s
  {
    if s != [] {
      DigitsOfDigits(s[1..]);
      assert [s[0]] + s[1..] == s;
    }
  }

  lemma {:induction false} RemoveCharsAppend(a: string, b: string, chars: set<char>)
    ensures RemoveChars(a + b, chars) == RemoveChars(a, chars) + RemoveChars(b, chars)
  {
    if a == [] {
      assert a + b == b;
    } else {
      assert (a + b)[0] == a[0];
      assert (a + b)[1..] == a[1..] + b;
      RemoveCharsAppend(a[1..], b, chars);
    }
  }

  /** The formatted number is the kept digits with dashes after the third and the sixth. */
  lemma FormatPhoneSplits(input: string)
    ensures var v := KeptDigits(input);
      && |v| <= 10
      && (forall k :: 0 <= k < |v| ==> IsDigit(v[k]))
      && (|v| > 6 ==> FormatPhone(input) == v[..3] + "-" + v[3..6] + "-" + v[6..])
      && (3 < |v| <= 6 ==> FormatPhone(input) == v[..3] + "-" + v[3..])
      && (|v| <= 3 ==> FormatPhone(input) == v)
  {
  }

  /** A dash inserted between two strings disappears when the dashes are dropped. */
  lemma DashRemoved(a: string, b: string)
    ensures RemoveChars(a + "-" + b, {'-'}) == RemoveChars(a, {'-'}) + RemoveChars(b, {'-'})
  {
    var d: set<char> := {'-'};
    assert RemoveChars("-", d) == [];
    RemoveCharsAppend(a, "-", d);
    assert RemoveChars(a + "-", d) == RemoveChars(a, d);
    RemoveCharsAppend(a + "-", b, d);
  }

  /** A dash inserted between two strings disappears when only the digits are kept. */
  lemma DashSkipped(a: string, b: string)
    ensures Digits(a + "-" + b) == Digits(a) + Digits(b)
  {
    assert Digits("-") == [];
    DigitsAppend(a, "-");
    assert Digits(a + "-") == Digits(a);
    DigitsAppend(a + "-", b);
  }

  /** Two runs of digits joined by a dash read back as the two runs, either way. */
  lemma DashJoinRead(a: string, b: string)
    requires forall k :: 0 <= k < |a| ==> IsDigit(a[k])
    requires forall k :: 0 <= k < |b| ==> IsDigit(b[k])
    ensures RemoveChars(a + "-" + b, {'-'}) == a + b && Digits(a + "-" + b) == a + b
  {
    DashRemoved(a, b);
    DashSkipped(a, b);
    RemoveCharsNone(a, {'-'});
    RemoveCharsNone(b, {'-'});
    DigitsOfDigits(a);
    DigitsOfDigits(b);
  }

  /** Both ways of reading back a number formatted in three groups give its digits. */
  lemma ThreeGroups(v: string)
    requires |v| > 6
    requires forall k :: 0 <= k < |v| ==> IsDigit(v[k])
    ensures var f := v[..3] + "-" + v[3..6] + "-" + v[6..];
      RemoveChars(f, {'-'}) == v && Digits(f) == v
  {
    var a, b, c := v[..3], v[3..6], v[6..];
    assert a + b + c == v;
    DashJoinRead(a, b);
    DashRemoved(a + "-" + b, c);
    DashSkipped(a + "-" + b, c);
    RemoveCharsNone(c, {'-'});
    DigitsOfDigits(c);
  }

  /** Both ways of reading back a number formatted in two groups give its digits. */
  lemma TwoGroups(v: string)
    requires |v| > 3
    requires forall k :: 0 <= k < |v| ==> IsDigit(v[k])
    ensures var f := v[..3] + "-" + v[3..];
      RemoveChars(f, {'-'}) == v && Digits(f) == v
  {
    assert v[..3] + v[3..] == v;
    DashJoinRead(v[..3], v[3..]);
  }

  /** What the formatter produces fits the input's `maxLength` of 12, and removing its dashes
      gives back exactly the digits it kept. */
  lemma FormatPhoneShape(input: string)
    ensures |FormatPhone(input)| <= 12
    ensures RemoveChars(FormatPhone(input), {'-'}) == KeptDigits(input)
    ensures Digits(FormatPhone(input)) == KeptDigits(input)
  {
    var v := KeptDigits(input);
    FormatPhoneSplits(input);
    forall k | 0 <= k < |v| ensures v[k] != '-' {
      assert IsDigit(v[k]);
    }
    RemoveCharsNone(v, {'-'});
    DigitsOfDigits(v);
    if |v| > 6 {
      ThreeGroups(v);
    } else if |v| > 3 {
      TwoGroups(v);
    }
  }

  /** Formatting an already formatted number changes nothing, so the field is stable under
      repeated edits that add no digit. */
  lemma FormatPhoneIdempotent(input: string)
    ensures FormatPhone(FormatPhone(input)) == FormatPhone(input)
  {
    FormatPhoneShape(input);
    FormatPhoneSplits(input);
    assert KeptDigits(FormatPhone(input)) == KeptDigits(input);
  }

  // ---------------------------------------------------------------------
  // the two-step form

  datatype Personal = Personal(
    fullName: string, phone: string, email: string, address: string, city: string, province: string)

  datatype Employer = Employer(
    managerName: string, companyName: string, companyAddress: string, jobTitle: string, lastWorkingDay: string)

  /** The answer to the generation request, as far as the page sees it: a letter, an error
      reply (whose `error` may be empty), or a thrown error (network or unreadable body). */
  datatype Outcome = Generated(letter: string) | Refused(error: string) | NetworkFailure

  const PersonalError: string := "Please fill in all personal information fields."
  const EmployerError: string := "Please fill in all employer information fields."
  const GenerationError: string := "Failed to generate resignation letter"
  const NetworkError: string := "Network error: Could not generate letter"

  /** All six personal fields are filled in. */
  predicate PersonalComplete(p: Personal) {
    p.fullName != "" && p.email != "" && p.phone != "" && p.address != "" && p.city != "" && p.province != ""
  }

  /** The employer fields the page requires; the company address is optional. */
  predicate EmployerComplete(e: Employer) {
    e.managerName != "" && e.companyName != "" && e.jobTitle != "" && e.lastWorkingDay != ""
  }

  /** The error shown for a failed generation request. */
  function FailureMessage(outcome: Outcome): (r: string)
    requires !outcome.Generated?
    ensures r != ""
    ensures outcome.Refused? && outcome.error != "" ==> r == outcome.error
  {
    match outcome
    case Refused(e) => if e != "" then e else GenerationError
    case NetworkFailure => NetworkError
  }

  class LetterForm {
    var personal: Personal
    var employer: Employer
    var isPersonal: bool
    var letter: string
    var error: string

    /** The employer step is only ever shown with complete personal details: the personal
        inputs exist only on the personal step, and only a complete form leaves it. The phone
        field only ever holds the formatter's output, which the formatter leaves as it is. */
    ghost predicate Valid()
      reads this
    {
      && (!isPersonal ==> PersonalComplete(personal))
      && FormatPhone(personal.phone) == personal.phone
    }

    constructor()
      ensures Valid()
      ensures isPersonal && letter == "" && error == ""
      ensures personal == Personal("", "", "", "", "", "")
      ensures employer == Employer("", "", "", "", "")
    {
      personal := Personal("", "", "", "", "", "");
      employer := Employer("", "", "", "", "");
      isPersonal := true;
      letter := "";
      error := "";
    }

    /** An edit in the personal inputs other than the phone, which are rendered only on the
        personal step and store the typed text as it is: every field takes the value in `p`
        except the phone, which only its own input changes. */
    method EditPersonal(p: Personal)
      requires Valid() && isPersonal
      modifies this
      ensures Valid()
      ensures personal == p.(phone := old(personal.phone))
      ensures employer == old(employer) && isPersonal && letter == old(letter) && error == old(error)
    {
      personal := p.(phone := personal.phone);
    }

    /** The phone input: the typed text goes through the formatter. */
    method EditPhone(typed: string)
      requires Valid() && isPersonal
      modifies this
      ensures Valid()
      ensures personal == old(personal).(phone := FormatPhone(typed))
      ensures |personal.phone| <= 12 && RemoveChars(personal.phone, {'-'}) == KeptDigits(typed)
      ensures employer == old(employer) && isPersonal && letter == old(letter) && error == old(error)
    {
      FormatPhoneShape(typed);
      FormatPhoneIdempotent(typed);
      personal := personal.(phone := FormatPhone(typed));
    }

    /** An edit in one of the employer inputs, rendered only on the employer step. */
    method EditEmployer(e: Employer)
      requires Valid() && !isPersonal
      modifies this
      ensures Valid()
      ensures employer == e
      ensures personal == old(personal) && !isPersonal && letter == old(letter) && error == old(error)
    {
      employer := e;
    }

    /** An edit of the generated letter in its text area. */
    method EditLetter(text: string)
      requires Valid()
      modifies this
      ensures Valid()
      ensures letter == text
      ensures personal == old(personal) && employer == old(employer)
      ensures isPersonal == old(isPersonal) && error == old(error)
    {
      letter := text;
    }

    /** The Next / Generate button. On the personal step it moves on exactly when all six
        personal fields are filled in. On the employer step it sends the generation request
        exactly when the four required employer fields are filled in, and `outcome` is the
        server's answer to it. `sent` is the request body, if one was sent. */
    method HandleNext(outcome: Outcome) returns (sent: Option<(Personal, Employer)>)
      requires Valid()
      modifies this
      ensures Valid()
      ensures personal == old(personal) && employer == old(employer)
      ensures sent.Some? <==> !old(isPersonal) && EmployerComplete(employer)
      ensures sent.Some? ==> sent.value == (personal, employer) && PersonalComplete(personal)
      ensures old(isPersonal) && PersonalComplete(personal)
        ==> !isPersonal && error == "" && letter == old(letter)
      ensures old(isPersonal) && !PersonalComplete(personal)
        ==> isPersonal && error == PersonalError && letter == old(letter)
      ensures !old(isPersonal) && !EmployerComplete(employer)
        ==> !isPersonal && error == EmployerError && letter == old(letter)
      ensures sent.Some? && outcome.Generated?
        ==> !isPersonal && letter == outcome.letter && error == ""
      ensures sent.Some? && !outcome.Generated?
        ==> !isPersonal && letter == old(letter) && error == FailureMessage(outcome)
    {
      sent := None;
      if isPersonal {
        if PersonalComplete(personal) {
          isPersonal := false;
          error := "";
        } else {
          error := PersonalError;
        }
      } else {
        if EmployerComplete(employer) {
          sent := Some((personal, employer));
          match outcome {
            case Generated(l) =>
              letter := l;
              error := "";
            case Refused(e) =>
              error := if e != "" then e else GenerationError;
            case NetworkFailure =>
              error := NetworkError;
          }
        } else {
          error := EmployerError;
        }
      }
    }

    /** The Back button, shown on the employer step: return to the personal step. */
    method Back()
      requires Valid()
      modifies this
      ensures Valid()
      ensures isPersonal
      ensures personal == old(personal) && employer == old(employer)
      ensures letter == old(letter) && error == old(error)
    {
      isPersonal := true;
    }
  }

  // ---------------------------------------------------------------------
  // the PDF export

  const Margin: int := 10
  const LineHeight: int := 10

  /** Where the next line goes: a page index and the cursor's y. */
  datatype Cursor = Cursor(page: nat, y: int)

  /** A line of text drawn on a page. */
  datatype PlacedLine = PlacedLine(page: nat, x: int, y: int, text: string)

  datatype Pagination = Pagination(placed: seq<PlacedLine>, cursor: Cursor)

  /** The check made before each line: when the line would cross the bottom margin, the
      line opens a new page at the top margin. */
  function Position(c: Cursor, pageHeight: int): (r: Cursor)
    ensures c.page <= r.page <= c.page + 1
  {
    if c.y + LineHeight > pageHeight - Margin then Cursor(c.page + 1, Margin) else c
  }

  /** The lines drawn for `lines`, in order, and the cursor after the last one. */
  function Paginate(lines: seq<string>, pageHeight: int): (r: Pagination)
    ensures |r.placed| == |lines|
  {
    if lines == [] then Pagination([], Cursor(0, Margin))
    else
      var prev := Paginate(lines[..|lines| - 1], pageHeight);
      var at := Position(prev.cursor, pageHeight);
      Pagination(prev.placed + [PlacedLine(at.page, Margin, at.y, lines[|lines| - 1])],
                 Cursor(at.page, at.y + LineHeight))
  }

  /** A page holds at least one line between the margins. */
  predicate PageFitsLine(pageHeight: int) {
    pageHeight - 2 * Margin >= LineHeight
  }

  /** Every line is drawn, in order, at the left margin, and the cursor ends one line below
      the last one. */
  lemma {:induction false} PaginateInOrder(lines: seq<string>, pageHeight: int)
    ensures var r := Paginate(lines, pageHeight);
      && (forall i :: 0 <= i < |lines| ==> r.placed[i].text == lines[i] && r.placed[i].x == Margin)
      && (lines == [] ==> r.cursor == Cursor(0, Margin))
      && (lines != [] ==> r.cursor == Cursor(r.placed[|lines| - 1].page, r.placed[|lines| - 1].y + LineHeight))
  {
    if lines != [] {
      PaginateInOrder(lines[..|lines| - 1], pageHeight);
    }
  }

  /** When a page fits a line, no line is drawn above the top margin or across the bottom
      margin. */
  lemma {:induction false} PaginateWithinMargins(lines: seq<string>, pageHeight: int)
    requires PageFitsLine(pageHeight)
    ensures var r := Paginate(lines, pageHeight);
      && Margin <= r.cursor.y <= pageHeight - Margin
      && forall i :: 0 <= i < |lines| ==>
           Margin <= r.placed[i].y && r.placed[i].y + LineHeight <= pageHeight - Margin
  {
    if lines != [] {
      PaginateWithinMargins(lines[..|lines| - 1], pageHeight);
    }
  }

  /** The relation between consecutive drawn lines: the next one stays on the page, one line
      lower, exactly when it still fits above the bottom margin; otherwise it starts the next
      page at the top margin. */
  predicate FollowsOn(a: PlacedLine, b: PlacedLine, pageHeight: int) {
    if a.y + 2 * LineHeight > pageHeight - Margin then b.page == a.page + 1 && b.y == Margin
    else b.page == a.page && b.y == a.y + LineHeight
  }

  /** The first line starts page 0 at the top margin when a page fits a line, and every later
      line follows on from the one before it. */
  lemma {:induction false} PaginateGreedy(lines: seq<string>, pageHeight: int)
    ensures var r := Paginate(lines, pageHeight);
      && (lines != [] && PageFitsLine(pageHeight) ==> r.placed[0].page == 0 && r.placed[0].y == Margin)
      && forall i :: 0 <= i < |lines| - 1 ==> FollowsOn(r.placed[i], r.placed[i + 1], pageHeight)
  {
    if lines != [] {
      var init := lines[..|lines| - 1];
      PaginateGreedy(init, pageHeight);
      PaginateInOrder(init, pageHeight);
      var r := Paginate(lines, pageHeight);
      var prev := Paginate(init, pageHeight);
      assert forall i :: 0 <= i < |init| ==> r.placed[i] == prev.placed[i];
    }
  }

  /** With a page that fits a line and at least one line, no page of the document is blank:
      every page up to the last holds a line. */
  lemma {:induction false} PaginateNoBlankPage(lines: seq<string>, pageHeight: int, p: nat)
    requires PageFitsLine(pageHeight) && lines != []
    requires p <= Paginate(lines, pageHeight).cursor.page
    ensures exists i :: 0 <= i < |lines| && Paginate(lines, pageHeight).placed[i].page == p
  {
    var r := Paginate(lines, pageHeight);
    var n := |lines|;
    PaginateInOrder(lines, pageHeight);
    if p == r.placed[n - 1].page {
      assert r.placed[n - 1].page == p;
    } else if n == 1 {
      PaginateGreedy(lines, pageHeight);
    } else {
      var init := lines[..n - 1];
      var prev := Paginate(init, pageHeight);
      PaginateInOrder(init, pageHeight);
      assert p <= prev.cursor.page;
      PaginateNoBlankPage(init, pageHeight, p);
      var i :| 0 <= i < |init| && prev.placed[i].page == p;
      assert r.placed[i] == prev.placed[i];
    }
  }

  /** `generatePDF`: `lines` are the letter's lines as the PDF library wraps them to the text
      width, `pageHeight` the page height; the result is what is drawn and how many pages the
      document has. */
  method GeneratePdf(lines: seq<string>, pageHeight: int) returns (placed: seq<PlacedLine>, pageCount: nat)
    ensures placed == Paginate(lines, pageHeight).placed
    ensures pageCount == Paginate(lines, pageHeight).cursor.page + 1
  {
    placed := [];
    var page: nat := 0;
    var cursorY := Margin;
    for i := 0 to |lines|
      invariant Paginate(lines[..i], pageHeight) == Pagination(placed, Cursor(page, cursorY))
    {
      assert lines[..i + 1][..i] == lines[..i];
      if cursorY + LineHeight > pageHeight - Margin {
        page := page + 1;
        cursorY := Margin;
      }
      placed := placed + [PlacedLine(page, Margin, cursorY, lines[i])];
      cursorY := cursorY + LineHeight;
    }
    assert lines[..|lines|] == lines;
    pageCount := page + 1;
  }

  // ---------------------------------------------------------------------
  // the Word export

  /** A paragraph of the Word document: its text, its font size in half-points and the
      space after it. */
  datatype Paragraph = Paragraph(text: string, size: int, spacingAfter: int)

  /** `generateWordDocument`: one paragraph per line of the letter, in 12-point text, with
      spacing 100 after the first five (the address block) and 200 after the rest. */
  function WordParagraphs(letter: string): (r: seq<Paragraph>)
    ensures |r| == |Split(letter, '\n')|
  {
    var lines := Split(letter, '\n');
    seq(|lines|, i requires 0 <= i < |lines| => Paragraph(lines[i], 24, if i < 5 then 100 else 200))
  }

  function Texts(ps: seq<Paragraph>): (r: seq<string>)
    ensures |r| == |ps| && forall i :: 0 <= i < |ps| ==> r[i] == ps[i].text
  {
    seq(|ps|, i requires 0 <= i < |ps| => ps[i].text)
  }

  /** Joining the paragraphs' texts with newlines gives back the letter: nothing is lost,
      added or reordered. */
  lemma WordRoundTrip(letter: string)
    ensures Join(Texts(WordParagraphs(letter)), "\n") == letter
  {
    assert Texts(WordParagraphs(letter)) == Split(letter, '\n');
    JoinSplit(letter, '\n');
  }

  /** A letter written as lines gives one paragraph per line, with the first five lines
      spaced tighter than the rest. */
  lemma WordParagraphPerLine(lines: seq<string>)
    requires |lines| >= 1
    requires forall i :: 0 <= i < |lines| ==> '\n' !in lines[i]
    ensures var ps := WordParagraphs(Join(lines, "\n"));
      && |ps| == |lines|
      && forall i :: 0 <= i < |lines| ==>
           ps[i].text == lines[i] && ps[i].size == 24 && (ps[i].spacingAfter == 100 <==> i < 5)
  {
    SplitJoin(lines, '\n');
  }
}
