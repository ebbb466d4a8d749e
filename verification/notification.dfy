/**
 * The report and its delivery decision (updateUsers.py, `sendNotification`).
 *
 * The report is modelled structurally, as three titled sections holding
 * either rows or a placeholder message; `PageHtml` renders it with the
 * markup of the script, whitespace and stylesheet left out. Mail transport
 * is external: `Notify` yields the message the script would hand to the
 * mail server, or nothing.
 */
module Notification {
  import opened Options
  import opened Reconcile

  datatype Body = Rows(rows: seq<Row>) | Placeholder(message: string)

  datatype Section = Section(title: string, body: Body)

  datatype Report = Report(sections: seq<Section>)

  const DisabledTitle := "Accounts Disabled"
  const EnabledTitle := "Accounts Enabled"
  const DisabledAlreadyTitle := "Previous Accounts Disabled"
  const NoneEnabled := "No accounts were enabled"
  const NoneDisabled := "No accounts were disabled"

  /** The rows a section shows; a placeholder shows none. */
  function RowsShown(b: Body): seq<Row> {
    match b
    case Rows(rows) => rows
    case Placeholder(_) => []
  }

  /** One bucket's section: its rows in bucket order, or the placeholder when it is empty. */
  function SectionFor(title: string, placeholder: string, bucket: seq<Row>): (s: Section)
    ensures s.title == title
    ensures RowsShown(s.body) == bucket
    ensures s.body.Placeholder? <==> bucket == []
    ensures s.body.Placeholder? ==> s.body.message == placeholder
  {
    if bucket == [] then Section(title, Placeholder(placeholder)) else Section(title, Rows(bucket))
  }

  /** The report body: Disabled, then Enabled, then Previously Disabled. */
  function Compose(b: Buckets): (r: Report)
    ensures |r.sections| == 3
    ensures r.sections[0].title == DisabledTitle && RowsShown(r.sections[0].body) == b.disabled
    ensures r.sections[1].title == EnabledTitle && RowsShown(r.sections[1].body) == b.enabled
    ensures r.sections[2].title == DisabledAlreadyTitle && RowsShown(r.sections[2].body) == b.disabledAlready
    ensures r.sections[0].body.Placeholder? <==> b.disabled == []
    ensures r.sections[1].body.Placeholder? <==> b.enabled == []
    ensures r.sections[2].body.Placeholder? <==> b.disabledAlready == []
    ensures r.sections[0].body.Placeholder? ==> r.sections[0].body.message == NoneDisabled
    ensures r.sections[1].body.Placeholder? ==> r.sections[1].body.message == NoneEnabled
    ensures r.sections[2].body.Placeholder? ==> r.sections[2].body.message == NoneDisabled
  {
    Report([SectionFor(DisabledTitle, NoneDisabled, b.disabled),
            SectionFor(EnabledTitle, NoneEnabled, b.enabled),
            SectionFor(DisabledAlreadyTitle, NoneDisabled, b.disabledAlready)])
  }

  /** A section as `Compose` would build it: the expected title, a non-empty
      list of rows or else the expected placeholder. */
  predicate SectionShape(s: Section, title: string, placeholder: string) {
    && s.title == title
    && (s.body.Rows? ==> s.body.rows != [])
    && (s.body.Placeholder? ==> s.body.message == placeholder)
  }

  /** Reads the three buckets back from a report; `None` for a report that
      `Compose` could not have produced. */
  function Recover(r: Report): Option<Buckets> {
    if |r.sections| == 3
       && SectionShape(r.sections[0], DisabledTitle, NoneDisabled)
       && SectionShape(r.sections[1], EnabledTitle, NoneEnabled)
       && SectionShape(r.sections[2], DisabledAlreadyTitle, NoneDisabled)
    then Some(Buckets(RowsShown(r.sections[1].body), RowsShown(r.sections[0].body), RowsShown(r.sections[2].body)))
    else None
  }

  /** The report loses nothing: every bucket, empty or not, can be read back from it. */
  lemma RecoverCompose(b: Buckets)
    ensures Recover(Compose(b)) == Some(b)
  {
  }

  /** And it is the only report for its buckets: any well-shaped report is the composition of what it shows. */
  lemma ComposeRecover(r: Report)
    requires Recover(r).Some?
    ensures Compose(Recover(r).value) == r
  {
    var b := Recover(r).value;
    assert Compose(b).sections == r.sections;
  }

  // ---------------------------------------------------------------------------
  // Rendering
  // ---------------------------------------------------------------------------

  const HeaderRow := "<tr><th>User</th><th>IDP UserID</th><th>Department</th>"
                     + "<th>Auto Actions Taken</th><th>Recommended Manual Actions</th></tr>"
  const PageStart := "<html><head><style></style></head><body>"
                     + "<h2 style=\"font-family:verdana;\"><b>User Management Actions</b></h2>"
  const PageEnd := "<br><div><bold>*Seasonal worker accounts will auto enable when AD user account is enabled.</bold></div>"
                   + "<div>[This is an automated system message. Please contact someone@something.com for all questions.]</div>"
                   + "</body></html>"

  function Cell(text: string): string {
    "<td>" + text + "</td>"
  }

  /** `str.format` renders a missing department as `None`. */
  function DepartmentText(department: Option<string>): string {
    department.GetOr("None")
  }

  function RowHtml(r: Row): string {
    "<tr>" + Cell(r.fullName) + Cell(r.idpUsername) + Cell(DepartmentText(r.department))
    + Cell(r.action) + Cell(r.recommendation) + "</tr>"
  }

  /** The rows of a bucket, each rendered in turn. */
  function RowsHtml(rows: seq<Row>): string
    decreases |rows|
  {
    if rows == [] then "" else RowHtml(rows[0]) + RowsHtml(rows[1..])
  }

  /** Rendering distributes over concatenation, so rows appear in bucket order. */
  lemma {:induction false} RowsHtmlAppend(xs: seq<Row>, ys: seq<Row>)
    ensures RowsHtml(xs + ys) == RowsHtml(xs) + RowsHtml(ys)
    decreases |xs|
  {
    if xs == [] {
      assert xs + ys == ys;
    } else {
      assert (xs + ys)[0] == xs[0];
      assert (xs + ys)[1..] == xs[1..] + ys;
      RowsHtmlAppend(xs[1..], ys);
    }
  }

  /** The script's row loop: one rendered row appended per bucket entry. */
  method BuildRowOutput(bucket: seq<Row>) returns (rowOutput: string)
    ensures rowOutput == RowsHtml(bucket)
  {
    rowOutput := "";
    var k := 0;
    while k < |bucket|
      invariant k <= |bucket|
      invariant rowOutput == RowsHtml(bucket[..k])
    {
      assert bucket[..k + 1] == bucket[..k] + [bucket[k]];
      RowsHtmlAppend(bucket[..k], [bucket[k]]);
      assert RowsHtml([bucket[k]]) == RowHtml(bucket[k]);
      rowOutput := rowOutput + RowHtml(bucket[k]);
      k := k + 1;
    }
    assert bucket[..k] == bucket;
  }

  function SectionHtml(s: Section): string {
    "<div><h3 style=\"font-family:verdana;\">" + s.title + "</h3><table>" + HeaderRow
    + match s.body
      case Rows(rows) => RowsHtml(rows) + "</table></div><br>"
      case Placeholder(m) => "</table><h5 style=\"font-family:verdana;\"><center>" + m + "</center></h5></div><br>"
  }

  function SectionsHtml(sections: seq<Section>): string
    decreases |sections|
  {
    if sections == [] then "" else SectionHtml(sections[0]) + SectionsHtml(sections[1..])
  }

  function PageHtml(r: Report): string {
    PageStart + SectionsHtml(r.sections) + PageEnd
  }

  lemma SectionsHtmlOfThree(x: Section, y: Section, z: Section)
    ensures SectionsHtml([x, y, z]) == SectionHtml(x) + SectionHtml(y) + SectionHtml(z)
  {
    assert [x, y, z][1..] == [y, z];
    assert [y, z][1..] == [z];
    assert [z][1..] == [];
    var a, b, c := SectionHtml(x), SectionHtml(y), SectionHtml(z);
    assert SectionsHtml([z]) == c + "" == c;
    assert SectionsHtml([y, z]) == b + c;
    assert SectionsHtml([x, y, z]) == a + (b + c);
    assert a + (b + c) == a + b + c;
  }

  /** The page of a run: the Disabled, Enabled and Previously Disabled
      sections, in that order, between the fixed head and foot. */
  function ReportHtml(b: Buckets): (html: string)
    ensures html == PageStart
                    + (SectionHtml(SectionFor(DisabledTitle, NoneDisabled, b.disabled))
                    + SectionHtml(SectionFor(EnabledTitle, NoneEnabled, b.enabled))
                    + SectionHtml(SectionFor(DisabledAlreadyTitle, NoneDisabled, b.disabledAlready)))
                    + PageEnd
  {
    var r := Compose(b);
    SectionsHtmlOfThree(r.sections[0], r.sections[1], r.sections[2]);
    assert r.sections == [r.sections[0], r.sections[1], r.sections[2]];
    PageHtml(r)
  }

  // ---------------------------------------------------------------------------
  // Delivery
  // ---------------------------------------------------------------------------

  /** The recipients the script is configured with; a non-empty `testUser` selects rehearsal mode. */
  datatype Config = Config(testUser: string, adminNotify: string, deptAdminNotify: string)

  /** The message handed to the mail server: header fields, the envelope
      recipient list, the plain-text fallback and the HTML body. */
  datatype Mail = Mail(sender: string, to: string, cc: Option<string>, envelope: seq<string>,
                       subject: string, priority: string, text: string, html: string)

  const ScriptType := "Portal User Management"
  const MailFrom := ScriptType + " <noreply@something.com>"
  const MailSubject := ScriptType + " Automated Actions Notification"
  const LowPriority := "5"
  const PlainText := "HTML Message -- Use HTML Compliant Email"

  /** The send gate and recipient choice. */
  function Notify(cfg: Config, b: Buckets, html: string): (m: Option<Mail>)
    ensures m.Some? <==> b.enabled != [] || b.disabled != []
    ensures m.Some? && cfg.testUser != "" ==>
      m.value.envelope == [cfg.testUser] && m.value.to == cfg.testUser && m.value.cc.None?
    ensures m.Some? && cfg.testUser == "" ==>
      && m.value.envelope == [cfg.deptAdminNotify, cfg.adminNotify]
      && m.value.to == cfg.deptAdminNotify
      && m.value.cc == Some(cfg.adminNotify)
    ensures m.Some? ==>
      && m.value.html == html && m.value.text == PlainText
      && m.value.subject == MailSubject && m.value.sender == MailFrom && m.value.priority == LowPriority
  {
    var ueNotification := if |b.enabled| != 0 then 1 else 0;
    var udNotification := if |b.disabled| != 0 then 1 else 0;
    if ueNotification == 0 && udNotification == 0 then None
    else if cfg.testUser != "" then
      Some(Mail(MailFrom, cfg.testUser, None, [cfg.testUser], MailSubject, LowPriority, PlainText, html))
    else
      Some(Mail(MailFrom, cfg.deptAdminNotify, Some(cfg.adminNotify), [cfg.deptAdminNotify, cfg.adminNotify],
                MailSubject, LowPriority, PlainText, html))
  }

  /** The previously-disabled bucket never triggers a message on its own. */
  lemma AlreadyDisabledAloneIsSilent(cfg: Config, b: Buckets, html: string)
    requires b.enabled == [] && b.disabled == []
    ensures Notify(cfg, b, html).None?
    ensures forall more: seq<Row> :: Notify(cfg, b.(disabledAlready := more), html).None?
  {
  }
}
