/**
 * How the script reads the enterprise directory (updateUsers.py, `ldapCheck`).
 *
 * The connection and the search itself are external: the directory is a
 * function from a search attribute and a key to a `Lookup`. What is modelled
 * is the choice of attribute, the key normalisation, and the interpretation
 * of the first entry the search returns.
 */
module Directory {
  import opened Options

  /** The `userAccountControl` value the directory reports for a disabled account. */
  const DisabledAccountControl: int := 514

  /** The attribute a search matches the account key against. */
  datatype SearchAttribute = SamAccountName | UserPrincipalName

  /** The fields of a directory entry that the decision reads. */
  datatype Entry = Entry(department: string, userAccountControl: int)

  /** The result of one query: either the query raised (the connection at
      line 120, or a search at line 123 or 125 that raises, for instance on a
      transport failure or a malformed filter), which stops the script, or the
      search answered with its first entry, if it found one. A search that
      only returns an error result answers with no entry. */
  datatype Lookup = Unreachable | Answered(first: Option<Entry>)

  /** The directory as the script sees it. */
  type DirectoryFn = (SearchAttribute, string) -> Lookup

  /** What `ldapCheck` returns: the department (absent when nothing was found)
      and `respCode`, where 1 means "not found or disabled". */
  datatype LdapResult = LdapResult(department: Option<string>, respCode: int)

  /** The three-way directory status of an account: active, disabled, or not found. */
  datatype DirectoryStatus = Active | DisabledInDirectory | NotFound

  /** An internal portal (`portalCheck != 0`) searches by account name, ArcGIS Online by principal name. */
  function SearchAttributeFor(portalCheck: int): SearchAttribute {
    if portalCheck != 0 then SamAccountName else UserPrincipalName
  }

  function LowerChar(c: char): char {
    if 'A' <= c <= 'Z' then (c as int + 32) as char else c
  }

  /** The lookup key: the identity-provider user name in lower case (ASCII letters). */
  function Lower(s: string): (r: string)
    ensures |r| == |s|
    ensures forall i :: 0 <= i < |r| ==> !('A' <= r[i] <= 'Z')
    ensures forall i :: 0 <= i < |s| && !('A' <= s[i] <= 'Z') ==> r[i] == s[i]
    ensures forall i :: 0 <= i < |s| && 'A' <= s[i] <= 'Z' ==> r[i] as int == s[i] as int + 32
  {
    seq(|s|, i requires 0 <= i < |s| => LowerChar(s[i]))
  }

  /** Lower-casing a key that is already lower case changes nothing. */
  lemma LowerIdempotent(s: string)
    ensures Lower(Lower(s)) == Lower(s)
  {
  }

  /** Two characters that are equal or are the upper- and lower-case forms of one ASCII letter. */
  predicate SameLetterIgnoringCase(c: char, d: char) {
    || c == d
    || ('A' <= c <= 'Z' && d as int == c as int + 32)
    || ('A' <= d <= 'Z' && c as int == d as int + 32)
  }

  /** User names that differ only in the case of ASCII letters give the same
      key, so they query the same directory entry. */
  lemma LowerIgnoresCase(dir: DirectoryFn, attr: SearchAttribute, s: string, t: string)
    requires |s| == |t|
    requires forall i :: 0 <= i < |s| ==> SameLetterIgnoringCase(s[i], t[i])
    ensures Lower(s) == Lower(t)
    ensures Query(dir, attr, s) == Query(dir, attr, t)
  {
    assert forall i :: 0 <= i < |s| ==> Lower(s)[i] == Lower(t)[i];
  }

  /** The query the script sends for one identity-provider user name. */
  function Query(dir: DirectoryFn, attr: SearchAttribute, idpUsername: string): Lookup {
    dir(attr, Lower(idpUsername))
  }

  /** Interpretation of the search's first entry (fail-closed). */
  function LdapCheck(first: Option<Entry>): (r: LdapResult)
    ensures r.respCode == 0 || r.respCode == 1
    ensures r.respCode == 1 <==> first.None? || first.value.userAccountControl == DisabledAccountControl
    ensures first.None? <==> r.department.None?
    ensures first.Some? ==> r.department == Some(first.value.department)
  {
    match first
    case None => LdapResult(None, 1)
    case Some(e) =>
      LdapResult(Some(e.department), if e.userAccountControl == DisabledAccountControl then 1 else 0)
  }

  function Status(first: Option<Entry>): DirectoryStatus {
    match first
    case None => NotFound
    case Some(e) => if e.userAccountControl == DisabledAccountControl then DisabledInDirectory else Active
  }

  /** `respCode` is 1 exactly when the three-way status is not `Active`, and the
      department is missing exactly when the status is `NotFound`. */
  lemma FailClosed(first: Option<Entry>)
    ensures LdapCheck(first).respCode == 1 <==> Status(first) != Active
    ensures LdapCheck(first).department.None? <==> Status(first) == NotFound
  {
  }
}
