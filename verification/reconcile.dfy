/**
 * The per-account reconciliation decision and the three report buckets
 * (updateUsers.py, `getPortalUsers`).
 *
 * `Outcomes` is the functional reference for the enumeration loop: one
 * `Outcome` per account that carries an identity-provider user name, in
 * enumeration order, up to the first account whose query cannot reach the
 * directory. `GetPortalUsers` is the loop itself and is proved to agree with it.
 */
module Reconcile {
  import opened Options
  import opened Directory

  /** A portal account as the enumeration returns it. */
  datatype Account = Account(username: string, fullName: string, idpUsername: Option<string>, disabled: bool)

  /** The four branches of the decision, in the order the script tests them. */
  datatype Branch = DisableUser | AlreadyDisabled | EnableUser | NoAction

  /** The five-tuple appended to a bucket. */
  datatype Row = Row(fullName: string, idpUsername: string, department: Option<string>,
                     action: string, recommendation: string)

  /** A call the script makes on the portal to change one account. */
  datatype Intent = DisableIntent(username: string) | EnableIntent(username: string)

  /** Everything one loop iteration decides about one account. */
  datatype Outcome = Outcome(account: Account, first: Option<Entry>, branch: Branch,
                             row: Option<Row>, intent: Option<Intent>)

  datatype Buckets = Buckets(enabled: seq<Row>, disabled: seq<Row>, disabledAlready: seq<Row>)

  /** What a run depends on besides the accounts: the directory, the search
      attribute of the portal kind, and the test-user override (non-empty in
      rehearsal mode). */
  datatype Context = Context(dir: DirectoryFn, attr: SearchAttribute, testUser: string)

  /** The result of the enumeration loop: it either completes, or stops at an
      account whose query raised, with the calls already made standing. */
  datatype Run = Completed(buckets: Buckets, intents: seq<Intent>) | Aborted(intents: seq<Intent>)

  const DisableAction := "AD user disabled or not found. Account Disabled."
  const DisableAdvice := "Check for content, transfer training when applicable, and delete user."
  const AlreadyDisabledAction := "No action required. Account already disabled."
  const AlreadyDisabledAdvice := "May be seasonal worker. Check with department."
  const EnableAction := "AD user account found. Account Enabled."
  const EnableAdvice := "No action required."

  /** Accounts without an identity-provider user name are not reconciled. */
  predicate Managed(a: Account) {
    a.idpUsername.Some?
  }

  /** The query made for a managed account. */
  function QueryOf(ctx: Context, a: Account): Lookup
    requires Managed(a)
  {
    Query(ctx.dir, ctx.attr, a.idpUsername.value)
  }

  // ---------------------------------------------------------------------------
  // One account
  // ---------------------------------------------------------------------------

  /** The decision table: exactly one branch holds for every input. */
  function Decide(respCode: int, disabled: bool): (b: Branch)
    ensures b == DisableUser <==> respCode == 1 && !disabled
    ensures b == AlreadyDisabled <==> respCode == 1 && disabled
    ensures b == EnableUser <==> respCode != 1 && disabled
    ensures b == NoAction <==> respCode != 1 && !disabled
  {
    if respCode == 1 && !disabled then DisableUser
    else if respCode == 1 && disabled then AlreadyDisabled
    else if respCode != 1 && disabled then EnableUser
    else NoAction
  }

  /** A decision table on the three-way directory status (active, disabled, not found) and the enabled flag. */
  function Table(status: DirectoryStatus, appEnabled: bool): Branch {
    match status
    case Active => if appEnabled then NoAction else EnableUser
    case _ => if appEnabled then DisableUser else AlreadyDisabled
  }

  /** The script's `respCode` decision agrees with the status table on every entry and flag. */
  lemma DecisionMatchesTable(first: Option<Entry>, disabled: bool)
    ensures Decide(LdapCheck(first).respCode, disabled) == Table(Status(first), !disabled)
  {
    FailClosed(first);
  }

  function ActionText(b: Branch): string {
    match b
    case DisableUser => DisableAction
    case AlreadyDisabled => AlreadyDisabledAction
    case EnableUser => EnableAction
    case NoAction => ""
  }

  function Advice(b: Branch): string {
    match b
    case DisableUser => DisableAdvice
    case AlreadyDisabled => AlreadyDisabledAdvice
    case EnableUser => EnableAdvice
    case NoAction => ""
  }

  /** One iteration of the loop for a managed account whose search answered. */
  function ProcessAccount(a: Account, first: Option<Entry>, testUser: string): (o: Outcome)
    requires Managed(a)
    ensures o.account == a && o.first == first
    ensures var denied := first.None? || first.value.userAccountControl == DisabledAccountControl;
      && (o.branch == DisableUser <==> denied && !a.disabled)
      && (o.branch == AlreadyDisabled <==> denied && a.disabled)
      && (o.branch == EnableUser <==> !denied && a.disabled)
      && (o.branch == NoAction <==> !denied && !a.disabled)
    ensures o.row.None? <==> o.branch == NoAction
    ensures o.row.Some? ==>
      && o.row.value.fullName == a.fullName
      && o.row.value.idpUsername == a.idpUsername.value
      && (o.row.value.department.None? <==> first.None?)
      && (first.Some? ==> o.row.value.department == Some(first.value.department))
    ensures o.branch == DisableUser ==>
      o.row.value.action == DisableAction && o.row.value.recommendation == DisableAdvice
    ensures o.branch == AlreadyDisabled ==>
      o.row.value.action == AlreadyDisabledAction && o.row.value.recommendation == AlreadyDisabledAdvice
    ensures o.branch == EnableUser ==>
      o.row.value.action == EnableAction && o.row.value.recommendation == EnableAdvice
    ensures o.intent == Some(DisableIntent(a.username)) <==> o.branch == DisableUser && testUser == ""
    ensures o.intent == Some(EnableIntent(a.username)) <==> o.branch == EnableUser && testUser == ""
    ensures o.intent.Some? ==> o.intent.value.username == a.username
  {
    var found := LdapCheck(first);
    var b := Decide(found.respCode, a.disabled);
    var row := if b == NoAction then None
               else Some(Row(a.fullName, a.idpUsername.value, found.department, ActionText(b), Advice(b)));
    var intent :=
      if testUser != "" then None
      else match b
        case DisableUser => Some(DisableIntent(a.username))
        case EnableUser => Some(EnableIntent(a.username))
        case _ => None;
    Outcome(a, first, b, row, intent)
  }

  // ---------------------------------------------------------------------------
  // The enumeration
  // ---------------------------------------------------------------------------

  /** True when some managed account's query cannot reach the directory. */
  predicate Halts(ctx: Context, s: seq<Account>)
    decreases |s|
  {
    s != [] && ((Managed(s[0]) && QueryOf(ctx, s[0]).Unreachable?) || Halts(ctx, s[1..]))
  }

  /** The outcomes of the loop over `s`, stopping at the first unreachable query. */
  function Outcomes(ctx: Context, s: seq<Account>): seq<Outcome>
    decreases |s|
  {
    if s == [] then []
    else if !Managed(s[0]) then Outcomes(ctx, s[1..])
    else match QueryOf(ctx, s[0])
      case Unreachable => []
      case Answered(first) => [ProcessAccount(s[0], first, ctx.testUser)] + Outcomes(ctx, s[1..])
  }

  /** The rows of the outcomes that took branch `b`, in order. */
  function Select(outs: seq<Outcome>, b: Branch): seq<Row>
    decreases |outs|
  {
    if outs == [] then []
    else (if outs[0].branch == b && outs[0].row.Some? then [outs[0].row.value] else []) + Select(outs[1..], b)
  }

  /** The portal calls the outcomes make, in order. */
  function Intents(outs: seq<Outcome>): seq<Intent>
    decreases |outs|
  {
    if outs == [] then []
    else (if outs[0].intent.Some? then [outs[0].intent.value] else []) + Intents(outs[1..])
  }

  function BucketsOf(outs: seq<Outcome>): Buckets {
    Buckets(Select(outs, EnableUser), Select(outs, DisableUser), Select(outs, AlreadyDisabled))
  }

  /** Every row any bucket receives, in the order the loop produces them. */
  function ReportedRows(outs: seq<Outcome>): seq<Row>
    decreases |outs|
  {
    if outs == [] then []
    else (if outs[0].row.Some? then [outs[0].row.value] else []) + ReportedRows(outs[1..])
  }

  function AccountsOf(outs: seq<Outcome>): seq<Account>
    decreases |outs|
  {
    if outs == [] then [] else [outs[0].account] + AccountsOf(outs[1..])
  }

  /** The accounts the loop reconciles, in enumeration order. */
  function ManagedAccounts(s: seq<Account>): seq<Account>
    decreases |s|
  {
    if s == [] then []
    else (if Managed(s[0]) then [s[0]] else []) + ManagedAccounts(s[1..])
  }

  function CountBranch(outs: seq<Outcome>, b: Branch): nat
    decreases |outs|
  {
    if outs == [] then 0 else (if outs[0].branch == b then 1 else 0) + CountBranch(outs[1..], b)
  }

  predicate IsSubsequence<T(==)>(xs: seq<T>, ys: seq<T>)
    decreases |ys|
  {
    xs == [] || (ys != [] && ((xs[0] == ys[0] && IsSubsequence(xs[1..], ys[1..])) || IsSubsequence(xs, ys[1..])))
  }

  predicate IsPrefix<T(==)>(xs: seq<T>, ys: seq<T>) {
    |xs| <= |ys| && xs == ys[..|xs|]
  }

  /** Every outcome is the decision for a managed account on the answer its own query returned. */
  predicate WellFormed(ctx: Context, outs: seq<Outcome>) {
    forall k :: 0 <= k < |outs| ==>
      && Managed(outs[k].account)
      && QueryOf(ctx, outs[k].account) == Answered(outs[k].first)
      && outs[k] == ProcessAccount(outs[k].account, outs[k].first, ctx.testUser)
  }

  // ---------------------------------------------------------------------------
  // Splitting the enumeration
  // ---------------------------------------------------------------------------

  lemma {:induction false} HaltsAppend(ctx: Context, p: seq<Account>, q: seq<Account>)
    ensures Halts(ctx, p + q) <==> Halts(ctx, p) || Halts(ctx, q)
    decreases |p|
  {
    if p != [] {
      assert (p + q)[0] == p[0];
      assert (p + q)[1..] == p[1..] + q;
      HaltsAppend(ctx, p[1..], q);
    } else {
      assert p + q == q;
    }
  }

  /** The loop over `p + q` is the loop over `p`, then, unless `p` stopped it, the loop over `q`. */
  lemma {:induction false} OutcomesAppend(ctx: Context, p: seq<Account>, q: seq<Account>)
    ensures Outcomes(ctx, p + q) == if Halts(ctx, p) then Outcomes(ctx, p) else Outcomes(ctx, p) + Outcomes(ctx, q)
    decreases |p|
  {
    if p == [] {
      assert p + q == q;
    } else {
      assert (p + q)[0] == p[0];
      assert (p + q)[1..] == p[1..] + q;
      OutcomesAppend(ctx, p[1..], q);
    }
  }

  lemma {:induction false} SelectAppend(xs: seq<Outcome>, ys: seq<Outcome>, b: Branch)
    ensures Select(xs + ys, b) == Select(xs, b) + Select(ys, b)
    decreases |xs|
  {
    if xs == [] {
      assert xs + ys == ys;
    } else {
      assert (xs + ys)[0] == xs[0];
      assert (xs + ys)[1..] == xs[1..] + ys;
      SelectAppend(xs[1..], ys, b);
    }
  }

  lemma {:induction false} IntentsAppend(xs: seq<Outcome>, ys: seq<Outcome>)
    ensures Intents(xs + ys) == Intents(xs) + Intents(ys)
    decreases |xs|
  {
    if xs == [] {
      assert xs + ys == ys;
    } else {
      assert (xs + ys)[0] == xs[0];
      assert (xs + ys)[1..] == xs[1..] + ys;
      IntentsAppend(xs[1..], ys);
    }
  }

  // ---------------------------------------------------------------------------
  // The loop
  // ---------------------------------------------------------------------------

  /** The enumeration loop: skip accounts without an identity-provider user
      name, query the directory, take one of the four branches, append to a
      bucket and, outside rehearsal mode, call the portal. */
  method GetPortalUsers(ctx: Context, users: seq<Account>) returns (r: Run)
    ensures r.Aborted? <==> Halts(ctx, users)
    ensures r.intents == Intents(Outcomes(ctx, users))
    ensures r.Completed? ==> r.buckets == BucketsOf(Outcomes(ctx, users))
  {
    var usersEnabled: seq<Row> := [];
    var usersDisabled: seq<Row> := [];
    var usersDisabledAlready: seq<Row> := [];
    var issued: seq<Intent> := [];
    var n := 0;
    while n < |users|
      invariant n <= |users|
      invariant !Halts(ctx, users[..n])
      invariant usersEnabled == Select(Outcomes(ctx, users[..n]), EnableUser)
      invariant usersDisabled == Select(Outcomes(ctx, users[..n]), DisableUser)
      invariant usersDisabledAlready == Select(Outcomes(ctx, users[..n]), AlreadyDisabled)
      invariant issued == Intents(Outcomes(ctx, users[..n]))
    {
      var i := users[n];
      assert users[..n + 1] == users[..n] + [i];
      OutcomesAppend(ctx, users[..n], [i]);
      HaltsAppend(ctx, users[..n], [i]);
      if i.idpUsername.Some? {
        var lookup := Query(ctx.dir, ctx.attr, i.idpUsername.value);
        if lookup.Unreachable? {
          // the directory connection raises and ends the run
          assert users == users[..n + 1] + users[n + 1..];
          OutcomesAppend(ctx, users[..n + 1], users[n + 1..]);
          HaltsAppend(ctx, users[..n + 1], users[n + 1..]);
          assert Halts(ctx, [i]);
          assert Outcomes(ctx, [i]) == [];
          assert Outcomes(ctx, users[..n + 1]) == Outcomes(ctx, users[..n]);
          return Aborted(issued);
        }
        var found := LdapCheck(lookup.first);
        ghost var o := ProcessAccount(i, lookup.first, ctx.testUser);
        assert Outcomes(ctx, [i]) == [o];
        assert [o][1..] == [];
        assert Outcomes(ctx, users[..n + 1]) == Outcomes(ctx, users[..n]) + [o];
        SelectAppend(Outcomes(ctx, users[..n]), [o], EnableUser);
        SelectAppend(Outcomes(ctx, users[..n]), [o], DisableUser);
        SelectAppend(Outcomes(ctx, users[..n]), [o], AlreadyDisabled);
        IntentsAppend(Outcomes(ctx, users[..n]), [o]);
        if found.respCode == 1 && !i.disabled {
          if ctx.testUser == "" {
            issued := issued + [DisableIntent(i.username)];
          }
          usersDisabled := usersDisabled + [Row(i.fullName, i.idpUsername.value, found.department, DisableAction, DisableAdvice)];
        } else if found.respCode == 1 && i.disabled {
          usersDisabledAlready := usersDisabledAlready + [Row(i.fullName, i.idpUsername.value, found.department, AlreadyDisabledAction, AlreadyDisabledAdvice)];
        } else if found.respCode != 1 && i.disabled {
          if ctx.testUser == "" {
            issued := issued + [EnableIntent(i.username)];
          }
          usersEnabled := usersEnabled + [Row(i.fullName, i.idpUsername.value, found.department, EnableAction, EnableAdvice)];
        }
      } else {
        assert Outcomes(ctx, [i]) == [];
        assert Outcomes(ctx, users[..n + 1]) == Outcomes(ctx, users[..n]);
      }
      n := n + 1;
    }
    assert users[..n] == users;
    r := Completed(Buckets(usersEnabled, usersDisabled, usersDisabledAlready), issued);
  }

  // ---------------------------------------------------------------------------
  // Properties of the enumeration
  // ---------------------------------------------------------------------------

  /** Each outcome is the decision for its own account, on what that account's own query answered. */
  lemma {:induction false} OutcomesWellFormed(ctx: Context, s: seq<Account>)
    ensures WellFormed(ctx, Outcomes(ctx, s))
    decreases |s|
  {
    if s != [] {
      OutcomesWellFormed(ctx, s[1..]);
    }
  }

  /** The loop decides the managed accounts in enumeration order, each once:
      all of them when it completes, a strict prefix of them when it stops. */
  lemma {:induction false} OutcomesFollowEnumeration(ctx: Context, s: seq<Account>)
    ensures IsPrefix(AccountsOf(Outcomes(ctx, s)), ManagedAccounts(s))
    ensures !Halts(ctx, s) ==> AccountsOf(Outcomes(ctx, s)) == ManagedAccounts(s)
    ensures Halts(ctx, s) ==> |AccountsOf(Outcomes(ctx, s))| < |ManagedAccounts(s)|
    decreases |s|
  {
    if s != [] {
      OutcomesFollowEnumeration(ctx, s[1..]);
      var rest := AccountsOf(Outcomes(ctx, s[1..]));
      if Managed(s[0]) && QueryOf(ctx, s[0]).Answered? {
        var o := ProcessAccount(s[0], QueryOf(ctx, s[0]).first, ctx.testUser);
        assert Outcomes(ctx, s) == [o] + Outcomes(ctx, s[1..]);
        assert ([o] + Outcomes(ctx, s[1..]))[1..] == Outcomes(ctx, s[1..]);
        assert AccountsOf(Outcomes(ctx, s)) == [s[0]] + rest;
        assert ManagedAccounts(s) == [s[0]] + ManagedAccounts(s[1..]);
      }
    }
  }

  /** An account without an identity-provider user name produces no outcome,
      so no bucket row and no portal call, wherever it sits in the enumeration. */
  lemma UnmanagedAccountIgnored(ctx: Context, p: seq<Account>, a: Account, q: seq<Account>)
    requires !Managed(a)
    ensures Outcomes(ctx, p + [a] + q) == Outcomes(ctx, p + q)
    ensures Halts(ctx, p + [a] + q) <==> Halts(ctx, p + q)
  {
    assert p + [a] + q == p + ([a] + q);
    OutcomesAppend(ctx, p, [a] + q);
    HaltsAppend(ctx, p, [a] + q);
    OutcomesAppend(ctx, p, q);
    HaltsAppend(ctx, p, q);
    assert ([a] + q)[1..] == q;
  }

  /** Every row of a bucket carries that bucket's action and recommendation texts. */
  lemma {:induction false} BucketTexts(ctx: Context, outs: seq<Outcome>, b: Branch)
    requires WellFormed(ctx, outs)
    ensures forall r :: r in Select(outs, b) ==> r.action == ActionText(b) && r.recommendation == Advice(b)
    decreases |outs|
  {
    if outs != [] {
      BucketTexts(ctx, outs[1..], b);
    }
  }

  /** No row lies in two buckets: rows of different buckets carry different texts.
      (An account enumerated twice is decided, and reported, twice.) */
  lemma BucketsDisjoint(ctx: Context, outs: seq<Outcome>)
    requires WellFormed(ctx, outs)
    ensures forall r :: r in Select(outs, EnableUser) ==> r !in Select(outs, DisableUser) && r !in Select(outs, AlreadyDisabled)
    ensures forall r :: r in Select(outs, DisableUser) ==> r !in Select(outs, AlreadyDisabled)
  {
    BucketTexts(ctx, outs, EnableUser);
    BucketTexts(ctx, outs, DisableUser);
    BucketTexts(ctx, outs, AlreadyDisabled);
  }

  /** The three buckets and the no-action outcomes together account for every
      decided account exactly once. */
  lemma {:induction false} BucketsPartition(ctx: Context, outs: seq<Outcome>)
    requires WellFormed(ctx, outs)
    ensures |Select(outs, EnableUser)| + |Select(outs, DisableUser)| + |Select(outs, AlreadyDisabled)|
            + CountBranch(outs, NoAction) == |outs|
    decreases |outs|
  {
    if outs != [] {
      BucketsPartition(ctx, outs[1..]);
    }
  }

  /** A bucket keeps the order in which the loop produced its rows: it is a
      subsequence of all reported rows, which follow the enumeration. */
  lemma {:induction false} BucketIsSubsequence(outs: seq<Outcome>, b: Branch)
    ensures IsSubsequence(Select(outs, b), ReportedRows(outs))
    decreases |outs|
  {
    if outs != [] {
      BucketIsSubsequence(outs[1..], b);
      var xs := Select(outs[1..], b);
      var ys := ReportedRows(outs[1..]);
      if outs[0].row.Some? {
        var r := outs[0].row.value;
        assert ReportedRows(outs) == [r] + ys;
        assert ([r] + ys)[1..] == ys;
        if outs[0].branch == b {
          assert Select(outs, b) == [r] + xs;
          assert ([r] + xs)[1..] == xs;
        } else {
          assert Select(outs, b) == xs;
        }
      } else {
        assert Select(outs, b) == xs;
        assert ReportedRows(outs) == ys;
      }
    }
  }

  /** The display name and identity-provider user name by which a report row names its account. */
  function RowKey(r: Row): (string, string) {
    (r.fullName, r.idpUsername)
  }

  function RowKeys(rows: seq<Row>): seq<(string, string)>
    decreases |rows|
  {
    if rows == [] then [] else [RowKey(rows[0])] + RowKeys(rows[1..])
  }

  /** The names of the managed accounts, in enumeration order. */
  function ManagedKeys(s: seq<Account>): seq<(string, string)>
    decreases |s|
  {
    if s == [] then []
    else (if Managed(s[0]) then [(s[0].fullName, s[0].idpUsername.value)] else []) + ManagedKeys(s[1..])
  }

  lemma SubsequenceSkip<T>(xs: seq<T>, y: T, ys: seq<T>)
    requires IsSubsequence(xs, ys)
    ensures IsSubsequence(xs, [y] + ys)
  {
    assert ([y] + ys)[1..] == ys;
  }

  /** Each bucket lists its accounts in enumeration order: the accounts its
      rows name form a subsequence of the managed accounts as enumerated. */
  lemma {:induction false} BucketFollowsEnumeration(ctx: Context, s: seq<Account>, b: Branch)
    ensures IsSubsequence(RowKeys(Select(Outcomes(ctx, s), b)), ManagedKeys(s))
    decreases |s|
  {
    if s != [] {
      BucketFollowsEnumeration(ctx, s[1..], b);
      var xs := RowKeys(Select(Outcomes(ctx, s[1..]), b));
      var ys := ManagedKeys(s[1..]);
      if Managed(s[0]) {
        var key := (s[0].fullName, s[0].idpUsername.value);
        assert ManagedKeys(s) == [key] + ys;
        SubsequenceSkip(xs, key, ys);
        if QueryOf(ctx, s[0]).Answered? {
          var o := ProcessAccount(s[0], QueryOf(ctx, s[0]).first, ctx.testUser);
          var rest := Outcomes(ctx, s[1..]);
          assert Outcomes(ctx, s) == [o] + rest;
          assert ([o] + rest)[1..] == rest;
          if o.branch == b && o.row.Some? {
            var r := o.row.value;
            assert Select(Outcomes(ctx, s), b) == [r] + Select(rest, b);
            assert ([r] + Select(rest, b))[1..] == Select(rest, b);
            assert RowKeys([r] + Select(rest, b)) == [key] + xs;
            assert ([key] + xs)[1..] == xs;
            assert ([key] + ys)[1..] == ys;
          } else {
            assert Select(Outcomes(ctx, s), b) == Select(rest, b);
          }
        }
      } else {
        assert ManagedKeys(s) == ys;
      }
    }
  }

  /** A managed account of a run that does not stop is decided by some outcome. */
  lemma {:induction false} AccountDecided(ctx: Context, s: seq<Account>, k: nat)
    requires k < |s| && Managed(s[k])
    requires !Halts(ctx, s)
    ensures exists j :: 0 <= j < |Outcomes(ctx, s)| && Outcomes(ctx, s)[j].account == s[k]
    decreases k
  {
    if k > 0 {
      assert s[1..][k - 1] == s[k];
      AccountDecided(ctx, s[1..], k - 1);
      var rest := Outcomes(ctx, s[1..]);
      var j :| 0 <= j < |rest| && rest[j].account == s[k];
      if Managed(s[0]) {
        var o := ProcessAccount(s[0], QueryOf(ctx, s[0]).first, ctx.testUser);
        assert Outcomes(ctx, s) == [o] + rest;
        assert Outcomes(ctx, s)[j + 1] == rest[j];
      } else {
        assert Outcomes(ctx, s) == rest;
      }
    } else {
      assert Outcomes(ctx, s)[0].account == s[0];
    }
  }

  lemma {:induction false} RowPresent(outs: seq<Outcome>, k: nat, b: Branch)
    requires k < |outs| && outs[k].branch == b && outs[k].row.Some?
    ensures outs[k].row.value in Select(outs, b)
    decreases k
  {
    if k > 0 {
      RowPresent(outs[1..], k - 1, b);
    }
  }

  /** With distinct user names, no two calls of a run name the same account. */
  lemma {:induction false} IntentsDistinct(ctx: Context, outs: seq<Outcome>)
    requires WellFormed(ctx, outs)
    requires DistinctOutcomeAccounts(outs)
    ensures forall p, q :: 0 <= p < q < |Intents(outs)| ==> Intents(outs)[p].username != Intents(outs)[q].username
    decreases |outs|
  {
    if outs != [] {
      var tail := outs[1..];
      assert WellFormed(ctx, tail);
      assert DistinctOutcomeAccounts(tail) by {
        forall j, k | 0 <= j < k < |tail| ensures tail[j].account.username != tail[k].account.username {
          assert tail[j] == outs[j + 1] && tail[k] == outs[k + 1];
        }
      }
      IntentsDistinct(ctx, tail);
      var head := if outs[0].intent.Some? then [outs[0].intent.value] else [];
      var rest := Intents(tail);
      assert Intents(outs) == head + rest;
      if head != [] {
        forall q | 0 < q < |Intents(outs)| ensures Intents(outs)[0].username != Intents(outs)[q].username {
          var i := rest[q - 1];
          assert Intents(outs)[q] == i;
          IntentOrigin(tail, i);
          var j :| 0 <= j < |tail| && tail[j].intent == Some(i);
          assert tail[j] == outs[j + 1];
          assert outs[j + 1] == ProcessAccount(outs[j + 1].account, outs[j + 1].first, ctx.testUser);
          assert outs[0] == ProcessAccount(outs[0].account, outs[0].first, ctx.testUser);
        }
      }
    }
  }

  /** In live mode, with distinct user names, a run that completes disables an
      enabled account the directory does not know with exactly one call
      naming it, and puts its row, with no department, in the disabled bucket. */
  lemma DeprovisionedOutcome(ctx: Context, s: seq<Account>, k: nat)
    requires ctx.testUser == ""
    requires DistinctUsernames(s)
    requires !Halts(ctx, s)
    requires k < |s| && Managed(s[k]) && !s[k].disabled
    requires QueryOf(ctx, s[k]) == Answered(None)
    ensures var outs := Outcomes(ctx, s);
      && Row(s[k].fullName, s[k].idpUsername.value, None, DisableAction, DisableAdvice) in Select(outs, DisableUser)
      && exists p :: 0 <= p < |Intents(outs)| && Intents(outs)[p] == DisableIntent(s[k].username)
           && forall q :: 0 <= q < |Intents(outs)| && q != p ==> Intents(outs)[q].username != s[k].username
  {
    var a := s[k];
    var outs := Outcomes(ctx, s);
    OutcomesWellFormed(ctx, s);
    OutcomesDistinct(ctx, s);
    AccountDecided(ctx, s, k);
    var j :| 0 <= j < |outs| && outs[j].account == a;
    var o := outs[j];
    assert o == ProcessAccount(a, o.first, "");
    assert o.first == None;
    assert o.branch == DisableUser;
    RowPresent(outs, j, DisableUser);
    IntentPresent(outs, j);
    IntentsDistinct(ctx, outs);
    var issued := Intents(outs);
    var p :| 0 <= p < |issued| && issued[p] == DisableIntent(a.username);
    forall q | 0 <= q < |issued| && q != p ensures issued[q].username != a.username {
      if q < p {
        assert issued[q].username != issued[p].username;
      } else {
        assert issued[p].username != issued[q].username;
      }
    }
  }

  /** The calls of a run: none in rehearsal mode, one per change in live mode. */
  lemma IntentsByMode(ctx: Context, outs: seq<Outcome>)
    requires WellFormed(ctx, outs)
    ensures ctx.testUser != "" ==> Intents(outs) == []
    ensures ctx.testUser == "" ==> |Intents(outs)| == |Select(outs, DisableUser)| + |Select(outs, EnableUser)|
  {
    if ctx.testUser != "" {
      RehearsalIssuesNothing(ctx, outs);
    } else {
      LiveIntentsMatchBuckets(ctx, outs);
    }
  }

  /** In rehearsal mode (`testUser` non-empty) no portal call is ever made. */
  lemma {:induction false} RehearsalIssuesNothing(ctx: Context, outs: seq<Outcome>)
    requires WellFormed(ctx, outs)
    requires ctx.testUser != ""
    ensures Intents(outs) == []
    decreases |outs|
  {
    if outs != [] {
      RehearsalIssuesNothing(ctx, outs[1..]);
    }
  }

  /** In live mode there is exactly one portal call per row of the disabled and enabled buckets. */
  lemma {:induction false} LiveIntentsMatchBuckets(ctx: Context, outs: seq<Outcome>)
    requires WellFormed(ctx, outs)
    requires ctx.testUser == ""
    ensures |Intents(outs)| == |Select(outs, DisableUser)| + |Select(outs, EnableUser)|
    decreases |outs|
  {
    if outs != [] {
      LiveIntentsMatchBuckets(ctx, outs[1..]);
    }
  }

  /** Rehearsal mode makes the same decisions as live mode: the buckets do not
      depend on the test-user override. */
  lemma {:induction false} RehearsalDecidesLikeLive(ctx: Context, s: seq<Account>, testUser: string)
    ensures BucketsOf(Outcomes(ctx, s)) == BucketsOf(Outcomes(ctx.(testUser := testUser), s))
    ensures Halts(ctx, s) <==> Halts(ctx.(testUser := testUser), s)
    decreases |s|
  {
    if s != [] {
      RehearsalDecidesLikeLive(ctx, s[1..], testUser);
      var ctx' := ctx.(testUser := testUser);
      if Managed(s[0]) && QueryOf(ctx, s[0]).Answered? {
        var first := QueryOf(ctx, s[0]).first;
        var o := ProcessAccount(s[0], first, ctx.testUser);
        var o' := ProcessAccount(s[0], first, testUser);
        assert Outcomes(ctx, s) == [o] + Outcomes(ctx, s[1..]);
        assert Outcomes(ctx', s) == [o'] + Outcomes(ctx', s[1..]);
        SelectAppend([o], Outcomes(ctx, s[1..]), EnableUser);
        SelectAppend([o], Outcomes(ctx, s[1..]), DisableUser);
        SelectAppend([o], Outcomes(ctx, s[1..]), AlreadyDisabled);
        SelectAppend([o'], Outcomes(ctx', s[1..]), EnableUser);
        SelectAppend([o'], Outcomes(ctx', s[1..]), DisableUser);
        SelectAppend([o'], Outcomes(ctx', s[1..]), AlreadyDisabled);
      }
    }
  }

  // ---------------------------------------------------------------------------
  // Convergence: a second run against the same directory changes nothing
  // ---------------------------------------------------------------------------

  /** The effect of the issued portal calls on one account (`disable_users` /
      `enable_users` set the account's disabled flag). */
  function Mutate(a: Account, issued: seq<Intent>): (m: Account)
    ensures m.username == a.username && m.fullName == a.fullName && m.idpUsername == a.idpUsername
    ensures DisableIntent(a.username) in issued ==> m.disabled
    ensures DisableIntent(a.username) !in issued && EnableIntent(a.username) in issued ==> !m.disabled
    ensures DisableIntent(a.username) !in issued && EnableIntent(a.username) !in issued ==> m == a
  {
    if DisableIntent(a.username) in issued then a.(disabled := true)
    else if EnableIntent(a.username) in issued then a.(disabled := false)
    else a
  }

  /** The portal's accounts after the issued calls took effect. */
  function ApplyIntents(s: seq<Account>, issued: seq<Intent>): (r: seq<Account>)
    ensures |r| == |s|
    ensures forall k :: 0 <= k < |s| ==> r[k] == Mutate(s[k], issued)
    decreases |s|
  {
    if s == [] then [] else [Mutate(s[0], issued)] + ApplyIntents(s[1..], issued)
  }

  /** The decision taken again for an outcome's account after the calls, on the same directory answer. */
  function Redecide(o: Outcome, issued: seq<Intent>, testUser: string): Outcome {
    if Managed(o.account) then ProcessAccount(Mutate(o.account, issued), o.first, testUser) else o
  }

  function RedecideAll(outs: seq<Outcome>, issued: seq<Intent>, testUser: string): (r: seq<Outcome>)
    ensures |r| == |outs|
    ensures forall k :: 0 <= k < |outs| ==> r[k] == Redecide(outs[k], issued, testUser)
    decreases |outs|
  {
    if outs == [] then [] else [Redecide(outs[0], issued, testUser)] + RedecideAll(outs[1..], issued, testUser)
  }

  predicate DistinctUsernames(s: seq<Account>) {
    forall j, k :: 0 <= j < k < |s| ==> s[j].username != s[k].username
  }

  predicate DistinctOutcomeAccounts(outs: seq<Outcome>) {
    forall j, k :: 0 <= j < k < |outs| ==> outs[j].account.username != outs[k].account.username
  }

  /** An outcome with neither a state change nor a call. */
  predicate Settled(o: Outcome) {
    o.branch == AlreadyDisabled || o.branch == NoAction
  }

  /** The calls change no account's user name or identity-provider user name,
      so a second run queries the same keys and decides the same accounts. */
  lemma {:induction false} OutcomesAfterMutation(ctx: Context, s: seq<Account>, issued: seq<Intent>)
    ensures Outcomes(ctx, ApplyIntents(s, issued)) == RedecideAll(Outcomes(ctx, s), issued, ctx.testUser)
    ensures Halts(ctx, ApplyIntents(s, issued)) <==> Halts(ctx, s)
    decreases |s|
  {
    if s != [] {
      OutcomesAfterMutation(ctx, s[1..], issued);
      var t := ApplyIntents(s, issued);
      assert t[1..] == ApplyIntents(s[1..], issued);
      if Managed(s[0]) && QueryOf(ctx, s[0]).Answered? {
        var o := ProcessAccount(s[0], QueryOf(ctx, s[0]).first, ctx.testUser);
        assert Outcomes(ctx, s) == [o] + Outcomes(ctx, s[1..]);
        assert ([o] + Outcomes(ctx, s[1..]))[1..] == Outcomes(ctx, s[1..]);
      }
    }
  }

  lemma {:induction false} OutcomeAccountsFromEnumeration(ctx: Context, s: seq<Account>)
    ensures forall k :: 0 <= k < |Outcomes(ctx, s)| ==> Outcomes(ctx, s)[k].account in s
    decreases |s|
  {
    if s != [] {
      OutcomeAccountsFromEnumeration(ctx, s[1..]);
    }
  }

  lemma {:induction false} OutcomesDistinct(ctx: Context, s: seq<Account>)
    requires DistinctUsernames(s)
    ensures DistinctOutcomeAccounts(Outcomes(ctx, s))
    decreases |s|
  {
    if s != [] {
      assert DistinctUsernames(s[1..]) by {
        forall j, k | 0 <= j < k < |s[1..]| ensures s[1..][j].username != s[1..][k].username {
          assert s[1..][j] == s[j + 1] && s[1..][k] == s[k + 1];
        }
      }
      OutcomesDistinct(ctx, s[1..]);
      OutcomeAccountsFromEnumeration(ctx, s[1..]);
      var rest := Outcomes(ctx, s[1..]);
      if Managed(s[0]) && QueryOf(ctx, s[0]).Answered? {
        var o := ProcessAccount(s[0], QueryOf(ctx, s[0]).first, ctx.testUser);
        var outs := [o] + rest;
        assert Outcomes(ctx, s) == outs;
        forall j, k | 0 <= j < k < |outs| ensures outs[j].account.username != outs[k].account.username {
          assert outs[k] == rest[k - 1];
          if j == 0 {
            assert rest[k - 1].account in s[1..];
            var m :| 0 <= m < |s[1..]| && s[1..][m] == rest[k - 1].account;
            assert s[m + 1] == rest[k - 1].account;
          } else {
            assert outs[j] == rest[j - 1];
          }
        }
      }
    }
  }

  lemma {:induction false} IntentOrigin(outs: seq<Outcome>, i: Intent)
    requires i in Intents(outs)
    ensures exists k :: 0 <= k < |outs| && outs[k].intent == Some(i)
    decreases |outs|
  {
    var head := if outs[0].intent.Some? then [outs[0].intent.value] else [];
    assert Intents(outs) == head + Intents(outs[1..]);
    if i !in head {
      IntentOrigin(outs[1..], i);
      var k :| 0 <= k < |outs[1..]| && outs[1..][k].intent == Some(i);
      assert outs[k + 1].intent == Some(i);
    }
  }

  lemma {:induction false} IntentPresent(outs: seq<Outcome>, k: nat)
    requires k < |outs| && outs[k].intent.Some?
    ensures outs[k].intent.value in Intents(outs)
    decreases k
  {
    if k > 0 {
      IntentPresent(outs[1..], k - 1);
    }
  }

  /** With distinct user names, the calls naming a decided account are exactly
      the one its own decision made. */
  lemma IntentsNamingAccount(ctx: Context, outs: seq<Outcome>, k: nat)
    requires WellFormed(ctx, outs)
    requires ctx.testUser == ""
    requires DistinctOutcomeAccounts(outs)
    requires k < |outs|
    ensures DisableIntent(outs[k].account.username) in Intents(outs) <==> outs[k].branch == DisableUser
    ensures EnableIntent(outs[k].account.username) in Intents(outs) <==> outs[k].branch == EnableUser
  {
    var o := outs[k];
    var u := o.account.username;
    assert o == ProcessAccount(o.account, o.first, "");
    if o.branch == DisableUser || o.branch == EnableUser {
      IntentPresent(outs, k);
    }
    if DisableIntent(u) in Intents(outs) {
      IntentOrigin(outs, DisableIntent(u));
      var j :| 0 <= j < |outs| && outs[j].intent == Some(DisableIntent(u));
      assert outs[j] == ProcessAccount(outs[j].account, outs[j].first, "");
      assert j == k;
    }
    if EnableIntent(u) in Intents(outs) {
      IntentOrigin(outs, EnableIntent(u));
      var j :| 0 <= j < |outs| && outs[j].intent == Some(EnableIntent(u));
      assert outs[j] == ProcessAccount(outs[j].account, outs[j].first, "");
      assert j == k;
    }
  }

  /** After its own call, an account the directory denies is disabled and one
      it grants is enabled, so deciding again takes no action. */
  lemma RedecisionSettles(o: Outcome, issued: seq<Intent>)
    requires Managed(o.account)
    requires o == ProcessAccount(o.account, o.first, "")
    requires DisableIntent(o.account.username) in issued <==> o.branch == DisableUser
    requires EnableIntent(o.account.username) in issued <==> o.branch == EnableUser
    ensures Settled(Redecide(o, issued, ""))
  {
  }

  lemma ReconciledOutcomesSettle(ctx: Context, outs: seq<Outcome>)
    requires WellFormed(ctx, outs)
    requires ctx.testUser == ""
    requires DistinctOutcomeAccounts(outs)
    ensures forall k :: 0 <= k < |outs| ==> Settled(Redecide(outs[k], Intents(outs), ""))
  {
    forall k | 0 <= k < |outs| ensures Settled(Redecide(outs[k], Intents(outs), "")) {
      IntentsNamingAccount(ctx, outs, k);
      RedecisionSettles(outs[k], Intents(outs));
    }
  }

  /** Settled outcomes fill neither the enabled nor the disabled bucket and make no call. */
  lemma {:induction false} SettledRunIsQuiet(ctx: Context, outs: seq<Outcome>)
    requires WellFormed(ctx, outs)
    requires forall k :: 0 <= k < |outs| ==> Settled(outs[k])
    ensures Intents(outs) == []
    ensures Select(outs, EnableUser) == [] && Select(outs, DisableUser) == []
    decreases |outs|
  {
    if outs != [] {
      SettledRunIsQuiet(ctx, outs[1..]);
    }
  }

  /** Convergence: in live mode, after the calls of one run take effect, a
      second run against the same directory makes no call and has nothing
      to enable or disable. */
  lemma ReconciliationConverges(ctx: Context, s: seq<Account>)
    requires ctx.testUser == ""
    requires DistinctUsernames(s)
    ensures var next := Outcomes(ctx, ApplyIntents(s, Intents(Outcomes(ctx, s))));
      && Intents(next) == []
      && Select(next, EnableUser) == []
      && Select(next, DisableUser) == []
    ensures Halts(ctx, ApplyIntents(s, Intents(Outcomes(ctx, s)))) <==> Halts(ctx, s)
  {
    var outs := Outcomes(ctx, s);
    var issued := Intents(outs);
    OutcomesWellFormed(ctx, s);
    OutcomesDistinct(ctx, s);
    ReconciledOutcomesSettle(ctx, outs);
    OutcomesAfterMutation(ctx, s, issued);
    var next := Outcomes(ctx, ApplyIntents(s, issued));
    OutcomesWellFormed(ctx, ApplyIntents(s, issued));
    forall k | 0 <= k < |next| ensures Settled(next[k]) {
      assert next[k] == Redecide(outs[k], issued, "");
    }
    SettledRunIsQuiet(ctx, next);
  }
}
