/**
 * One scheduled run of the script (updateUsers.py, `main`): reconcile every
 * enumerated account, then compose the report and decide whether to send it.
 * Portal sign-in is external; its only result the core uses is `portalCheck`.
 */
module Pipeline {
  import opened Options
  import opened Directory
  import opened Reconcile
  import opened Notification

  /** What a run leaves behind: the portal calls made, the buckets (absent
      when the run stopped at an unreachable directory) and the message sent. */
  datatype JobOutput = JobOutput(intents: seq<Intent>, buckets: Option<Buckets>, mail: Option<Mail>)

  function ContextFor(cfg: Config, portalCheck: int, dir: DirectoryFn): Context {
    Context(dir, SearchAttributeFor(portalCheck), cfg.testUser)
  }

  /** The whole run as a function of its inputs. */
  function Job(cfg: Config, portalCheck: int, dir: DirectoryFn, users: seq<Account>): (o: JobOutput)
    ensures o.buckets.None? <==> Halts(ContextFor(cfg, portalCheck, dir), users)
    ensures o.buckets.None? ==> o.mail.None?
    ensures o.buckets.Some? ==>
      (o.mail.Some? <==> o.buckets.value.enabled != [] || o.buckets.value.disabled != [])
    ensures o.mail.Some? ==> o.mail.value.html == ReportHtml(o.buckets.value)
    ensures cfg.testUser != "" ==> o.intents == []
    ensures cfg.testUser == "" && o.buckets.Some? ==>
      |o.intents| == |o.buckets.value.enabled| + |o.buckets.value.disabled|
  {
    var ctx := ContextFor(cfg, portalCheck, dir);
    var outs := Outcomes(ctx, users);
    OutcomesWellFormed(ctx, users);
    IntentsByMode(ctx, outs);
    if Halts(ctx, users) then JobOutput(Intents(outs), None, None)
    else
      var b := BucketsOf(outs);
      JobOutput(Intents(outs), Some(b), Notify(cfg, b, ReportHtml(b)))
  }

  /** `main`: sign-in has produced `portalCheck`; run the loop, then the notification. */
  method RunJob(cfg: Config, portalCheck: int, dir: DirectoryFn, users: seq<Account>) returns (o: JobOutput)
    ensures o == Job(cfg, portalCheck, dir, users)
  {
    var ctx := ContextFor(cfg, portalCheck, dir);
    var run := GetPortalUsers(ctx, users);
    match run
    case Aborted(issued) =>
      o := JobOutput(issued, None, None);
    case Completed(b, issued) =>
      var html := ReportHtml(b);
      o := JobOutput(issued, Some(b), Notify(cfg, b, html));
  }

  /** A directory that cannot be reached stops the run at that account: no
      message is sent and the only portal calls are those of the accounts
      before it. */
  lemma UnreachableDirectoryStopsRun(cfg: Config, portalCheck: int, dir: DirectoryFn, users: seq<Account>, k: nat)
    requires k < |users| && Managed(users[k])
    requires QueryOf(ContextFor(cfg, portalCheck, dir), users[k]).Unreachable?
    requires !Halts(ContextFor(cfg, portalCheck, dir), users[..k])
    ensures Job(cfg, portalCheck, dir, users).mail.None?
    ensures Job(cfg, portalCheck, dir, users).buckets.None?
    ensures Job(cfg, portalCheck, dir, users).intents == Intents(Outcomes(ContextFor(cfg, portalCheck, dir), users[..k]))
  {
    var ctx := ContextFor(cfg, portalCheck, dir);
    var u := users[k];
    assert users == users[..k] + ([u] + users[k + 1..]);
    HaltsAppend(ctx, users[..k], [u] + users[k + 1..]);
    OutcomesAppend(ctx, users[..k], [u] + users[k + 1..]);
    assert Halts(ctx, [u] + users[k + 1..]);
    assert Outcomes(ctx, [u] + users[k + 1..]) == [];
    assert Outcomes(ctx, users) == Outcomes(ctx, users[..k]);
  }

  /** Rehearsal mode makes exactly the decisions of live mode, makes no portal
      call, and sends to the test user alone whenever live mode would send. */
  lemma RehearsalMatchesLive(cfg: Config, portalCheck: int, dir: DirectoryFn, users: seq<Account>)
    requires cfg.testUser != ""
    ensures var rehearsal := Job(cfg, portalCheck, dir, users);
      var live := Job(cfg.(testUser := ""), portalCheck, dir, users);
      && rehearsal.buckets == live.buckets
      && rehearsal.intents == []
      && (rehearsal.mail.Some? <==> live.mail.Some?)
      && (rehearsal.mail.Some? ==> rehearsal.mail.value.envelope == [cfg.testUser])
  {
    RehearsalDecidesLikeLive(ContextFor(cfg, portalCheck, dir), users, "");
  }

  /** Convergence of the scheduled job: in live mode, once the calls of a run
      have taken effect, a second run against the same directory makes no
      call and sends no message. */
  lemma SecondRunIsQuiet(cfg: Config, portalCheck: int, dir: DirectoryFn, users: seq<Account>)
    requires cfg.testUser == ""
    requires DistinctUsernames(users)
    ensures var first := Job(cfg, portalCheck, dir, users);
      var second := Job(cfg, portalCheck, dir, ApplyIntents(users, first.intents));
      second.intents == [] && second.mail.None?
  {
    ReconciliationConverges(ContextFor(cfg, portalCheck, dir), users);
  }

  /** An enabled account the directory no longer knows, anywhere in a live
      run that completes: it gets one disable call and no other call naming
      it, it is reported under Accounts Disabled with no department, and the
      message goes to the department administrator with the administrator in copy. */
  lemma DeprovisionedAccountIsDisabled(cfg: Config, portalCheck: int, dir: DirectoryFn, users: seq<Account>, k: nat)
    requires cfg.testUser == ""
    requires DistinctUsernames(users)
    requires !Halts(ContextFor(cfg, portalCheck, dir), users)
    requires k < |users| && Managed(users[k]) && !users[k].disabled
    requires QueryOf(ContextFor(cfg, portalCheck, dir), users[k]) == Answered(None)
    ensures var o := Job(cfg, portalCheck, dir, users);
      var a := users[k];
      && o.buckets.Some?
      && Row(a.fullName, a.idpUsername.value, None, DisableAction, DisableAdvice) in o.buckets.value.disabled
      && (exists p :: 0 <= p < |o.intents| && o.intents[p] == DisableIntent(a.username)
            && forall q :: 0 <= q < |o.intents| && q != p ==> o.intents[q].username != a.username)
      && o.mail.Some?
      && o.mail.value.to == cfg.deptAdminNotify
      && o.mail.value.cc == Some(cfg.adminNotify)
      && o.mail.value.envelope == [cfg.deptAdminNotify, cfg.adminNotify]
  {
    var ctx := ContextFor(cfg, portalCheck, dir);
    var outs := Outcomes(ctx, users);
    DeprovisionedOutcome(ctx, users, k);
    var b := BucketsOf(outs);
    assert b.disabled != [];
    assert Job(cfg, portalCheck, dir, users) == JobOutput(Intents(outs), Some(b), Notify(cfg, b, ReportHtml(b)));
  }
}
