/**
Runs of a self-updating node: checks, restarts and, where it does not matter, the loss of the
state file (cmd/sofmat/update.go:120-222, 352-387; cmd/sofmat/updateguard.go:204-282, 330-409).
*/
module UpdateRuns {
  import opened Options
  import opened StringOrder
  import opened UpdateGuard

  /** The running version, and the file that a restart would run. */
  datatype Node = Node(st: State, running: string, diskVersion: string, diskSha: string)

  /** Lose: the state file was replaced by something else. */
  datatype Event = Check(w: World) | Restart | Lose(st: State)

  function OutcomeOf(n: Node, e: Event): Outcome {
    if e.Check? then CheckAndUpdate(n.st, n.running, e.w).1 else NotChecked
  }

  /** A new binary runs as the version it declared when asked. */
  function Step(n: Node, e: Event): Node {
    match e
    case Restart => Node(Bootstrap(n.st, n.diskVersion, n.diskSha), n.diskVersion, n.diskVersion, n.diskSha)
    case Lose(st) => n.(st := st)
    case Check(w) =>
      var (st, o) := CheckAndUpdate(n.st, n.running, w);
      match o
      case Reexeced(v, sha) => Node(st, v, v, sha)
      case ReexecFailed(sha) => Node(st, n.running, w.release.tag, sha)
      case _ => n.(st := st)
  }

  function Run(n: Node, events: seq<Event>): Node
    decreases |events|
  {
    if events == [] then n else Run(Step(n, events[0]), events[1..])
  }

  ghost predicate NoLoss(events: seq<Event>) {
    forall i :: 0 <= i < |events| ==> !events[i].Lose?
  }

  /** The file on disk is never older than what runs. */
  predicate Forward(n: Node) {
    AtMost(n.running, n.diskVersion)
  }

  // ---------------------------------------------------------------- no update loop

  lemma NotAtMost(a: string, b: string)
    requires !AtMost(a, b)
    ensures Less(b, a)
  {
    LessTotal(a, b);
  }

  /** What a check that reached the swap says about the versions involved. */
  lemma InstallsOnlyNewer(st: State, version: string, w: World)
    ensures var o := CheckAndUpdate(st, version, w).1;
            && (o.Reexeced? || o.ReexecFailed? ==>
                  w.release.Release? && w.declared == Some(w.release.tag) && Less(version, w.release.tag))
            && (o.Reexeced? ==> o.version == w.release.tag)
  {
    if w.release.Release? && !AtMost(w.release.tag, version) {
      NotAtMost(w.release.tag, version);
    }
  }

  lemma StepGoesForward(n: Node, e: Event)
    requires Forward(n)
    ensures Forward(Step(n, e)) && AtMost(n.running, Step(n, e).running)
    ensures OutcomeOf(n, e).Reexeced? ==>
        Less(n.running, Step(n, e).running) && Step(n, e).running == OutcomeOf(n, e).version
  {
    if e.Check? {
      InstallsOnlyNewer(n.st, n.running, e.w);
    }
    hide CheckAndUpdate, Less;
  }

  lemma {:induction false} RunGoesForward(n: Node, events: seq<Event>)
    requires Forward(n)
    ensures Forward(Run(n, events)) && AtMost(n.running, Run(n, events).running)
    decreases |events|
  {
    if events != [] {
      StepGoesForward(n, events[0]);
      hide Step, AtMost;
      RunGoesForward(Step(n, events[0]), events[1..]);
      AtMostTransitive(n.running, Step(n, events[0]).running, Run(n, events).running);
    }
  }

  /** The versions a run re-executes into, in order. */
  function Reexecs(n: Node, events: seq<Event>): seq<string>
    decreases |events|
  {
    if events == [] then []
    else
      var o, rest := OutcomeOf(n, events[0]), Reexecs(Step(n, events[0]), events[1..]);
      if o.Reexeced? then [o.version] + rest else rest
  }

  ghost predicate Increasing(versions: seq<string>) {
    forall i, j :: 0 <= i < j < |versions| ==> Less(versions[i], versions[j])
  }

  /**
  No update loop: over every run, restarts and lost state included, each re-exec goes to a
  strictly newer version than everything before it.
  */
  lemma {:induction false} NoUpdateLoop(n: Node, events: seq<Event>)
    requires Forward(n)
    ensures Increasing(Reexecs(n, events))
    ensures forall i :: 0 <= i < |Reexecs(n, events)| ==> Less(n.running, Reexecs(n, events)[i])
    decreases |events|
  {
    if events != [] {
      var next := Step(n, events[0]);
      StepGoesForward(n, events[0]);
      hide Step, OutcomeOf;
      NoUpdateLoop(next, events[1..]);
      var rest := Reexecs(next, events[1..]);
      forall i | 0 <= i < |rest| ensures Less(n.running, rest[i]) {
        if n.running != next.running {
          LessTransitive(n.running, next.running, rest[i]);
        }
      }
    }
  }

  // ---------------------------------------------------------------- refused content

  /** The shas a run puts in place. */
  function Installs(n: Node, events: seq<Event>): seq<string>
    decreases |events|
  {
    if events == [] then []
    else
      var o, rest := OutcomeOf(n, events[0]), Installs(Step(n, events[0]), events[1..]);
      if o.Reexeced? || o.ReexecFailed? then [o.sha] + rest else rest
  }

  lemma CheckKeepsRefused(st: State, version: string, w: World)
    ensures var (after, o) := CheckAndUpdate(st, version, w);
            st.refused <= after.refused && (o.Reexeced? || o.ReexecFailed? ==> o.sha !in st.refused)
  {
    hide AtMost, Fetch, DigestMatches;
  }

  /** Content refused once is never installed again, under any tag. */
  lemma {:induction false} RefusedNeverInstalled(n: Node, events: seq<Event>, sha: string)
    requires NoLoss(events) && sha in n.st.refused
    ensures sha in Run(n, events).st.refused && sha !in Installs(n, events)
    decreases |events|
  {
    if events != [] {
      assert NoLoss(events[1..]);
      if events[0].Check? {
        CheckKeepsRefused(n.st, n.running, events[0].w);
      }
      hide CheckAndUpdate;
      RefusedNeverInstalled(Step(n, events[0]), events[1..], sha);
    }
  }

  // ---------------------------------------------------------------- the attempt budget

  /** Stored counters are always 1, 2 or 3. */
  ghost predicate CountersOk(st: State) {
    forall t :: t in st.attempts ==> 1 <= st.attempts[t] <= 3
  }

  lemma SpendKeepsCounters(st: State, tag: string, digest: string)
    requires CountersOk(st) && SpendAttempt(st, tag, digest).Some?
    ensures CountersOk(SpendAttempt(st, tag, digest).value)
  {
  }

  lemma ApplyKeepsCounters(st: State, w: World, tag: string, digest: string)
    requires CountersOk(st)
    ensures CountersOk(ApplyUpdate(st, w, tag, digest).0)
  {
    hide AtMost, Fetch, Judge;
  }

  lemma CheckKeepsCounters(st: State, version: string, w: World)
    requires CountersOk(st)
    ensures CountersOk(CheckAndUpdate(st, version, w).0)
  {
    hide AtMost, ApplyUpdate, SpendAttempt, AlreadyRefused;
    if w.release.Release? && w.release.asset.Some? {
      var tag, digest := w.release.tag, w.release.asset.value;
      var spent := SpendAttempt(st, tag, digest);
      if spent.Some? {
        SpendKeepsCounters(st, tag, digest);
        ApplyKeepsCounters(spent.value, w, tag, digest);
      }
    }
  }

  lemma {:induction false} RunKeepsCounters(n: Node, events: seq<Event>)
    requires CountersOk(n.st) && NoLoss(events)
    ensures CountersOk(Run(n, events).st)
    decreases |events|
  {
    if events != [] {
      assert NoLoss(events[1..]);
      if events[0].Check? {
        CheckKeepsCounters(n.st, n.running, events[0].w);
      }
      hide CheckAndUpdate, AtMost;
      RunKeepsCounters(Step(n, events[0]), events[1..]);
    }
  }

  /** A republished artifact has its whole budget again. */
  lemma NewDigestRestoresBudget(st: State, tag: string, digest: string)
    requires digest != "" && Get(st.digests, tag) != digest
    ensures Spent(st, tag, digest) == 0 && SpendAttempt(st, tag, digest).Some?
  {
  }

  /** An attempt that failed for a reason that is not the network, before anything was installed. */
  predicate Failed(o: Outcome) {
    o.NoSelf? || o.NotAdmitted? || o.SwapFailed?
  }

  /** While this release is what GitHub publishes, when it answers at all. */
  ghost predicate Published(events: seq<Event>, tag: string, digest: string) {
    && NoLoss(events)
    && forall i :: 0 <= i < |events| && events[i].Check? ==>
                     events[i].w.release.Unavailable? || events[i].w.release == Release(tag, Some(digest))
  }

  lemma SpendSpends(st: State, tag: string, digest: string)
    requires CountersOk(st)
    ensures 0 <= Spent(st, tag, digest) <= 3
    ensures SpendAttempt(st, tag, digest).None? <==> Spent(st, tag, digest) == 3
    ensures var spent := SpendAttempt(st, tag, digest);
            spent.Some? ==>
              && Spent(spent.value, tag, digest) == Spent(st, tag, digest) + 1 <= 3
              && Spent(RefundAttempt(spent.value, tag), tag, digest) == Spent(st, tag, digest)
  {
  }

  /** Short of an installation, applying an update does not touch the counters. */
  lemma ApplyKeepsBudget(st: State, w: World, tag: string, digest: string)
    ensures var (after, o) := ApplyUpdate(st, w, tag, digest);
            && (!o.Reexeced? && !o.ReexecFailed? ==> after.attempts == st.attempts && after.digests == st.digests)
            && (o.DownloadFailed? ==> after == st)
            && (Failed(o) || o.DownloadFailed? || o.Reexeced? || o.ReexecFailed?)
  {
    hide AtMost, Fetch, Judge;
  }

  /** What one check does to the budget of the published artifact. */
  lemma CheckSpends(st: State, version: string, w: World, tag: string, digest: string)
    requires CountersOk(st) && (w.release.Unavailable? || w.release == Release(tag, Some(digest)))
    ensures var (after, o) := CheckAndUpdate(st, version, w);
            && 0 <= Spent(st, tag, digest) <= 3
            && (Failed(o) ==> Spent(after, tag, digest) == Spent(st, tag, digest) + 1 <= 3)
            && (!Failed(o) && !o.Reexeced? && !o.ReexecFailed? ==> Spent(after, tag, digest) == Spent(st, tag, digest))
            && (o.StoppedBudget? ==> Spent(st, tag, digest) == 3)
  {
    hide AtMost, ApplyUpdate, SpendAttempt, AlreadyRefused, RefundAttempt;
    SpendSpends(st, tag, digest);
    var spent := SpendAttempt(st, tag, digest);
    if spent.Some? {
      ApplyKeepsBudget(spent.value, w, tag, digest);
    }
  }

  function Failures(n: Node, events: seq<Event>): nat
    decreases |events|
  {
    if events == [] then 0
    else (if Failed(OutcomeOf(n, events[0])) then 1 else 0) + Failures(Step(n, events[0]), events[1..])
  }

  function ReexecFailures(n: Node, events: seq<Event>): nat
    decreases |events|
  {
    if events == [] then 0
    else (if OutcomeOf(n, events[0]).ReexecFailed? then 1 else 0) + ReexecFailures(Step(n, events[0]), events[1..])
  }

  lemma CaughtUpChecksNothing(st: State, version: string, w: World, tag: string, digest: string)
    requires AtMost(tag, version) && (w.release.Unavailable? || w.release == Release(tag, Some(digest)))
    ensures CheckAndUpdate(st, version, w) == (st, NotChecked) || CheckAndUpdate(st, version, w) == (st, UpToDate)
  {
  }

  /** Once the published version runs, nothing is attempted any more. */
  lemma {:induction false} CaughtUp(n: Node, events: seq<Event>, tag: string, digest: string)
    requires Forward(n) && Published(events, tag, digest) && AtMost(tag, n.running)
    ensures Failures(n, events) == 0 && ReexecFailures(n, events) == 0
    decreases |events|
  {
    if events != [] {
      StepGoesForward(n, events[0]);
      AtMostTransitive(tag, n.running, Step(n, events[0]).running);
      if events[0].Check? {
        CaughtUpChecksNothing(n.st, n.running, events[0].w, tag, digest);
      }
      hide CheckAndUpdate, AtMost;
      CaughtUp(Step(n, events[0]), events[1..], tag, digest);
    }
  }

  lemma RestartKeepsBudget(st: State, version: string, sha: string, tag: string, digest: string)
    requires !AtMost(tag, version)
    ensures Spent(Bootstrap(st, version, sha), tag, digest) == Spent(st, tag, digest)
  {
  }

  /**
  The general budget: failures before installation, over any run against one published
  artifact, are at most three per time the counter was cleared. Only an installation clears
  it, so only a failed re-exec, which leaves the old version running, can start it again.
  */
  lemma {:induction false} FailuresAreBudgeted(n: Node, events: seq<Event>, tag: string, digest: string)
    requires Forward(n) && CountersOk(n.st) && Published(events, tag, digest)
    ensures Failures(n, events) + Spent(n.st, tag, digest) <= 3 * (1 + ReexecFailures(n, events))
    decreases |events|
  {
    SpentInRange(n.st, tag, digest);
    if events != [] {
      var e, next, rest := events[0], Step(n, events[0]), events[1..];
      StepGoesForward(n, e);
      assert Published(rest, tag, digest);
      RunKeepsCounters(n, [e]);
      assert Run(n, [e]) == next;
      SpentInRange(next.st, tag, digest);
      if e.Check? {
        CheckSpends(n.st, n.running, e.w, tag, digest);
        InstallsOnlyNewer(n.st, n.running, e.w);
      }
      if AtMost(tag, next.running) {
        CaughtUp(next, rest, tag, digest);
      } else if e.Restart? {
        RestartKeepsBudget(n.st, n.diskVersion, n.diskSha, tag, digest);
      }
      hide CheckAndUpdate, Bootstrap, Spent, Published;
      FailuresAreBudgeted(next, rest, tag, digest);
    }
  }

  lemma SpentInRange(st: State, tag: string, digest: string)
    requires CountersOk(st)
    ensures 0 <= Spent(st, tag, digest) <= 3
  {
  }

  /** Where re-exec works, at most three attempts fail, restarts included. */
  lemma AtMostThreeFailures(n: Node, events: seq<Event>, tag: string, digest: string)
    requires Forward(n) && CountersOk(n.st) && Published(events, tag, digest)
    requires forall i :: 0 <= i < |events| && events[i].Check? ==> events[i].w.reexecOk
    ensures Failures(n, events) <= 3 && ReexecFailures(n, events) == 0
  {
    NoReexecFailures(n, events);
    FailuresAreBudgeted(n, events, tag, digest);
    SpentInRange(n.st, tag, digest);
  }

  lemma {:induction false} NoReexecFailures(n: Node, events: seq<Event>)
    requires forall i :: 0 <= i < |events| && events[i].Check? ==> events[i].w.reexecOk
    ensures ReexecFailures(n, events) == 0
    decreases |events|
  {
    if events != [] {
      assert !OutcomeOf(n, events[0]).ReexecFailed?;
      hide OutcomeOf, Step;
      NoReexecFailures(Step(n, events[0]), events[1..]);
    }
  }

  // ---------------------------------------------------------------- when re-exec fails

  const STUCK_WORLD: World := World(false, Release("2", Some("")), [Some("sha")], true, true, Some("2"), true, false)
  const STUCK_NODE: Node := Node(EMPTY, "1", "1", "old")

  /** The state every such check leaves behind. */
  const STUCK_STATE: State := State({}, map[], map[], map[], "2", "sha")

  lemma StuckCheck(st: State)
    requires st == EMPTY || st == STUCK_STATE
    ensures CheckAndUpdate(st, "1", STUCK_WORLD) == (STUCK_STATE, ReexecFailed("sha"))
  {
    assert Less("1", "2") && !AtMost("2", "1") && AtMost("2", "2");
    var spent := SpendAttempt(st, "2", "");
    assert spent == Some(st.(attempts := map["2" := 1]));
    assert Lower(TrimDigest("")) == "";
    assert Fetch([Some("sha")], "") == Some("sha");
    assert NoteInstalled(spent.value, "2", "sha") == STUCK_STATE;
  }

  /**
  The budget does not bound failed re-execs: installing clears the counter before the re-exec,
  so a node that cannot re-exec downloads and installs the same release at every check.
  */
  lemma {:induction false} FailedReexecsAreUnbounded(k: nat, n: Node)
    requires n == STUCK_NODE || n == Node(STUCK_STATE, "1", "2", "sha")
    ensures var events := seq(k, i => Check(STUCK_WORLD));
            Published(events, "2", "") && ReexecFailures(n, events) == k
  {
    var events := seq(k, i => Check(STUCK_WORLD));
    if k > 0 {
      StuckCheck(n.st);
      var next := Step(n, events[0]);
      assert next == Node(STUCK_STATE, "1", "2", "sha");
      FailedReexecsAreUnbounded(k - 1, next);
      assert events[1..] == seq(k - 1, i => Check(STUCK_WORLD));
    }
  }

  /** Every check of the run meets a machine that can, or cannot, re-exec. */
  ghost predicate ReexecsAre(events: seq<Event>, works: bool) {
    forall i :: 0 <= i < |events| && events[i].Check? ==> events[i].w.reexecOk == works
  }

  /** A run against one published artifact on a node in a state it can reach. */
  ghost predicate Chasing(n: Node, events: seq<Event>, tag: string, digest: string) {
    Forward(n) && CountersOk(n.st) && Published(events, tag, digest)
  }

  /** "Three attempts and stop" holds of every run exactly on machines where re-exec works. */
  lemma BudgetHoldsIffReexecWorks(works: bool)
    ensures (forall n, events, tag, digest :: Chasing(n, events, tag, digest) && ReexecsAre(events, works)
               ==> Failures(n, events) + ReexecFailures(n, events) <= 3) <==> works
  {
    if works {
      forall n, events, tag, digest | Chasing(n, events, tag, digest) && ReexecsAre(events, works)
        ensures Failures(n, events) + ReexecFailures(n, events) <= 3
      {
        AtMostThreeFailures(n, events, tag, digest);
      }
    } else {
      FailedReexecsAreUnbounded(4, STUCK_NODE);
      var events := seq(4, i => Check(STUCK_WORLD));
      assert Chasing(STUCK_NODE, events, "2", "") && ReexecsAre(events, works);
    }
  }

  // ---------------------------------------------------------------- after a refusal

  /**
  A refusal is tied to the published digest exactly when it judged new content: content already
  in the list of refused shas, or a file that cannot be read or does not answer, leaves it unmarked.
  */
  lemma RefusalIsRemembered(st: State, a: Artifact, tag: string, digest: string)
    requires digest != "" && tag != "" && !AlreadyRefused(st, tag, digest)
    requires !Judge(st, a, tag, digest).Admitted?
    ensures var after := AfterJudging(st, Judge(st, a, tag, digest), a.sum, tag, digest);
            AlreadyRefused(after, tag, digest) <==>
            a.hashed && a.sum !in st.refused && (a.declared.Some? || !DigestMatches(digest, a.sum))
  {
  }

  /** Content refused before is downloaded again at the next check, until the budget ends. */
  lemma KnownBadIsFetchedAgain(st: State, version: string, w: World)
    requires CountersOk(st) && CheckAndUpdate(st, version, w).1 == NotAdmitted(KnownBad)
    ensures w.release.Release? && w.release.asset.Some?
    ensures var (tag, digest) := (w.release.tag, w.release.asset.value);
            var (after, _) := CheckAndUpdate(st, version, w);
            CheckAndUpdate(after, version, w).1 ==
            if Spent(after, tag, digest) < 3 then NotAdmitted(KnownBad) else StoppedBudget
  {
    hide AtMost, Fetch;
    var tag, digest := w.release.tag, w.release.asset.value;
    CheckKeepsCounters(st, version, w);
    var after := CheckAndUpdate(st, version, w).0;
    assert after.refused == st.refused && after.refusedTags == st.refusedTags;
    SpendSpends(after, tag, digest);
    hide DigestMatches, CountersOk;
  }

  predicate Quiet(o: Outcome) {
    o.NotChecked? || o.UpToDate? || o.StoppedRefused?
  }

  ghost predicate AllQuiet(n: Node, events: seq<Event>)
    decreases |events|
  {
    events == [] || (Quiet(OutcomeOf(n, events[0])) && AllQuiet(Step(n, events[0]), events[1..]))
  }

  lemma RefusedChecksNothing(st: State, version: string, w: World, tag: string, digest: string)
    requires AlreadyRefused(st, tag, digest) && (w.release.Unavailable? || w.release == Release(tag, Some(digest)))
    ensures Quiet(CheckAndUpdate(st, version, w).1) && CheckAndUpdate(st, version, w).0 == st
  {
  }

  lemma RestartKeepsRefusal(st: State, version: string, sha: string, tag: string, digest: string)
    requires AlreadyRefused(st, tag, digest) && !AtMost(tag, version)
    ensures AlreadyRefused(Bootstrap(st, version, sha), tag, digest)
  {
  }

  /** While the refused artifact stays published nothing is downloaded again, restarts included. */
  lemma {:induction false} NoDownloadsAfterRefusal(n: Node, events: seq<Event>, tag: string, digest: string)
    requires Forward(n) && Published(events, tag, digest)
    requires AlreadyRefused(n.st, tag, digest) || AtMost(tag, n.running)
    ensures AllQuiet(n, events)
    decreases |events|
  {
    if events != [] {
      var e, next := events[0], Step(n, events[0]);
      StepGoesForward(n, e);
      assert Published(events[1..], tag, digest);
      if AtMost(tag, n.running) {
        AtMostTransitive(tag, n.running, next.running);
        if e.Check? {
          CaughtUpChecksNothing(n.st, n.running, e.w, tag, digest);
        }
      } else if e.Check? {
        RefusedChecksNothing(n.st, n.running, e.w, tag, digest);
      } else if !AtMost(tag, n.diskVersion) {
        RestartKeepsRefusal(n.st, n.diskVersion, n.diskSha, tag, digest);
      }
      hide CheckAndUpdate, Bootstrap, AlreadyRefused, AtMost, Published;
      NoDownloadsAfterRefusal(next, events[1..], tag, digest);
    }
  }

  // ---------------------------------------------------------------- downloads after any refusal

  /** The check fetched the artifact, or tried to. */
  predicate Downloads(o: Outcome) {
    o.DownloadFailed? || o.NotAdmitted? || o.SwapFailed? || o.ReexecFailed? || o.Reexeced?
  }

  ghost predicate NoDownloads(n: Node, events: seq<Event>)
    decreases |events|
  {
    events == [] || (!Downloads(OutcomeOf(n, events[0])) && NoDownloads(Step(n, events[0]), events[1..]))
  }

  lemma {:induction false} QuietIsNoDownload(n: Node, events: seq<Event>)
    requires AllQuiet(n, events)
    ensures NoDownloads(n, events)
    decreases |events|
  {
    hide Step, OutcomeOf;
    if events != [] {
      QuietIsNoDownload(Step(n, events[0]), events[1..]);
    }
  }

  /** What a refusing check leaves behind, for a release that publishes a digest. */
  lemma RefusingCheck(st: State, version: string, w: World, v: Verdict)
    requires CheckAndUpdate(st, version, w).1 == NotAdmitted(v)
    ensures w.release.Release? && w.release.asset.Some? && w.hasSelf && !w.corrupt && version != "dev"
    ensures w.release.tag != "" && !AtMost(w.release.tag, version) && Fetch(w.downloads, w.release.asset.value).Some?
    ensures var (tag, digest) := (w.release.tag, w.release.asset.value);
            var after := CheckAndUpdate(st, version, w).0;
            digest != "" ==> (AlreadyRefused(after, tag, digest) <==> v.DigestMismatch? || v.Mislabelled?)
  {
    hide AtMost, Fetch, DigestMatches;
  }

  /** The next check of the same release downloads again exactly when attempts are left. */
  lemma UnmarkedIsFetchedAgain(st: State, version: string, w: World, tag: string, digest: string)
    requires CountersOk(st) && w.release == Release(tag, Some(digest)) && tag != "" && !AtMost(tag, version)
    requires version != "dev" && !w.corrupt && w.hasSelf && !AlreadyRefused(st, tag, digest)
    ensures var o := CheckAndUpdate(st, version, w).1;
            && (Downloads(o) <==> Spent(st, tag, digest) < 3)
            && (o.StoppedBudget? <==> Spent(st, tag, digest) == 3)
  {
    hide AtMost, Fetch, Judge, AlreadyRefused, SpendAttempt, Spent;
    SpendSpends(st, tag, digest);
  }

  lemma SpentOutChecksNothing(st: State, version: string, w: World, tag: string, digest: string)
    requires CountersOk(st) && Spent(st, tag, digest) == 3
    requires w.release.Unavailable? || w.release == Release(tag, Some(digest))
    ensures CheckAndUpdate(st, version, w).0 == st && !Downloads(CheckAndUpdate(st, version, w).1)
  {
    hide AtMost, SpendAttempt, Spent, AlreadyRefused, ApplyUpdate;
    SpendSpends(st, tag, digest);
  }

  /** With the budget spent nothing is downloaded while the artifact stays published, restarts included. */
  lemma {:induction false} SpentOutStaysQuiet(n: Node, events: seq<Event>, tag: string, digest: string)
    requires Forward(n) && CountersOk(n.st) && Published(events, tag, digest)
    requires Spent(n.st, tag, digest) == 3 || AtMost(tag, n.running)
    ensures NoDownloads(n, events)
    decreases |events|
  {
    if events != [] {
      var e, next := events[0], Step(n, events[0]);
      StepGoesForward(n, e);
      assert Published(events[1..], tag, digest);
      RunKeepsCounters(n, [e]);
      assert Run(n, [e]) == next;
      if AtMost(tag, n.running) {
        AtMostTransitive(tag, n.running, next.running);
        if e.Check? {
          CaughtUpChecksNothing(n.st, n.running, e.w, tag, digest);
        }
      } else if e.Check? {
        SpentOutChecksNothing(n.st, n.running, e.w, tag, digest);
      } else if !AtMost(tag, n.diskVersion) {
        RestartKeepsBudget(n.st, n.diskVersion, n.diskSha, tag, digest);
      }
      hide CheckAndUpdate, Bootstrap, Spent, AtMost, Published, CountersOk;
      SpentOutStaysQuiet(next, events[1..], tag, digest);
    }
  }

  /** The artifact is not downloaded again in any run in which it stays published. */
  ghost predicate NeverAgain(n: Node, tag: string, digest: string) {
    forall events :: Published(events, tag, digest) ==> NoDownloads(n, events)
  }

  /**
  After a check that refused an artifact with a published digest there are no more downloads of
  it exactly when the refusal judged new content, or the budget is spent. Content refused before
  under another tag, or a file that does not answer, is downloaded again.
  */
  lemma RefusalEndsDownloadsIff(n: Node, w: World, v: Verdict)
    requires Forward(n) && CountersOk(n.st) && OutcomeOf(n, Check(w)) == NotAdmitted(v)
    requires w.release.Release? && w.release.asset.Some? && w.release.asset.value != ""
    ensures var next := Step(n, Check(w));
            var (tag, digest) := (w.release.tag, w.release.asset.value);
            NeverAgain(next, tag, digest) <==>
            v.DigestMismatch? || v.Mislabelled? || Spent(next.st, tag, digest) == 3
  {
    var next, tag, digest := Step(n, Check(w)), w.release.tag, w.release.asset.value;
    RefusingCheck(n.st, n.running, w, v);
    CheckKeepsCounters(n.st, n.running, w);
    StepGoesForward(n, Check(w));
    SpentInRange(next.st, tag, digest);
    assert next.running == n.running && next.st == CheckAndUpdate(n.st, n.running, w).0;
    hide CheckAndUpdate, Step, AtMost, AlreadyRefused, Spent, NoDownloads, Fetch;
    if v.DigestMismatch? || v.Mislabelled? {
      forall events | Published(events, tag, digest) ensures NoDownloads(next, events) {
        NoDownloadsAfterRefusal(next, events, tag, digest);
        QuietIsNoDownload(next, events);
      }
    } else if Spent(next.st, tag, digest) == 3 {
      forall events | Published(events, tag, digest) ensures NoDownloads(next, events) {
        SpentOutStaysQuiet(next, events, tag, digest);
      }
    } else {
      UnmarkedIsFetchedAgain(next.st, next.running, w, tag, digest);
      var again := [Check(w)];
      assert Published(again, tag, digest);
      OneDownload(next, w);
    }
  }

  lemma OneDownload(n: Node, w: World)
    requires Downloads(CheckAndUpdate(n.st, n.running, w).1)
    ensures !NoDownloads(n, [Check(w)])
  {
    hide CheckAndUpdate;
  }

  // ---------------------------------------------------------------- a stale artifact, republished

  /** A binary that declares version 1, with sha "ab", published under another tag with its digest. */
  function StaleWorld(tag: string): World {
    World(false, Release(tag, Some("ab")), [Some("ab")], true, true, Some("1"), true, true)
  }

  const STALE_NODE: Node := Node(EMPTY, "1", "1", "old")

  /** After tag "2" was refused and tag "3" was tried k times. */
  function StaleState(k: nat): State {
    State({"ab"}, if k == 0 then map["2" := 1] else map["2" := 1, "3" := k],
          if k == 0 then map["2" := "ab"] else map["2" := "ab", "3" := "ab"], map["2" := "ab"], "", "")
  }

  lemma StaleFacts()
    ensures !AtMost("2", "1") && !AtMost("3", "1")
    ensures Fetch([Some("ab")], "ab") == Some("ab") && DigestMatches("ab", "ab")
  {
    assert Less("1", "2") && Less("1", "3");
    assert SHA_PREFIX[0] == 's' && !(SHA_PREFIX <= "ab");
    assert Lower("ab") == "ab";
  }

  /** Under its first tag the artifact is refused for its declared version, and the tag is marked. */
  lemma StaleIsRefused()
    ensures CheckAndUpdate(EMPTY, "1", StaleWorld("2")) == (StaleState(0), NotAdmitted(Mislabelled))
  {
    StaleFacts();
    hide AtMost, Fetch, DigestMatches;
    var st := SpendAttempt(EMPTY, "2", "ab");
    assert st.Some? && st.value.attempts == map["2" := 1] && st.value.digests == map["2" := "ab"];
    assert {} + {"ab"} == {"ab"};
  }

  /** Under its next tag it is refused for its sha, three times over, and the tag is never marked. */
  lemma StaleIsFetchedAgain(k: nat)
    requires k < 3
    ensures CheckAndUpdate(StaleState(k), "1", StaleWorld("3")) == (StaleState(k + 1), NotAdmitted(KnownBad))
  {
    StaleFacts();
    hide AtMost, Fetch, DigestMatches;
    var st := StaleState(k);
    var spent := SpendAttempt(st, "3", "ab");
    assert "2" != "3" && "3" !in st.refusedTags;
    assert spent.Some?;
    assert spent.value.attempts == StaleState(k + 1).attempts;
    assert spent.value.digests == StaleState(k + 1).digests;
  }

  /** A run that reaches the case: refused under "2", then downloaded again and again under "3". */
  lemma StaleRun()
    ensures var two, three := Check(StaleWorld("2")), Check(StaleWorld("3"));
            var n1 := Step(STALE_NODE, two);
            var n2 := Step(n1, three);
            && OutcomeOf(STALE_NODE, two) == NotAdmitted(Mislabelled)
            && OutcomeOf(n1, three) == NotAdmitted(KnownBad)
            && OutcomeOf(n2, three) == NotAdmitted(KnownBad)
  {
    StaleIsRefused();
    StaleIsFetchedAgain(0);
    StaleIsFetchedAgain(1);
    hide CheckAndUpdate, StaleState, StaleWorld, Step, OutcomeOf;
    RefusedStep(EMPTY, StaleWorld("2"), StaleState(0), Mislabelled);
    RefusedStep(StaleState(0), StaleWorld("3"), StaleState(1), KnownBad);
    RefusedStep(StaleState(1), StaleWorld("3"), StaleState(2), KnownBad);
  }

  lemma RefusedStep(st: State, w: World, after: State, v: Verdict)
    requires CheckAndUpdate(st, "1", w) == (after, NotAdmitted(v))
    ensures Step(Node(st, "1", "1", "old"), Check(w)) == Node(after, "1", "1", "old")
    ensures OutcomeOf(Node(st, "1", "1", "old"), Check(w)) == NotAdmitted(v)
  {
    hide CheckAndUpdate;
  }
}
