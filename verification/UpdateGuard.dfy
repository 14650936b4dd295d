/**
The persisted guards of the self-updater (cmd/sofmat/updateguard.go:37-89, 204-282, 330-373)
and the decision order of one check (cmd/sofmat/update.go:120-222, 293-388). The network, the
downloaded files, the program that answers "version", the renames and the re-exec are oracles.
*/
module UpdateGuard {
  import opened Options
  import opened StringOrder

  const MAX_ATTEMPTS: int := 3

  /** updateState: what survives a restart. Versions are stamps compared as strings. */
  datatype State = State(
    refused: set<string>,
    attempts: map<string, int>,
    digests: map<string, string>,
    refusedTags: map<string, string>,
    installedVersion: string,
    installedSha: string)

  const EMPTY: State := State({}, map[], map[], map[], "", "")

  // ---------------------------------------------------------------- digests

  const SHA_PREFIX: string := "sha256:"

  function TrimDigest(digest: string): string {
    if SHA_PREFIX <= digest then digest[|SHA_PREFIX|..] else digest
  }

  function LowerChar(c: char): char {
    if 'A' <= c <= 'Z' then ((c as int) + 32) as char else c
  }

  function Lower(s: string): string {
    seq(|s|, i requires 0 <= i < |s| => LowerChar(s[i]))
  }

  /** strings.EqualFold on hexadecimal text. */
  predicate DigestMatches(digest: string, sum: string) {
    Lower(TrimDigest(digest)) == Lower(sum)
  }

  /** The prefix GitHub publishes is not part of the digest, and case does not matter. */
  lemma DigestMeans(digest: string, sum: string)
    ensures TrimDigest("sha256:" + digest) == digest
    ensures DigestMatches("sha256:" + digest, sum) <==> Lower(digest) == Lower(sum)
    ensures Lower("ABCDEF0123456789abcdef") == "abcdef0123456789abcdef"
  {
    var whole := "sha256:" + digest;
    assert whole[|SHA_PREFIX|..] == digest && whole[..|SHA_PREFIX|] == SHA_PREFIX;
  }

  // ---------------------------------------------------------------- the guards

  function Get(m: map<string, string>, key: string): string {
    if key in m then m[key] else ""
  }

  function Attempts(st: State, target: string): int {
    if target in st.attempts then st.attempts[target] else 0
  }

  predicate AlreadyRefused(st: State, target: string, digest: string) {
    digest != "" && Get(st.refusedTags, target) == digest
  }

  /** A different artifact for the same version starts a new budget. */
  function Republished(st: State, target: string, digest: string): State {
    if digest != "" && Get(st.digests, target) != digest
    then st.(attempts := st.attempts[target := 0], digests := st.digests[target := digest])
    else st
  }

  /** None: the budget is spent and nothing is written. */
  function SpendAttempt(st: State, target: string, digest: string): Option<State> {
    var current := Republished(st, target, digest);
    var n := Attempts(current, target) + 1;
    if n > MAX_ATTEMPTS then None else Some(current.(attempts := current.attempts[target := n]))
  }

  function RefundAttempt(st: State, target: string): State {
    if target !in st.attempts || st.attempts[target] <= 0 then st
    else if st.attempts[target] - 1 == 0 then st.(attempts := st.attempts - {target})
    else st.(attempts := st.attempts[target := st.attempts[target] - 1])
  }

  function NoteRefusedTag(st: State, target: string, digest: string): State {
    if digest == "" || target == "" then st else st.(refusedTags := st.refusedTags[target := digest])
  }

  /** Only what is above the installed version is kept. */
  function Newer<V>(m: map<string, V>, version: string): map<string, V> {
    map t | t in m && !AtMost(t, version) :: m[t]
  }

  function NoteInstalled(st: State, version: string, sha: string): State {
    State(st.refused, Newer(st.attempts, version), Newer(st.digests, version), Newer(st.refusedTags, version),
          version, sha)
  }

  /** bootstrapInstalled: the binary that runs is the installed one. */
  function Bootstrap(st: State, version: string, sha: string): State {
    if version == "dev" || (st.installedVersion == version && st.installedSha == sha) then st
    else NoteInstalled(st, version, sha)
  }

  /** After a start the running binary is on record; a start that finds it there writes nothing. */
  lemma BootstrapMeans(st: State, version: string, sha: string, tag: string)
    ensures version == "dev" ==> Bootstrap(st, version, sha) == st
    ensures version != "dev" ==>
              Bootstrap(st, version, sha).installedVersion == version && Bootstrap(st, version, sha).installedSha == sha
    ensures st.installedVersion == version && st.installedSha == sha ==> Bootstrap(st, version, sha) == st
    ensures version != "dev" && (st.installedVersion != version || st.installedSha != sha) ==>
              (tag in Bootstrap(st, version, sha).attempts <==> tag in st.attempts && Less(version, tag))
    ensures Bootstrap(st, version, sha).refused == st.refused
  {
    LessTotal(tag, version);
    LessIrreflexive(tag);
    if Less(version, tag) {
      LessAsymmetric(version, tag);
    }
  }

  datatype Verdict = Admitted | Unreadable | KnownBad | DigestMismatch | Silent | Mislabelled

  /** What admitArtifact finds out about the file: whether it can be hashed, and the version it answers with. */
  datatype Artifact = Artifact(sum: string, hashed: bool, declared: Option<string>)

  /** admitArtifact's decision. */
  function Judge(st: State, a: Artifact, want: string, digest: string): Verdict {
    var sum, declared := a.sum, a.declared;
    if !a.hashed then Unreadable
    else if sum in st.refused then KnownBad
    else if digest != "" && !DigestMatches(digest, sum) then DigestMismatch
    else if declared.None? then Silent
    else if declared.value != want then Mislabelled
    else Admitted
  }

  function AfterJudging(st: State, v: Verdict, sum: string, want: string, digest: string): State {
    if v.DigestMismatch? || v.Mislabelled?
    then NoteRefusedTag(st.(refused := st.refused + {sum}), want, digest)
    else st
  }

  // ---------------------------------------------------------------- one check

  /** A published release: its tag without the "v", and the digest of this platform's asset. */
  datatype Release = Unavailable | Release(tag: string, asset: Option<string>)

  /** What the world answers during one check; a download is the sha of what arrived. */
  datatype World = World(
    corrupt: bool,
    release: Release,
    downloads: seq<Option<string>>,
    hasSelf: bool,
    hashed: bool,
    declared: Option<string>,
    swapOk: bool,
    reexecOk: bool)

  datatype Outcome =
    | NotChecked | UpToDate | NoAsset | StoppedRefused | StoppedBudget
    | DownloadFailed | NoSelf | NotAdmitted(verdict: Verdict) | SwapFailed
    | ReexecFailed(sha: string) | Reexeced(version: string, sha: string)

  /** bajarArtefacto: the first of the tries whose bytes match the published digest, if there is one. */
  function Fetch(downloads: seq<Option<string>>, digest: string): Option<string> {
    if downloads == [] then None
    else
      var first, want := downloads[0], Lower(TrimDigest(digest));
      if first.Some? && (want == "" || first.value == want) then first
      else Fetch(downloads[1..], digest)
  }

  /** applyUpdate after the attempt was spent. */
  function ApplyUpdate(st: State, w: World, want: string, digest: string): (State, Outcome) {
    if !w.hasSelf then (st, NoSelf)
    else
      var got := Fetch(w.downloads, digest);
      if got.None? then (st, DownloadFailed)
      else
        var sum := got.value;
        var v := Judge(st, Artifact(sum, w.hashed, w.declared), want, digest);
        if !v.Admitted? then (AfterJudging(st, v, sum, want, digest), NotAdmitted(v))
        else if !w.swapOk then (st, SwapFailed)
        else (NoteInstalled(st, want, sum), if w.reexecOk then Reexeced(want, sum) else ReexecFailed(sum))
  }

  function CheckAndUpdate(st: State, version: string, w: World): (State, Outcome) {
    if version == "dev" || w.corrupt || w.release.Unavailable? || w.release.tag == "" then (st, NotChecked)
    else
      var latest := w.release.tag;
      if AtMost(latest, version) then (st, UpToDate)
      else if w.release.asset.None? then (st, NoAsset)
      else
        var digest := w.release.asset.value;
        if AlreadyRefused(st, latest, digest) then (st, StoppedRefused)
        else
          var spent := SpendAttempt(st, latest, digest);
          if spent.None? then (st, StoppedBudget)
          else
            var (after, outcome) := ApplyUpdate(spent.value, w, latest, digest);
            (if outcome.DownloadFailed? then RefundAttempt(after, latest) else after, outcome)
  }

  /** A try that may be used: something arrived, and its sha is the published digest if there is one. */
  predicate Usable(got: Option<string>, digest: string) {
    got.Some? && (TrimDigest(digest) == "" || got.value == Lower(TrimDigest(digest)))
  }

  /** The first usable try, if any. */
  lemma {:induction false} FetchMeans(downloads: seq<Option<string>>, digest: string)
    ensures Fetch(downloads, digest).Some? <==> exists i :: 0 <= i < |downloads| && Usable(downloads[i], digest)
    ensures Fetch(downloads, digest).Some? ==>
              exists i :: && 0 <= i < |downloads| && Usable(downloads[i], digest)
                          && Fetch(downloads, digest) == downloads[i]
                          && forall j :: 0 <= j < i ==> !Usable(downloads[j], digest)
    decreases |downloads|
  {
    assert Lower(TrimDigest(digest)) == "" <==> TrimDigest(digest) == "";
    if downloads != [] && !Usable(downloads[0], digest) {
      var rest := downloads[1..];
      FetchMeans(rest, digest);
      if i :| 0 <= i < |downloads| && Usable(downloads[i], digest) {
        assert rest[i - 1] == downloads[i];
      }
      if i :| && 0 <= i < |rest| && Usable(rest[i], digest) && Fetch(rest, digest) == rest[i]
              && forall j :: 0 <= j < i ==> !Usable(rest[j], digest) {
        assert downloads[i + 1] == rest[i];
        forall j | 0 <= j < i + 1 ensures !Usable(downloads[j], digest) {
          assert j > 0 ==> downloads[j] == rest[j - 1];
        }
      }
    }
  }

  /** When a check looks at a release at all: a stamped build, a readable state, an answer with a tag. */
  predicate Looks(version: string, w: World) {
    version != "dev" && !w.corrupt && w.release.Release? && w.release.tag != ""
  }

  /** Attempts already spent on this very artifact. */
  function Spent(st: State, tag: string, digest: string): int {
    if digest != "" && Get(st.digests, tag) != digest then 0 else Attempts(st, tag)
  }

  /** How a check ends, by what it finds, in the order it looks. */
  lemma CheckMeans(st: State, version: string, w: World)
    ensures var o := CheckAndUpdate(st, version, w).1;
            && (o.NotChecked? <==> !Looks(version, w))
            && (o.UpToDate? <==> Looks(version, w) && (w.release.tag == version || Less(w.release.tag, version)))
  {
    hide SpendAttempt, AlreadyRefused, Fetch, Judge, NoteInstalled, RefundAttempt, Less;
  }

  /** And once the release is newer. */
  lemma NewerMeans(st: State, version: string, w: World)
    requires Looks(version, w) && w.release.tag != version && !Less(w.release.tag, version)
    ensures var o := CheckAndUpdate(st, version, w).1;
            && (o.NoAsset? <==> w.release.asset.None?)
            && (w.release.asset.Some? ==>
                  var tag, digest := w.release.tag, w.release.asset.value;
                  var marked := digest != "" && tag in st.refusedTags && st.refusedTags[tag] == digest;
                  && (o.StoppedRefused? <==> marked)
                  && (o.StoppedBudget? <==> !marked && Spent(st, tag, digest) >= 3)
                  && (o.NoSelf? <==> !marked && Spent(st, tag, digest) < 3 && !w.hasSelf)
                  && (o.DownloadFailed? <==>
                      !marked && Spent(st, tag, digest) < 3 && w.hasSelf && Fetch(w.downloads, digest).None?))
  {
    hide Fetch, Judge, NoteInstalled, RefundAttempt, Less;
  }

  /** The five questions of admitArtifact, in order. */
  lemma JudgeMeans(st: State, a: Artifact, want: string, digest: string)
    ensures var v := Judge(st, a, want, digest);
            && (v.Unreadable? <==> !a.hashed)
            && (v.KnownBad? <==> a.hashed && a.sum in st.refused)
            && (v.DigestMismatch? <==>
                a.hashed && a.sum !in st.refused && digest != "" && Lower(TrimDigest(digest)) != Lower(a.sum))
            && (v.Admitted? <==>
                && a.hashed && a.sum !in st.refused && a.declared == Some(want)
                && (digest == "" || Lower(TrimDigest(digest)) == Lower(a.sum)))
            && (v.Silent? ==> a.declared.None?)
            && (AfterJudging(st, v, a.sum, want, digest).refused
                == if v.DigestMismatch? || v.Mislabelled? then st.refused + {a.sum} else st.refused)
  {
    hide Lower, TrimDigest;
  }

  // ---------------------------------------------------------------- the file and its users

  /** The state file: every method loads, changes and saves it. */
  class StateFile {
    var st: State

    constructor ()
      ensures st == EMPTY
    {
      st := EMPTY;
    }

    method Spend(target: string, digest: string) returns (ok: bool)
      modifies this
      ensures ok <==> SpendAttempt(old(st), target, digest).Some?
      ensures ok <==> Spent(old(st), target, digest) < 3
      ensures ok ==> target in st.attempts && st.attempts[target] == Spent(old(st), target, digest) + 1
      ensures st == if ok then SpendAttempt(old(st), target, digest).value else old(st)
    {
      var attempts, digests := st.attempts, st.digests;
      if digest != "" && Get(digests, target) != digest {
        attempts := attempts[target := 0];
        digests := digests[target := digest];
      }
      var n := (if target in attempts then attempts[target] else 0) + 1;
      if n > MAX_ATTEMPTS {
        return false;
      }
      attempts := attempts[target := n];
      st := st.(attempts := attempts, digests := digests);
      return true;
    }

    method Refund(target: string)
      modifies this
      ensures st == RefundAttempt(old(st), target)
    {
      if target !in st.attempts || st.attempts[target] <= 0 {
        return;
      }
      var n := st.attempts[target];
      if n - 1 == 0 {
        st := st.(attempts := st.attempts - {target});
      } else {
        st := st.(attempts := st.attempts[target := n - 1]);
      }
    }

    /** The three purge loops of noteInstalled, then the record of what was installed. */
    method Installed(version: string, sha: string)
      modifies this
      ensures st == NoteInstalled(old(st), version, sha)
    {
      var attempts := Purge(st.attempts, version);
      var digests := Purge(st.digests, version);
      var tags := Purge(st.refusedTags, version);
      st := State(st.refused, attempts, digests, tags, version, sha);
    }

    /** bootstrapInstalled, at every start. */
    method Boot(version: string, sha: string)
      modifies this
      ensures st == Bootstrap(old(st), version, sha)
    {
      if version == "dev" {
        return;
      }
      if st.installedVersion == version && st.installedSha == sha {
        return;
      }
      Installed(version, sha);
    }

    /** admitArtifact. */
    method Admit(a: Artifact, want: string, digest: string) returns (v: Verdict)
      modifies this
      ensures v == Judge(old(st), a, want, digest) && st == AfterJudging(old(st), v, a.sum, want, digest)
    {
      if !a.hashed {
        return Unreadable;
      }
      var sum, declared := a.sum, a.declared;
      if sum in st.refused {
        return KnownBad;
      }
      if digest != "" && !DigestMatches(digest, sum) {
        st := st.(refused := st.refused + {sum});
        st := NoteRefusedTag(st, want, digest);
        return DigestMismatch;
      }
      if declared.None? {
        return Silent;
      }
      if declared.value != want {
        st := st.(refused := st.refused + {sum});
        st := NoteRefusedTag(st, want, digest);
        return Mislabelled;
      }
      return Admitted;
    }

    /** checkAndUpdate with applyUpdate inlined where it is called. */
    method Check(version: string, w: World) returns (outcome: Outcome)
      modifies this
      ensures (st, outcome) == CheckAndUpdate(old(st), version, w)
    {
      if version == "dev" || w.corrupt || w.release.Unavailable? || w.release.tag == "" {
        return NotChecked;
      }
      var latest := w.release.tag;
      if AtMost(latest, version) {
        return UpToDate;
      }
      if w.release.asset.None? {
        return NoAsset;
      }
      var digest := w.release.asset.value;
      if AlreadyRefused(st, latest, digest) {
        return StoppedRefused;
      }
      var ok := Spend(latest, digest);
      if !ok {
        return StoppedBudget;
      }
      outcome := Install(w, latest, digest);
      if outcome.DownloadFailed? {
        Refund(latest);
      }
    }

    method Install(w: World, want: string, digest: string) returns (outcome: Outcome)
      modifies this
      ensures (st, outcome) == ApplyUpdate(old(st), w, want, digest)
    {
      if !w.hasSelf {
        return NoSelf;
      }
      var got := FetchLoop(w.downloads, digest);
      if got.None? {
        return DownloadFailed;
      }
      var v := Admit(Artifact(got.value, w.hashed, w.declared), want, digest);
      if !v.Admitted? {
        return NotAdmitted(v);
      }
      if !w.swapOk {
        return SwapFailed;
      }
      Installed(want, got.value);
      return if w.reexecOk then Reexeced(want, got.value) else ReexecFailed(got.value);
    }
  }

  method Purge<V>(m: map<string, V>, version: string) returns (r: map<string, V>)
    ensures r == Newer(m, version)
  {
    r := m;
    var left := m.Keys;
    while left != {}
      invariant left <= m.Keys
      invariant forall t :: t in r <==> t in m && (t in left || !AtMost(t, version))
      invariant forall t :: t in r ==> r[t] == m[t]
      decreases left
    {
      var t :| t in left;
      if AtMost(t, version) {
        r := r - {t};
      }
      left := left - {t};
    }
  }

  method FetchLoop(downloads: seq<Option<string>>, digest: string) returns (got: Option<string>)
    ensures got == Fetch(downloads, digest)
    ensures got.Some? <==> exists i :: 0 <= i < |downloads| && Usable(downloads[i], digest)
  {
    FetchMeans(downloads, digest);
    var want := Lower(TrimDigest(digest));
    for i := 0 to |downloads|
      invariant Fetch(downloads, digest) == Fetch(downloads[i..], digest)
    {
      assert downloads[i..][1..] == downloads[i + 1..];
      if downloads[i].Some? && (want == "" || downloads[i].value == want) {
        return downloads[i];
      }
    }
    return None;
  }
}
