/** What holds over any sequence of release jobs, each stopped wherever it may be, and retried with any commit. */
module ReleaseRuns {
  import opened Wrappers
  import opened ReleaseFinalization

  // The image a job has loaded pushes to the digest its commit image has.
  ghost predicate Faithful(remote: Remote, job: Job) {
    forall i: Image | (i, job.sha) in remote.commitImages ::
      job.loaded(i).manifest == remote.commitImages[(i, job.sha)].manifest
  }

  // A receipt stands beside its application tag and lists the digests of the four aliases.
  ghost predicate ReceiptsHold(remote: Remote) {
    forall v | v in remote.receipts :: ReceiptHolds(remote, v)
  }

  ghost predicate ReceiptHolds(remote: Remote, v: Version)
    requires v in remote.receipts
  {
    var receipt := remote.receipts[v];
    && v in remote.tags && remote.tags[v].commit == receipt.parent == receipt.commit
    && forall i: Image :: (i, v) in remote.aliases && i in receipt.digests
                          && receipt.digests[i] == remote.aliases[(i, v)]
  }

  ghost predicate KeepsAliases(before: Remote, after: Remote) {
    forall key | key in before.aliases :: key in after.aliases && after.aliases[key] == before.aliases[key]
  }

  // Commit images and tags stay as they were published, and a new application tag comes with its receipt tag.
  ghost predicate KeepsTags(before: Remote, after: Remote) {
    && (forall key | key in before.commitImages ::
          key in after.commitImages && after.commitImages[key] == before.commitImages[key])
    && (forall v | v in before.tags :: v in after.tags && after.tags[v] == before.tags[v])
    && (forall v | v in before.receipts :: v in after.receipts && after.receipts[v] == before.receipts[v])
    && (forall v | v in after.tags && v !in before.tags :: v in after.receipts)
  }

  // ---- Steps ----

  lemma PublishKeeps(remote: Remote, job: Job, count: nat)
    requires count <= |IMAGES|
    ensures var after := Publish(remote, job, count);
            KeepsTags(remote, after) && KeepsAliases(remote, after) && (ReceiptsHold(remote) ==> ReceiptsHold(after))
  {
    forall key ensures var after := CommitImagesPushed(remote, job, count);
                       && after == remote.(commitImages := after.commitImages)
                       && (key in remote.commitImages ==> key in after.commitImages
                                                          && after.commitImages[key] == remote.commitImages[key]) {
      CommitImagesPushedAt(remote, job, count, key);
    }
  }

  // The aliases after `count` pushes of a faithful run that passed the checks.
  lemma {:induction false} FaithfulPushes(remote: Remote, job: Job, count: nat)
    requires count <= |IMAGES| && Guard(remote, job) == None && Faithful(remote, job)
    ensures var (after, problem) := AliasesPushed(remote, job, count);
            && problem == None && after == remote.(aliases := after.aliases)
            && (forall key :: key in after.aliases <==>
                  key in remote.aliases || exists k :: 0 <= k < count && key == (IMAGES[k], job.version))
            && (forall key | key in remote.aliases :: after.aliases[key] == remote.aliases[key])
            && (forall key | key in after.aliases && key.1 == job.version ::
                  Some(after.aliases[key]) == job.digests(key.0))
  {
    hide Guard;
    GuardVerifies(remote, job);
    if count > 0 {
      FaithfulPushes(remote, job, count - 1);
      var i := IMAGES[count - 1];
      assert ImageVerified(remote, job, i) && Some(job.loaded(i).manifest) == job.digests(i);
      hide Faithful, ImageVerified;
    }
  }

  lemma PushesKeep(remote: Remote, job: Job, count: nat)
    requires count <= |IMAGES| && Guard(remote, job) == None && Faithful(remote, job)
    ensures var after := AliasesPushed(remote, job, count).0;
            KeepsAliases(remote, after) && (ReceiptsHold(remote) ==> ReceiptsHold(after))
  {
    FaithfulPushes(remote, job, count);
    var after := AliasesPushed(remote, job, count).0;
    if ReceiptsHold(remote) {
      forall v | v in after.receipts ensures ReceiptHolds(after, v) {
        assert ReceiptHolds(remote, v);
      }
    }
  }

  lemma DeliverKeeps(remote: Remote, job: Job)
    requires forall i: Image :: job.digests(i).Some? && (i, job.version) in remote.aliases
                                && Some(remote.aliases[(i, job.version)]) == job.digests(i)
    requires job.version in remote.tags ==> remote.tags[job.version].commit == job.sha
    ensures var after := Deliver(remote, job).0;
            KeepsTags(remote, after) && KeepsAliases(remote, after) && (ReceiptsHold(remote) ==> ReceiptsHold(after))
  {
    var after := Deliver(remote, job).0;
    if ReceiptsHold(remote) {
      forall v | v in after.receipts ensures ReceiptHolds(after, v) {
        if v in remote.receipts {
          assert ReceiptHolds(remote, v);
        }
      }
    }
  }

  lemma AllAliasesPushed(remote: Remote, job: Job)
    requires Guard(remote, job) == None && Faithful(remote, job)
    ensures var after := AliasesPushed(remote, job, |IMAGES|).0;
            forall i: Image :: (i, job.version) in after.aliases && Some(after.aliases[(i, job.version)]) == job.digests(i)
  {
    FaithfulPushes(remote, job, |IMAGES|);
    ImagesAreAll();
    var after := AliasesPushed(remote, job, |IMAGES|).0;
    forall i: Image ensures (i, job.version) in after.aliases {
      var k :| 0 <= k < |IMAGES| && IMAGES[k] == i;
      assert (i, job.version) == (IMAGES[k], job.version);
    }
  }

  lemma {:induction false} PushesChangeOnlyAliases(remote: Remote, job: Job, count: nat)
    requires count <= |IMAGES|
    ensures var after := AliasesPushed(remote, job, count).0; after == remote.(aliases := after.aliases)
  {
    if count > 0 {
      PushesChangeOnlyAliases(remote, job, count - 1);
    }
  }

  lemma DeliverKeepsTags(remote: Remote, job: Job)
    requires forall i: Image :: job.digests(i).Some?
    ensures KeepsTags(remote, Deliver(remote, job).0)
  {
    hide DigestMap;
  }

  // Whatever the loaded images push to.
  lemma FinalizeKeepsTags(remote: Remote, job: Job, writes: nat)
    ensures KeepsTags(remote, Finalize(remote, job, writes).0)
  {
    hide Guard, ImageVerified, AliasesPushed, Deliver;
    if Guard(remote, job) == None {
      var count := if writes < |IMAGES| then writes else |IMAGES|;
      GuardVerifies(remote, job);
      PushesChangeOnlyAliases(remote, job, count);
      DeliverKeepsTags(AliasesPushed(remote, job, count).0, job);
    }
  }

  lemma FinalizeKeeps(remote: Remote, job: Job, writes: nat)
    requires Faithful(remote, job)
    ensures var after := Finalize(remote, job, writes).0;
            KeepsAliases(remote, after) && (ReceiptsHold(remote) ==> ReceiptsHold(after))
  {
    if Guard(remote, job) == None {
      var count := if writes < |IMAGES| then writes else |IMAGES|;
      var pushed := AliasesPushed(remote, job, count).0;
      FaithfulPushes(remote, job, count);
      PushesKeep(remote, job, count);
      if writes > |IMAGES| {
        GuardVerifies(remote, job);
        AllAliasesPushed(remote, job);
        DeliverKeeps(pushed, job);
      }
    }
  }

  // ---- Runs ----

  datatype Step = PublishImages(job: Job, writes: nat) | FinalizeRelease(job: Job, writes: nat)

  function After(remote: Remote, step: Step): Remote {
    match step
    case PublishImages(job, writes) => Publish(remote, job, if writes < |IMAGES| then writes else |IMAGES|)
    case FinalizeRelease(job, writes) => Finalize(remote, job, writes).0
  }

  function Run(remote: Remote, steps: seq<Step>): Remote
    decreases |steps|
  {
    if steps == [] then remote else Run(After(remote, steps[0]), steps[1..])
  }

  ghost predicate FaithfulRun(remote: Remote, steps: seq<Step>)
    decreases |steps|
  {
    steps == []
    || ((steps[0].FinalizeRelease? ==> Faithful(remote, steps[0].job))
        && FaithfulRun(After(remote, steps[0]), steps[1..]))
  }

  lemma StepKeepsTags(remote: Remote, step: Step)
    ensures KeepsTags(remote, After(remote, step))
  {
    match step
    case PublishImages(job, writes) => PublishKeeps(remote, job, if writes < |IMAGES| then writes else |IMAGES|);
    case FinalizeRelease(job, writes) => FinalizeKeepsTags(remote, job, writes);
  }

  /** Over any run, whatever its jobs have loaded: a commit image is never replaced, no version tag or receipt tag ever
      moves, and a new application tag comes with its receipt tag. */
  lemma {:induction false} RunKeepsTags(remote: Remote, steps: seq<Step>)
    ensures KeepsTags(remote, Run(remote, steps))
    decreases |steps|
  {
    if steps != [] {
      hide After;
      StepKeepsTags(remote, steps[0]);
      RunKeepsTags(After(remote, steps[0]), steps[1..]);
    }
  }

  /** Over any run whose loaded images push to the digests of their commit images, a version alias never changes digest,
      and every receipt lists the digests of its version's aliases. */
  lemma {:induction false} RunKeepsReleases(remote: Remote, steps: seq<Step>)
    requires FaithfulRun(remote, steps)
    ensures KeepsTags(remote, Run(remote, steps)) && KeepsAliases(remote, Run(remote, steps))
    ensures ReceiptsHold(remote) ==> ReceiptsHold(Run(remote, steps))
    decreases |steps|
  {
    RunKeepsTags(remote, steps);
    if steps != [] {
      match steps[0] {
        case PublishImages(job, writes) => PublishKeeps(remote, job, if writes < |IMAGES| then writes else |IMAGES|);
        case FinalizeRelease(job, writes) => FinalizeKeeps(remote, job, writes);
      }
      RunKeepsReleases(After(remote, steps[0]), steps[1..]);
      hide After, ReceiptsHold, KeepsTags, Faithful;
    }
  }

  // ---- Retrying the same commit ----

  // What a reader sees of a remote; object ids are left out.
  datatype View = View(
    commitImages: map<(Image, Commit), Build>,
    aliases: map<(Image, Version), Digest>,
    tags: map<Version, Commit>,
    receipts: map<Version, (Commit, Commit, map<Image, Digest>)>)

  function TagView(tags: map<Version, ApplicationTag>): map<Version, Commit> {
    map v | v in tags :: tags[v].commit
  }

  function ReceiptView(receipts: map<Version, Receipt>): map<Version, (Commit, Commit, map<Image, Digest>)> {
    map v | v in receipts :: (receipts[v].parent, receipts[v].commit, receipts[v].digests)
  }

  function Seen(remote: Remote): View {
    View(remote.commitImages, remote.aliases, TagView(remote.tags), ReceiptView(remote.receipts))
  }

  // Two attempts at one release differ only in the ids of the objects they create.
  ghost predicate SameRelease(a: Job, b: Job) {
    a == b.(tagObject := a.tagObject, receiptObject := a.receiptObject)
  }

  lemma GuardIgnoresObjects(remote: Remote, a: Job, b: Job)
    requires SameRelease(a, b)
    ensures Guard(remote, a) == Guard(remote, b)
  {
  }

  lemma {:induction false} VerifiedHasNoProblem(remote: Remote, job: Job, start: nat)
    requires start <= |IMAGES| && forall i: Image :: ImageVerified(remote, job, i)
    ensures FirstImageProblem(remote, job, start) == None
    decreases |IMAGES| - start
  {
    if start < |IMAGES| {
      VerifiedHasNoProblem(remote, job, start + 1);
      assert ImageVerified(remote, job, IMAGES[start]);
    }
  }

  // The four aliases of a release.
  function AliasMap(job: Job): map<(Image, Version), Digest>
    requires forall i: Image :: job.digests(i).Some?
  {
    map i: Image | true :: (i, job.version) := job.digests(i).value
  }

  lemma PushedAliases(remote: Remote, job: Job)
    requires Guard(remote, job) == None && Faithful(remote, job) && forall i: Image :: job.digests(i).Some?
    ensures AliasesPushed(remote, job, |IMAGES|) == (remote.(aliases := remote.aliases + AliasMap(job)), None)
  {
    hide AliasesPushed, Guard, Faithful;
    FaithfulPushes(remote, job, |IMAGES|);
    AllAliasesPushed(remote, job);
    var pushed, all := AliasesPushed(remote, job, |IMAGES|).0.aliases, remote.aliases + AliasMap(job);
    forall key ensures (key in pushed <==> key in all) && (key in pushed ==> pushed[key] == all[key]) {
      if key.1 == job.version {
        assert (key.0, job.version) == key;
      }
    }
    assert pushed == all;
  }

  // Where a run of the release that passed the checks can have stopped.
  ghost predicate Midway(remote: Remote, job: Job, mid: Remote)
    requires forall i: Image :: job.digests(i).Some?
  {
    && mid.commitImages == remote.commitImages
    && mid.aliases + AliasMap(job) == remote.aliases + AliasMap(job)
    && (forall i: Image | (i, job.version) in mid.aliases :: Some(mid.aliases[(i, job.version)]) == job.digests(i))
    && ((mid.tags == remote.tags && mid.receipts == remote.receipts)
        || mid == Deliver(remote.(aliases := remote.aliases + AliasMap(job)), job).0)
  }

  lemma AliasesMidway(remote: Remote, job: Job, count: nat)
    requires count <= |IMAGES| && Guard(remote, job) == None && Faithful(remote, job)
    requires forall i: Image :: job.digests(i).Some?
    ensures AliasesPushed(remote, job, count).0.aliases + AliasMap(job) == remote.aliases + AliasMap(job)
  {
  }

  lemma PushingIsMidway(remote: Remote, job: Job, count: nat)
    requires count <= |IMAGES| && Guard(remote, job) == None && Faithful(remote, job)
    requires forall i: Image :: job.digests(i).Some?
    ensures AliasesPushed(remote, job, count).1 == None && Midway(remote, job, AliasesPushed(remote, job, count).0)
  {
    hide Guard, Faithful, AliasMap, AliasesPushed, Deliver;
    FaithfulPushes(remote, job, count);
    AliasesMidway(remote, job, count);
  }

  lemma DeliveredIsMidway(remote: Remote, job: Job)
    requires Guard(remote, job) == None && Faithful(remote, job) && forall i: Image :: job.digests(i).Some?
    ensures Midway(remote, job, Deliver(AliasesPushed(remote, job, |IMAGES|).0, job).0)
  {
    PushedAliases(remote, job);
    PushingIsMidway(remote, job, |IMAGES|);
    DeliverSucceeds(AliasesPushed(remote, job, |IMAGES|).0, job);
    hide Guard, Faithful, AliasMap, AliasesPushed, Deliver, DigestMap;
  }

  lemma StopsMidway(remote: Remote, job: Job, writes: nat)
    requires Guard(remote, job) == None && Faithful(remote, job)
    ensures (forall i: Image :: job.digests(i).Some?) && Midway(remote, job, Finalize(remote, job, writes).0)
  {
    hide Guard, Faithful, ImageVerified, AliasesPushed, Deliver, Midway;
    GuardVerifies(remote, job);
    PushingIsMidway(remote, job, if writes < |IMAGES| then writes else |IMAGES|);
    DeliveredIsMidway(remote, job);
  }

  lemma GuardPassesMidway(remote: Remote, a: Job, b: Job, mid: Remote)
    requires Guard(remote, a) == None && Faithful(remote, a) && SameRelease(a, b)
    requires (forall i: Image :: a.digests(i).Some?) && Midway(remote, a, mid)
    ensures Guard(mid, b) == None && Faithful(mid, b)
  {
  }

  lemma DeliverSucceeds(remote: Remote, job: Job)
    requires forall i: Image :: job.digests(i).Some?
    ensures var v := job.version;
            Deliver(remote, job)
            == if v in remote.receipts
                  && (remote.receipts[v].parent != job.sha || remote.receipts[v].commit != job.sha
                      || remote.receipts[v].digests != DigestMap(job))
               then (remote, Refused(ReceiptDiffers))
               else
                 (remote.(
                    tags := if v in remote.tags then remote.tags
                            else remote.tags[v := ApplicationTag(job.tagObject, job.sha)],
                    receipts := if v in remote.receipts then remote.receipts
                                else remote.receipts[v := Receipt(job.receiptObject, job.sha, job.sha, DigestMap(job))]),
                  Completed)
  {
  }

  lemma TagViewUpdate(tags: map<Version, ApplicationTag>, v: Version, a: ApplicationTag, b: ApplicationTag)
    requires a.commit == b.commit
    ensures TagView(tags[v := a]) == TagView(tags[v := b])
  {
  }

  lemma ReceiptViewUpdate(receipts: map<Version, Receipt>, v: Version, a: Receipt, b: Receipt)
    requires a.parent == b.parent && a.commit == b.commit && a.digests == b.digests
    ensures ReceiptView(receipts[v := a]) == ReceiptView(receipts[v := b])
  {
  }

  // Delivery depends on the ids of new objects only in the ids themselves, and delivering twice is delivering once.
  lemma DeliverAgain(remote: Remote, a: Job, b: Job)
    requires SameRelease(a, b) && forall i: Image :: a.digests(i).Some?
    ensures Seen(Deliver(remote, a).0) == Seen(Deliver(remote, b).0) && Deliver(remote, a).1 == Deliver(remote, b).1
    ensures Deliver(Deliver(remote, a).0, b) == Deliver(remote, a)
  {
    var v, digests := a.version, DigestMap(a);
    assert DigestMap(b) == digests;
    DeliverSucceeds(remote, a);
    DeliverSucceeds(remote, b);
    DeliverSucceeds(Deliver(remote, a).0, b);
    TagViewUpdate(remote.tags, v, ApplicationTag(a.tagObject, a.sha), ApplicationTag(b.tagObject, a.sha));
    ReceiptViewUpdate(remote.receipts, v, Receipt(a.receiptObject, a.sha, a.sha, digests),
                      Receipt(b.receiptObject, a.sha, a.sha, digests));
    hide Deliver, DigestMap, TagView, ReceiptView;
  }

  /** An interrupted release run, retried with the same commit, ends where an uninterrupted run would have ended. */
  lemma RetryFinishes(remote: Remote, a: Job, b: Job, writes: nat)
    requires Faithful(remote, a) && SameRelease(a, b)
    ensures var mid, full := Finalize(remote, a, writes).0, Finalize(remote, b, 5);
            && Seen(Finalize(mid, b, 5).0) == Seen(full.0) && Finalize(mid, b, 5).1 == full.1
            && Faithful(mid, b)
  {
    GuardIgnoresObjects(remote, a, b);
    if Guard(remote, a) == None {
      var mid := Finalize(remote, a, writes).0;
      StopsMidway(remote, a, writes);
      GuardPassesMidway(remote, a, b, mid);
      PushedAliases(remote, b);
      PushedAliases(mid, b);
      assert AliasMap(a) == AliasMap(b);
      var pushed := remote.(aliases := remote.aliases + AliasMap(b));
      DeliverAgain(pushed, a, b);
      hide Guard, Faithful, AliasesPushed, Deliver, Seen, AliasMap;
    }
  }

  function Attempts(remote: Remote, jobs: seq<Job>, writes: seq<nat>): Remote
    requires |jobs| == |writes|
    decreases |jobs|
  {
    if jobs == [] then remote else Attempts(Finalize(remote, jobs[0], writes[0]).0, jobs[1..], writes[1..])
  }

  /** However many attempts at a release were cut short, and wherever each was, the attempt that is let finish leaves
      the registry and the tags as one uninterrupted run would have. */
  lemma {:induction false} RetriesConverge(remote: Remote, jobs: seq<Job>, writes: seq<nat>, last: Job)
    requires |jobs| == |writes| && Faithful(remote, last) && forall j | j in jobs :: SameRelease(j, last)
    ensures var done, full := Finalize(Attempts(remote, jobs, writes), last, 5), Finalize(remote, last, 5);
            Seen(done.0) == Seen(full.0) && done.1 == full.1
    decreases |jobs|
  {
    if jobs != [] {
      assert jobs[0] in jobs;
      RetryFinishes(remote, jobs[0], last, writes[0]);
      RetriesConverge(Finalize(remote, jobs[0], writes[0]).0, jobs[1..], writes[1..], last);
    }
  }

  // ---- Without the assumption ----

  // The image pushes to another digest than the one verified.
  predicate PushesWrong(job: Job, i: Image) {
    Some(job.loaded(i).manifest) != job.digests(i)
  }

  // Image `k` has its alias already, pushes wrong, and is reached because all images before it push right.
  predicate Displaces(remote: Remote, job: Job, k: nat)
    requires k < |IMAGES|
  {
    && (IMAGES[k], job.version) in remote.aliases && PushesWrong(job, IMAGES[k])
    && forall j | 0 <= j < k :: !PushesWrong(job, IMAGES[j])
  }

  lemma {:induction false} PushesDisplace(remote: Remote, job: Job, count: nat)
    requires count <= |IMAGES| && Guard(remote, job) == None
    ensures var (after, problem) := AliasesPushed(remote, job, count);
            && (problem == None <==> forall k | 0 <= k < count :: !PushesWrong(job, IMAGES[k]))
            && (KeepsAliases(remote, after) <==> !exists k :: 0 <= k < count && Displaces(remote, job, k))
  {
    if count > 0 {
      var last := count - 1;
      var key := (IMAGES[last], job.version);
      PushesDisplace(remote, job, last);
      GuardVerifies(remote, job);
      hide Guard, ImageVerified;
      assert (exists k :: 0 <= k < count && Displaces(remote, job, k))
        <==> (exists k :: 0 <= k < last && Displaces(remote, job, k)) || Displaces(remote, job, last);
      var (before, problem) := AliasesPushed(remote, job, last);
      var after := AliasesPushed(remote, job, count).0;
      if problem == None {
        assert after.aliases == before.aliases[key := job.loaded(IMAGES[last]).manifest];
        if Displaces(remote, job, last) {
          assert after.aliases[key] != remote.aliases[key];
        }
      }
    }
  }

  /** Whatever the loaded images push to, a run stopped after any number of writes keeps the digest of every alias there
      was, exactly when it is refused before its first push or reaches no existing alias with a wrong image. */
  lemma AliasesStayExactlyWhen(remote: Remote, job: Job, writes: nat)
    ensures KeepsAliases(remote, Finalize(remote, job, writes).0)
       <==> || Guard(remote, job).Some?
            || !exists k :: 0 <= k < |IMAGES| && k < writes && Displaces(remote, job, k)
  {
    if Guard(remote, job) == None {
      var count := if writes < |IMAGES| then writes else |IMAGES|;
      GuardVerifies(remote, job);
      PushesDisplace(remote, job, count);
      hide Guard, Displaces, AliasesPushed;
    }
  }

  /** One alias is published; a retry has loaded another build of the same commit. Every check passes, the alias moves,
      and only then is the run refused. */
  lemma AliasMoves()
    ensures var verified, rebuilt := Build(7, 1), Build(9, 1);
            var remote := Remote(map i: Image | true :: (i, 1) := verified, map[(Backend, 3) := 7], map[], map[]);
            var job := Job(true, 1, 3, true, (_: Image) => Some(7), (_: Image) => true, (_: Image) => rebuilt, 0, 0);
            && Guard(remote, job) == None
            && Finalize(remote, job, 5).1 == Refused(AliasUnverified)
            && Finalize(remote, job, 5).0.aliases == map[(Backend, 3) := 9]
  {
    var remote := Remote(map i: Image | true :: (i, 1) := Build(7, 1), map[(Backend, 3) := 7], map[], map[]);
    var job := Job(true, 1, 3, true, (_: Image) => Some(7), (_: Image) => true, (_: Image) => Build(9, 1), 0, 0);
    VerifiedHasNoProblem(remote, job, 0);
    ProblemStands(remote, job, 1, |IMAGES|);
  }
}
