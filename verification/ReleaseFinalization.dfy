/** Release finalisation: image aliases in a registry and tags in a Git remote, by runs that may stop at any command. */
module ReleaseFinalization {
  import opened Wrappers

  datatype Image = Backend | Frontend | Renderer | Mailpit

  const IMAGES: seq<Image> := [Backend, Frontend, Renderer, Mailpit]

  type Commit = nat
  type Version = nat
  type Digest = nat
  type ObjectId = nat

  // A pushed image: the digest of its manifest and the digest of its configuration.
  datatype Build = Build(manifest: Digest, config: Digest)

  datatype ApplicationTag = ApplicationTag(objectId: ObjectId, commit: Commit)

  datatype Receipt = Receipt(objectId: ObjectId, parent: Commit, commit: Commit, digests: map<Image, Digest>)

  datatype Remote = Remote(
    commitImages: map<(Image, Commit), Build>,
    aliases: map<(Image, Version), Digest>,
    tags: map<Version, ApplicationTag>,
    receipts: map<Version, Receipt>)

  // One job: where it runs, what it claims, and the images it has loaded. `trusted` stands for the push event, the
  // ref, the repository and the form of the commit and version; the two objects are the ids Git gives what it creates.
  datatype Job = Job(
    trusted: bool, sha: Commit, version: Version, messageReviewed: bool,
    digests: Image -> Option<Digest>, attested: Image -> bool, loaded: Image -> Build,
    tagObject: ObjectId, receiptObject: ObjectId)

  datatype Outcome = Completed | Interrupted | Refused(reason: Reason)

  datatype Reason =
    | Untrusted | NoMessage | OtherCommit | BadDigest | DigestMismatch | Unattested
    | AliasDiffers | AliasUnverified | ReceiptDiffers | PushRejected | OtherBuild

  lemma ImagesAreAll()
    ensures forall i: Image :: i in IMAGES
  {
    assert IMAGES[0] == Backend && IMAGES[1] == Frontend && IMAGES[2] == Renderer && IMAGES[3] == Mailpit;
    forall i: Image ensures i in IMAGES {
      match i
      case Backend => assert Backend in IMAGES;
      case Frontend => assert Frontend in IMAGES;
      case Renderer => assert Renderer in IMAGES;
      case Mailpit => assert Mailpit in IMAGES;
    }
  }

  // ---- Publishing commit images ----

  predicate PublishAllowed(remote: Remote, job: Job) {
    && job.trusted
    && forall i: Image | (i, job.sha) in remote.commitImages ::
         remote.commitImages[(i, job.sha)].config == job.loaded(i).config
  }

  // The first `count` images pushed, those the registry lacks.
  function CommitImagesPushed(remote: Remote, job: Job, count: nat): Remote
    requires count <= |IMAGES|
  {
    if count == 0 then remote
    else
      var before, i := CommitImagesPushed(remote, job, count - 1), IMAGES[count - 1];
      if (i, job.sha) in remote.commitImages then before
      else before.(commitImages := before.commitImages[(i, job.sha) := job.loaded(i)])
  }

  function Publish(remote: Remote, job: Job, count: nat): Remote
    requires count <= |IMAGES|
  {
    if PublishAllowed(remote, job) then CommitImagesPushed(remote, job, count) else remote
  }

  // ---- Finalising ----

  // Every check made before the first write.
  function Guard(remote: Remote, job: Job): Option<Reason> {
    if !job.trusted then Some(Untrusted)
    else if !job.messageReviewed then Some(NoMessage)
    else if job.version in remote.tags && remote.tags[job.version].commit != job.sha then Some(OtherCommit)
    else
      var image := FirstImageProblem(remote, job, 0);
      if image.Some? then image
      else if exists i: Image :: (i, job.version) in remote.aliases
                                 && Some(remote.aliases[(i, job.version)]) != job.digests(i)
      then Some(AliasDiffers)
      else None
  }

  function FirstImageProblem(remote: Remote, job: Job, start: nat): (problem: Option<Reason>)
    requires start <= |IMAGES|
    ensures problem == None ==> forall k | start <= k < |IMAGES| :: ImageVerified(remote, job, IMAGES[k])
    decreases |IMAGES| - start
  {
    if start == |IMAGES| then None
    else
      var i := IMAGES[start];
      if job.digests(i).None? then Some(BadDigest)
      else if (i, job.sha) !in remote.commitImages
              || remote.commitImages[(i, job.sha)].manifest != job.digests(i).value then Some(DigestMismatch)
      else if !job.attested(i) then Some(Unattested)
      else FirstImageProblem(remote, job, start + 1)
  }

  predicate ImageVerified(remote: Remote, job: Job, i: Image) {
    && job.digests(i).Some? && job.attested(i)
    && (i, job.sha) in remote.commitImages && remote.commitImages[(i, job.sha)].manifest == job.digests(i).value
  }

  // The first `count` aliases pushed, each checked after its push: the first wrong one ends the run.
  function AliasesPushed(remote: Remote, job: Job, count: nat): (Remote, Option<Reason>)
    requires count <= |IMAGES|
  {
    if count == 0 then (remote, None)
    else
      var (before, problem) := AliasesPushed(remote, job, count - 1);
      if problem.Some? then (before, problem)
      else
        var i := IMAGES[count - 1];
        (before.(aliases := before.aliases[(i, job.version) := job.loaded(i).manifest]),
         if Some(job.loaded(i).manifest) == job.digests(i) then None else Some(AliasUnverified))
  }

  function DigestMap(job: Job): map<Image, Digest>
    requires forall i: Image :: job.digests(i).Some?
  {
    map i: Image | true :: job.digests(i).value
  }

  // Rejected as a whole when either tag exists as another object.
  function AtomicPush(remote: Remote, version: Version, tag: ApplicationTag, receipt: Receipt): Option<Remote> {
    if (version in remote.tags && remote.tags[version].objectId != tag.objectId)
       || (version in remote.receipts && remote.receipts[version].objectId != receipt.objectId) then None
    else
      Some(remote.(
        tags := if version in remote.tags then remote.tags else remote.tags[version := tag],
        receipts := if version in remote.receipts then remote.receipts else remote.receipts[version := receipt]))
  }

  // Delivers both tags, reusing what exists.
  function Deliver(remote: Remote, job: Job): (Remote, Outcome)
    requires forall i: Image :: job.digests(i).Some?
  {
    var v := job.version;
    if v in remote.receipts
       && (remote.receipts[v].parent != job.sha || remote.receipts[v].commit != job.sha
           || remote.receipts[v].digests != DigestMap(job)) then
      (remote, Refused(ReceiptDiffers))
    else
      var receipt := if v in remote.receipts then remote.receipts[v]
                     else Receipt(job.receiptObject, job.sha, job.sha, DigestMap(job));
      var tag := if v in remote.tags then remote.tags[v] else ApplicationTag(job.tagObject, job.sha);
      match AtomicPush(remote, v, tag, receipt)
      case None => (remote, Refused(PushRejected))
      case Some(after) => (after, Completed)
  }

  lemma GuardVerifies(remote: Remote, job: Job)
    requires Guard(remote, job) == None
    ensures forall i: Image :: ImageVerified(remote, job, i) && job.digests(i).Some?
    ensures forall key | key in remote.aliases && key.1 == job.version ::
              Some(remote.aliases[key]) == job.digests(key.0)
  {
    forall i: Image ensures ImageVerified(remote, job, i) && job.digests(i).Some? {
      ImagesAreAll();
      var k :| 0 <= k < |IMAGES| && IMAGES[k] == i;
    }
    forall key | key in remote.aliases && key.1 == job.version
      ensures Some(remote.aliases[key]) == job.digests(key.0) {
      assert key == (key.0, job.version);
    }
  }

  // A run that the machine lets make `writes` writes: four alias pushes, then the tags.
  function Finalize(remote: Remote, job: Job, writes: nat): (Remote, Outcome) {
    if Guard(remote, job).Some? then (remote, Refused(Guard(remote, job).value))
    else
      GuardVerifies(remote, job);
      var (pushed, problem) := AliasesPushed(remote, job, if writes < |IMAGES| then writes else |IMAGES|);
      if problem.Some? then (pushed, Refused(problem.value))
      else if writes <= |IMAGES| then (pushed, Interrupted)
      else Deliver(pushed, job)
  }

  // ---- The job as it runs ----

  class ReleaseRemote {
    var state: Remote

    constructor (state: Remote)
      ensures this.state == state
    {
      this.state := state;
    }

    method PublishCommitImages(job: Job, writes: nat) returns (outcome: Outcome)
      modifies this
      ensures exists count | 0 <= count <= |IMAGES| :: state == Publish(old(state), job, count)
      ensures outcome == Completed ==> state == Publish(old(state), job, |IMAGES|)
      ensures outcome == Refused(Untrusted) <==> !job.trusted
      ensures outcome == Refused(OtherBuild) <==> job.trusted && !PublishAllowed(old(state), job)
      ensures outcome in {Completed, Interrupted, Refused(Untrusted), Refused(OtherBuild)}
      ensures writes >= |IMAGES| ==> outcome != Interrupted
      ensures outcome == Completed ==>
                forall i: Image :: (i, job.sha) in state.commitImages
                                   && state.commitImages[(i, job.sha)].config == job.loaded(i).config
    {
      var before := state;
      var missing: set<Image> := {};
      if !job.trusted {
        assert state == Publish(before, job, 0);
        return Refused(Untrusted);
      }
      for k := 0 to |IMAGES|
        invariant state == before
        invariant forall j | 0 <= j < k ::
                    if (IMAGES[j], job.sha) in before.commitImages
                    then before.commitImages[(IMAGES[j], job.sha)].config == job.loaded(IMAGES[j]).config
                    else IMAGES[j] in missing
        invariant forall i | i in missing :: (i, job.sha) !in before.commitImages
      {
        var i := IMAGES[k];
        if (i, job.sha) in state.commitImages {
          if state.commitImages[(i, job.sha)].config != job.loaded(i).config {
            assert state == Publish(before, job, 0);
            return Refused(OtherBuild);
          }
        } else {
          missing := missing + {i};
        }
      }
      ImagesAreAll();
      forall i: Image | (i, job.sha) in before.commitImages
        ensures before.commitImages[(i, job.sha)].config == job.loaded(i).config {
        assert i in IMAGES;
      }
      var left := writes;
      for k := 0 to |IMAGES|
        invariant state == CommitImagesPushed(before, job, k)
        invariant writes >= |IMAGES| ==> left >= |IMAGES| - k
      {
        var i := IMAGES[k];
        if i in missing {
          if left == 0 {
            assert state == Publish(before, job, k);
            return Interrupted;
          }
          left := left - 1;
          state := state.(commitImages := state.commitImages[(i, job.sha) := job.loaded(i)]);
        }
      }
      CommitImagesComplete(before, job);
      return Completed;
    }

    method FinalizeRelease(job: Job, writes: nat) returns (outcome: Outcome)
      modifies this
      ensures (state, outcome) == Finalize(old(state), job, writes)
    {
      var before := state;
      var refusal := Guard(state, job);
      if refusal.Some? {
        return Refused(refusal.value);
      }
      GuardVerifies(state, job);
      for k := 0 to |IMAGES|
        invariant k <= writes && AliasesPushed(before, job, k) == (state, None)
      {
        if k == writes {
          return Interrupted;
        }
        var i := IMAGES[k];
        state := state.(aliases := state.aliases[(i, job.version) := job.loaded(i).manifest]);
        if Some(state.aliases[(i, job.version)]) != job.digests(i) {
          ProblemStands(before, job, k + 1, if writes < |IMAGES| then writes else |IMAGES|);
          return Refused(AliasUnverified);
        }
      }
      if writes == |IMAGES| {
        return Interrupted;
      }
      var (after, delivered) := Deliver(state, job);
      state := after;
      return delivered;
    }
  }

  lemma {:induction false} ProblemStands(remote: Remote, job: Job, k: nat, n: nat)
    requires k <= n <= |IMAGES| && AliasesPushed(remote, job, k).1.Some?
    ensures AliasesPushed(remote, job, n) == AliasesPushed(remote, job, k)
  {
    if k < n {
      ProblemStands(remote, job, k, n - 1);
    }
  }

  lemma {:induction false} CommitImagesPushedAt(remote: Remote, job: Job, count: nat, key: (Image, Commit))
    requires count <= |IMAGES|
    ensures var after := CommitImagesPushed(remote, job, count);
            && (key in remote.commitImages ==>
                  key in after.commitImages && after.commitImages[key] == remote.commitImages[key])
            && (key in after.commitImages && key !in remote.commitImages ==>
                  key.1 == job.sha && after.commitImages[key] == job.loaded(key.0))
            && (forall k | 0 <= k < count && key == (IMAGES[k], job.sha) :: key in after.commitImages)
            && after == remote.(commitImages := after.commitImages)
  {
    if count > 0 {
      CommitImagesPushedAt(remote, job, count - 1, key);
    }
  }

  lemma CommitImagesComplete(remote: Remote, job: Job)
    requires PublishAllowed(remote, job)
    ensures forall i: Image :: (i, job.sha) in Publish(remote, job, |IMAGES|).commitImages
              && Publish(remote, job, |IMAGES|).commitImages[(i, job.sha)].config == job.loaded(i).config
  {
    ImagesAreAll();
    forall i: Image ensures (i, job.sha) in Publish(remote, job, |IMAGES|).commitImages
              && Publish(remote, job, |IMAGES|).commitImages[(i, job.sha)].config == job.loaded(i).config {
      assert i in IMAGES;
      CommitImagesPushedAt(remote, job, |IMAGES|, (i, job.sha));
    }
  }
}
