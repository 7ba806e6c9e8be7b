/** What a release job must bring to get through, and what the registry and the tags hold once it has. */
module ReleaseEffects {
  import opened Wrappers
  import opened ReleaseFinalization
  import opened ReleaseRuns

  // The image has a verified digest, which is that of its commit image and of its version alias, if it has one.
  predicate Cleared(remote: Remote, job: Job, i: Image) {
    && job.attested(i) && (i, job.sha) in remote.commitImages
    && job.digests(i) == Some(remote.commitImages[(i, job.sha)].manifest)
    && ((i, job.version) in remote.aliases ==> job.digests(i) == Some(remote.aliases[(i, job.version)]))
  }

  /** Every check passes exactly for a trusted, reviewed job whose version is new or its own commit's, and whose four
      images are all cleared; anything else is refused, for the first of these that is missing, and nothing is written. */
  lemma ChecksPassExactly(remote: Remote, job: Job, writes: nat)
    ensures Guard(remote, job) == None
       <==> && job.trusted && job.messageReviewed
            && (job.version in remote.tags ==> remote.tags[job.version].commit == job.sha)
            && forall i: Image :: Cleared(remote, job, i)
    ensures Guard(remote, job).Some? ==> Finalize(remote, job, writes) == (remote, Refused(Guard(remote, job).value))
    ensures Guard(remote, job) == Some(Untrusted) <==> !job.trusted
    ensures Guard(remote, job) == Some(NoMessage) <==> job.trusted && !job.messageReviewed
    ensures Guard(remote, job) == Some(OtherCommit)
       <==> && job.trusted && job.messageReviewed
            && job.version in remote.tags && remote.tags[job.version].commit != job.sha
  {
    ImageProblemsAre(remote, job, 0);
    if Guard(remote, job) == None {
      GuardVerifies(remote, job);
      ClearedWhenVerified(remote, job);
    }
    if forall i: Image :: Cleared(remote, job, i) {
      forall i: Image ensures ImageVerified(remote, job, i) {
        assert Cleared(remote, job, i);
      }
      VerifiedHasNoProblem(remote, job, 0);
      forall i: Image | (i, job.version) in remote.aliases
        ensures Some(remote.aliases[(i, job.version)]) == job.digests(i) {
        assert Cleared(remote, job, i);
      }
    }
    hide FirstImageProblem;
  }

  lemma ClearedWhenVerified(remote: Remote, job: Job)
    requires forall i: Image :: ImageVerified(remote, job, i)
    requires forall key | key in remote.aliases && key.1 == job.version ::
               Some(remote.aliases[key]) == job.digests(key.0)
    ensures forall i: Image :: Cleared(remote, job, i)
  {
    forall i: Image ensures Cleared(remote, job, i) {
      assert ImageVerified(remote, job, i);
    }
  }

  lemma {:induction false} ImageProblemsAre(remote: Remote, job: Job, start: nat)
    requires start <= |IMAGES|
    ensures FirstImageProblem(remote, job, start) in {None, Some(BadDigest), Some(DigestMismatch), Some(Unattested)}
    decreases |IMAGES| - start
  {
    if start < |IMAGES| {
      ImageProblemsAre(remote, job, start + 1);
    }
  }

  /** Publishing all commit images adds exactly the missing ones, as loaded, if the job is trusted and what is published
      already has the loaded configurations; otherwise it adds nothing. */
  lemma PublishesExactlyTheMissing(remote: Remote, job: Job)
    ensures var after := Publish(remote, job, 4);
            if job.trusted && forall i: Image ::
                 (i, job.sha) in remote.commitImages ==>
                   remote.commitImages[(i, job.sha)].config == job.loaded(i).config
            then
              && after == remote.(commitImages := after.commitImages)
              && (forall key | key in remote.commitImages ::
                    key in after.commitImages && after.commitImages[key] == remote.commitImages[key])
              && (forall i: Image :: (i, job.sha) in after.commitImages)
              && (forall key | key in after.commitImages && key !in remote.commitImages ::
                    key.1 == job.sha && after.commitImages[key] == job.loaded(key.0))
            else after == remote
  {
    ImagesAreAll();
    forall key: (Image, Commit)
      ensures var after := CommitImagesPushed(remote, job, |IMAGES|);
              && (key in remote.commitImages ==>
                    key in after.commitImages && after.commitImages[key] == remote.commitImages[key])
              && (key in after.commitImages && key !in remote.commitImages ==>
                    key.1 == job.sha && after.commitImages[key] == job.loaded(key.0))
              && (forall k | 0 <= k < |IMAGES| && key == (IMAGES[k], job.sha) :: key in after.commitImages)
              && after == remote.(commitImages := after.commitImages) {
      CommitImagesPushedAt(remote, job, |IMAGES|, key);
    }
    hide CommitImagesPushed;
    forall i: Image ensures (i, job.sha) in CommitImagesPushed(remote, job, |IMAGES|).commitImages {
      assert i in IMAGES;
      var k :| 0 <= k < |IMAGES| && IMAGES[k] == i;
      assert (i, job.sha) == (IMAGES[k], job.sha);
    }
  }

  // The loaded images push to the verified digests, and the version's receipt, if there is one, is of this release.
  predicate Finishes(remote: Remote, job: Job) {
    && (forall i: Image :: job.digests(i) == Some(job.loaded(i).manifest))
    && (job.version in remote.receipts ==>
          var receipt := remote.receipts[job.version];
          && receipt.parent == job.sha && receipt.commit == job.sha
          && forall i: Image :: i in receipt.digests && job.digests(i) == Some(receipt.digests[i]))
  }

  // The registry and the tags once the release is out.
  ghost predicate Released(remote: Remote, job: Job, after: Remote) {
    var v := job.version;
    && after.commitImages == remote.commitImages
    && (forall i: Image :: (i, v) in after.aliases && Some(after.aliases[(i, v)]) == job.digests(i))
    && (forall key: (Image, Version) | key.1 != v :: key in after.aliases <==> key in remote.aliases)
    && (forall key | key in remote.aliases && key.1 != v :: after.aliases[key] == remote.aliases[key])
    && after.tags == remote.tags[v := if v in remote.tags then remote.tags[v] else ApplicationTag(job.tagObject, job.sha)]
    && after.receipts.Keys == remote.receipts.Keys + {v}
    && (forall k | k in remote.receipts :: after.receipts[k] == remote.receipts[k])
    && after.receipts[v].parent == job.sha && after.receipts[v].commit == job.sha
    && forall i: Image :: i in after.receipts[v].digests && Some(after.receipts[v].digests[i]) == job.digests(i)
  }

  lemma FaithfulExactly(remote: Remote, job: Job)
    requires Guard(remote, job) == None
    ensures (forall i: Image :: job.digests(i) == Some(job.loaded(i).manifest)) <==> Faithful(remote, job)
  {
    GuardVerifies(remote, job);
    hide Guard;
    assert forall i: Image :: ImageVerified(remote, job, i);
  }

  lemma WrongImageStops(remote: Remote, job: Job, i: Image)
    requires Guard(remote, job) == None && job.digests(i) != Some(job.loaded(i).manifest)
    ensures AliasesPushed(remote, job, |IMAGES|).1.Some?
  {
    PushesDisplace(remote, job, |IMAGES|);
    ImagesAreAll();
    hide Guard, AliasesPushed;
    var k :| 0 <= k < |IMAGES| && IMAGES[k] == i;
    assert PushesWrong(job, IMAGES[k]);
  }

  lemma DigestsAgree(digests: map<Image, Digest>, job: Job)
    requires forall i: Image :: job.digests(i).Some?
    ensures digests == DigestMap(job) <==> forall i: Image :: i in digests && job.digests(i) == Some(digests[i])
  {
  }

  lemma AliasesReleased(remote: Remote, job: Job)
    requires forall i: Image :: job.digests(i).Some?
    ensures var after := remote.aliases + AliasMap(job);
            && (forall i: Image :: (i, job.version) in after && Some(after[(i, job.version)]) == job.digests(i))
            && (forall key: (Image, Version) | key.1 != job.version :: key in after <==> key in remote.aliases)
            && (forall key | key in remote.aliases && key.1 != job.version :: after[key] == remote.aliases[key])
  {
    forall i: Image ensures (i, job.version) in AliasMap(job) {
      assert AliasMap(job)[(i, job.version)] == job.digests(i).value;
    }
  }

  // The remote with everything of the release that it lacks.
  function WithRelease(remote: Remote, job: Job): Remote
    requires forall i: Image :: job.digests(i).Some?
  {
    var v := job.version;
    remote.(
      aliases := remote.aliases + AliasMap(job),
      tags := if v in remote.tags then remote.tags else remote.tags[v := ApplicationTag(job.tagObject, job.sha)],
      receipts := if v in remote.receipts then remote.receipts
                  else remote.receipts[v := Receipt(job.receiptObject, job.sha, job.sha, DigestMap(job))])
  }

  lemma WithReleaseIsReleased(remote: Remote, job: Job)
    requires Finishes(remote, job) && forall i: Image :: job.digests(i).Some?
    ensures Released(remote, job, WithRelease(remote, job))
  {
    hide AliasMap, DigestMap;
    AliasesReleased(remote, job);
    DigestsAgree(DigestMap(job), job);
  }

  lemma DeliversWhenFaithful(remote: Remote, job: Job)
    requires forall i: Image :: job.digests(i) == Some(job.loaded(i).manifest)
    ensures var done := Deliver(remote.(aliases := remote.aliases + AliasMap(job)), job);
            && (done.1 == Completed <==> Finishes(remote, job))
            && (done.1 == Completed ==> Released(remote, job, done.0))
  {
    hide Deliver, AliasMap, DigestMap, Released;
    DeliverSucceeds(remote.(aliases := remote.aliases + AliasMap(job)), job);
    if job.version in remote.receipts {
      DigestsAgree(remote.receipts[job.version].digests, job);
    }
    if Finishes(remote, job) {
      WithReleaseIsReleased(remote, job);
    }
  }

  lemma DeliversAllAliases(remote: Remote, job: Job, writes: nat)
    requires Guard(remote, job) == None && Faithful(remote, job) && writes >= 5
    ensures forall i: Image :: job.digests(i).Some?
    ensures Finalize(remote, job, writes) == Deliver(remote.(aliases := remote.aliases + AliasMap(job)), job)
  {
    hide Guard, Faithful, AliasesPushed, Deliver, AliasMap, ImageVerified;
    GuardVerifies(remote, job);
    PushedAliases(remote, job);
  }

  lemma CompletesOnlyFaithful(remote: Remote, job: Job, writes: nat)
    requires Finalize(remote, job, writes).1 == Completed
    ensures writes >= 5 && Guard(remote, job) == None
    ensures forall i: Image :: job.digests(i) == Some(job.loaded(i).manifest)
  {
    hide Guard, AliasesPushed, Deliver, ImageVerified;
    assert writes >= 5 && Guard(remote, job) == None;
    if i: Image :| job.digests(i) != Some(job.loaded(i).manifest) {
      WrongImageStops(remote, job, i);
    }
  }

  /** A run completes exactly when it is let make all five writes, every check passes, the loaded images push to the
      verified digests and no receipt of another release is in the way. It then leaves the four aliases at those digests,
      the version's tag on the commit, and a receipt that says so; no other version is touched. */
  lemma CompletesExactly(remote: Remote, job: Job, writes: nat)
    ensures Finalize(remote, job, writes).1 == Completed
       <==> writes >= 5 && Guard(remote, job) == None && Finishes(remote, job)
    ensures Finalize(remote, job, writes).1 == Completed ==> Released(remote, job, Finalize(remote, job, writes).0)
  {
    hide Guard, Faithful, Finalize, Deliver, Released, AliasMap;
    if Finalize(remote, job, writes).1 == Completed {
      CompletesOnlyFaithful(remote, job, writes);
    }
    if && writes >= 5 && Guard(remote, job) == None
       && forall i: Image :: job.digests(i) == Some(job.loaded(i).manifest) {
      FaithfulExactly(remote, job);
      DeliversAllAliases(remote, job, writes);
      DeliversWhenFaithful(remote, job);
    }
  }
}
