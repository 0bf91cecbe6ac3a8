/** Who gets a key of the ingestion, who may renew and complete it, on the claim row's values alone. */
module IngestionRules {
  import opened Wrappers
  import opened EvidenceRecords
  import opened ArtifactIngestion

  function AtLeastThirty(seconds: int): int {
    if seconds > 30 then seconds else 30
  }

  /** A key nobody asked for is claimed with generation one, from now for at least thirty seconds. */
  lemma FreshKeyIsClaimed(s: Ingestion, key: Key, digest: Id, owner: Id, leaseSeconds: int, hostNow: int)
    requires key !in s.claims
    ensures var expiry := s.now + AtLeastThirty(leaseSeconds);
            && ReplyTo(s, key, digest, owner, leaseSeconds, hostNow) == Claimed(1, owner, expiry)
            && AfterClaim(s, key, digest, owner, leaseSeconds, hostNow) ==
                 s.(claims := s.claims[key := Claim(digest, false, 1, owner, Some(expiry), None)])
  {
  }

  /** A key is taken over exactly when it was asked for with the same digest, is not complete, and its lease has passed by both clocks;
    * then generation, owner and lease are new and nothing else is. */
  lemma TakenOverExactlyWhen(s: Ingestion, key: Key, digest: Id, owner: Id, leaseSeconds: int, hostNow: int)
    requires key in s.claims && (s.claims[key].complete ==> s.claims[key].artifactId.Some?)
    ensures var c := s.claims[key];
            var expiry := s.now + AtLeastThirty(leaseSeconds);
            var s' := AfterClaim(s, key, digest, owner, leaseSeconds, hostNow);
            if && c.digest == digest && !c.complete
               && (c.expiresAt.Some? ==> c.expiresAt.value <= s.now && c.expiresAt.value <= hostNow)
            then ReplyTo(s, key, digest, owner, leaseSeconds, hostNow) == Claimed(c.generation + 1, owner, expiry)
                 && s' == s.(claims := s.claims[key := Claim(digest, false, c.generation + 1, owner, Some(expiry), c.artifactId)])
            else !ReplyTo(s, key, digest, owner, leaseSeconds, hostNow).Claimed? && s' == s
  {
  }

  /** What a claim that is not granted is told: another digest is a conflict; a completed key is replayed, if its artifact is there for
    * the organization; any other is in progress. */
  lemma RefusedClaimIsTold(s: Ingestion, key: Key, digest: Id, owner: Id, leaseSeconds: int, hostNow: int)
    requires key in s.claims && !ReplyTo(s, key, digest, owner, leaseSeconds, hostNow).Claimed?
    ensures var c := s.claims[key];
            ReplyTo(s, key, digest, owner, leaseSeconds, hostNow) ==
              if c.digest != digest then Conflict
              else if !c.complete || c.artifactId.None? then InProgress
              else if c.artifactId.value in s.artifacts && s.artifacts[c.artifactId.value].organizationId == key.organizationId
              then Replayed(s.artifacts[c.artifactId.value])
              else MissingArtifact
  {
  }

  /** The row is still this holder's: its digest, generation and owner, not complete, its lease running by the database's clock. */
  predicate Owns(s: Ingestion, key: Key, digest: Id, generation: nat, owner: Id) {
    && key in s.claims && s.claims[key].digest == digest && s.claims[key].generation == generation && s.claims[key].owner == owner
    && !s.claims[key].complete && s.claims[key].expiresAt.Some? && s.now < s.claims[key].expiresAt.value
  }

  /** A renewal runs the lease on from now, for the holder only. */
  lemma RenewedExactlyWhen(s: Ingestion, key: Key, digest: Id, generation: nat, owner: Id, leaseSeconds: int)
    ensures AfterRenew(s, key, digest, generation, owner, leaseSeconds) ==
              if Owns(s, key, digest, generation, owner)
              then s.(claims := s.claims[key := s.claims[key].(expiresAt := Some(s.now + AtLeastThirty(leaseSeconds)))]) else s
  {
  }

  /** A completion stores the artifact and ties the key to it, for the holder only and for the digest it holds the key for. */
  lemma CompletedExactlyWhen(s: Ingestion, key: Key, digest: Id, generation: nat, owner: Id, artifactId: Id, artifact: Artifact)
    ensures CanComplete(s, key, digest, generation, owner, artifact) <==>
              Owns(s, key, digest, generation, owner) && artifact.blobDigest == digest
    ensures AfterComplete(s, key, digest, generation, owner, artifactId, artifact) ==
              if Owns(s, key, digest, generation, owner) && artifact.blobDigest == digest
              then s.(artifacts := s.artifacts[artifactId := artifact],
                      claims := s.claims[key := Claim(digest, true, generation, owner, s.claims[key].expiresAt, Some(artifactId))])
              else s
  {
  }

  /** Over every run with fresh ids: while a holder may still renew or complete, no claim of its key, from a host with any clock,
    * changes anything. */
  lemma HolderIsNotRobbed(events: seq<Event>, key: Key, digest: Id, generation: nat, owner: Id, otherDigest: Id, other: Id,
                          leaseSeconds: int, hostNow: int)
    requires AllDrawn(EMPTY, events) && Owns(Run(EMPTY, events), key, digest, generation, owner)
    ensures var s := Run(EMPTY, events);
            AfterClaim(s, key, otherDigest, other, leaseSeconds, hostNow) == s
  {
    hide Run, AllDrawn, AfterClaim, ReplyTo;
    TakenOverExactlyWhen(Run(EMPTY, events), key, otherDigest, other, leaseSeconds, hostNow);
  }

  /** Over every run with fresh ids: a key whose lease has passed by both clocks is not stuck, whoever held it. */
  lemma ExpiredKeyIsTaken(events: seq<Event>, key: Key, other: Id, leaseSeconds: int, hostNow: int)
    requires AllDrawn(EMPTY, events) && key in Run(EMPTY, events).claims
    ensures var s := Run(EMPTY, events);
            var c := s.claims[key];
            && c.expiresAt.Some?
            && (ReplyTo(s, key, c.digest, other, leaseSeconds, hostNow).Claimed? <==>
                  !c.complete && c.expiresAt.value <= s.now && c.expiresAt.value <= hostNow)
  {
    hide Run, AllDrawn, ReplyTo;
    EmptyIsOk();
    RunKeeps(EMPTY, events);
    var s := Run(EMPTY, events);
    TakenOverExactlyWhen(s, key, s.claims[key].digest, other, leaseSeconds, hostNow);
  }

  // ---- a run that commits a key ------------------------------------------------------------------------------------

  const KEY := Key(1, 10)

  /** It is claimed, its lease runs out, another host takes it over, renews and completes it, and an artifact is created beside it. */
  function Committing(a: Artifact): seq<Event> {
    var d := a.blobDigest;
    [ClaimEvent(KEY, d, 7, 30, 0), Tick(30), ClaimEvent(KEY, d, 8, 30, 30), RenewEvent(KEY, d, 2, 8, 60),
     CompleteEvent(KEY, d, 2, 8, 5, a), CreateEvent(6, a)]
  }

  /** The tables after n of these. */
  function StateAfter(a: Artifact, n: nat): Ingestion {
    var d := a.blobDigest;
    if n == 0 then EMPTY
    else if n == 1 then Ingestion(0, map[KEY := Claim(d, false, 1, 7, Some(30), None)], map[])
    else if n == 2 then Ingestion(30, map[KEY := Claim(d, false, 1, 7, Some(30), None)], map[])
    else if n == 3 then Ingestion(30, map[KEY := Claim(d, false, 2, 8, Some(60), None)], map[])
    else if n == 4 then Ingestion(30, map[KEY := Claim(d, false, 2, 8, Some(90), None)], map[])
    else Ingestion(30, map[KEY := Claim(d, true, 2, 8, Some(90), Some(5))], if n == 5 then map[5 := a] else map[5 := a, 6 := a])
  }

  lemma CommitsStepByStep(a: Artifact, n: nat)
    requires n < 6 && a.organizationId == 1
    ensures Drawn(StateAfter(a, n), Committing(a)[n]) && Apply(StateAfter(a, n), Committing(a)[n]) == StateAfter(a, n + 1)
  {
  }

  lemma {:induction false} CommitsSoFar(a: Artifact, n: nat)
    requires n <= 6 && a.organizationId == 1
    ensures Run(EMPTY, Committing(a)[..n]) == StateAfter(a, n)
    ensures forall k :: 0 <= k < n ==> Drawn(Run(EMPTY, Committing(a)[..k]), Committing(a)[k])
  {
    hide Drawn, Apply, StateAfter, Committing;
    assert |Committing(a)| == 6 by { SixEvents(a); }
    if n > 0 {
      CommitsSoFar(a, n - 1);
      CommitsStepByStep(a, n - 1);
      assert Committing(a)[..n][..n - 1] == Committing(a)[..n - 1];
    } else {
      SixEvents(a);
    }
  }

  lemma SixEvents(a: Artifact)
    ensures |Committing(a)| == 6 && StateAfter(a, 0) == EMPTY
  {
  }

  /** That run draws its ids afresh, commits the key with the artifact, and the first host's claim asked again is answered with it. */
  lemma KeyIsCommitted(a: Artifact)
    requires a.organizationId == 1
    ensures AllDrawn(EMPTY, Committing(a))
    ensures Committed(Run(EMPTY, Committing(a)), KEY) == Some(5)
    ensures ReplyTo(Run(EMPTY, Committing(a)), KEY, a.blobDigest, 7, 30, 0) == Replayed(a)
  {
    CommitsSoFar(a, 6);
    SixEvents(a);
    assert Committing(a)[..6] == Committing(a);
    hide Drawn, Run, Committing;
  }
}
