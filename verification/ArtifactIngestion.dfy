/** Artifact ingestion under an idempotency key: a lease on the key, and one transaction that commits the artifact. */
module ArtifactIngestion {
  import opened Wrappers
  import opened EvidenceRecords
  import T = GovernanceTables

  datatype Key = Key(organizationId: Id, idempotencyKey: Id)

  datatype Claim = Claim(digest: Id, complete: bool, generation: nat, owner: Id, expiresAt: Option<int>, artifactId: Option<Id>)

  datatype Artifact = Artifact(organizationId: Id, blobDigest: Id, sourceTreeDigest: Id, createdBy: Id)

  datatype Ingestion = Ingestion(now: int, claims: map<Key, Claim>, artifacts: map<Id, Artifact>)

  datatype ClaimReply =
    | Claimed(generation: nat, owner: Id, expiresAt: int)
    | Conflict
    | Replayed(artifact: Artifact)
    | InProgress
    | MissingArtifact

  // ---- what each transaction does --------------------------------------------------------------------

  predicate Expired(c: Claim, now: int) {
    c.expiresAt.None? || c.expiresAt.value <= now
  }

  /** The guard of the reclaiming UPDATE, evaluated by the database. */
  predicate Reclaimable(s: Ingestion, key: Key, digest: Id) {
    key in s.claims && s.claims[key].digest == digest && !s.claims[key].complete && Expired(s.claims[key], s.now)
  }

  /** What a claim is answered; `hostNow` is the clock of the API host. */
  function ReplyTo(s: Ingestion, key: Key, digest: Id, owner: Id, leaseSeconds: int, hostNow: int): ClaimReply {
    var expiry := s.now + T.LeaseSeconds(leaseSeconds);
    if key !in s.claims then Claimed(1, owner, expiry)
    else
      var c := s.claims[key];
      if c.digest != digest then Conflict
      else if c.complete && c.artifactId.Some? then
        if c.artifactId.value in s.artifacts && s.artifacts[c.artifactId.value].organizationId == key.organizationId
        then Replayed(s.artifacts[c.artifactId.value])
        else MissingArtifact
      else if c.expiresAt.Some? && c.expiresAt.value > hostNow then InProgress
      else if Reclaimable(s, key, digest) then Claimed(c.generation + 1, owner, expiry)
      else InProgress
  }

  /** Only an answer of `Claimed` changes anything. */
  function AfterClaim(s: Ingestion, key: Key, digest: Id, owner: Id, leaseSeconds: int, hostNow: int): Ingestion {
    match ReplyTo(s, key, digest, owner, leaseSeconds, hostNow)
    case Claimed(generation, _, expiry) =>
      s.(claims := s.claims[key := Claim(digest, false, generation, owner, Some(expiry),
                                         if key in s.claims then s.claims[key].artifactId else None)])
    case _ => s
  }

  /** The guard shared by renewal and completion: the current generation, its owner, its digest, an unexpired lease. */
  predicate HoldsClaim(s: Ingestion, key: Key, digest: Id, generation: nat, owner: Id) {
    && key in s.claims
    && var c := s.claims[key];
       && c.digest == digest && c.generation == generation && c.owner == owner && !c.complete
       && c.expiresAt.Some? && c.expiresAt.value > s.now
  }

  function AfterRenew(s: Ingestion, key: Key, digest: Id, generation: nat, owner: Id, leaseSeconds: int): Ingestion {
    if HoldsClaim(s, key, digest, generation, owner) then
      s.(claims := s.claims[key := s.claims[key].(expiresAt := Some(s.now + T.LeaseSeconds(leaseSeconds)))])
    else s
  }

  predicate CanComplete(s: Ingestion, key: Key, digest: Id, generation: nat, owner: Id, artifact: Artifact) {
    digest == artifact.blobDigest && HoldsClaim(s, key, digest, generation, owner)
  }

  /** The completing transaction; it rolls back when the claim is lost. */
  function AfterComplete(s: Ingestion, key: Key, digest: Id, generation: nat, owner: Id, artifactId: Id,
                         artifact: Artifact): Ingestion {
    if CanComplete(s, key, digest, generation, owner, artifact) then
      s.(artifacts := s.artifacts[artifactId := artifact],
         claims := s.claims[key := s.claims[key].(complete := true, artifactId := Some(artifactId))])
    else s
  }

  function AfterCreate(s: Ingestion, artifactId: Id, artifact: Artifact): Ingestion {
    s.(artifacts := s.artifacts[artifactId := artifact])
  }

  // ---- the store's methods ------------------------------------------------------------------------------

  class Store {
    var now: int
    var claims: map<Key, Claim>
    var artifacts: map<Id, Artifact>

    function Contents(): Ingestion
      reads this
    {
      Ingestion(now, claims, artifacts)
    }

    method ClaimArtifactIngestion(key: Key, digest: Id, owner: Id, leaseSeconds: int, hostNow: int) returns (r: ClaimReply)
      modifies this`claims
      ensures r == ReplyTo(old(Contents()), key, digest, owner, leaseSeconds, hostNow)
      ensures Contents() == AfterClaim(old(Contents()), key, digest, owner, leaseSeconds, hostNow)
    {
      var leaseSecs := T.LeaseSeconds(leaseSeconds);
      if key !in claims {
        claims := claims[key := Claim(digest, false, 1, owner, Some(now + leaseSecs), None)];
        return Claimed(1, owner, now + leaseSecs);
      }
      var row := claims[key];
      if row.digest != digest { return Conflict; }
      if row.complete && row.artifactId.Some? {
        var id := row.artifactId.value;
        if id !in artifacts || artifacts[id].organizationId != key.organizationId { return MissingArtifact; }
        return Replayed(artifacts[id]);
      }
      if row.expiresAt.Some? && row.expiresAt.value > hostNow { return InProgress; }
      if row.complete || !(row.expiresAt.None? || row.expiresAt.value <= now) { return InProgress; }
      claims := claims[key := row.(complete := false, generation := row.generation + 1, owner := owner, expiresAt := Some(now + leaseSecs))];
      r := Claimed(row.generation + 1, owner, now + leaseSecs);
    }

    method RenewArtifactIngestionClaim(key: Key, digest: Id, generation: nat, owner: Id,
                                       leaseSeconds: int) returns (renewed: bool)
      modifies this`claims
      ensures renewed == HoldsClaim(old(Contents()), key, digest, generation, owner)
      ensures Contents() == AfterRenew(old(Contents()), key, digest, generation, owner, leaseSeconds)
    {
      renewed := HoldsClaim(Contents(), key, digest, generation, owner);
      if renewed {
        claims := claims[key := claims[key].(expiresAt := Some(now + T.LeaseSeconds(leaseSeconds)))];
      }
    }

    /** None is the claim-lost error. Both guards read the transaction's one NOW(), so once the first has passed the second does. */
    method CompleteArtifactIngestionClaimAndCreateArtifact(key: Key, digest: Id, generation: nat, owner: Id,
                                                           artifactId: Id, artifact: Artifact)
      returns (r: Option<Artifact>)
      modifies this`claims, this`artifacts
      ensures r == if CanComplete(old(Contents()), key, digest, generation, owner, artifact) then Some(artifact) else None
      ensures Contents() == AfterComplete(old(Contents()), key, digest, generation, owner, artifactId, artifact)
    {
      if digest != artifact.blobDigest { return None; }
      if !HoldsClaim(Contents(), key, digest, generation, owner) { return None; }
      artifacts := artifacts[artifactId := artifact];
      assert HoldsClaim(Contents(), key, digest, generation, owner);
      claims := claims[key := claims[key].(complete := true, artifactId := Some(artifactId))];
      r := Some(artifact);
    }
  }

  // ---- runs -------------------------------------------------------------------------------------------------

  /** One transaction, or time passing. Any host may send any of them at any time. */
  datatype Event =
    | Tick(seconds: nat)
    | ClaimEvent(key: Key, digest: Id, owner: Id, leaseSeconds: int, hostNow: int)
    | RenewEvent(key: Key, digest: Id, generation: nat, owner: Id, leaseSeconds: int)
    | CompleteEvent(key: Key, digest: Id, generation: nat, owner: Id, artifactId: Id, artifact: Artifact)
    | CreateEvent(artifactId: Id, artifact: Artifact)

  function Apply(s: Ingestion, e: Event): Ingestion {
    match e
    case Tick(seconds) => s.(now := s.now + seconds)
    case ClaimEvent(key, digest, owner, lease, hostNow) => AfterClaim(s, key, digest, owner, lease, hostNow)
    case RenewEvent(key, digest, generation, owner, lease) => AfterRenew(s, key, digest, generation, owner, lease)
    case CompleteEvent(key, digest, generation, owner, id, artifact) => AfterComplete(s, key, digest, generation, owner, id, artifact)
    case CreateEvent(id, artifact) => AfterCreate(s, id, artifact)
  }

  function Run(s: Ingestion, events: seq<Event>): Ingestion {
    if events == [] then s else Apply(Run(s, events[..|events| - 1]), events[|events| - 1])
  }

  /** Artifact ids are drawn afresh, and an artifact is written for the organization its key belongs to. */
  ghost predicate Drawn(s: Ingestion, e: Event) {
    match e
    case CompleteEvent(key, _, _, _, id, artifact) => id !in s.artifacts && artifact.organizationId == key.organizationId
    case CreateEvent(id, _) => id !in s.artifacts
    case _ => true
  }

  ghost predicate AllDrawn(s: Ingestion, events: seq<Event>) {
    forall k :: 0 <= k < |events| ==> Drawn(Run(s, events[..k]), events[k])
  }

  const EMPTY := Ingestion(0, map[], map[])

  /** A claim is complete exactly when it names an artifact, which is then there, with the digest the claim was made for. */
  ghost predicate ClaimsOk(s: Ingestion) {
    forall key :: key in s.claims ==>
      var c := s.claims[key];
      && c.generation >= 1 && c.expiresAt.Some?
      && (c.complete <==> c.artifactId.Some?)
      && (c.complete ==> c.artifactId.value in s.artifacts
                         && s.artifacts[c.artifactId.value].blobDigest == c.digest
                         && s.artifacts[c.artifactId.value].organizationId == key.organizationId)
  }

  /** What an event leaves alone: the digest of a key, its generation or more, a completed claim and the artifacts there are. */
  ghost predicate Extends(s: Ingestion, t: Ingestion) {
    && s.now <= t.now
    && (forall id :: id in s.artifacts ==> id in t.artifacts && t.artifacts[id] == s.artifacts[id])
    && (forall key :: key in s.claims ==>
          && key in t.claims && t.claims[key].digest == s.claims[key].digest
          && s.claims[key].generation <= t.claims[key].generation
          && (s.claims[key].complete ==> t.claims[key] == s.claims[key]))
  }

  lemma StepKeepsClaims(s: Ingestion, e: Event)
    requires ClaimsOk(s) && Drawn(s, e)
    ensures ClaimsOk(Apply(s, e))
  {
  }

  lemma StepExtends(s: Ingestion, e: Event)
    requires ClaimsOk(s) && Drawn(s, e)
    ensures Extends(s, Apply(s, e))
  {
  }

  lemma StepKeeps(s: Ingestion, e: Event)
    requires ClaimsOk(s) && Drawn(s, e)
    ensures ClaimsOk(Apply(s, e)) && Extends(s, Apply(s, e))
  {
    hide ClaimsOk, Drawn, Apply, Extends;
    StepKeepsClaims(s, e);
    StepExtends(s, e);
  }

  lemma {:induction false} RunKeeps(s: Ingestion, events: seq<Event>)
    requires ClaimsOk(s) && AllDrawn(s, events)
    ensures ClaimsOk(Run(s, events)) && Extends(s, Run(s, events))
  {
    if events != [] {
      hide ClaimsOk, Drawn, Apply, Extends;
      var k := |events| - 1;
      assert forall i :: 0 <= i < k ==> events[..k][..i] == events[..i];
      RunKeeps(s, events[..k]);
      StepKeeps(Run(s, events[..k]), events[k]);
      ExtendsOn(s, Run(s, events[..k]), Run(s, events));
    } else {
      hide ClaimsOk, Drawn, Apply;
    }
  }

  lemma ExtendsOn(s: Ingestion, t: Ingestion, u: Ingestion)
    requires Extends(s, t) && Extends(t, u)
    ensures Extends(s, u)
  {
  }

  lemma {:induction false} RunJoins(s: Ingestion, before: seq<Event>, after: seq<Event>)
    ensures Run(s, before + after) == Run(Run(s, before), after)
  {
    if after == [] {
      assert before + after == before;
    } else {
      var k := |after| - 1;
      assert (before + after)[..|before| + k] == before + after[..k];
      RunJoins(s, before, after[..k]);
    }
  }

  // ---- what holds over every run -------------------------------------------------------------------------------

  /** The artifact a key has been completed with, if it has. */
  function Committed(s: Ingestion, key: Key): Option<Id> {
    if key in s.claims && s.claims[key].complete then s.claims[key].artifactId else None
  }

  /** A completion that succeeds commits the artifact under a key that had none, with the digest of the key's first claim. */
  lemma CompletionCommitsOnce(before: seq<Event>, e: Event, first: nat)
    requires AllDrawn(EMPTY, before + [e]) && e.CompleteEvent? && first <= |before|
    requires var s := Run(EMPTY, before);
             CanComplete(s, e.key, e.digest, e.generation, e.owner, e.artifact)
    ensures var s, t := Run(EMPTY, before), Run(EMPTY, before + [e]);
            && Committed(s, e.key).None? && Committed(t, e.key) == Some(e.artifactId)
            && e.artifactId in t.artifacts && t.artifacts[e.artifactId] == e.artifact
            && (e.key in Run(EMPTY, before[..first]).claims ==>
                  e.artifact.blobDigest == Run(EMPTY, before[..first]).claims[e.key].digest)
  {
    hide Apply, ClaimsOk;
    assert ClaimsOk(EMPTY) by { EmptyIsOk(); }
    var s := Run(EMPTY, before);
    PrefixDrawn(EMPTY, before, [e]);
    assert before == before[..first] + before[first..];
    PrefixDrawn(EMPTY, before[..first], before[first..]);
    RunKeeps(EMPTY, before[..first]);
    RunJoins(EMPTY, before[..first], before[first..]);
    RunKeeps(Run(EMPTY, before[..first]), before[first..]);
    RunJoins(EMPTY, before, [e]);
    CompletesTo(s, e);
  }

  lemma EmptyIsOk()
    ensures ClaimsOk(EMPTY)
  {
  }

  lemma CompletesTo(s: Ingestion, e: Event)
    requires e.CompleteEvent? && CanComplete(s, e.key, e.digest, e.generation, e.owner, e.artifact)
    ensures Committed(s, e.key).None? && Run(s, [e]) == Apply(s, e)
    ensures var t := Apply(s, e);
            Committed(t, e.key) == Some(e.artifactId) && e.artifactId in t.artifacts && t.artifacts[e.artifactId] == e.artifact
  {
    assert [e][..0] == [];
  }

  lemma {:induction false} PrefixDrawn(s: Ingestion, before: seq<Event>, after: seq<Event>)
    requires AllDrawn(s, before + after)
    ensures AllDrawn(s, before) && AllDrawn(Run(s, before), after)
  {
    hide Drawn, Apply;
    forall k | 0 <= k < |before|
      ensures Drawn(Run(s, before[..k]), before[k])
    {
      assert (before + after)[..k] == before[..k];
      assert (before + after)[k] == before[k];
    }
    forall k | 0 <= k < |after|
      ensures Drawn(Run(Run(s, before), after[..k]), after[k])
    {
      assert (before + after)[..|before| + k] == before + after[..k];
      RunJoins(s, before, after[..k]);
      assert (before + after)[|before| + k] == after[k];
    }
  }

  /** Once committed, a key keeps its artifact whatever follows: no later completion succeeds, and every later claim, from a host
    * with any clock, is answered with that artifact or refused for naming another digest. */
  lemma CommittedForever(before: seq<Event>, after: seq<Event>, key: Key, digest: Id, owner: Id, leaseSeconds: int,
                         hostNow: int)
    requires AllDrawn(EMPTY, before + after) && Committed(Run(EMPTY, before), key).Some?
    ensures var s, t := Run(EMPTY, before), Run(EMPTY, before + after);
            var id := Committed(s, key).value;
            && Committed(t, key) == Some(id)
            && id in s.artifacts && id in t.artifacts && t.artifacts[id] == s.artifacts[id]
            && s.artifacts[id].blobDigest == s.claims[key].digest
            && (forall g: nat, o, d, a :: !CanComplete(t, key, d, g, o, a))
            && ReplyTo(t, key, digest, owner, leaseSeconds, hostNow) ==
                 if digest == s.claims[key].digest then Replayed(s.artifacts[id]) else Conflict
  {
    hide Apply;
    PrefixDrawn(EMPTY, before, after);
    RunKeeps(EMPTY, before);
    RunKeeps(Run(EMPTY, before), after);
    RunJoins(EMPTY, before, after);
  }

  /** A replay is an answer only a committed key gives, and it is that key's artifact; the artifact is never missing. */
  lemma ReplaysAreCommitted(events: seq<Event>, key: Key, digest: Id, owner: Id, leaseSeconds: int, hostNow: int)
    requires AllDrawn(EMPTY, events)
    ensures var s := Run(EMPTY, events);
            var r := ReplyTo(s, key, digest, owner, leaseSeconds, hostNow);
            && r != MissingArtifact
            && (r.Replayed? <==> Committed(s, key).Some? && s.claims[key].digest == digest)
            && (r.Replayed? ==> Committed(s, key).value in s.artifacts && r.artifact == s.artifacts[Committed(s, key).value]
                                && r.artifact.blobDigest == digest)
  {
    RunKeeps(EMPTY, events);
  }

  /** A key is taken over only when its lease has run out by the database's clock, however the host's clock stands; the old
    * generation can then neither renew nor complete. */
  lemma TakeoverNeedsExpiry(s: Ingestion, key: Key, digest: Id, owner: Id, leaseSeconds: int, hostNow: int, after: seq<Event>)
    requires ClaimsOk(s) && key in s.claims && ReplyTo(s, key, digest, owner, leaseSeconds, hostNow).Claimed?
    requires AllDrawn(AfterClaim(s, key, digest, owner, leaseSeconds, hostNow), after)
    ensures Expired(s.claims[key], s.now) && Committed(s, key).None?
    ensures var t := AfterClaim(s, key, digest, owner, leaseSeconds, hostNow);
            && t.claims[key].generation == s.claims[key].generation + 1
            && (forall o, d, g: nat :: g <= s.claims[key].generation ==> !HoldsClaim(Run(t, after), key, d, g, o))
  {
    var e := ClaimEvent(key, digest, owner, leaseSeconds, hostNow);
    StepKeeps(s, e);
    RunKeeps(AfterClaim(s, key, digest, owner, leaseSeconds, hostNow), after);
  }

  /** While a lease runs, no host's clock lets another claim in. */
  lemma RunningLeaseKeepsOthersOut(s: Ingestion, key: Key, digest: Id, owner: Id, leaseSeconds: int, hostNow: int)
    requires key in s.claims && !s.claims[key].complete && !Expired(s.claims[key], s.now)
    ensures AfterClaim(s, key, digest, owner, leaseSeconds, hostNow) == s
  {
  }

  /** Drawing ids afresh matters: the artifact insert overwrites on a conflict, so a reused id changes what an earlier key replays. */
  lemma ReusedIdIsReplayedWrongly()
    ensures var first, second := Key(1, 10), Key(1, 20);
            var one := Apply(Apply(EMPTY, ClaimEvent(first, 100, 7, 30, 0)), CompleteEvent(first, 100, 1, 7, 5, Artifact(1, 100, 0, 7)));
            var two := Apply(Apply(one, ClaimEvent(second, 200, 7, 30, 0)), CompleteEvent(second, 200, 1, 7, 5, Artifact(1, 200, 0, 7)));
            && ReplyTo(one, first, 100, 7, 30, 0) == Replayed(Artifact(1, 100, 0, 7))
            && ReplyTo(two, first, 100, 7, 30, 0) == Replayed(Artifact(1, 200, 0, 7))
  {
  }

  /** A claim of that key would be answered with a replay. */
  predicate Replays(s: Ingestion, key: Key) {
    && key in s.claims && s.claims[key].complete && s.claims[key].artifactId.Some?
    && s.claims[key].artifactId.value in s.artifacts
    && s.artifacts[s.claims[key].artifactId.value].organizationId == key.organizationId
  }

  ghost predicate KeepsReplays(s: Ingestion, t: Ingestion) {
    forall key, digest, owner, leaseSeconds, hostNow :: ReplyTo(s, key, digest, owner, leaseSeconds, hostNow).Replayed? ==>
      ReplyTo(t, key, digest, owner, leaseSeconds, hostNow) == ReplyTo(s, key, digest, owner, leaseSeconds, hostNow)
  }

  /** Whether an event inserts an artifact row. */
  predicate Inserts(s: Ingestion, e: Event) {
    || e.CreateEvent?
    || (e.CompleteEvent? && CanComplete(s, e.key, e.digest, e.generation, e.owner, e.artifact))
  }

  lemma ReplayAfterInsert(s: Ingestion, e: Event, key: Key)
    requires Inserts(s, e) && Replays(s, key)
    ensures var t := Apply(s, e);
            && key in t.claims && t.claims[key] == s.claims[key]
            && s.claims[key].artifactId.value in t.artifacts
            && t.artifacts[s.claims[key].artifactId.value] ==
                 if s.claims[key].artifactId.value == e.artifactId then e.artifact else s.artifacts[s.claims[key].artifactId.value]
  {
  }

  /** An insert keeps all that is replayed if and only if no key replays another artifact under its id; a fresh id is enough. */
  lemma ReplaysKeptExactlyWhen(s: Ingestion, e: Event)
    requires Inserts(s, e)
    ensures KeepsReplays(s, Apply(s, e)) <==>
              forall key :: Replays(s, key) && s.claims[key].artifactId.value == e.artifactId ==> s.artifacts[e.artifactId] == e.artifact
  {
    var t := Apply(s, e);
    forall key | Replays(s, key)
      ensures key in t.claims && t.claims[key] == s.claims[key]
    {
      ReplayAfterInsert(s, e, key);
    }
    if key :| Replays(s, key) && s.claims[key].artifactId.value == e.artifactId && s.artifacts[e.artifactId] != e.artifact {
      ReplayAfterInsert(s, e, key);
      hide Apply;
      var digest := s.claims[key].digest;
      assert ReplyTo(s, key, digest, 0, 0, 0) == Replayed(s.artifacts[e.artifactId]);
      assert ReplyTo(t, key, digest, 0, 0, 0) != ReplyTo(s, key, digest, 0, 0, 0);
    } else {
      forall key, digest, owner, leaseSeconds, hostNow | ReplyTo(s, key, digest, owner, leaseSeconds, hostNow).Replayed?
        ensures ReplyTo(t, key, digest, owner, leaseSeconds, hostNow) == ReplyTo(s, key, digest, owner, leaseSeconds, hostNow)
      {
        assert Replays(s, key);
        ReplayAfterInsert(s, e, key);
      }
    }
  }
}
