/** How the issuer turns a manifest and the evidence it names into a decision. */
module DecisionRules {
  import opened Wrappers
  import opened EvidenceRecords

  datatype IssueError =
    | EvidenceMissing | SubjectMismatch | ProfileMismatch | ContractMismatch
    | TrustInsufficient | EvidenceIsError | NotComplete

  datatype Weighed = Reasons(reasons: set<ReasonCode>) | Refused(error: IssueError)

  /** A JavaScript Map built from the entries keeps the last one of each validator. */
  function LastEntry(entries: seq<ManifestEntry>, v: ValidatorId): Option<ManifestEntry> {
    if entries == [] then None
    else if entries[|entries| - 1].validatorId == v then Some(entries[|entries| - 1])
    else LastEntry(entries[..|entries| - 1], v)
  }

  /** What the manifest says about a validator, read off the content-addressed entry. */
  function ManifestEvidence(m: ManifestCore, v: ValidatorId): Option<EvidenceCore> {
    match LastEntry(m.entries, v)
    case None => None
    case Some(e) => if e.coreHash.CoreDigest? then Some(e.coreHash.core) else None
  }

  function SetOf<T>(s: seq<T>): set<T> {
    set x | x in s
  }

  function ReasonsOfCore(core: EvidenceCore): set<ReasonCode> {
    match core.status
    case FAIL => {RequiredEvidenceFailed} + SetOf(core.reasonCodes)
    case SKIPPED => {RequiredEvidenceSkipped} + SetOf(core.reasonCodes)
    case _ => {}
  }

  /** One turn of the issuer's loop over the required validators. */
  function WeighCore(core: Option<EvidenceCore>, a: Authority): Weighed {
    if core.None? then Refused(EvidenceMissing)
    else if core.value.subjectDigest != a.subjectDigest then Refused(SubjectMismatch)
    else if core.value.profileDigest != a.profileDigest then Refused(ProfileMismatch)
    else if core.value.executionContractHash != a.executionContractHash then Refused(ContractMismatch)
    else if !core.value.trustClass.DeeprunExecuted? then Refused(TrustInsufficient)
    else if core.value.status.ERROR? then Refused(EvidenceIsError)
    else Reasons(ReasonsOfCore(core.value))
  }

  function Lookup(evidence: map<ValidatorId, EvidenceCore>, v: ValidatorId): Option<EvidenceCore> {
    if v in evidence then Some(evidence[v]) else None
  }

  function Weigh(validators: seq<ValidatorRef>, evidence: map<ValidatorId, EvidenceCore>, a: Authority): Weighed {
    if validators == [] then Reasons({})
    else match Weigh(validators[..|validators| - 1], evidence, a)
      case Refused(e) => Refused(e)
      case Reasons(before) =>
        match WeighCore(Lookup(evidence, validators[|validators| - 1].id), a)
        case Refused(e) => Refused(e)
        case Reasons(more) => Reasons(before + more)
  }

  /** The loop itself: it fills the reason list and stops at the first error. */
  method WeighEvidence(validators: seq<ValidatorRef>, evidence: map<ValidatorId, EvidenceCore>, a: Authority)
    returns (w: Weighed)
    ensures w == Weigh(validators, evidence, a)
  {
    var reasonCodes: set<ReasonCode> := {};
    var i := 0;
    while i < |validators|
      invariant 0 <= i <= |validators|
      invariant Weigh(validators[..i], evidence, a) == Reasons(reasonCodes)
    {
      assert validators[..i + 1][..i] == validators[..i];
      var one := WeighCore(Lookup(evidence, validators[i].id), a);
      if one.Refused? {
        RefusalSticks(validators, i + 1, evidence, a);
        return one;
      }
      reasonCodes := reasonCodes + one.reasons;
      i := i + 1;
    }
    assert validators[..i] == validators;
    w := Reasons(reasonCodes);
  }

  lemma {:induction false} RefusalSticks(validators: seq<ValidatorRef>, k: nat,
                                         evidence: map<ValidatorId, EvidenceCore>, a: Authority)
    requires k <= |validators|
    requires Weigh(validators[..k], evidence, a).Refused?
    ensures Weigh(validators, evidence, a) == Weigh(validators[..k], evidence, a)
  {
    if k == |validators| {
      assert validators[..k] == validators;
    } else {
      var front := validators[..|validators| - 1];
      assert front[..k] == validators[..k];
      RefusalSticks(front, k, evidence, a);
    }
  }

  /** All reasons the manifest gives for the validators of a profile digest, in no order. */
  ghost function ManifestReasons(validators: multiset<ValidatorRef>, m: ManifestCore): set<ReasonCode> {
    set v, r | v in validators && ManifestEvidence(m, v.id).Some? && r in ReasonsOfCore(ManifestEvidence(m, v.id).value) :: r
  }

  /** Evidence gathered for an issue agrees with the manifest wherever it was found. */
  ghost predicate Gathered(evidence: map<ValidatorId, EvidenceCore>, m: ManifestCore) {
    forall v :: v in evidence ==> ManifestEvidence(m, v) == Some(evidence[v])
  }

  /** A successful weighing depends on which validators the profile names and on the manifest,
      not on the order of the profile and not on when each core was read. */
  lemma {:induction false} WeighIsManifestReasons(validators: seq<ValidatorRef>, evidence: map<ValidatorId, EvidenceCore>,
                                                  a: Authority, m: ManifestCore)
    requires Gathered(evidence, m)
    requires Weigh(validators, evidence, a).Reasons?
    ensures Weigh(validators, evidence, a).reasons == ManifestReasons(multiset(validators), m)
  {
    if validators == [] {
    } else {
      var front, last := validators[..|validators| - 1], validators[|validators| - 1];
      assert validators == front + [last];
      WeighIsManifestReasons(front, evidence, a, m);
    }
  }

  function DecisionOf(a: Authority, manifestHash: Digest, contractJson: Id, reasons: set<ReasonCode>): DecisionCore {
    DecisionCore(a.subjectDigest, a.profileKey, a.profileDigest, a.policyKey, a.policyDigest, a.executionContractHash,
                 manifestHash, ContractDigest(contractJson), if reasons == {} then Passed else Failed, reasons)
  }

  /** The decision as a function of what is stored once and for all: the authority of the
      assessment, the manifest and the contract text. */
  ghost function CanonicalDecision(a: Authority, m: ManifestCore, contractJson: Id): DecisionCore
    requires a.profileDigest.ProfileDigest?
  {
    DecisionOf(a, ManifestDigest(m), contractJson, ManifestReasons(a.profileDigest.validators, m))
  }
}
