/**
 * The local restore drill of scripts/database_recovery.py and the gate that reads its evidence
 * record.  Every command ends with an exit code or makes its runner raise; the record is the JSON
 * document the drill writes, without the fields no check reads (times, sizes, versions, notes).
 */
module RestoreDrill {
  import opened Common
  import opened Decimal
  import opened JsonValues

  // ---------------------------------------------------------------------------------------
  // Reading a record
  // ---------------------------------------------------------------------------------------

  const RESPONSIBLE := [
    "database_owner", "backup_operator", "recovery_lead", "release_owner", "forward_fix_owner",
    "incident_commander"]

  const LIVE_RESPONSIBLE := ["security_reviewer", "billing_owner"]

  const UNASSIGNED := {"tbd", "todo", "unassigned", "unknown", "none", "null"}

  function Get(v: Json, key: string): Json {
    if v.Object? && key in v.fields then v.fields[key] else Null
  }

  /** `_mapping_value(record, section, key)` */
  function At(record: Json, section: string, key: string): Json {
    Get(Get(record, section), key)
  }

  predicate Says(v: Json, text: string) {
    v == Text(text)
  }

  predicate Blank(v: Json) {
    !v.Text? || Strip(v.s) == ""
  }

  predicate NobodyNamed(v: Json) {
    v.Text? && Lower(Strip(v.s)) in UNASSIGNED
  }

  /** A list or an object cannot be looked up in a Python set; the lookup raises `TypeError`. */
  predicate Hashable(v: Json) {
    !v.List? && !v.Object?
  }

  /** `value or "sha256"` */
  function ChecksumMode(record: Json): Json {
    var mode := At(record, "backup", "checksum_mode");
    if mode in {Null, Bool(false), Number(0), Text(""), List([]), Object(map[])} then Text("sha256") else mode
  }

  function Environment(record: Json): Json {
    At(record, "source", "environment")
  }

  function Assertions(record: Json): Json {
    At(record, "restore", "assertions")
  }

  // ---------------------------------------------------------------------------------------
  // What each validation error says
  // ---------------------------------------------------------------------------------------

  datatype EvidenceError =
    | VersionNotOne
    | OwnerRequired(field: string)
    | OwnerNotAssigned(field: string)
    | IdentifierRequired
    | DigestMalformed
    | ChecksumNotVerified
    | KindNotProvider
    | ClaimNotLive
    | DigestClaimed
    | ChecksumNotRecordedFalse
    | RestoreJobRequired
    | ModeUnknown
    | EnvironmentUnknown
    | GateUnknown
    | RestoreNotPassed
    | CleanupNotPassed
    | AssertionRequired
    | AssertionNotPassed
    | LiveOwnerRequired(field: string)
    | WriteNotApproved
    | ApprovalRequired
    | WindowRequired
    | ScopeRequired
    | BillingApprovalRequired

  predicate ProviderManaged(record: Json) {
    Says(ChecksumMode(record), "provider_managed_identifier")
  }

  predicate Checksummed(record: Json) {
    Says(ChecksumMode(record), "sha256")
  }

  predicate Live(record: Json) {
    Says(Environment(record), "staging") || Says(Environment(record), "production")
  }

  predicate ClaimsPass(record: Json) {
    Says(Get(record, "gate_status"), "pass")
  }

  predicate Passed(item: Json) {
    item.Object? && Says(Get(item, "status"), "pass")
  }

  predicate AllPassed(items: seq<Json>) {
    forall i :: 0 <= i < |items| ==> Passed(items[i])
  }

  /** Python's True equals 1. */
  predicate VersionOne(record: Json) {
    Get(record, "record_version") in {Number(1), Bool(true)}
  }

  function Owner(record: Json, field: string): Json {
    Get(Get(record, "responsible"), field)
  }

  predicate OwnerErrorDue(record: Json, e: EvidenceError) {
    match e
    case OwnerRequired(f) => f in RESPONSIBLE && Blank(Owner(record, f))
    case LiveOwnerRequired(f) => Live(record) && f in LIVE_RESPONSIBLE && Blank(Owner(record, f))
    case OwnerNotAssigned(f) =>
      (f in RESPONSIBLE || (Live(record) && f in LIVE_RESPONSIBLE)) && NobodyNamed(Owner(record, f))
    case _ => false
  }

  predicate DigestErrorDue(record: Json, e: EvidenceError) {
    var digest := At(record, "backup", "sha256");
    match e
    case DigestMalformed => !(digest.Text? && IsSha256(digest.s))
    case ChecksumNotVerified => At(record, "backup", "checksum_verified") != Bool(true)
    case _ => false
  }

  predicate ProviderClaimErrorDue(record: Json, e: EvidenceError) {
    var kind := At(record, "backup", "kind");
    match e
    case KindNotProvider => !Says(kind, "provider_physical") && !Says(kind, "provider_pitr")
    case ClaimNotLive => !Live(record)
    case _ => false
  }

  predicate ProviderDigestErrorDue(record: Json, e: EvidenceError) {
    var digest := At(record, "backup", "sha256");
    match e
    case DigestClaimed => digest != Null && !Says(digest, "")
    case ChecksumNotRecordedFalse => At(record, "backup", "checksum_verified") != Bool(false)
    case RestoreJobRequired => Blank(At(record, "restore", "provider_job_identifier"))
    case _ => false
  }

  predicate ProviderErrorDue(record: Json, e: EvidenceError) {
    ProviderClaimErrorDue(record, e) || ProviderDigestErrorDue(record, e)
  }

  predicate BackupErrorDue(record: Json, e: EvidenceError) {
    || (e == IdentifierRequired && Blank(At(record, "backup", "identifier")))
    || (Checksummed(record) && DigestErrorDue(record, e))
    || (ProviderManaged(record) && ProviderErrorDue(record, e))
    || (e == ModeUnknown && !Checksummed(record) && !ProviderManaged(record))
  }

  predicate ClaimErrorDue(record: Json, e: EvidenceError) {
    match e
    case RestoreNotPassed => !Says(At(record, "restore", "result"), "pass")
    case CleanupNotPassed => !Says(At(record, "restore", "cleanup_result"), "pass")
    case AssertionRequired => !Assertions(record).List? || Assertions(record).items == []
    case AssertionNotPassed => Assertions(record).List? && !AllPassed(Assertions(record).items)
    case _ => false
  }

  predicate GateErrorDue(record: Json, e: EvidenceError) {
    || (e == EnvironmentUnknown && !Says(Environment(record), "local") && !Live(record))
    || (e == GateUnknown && !ClaimsPass(record) && !Says(Get(record, "gate_status"), "blocked"))
    || (ClaimsPass(record) && ClaimErrorDue(record, e))
  }

  predicate ApprovalErrorDue(record: Json, e: EvidenceError) {
    match e
    case WriteNotApproved => !Says(At(record, "authorization", "live_write_status"), "approved")
    case ApprovalRequired => Blank(At(record, "authorization", "approval_record"))
    case WindowRequired => Blank(At(record, "authorization", "maintenance_window"))
    case ScopeRequired => Blank(At(record, "authorization", "approved_scope"))
    case BillingApprovalRequired =>
      && Says(At(record, "restore", "target_kind"), "isolated_provider_clone")
      && Blank(At(record, "authorization", "billing_approval_record"))
    case _ => false
  }

  /** The error `e` is due for this record. */
  predicate Violates(record: Json, e: EvidenceError) {
    || (e == VersionNotOne && !VersionOne(record))
    || OwnerErrorDue(record, e) || BackupErrorDue(record, e) || GateErrorDue(record, e)
    || (Live(record) && ApprovalErrorDue(record, e))
  }

  predicate ProviderLookupRaises(record: Json) {
    || !Hashable(At(record, "backup", "kind")) || !Hashable(Environment(record))
    || !Hashable(At(record, "backup", "sha256"))
  }

  /** A set lookup of the validator meets a list or an object. */
  predicate LookupRaises(record: Json) {
    || !Hashable(Environment(record))
    || !Hashable(Get(record, "gate_status"))
    || (ProviderManaged(record) && ProviderLookupRaises(record))
  }

  // ---------------------------------------------------------------------------------------
  // The validator
  // ---------------------------------------------------------------------------------------

  datatype TypeError = Unhashable

  /** The errors about who answers for one field. */
  predicate DueForOwner(record: Json, e: EvidenceError, field: string, live: bool) {
    var missing := if live then LiveOwnerRequired(field) else OwnerRequired(field);
    || (e == missing && Blank(Owner(record, field)))
    || (e == OwnerNotAssigned(field) && NobodyNamed(Owner(record, field)))
  }

  /** One of the two owner loops of the validator. */
  method CheckOwners(record: Json, fields: seq<string>, live: bool) returns (errors: seq<EvidenceError>)
    ensures forall e :: e in errors <==> exists f :: f in fields && DueForOwner(record, e, f, live)
  {
    errors := [];
    for k := 0 to |fields|
      invariant forall e :: e in errors <==> exists f :: f in fields[..k] && DueForOwner(record, e, f, live)
    {
      var field := fields[k];
      var value := Owner(record, field);
      ghost var before := errors;
      if Blank(value) {
        errors := errors + [if live then LiveOwnerRequired(field) else OwnerRequired(field)];
      } else if Lower(Strip(value.s)) in UNASSIGNED {
        errors := errors + [OwnerNotAssigned(field)];
      }
      assert forall e :: e in errors <==> e in before || DueForOwner(record, e, field, live) by {
        if NobodyNamed(value) {
          NobodyIsNotBlank(value);
        }
      }
      assert fields[..k + 1] == fields[..k] + [field];
    }
    assert fields[..|fields|] == fields;
  }

  lemma NobodyIsNotBlank(v: Json)
    requires NobodyNamed(v)
    ensures !Blank(v)
  {
  }

  /** `if due: errors.append(e)` */
  function AppendIf(errors: seq<EvidenceError>, due: bool, e: EvidenceError): (r: seq<EvidenceError>)
    ensures forall x :: x in r <==> x in errors || (due && x == e)
  {
    if due then errors + [e] else errors
  }

  lemma OneMode(record: Json)
    ensures !Checksummed(record) || !ProviderManaged(record)
  {
    assert "sha256"[0] != "provider_managed_identifier"[0];
  }

  method CheckDigest(record: Json) returns (errors: seq<EvidenceError>)
    ensures forall e :: e in errors <==> DigestErrorDue(record, e)
  {
    hide AppendIf, At, Get, IsSha256;
    var digest := At(record, "backup", "sha256");
    errors := AppendIf([], !digest.Text? || !IsSha256(digest.s), DigestMalformed);
    errors := AppendIf(errors, At(record, "backup", "checksum_verified") != Bool(true), ChecksumNotVerified);
  }

  method CheckProviderClaim(record: Json) returns (r: Result<seq<EvidenceError>, TypeError>)
    ensures r.Err? <==> !Hashable(At(record, "backup", "kind")) || !Hashable(Environment(record))
    ensures r.Ok? ==> forall e :: e in r.value <==> ProviderClaimErrorDue(record, e)
  {
    hide Says, AppendIf, At, Get, Live, Environment, Hashable;
    var kind := At(record, "backup", "kind");
    if !Hashable(kind) {
      return Err(Unhashable);
    }
    var errors := AppendIf([], !Says(kind, "provider_physical") && !Says(kind, "provider_pitr"), KindNotProvider);
    if !Hashable(Environment(record)) {
      return Err(Unhashable);
    }
    return Ok(AppendIf(errors, !Live(record), ClaimNotLive));
  }

  method CheckProviderDigest(record: Json) returns (r: Result<seq<EvidenceError>, TypeError>)
    ensures r.Err? <==> !Hashable(At(record, "backup", "sha256"))
    ensures r.Ok? ==> forall e :: e in r.value <==> ProviderDigestErrorDue(record, e)
  {
    hide Says, AppendIf, At, Get, Blank, Hashable;
    var digest := At(record, "backup", "sha256");
    if !Hashable(digest) {
      return Err(Unhashable);
    }
    var errors := AppendIf([], digest != Null && !Says(digest, ""), DigestClaimed);
    errors := AppendIf(errors, At(record, "backup", "checksum_verified") != Bool(false), ChecksumNotRecordedFalse);
    errors := AppendIf(errors, Blank(At(record, "restore", "provider_job_identifier")), RestoreJobRequired);
    return Ok(errors);
  }

  method CheckProvider(record: Json) returns (r: Result<seq<EvidenceError>, TypeError>)
    ensures r.Err? <==> ProviderLookupRaises(record)
    ensures r.Ok? ==> forall e :: e in r.value <==> ProviderErrorDue(record, e)
  {
    hide ProviderClaimErrorDue, ProviderDigestErrorDue, At, Environment, Hashable;
    var claim := CheckProviderClaim(record);
    if claim.Err? {
      return Err(Unhashable);
    }
    var digest := CheckProviderDigest(record);
    if digest.Err? {
      return Err(Unhashable);
    }
    return Ok(claim.value + digest.value);
  }

  /** The backup's identifier and checksum */
  method CheckBackup(record: Json) returns (r: Result<seq<EvidenceError>, TypeError>)
    ensures r.Err? <==> ProviderManaged(record) && ProviderLookupRaises(record)
    ensures r.Ok? ==> forall e :: e in r.value <==> BackupErrorDue(record, e)
  {
    hide Says, AppendIf, At, Get, Strip, Blank, ChecksumMode, DigestErrorDue, ProviderErrorDue,
      ProviderLookupRaises;
    var errors := AppendIf([], Blank(At(record, "backup", "identifier")), IdentifierRequired);
    var mode := ChecksumMode(record);
    OneMode(record);
    if Says(mode, "sha256") {
      var digestErrors := CheckDigest(record);
      errors := errors + digestErrors;
    } else if Says(mode, "provider_managed_identifier") {
      var providerErrors := CheckProvider(record);
      if providerErrors.Err? {
        return Err(Unhashable);
      }
      errors := errors + providerErrors.value;
    } else {
      errors := AppendIf(errors, true, ModeUnknown);
    }
    return Ok(errors);
  }

  method CheckClaim(record: Json) returns (errors: seq<EvidenceError>)
    ensures forall e :: e in errors <==> ClaimErrorDue(record, e)
  {
    hide Says, AppendIf, At, Get, AllPassed, Assertions;
    errors := AppendIf([], !Says(At(record, "restore", "result"), "pass"), RestoreNotPassed);
    errors := AppendIf(errors, !Says(At(record, "restore", "cleanup_result"), "pass"), CleanupNotPassed);
    var assertions := Assertions(record);
    errors := AppendIf(errors, !assertions.List? || assertions.items == [], AssertionRequired);
    errors := AppendIf(errors, assertions.List? && !AllPassed(assertions.items), AssertionNotPassed);
  }

  /** The environment, the gate status and what a passing gate must show */
  method CheckGate(record: Json) returns (r: Result<seq<EvidenceError>, TypeError>)
    ensures r.Err? <==> !Hashable(Environment(record)) || !Hashable(Get(record, "gate_status"))
    ensures r.Ok? ==> forall e :: e in r.value <==> GateErrorDue(record, e)
  {
    hide Says, AppendIf, At, Get, Live, Environment, Hashable, ClaimErrorDue;
    var errors: seq<EvidenceError> := [];
    var gate := Get(record, "gate_status");
    if !Hashable(Environment(record)) {
      return Err(Unhashable);
    }
    errors := AppendIf(errors, !Says(Environment(record), "local") && !Live(record), EnvironmentUnknown);
    if !Hashable(gate) {
      return Err(Unhashable);
    }
    errors := AppendIf(errors, !Says(gate, "pass") && !Says(gate, "blocked"), GateUnknown);
    if Says(gate, "pass") {
      var claimErrors := CheckClaim(record);
      errors := errors + claimErrors;
    }
    return Ok(errors);
  }

  /** What evidence from a live environment must show besides its two owners */
  method CheckApprovals(record: Json) returns (errors: seq<EvidenceError>)
    requires Live(record)
    ensures forall e :: e in errors <==> ApprovalErrorDue(record, e)
  {
    hide Says, AppendIf, At, Get, Strip, Blank;
    errors := [];
    errors := AppendIf(errors, !Says(At(record, "authorization", "live_write_status"), "approved"), WriteNotApproved);
    errors := AppendIf(errors, Blank(At(record, "authorization", "approval_record")), ApprovalRequired);
    errors := AppendIf(errors, Blank(At(record, "authorization", "maintenance_window")), WindowRequired);
    errors := AppendIf(errors, Blank(At(record, "authorization", "approved_scope")), ScopeRequired);
    if Says(At(record, "restore", "target_kind"), "isolated_provider_clone") {
      errors := AppendIf(errors, Blank(At(record, "authorization", "billing_approval_record")), BillingApprovalRequired);
    }
  }

  lemma OwnerErrors(record: Json, e: EvidenceError)
    ensures OwnerErrorDue(record, e) <==>
              || (exists f :: f in RESPONSIBLE && DueForOwner(record, e, f, false))
              || (Live(record) && exists f :: f in LIVE_RESPONSIBLE && DueForOwner(record, e, f, true))
  {
    hide Live, Blank, NobodyNamed, RESPONSIBLE, LIVE_RESPONSIBLE;
    if OwnerErrorDue(record, e) {
      var f := e.field;
      assert DueForOwner(record, e, f, false) || DueForOwner(record, e, f, true);
      if f in RESPONSIBLE && e != LiveOwnerRequired(f) {
        assert DueForOwner(record, e, f, false);
      } else {
        assert DueForOwner(record, e, f, true);
      }
    }
  }

  lemma LookupRaisesIsAViolation(record: Json)
    requires LookupRaises(record)
    ensures exists e :: Violates(record, e)
  {
    hide At, Get;
    if !Hashable(Environment(record)) {
      assert GateErrorDue(record, EnvironmentUnknown);
      assert Violates(record, EnvironmentUnknown);
    } else if !Hashable(Get(record, "gate_status")) {
      assert GateErrorDue(record, GateUnknown);
      assert Violates(record, GateUnknown);
    } else if !Hashable(At(record, "backup", "kind")) {
      assert ProviderErrorDue(record, KindNotProvider);
      assert Violates(record, KindNotProvider);
    } else {
      assert ProviderErrorDue(record, DigestClaimed);
      assert Violates(record, DigestClaimed);
    }
  }

  /** `validate_evidence_record`: exactly the errors that are due, unless a set lookup raises. */
  method ValidateEvidence(record: Json) returns (r: Result<seq<EvidenceError>, TypeError>)
    ensures r.Err? <==> LookupRaises(record)
    ensures r.Ok? ==> forall e :: e in r.value <==> Violates(record, e)
    ensures r == Ok([]) <==> Accepted(record)
  {
    hide OwnerErrorDue, BackupErrorDue, GateErrorDue, ApprovalErrorDue, Live, VersionOne, DueForOwner,
      RESPONSIBLE, LIVE_RESPONSIBLE, ProviderLookupRaises, ProviderManaged, Environment, Get, Hashable;
    forall e {
      OwnerErrors(record, e);
    }
    if LookupRaises(record) {
      LookupRaisesIsAViolation(record);
    }
    var errors: seq<EvidenceError> := [];
    if !VersionOne(record) {
      errors := errors + [VersionNotOne];
    }
    var owners := CheckOwners(record, RESPONSIBLE, false);
    var backup := CheckBackup(record);
    if backup.Err? {
      return Err(Unhashable);
    }
    var gate := CheckGate(record);
    if gate.Err? {
      return Err(Unhashable);
    }
    errors := errors + owners + backup.value + gate.value;
    if Live(record) {
      var liveOwners := CheckOwners(record, LIVE_RESPONSIBLE, true);
      var approvals := CheckApprovals(record);
      errors := errors + liveOwners + approvals;
    }
    assert errors != [] ==> errors[0] in errors && Violates(record, errors[0]);
    return Ok(errors);
  }

  // ---------------------------------------------------------------------------------------
  // What an accepted record establishes
  // ---------------------------------------------------------------------------------------

  ghost predicate Accepted(record: Json) {
    forall e :: !Violates(record, e)
  }

  predicate Named(v: Json) {
    v.Text? && Strip(v.s) != "" && Lower(Strip(v.s)) !in UNASSIGNED
  }

  predicate Written(v: Json) {
    v.Text? && Strip(v.s) != ""
  }

  /** The provider of a live environment vouches for a backup whose digest it keeps to itself. */
  predicate ProviderVouches(record: Json) {
    var kind, digest := At(record, "backup", "kind"), At(record, "backup", "sha256");
    && Live(record) && (Says(kind, "provider_physical") || Says(kind, "provider_pitr"))
    && (digest == Null || Says(digest, "")) && At(record, "backup", "checksum_verified") == Bool(false)
    && Written(At(record, "restore", "provider_job_identifier"))
  }

  predicate DigestVerified(record: Json) {
    var digest := At(record, "backup", "sha256");
    digest.Text? && IsSha256(digest.s) && At(record, "backup", "checksum_verified") == Bool(true)
  }

  /** The backup is identified, and its integrity vouched for in one of two ways. */
  predicate Vouched(record: Json) {
    && Written(At(record, "backup", "identifier"))
    && if Checksummed(record) then DigestVerified(record)
      else ProviderManaged(record) && ProviderVouches(record)
  }

  /** A restore that ran to its end: everything passed, and something was checked. */
  predicate Restored(record: Json) {
    && Says(At(record, "restore", "result"), "pass")
    && Says(At(record, "restore", "cleanup_result"), "pass")
    && Assertions(record).List? && Assertions(record).items != []
    && AllPassed(Assertions(record).items)
  }

  predicate PaperworkDone(record: Json) {
    && Says(At(record, "authorization", "live_write_status"), "approved")
    && Written(At(record, "authorization", "approval_record"))
    && Written(At(record, "authorization", "maintenance_window"))
    && Written(At(record, "authorization", "approved_scope"))
    && (Says(At(record, "restore", "target_kind"), "isolated_provider_clone") ==>
          Written(At(record, "authorization", "billing_approval_record")))
  }

  predicate Approved(record: Json) {
    && (forall i :: 0 <= i < |LIVE_RESPONSIBLE| ==> Named(Owner(record, LIVE_RESPONSIBLE[i])))
    && PaperworkDone(record)
  }

  predicate OwnersNamed(record: Json) {
    forall i :: 0 <= i < |RESPONSIBLE| ==> Named(Owner(record, RESPONSIBLE[i]))
  }

  lemma NoOwnerError(record: Json)
    ensures (forall e :: !OwnerErrorDue(record, e)) <==>
              && OwnersNamed(record)
              && (Live(record) ==> forall i :: 0 <= i < |LIVE_RESPONSIBLE| ==> Named(Owner(record, LIVE_RESPONSIBLE[i])))
  {
    hide Live, Lower, Strip, Get, Owner;
    if forall e :: !OwnerErrorDue(record, e) {
      forall i | 0 <= i < |RESPONSIBLE| ensures Named(Owner(record, RESPONSIBLE[i])) {
        assert !OwnerErrorDue(record, OwnerRequired(RESPONSIBLE[i]));
        assert !OwnerErrorDue(record, OwnerNotAssigned(RESPONSIBLE[i]));
      }
      if Live(record) {
        forall i | 0 <= i < |LIVE_RESPONSIBLE| ensures Named(Owner(record, LIVE_RESPONSIBLE[i])) {
          assert !OwnerErrorDue(record, LiveOwnerRequired(LIVE_RESPONSIBLE[i]));
          assert !OwnerErrorDue(record, OwnerNotAssigned(LIVE_RESPONSIBLE[i]));
        }
      }
    }
  }

  lemma NoProviderError(record: Json)
    ensures (forall e :: !ProviderErrorDue(record, e)) <==> ProviderVouches(record)
  {
    hide Says, At, Get, Strip, Live;
    if forall e :: !ProviderErrorDue(record, e) {
      assert !ProviderErrorDue(record, KindNotProvider) && !ProviderErrorDue(record, ClaimNotLive);
      assert !ProviderErrorDue(record, DigestClaimed) && !ProviderErrorDue(record, ChecksumNotRecordedFalse);
      assert !ProviderErrorDue(record, RestoreJobRequired);
    }
  }

  lemma NoBackupError(record: Json)
    ensures (forall e :: !BackupErrorDue(record, e)) <==> Vouched(record)
  {
    hide At, Get, Strip, IsSha256, Checksummed, ProviderManaged, ProviderErrorDue, ProviderVouches;
    OneMode(record);
    NoProviderError(record);
    if forall e :: !BackupErrorDue(record, e) {
      assert !BackupErrorDue(record, IdentifierRequired) && !BackupErrorDue(record, ModeUnknown);
      assert !BackupErrorDue(record, DigestMalformed) && !BackupErrorDue(record, ChecksumNotVerified);
      if ProviderManaged(record) {
        forall e ensures !ProviderErrorDue(record, e) {
          assert !BackupErrorDue(record, e);
        }
      }
    }
  }

  lemma NoGateError(record: Json)
    ensures (forall e :: !GateErrorDue(record, e)) <==>
              && (ClaimsPass(record) || Says(Get(record, "gate_status"), "blocked"))
              && (ClaimsPass(record) ==> Restored(record))
              && (Live(record) || Says(Environment(record), "local"))
  {
    hide Says, At, Get, AllPassed, Live, Environment, Assertions;
    if forall e :: !GateErrorDue(record, e) {
      assert !GateErrorDue(record, EnvironmentUnknown) && !GateErrorDue(record, GateUnknown);
      assert !GateErrorDue(record, RestoreNotPassed) && !GateErrorDue(record, CleanupNotPassed);
      assert !GateErrorDue(record, AssertionRequired) && !GateErrorDue(record, AssertionNotPassed);
    }
  }

  lemma NoApprovalError(record: Json)
    ensures (forall e :: !ApprovalErrorDue(record, e)) <==> PaperworkDone(record)
  {
    hide Says, At, Get, Strip;
    if forall e :: !ApprovalErrorDue(record, e) {
      assert !ApprovalErrorDue(record, WriteNotApproved) && !ApprovalErrorDue(record, ApprovalRequired);
      assert !ApprovalErrorDue(record, WindowRequired) && !ApprovalErrorDue(record, ScopeRequired);
      assert !ApprovalErrorDue(record, BillingApprovalRequired);
    }
  }

  lemma NoViolation(record: Json)
    ensures (forall e :: !Violates(record, e)) <==>
              && VersionOne(record)
              && (forall e :: !OwnerErrorDue(record, e)) && (forall e :: !BackupErrorDue(record, e))
              && (forall e :: !GateErrorDue(record, e))
              && (Live(record) ==> forall e :: !ApprovalErrorDue(record, e))
  {
    hide OwnerErrorDue, BackupErrorDue, GateErrorDue, ApprovalErrorDue, Live, VersionOne;
    if forall e :: !Violates(record, e) {
      assert !Violates(record, VersionNotOne);
      forall e ensures !OwnerErrorDue(record, e) && !BackupErrorDue(record, e) && !GateErrorDue(record, e)
                       && (Live(record) ==> !ApprovalErrorDue(record, e))
      {
        assert !Violates(record, e);
      }
    }
  }

  /** A record is accepted exactly when six owners are named, its integrity is vouched for, a claimed
      pass is a complete restore, and evidence from a live environment is approved. */
  lemma AcceptedIff(record: Json)
    ensures Accepted(record) <==>
              && VersionOne(record)
              && OwnersNamed(record) && Vouched(record)
              && (ClaimsPass(record) || Says(Get(record, "gate_status"), "blocked"))
              && (ClaimsPass(record) ==> Restored(record))
              && (Live(record) || Says(Environment(record), "local"))
              && (Live(record) ==> Approved(record))
  {
    hide Violates, OwnerErrorDue, BackupErrorDue, GateErrorDue, ApprovalErrorDue, Live, VersionOne, Vouched,
      Restored, PaperworkDone, Says, Get, Environment, Named, Owner;
    NoViolation(record);
    NoOwnerError(record);
    NoBackupError(record);
    NoGateError(record);
    NoApprovalError(record);
  }

  // ---------------------------------------------------------------------------------------
  // The same, field by field
  // ---------------------------------------------------------------------------------------

  /** The value under a path of keys; a missing one reads as null. */
  ghost predicate Reads(v: Json, path: seq<string>, x: Json)
    decreases |path|
  {
    if path == [] then v == x
    else if v.Object? && path[0] in v.fields then Reads(v.fields[path[0]], path[1..], x)
    else x == Null
  }

  /** A text that is not blank */
  ghost predicate Filled(v: Json, path: seq<string>) {
    exists s :: Reads(v, path, Text(s)) && !AllSpaces(s)
  }

  /** A text that is neither blank nor a placeholder, in any letter case and between blanks */
  ghost predicate Somebody(v: Json, path: seq<string>) {
    exists s ::
      && Reads(v, path, Text(s)) && !AllSpaces(s)
      && !Names(s, "tbd") && !Names(s, "todo") && !Names(s, "unassigned") && !Names(s, "unknown")
      && !Names(s, "none") && !Names(s, "null")
  }

  ghost predicate OwnersRead(r: Json) {
    && Somebody(r, ["responsible", "database_owner"]) && Somebody(r, ["responsible", "backup_operator"])
    && Somebody(r, ["responsible", "recovery_lead"]) && Somebody(r, ["responsible", "release_owner"])
    && Somebody(r, ["responsible", "forward_fix_owner"]) && Somebody(r, ["responsible", "incident_commander"])
  }

  ghost predicate LiveReads(r: Json) {
    Reads(r, ["source", "environment"], Text("staging")) || Reads(r, ["source", "environment"], Text("production"))
  }

  /** A mode that Python takes for false means the digest as well. */
  ghost predicate DigestMode(r: Json) {
    exists m ::
      && Reads(r, ["backup", "checksum_mode"], m)
      && (m == Text("sha256") || m == Null || m == Bool(false) || m == Number(0) || m == Text("") || m == List([])
          || m == Object(map[]))
  }

  ghost predicate DigestReads(r: Json) {
    && (exists d ::
          && Reads(r, ["backup", "sha256"], Text(d))
          && |d| == 64 && forall i :: 0 <= i < |d| ==> d[i] in "0123456789abcdef")
    && Reads(r, ["backup", "checksum_verified"], Bool(true))
  }

  ghost predicate ProviderReads(r: Json) {
    && Reads(r, ["backup", "checksum_mode"], Text("provider_managed_identifier")) && LiveReads(r)
    && (Reads(r, ["backup", "kind"], Text("provider_physical")) || Reads(r, ["backup", "kind"], Text("provider_pitr")))
    && (Reads(r, ["backup", "sha256"], Null) || Reads(r, ["backup", "sha256"], Text("")))
    && Reads(r, ["backup", "checksum_verified"], Bool(false))
    && Filled(r, ["restore", "provider_job_identifier"])
  }

  ghost predicate RestoreReads(r: Json) {
    && Reads(r, ["restore", "result"], Text("pass")) && Reads(r, ["restore", "cleanup_result"], Text("pass"))
    && exists items ::
         && Reads(r, ["restore", "assertions"], List(items)) && items != []
         && forall i :: 0 <= i < |items| ==> Reads(items[i], ["status"], Text("pass"))
  }

  ghost predicate ApprovalReads(r: Json) {
    && Somebody(r, ["responsible", "security_reviewer"]) && Somebody(r, ["responsible", "billing_owner"])
    && Reads(r, ["authorization", "live_write_status"], Text("approved"))
    && Filled(r, ["authorization", "approval_record"]) && Filled(r, ["authorization", "maintenance_window"])
    && Filled(r, ["authorization", "approved_scope"])
    && (Reads(r, ["restore", "target_kind"], Text("isolated_provider_clone")) ==>
          Filled(r, ["authorization", "billing_approval_record"]))
  }

  lemma ReadsGet(v: Json, key: string, x: Json)
    ensures Reads(v, [key], x) <==> Get(v, key) == x
  {
    assert [key][1..] == [];
  }

  lemma ReadsAt(r: Json, section: string, key: string, x: Json)
    ensures Reads(r, [section, key], x) <==> At(r, section, key) == x
  {
    assert [section, key][1..] == [key];
    if r.Object? && section in r.fields {
      ReadsGet(r.fields[section], key, x);
    }
  }

  lemma FilledIff(r: Json, section: string, key: string)
    ensures Filled(r, [section, key]) <==> Written(At(r, section, key))
  {
    var v := At(r, section, key);
    hide At, Reads, Strip;
    forall s ensures Reads(r, [section, key], Text(s)) <==> v == Text(s) {
      ReadsAt(r, section, key, Text(s));
    }
    if v.Text? {
      StripsToNothingIff(v.s);
    }
  }

  lemma PlaceholderIff(s: string)
    ensures Lower(Strip(s)) in UNASSIGNED <==>
            || Names(s, "tbd") || Names(s, "todo") || Names(s, "unassigned") || Names(s, "unknown")
            || Names(s, "none") || Names(s, "null")
  {
    hide Lower, Strip, Names;
    NamesIff(s, "tbd");
    NamesIff(s, "todo");
    NamesIff(s, "unassigned");
    NamesIff(s, "unknown");
    NamesIff(s, "none");
    NamesIff(s, "null");
  }

  lemma SomebodyIff(r: Json, field: string)
    ensures Somebody(r, ["responsible", field]) <==> Named(Owner(r, field))
  {
    var v := Owner(r, field);
    assert v == At(r, "responsible", field);
    hide At, Owner, Reads, Strip, Lower, Names, UNASSIGNED;
    forall s ensures Reads(r, ["responsible", field], Text(s)) <==> v == Text(s) {
      ReadsAt(r, "responsible", field, Text(s));
    }
    if v.Text? {
      StripsToNothingIff(v.s);
      PlaceholderIff(v.s);
    }
  }

  lemma OwnersReadIff(r: Json)
    ensures OwnersRead(r) <==> OwnersNamed(r)
  {
    hide Named, Owner, Somebody;
    SomebodyIff(r, RESPONSIBLE[0]);
    SomebodyIff(r, RESPONSIBLE[1]);
    SomebodyIff(r, RESPONSIBLE[2]);
    SomebodyIff(r, RESPONSIBLE[3]);
    SomebodyIff(r, RESPONSIBLE[4]);
    SomebodyIff(r, RESPONSIBLE[5]);
  }

  lemma LiveReadsIff(r: Json)
    ensures LiveReads(r) <==> Live(r)
    ensures Reads(r, ["source", "environment"], Text("local")) <==> Says(Environment(r), "local")
  {
    hide At, Reads;
    ReadsAt(r, "source", "environment", Text("staging"));
    ReadsAt(r, "source", "environment", Text("production"));
    ReadsAt(r, "source", "environment", Text("local"));
  }

  lemma DigestModeIff(r: Json)
    ensures DigestMode(r) <==> Checksummed(r)
    ensures Reads(r, ["backup", "checksum_mode"], Text("provider_managed_identifier")) <==> ProviderManaged(r)
  {
    var m := At(r, "backup", "checksum_mode");
    hide At, Reads;
    forall x ensures Reads(r, ["backup", "checksum_mode"], x) <==> m == x {
      ReadsAt(r, "backup", "checksum_mode", x);
    }
    OneMode(r);
    assert Reads(r, ["backup", "checksum_mode"], m);
    assert "provider_managed_identifier" != "";
  }

  lemma DigestReadsIff(r: Json)
    ensures DigestReads(r) <==> DigestVerified(r)
  {
    hide At, Reads, IsSha256;
    forall d ensures Reads(r, ["backup", "sha256"], Text(d)) <==> At(r, "backup", "sha256") == Text(d) {
      ReadsAt(r, "backup", "sha256", Text(d));
    }
    if At(r, "backup", "sha256").Text? {
      IsSha256Iff(At(r, "backup", "sha256").s);
    }
    ReadsAt(r, "backup", "checksum_verified", Bool(true));
  }

  lemma ProviderReadsIff(r: Json)
    ensures ProviderReads(r) <==> ProviderManaged(r) && ProviderVouches(r)
  {
    hide At, Reads, Filled, LiveReads, Live, ProviderManaged, Written;
    DigestModeIff(r);
    LiveReadsIff(r);
    ReadsAt(r, "backup", "kind", Text("provider_physical"));
    ReadsAt(r, "backup", "kind", Text("provider_pitr"));
    ReadsAt(r, "backup", "sha256", Null);
    ReadsAt(r, "backup", "sha256", Text(""));
    ReadsAt(r, "backup", "checksum_verified", Bool(false));
    FilledIff(r, "restore", "provider_job_identifier");
  }

  lemma RestoreReadsIff(r: Json)
    ensures RestoreReads(r) <==> Restored(r)
  {
    hide At, Get, Reads;
    ReadsAt(r, "restore", "result", Text("pass"));
    ReadsAt(r, "restore", "cleanup_result", Text("pass"));
    var v := Assertions(r);
    forall x ensures Reads(r, ["restore", "assertions"], x) <==> v == x {
      ReadsAt(r, "restore", "assertions", x);
    }
    forall item ensures Reads(item, ["status"], Text("pass")) <==> Passed(item) {
      ReadsGet(item, "status", Text("pass"));
      OnlyObjects(item, "status");
    }
  }

  lemma OnlyObjects(v: Json, key: string)
    ensures !v.Object? ==> Get(v, key) == Null
  {
  }

  lemma ApprovalReadsIff(r: Json)
    ensures ApprovalReads(r) <==> Approved(r)
  {
    hide At, Reads, Filled, Somebody, Named, Owner, Written;
    SomebodyIff(r, LIVE_RESPONSIBLE[0]);
    SomebodyIff(r, LIVE_RESPONSIBLE[1]);
    ReadsAt(r, "authorization", "live_write_status", Text("approved"));
    FilledIff(r, "authorization", "approval_record");
    FilledIff(r, "authorization", "maintenance_window");
    FilledIff(r, "authorization", "approved_scope");
    ReadsAt(r, "restore", "target_kind", Text("isolated_provider_clone"));
    FilledIff(r, "authorization", "billing_approval_record");
  }

  /** Acceptance over the raw fields of the record: the version, six people, an identified backup with a
      verified digest or a provider's word, a gate that is blocked or passes on a complete restore, and a local
      environment or an approved live one. */
  lemma AcceptedReads(r: Json)
    ensures Accepted(r) <==>
            && (Reads(r, ["record_version"], Number(1)) || Reads(r, ["record_version"], Bool(true)))
            && OwnersRead(r) && Filled(r, ["backup", "identifier"])
            && ((DigestMode(r) && DigestReads(r)) || ProviderReads(r))
            && (Reads(r, ["gate_status"], Text("blocked"))
                || (Reads(r, ["gate_status"], Text("pass")) && RestoreReads(r)))
            && (Reads(r, ["source", "environment"], Text("local")) || (LiveReads(r) && ApprovalReads(r)))
  {
    hide Accepted, Reads, Filled, OwnersRead, DigestMode, DigestReads, ProviderReads, RestoreReads, LiveReads,
      ApprovalReads, OwnersNamed, DigestVerified, ProviderManaged, ProviderVouches, Checksummed, Restored, Live,
      Approved, At, Get, Written, Environment;
    AcceptedIff(r);
    ReadsGet(r, "record_version", Number(1));
    ReadsGet(r, "record_version", Bool(true));
    OwnersReadIff(r);
    FilledIff(r, "backup", "identifier");
    DigestModeIff(r);
    DigestReadsIff(r);
    ProviderReadsIff(r);
    OneMode(r);
    ReadsGet(r, "gate_status", Text("blocked"));
    ReadsGet(r, "gate_status", Text("pass"));
    assert "blocked"[0] != "pass"[0];
    RestoreReadsIff(r);
    LiveReadsIff(r);
    LocalIsNotLive(r);
    ApprovalReadsIff(r);
  }

  lemma LocalIsNotLive(r: Json)
    ensures Says(Environment(r), "local") ==> !Live(r)
  {
    assert "local"[0] != "staging"[0] && "local"[0] != "production"[0];
  }

  // ---------------------------------------------------------------------------------------
  // The drill's commands
  // ---------------------------------------------------------------------------------------

  datatype Outcome = Exit(code: int) | Raised

  const DONE := Exit(0)

  /** How each command of one drill ends, should it be issued. */
  datatype Script = Script(create: Outcome, restore: Outcome, checks: seq<Check>, drop: Outcome)

  /** One assertion file and how `psql` ends on it. */
  datatype Check = Check(name: string, psql: Outcome)

  datatype Command = CreateDb | PgRestore | Psql(file: nat) | DropDb

  datatype Status = Pass | Fail(code: int) | NotRun

  datatype AssertionResult = AssertionResult(name: string, status: Status)

  datatype Failure = NoFailure | CreateExit(code: int) | RestoreExit(code: int)

  datatype Cleanup = NotNeeded | CleanupPassed | CleanupFailed

  datatype Record = Record(
    gatePassed: bool, failure: Failure, resultPassed: bool, cleanup: Cleanup,
    assertions: seq<AssertionResult>)

  /** The commands a drill issued, the record it wrote if it came to writing one, and whether it ends
      by an exception. */
  datatype Drill = Drill(commands: seq<Command>, written: Option<Record>, raised: bool)

  /** The first check that does not succeed, or the number of checks. */
  function FirstBad(checks: seq<Check>): (k: nat)
    ensures k <= |checks|
    ensures forall i :: 0 <= i < k ==> checks[i].psql == DONE
    ensures k < |checks| ==> checks[k].psql != DONE
  {
    if checks == [] || checks[0].psql != DONE then 0 else 1 + FirstBad(checks[1..])
  }

  predicate Restores(s: Script) {
    s.create == DONE && s.restore == DONE
  }

  /** Checks whose command is issued: up to the first that does not succeed. */
  function Issued(checks: seq<Check>): (n: nat)
    ensures n <= |checks|
  {
    if FirstBad(checks) < |checks| then FirstBad(checks) + 1 else |checks|
  }

  predicate CheckRaises(checks: seq<Check>) {
    FirstBad(checks) < |checks| && checks[FirstBad(checks)].psql == Raised
  }

  predicate EverythingPasses(s: Script) {
    Restores(s) && s.checks != [] && FirstBad(s.checks) == |s.checks|
  }

  function PsqlCommands(n: nat): (r: seq<Command>)
    ensures |r| == n && forall i :: 0 <= i < n ==> r[i] == Psql(i)
  {
    seq(n, i requires 0 <= i => Psql(i))
  }

  /** The database is dropped exactly when the drill created it, whatever happened in between. */
  function Commands(s: Script): seq<Command> {
    if s.create != DONE then [CreateDb]
    else
      var psqls := if s.restore == DONE then PsqlCommands(Issued(s.checks)) else [];
      [CreateDb, PgRestore] + psqls + [DropDb]
  }

  predicate Raises(s: Script) {
    || s.create == Raised
    || (s.create == DONE &&
        (s.restore == Raised || s.drop == Raised || (s.restore == DONE && CheckRaises(s.checks))))
  }

  /** Assertion statuses read pass ... pass, at most one fail, then not run. */
  predicate PassFailNotRun(assertions: seq<AssertionResult>, checks: seq<Check>) {
    && |assertions| == |checks|
    && forall i :: 0 <= i < |checks| ==>
         && assertions[i].name == checks[i].name
         && assertions[i].status ==
              if i < FirstBad(checks) then Pass
              else if i == FirstBad(checks) && checks[i].psql.Exit? then Fail(checks[i].psql.code)
              else NotRun
  }

  predicate NoneRun(assertions: seq<AssertionResult>, checks: seq<Check>) {
    && |assertions| == |checks|
    && forall i :: 0 <= i < |checks| ==> assertions[i] == AssertionResult(checks[i].name, NotRun)
  }

  /** What the written record says about the commands. */
  predicate Describes(r: Record, s: Script) {
    && (r.gatePassed <==> EverythingPasses(s) && s.drop == DONE)
    && (r.resultPassed <==> EverythingPasses(s))
    && r.cleanup == (if s.create != DONE then NotNeeded
                     else if s.drop == DONE then CleanupPassed else CleanupFailed)
    && r.failure == (if s.create.Exit? && s.create.code != 0 then CreateExit(s.create.code)
                     else if s.create == DONE && s.restore.Exit? && s.restore.code != 0
                       then RestoreExit(s.restore.code)
                     else NoFailure)
    && (if s.create == DONE && s.restore.Exit? && s.restore.code != 0 then NoneRun(r.assertions, s.checks)
        else if Restores(s) && !CheckRaises(s.checks) then PassFailNotRun(r.assertions, s.checks)
        else r.assertions == [])
  }

  /** The `psql` loop: the results so far and whether a check failed or raised. */
  method RunChecks(checks: seq<Check>)
    returns (results: seq<AssertionResult>, failed: bool, raised: bool, commands: seq<Command>)
    ensures commands == PsqlCommands(Issued(checks))
    ensures raised <==> CheckRaises(checks)
    ensures !raised ==> PassFailNotRun(results, checks) && (failed <==> FirstBad(checks) < |checks|)
  {
    results, failed, commands := [], false, [];
    for i := 0 to |checks|
      invariant |results| == i
      invariant failed <==> FirstBad(checks) < i
      invariant failed ==> checks[FirstBad(checks)].psql.Exit?
      invariant commands == PsqlCommands(if failed then FirstBad(checks) + 1 else i)
      invariant forall j :: 0 <= j < i ==>
        && results[j].name == checks[j].name
        && results[j].status ==
             if j < FirstBad(checks) then Pass
             else if j == FirstBad(checks) && checks[j].psql.Exit? then Fail(checks[j].psql.code)
             else NotRun
    {
      if failed {
        results := results + [AssertionResult(checks[i].name, NotRun)];
        continue;
      }
      commands := commands + [Psql(i)];
      match checks[i].psql {
        case Raised =>
          return results, failed, true, commands;
        case Exit(code) =>
          if code == 0 {
            results := results + [AssertionResult(checks[i].name, Pass)];
          } else {
            results := results + [AssertionResult(checks[i].name, Fail(code))];
            failed := true;
          }
      }
    }
    raised := false;
  }

  /** `run_local_restore_drill` from `createdb` on.  The code after the `try` runs on every path out of
      it; a `dropdb` that raises ends the drill before its record is written. */
  method RunDrill(s: Script) returns (d: Drill)
    ensures d.commands == Commands(s)
    ensures d.raised <==> Raises(s)
    ensures d.written == None <==> s.create == DONE && s.drop == Raised
    ensures d.written.Some? ==> Describes(d.written.value, s)
  {
    var record := Record(false, NoFailure, false, NotNeeded, []);
    var created, raised := false, false;
    var commands := [CreateDb];
    if s.create == Raised {
      raised := true;
    } else if s.create.code != 0 {
      record := record.(failure := CreateExit(s.create.code));
    } else {
      created := true;
      commands := commands + [PgRestore];
      if s.restore == Raised {
        raised := true;
      } else if s.restore.code != 0 {
        record := record.(failure := RestoreExit(s.restore.code),
        assertions := seq(|s.checks|, i requires 0 <= i < |s.checks| => AssertionResult(s.checks[i].name, NotRun)));
      } else {
        var results, failed, checkRaised, psqls := RunChecks(s.checks);
        commands := commands + psqls;
        if checkRaised {
          raised := true;
        } else {
          record := record.(assertions := results);
          if s.checks != [] && !failed {
            record := record.(resultPassed := true);
          }
        }
      }
    }
    if created {
      commands := commands + [DropDb];
      if s.drop == Raised {
        return Drill(commands, None, true);
      }
      record := record.(cleanup := if s.drop.code == 0 then CleanupPassed else CleanupFailed);
    }
    if record.resultPassed && record.cleanup == CleanupPassed {
      record := record.(gatePassed := true);
    }
    return Drill(commands, Some(record), raised);
  }

  // ---------------------------------------------------------------------------------------
  // The whole drill, from its arguments to the record's acceptance
  // ---------------------------------------------------------------------------------------

  /** The archive file and what `pg_restore --list` says about it. */
  datatype Artifact = Artifact(
    name: string, regular: bool, sha256: string, magic: bool, listing: Outcome, format: Option<string>,
    entries: nat)

  datatype Request = Request(
    expectedSha256: string, targetDatabase: string, identifier: string, responsible: map<string, string>)

  datatype RecoveryError =
    | AssertionNotRegular | IdentifierMissing | ArtifactNotRegular | DigestMalformedError | ChecksumMismatch
    | NotCustomArchive | ListFailed | NotCustomFormat | EmptyContents | ListRaised

  /** A regular file with the expected digest that `pg_restore` lists as a non-empty custom archive. */
  predicate Sound(a: Artifact, expected: string) {
    && a.regular && IsSha256(expected) && a.sha256 == expected && a.magic && a.listing == DONE
    && a.format.Some? && Lower(a.format.value) == "custom" && a.entries > 0
  }

  /** `inspect_custom_archive` */
  method InspectArchive(a: Artifact, expected: string) returns (r: Result<string, RecoveryError>)
    ensures r.Ok? <==> Sound(a, expected)
    ensures r.Ok? ==> r.value == a.sha256
  {
    if !a.regular {
      return Err(ArtifactNotRegular);
    }
    if !IsSha256(expected) {
      return Err(DigestMalformedError);
    }
    if a.sha256 != expected {
      return Err(ChecksumMismatch);
    }
    if !a.magic {
      return Err(NotCustomArchive);
    }
    if a.listing == Raised {
      return Err(ListRaised);
    }
    if a.listing.code != 0 {
      return Err(ListFailed);
    }
    if a.format == None || Lower(a.format.value) != "custom" {
      return Err(NotCustomFormat);
    }
    if a.entries == 0 {
      return Err(EmptyContents);
    }
    return Ok(a.sha256);
  }

  function IntText(n: int): string {
    if n < 0 then "-" + Digits(-n) else Digits(n)
  }

  function AssertionJson(a: AssertionResult): Json {
    match a.status
    case Pass => Object(map["name" := Text(a.name), "status" := Text("pass")])
    case NotRun => Object(map["name" := Text(a.name), "status" := Text("not_run")])
    case Fail(code) =>
      Object(map["name" := Text(a.name), "status" := Text("fail"),
                 "error_class" := Text("psql_exit_" + IntText(code))])
  }

  function SourceJson(): Json {
    Object(map["environment" := Text("local"), "data_scope" := Text("synthetic_or_empty"),
               "provider" := Text("local_supabase")])
  }

  function BackupJson(q: Request, a: Artifact): Json {
    Object(map["identifier" := Text(q.identifier), "kind" := Text("custom_format_logical"),
               "checksum_mode" := Text("sha256"), "artifact_name" := Text(a.name), "sha256" := Text(a.sha256),
               "checksum_verified" := Bool(true), "toc_entry_count" := Number(a.entries),
               "toc_verified" := Bool(true)])
  }

  function RestoreJson(q: Request, r: Record): Json {
    var fields := map[
      "target_kind" := Text("disposable_local_database"), "target_database" := Text(q.targetDatabase),
      "result" := Text(if r.resultPassed then "pass" else "fail"),
      "cleanup_result" := Text(match r.cleanup
                               case NotNeeded => "not_needed"
                               case CleanupPassed => "pass"
                               case CleanupFailed => "fail"),
      "assertions" := List(seq(|r.assertions|,
                               i requires 0 <= i < |r.assertions| => AssertionJson(r.assertions[i])))];
    match r.failure
    case NoFailure => Object(fields)
    case CreateExit(code) => Object(fields["error_class" := Text("createdb_exit_" + IntText(code))])
    case RestoreExit(code) => Object(fields["error_class" := Text("pg_restore_exit_" + IntText(code))])
  }

  function AuthorizationJson(): Json {
    Object(map["live_write_status" := Text("not_authorized"), "approved_scope" := Text("local_disposable_only"),
               "approval_record" := Null])
  }

  /** The record as it is written. */
  function RecordJson(q: Request, a: Artifact, r: Record): Json {
    Object(map[
             "record_version" := Number(1),
             "gate_status" := Text(if r.gatePassed then "pass" else "blocked"),
             "source" := SourceJson(), "backup" := BackupJson(q, a), "restore" := RestoreJson(q, r),
             "responsible" := Object(map f | f in q.responsible :: Text(q.responsible[f])),
             "authorization" := AuthorizationJson()])
  }

  predicate Assigned(responsible: map<string, string>, field: string) {
    && field in responsible && Strip(responsible[field]) != ""
    && Lower(Strip(responsible[field])) !in UNASSIGNED
  }

  /** Each of the six owners is a person, not a placeholder. */
  predicate OwnersAssigned(responsible: map<string, string>) {
    forall i :: 0 <= i < |RESPONSIBLE| ==> Assigned(responsible, RESPONSIBLE[i])
  }

  lemma SectionsOf(q: Request, a: Artifact, r: Record)
    ensures var record := RecordJson(q, a, r);
            && VersionOne(record)
            && Get(record, "gate_status") == Text(if r.gatePassed then "pass" else "blocked")
            && Get(record, "source") == SourceJson() && Get(record, "backup") == BackupJson(q, a)
            && Get(record, "restore") == RestoreJson(q, r)
            && Get(record, "responsible") == Object(map f | f in q.responsible :: Text(q.responsible[f]))
  {
  }

  lemma OwnersOf(q: Request, a: Artifact, r: Record)
    ensures OwnersNamed(RecordJson(q, a, r)) <==> OwnersAssigned(q.responsible)
  {
    hide RecordJson, Strip, Lower;
    SectionsOf(q, a, r);
    var record := RecordJson(q, a, r);
    forall i | 0 <= i < |RESPONSIBLE|
      ensures Named(Owner(record, RESPONSIBLE[i])) <==> Assigned(q.responsible, RESPONSIBLE[i])
    {
    }
  }

  lemma EnvironmentOf(q: Request, a: Artifact, r: Record)
    ensures Environment(RecordJson(q, a, r)) == Text("local")
  {
    hide RecordJson, BackupJson, RestoreJson;
    SectionsOf(q, a, r);
  }

  lemma BackupOf(q: Request, a: Artifact, r: Record)
    requires Strip(q.identifier) != "" && IsSha256(a.sha256)
    ensures Vouched(RecordJson(q, a, r))
  {
    hide RecordJson, RestoreJson, SourceJson, Strip, IsSha256, ProviderVouches;
    SectionsOf(q, a, r);
    var record := RecordJson(q, a, r);
    assert Get(record, "backup") == BackupJson(q, a);
    assert At(record, "backup", "checksum_mode") == Text("sha256");
    assert At(record, "backup", "sha256") == Text(a.sha256);
    assert At(record, "backup", "identifier") == Text(q.identifier);
    assert At(record, "backup", "checksum_verified") == Bool(true);
    hide BackupJson, At, Get;
  }

  lemma RestoreOf(q: Request, a: Artifact, r: Record, s: Script)
    requires Describes(r, s) && r.gatePassed
    ensures Restored(RecordJson(q, a, r))
  {
    hide RecordJson;
    SectionsOf(q, a, r);
    var items := Assertions(RecordJson(q, a, r)).items;
    forall i | 0 <= i < |items| ensures Passed(items[i]) {
      assert r.assertions[i].status == Pass;
      assert items[i] == AssertionJson(r.assertions[i]);
    }
  }

  /** Whatever the commands did, the record written is accepted exactly when the six owners are
      assigned. */
  lemma WrittenRecordAcceptedIff(q: Request, a: Artifact, r: Record, s: Script)
    requires Describes(r, s) && Strip(q.identifier) != "" && IsSha256(a.sha256)
    ensures Accepted(RecordJson(q, a, r)) <==> OwnersAssigned(q.responsible)
    ensures ClaimsPass(RecordJson(q, a, r)) <==> EverythingPasses(s) && s.drop == DONE
  {
    var record := RecordJson(q, a, r);
    SectionsOf(q, a, r);
    assert "pass"[0] != "blocked"[0];
    assert !Live(record) by {
      EnvironmentOf(q, a, r);
      assert "local"[0] != "staging"[0] && "local"[0] != "production"[0];
    }
    assert ClaimsPass(record) <==> r.gatePassed;
    assert ClaimsPass(record) || Says(Get(record, "gate_status"), "blocked");
    EnvironmentOf(q, a, r);
    hide RecordJson, Describes, Vouched, Restored, Approved, OwnersNamed, Accepted, Live, ClaimsPass,
      OwnersAssigned, VersionOne;
    OwnersOf(q, a, r);
    BackupOf(q, a, r);
    if r.gatePassed {
      RestoreOf(q, a, r, s);
    }
    AcceptedIff(record);
  }

  /** The text is an error class: `name` followed by the exit code in decimal. */
  ghost predicate NamesExit(v: Json, name: string, code: int) {
    exists sign: string, digits: string ::
      && v == Text(name + sign + digits) && digits != "" && AllDigits(digits)
      && (if code < 0 then sign == "-" && ParseNat(digits) == -code else sign == "" && ParseNat(digits) == code)
  }

  lemma IntTextNames(name: string, code: int)
    ensures NamesExit(Text(name + IntText(code)), name, code)
  {
    hide ParseNat, Digits;
    if code < 0 {
      ParseDigits(-code);
      assert name + IntText(code) == name + "-" + Digits(-code);
    } else {
      ParseDigits(code);
      assert name + IntText(code) == name + "" + Digits(code);
    }
  }

  /** The entry of one assertion file, from how the earlier files and this one ended. */
  ghost predicate ShowsCheck(v: Json, s: Script, i: nat)
    requires i < |s.checks|
  {
    var check := s.checks[i];
    var reached := s.restore == DONE && forall j :: 0 <= j < i ==> s.checks[j].psql == DONE;
    && Says(Get(v, "name"), check.name)
    && (Says(Get(v, "status"), "pass") <==> reached && check.psql == DONE)
    && (Says(Get(v, "status"), "fail") <==> reached && check.psql != DONE)
    && (Says(Get(v, "status"), "not_run") <==> !reached)
    && (reached && check.psql.Exit? && check.psql.code != 0 ==>
          NamesExit(Get(v, "error_class"), "psql_exit_", check.psql.code))
  }

  /** The results listed: none before the restore is over or when a check raised, otherwise one for each file. */
  ghost predicate ShowsChecks(v: Json, s: Script) {
    && v.List?
    && if s.create != DONE || s.restore == Raised || (s.restore == DONE && CheckRaises(s.checks)) then v.items == []
       else |v.items| == |s.checks| && forall i :: 0 <= i < |s.checks| ==> ShowsCheck(v.items[i], s, i)
  }

  /** What the written record says of each command. */
  ghost predicate ShowsRun(record: Json, s: Script) {
    && (Says(At(record, "restore", "result"), "pass") <==> EverythingPasses(s))
    && (Says(At(record, "restore", "result"), "fail") <==> !EverythingPasses(s))
    && (Says(At(record, "restore", "cleanup_result"), "not_needed") <==> s.create != DONE)
    && (Says(At(record, "restore", "cleanup_result"), "pass") <==> s.create == DONE && s.drop == DONE)
    && (Says(At(record, "restore", "cleanup_result"), "fail") <==> s.create == DONE && s.drop != DONE)
    && ShowsChecks(Assertions(record), s)
    && ShowsFailure(At(record, "restore", "error_class"), s)
  }

  ghost predicate ShowsFailure(v: Json, s: Script) {
    if s.create.Exit? && s.create.code != 0 then NamesExit(v, "createdb_exit_", s.create.code)
    else if s.create == DONE && s.restore.Exit? && s.restore.code != 0 then
      NamesExit(v, "pg_restore_exit_", s.restore.code)
    else v == Null
  }

  lemma FailureOf(q: Request, r: Record, s: Script)
    requires Describes(r, s)
    ensures ShowsFailure(Get(RestoreJson(q, r), "error_class"), s)
  {
    if s.create.Exit? && s.create.code != 0 {
      IntTextNames("createdb_exit_", s.create.code);
    } else if s.create == DONE && s.restore.Exit? && s.restore.code != 0 {
      IntTextNames("pg_restore_exit_", s.restore.code);
    }
  }

  lemma StatusTexts()
    ensures "pass" != "fail" && "pass" != "not_run" && "fail" != "not_run"
    ensures "pass" != "not_needed" && "fail" != "not_needed"
  {
    assert "pass"[0] != "fail"[0] && "pass"[0] != "not_run"[0] && "fail"[0] != "not_run"[0];
    assert "not_needed"[0] != "pass"[0] && "not_needed"[0] != "fail"[0];
  }

  lemma CheckOf(a: AssertionResult, s: Script, i: nat)
    requires i < |s.checks| && a.name == s.checks[i].name
    requires s.restore != DONE ==> a.status == NotRun
    requires s.restore == DONE ==>
               && !CheckRaises(s.checks)
               && a.status == if i < FirstBad(s.checks) then Pass
                              else if i == FirstBad(s.checks) && s.checks[i].psql.Exit? then Fail(s.checks[i].psql.code)
                              else NotRun
    ensures ShowsCheck(AssertionJson(a), s, i)
  {
    StatusTexts();
    if a.status.Fail? {
      IntTextNames("psql_exit_", a.status.code);
    }
    hide IntText, NamesExit;
    assert Get(AssertionJson(a), "name") == Text(a.name);
    assert Get(AssertionJson(a), "status") ==
           Text(match a.status case Pass => "pass" case NotRun => "not_run" case Fail(_) => "fail");
  }

  lemma ChecksOf(q: Request, r: Record, s: Script)
    requires Describes(r, s)
    ensures ShowsChecks(Get(RestoreJson(q, r), "assertions"), s)
  {
    var v := Get(RestoreJson(q, r), "assertions");
    assert v.List? && |v.items| == |r.assertions|;
    assert forall i :: 0 <= i < |r.assertions| ==> v.items[i] == AssertionJson(r.assertions[i]);
    hide RestoreJson, ShowsCheck, AssertionJson;
    forall i | 0 <= i < |r.assertions| && |r.assertions| == |s.checks| && s.create == DONE && s.restore != Raised
               && !(s.restore == DONE && CheckRaises(s.checks))
      ensures ShowsCheck(v.items[i], s, i)
    {
      CheckOf(r.assertions[i], s, i);
    }
  }

  lemma RestoreShows(q: Request, r: Record, s: Script)
    requires Describes(r, s)
    ensures var v := RestoreJson(q, r);
            && Get(v, "result") == Text(if EverythingPasses(s) then "pass" else "fail")
            && Get(v, "cleanup_result") ==
               Text(if s.create != DONE then "not_needed" else if s.drop == DONE then "pass" else "fail")
  {
    hide AssertionJson, EverythingPasses, IntText;
  }

  /** Every label of the written record, from the commands' endings alone. */
  lemma WrittenRecordShowsRun(q: Request, a: Artifact, r: Record, s: Script)
    requires Describes(r, s)
    ensures ShowsRun(RecordJson(q, a, r), s)
  {
    hide EverythingPasses, RestoreJson, BackupJson, SourceJson, AuthorizationJson, Describes, ShowsChecks, ShowsFailure;
    SectionsOf(q, a, r);
    hide RecordJson;
    StatusTexts();
    ChecksOf(q, r, s);
    FailureOf(q, r, s);
    RestoreShows(q, r, s);
    var record, restore := RecordJson(q, a, r), RestoreJson(q, r);
    assert Get(record, "restore") == restore;
    hide Get;
  }

  /** What the written record says of the request, the archive and itself */
  ghost predicate ShowsRequest(v: Json, q: Request, a: Artifact) {
    && Reads(v, ["record_version"], Number(1))
    && Reads(v, ["source", "environment"], Text("local")) && Reads(v, ["source", "provider"], Text("local_supabase"))
    && Reads(v, ["source", "data_scope"], Text("synthetic_or_empty"))
    && Reads(v, ["restore", "target_kind"], Text("disposable_local_database"))
    && Reads(v, ["restore", "target_database"], Text(q.targetDatabase))
    && Reads(v, ["authorization", "live_write_status"], Text("not_authorized"))
    && Reads(v, ["authorization", "approved_scope"], Text("local_disposable_only"))
    && Reads(v, ["authorization", "approval_record"], Null)
    && ShowsArchive(v, q, a)
    && forall f :: Reads(v, ["responsible", f], if f in q.responsible then Text(q.responsible[f]) else Null)
  }

  ghost predicate ShowsArchive(v: Json, q: Request, a: Artifact) {
    && Reads(v, ["backup", "identifier"], Text(q.identifier)) && Reads(v, ["backup", "artifact_name"], Text(a.name))
    && Reads(v, ["backup", "kind"], Text("custom_format_logical"))
    && Reads(v, ["backup", "checksum_mode"], Text("sha256")) && Reads(v, ["backup", "sha256"], Text(a.sha256))
    && Reads(v, ["backup", "checksum_verified"], Bool(true)) && Reads(v, ["backup", "toc_verified"], Bool(true))
    && Reads(v, ["backup", "toc_entry_count"], Number(a.entries))
  }

  lemma SectionReads(v: Json, section: string, key: string, x: Json)
    requires Get(Get(v, section), key) == x
    ensures Reads(v, [section, key], x)
  {
    ReadsAt(v, section, key, x);
  }

  lemma ArchiveShown(v: Json, q: Request, a: Artifact)
    requires Get(v, "backup") == BackupJson(q, a)
    ensures ShowsArchive(v, q, a)
  {
    assert Get(BackupJson(q, a), "identifier") == Text(q.identifier);
    assert Get(BackupJson(q, a), "artifact_name") == Text(a.name);
    assert Get(BackupJson(q, a), "kind") == Text("custom_format_logical");
    assert Get(BackupJson(q, a), "checksum_mode") == Text("sha256");
    assert Get(BackupJson(q, a), "sha256") == Text(a.sha256);
    assert Get(BackupJson(q, a), "checksum_verified") == Bool(true);
    assert Get(BackupJson(q, a), "toc_verified") == Bool(true);
    assert Get(BackupJson(q, a), "toc_entry_count") == Number(a.entries);
    hide BackupJson, Get, Reads;
    SectionReads(v, "backup", "identifier", Text(q.identifier));
    SectionReads(v, "backup", "artifact_name", Text(a.name));
    SectionReads(v, "backup", "kind", Text("custom_format_logical"));
    SectionReads(v, "backup", "checksum_mode", Text("sha256"));
    SectionReads(v, "backup", "sha256", Text(a.sha256));
    SectionReads(v, "backup", "checksum_verified", Bool(true));
    SectionReads(v, "backup", "toc_verified", Bool(true));
    SectionReads(v, "backup", "toc_entry_count", Number(a.entries));
  }

  lemma SourceShown(v: Json)
    requires Get(v, "source") == SourceJson()
    ensures Reads(v, ["source", "environment"], Text("local")) && Reads(v, ["source", "provider"], Text("local_supabase"))
    ensures Reads(v, ["source", "data_scope"], Text("synthetic_or_empty"))
  {
    var section := SourceJson();
    assert Get(section, "environment") == Text("local") && Get(section, "provider") == Text("local_supabase");
    assert Get(section, "data_scope") == Text("synthetic_or_empty");
    hide SourceJson, Get, Reads;
    SectionReads(v, "source", "environment", Text("local"));
    SectionReads(v, "source", "provider", Text("local_supabase"));
    SectionReads(v, "source", "data_scope", Text("synthetic_or_empty"));
  }

  lemma TargetShown(v: Json, q: Request, r: Record)
    requires Get(v, "restore") == RestoreJson(q, r)
    ensures Reads(v, ["restore", "target_kind"], Text("disposable_local_database"))
    ensures Reads(v, ["restore", "target_database"], Text(q.targetDatabase))
  {
    hide AssertionJson, IntText, Reads;
    var section := RestoreJson(q, r);
    assert Get(section, "target_kind") == Text("disposable_local_database");
    assert Get(section, "target_database") == Text(q.targetDatabase);
    hide RestoreJson, Get;
    SectionReads(v, "restore", "target_kind", Text("disposable_local_database"));
    SectionReads(v, "restore", "target_database", Text(q.targetDatabase));
  }

  lemma AuthorizationShown(v: Json)
    requires Get(v, "authorization") == AuthorizationJson()
    ensures Reads(v, ["authorization", "live_write_status"], Text("not_authorized"))
    ensures Reads(v, ["authorization", "approved_scope"], Text("local_disposable_only"))
    ensures Reads(v, ["authorization", "approval_record"], Null)
  {
    var section := AuthorizationJson();
    assert Get(section, "live_write_status") == Text("not_authorized");
    assert Get(section, "approved_scope") == Text("local_disposable_only");
    assert Get(section, "approval_record") == Null;
    hide AuthorizationJson, Get, Reads;
    SectionReads(v, "authorization", "live_write_status", Text("not_authorized"));
    SectionReads(v, "authorization", "approved_scope", Text("local_disposable_only"));
    SectionReads(v, "authorization", "approval_record", Null);
  }

  lemma AuthorizationOf(q: Request, a: Artifact, r: Record)
    ensures Get(RecordJson(q, a, r), "authorization") == AuthorizationJson()
    ensures Get(RecordJson(q, a, r), "record_version") == Number(1)
  {
    hide BackupJson, RestoreJson, SourceJson, AuthorizationJson;
  }

  lemma ResponsibleShown(v: Json, responsible: map<string, string>)
    requires Get(v, "responsible") == Object(map f | f in responsible :: Text(responsible[f]))
    ensures forall f :: Reads(v, ["responsible", f], if f in responsible then Text(responsible[f]) else Null)
  {
    hide Reads;
    var section := Get(v, "responsible");
    assert forall f :: Get(section, f) == if f in responsible then Text(responsible[f]) else Null;
    hide Get;
    forall f ensures Reads(v, ["responsible", f], if f in responsible then Text(responsible[f]) else Null) {
      SectionReads(v, "responsible", f, if f in responsible then Text(responsible[f]) else Null);
    }
  }

  lemma WrittenRecordShowsRequest(q: Request, a: Artifact, r: Record)
    ensures ShowsRequest(RecordJson(q, a, r), q, a)
  {
    hide RecordJson, BackupJson, RestoreJson, SourceJson, AuthorizationJson, Reads, ShowsArchive, Get;
    var v := RecordJson(q, a, r);
    SectionsOf(q, a, r);
    AuthorizationOf(q, a, r);
    ReadsGet(v, "record_version", Number(1));
    ArchiveShown(v, q, a);
    SourceShown(v);
    TargetShown(v, q, r);
    AuthorizationShown(v);
    ResponsibleShown(v, q.responsible);
  }

  /** The description leaves nothing of the record open. */
  lemma OneRecordPerRun(r: Record, t: Record, s: Script)
    requires Describes(r, s) && Describes(t, s)
    ensures r == t
  {
    assert forall i :: 0 <= i < |r.assertions| ==> r.assertions[i] == t.assertions[i];
    assert r.assertions == t.assertions;
  }

  datatype AssertionFile = AssertionFile(name: string, regular: bool)

  /** What a call of `run_local_restore_drill` leaves behind. */
  datatype Finished = Finished(drill: Drill, report: Option<Json>)

  /** `run_local_restore_drill`.  Nothing is issued unless the files, the identifier and the archive are
      in order; the report written then is accepted exactly when the six owners are assigned, and it
      claims a pass exactly when every command succeeded and something was checked. */
  method RunLocalRestoreDrill(q: Request, a: Artifact, files: seq<AssertionFile>, s: Script)
    returns (r: Result<Finished, RecoveryError>)
    requires |files| == |s.checks| && forall i :: 0 <= i < |files| ==> files[i].name == s.checks[i].name
    ensures r.Ok? <==>
              && (forall i :: 0 <= i < |files| ==> files[i].regular)
              && Strip(q.identifier) != "" && Sound(a, q.expectedSha256)
    ensures r.Ok? ==> r.value.drill.commands == Commands(s) && (r.value.drill.raised <==> Raises(s))
    ensures r.Ok? ==> (r.value.report == None <==> s.create == DONE && s.drop == Raised)
    ensures r.Ok? && r.value.report.Some? ==>
              && (Accepted(r.value.report.value) <==> OwnersAssigned(q.responsible))
              && (ClaimsPass(r.value.report.value) <==> EverythingPasses(s) && s.drop == DONE)
              && ShowsRun(r.value.report.value, s) && ShowsRequest(r.value.report.value, q, a)
  {
    hide ShowsRun, ShowsRequest, Accepted, OwnersAssigned, ClaimsPass, RecordJson, Describes, Commands, Raises, EverythingPasses;
    for i := 0 to |files|
      invariant forall j :: 0 <= j < i ==> files[j].regular
    {
      if !files[i].regular {
        return Err(AssertionNotRegular);
      }
    }
    if Strip(q.identifier) == "" {
      return Err(IdentifierMissing);
    }
    var archive := InspectArchive(a, q.expectedSha256);
    if archive.Err? {
      return Err(archive.error);
    }
    var drill := RunDrill(s);
    if drill.written == None {
      return Ok(Finished(drill, None));
    }
    WrittenRecordAcceptedIff(q, a, drill.written.value, s);
    WrittenRecordShowsRun(q, a, drill.written.value, s);
    WrittenRecordShowsRequest(q, a, drill.written.value);
    return Ok(Finished(drill, Some(RecordJson(q, a, drill.written.value))));
  }
}
