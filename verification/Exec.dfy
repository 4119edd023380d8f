/** Exec credential derivation and its revalidation at the point of no return
    (crates/cred/src/exec.rs). */
module Exec {
  import opened Wrappers
  import opened IdMaps
  import opened Credentials

  const MODE_SET_UID: nat := 11
  const MODE_SET_GID: nat := 10
  const MODE_GROUP_EXECUTE: nat := 3

  datatype Owner = Owner(uid: nat, gid: nat)

  datatype FileCaps = FileCaps(permitted: Bits, inheritable: Bits, effective: bool, rootid: nat)

  /** Frozen facts about the executable; `traced` is a tracing relationship that suppresses privilege. */
  datatype ExecInput = ExecInput(
    mode: Bits,
    owner: Option<Owner>,
    honorsFilePrivilege: bool,
    traced: bool,
    fileCaps: Option<FileCaps>)

  datatype Maps = Maps(uid: IdMap, gid: IdMap)

  datatype Proposal = Proposal(prior: Credential, proposed: Credential, input: ExecInput, privilegeSensitive: bool)

  // ---------- The rules ----------

  /** Set-ID bits count only if both owner IDs are visible in the namespace. */
  function MappedOwner(maps: Maps, input: ExecInput): Option<Owner> {
    if input.owner.Some?
       && Translate(maps.uid.reverse, input.owner.value.uid, Lower).Some?
       && Translate(maps.gid.reverse, input.owner.value.gid, Lower).Some?
    then input.owner else None
  }

  function SetIds(prior: Credential, maps: Maps, input: ExecInput): Ids {
    var owner := MappedOwner(maps, input);
    if owner.Some? && input.honorsFilePrivilege && !prior.noNewPrivs then
      prior.ids.(
        euid := if MODE_SET_UID in input.mode then owner.value.uid else prior.ids.euid,
        egid := if MODE_SET_GID in input.mode && MODE_GROUP_EXECUTE in input.mode then owner.value.gid else prior.ids.egid)
    else prior.ids
  }

  predicate IdChanged(prior: Credential, ids: Ids) {
    ids.euid != prior.ids.euid || (ids.egid != prior.ids.fsgid && ids.egid !in prior.groups)
  }

  /** The file-capability record, unless the mount or the namespace ignores it. */
  function HonouredFile(prior: Credential, root: Option<nat>, input: ExecInput): Option<FileCaps> {
    if input.honorsFilePrivilege && input.fileCaps.Some? && FileRootOwns(prior.userNs, root, input.fileCaps.value.rootid)
    then input.fileCaps else None
  }

  /** Legacy root semantics, off under NOROOT and for a setuid-root file with its own record. */
  predicate RootCompat(prior: Credential, root: Option<nat>, ids: Ids, file: Option<FileCaps>) {
    && SECBIT_NOROOT !in prior.caps.securebits
    && (root == Some(ids.ruid) || root == Some(ids.euid))
    && !(file.Some? && root != Some(ids.ruid) && root == Some(ids.euid))
  }

  /** The file sets as exec uses them: a root program counts as having every capability. */
  datatype FileSets = Every(effective: bool) | Only(permitted: Bits, inheritable: Bits, effective: bool)

  function FileSetsOf(prior: Credential, root: Option<nat>, ids: Ids, file: Option<FileCaps>): FileSets {
    var effective := file.Some? && file.value.effective;
    if RootCompat(prior, root, ids, file) then Every(effective || root == Some(ids.euid))
    else if file.Some? then Only(file.value.permitted, file.value.inheritable, effective)
    else Only({}, {}, false)
  }

  /** P(inheritable) & F(inheritable) | P(bounding) & F(permitted). */
  function Granted(c: Caps, f: FileSets): Bits {
    match f
    case Every(_) => c.bounding + c.inheritable
    case Only(permitted, inheritable, _) => c.bounding * permitted + c.inheritable * inheritable
  }

  /** Everything that does not depend on the tracing state. */
  datatype Facts = Facts(ids: Ids, idChanged: bool, file: Option<FileCaps>, sets: FileSets, sensitive: bool)

  function FactsOf(prior: Credential, maps: Maps, input: ExecInput): Facts {
    var root := Translate(maps.uid.forward, 0, Upper);
    var ids := SetIds(prior, maps, input);
    var file := HonouredFile(prior, root, input);
    var sets := FileSetsOf(prior, root, ids, file);
    Facts(ids, IdChanged(prior, ids), file, sets, IdChanged(prior, ids) || !(Granted(prior.caps, sets) <= prior.caps.permitted))
  }

  /** A file that demands effective capabilities it cannot have must not run. */
  predicate Refused(prior: Credential, f: Facts) {
    && f.file.Some? && f.file.value.effective
    && !(f.file.value.permitted <= prior.caps.bounding * f.file.value.permitted + prior.caps.inheritable * f.file.value.inheritable)
  }

  /** The new capability sets, with the granted set narrowed when the transition is unsafe. */
  function NewCaps(prior: Credential, f: Facts, traced: bool): Caps {
    var c := prior.caps;
    var unsafe := f.sensitive && (prior.noNewPrivs || traced);
    var granted := if unsafe then Granted(c, f.sets) * c.permitted else Granted(c, f.sets);
    var ambient := if f.file.Some? || f.idChanged then {} else c.ambient;
    var permitted := granted + ambient;
    Caps(if f.sets.effective then permitted else ambient, permitted, c.inheritable, c.bounding,
         ambient * permitted * c.inheritable, c.securebits - {SECBIT_KEEP_CAPS})
  }

  function NewIds(prior: Credential, f: Facts, traced: bool): Ids {
    var downgraded := f.sensitive && (prior.noNewPrivs || traced) && (prior.noNewPrivs || CAP_SETUID !in prior.caps.effective);
    var ids := if downgraded then f.ids.(euid := f.ids.ruid, egid := f.ids.rgid) else f.ids;
    ids.(suid := ids.euid, fsuid := ids.euid, sgid := ids.egid, fsgid := ids.egid)
  }

  function NewCredential(prior: Credential, maps: Maps, input: ExecInput): Credential {
    var f := FactsOf(prior, maps, input);
    prior.(ids := NewIds(prior, f, input.traced), caps := NewCaps(prior, f, input.traced))
  }

  // ---------- Derivation never goes wrong ----------

  /** The derived sets are valid and lawful to install over the old ones. */
  lemma NewCapsLawful(prior: Credential, f: Facts, traced: bool)
    requires ValidCaps(prior.caps)
    ensures ValidCaps(NewCaps(prior, f, traced))
    ensures LawfulReplacement(prior, NewCaps(prior, f, traced), prior.noNewPrivs, prior.userNs, ExecClearsKeepCaps)
  {
  }

  /** Applies the set-ID bits. */
  method ApplySetIds(prior: Credential, maps: Maps, input: ExecInput) returns (ids: Ids)
    requires ValidMap(maps.uid) && ValidMap(maps.gid)
    ensures ids == SetIds(prior, maps, input)
  {
    hide ValidMap, Translate;
    var mappedOwner: Option<Owner> := None;
    if input.owner.Some? {
      var uid := MapIdFromKernel(maps.uid, input.owner.value.uid);
      var gid := MapIdFromKernel(maps.gid, input.owner.value.gid);
      if uid.Some? && gid.Some? {
        mappedOwner := input.owner;
      }
    }
    var setUid := mappedOwner.Some? && MODE_SET_UID in input.mode;
    var setGid := mappedOwner.Some? && MODE_SET_GID in input.mode && MODE_GROUP_EXECUTE in input.mode;
    ids := prior.ids;
    if input.honorsFilePrivilege && !prior.noNewPrivs && mappedOwner.Some? {
      if setUid {
        ids := ids.(euid := mappedOwner.value.uid);
      }
      if setGid {
        ids := ids.(egid := mappedOwner.value.gid);
      }
    }
  }

  /** Combines the file's sets with the old ones, before any downgrade. */
  method GrantPermitted(prior: Credential, root: Option<nat>, ids: Ids, file: Option<FileCaps>)
    returns (refused: bool, permitted: Bits, effective: bool)
    ensures refused <==>
      && file.Some? && file.value.effective
      && exists c :: c in file.value.permitted && c !in prior.caps.bounding && !(c in prior.caps.inheritable && c in file.value.inheritable)
    ensures !refused ==> permitted == Granted(prior.caps, FileSetsOf(prior, root, ids, file))
    ensures !refused ==> effective == FileSetsOf(prior, root, ids, file).effective
  {
    var caps := prior.caps;
    var filePermitted, fileInheritable := {}, {};
    effective := false;
    if file.Some? {
      filePermitted, fileInheritable, effective := file.value.permitted, file.value.inheritable, file.value.effective;
    }
    permitted := caps.bounding * filePermitted + caps.inheritable * fileInheritable;
    if effective && !(filePermitted <= permitted) {
      return true, permitted, effective;
    }
    var setuidRoot := root != Some(ids.ruid) && root == Some(ids.euid);
    if SECBIT_NOROOT !in caps.securebits && (root == Some(ids.ruid) || root == Some(ids.euid)) && !(file.Some? && setuidRoot) {
      permitted := caps.bounding + caps.inheritable;
      if root == Some(ids.euid) {
        effective := true;
      }
    }
    return false, permitted, effective;
  }

  /** Derives the proposal step by step. From a valid credential it fails exactly when a file's
      forced effective capabilities cannot be supplied. */
  method DeriveExecCredential(prior: Credential, maps: Maps, input: ExecInput) returns (r: Result<Proposal, CredError>)
    requires ValidCaps(prior.caps) && ValidMap(maps.uid) && ValidMap(maps.gid)
    ensures
      var f := FactsOf(prior, maps, input);
      r == if Refused(prior, f) then Err(NotPermitted)
           else Ok(Proposal(prior, NewCredential(prior, maps, input), input, f.sensitive))
  {
    hide ValidMap, ValidCaps, Translate, SetIds, FileRootOwns, FileSetsOf, LawfulReplacement, Granted;
    var root := MapIdToKernel(maps.uid, 0);
    var caps := prior.caps;
    var ids := ApplySetIds(prior, maps, input);
    var idChanged := ids.euid != prior.ids.euid || (ids.egid != prior.ids.fsgid && ids.egid !in prior.groups);
    var file: Option<FileCaps> := None;
    if input.honorsFilePrivilege && input.fileCaps.Some? {
      var owns := FileRootOwnsNamespace(prior.userNs, root, input.fileCaps.value.rootid);
      if owns {
        file := input.fileCaps;
      }
    }
    var refused, permitted, fileEffective := GrantPermitted(prior, root, ids, file);
    if refused {
      return Err(NotPermitted);
    }
    var sensitive := idChanged || !(permitted <= caps.permitted);
    ghost var f := FactsOf(prior, maps, input);
    if sensitive && (prior.noNewPrivs || input.traced) {
      if prior.noNewPrivs || CAP_SETUID !in caps.effective {
        ids := ids.(euid := ids.ruid, egid := ids.rgid);
      }
      permitted := permitted * caps.permitted;
    }
    ids := ids.(suid := ids.euid, fsuid := ids.euid, sgid := ids.egid, fsgid := ids.egid);
    var ambient := if file.Some? || idChanged then {} else caps.ambient;
    permitted := permitted + ambient;
    var effective := if fileEffective then permitted else ambient;
    ambient := ambient * permitted * caps.inheritable;
    var newCaps := Caps(effective, permitted, caps.inheritable, caps.bounding, ambient, caps.securebits - {SECBIT_KEEP_CAPS});
    NewCapsLawful(prior, f, input.traced);
    var proposed := TryFromTransition(prior, ids, prior.groups, newCaps, prior.noNewPrivs, prior.userNs, ExecClearsKeepCaps);
    return Ok(Proposal(prior, proposed.value, input, sensitive));
  }

  // ---------- What exec means for capabilities ----------

  /** Every capability there is. */
  function EveryCap(): Bits {
    set c: nat | c <= CAP_LAST_CAP && IsCap(c)
  }

  predicate IsCap(c: nat) {
    c <= CAP_LAST_CAP
  }

  /** Set-ID bits and file records count only where the mount honours them. */
  lemma NosuidIgnoresTheFile(prior: Credential, maps: Maps, input: ExecInput)
    requires !input.honorsFilePrivilege
    ensures
      var bare := input.(fileCaps := None, owner := None);
      && NewCredential(prior, maps, input) == NewCredential(prior, maps, bare)
      && FactsOf(prior, maps, input).sensitive == FactsOf(prior, maps, bare).sensitive
      && !Refused(prior, FactsOf(prior, maps, input)) && !Refused(prior, FactsOf(prior, maps, bare))
  {
    hide Translate;
  }

  /** What the file does to the effective IDs: a set-ID bit counts on a mount that honours it, without
      no_new_privs, for an owner whose two IDs are both mapped; set-group-ID also needs group execute. */
  ghost predicate FileIds(prior: Credential, maps: Maps, input: ExecInput, euid: nat, egid: nat) {
    var admitted :=
      && input.honorsFilePrivilege && !prior.noNewPrivs && input.owner.Some?
      && Translate(maps.uid.reverse, input.owner.value.uid, Lower).Some?
      && Translate(maps.gid.reverse, input.owner.value.gid, Lower).Some?;
    && euid == (if admitted && MODE_SET_UID in input.mode then input.owner.value.uid else prior.ids.euid)
    && egid == (if admitted && MODE_SET_GID in input.mode && MODE_GROUP_EXECUTE in input.mode
                then input.owner.value.gid else prior.ids.egid)
  }

  /** The record counts on a mount that honours it, if its root is this namespace's or an ancestor's.
      The search goes up while levels fall. */
  ghost predicate RecordCounts(prior: Credential, maps: Maps, input: ExecInput) {
    && input.honorsFilePrivilege && input.fileCaps.Some?
    && (|| Translate(maps.uid.forward, 0, Upper) == Some(input.fileCaps.value.rootid)
        || if WellLevelled(prior.userNs) then RootAbove(prior.userNs, input.fileCaps.value.rootid)
           else WalkFinds(prior.userNs, input.fileCaps.value.rootid))
  }

  /** The record that counts, if any. */
  ghost predicate FileRecord(prior: Credential, maps: Maps, input: ExecInput, record: Option<FileCaps>) {
    if RecordCounts(prior, maps, input) then record == input.fileCaps else record == None
  }

  /** A root program counts as carrying every capability, unless a set-user-ID-root file brings its own record. */
  predicate AsRoot(prior: Credential, root: Option<nat>, euid: nat, record: Option<FileCaps>) {
    SECBIT_NOROOT !in prior.caps.securebits && (root == Some(prior.ids.ruid) || (root == Some(euid) && record.None?))
  }

  /** P(inheritable) & F(inheritable) | F(permitted) & P(bounding), with F read off the file. */
  function Formula(p: Caps, asRoot: bool, record: Option<FileCaps>): Bits {
    var fPermitted := if asRoot then EveryCap() else if record.Some? then record.value.permitted else {};
    var fInheritable := if asRoot then EveryCap() else if record.Some? then record.value.inheritable else {};
    p.inheritable * fInheritable + fPermitted * p.bounding
  }

  predicate NewIdentity(prior: Credential, euid: nat, egid: nat) {
    euid != prior.ids.euid || (egid != prior.ids.fsgid && egid !in prior.groups)
  }

  /** The transformation of capabilities(7), "Transformation of capabilities during execve()". Under
      no_new_privs or a suppressing tracer the formula is cut to what was permitted before. */
  lemma MatchesManualPage(prior: Credential, maps: Maps, input: ExecInput, euid: nat, egid: nat, record: Option<FileCaps>)
    requires ValidCaps(prior.caps) && FileIds(prior, maps, input, euid, egid) && FileRecord(prior, maps, input, record)
    ensures
      var root := Translate(maps.uid.forward, 0, Upper);
      var p, p' := prior.caps, NewCredential(prior, maps, input).caps;
      var asRoot := AsRoot(prior, root, euid, record);
      var formula := Formula(p, asRoot, record);
      var fEffective := (asRoot && root == Some(euid)) || (record.Some? && record.value.effective);
      && p'.ambient == (if record.Some? || NewIdentity(prior, euid, egid) then {} else p.ambient)
      && p'.permitted == (if prior.noNewPrivs || input.traced then formula * p.permitted else formula) + p'.ambient
      && p'.effective == (if fEffective then p'.permitted else p'.ambient)
      && p'.inheritable == p.inheritable && p'.bounding == p.bounding
      && p'.securebits == p.securebits - {SECBIT_KEEP_CAPS}
  {
    hide Translate, Formula, EveryCap;
    FactsFromTheFile(prior, maps, input, euid, egid, record);
  }

  /** The rest of the credential: real IDs and groups stay; saved and filesystem IDs follow the effective
      ones; effective IDs come from the file, but a sensitive exec under no_new_privs or a suppressing
      tracer gives them up, unless the tracee could set its user ID anyway. Exec is refused exactly when
      a record that forces its capabilities asks for one it cannot have. */
  lemma ExecIdentity(prior: Credential, maps: Maps, input: ExecInput, euid: nat, egid: nat, record: Option<FileCaps>)
    requires ValidCaps(prior.caps) && FileIds(prior, maps, input, euid, egid) && FileRecord(prior, maps, input, record)
    ensures
      var before, next, root := prior.ids, NewCredential(prior, maps, input), Translate(maps.uid.forward, 0, Upper);
      var formula := Formula(prior.caps, AsRoot(prior, root, euid, record), record);
      var sensitive := NewIdentity(prior, euid, egid) || !(formula <= prior.caps.permitted);
      var givenUp := sensitive && (prior.noNewPrivs || (input.traced && CAP_SETUID !in prior.caps.effective));
      && next.groups == prior.groups && next.userNs == prior.userNs && next.noNewPrivs == prior.noNewPrivs
      && next.ids.ruid == before.ruid && next.ids.rgid == before.rgid
      && next.ids.euid == next.ids.suid == next.ids.fsuid == (if givenUp then before.ruid else euid)
      && next.ids.egid == next.ids.sgid == next.ids.fsgid == (if givenUp then before.rgid else egid)
      && FactsOf(prior, maps, input).sensitive == sensitive
      && (Refused(prior, FactsOf(prior, maps, input)) <==>
            record.Some? && record.value.effective && !(record.value.permitted <= Formula(prior.caps, false, record)))
  {
    hide Translate, EveryCap;
    FactsFromTheFile(prior, maps, input, euid, egid, record);
  }

  lemma FactsFromTheFile(prior: Credential, maps: Maps, input: ExecInput, euid: nat, egid: nat, record: Option<FileCaps>)
    requires ValidCaps(prior.caps) && FileIds(prior, maps, input, euid, egid) && FileRecord(prior, maps, input, record)
    ensures
      var root, f := Translate(maps.uid.forward, 0, Upper), FactsOf(prior, maps, input);
      var asRoot := AsRoot(prior, root, euid, record);
      && f.ids == prior.ids.(euid := euid, egid := egid) && f.idChanged == NewIdentity(prior, euid, egid) && f.file == record
      && Granted(prior.caps, f.sets) == Formula(prior.caps, asRoot, record)
      && f.sets.effective == ((asRoot && root == Some(euid)) || (record.Some? && record.value.effective))
  {
    hide Translate, RecordCounts, HonouredFile, SetIds, FileIds;
    RecordIsHonoured(prior, maps, input);
    IdsFromTheFile(prior, maps, input, euid, egid);
    assert prior.caps.inheritable * EveryCap() == prior.caps.inheritable;
    assert EveryCap() * prior.caps.bounding == prior.caps.bounding;
  }

  lemma RecordIsHonoured(prior: Credential, maps: Maps, input: ExecInput)
    ensures HonouredFile(prior, Translate(maps.uid.forward, 0, Upper), input) ==
            if RecordCounts(prior, maps, input) then input.fileCaps else None
    ensures RecordCounts(prior, maps, input) ==> input.fileCaps.Some?
  {
    hide Translate;
    if input.fileCaps.Some? && WellLevelled(prior.userNs) {
      WalkFindsRoots(prior.userNs, input.fileCaps.value.rootid);
    }
  }

  lemma IdsFromTheFile(prior: Credential, maps: Maps, input: ExecInput, euid: nat, egid: nat)
    requires FileIds(prior, maps, input, euid, egid)
    ensures SetIds(prior, maps, input) == prior.ids.(euid := euid, egid := egid)
  {
    hide Translate;
  }

  /** Under no_new_privs or a suppressing tracer, exec never adds to the permitted set. */
  lemma UnsafeExecGainsNothing(prior: Credential, f: Facts, traced: bool)
    requires ValidCaps(prior.caps) && (prior.noNewPrivs || traced)
    requires f.sensitive <==> f.idChanged || !(Granted(prior.caps, f.sets) <= prior.caps.permitted)
    ensures NewCaps(prior, f, traced).permitted <= prior.caps.permitted
  {
  }

  /** Exec adds to the permitted set exactly when nothing suppresses it and the file's grant is not already permitted. */
  lemma GainsExactlyWhen(prior: Credential, f: Facts, traced: bool)
    requires ValidCaps(prior.caps)
    requires f.sensitive <==> f.idChanged || !(Granted(prior.caps, f.sets) <= prior.caps.permitted)
    ensures NewCaps(prior, f, traced).permitted <= prior.caps.permitted <==>
            prior.noNewPrivs || traced || Granted(prior.caps, f.sets) <= prior.caps.permitted
  {
  }

  /** What the post-derivation authorization demands. */
  predicate Authorized(p: Proposal) {
    && p.prior.userNs == p.proposed.userNs && p.prior.noNewPrivs == p.proposed.noNewPrivs
    && (p.prior.noNewPrivs || p.input.traced ==> p.proposed.caps.permitted <= p.prior.caps.permitted)
  }

  method CommoncapExecTransition(p: Proposal) returns (r: Result<(), CredError>)
    ensures r == if Authorized(p) then Ok(()) else Err(NotPermitted)
  {
    if p.prior.userNs != p.proposed.userNs || p.prior.noNewPrivs != p.proposed.noNewPrivs {
      return Err(NotPermitted);
    }
    if (p.prior.noNewPrivs || p.input.traced) && !(p.proposed.caps.permitted <= p.prior.caps.permitted) {
      return Err(NotPermitted);
    }
    return Ok(());
  }

  /** Every credential that derivation yields is valid and passes the authorization check. */
  lemma DerivedIsAuthorized(prior: Credential, maps: Maps, input: ExecInput)
    requires ValidCaps(prior.caps)
    ensures ValidCaps(NewCredential(prior, maps, input).caps)
    ensures Authorized(Proposal(prior, NewCredential(prior, maps, input), input, FactsOf(prior, maps, input).sensitive))
  {
  }

  // ---------- Tracing: two runs of the same derivation ----------

  predicate IsStale(privilegeSensitive: bool, preparedTraced: bool, currentTraced: bool) {
    privilegeSensitive && !preparedTraced && currentTraced
  }

  /** Tracing only narrows: the frozen facts do not depend on it, an insensitive exec is not
      affected by it at all, and a sensitive one never gains from it. */
  lemma TracingOnlyNarrows(prior: Credential, maps: Maps, input: ExecInput)
    ensures FactsOf(prior, maps, input.(traced := true)) == FactsOf(prior, maps, input.(traced := false))
    ensures
      var calm, watched := NewCredential(prior, maps, input.(traced := false)), NewCredential(prior, maps, input.(traced := true));
      && (!FactsOf(prior, maps, input).sensitive ==> watched == calm)
      && watched.caps.permitted <= calm.caps.permitted
      && watched.caps.effective <= calm.caps.effective
      && watched.caps.ambient == calm.caps.ambient
  {
  }

  /** A proposal goes stale only by a suppressing tracer that came after a sensitive derivation without one. */
  lemma StaleOnlyByNewTracer(sensitive: bool, prepared: bool, now: bool)
    ensures !IsStale(false, prepared, now) && !IsStale(sensitive, true, now) && !IsStale(sensitive, prepared, false)
    ensures IsStale(true, false, true)
  {
  }

  /** A proposal that is not stale at commit grants no more than deriving it again there would. */
  lemma FreshProposalGrantsNoMore(prior: Credential, maps: Maps, input: ExecInput, now: bool)
    requires !IsStale(FactsOf(prior, maps, input).sensitive, input.traced, now)
    ensures
      var proposed, again := NewCredential(prior, maps, input), NewCredential(prior, maps, input.(traced := now));
      proposed.caps.permitted <= again.caps.permitted && proposed.caps.effective <= again.caps.effective
  {
  }
}
