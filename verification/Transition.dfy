/** Planners for set*id and capset, and what every run of credential changes
    keeps (crates/cred/src/transition.rs). */
module Transitions {
  import opened Wrappers
  import opened IdMaps
  import opened Credentials
  import opened Exec

  /** The four system calls; they exist for user IDs and for group IDs. */
  datatype IdInput =
    | Set(id: nat)
    | SetRe(realId: Option<nat>, effective: Option<nat>)
    | SetRes(realId: Option<nat>, effective: Option<nat>, saved: Option<nat>)
    | SetFs(fs: nat)

  datatype Quad = Quad(realId: nat, effective: nat, saved: nat, fs: nat)

  datatype Plan = Plan(ids: Ids, caps: Caps)

  function Or(value: Option<nat>, default: nat): nat {
    if value.Some? then value.value else default
  }

  predicate NoneOr(value: Option<nat>, allowed: set<nat>) {
    value.Some? ==> value.value in allowed
  }

  // ---------- Capability fixups ----------

  /** CHOWN, MKNOD, DAC_OVERRIDE, DAC_READ_SEARCH, FOWNER, FSETID, MAC_OVERRIDE and LINUX_IMMUTABLE. */
  const FILESYSTEM_CAPABILITIES: seq<nat> := [0, 27, 1, 2, 3, 4, 32, 9]

  function FilesystemCaps(): Bits {
    Seen(FILESYSTEM_CAPABILITIES)
  }

  function Seen(caps: seq<nat>): Bits {
    set c | c in caps
  }

  /** What leaving or taking the root UID does to the sets. */
  function FixupUid(root: Option<nat>, before: Ids, after: Ids, c: Caps): Caps {
    if (before.ruid == after.ruid && before.euid == after.euid && before.suid == after.suid) || SECBIT_NO_SETUID_FIXUP in c.securebits then c
    else
      var hadRoot := root in {Some(before.ruid), Some(before.euid), Some(before.suid)};
      var hasRoot := root in {Some(after.ruid), Some(after.euid), Some(after.suid)};
      var dropped := hadRoot && !hasRoot;
      var cleared := dropped && SECBIT_KEEP_CAPS !in c.securebits;
      var permitted := if cleared then {} else c.permitted;
      var effective :=
        if root != Some(before.euid) && root == Some(after.euid) then permitted
        else if cleared || (root == Some(before.euid) && root != Some(after.euid)) then {}
        else c.effective;
      c.(permitted := permitted, effective := effective, ambient := if dropped then {} else c.ambient)
  }

  /** What leaving or taking the root filesystem UID does to the effective set. */
  function FixupFsuid(root: Option<nat>, before: nat, after: nat, c: Caps): Caps {
    if before == after || SECBIT_NO_SETUID_FIXUP in c.securebits then c
    else if root == Some(before) && root != Some(after) then c.(effective := c.effective - FilesystemCaps())
    else if root != Some(before) && root == Some(after) then c.(effective := c.effective + FilesystemCaps() * c.permitted)
    else c
  }

  /** The fixup in the order the rules apply: clearing first, then the effective set follows the effective UID. */
  method FixupUidCapabilities(root: Option<nat>, before: Ids, after: Ids, c: Caps) returns (r: Caps)
    ensures r == FixupUid(root, before, after, c)
  {
    if (before.ruid == after.ruid && before.euid == after.euid && before.suid == after.suid) || SECBIT_NO_SETUID_FIXUP in c.securebits {
      return c;
    }
    var effective, permitted, ambient := c.effective, c.permitted, c.ambient;
    var hadRoot := root in {Some(before.ruid), Some(before.euid), Some(before.suid)};
    var hasRoot := root in {Some(after.ruid), Some(after.euid), Some(after.suid)};
    if hadRoot && !hasRoot {
      if SECBIT_KEEP_CAPS !in c.securebits {
        permitted, effective := {}, {};
      }
      ambient := {};
    }
    if root == Some(before.euid) && root != Some(after.euid) {
      effective := {};
    }
    if root != Some(before.euid) && root == Some(after.euid) {
      effective := permitted;
    }
    return c.(effective := effective, permitted := permitted, ambient := ambient);
  }

  /** The fixup one filesystem capability at a time. */
  method FixupFsuidCapabilities(root: Option<nat>, before: nat, after: nat, c: Caps) returns (r: Caps)
    ensures r == FixupFsuid(root, before, after, c)
  {
    if before == after || SECBIT_NO_SETUID_FIXUP in c.securebits {
      return c;
    }
    var effective := c.effective;
    for i := 0 to |FILESYSTEM_CAPABILITIES|
      invariant root == Some(before) && root != Some(after) ==> effective == c.effective - Seen(FILESYSTEM_CAPABILITIES[..i])
      invariant root != Some(before) && root == Some(after) ==> effective == c.effective + Seen(FILESYSTEM_CAPABILITIES[..i]) * c.permitted
      invariant (root == Some(before)) == (root == Some(after)) ==> effective == c.effective
    {
      var cap := FILESYSTEM_CAPABILITIES[i];
      assert Seen(FILESYSTEM_CAPABILITIES[..i + 1]) == Seen(FILESYSTEM_CAPABILITIES[..i]) + {cap};
      if root == Some(before) && root != Some(after) {
        effective := effective - {cap};
      } else if root != Some(before) && root == Some(after) && cap in c.permitted {
        effective := effective + {cap};
      }
    }
    assert FILESYSTEM_CAPABILITIES[..|FILESYSTEM_CAPABILITIES|] == FILESYSTEM_CAPABILITIES;
    return c.(effective := effective);
  }

  // ---------- Planners ----------

  /** Every ID that an unprivileged caller asks for is one that this call lets it take. */
  predicate Holds(q: Quad, input: IdInput) {
    match input
    case Set(id) => id in {q.realId, q.saved}
    case SetRe(realId, effective) => NoneOr(realId, {q.realId, q.effective}) && NoneOr(effective, {q.realId, q.effective, q.saved})
    case SetRes(realId, effective, saved) =>
      var held := {q.realId, q.effective, q.saved};
      NoneOr(realId, held) && NoneOr(effective, held) && NoneOr(saved, held)
    case SetFs(fs) => fs in {q.realId, q.effective, q.saved, q.fs}
  }

  /** Every call but setfs*id asks for what some setres*id would. */
  function AsSetRes(q: Quad, input: IdInput, privileged: bool): IdInput {
    match input
    case Set(id) => if privileged then SetRes(Some(id), Some(id), Some(id)) else SetRes(None, Some(id), None)
    case SetRe(realId, effective) =>
      var e := Or(effective, q.effective);
      SetRes(realId, Some(e), if realId.Some? || (effective.Some? && effective.value != q.realId) then Some(e) else None)
    case _ => input
  }

  /** What a setres*id does: the IDs asked for change, and the filesystem ID follows the effective one
      unless nothing was asked to change. */
  function Resolved(q: Quad, input: IdInput): Quad
    requires input.SetRes?
  {
    var realId, effective, saved := Or(input.realId, q.realId), Or(input.effective, q.effective), Or(input.saved, q.saved);
    var idle := realId == q.realId && effective == q.effective && saved == q.saved && input.effective.None?;
    Quad(realId, effective, saved, if idle then q.fs else effective)
  }

  function PlanIds(q: Quad, input: IdInput, privileged: bool): Result<Quad, CredError> {
    if input.SetFs? then Ok(if privileged || Holds(q, input) then q.(fs := input.fs) else q)
    else if !privileged && !Holds(q, input) then Err(NotPermitted)
    else Ok(Resolved(q, AsSetRes(q, input, privileged)))
  }

  function Uids(ids: Ids): Quad {
    Quad(ids.ruid, ids.euid, ids.suid, ids.fsuid)
  }

  function Gids(ids: Ids): Quad {
    Quad(ids.rgid, ids.egid, ids.sgid, ids.fsgid)
  }

  /** The capability sets follow the user IDs: each kind of ID has its own fixup. */
  function PlanUserId(prior: Credential, input: IdInput, privileged: bool): Result<Plan, CredError> {
    match PlanIds(Uids(prior.ids), input, privileged)
    case Err(error) => Err(error)
    case Ok(q) =>
      var after := prior.ids.(ruid := q.realId, euid := q.effective, suid := q.saved, fsuid := q.fs);
      Ok(Plan(after, if input.SetFs? then FixupFsuid(prior.userNs.root, prior.ids.fsuid, q.fs, prior.caps)
                     else FixupUid(prior.userNs.root, prior.ids, after, prior.caps)))
  }

  function PlanGroupId(prior: Credential, input: IdInput, privileged: bool): Result<Plan, CredError> {
    match PlanIds(Gids(prior.ids), input, privileged)
    case Err(error) => Err(error)
    case Ok(q) => Ok(Plan(prior.ids.(rgid := q.realId, egid := q.effective, sgid := q.saved, fsgid := q.fs), prior.caps))
  }

  /** The planner as it assigns one ID after another: it refuses exactly when an unprivileged caller
      asks for an ID it does not hold, and setfsuid never refuses. */
  method PlanUserIdTransition(prior: Credential, input: IdInput, privileged: bool) returns (r: Result<Plan, CredError>)
    ensures r == PlanUserId(prior, input, privileged)
    ensures r.Err? <==> !privileged && !input.SetFs? && !Holds(Uids(prior.ids), input)
    ensures r.Ok? ==> Gids(r.value.ids) == Gids(prior.ids)
  {
    var before, root := prior.ids, prior.userNs.root;
    var ids, caps := before, prior.caps;
    match input {
      case Set(uid) =>
        if privileged {
          ids := ids.(ruid := uid, euid := uid, suid := uid);
        } else if uid != before.ruid && uid != before.suid {
          return Err(NotPermitted);
        } else {
          ids := ids.(euid := uid);
        }
        ids := ids.(fsuid := uid);
        caps := FixupUidCapabilities(root, before, ids, caps);
      case SetRe(ruid, euid) =>
        if !privileged && ((ruid.Some? && ruid.value != before.ruid && ruid.value != before.euid)
                           || (euid.Some? && euid.value !in {before.ruid, before.euid, before.suid})) {
          return Err(NotPermitted);
        }
        ids := ids.(ruid := Or(ruid, before.ruid), euid := Or(euid, before.euid));
        ids := ids.(fsuid := ids.euid);
        if ruid.Some? || (euid.Some? && euid.value != before.ruid) {
          ids := ids.(suid := ids.euid);
        }
        caps := FixupUidCapabilities(root, before, ids, caps);
      case SetRes(ruid, euid, suid) =>
        if NoneOr(ruid, {before.ruid}) && NoneOr(euid, {before.euid} * {before.fsuid}) && NoneOr(suid, {before.suid}) {
          return Ok(Plan(ids, caps));
        }
        var known := {before.ruid, before.euid, before.suid};
        if !privileged && !(NoneOr(ruid, known) && NoneOr(euid, known) && NoneOr(suid, known)) {
          return Err(NotPermitted);
        }
        ids := ids.(ruid := Or(ruid, before.ruid), euid := Or(euid, before.euid), suid := Or(suid, before.suid));
        ids := ids.(fsuid := ids.euid);
        caps := FixupUidCapabilities(root, before, ids, caps);
      case SetFs(fsuid) =>
        if privileged || fsuid == before.ruid || fsuid == before.euid || fsuid == before.suid || fsuid == before.fsuid {
          ids := ids.(fsuid := fsuid);
          caps := FixupFsuidCapabilities(root, before.fsuid, ids.fsuid, caps);
        }
    }
    return Ok(Plan(ids, caps));
  }

  method PlanGroupIdTransition(prior: Credential, input: IdInput, privileged: bool) returns (r: Result<Plan, CredError>)
    ensures r == PlanGroupId(prior, input, privileged)
    ensures r.Err? <==> !privileged && !input.SetFs? && !Holds(Gids(prior.ids), input)
    ensures r.Ok? ==> Uids(r.value.ids) == Uids(prior.ids) && r.value.caps == prior.caps
  {
    var before := prior.ids;
    var ids := before;
    match input {
      case Set(gid) =>
        if privileged {
          ids := ids.(rgid := gid, egid := gid, sgid := gid);
        } else if gid != before.rgid && gid != before.sgid {
          return Err(NotPermitted);
        } else {
          ids := ids.(egid := gid);
        }
        ids := ids.(fsgid := gid);
      case SetRe(rgid, egid) =>
        if !privileged && ((rgid.Some? && rgid.value != before.rgid && rgid.value != before.egid)
                           || (egid.Some? && egid.value !in {before.rgid, before.egid, before.sgid})) {
          return Err(NotPermitted);
        }
        ids := ids.(rgid := Or(rgid, before.rgid), egid := Or(egid, before.egid));
        ids := ids.(fsgid := ids.egid);
        if rgid.Some? || (egid.Some? && egid.value != before.rgid) {
          ids := ids.(sgid := ids.egid);
        }
      case SetRes(rgid, egid, sgid) =>
        if NoneOr(rgid, {before.rgid}) && NoneOr(egid, {before.egid} * {before.fsgid}) && NoneOr(sgid, {before.sgid}) {
          return Ok(Plan(ids, prior.caps));
        }
        var known := {before.rgid, before.egid, before.sgid};
        if !privileged && !(NoneOr(rgid, known) && NoneOr(egid, known) && NoneOr(sgid, known)) {
          return Err(NotPermitted);
        }
        ids := ids.(rgid := Or(rgid, before.rgid), egid := Or(egid, before.egid), sgid := Or(sgid, before.sgid));
        ids := ids.(fsgid := ids.egid);
      case SetFs(fsgid) =>
        if privileged || fsgid == before.rgid || fsgid == before.egid || fsgid == before.sgid || fsgid == before.fsgid {
          ids := ids.(fsgid := fsgid);
        }
    }
    return Ok(Plan(ids, prior.caps));
  }

  function PlanCapset(prior: Credential, effective: Bits, permitted: Bits, inheritable: Bits, setpcap: bool): Result<Plan, CredError> {
    var c := prior.caps;
    if !(effective <= permitted) || !(permitted <= c.permitted) then Err(NotPermitted)
    else if !(inheritable <= c.inheritable + c.bounding) then Err(NotPermitted)
    else if !setpcap && !(inheritable <= c.inheritable + c.permitted) then Err(NotPermitted)
    else Ok(Plan(prior.ids, c.(effective := effective, permitted := permitted, inheritable := inheritable,
                               ambient := c.ambient * permitted * inheritable)))
  }

  /** The rules of set*id written out, call by call. */
  lemma SetIdMeans(q: Quad, input: IdInput, privileged: bool)
    ensures PlanIds(q, input, privileged).Err? <==> !privileged && match input
      case Set(id) => id != q.realId && id != q.saved
      case SetRe(r, e) => || (r.Some? && r.value != q.realId && r.value != q.effective)
                          || (e.Some? && e.value != q.realId && e.value != q.effective && e.value != q.saved)
      case SetRes(r, e, s) => exists x :: Some(x) in {r, e, s} && x != q.realId && x != q.effective && x != q.saved
      case SetFs(_) => false
    ensures PlanIds(q, input, privileged).Ok? ==>
      var after := PlanIds(q, input, privileged).value;
      match input
      case Set(id) => after == if privileged then Quad(id, id, id, id) else Quad(q.realId, id, q.saved, id)
      case SetRe(r, e) =>
        && (r == None || r == Some(after.realId)) && (r == None ==> after.realId == q.realId)
        && (e == None || e == Some(after.effective)) && (e == None ==> after.effective == q.effective)
        && after.fs == after.effective
        && after.saved == if r.Some? || (e.Some? && e.value != q.realId) then after.effective else q.saved
      case SetRes(r, e, s) =>
        && (r == None || r == Some(after.realId)) && (r == None ==> after.realId == q.realId)
        && (e == None || e == Some(after.effective)) && (e == None ==> after.effective == q.effective)
        && (s == None || s == Some(after.saved)) && (s == None ==> after.saved == q.saved)
        && (after.fs == after.effective || (after == q && e == None))
        && (after.(fs := q.fs) == q && e == None ==> after.fs == q.fs)
      case SetFs(f) =>
        after == q.(fs := if privileged || f == q.realId || f == q.effective || f == q.saved || f == q.fs then f else q.fs)
  {
  }

  /** What changing user IDs does to the capability sets, from the IDs before and after: giving up the
      last root ID clears ambient and, without KEEP_CAPS, permitted and effective; the effective set
      follows the effective ID out of root and into it; nothing else changes. */
  lemma UidsDriveCaps(prior: Credential, input: IdInput, privileged: bool)
    requires PlanUserId(prior, input, privileged).Ok? && !input.SetFs?
    ensures
      var plan, root, c := PlanUserId(prior, input, privileged).value, prior.userNs.root, prior.caps;
      var before, after, c' := prior.ids, plan.ids, plan.caps;
      var fixup := SECBIT_NO_SETUID_FIXUP !in c.securebits;
      var had := Some(before.ruid) == root || Some(before.euid) == root || Some(before.suid) == root;
      var has := Some(after.ruid) == root || Some(after.euid) == root || Some(after.suid) == root;
      var dropped := fixup && had && !has;
      var cleared := dropped && SECBIT_KEEP_CAPS !in c.securebits;
      var left := fixup && Some(before.euid) == root && Some(after.euid) != root;
      var became := fixup && Some(before.euid) != root && Some(after.euid) == root;
      && c'.ambient == (if dropped then {} else c.ambient)
      && c'.permitted == (if cleared then {} else c.permitted)
      && (cleared || left ==> c'.effective == {})
      && (became ==> c'.effective == c'.permitted)
      && (!cleared && !left && !became ==> c'.effective == c.effective)
      && c'.inheritable == c.inheritable && c'.bounding == c.bounding && c'.securebits == c.securebits
  {
  }

  /** The filesystem user ID moves the eight filesystem capabilities in and out of the effective set. */
  lemma FsuidDrivesCaps(prior: Credential, fs: nat, privileged: bool)
    ensures
      var plan, root, c := PlanUserId(prior, SetFs(fs), privileged), prior.userNs.root, prior.caps;
      && plan.Ok?
      && var after, c' := plan.value.ids.fsuid, plan.value.caps;
         var left := Some(prior.ids.fsuid) == root && Some(after) != root;
         var became := Some(prior.ids.fsuid) != root && Some(after) == root;
         var moved := SECBIT_NO_SETUID_FIXUP !in c.securebits;
         && c' == c.(effective := c'.effective)
         && (forall b :: b in c'.effective <==>
               if moved && left && b in {0, 1, 2, 3, 4, 9, 27, 32} then false
               else b in c.effective || (moved && became && b in {0, 1, 2, 3, 4, 9, 27, 32} && b in c.permitted))
  {
    assert FilesystemCaps() == {0, 1, 2, 3, 4, 9, 27, 32};
  }

  /** capset: nothing new becomes permitted, and a new inheritable bit must be bounded and, without
      CAP_SETPCAP, permitted. */
  lemma CapsetMeans(prior: Credential, effective: Bits, permitted: Bits, inheritable: Bits, setpcap: bool)
    ensures
      var r, c := PlanCapset(prior, effective, permitted, inheritable, setpcap), prior.caps;
      && (r.Ok? <==>
            && (forall b | b in effective :: b in permitted)
            && (forall b | b in permitted :: b in c.permitted)
            && (forall b | b in inheritable && b !in c.inheritable :: b in c.bounding && (setpcap || b in c.permitted)))
      && (r.Ok? ==>
            && r.value.ids == prior.ids
            && r.value.caps.effective == effective && r.value.caps.permitted == permitted && r.value.caps.inheritable == inheritable
            && r.value.caps.bounding == c.bounding && r.value.caps.securebits == c.securebits
            && forall b :: b in r.value.caps.ambient <==> b in c.ambient && b in permitted && b in inheritable)
  {
  }

  /** A planned change never needs more than the planner checked: its sets are valid. */
  lemma PlansAreValid(prior: Credential, input: IdInput, privileged: bool,
                      effective: Bits, permitted: Bits, inheritable: Bits, setpcap: bool)
    requires ValidCaps(prior.caps)
    ensures PlanUserId(prior, input, privileged).Ok? ==> ValidCaps(PlanUserId(prior, input, privileged).value.caps)
    ensures PlanGroupId(prior, input, privileged).Ok? ==> ValidCaps(PlanGroupId(prior, input, privileged).value.caps)
    ensures PlanCapset(prior, effective, permitted, inheritable, setpcap).Ok? ==>
              ValidCaps(PlanCapset(prior, effective, permitted, inheritable, setpcap).value.caps)
  {
  }

  /** Without CAP_SETUID a process can only move among the user IDs it already has. */
  lemma UnprivilegedUidsStay(prior: Credential, input: IdInput)
    requires PlanUserId(prior, input, false).Ok?
    ensures
      var before, after := prior.ids, PlanUserId(prior, input, false).value.ids;
      var known := {before.ruid, before.euid, before.suid};
      && after.ruid in known && after.euid in known && after.suid in known && after.fsuid in known + {before.fsuid}
      && after.rgid == before.rgid && after.egid == before.egid && after.sgid == before.sgid && after.fsgid == before.fsgid
  {
  }

  lemma UnprivilegedGidsStay(prior: Credential, input: IdInput)
    requires PlanGroupId(prior, input, false).Ok?
    ensures
      var before, after := prior.ids, PlanGroupId(prior, input, false).value.ids;
      var known := {before.rgid, before.egid, before.sgid};
      && after.rgid in known && after.egid in known && after.sgid in known && after.fsgid in known + {before.fsgid}
      && after.ruid == before.ruid && after.euid == before.euid && after.suid == before.suid && after.fsuid == before.fsuid
  {
  }

  // ---------- Whole runs ----------

  datatype Change =
    | UserId(user: IdInput, privileged: bool)
    | GroupId(group: IdInput, privileged: bool)
    | Capset(effective: Bits, permitted: Bits, inheritable: Bits, setpcap: bool)
    | Raise(cap: nat)
    | Lower(cap: nat)
    | DropBound(cap: nat)
    | Securebits(requested: Bits)
    | KeepCaps(enabled: bool)
    | NoNewPrivs
    | Execve(maps: Maps, input: ExecInput)

  function WithCaps(prior: Credential, caps: Result<Caps, CredError>): Option<Credential> {
    if caps.Ok? then Some(prior.(caps := caps.value)) else None
  }

  function WithPlan(prior: Credential, plan: Result<Plan, CredError>): Option<Credential> {
    if plan.Ok? then Some(prior.(ids := plan.value.ids, caps := plan.value.caps)) else None
  }

  /** The credential after a change, or nothing if the change is refused. */
  function After(prior: Credential, change: Change): Option<Credential> {
    match change
    case UserId(input, privileged) => WithPlan(prior, PlanUserId(prior, input, privileged))
    case GroupId(input, privileged) => WithPlan(prior, PlanGroupId(prior, input, privileged))
    case Capset(e, p, i, setpcap) => WithPlan(prior, PlanCapset(prior, e, p, i, setpcap))
    case Raise(cap) => WithCaps(prior, RaiseAmbient(prior.caps, cap))
    case Lower(cap) => WithCaps(prior, LowerAmbient(prior.caps, cap))
    case DropBound(cap) => WithCaps(prior, DropBounding(prior.caps, cap))
    case Securebits(requested) => WithCaps(prior, SetSecurebits(prior.caps, requested))
    case KeepCaps(enabled) => WithCaps(prior, SetKeepCaps(prior.caps, enabled))
    case NoNewPrivs => Some(prior.(noNewPrivs := true))
    case Execve(maps, input) =>
      if Refused(prior, FactsOf(prior, maps, input)) then None else Some(NewCredential(prior, maps, input))
  }

  function ModeOf(change: Change): TransitionMode {
    if change.Execve? then ExecClearsKeepCaps else Normal
  }

  /** What no change can undo. */
  ghost predicate Monotone(a: Credential, b: Credential) {
    && b.userNs == a.userNs
    && (a.noNewPrivs ==> b.noNewPrivs)
    && b.caps.bounding <= a.caps.bounding
    && (forall l | l in a.caps.securebits && l % 2 == 1 && l < SECUREBIT_COUNT :: l in b.caps.securebits)
    // Locked values stay, except that exec may clear KEEP_CAPS.
    && (forall v: nat | v % 2 == 0 && v + 1 in a.caps.securebits && v < SECUREBIT_COUNT && v != SECBIT_KEEP_CAPS ::
          v in a.caps.securebits <==> v in b.caps.securebits)
    && (SECBIT_KEEP_CAPS_LOCKED in a.caps.securebits && SECBIT_KEEP_CAPS in b.caps.securebits ==> SECBIT_KEEP_CAPS in a.caps.securebits)
    // No new privileges: the permitted set never grows again.
    && (a.noNewPrivs ==> b.caps.permitted <= a.caps.permitted)
  }

  /** Every change that is not refused is valid, lawful to install, and monotone. */
  lemma ChangeIsLawful(prior: Credential, change: Change)
    requires ValidCaps(prior.caps) && After(prior, change).Some?
    ensures
      var next := After(prior, change).value;
      && ValidCaps(next.caps)
      && LawfulReplacement(prior, next.caps, next.noNewPrivs, next.userNs, ModeOf(change))
      && Monotone(prior, next)
      && (!change.Execve? ==> next.caps.permitted <= prior.caps.permitted)
  {
    if change.Execve? {
      ExecIsLawful(prior, change.maps, change.input);
    } else if change.Securebits? || change.KeepCaps? {
      SecurebitChangeIsLawful(prior, change);
    } else if change.UserId? {
      hide PlanUserId;
      PlansAreValid(prior, change.user, change.privileged, {}, {}, {}, false);
      UserPlanShrinks(prior, change.user, change.privileged);
    } else {
      hide FactsOf, NewCaps, ChangedLocked, ClearedLocks, PlanUserId, PlanGroupId;
      GroupPlanKeepsCaps(prior, change);
    }
  }

  lemma GroupPlanKeepsCaps(prior: Credential, change: Change)
    ensures change.GroupId? && After(prior, change).Some? ==> After(prior, change).value.caps == prior.caps
  {
  }

  lemma UserPlanShrinks(prior: Credential, input: IdInput, privileged: bool)
    requires PlanUserId(prior, input, privileged).Ok?
    ensures
      var c := PlanUserId(prior, input, privileged).value.caps;
      c.permitted <= prior.caps.permitted && c.bounding == prior.caps.bounding && c.securebits == prior.caps.securebits
  {
  }

  lemma SecurebitChangeIsLawful(prior: Credential, change: Change)
    requires ValidCaps(prior.caps) && (change.Securebits? || change.KeepCaps?) && After(prior, change).Some?
    ensures
      var next := After(prior, change).value;
      && ValidCaps(next.caps)
      && LocksHold(prior.caps.securebits, next.caps.securebits, Normal)
      && next == prior.(caps := prior.caps.(securebits := next.caps.securebits))
  {
    var next := After(prior, change).value;
    LocksNeedSets(prior.caps.securebits, next.caps.securebits, Normal);
    if change.KeepCaps? {
      assert ChangedLocked(prior.caps.securebits, next.caps.securebits) == {};
      assert ClearedLocks(prior.caps.securebits, next.caps.securebits) == {};
    }
  }

  lemma ExecIsLawful(prior: Credential, maps: Maps, input: ExecInput)
    requires ValidCaps(prior.caps)
    ensures
      var next := NewCredential(prior, maps, input);
      && ValidCaps(next.caps)
      && LawfulReplacement(prior, next.caps, next.noNewPrivs, next.userNs, ExecClearsKeepCaps)
      && Monotone(prior, next)
  {
  }

  ghost predicate IsRun(states: seq<Credential>, changes: seq<Change>) {
    && |states| == |changes| + 1
    && forall i {:trigger changes[i]} | 0 <= i < |changes| :: After(states[i], changes[i]) == Some(states[i + 1])
  }

  /** Over every run of changes within one namespace: no_new_privs and lock bits stay set, locked
      values hold but for KEEP_CAPS being cleared, bounding only shrinks, and once no_new_privs is
      set permitted only shrinks. */
  lemma {:induction false} MonotoneOverRuns(states: seq<Credential>, changes: seq<Change>, i: nat, j: nat)
    requires IsRun(states, changes) && ValidCaps(states[0].caps) && i <= j <= |changes|
    ensures ValidCaps(states[j].caps) && Monotone(states[i], states[j])
    decreases j
  {
    hide After, ValidCaps;
    if j > 0 {
      MonotoneOverRuns(states, changes, if i < j then i else j - 1, j - 1);
      assert After(states[j - 1], changes[j - 1]) == Some(states[j]);
      ChangeIsLawful(states[j - 1], changes[j - 1]);
    }
  }

  /** An exec that nothing suppresses and that grants a capability not yet permitted. */
  predicate Gains(prior: Credential, change: Change) {
    && change.Execve? && !prior.noNewPrivs && !change.input.traced
    && !(Granted(prior.caps, FactsOf(prior, change.maps, change.input).sets) <= prior.caps.permitted)
  }

  /** The permitted set grows in exactly one way. */
  lemma GrowsIffGains(prior: Credential, change: Change)
    requires ValidCaps(prior.caps) && After(prior, change).Some?
    ensures After(prior, change).value.caps.permitted <= prior.caps.permitted <==> !Gains(prior, change)
  {
  }

  /** Over a run without such an exec the permitted set never grows, with or without no_new_privs. */
  lemma {:induction false} PermittedShrinksOverRuns(states: seq<Credential>, changes: seq<Change>, i: nat, j: nat)
    requires IsRun(states, changes) && ValidCaps(states[0].caps) && i <= j <= |changes|
    requires forall m | i <= m < j :: !Gains(states[m], changes[m])
    ensures states[j].caps.permitted <= states[i].caps.permitted
    decreases j
  {
    hide After, ValidCaps, Gains, Monotone;
    if i < j {
      PermittedShrinksOverRuns(states, changes, i, j - 1);
      MonotoneOverRuns(states, changes, j - 1, j - 1);
      assert After(states[j - 1], changes[j - 1]) == Some(states[j]);
      GrowsIffGains(states[j - 1], changes[j - 1]);
    }
  }

  /** Without no_new_privs a run can gain: root executes a plain file and is granted its bounding set. */
  lemma RootExecGains() returns (prior: Credential, change: Change)
    ensures ValidCaps(prior.caps) && change.Execve? && ValidMap(change.maps.uid) && ValidMap(change.maps.gid)
    ensures After(prior, change).Some? && !(After(prior, change).value.caps.permitted <= prior.caps.permitted)
  {
    var row := Extent(0, 0, 1);
    var m := IdMap([row], [row]);
    var root := Namespace(0, 0, 0, Some(0), None);
    prior := Credential(Ids(0, 0, 0, 0, 0, 0, 0, 0), {}, Caps({}, {}, {}, {0}, {}, {}), false, root);
    change := Execve(Maps(m, m), ExecInput({}, None, false, false, None));
    assert Translate([row], 0, Upper) == Some(0);
    var f := FactsOf(prior, change.maps, change.input);
    assert f.sets == Every(true);
    assert 0 in Granted(prior.caps, f.sets);
    GrowsIffGains(prior, change);
  }
}
