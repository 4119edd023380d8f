/** Credential values, capability-set validation and namespace-relative
    authority (crates/cred/src/credential.rs). Capability and securebit words
    are the sets of their bit numbers. */
module Credentials {
  import opened Wrappers
  import opened IdMaps

  type Bits = set<nat>

  const CAP_SETUID: nat := 7
  const CAP_LAST_CAP: nat := 40

  const SECBIT_NOROOT: nat := 0
  const SECBIT_NO_SETUID_FIXUP: nat := 2
  const SECBIT_KEEP_CAPS: nat := 4
  const SECBIT_KEEP_CAPS_LOCKED: nat := 5
  const SECBIT_NO_CAP_AMBIENT_RAISE: nat := 6
  /** Six securebits, each an even value bit with its odd lock bit above it. */
  const SECUREBIT_COUNT: nat := 12

  datatype Caps = Caps(
    effective: Bits,
    permitted: Bits,
    inheritable: Bits,
    bounding: Bits,
    ambient: Bits,
    securebits: Bits)

  datatype Ids = Ids(
    ruid: nat, euid: nat, suid: nat, fsuid: nat,
    rgid: nat, egid: nat, sgid: nat, fsgid: nat)

  /** A user namespace; `id` is its identity, so equal values are the same object. */
  datatype Namespace = Namespace(id: nat, level: nat, owner: nat, root: Option<nat>, parent: Option<Namespace>)

  datatype Credential = Credential(ids: Ids, groups: set<nat>, caps: Caps, noNewPrivs: bool, userNs: Namespace)

  // ---------- Capability sets ----------

  predicate InRange(s: Bits, bound: nat) {
    forall x | x in s :: x < bound
  }

  predicate ValidCaps(c: Caps) {
    && InRange(c.securebits, SECUREBIT_COUNT)
    && InRange(c.effective + c.permitted + c.inheritable + c.bounding + c.ambient, CAP_LAST_CAP + 1)
    && c.effective <= c.permitted
    && c.ambient <= c.permitted * c.inheritable
  }

  /** The bits of one of the two 32-bit words. */
  function Word(s: Bits, w: nat): Bits {
    set x | x in s && (if x < 32 then 0 else 1) == w
  }

  function WordError(c: Caps, w: nat): Option<CredError> {
    if !InRange(Word(c.effective + c.permitted + c.inheritable + c.bounding + c.ambient, w), CAP_LAST_CAP + 1)
    then Some(InvalidInput)
    else if !(Word(c.effective, w) <= Word(c.permitted, w)) || !(Word(c.ambient, w) <= Word(c.permitted, w) * Word(c.inheritable, w))
    then Some(NotPermitted)
    else None
  }

  /** Checks securebits, then each word in turn. */
  method Validate(c: Caps) returns (r: Option<CredError>)
    ensures r == if !InRange(c.securebits, SECUREBIT_COUNT) then Some(InvalidInput)
                 else if WordError(c, 0).Some? then WordError(c, 0) else WordError(c, 1)
    ensures r.None? <==> ValidCaps(c)
    ensures r.None? <==>
      && (forall b | b in c.securebits :: b < 12)
      && (forall b | b in c.effective || b in c.inheritable || b in c.permitted || b in c.bounding || b in c.ambient :: b <= 40)
      && (forall b | b in c.effective :: b in c.permitted)
      && (forall b | b in c.ambient :: b in c.permitted && b in c.inheritable)
  {
    if !InRange(c.securebits, SECUREBIT_COUNT) {
      return Some(InvalidInput);
    }
    for w := 0 to 2
      invariant forall v | 0 <= v < w :: WordError(c, v).None?
    {
      r := WordError(c, w);
      if r.Some? {
        WordsCover(c);
        return;
      }
    }
    WordsCover(c);
    return None;
  }

  lemma WordsCover(c: Caps)
    requires InRange(c.securebits, SECUREBIT_COUNT)
    ensures ValidCaps(c) <==> WordError(c, 0).None? && WordError(c, 1).None?
  {
    var all := c.effective + c.permitted + c.inheritable + c.bounding + c.ambient;
    forall s: Bits
      ensures s == Word(s, 0) + Word(s, 1)
    {
    }
  }

  // ---------- Changing one part of the sets ----------

  function RaiseAmbient(c: Caps, cap: nat): Result<Caps, CredError> {
    if cap > CAP_LAST_CAP then Err(InvalidInput)
    else if SECBIT_NO_CAP_AMBIENT_RAISE in c.securebits || cap !in c.permitted || cap !in c.inheritable then Err(NotPermitted)
    else Ok(c.(ambient := c.ambient + {cap}))
  }

  function LowerAmbient(c: Caps, cap: nat): Result<Caps, CredError> {
    if cap > CAP_LAST_CAP then Err(InvalidInput) else Ok(c.(ambient := c.ambient - {cap}))
  }

  function DropBounding(c: Caps, cap: nat): Result<Caps, CredError> {
    if cap > CAP_LAST_CAP then Err(InvalidInput) else Ok(c.(bounding := c.bounding - {cap}))
  }

  /** Value bits under a set lock that differ. */
  function ChangedLocked(before: Bits, after: Bits): Bits {
    set v | v in before + after && v % 2 == 0 && v < SECUREBIT_COUNT && v + 1 in before && (v in before) != (v in after)
  }

  /** Lock bits that were set and no longer are. */
  function ClearedLocks(before: Bits, after: Bits): Bits {
    set l | l in before && l % 2 == 1 && l < SECUREBIT_COUNT && l !in after
  }

  function SetSecurebits(c: Caps, requested: Bits): Result<Caps, CredError> {
    if !InRange(requested, SECUREBIT_COUNT) || ChangedLocked(c.securebits, requested) != {} || ClearedLocks(c.securebits, requested) != {}
    then Err(NotPermitted)
    else Ok(c.(securebits := requested))
  }

  function SetKeepCaps(c: Caps, enabled: bool): Result<Caps, CredError> {
    if SECBIT_KEEP_CAPS_LOCKED in c.securebits then Err(NotPermitted)
    else Ok(c.(securebits := if enabled then c.securebits + {SECBIT_KEEP_CAPS} else c.securebits - {SECBIT_KEEP_CAPS}))
  }

  /** What each single change asks for and does, bit by bit. */
  lemma SetterRules(c: Caps, cap: nat, requested: Bits, enabled: bool)
    ensures RaiseAmbient(c, cap).Ok? <==>
              cap <= 40 && cap in c.permitted && cap in c.inheritable && SECBIT_NO_CAP_AMBIENT_RAISE !in c.securebits
    ensures RaiseAmbient(c, cap).Ok? ==> RaiseAmbient(c, cap).value == c.(ambient := c.ambient + {cap})
    ensures LowerAmbient(c, cap) == (if cap <= 40 then Ok(c.(ambient := c.ambient - {cap})) else Err(InvalidInput))
    ensures DropBounding(c, cap) == (if cap <= 40 then Ok(c.(bounding := c.bounding - {cap})) else Err(InvalidInput))
    ensures SetSecurebits(c, requested).Ok? <==>
              (forall b | b in requested :: b < 12) && LocksHold(c.securebits, requested, Normal)
    ensures SetSecurebits(c, requested).Ok? ==> SetSecurebits(c, requested).value == c.(securebits := requested)
    ensures SetKeepCaps(c, enabled).Ok? <==> 5 !in c.securebits
    ensures SetKeepCaps(c, enabled).Ok? ==>
              forall b :: b in SetKeepCaps(c, enabled).value.securebits <==> if b == 4 then enabled else b in c.securebits
  {
    LocksNeedSets(c.securebits, requested, Normal);
  }

  // ---------- Replacing a credential ----------

  datatype TransitionMode = Normal | ExecClearsKeepCaps

  /** Validates a complete replacement against the credential it replaces. */
  method TryFromTransition(prior: Credential, ids: Ids, groups: set<nat>, caps: Caps, noNewPrivs: bool, userNs: Namespace,
                           mode: TransitionMode) returns (r: Result<Credential, CredError>)
    ensures r.Ok? <==> ValidCaps(caps) && LawfulReplacement(prior, caps, noNewPrivs, userNs, mode)
    ensures r.Ok? ==> userNs == prior.userNs && (prior.noNewPrivs ==> noNewPrivs)
    ensures r.Ok? ==> r.value == Credential(ids, groups, caps, noNewPrivs, userNs)
    ensures ValidCaps(caps) && r.Err? ==> r.error == NotPermitted
  {
    var invalid := Validate(caps);
    if invalid.Some? {
      return Err(invalid.value);
    }
    if prior.userNs != userNs || (prior.noNewPrivs && !noNewPrivs) {
      return Err(NotPermitted);
    }
    var before, after := prior.caps.securebits, caps.securebits;
    var changed := ChangedLocked(before, after);
    if mode == ExecClearsKeepCaps && SECBIT_KEEP_CAPS in before && SECBIT_KEEP_CAPS_LOCKED in before && SECBIT_KEEP_CAPS !in after {
      changed := changed - {SECBIT_KEEP_CAPS};
    }
    if changed != {} || ClearedLocks(before, after) != {} {
      LocksNeedSets(before, after, mode);
      return Err(NotPermitted);
    }
    LocksNeedSets(before, after, mode);
    return Ok(Credential(ids, groups, caps, noNewPrivs, userNs));
  }

  /** A set lock stays set, and its value stays as it is; only exec may clear a locked KEEP_CAPS. */
  ghost predicate LocksHold(before: Bits, after: Bits, mode: TransitionMode) {
    && (forall l | l in before && l % 2 == 1 && l < SECUREBIT_COUNT :: l in after)
    && (forall v: nat | v % 2 == 0 && v + 1 in before && v < SECUREBIT_COUNT ::
          (v in before <==> v in after) || (mode == ExecClearsKeepCaps && v == SECBIT_KEEP_CAPS && v in before))
  }

  ghost predicate LawfulReplacement(prior: Credential, caps: Caps, noNewPrivs: bool, userNs: Namespace, mode: TransitionMode) {
    && userNs == prior.userNs
    && (prior.noNewPrivs ==> noNewPrivs)
    && LocksHold(prior.caps.securebits, caps.securebits, mode)
  }

  lemma LocksNeedSets(before: Bits, after: Bits, mode: TransitionMode)
    ensures
      var relaxed := mode == ExecClearsKeepCaps && SECBIT_KEEP_CAPS in before && SECBIT_KEEP_CAPS_LOCKED in before && SECBIT_KEEP_CAPS !in after;
      LocksHold(before, after, mode) <==>
      ChangedLocked(before, after) - (if relaxed then {SECBIT_KEEP_CAPS} else {}) == {} && ClearedLocks(before, after) == {}
  {
    var relaxed := mode == ExecClearsKeepCaps && SECBIT_KEEP_CAPS in before && SECBIT_KEEP_CAPS_LOCKED in before && SECBIT_KEEP_CAPS !in after;
    var changed := ChangedLocked(before, after) - if relaxed then {SECBIT_KEEP_CAPS} else {};
    var cleared := ClearedLocks(before, after);
    if LocksHold(before, after, mode) {
      assert forall v | v in changed :: v + 1 in before;
      assert changed == {} && cleared == {};
    } else if changed == {} && cleared == {} {
      forall l | l in before && l % 2 == 1 && l < SECUREBIT_COUNT
        ensures l in after
      {
        assert l !in cleared;
      }
      forall v: nat | v % 2 == 0 && v + 1 in before && v < SECUREBIT_COUNT
        ensures (v in before <==> v in after) || (mode == ExecClearsKeepCaps && v == SECBIT_KEEP_CAPS && v in before)
      {
        assert v !in changed;
      }
      assert LocksHold(before, after, mode);
    }
  }

  // ---------- Authority over namespaces ----------

  /** Levels strictly decrease toward the root. */
  predicate WellLevelled(ns: Namespace) {
    ns.parent.Some? ==> ns.parent.value.level < ns.level && WellLevelled(ns.parent.value)
  }

  /** `a` is `ns` or one of its ancestors. */
  predicate AtOrAbove(a: Namespace, ns: Namespace) {
    a == ns || (ns.parent.Some? && AtOrAbove(a, ns.parent.value))
  }

  /** The immediate child of `a` on the way up from `ns`. */
  function ChildOf(a: Namespace, ns: Namespace): Option<Namespace> {
    if ns.parent.None? then None
    else if ns.parent.value == a then Some(ns)
    else ChildOf(a, ns.parent.value)
  }

  /** Who may use a capability on a namespace: the actor's own namespace and everything below it
      through an effective bit, and everything below a child namespace the actor owns. */
  predicate Authority(actor: Credential, target: Namespace, cap: nat) {
    && cap <= CAP_LAST_CAP
    && if target == actor.userNs then cap in actor.caps.effective
       else ChildOf(actor.userNs, target).Some? &&
            (cap in actor.caps.effective || ChildOf(actor.userNs, target).value.owner == actor.ids.euid)
  }

  lemma {:induction false} LevelsBound(a: Namespace, ns: Namespace)
    requires WellLevelled(ns) && ChildOf(a, ns).Some?
    ensures a.level < ns.level && AtOrAbove(a, ns)
    decreases ns
  {
    if ns.parent.value != a {
      LevelsBound(a, ns.parent.value);
    }
  }

  /** The upward walk, on any tree: it stops at a namespace whose level does not fall. */
  method NsCapable(actor: Credential, target: Namespace, cap: nat) returns (r: bool)
    ensures WellLevelled(target) ==> (r <==> Authority(actor, target, cap))
  {
    if cap > CAP_LAST_CAP {
      return false;
    }
    var ns := target;
    while true
      invariant WellLevelled(target) ==> WellLevelled(ns)
      invariant WellLevelled(target) ==> (Authority(actor, ns, cap) <==> Authority(actor, target, cap))
      decreases ns
    {
      if ns == actor.userNs {
        return cap in actor.caps.effective;
      }
      if ns.level <= actor.userNs.level {
        if WellLevelled(ns) && ChildOf(actor.userNs, ns).Some? {
          LevelsBound(actor.userNs, ns);
        }
        return false;
      }
      if ns.parent.None? {
        return false;
      }
      var parent := ns.parent.value;
      if parent.level >= ns.level {
        return false;
      }
      if parent == actor.userNs && ns.owner == actor.ids.euid {
        return true;
      }
      ns := parent;
    }
  }

  /** Authority over a namespace is authority over everything below it. */
  lemma {:induction false} AuthorityGoesDown(actor: Credential, ns: Namespace, below: Namespace, cap: nat)
    requires WellLevelled(below) && AtOrAbove(ns, below) && Authority(actor, ns, cap)
    ensures Authority(actor, below, cap)
    decreases below
  {
    if below != ns {
      AuthorityGoesDown(actor, ns, below.parent.value, cap);
      if below == actor.userNs {
        // An ancestor of the actor's own namespace is not below it.
        assert ChildOf(actor.userNs, below.parent.value).Some?;
        LevelsBound(actor.userNs, below.parent.value);
      }
    }
  }

  /** Whether one credential's capabilities are within another's, across namespaces. */
  method CapIsSubset(outer: Credential, subset: Credential) returns (r: bool)
    ensures subset.userNs == outer.userNs ==> (r <==> subset.caps.permitted <= outer.caps.permitted)
    ensures subset.userNs != outer.userNs && WellLevelled(subset.userNs) ==>
              (r <==> ChildOf(outer.userNs, subset.userNs).Some? && ChildOf(outer.userNs, subset.userNs).value.owner == outer.ids.euid)
  {
    if outer.userNs == subset.userNs {
      return subset.caps.permitted <= outer.caps.permitted;
    }
    var ns := subset.userNs;
    while ns.level > outer.userNs.level
      invariant WellLevelled(subset.userNs) ==> WellLevelled(ns)
      invariant WellLevelled(subset.userNs) && ns != outer.userNs ==> ChildOf(outer.userNs, ns) == ChildOf(outer.userNs, subset.userNs)
      invariant WellLevelled(subset.userNs) && ns == outer.userNs ==>
                  ChildOf(outer.userNs, subset.userNs).Some? && ChildOf(outer.userNs, subset.userNs).value.owner != outer.ids.euid
      decreases ns
    {
      if ns.parent.None? {
        return false;
      }
      var parent := ns.parent.value;
      if parent.level >= ns.level {
        return false;
      }
      if parent == outer.userNs && ns.owner == outer.ids.euid {
        return true;
      }
      ns := parent;
    }
    if WellLevelled(ns) && ns != outer.userNs && ChildOf(outer.userNs, ns).Some? {
      LevelsBound(outer.userNs, ns);
    }
    return false;
  }

  /** Some strict ancestor has this kernel ID as its root. */
  predicate RootAbove(ns: Namespace, rootid: nat) {
    ns.parent.Some? && (ns.parent.value.root == Some(rootid) || RootAbove(ns.parent.value, rootid))
  }

  /** Whether a file-capability root ID belongs to the current namespace or one it descends from. */
  method FileRootOwnsNamespace(userNs: Namespace, currentRoot: Option<nat>, rootid: nat) returns (r: bool)
    ensures currentRoot == Some(rootid) ==> r
    ensures WellLevelled(userNs) && currentRoot != Some(rootid) ==> (r <==> RootAbove(userNs, rootid))
    ensures r == FileRootOwns(userNs, currentRoot, rootid)
  {
    if currentRoot == Some(rootid) {
      return true;
    }
    var ns := userNs;
    while true
      invariant WalkFinds(ns, rootid) == WalkFinds(userNs, rootid)
      invariant WellLevelled(userNs) ==> WellLevelled(ns) && (RootAbove(ns, rootid) <==> RootAbove(userNs, rootid))
      decreases ns
    {
      if ns.parent.None? || ns.parent.value.level >= ns.level {
        return false;
      }
      ns := ns.parent.value;
      if ns.root == Some(rootid) {
        return true;
      }
    }
  }

  function FileRootOwns(ns: Namespace, currentRoot: Option<nat>, rootid: nat): bool {
    currentRoot == Some(rootid) || WalkFinds(ns, rootid)
  }

  function WalkFinds(ns: Namespace, rootid: nat): bool {
    && ns.parent.Some? && ns.parent.value.level < ns.level
    && (ns.parent.value.root == Some(rootid) || WalkFinds(ns.parent.value, rootid))
  }

  /** On a well-levelled tree the walk passes every ancestor. */
  lemma {:induction false} WalkFindsRoots(ns: Namespace, rootid: nat)
    requires WellLevelled(ns)
    ensures WalkFinds(ns, rootid) <==> RootAbove(ns, rootid)
    decreases ns
  {
    if ns.parent.Some? {
      WalkFindsRoots(ns.parent.value, rootid);
    }
  }
}
