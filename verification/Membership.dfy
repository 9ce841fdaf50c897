/**
 Membership healing as decided from one view of the cluster: internal/reconciler/health_reconciler.go.
 One pass yields the nodes to forget, the takeovers it obtained, the pods to meet, and whether to run
 a cluster fix. HealingRuns says what passes achieve.
 */
module Membership {
  import opened ClusterView
  import opened Lists

  /** One node of the view, with the slots its slot column names. */
  datatype Member = Member(id: string, ip: string, flags: set<Flag>, primary: string, slots: set<int>)

  /** The live pods' addresses, the mode of the pass, and the replicas whose takeover command fails. */
  datatype Setting = Setting(pods: seq<string>, meetMissing: bool, ephemeral: bool, refusing: set<string>)

  datatype Takeover = Takeover(replica: string, of: string)

  datatype Healing = Healing(forgotten: seq<Member>, takeovers: seq<Takeover>, met: seq<string>, fixed: bool)

  // ----- What a pass decides -----

  /** An entry that lost its address and owns nothing. */
  predicate Ghost(m: Member) {
    m.ip == "" && NoAddr in m.flags && m.slots == {}
  }

  predicate Live(m: Member, pods: seq<string>) {
    m.ip != "" && m.ip in pods && Fail !in m.flags
  }

  /** An addressed entry of no live pod, or one in confirmed failure. */
  predicate Stale(m: Member, pods: seq<string>) {
    m.ip != "" && !Live(m, pods)
  }

  /** A replica of the given node, backed by a live pod, whose takeover succeeds. */
  function Successor(s: Setting, of: string): Member -> bool {
    (m: Member) => m.primary == of && Slave in m.flags && Live(m, s.pods) && m.id !in s.refusing
  }

  function Takes(view: seq<Member>, s: Setting): Member -> Option<Takeover> {
    (m: Member) =>
      if Stale(m, s.pods) && m.slots != {} then
        match First(Successor(s, m.id), view)
        case Some(r) => Some(Takeover(r.id, m.id))
        case None => None
      else None
  }

  /** Ghosts, stale entries that own nothing, and on an ephemeral cluster stale owners that no replica succeeds. */
  function Forgets(view: seq<Member>, s: Setting): Member -> bool {
    (m: Member) =>
      Ghost(m) ||
      (Stale(m, s.pods) && (m.slots == {} || (s.ephemeral && First(Successor(s, m.id), view).None?)))
  }

  function Resolve(m: Member, seed: string): string {
    if m.ip == "" then seed else m.ip
  }

  function Addresses(view: seq<Member>, seed: string): set<string> {
    set m <- view :: Resolve(m, seed)
  }

  function MissingFrom(view: seq<Member>, seed: string): string -> bool {
    (p: string) => p !in Addresses(view, seed)
  }

  /** What a pass over `view` does. */
  ghost predicate IsHealing(view: seq<Member>, s: Setting, h: Healing) {
    s.pods != [] &&
    h.forgotten == Filter(Forgets(view, s), view) &&
    h.takeovers == Collect(Takes(view, s), view) &&
    h.met == (if s.meetMissing then Filter(MissingFrom(view, s.pods[0]), s.pods) else []) &&
    (h.fixed <==> OwnerAmong(h.forgotten))
  }

  ghost predicate OwnerAmong(ms: seq<Member>) {
    exists i | 0 <= i < |ms| :: ms[i].slots != {}
  }

  predicate Changes(h: Healing) {
    h.forgotten != [] || h.takeovers != [] || h.met != []
  }

  // ----- The pass -----

  /** Promotes the first replica of the dead node that can be promoted. */
  method PromoteReplicaOfDeadMaster(view: seq<Member>, s: Setting, masterID: string) returns (promoted: Option<Member>)
    ensures promoted == First(Successor(s, masterID), view)
  {
    assert view[0..] == view;
    for i := 0 to |view|
      invariant First(Successor(s, masterID), view) == First(Successor(s, masterID), view[i..])
    {
      assert view[i..][1..] == view[i + 1..];
      if view[i].primary != masterID || view[i].ip == "" {
        continue;
      }
      if Slave !in view[i].flags || Fail in view[i].flags {
        continue;
      }
      if view[i].ip !in s.pods {
        continue;
      }
      if view[i].id in s.refusing {
        continue;
      }
      return Some(view[i]);
    }
    return None;
  }

  lemma OwnerAmongSnoc(ms: seq<Member>, m: Member)
    ensures OwnerAmong(ms + [m]) <==> OwnerAmong(ms) || m.slots != {}
  {
    assert (ms + [m])[|ms|] == m;
    if i :| 0 <= i < |ms| && ms[i].slots != {} {
      assert (ms + [m])[i] == ms[i];
    }
  }

  method FindStale(view: seq<Member>, s: Setting)
    returns (forgotten: seq<Member>, takeovers: seq<Takeover>, forgot: bool, forgotSlotOwner: bool)
    ensures forgotten == Filter(Forgets(view, s), view) && takeovers == Collect(Takes(view, s), view)
    ensures forgot <==> forgotten != [] || takeovers != []
    ensures forgotSlotOwner <==> OwnerAmong(forgotten)
  {
    forgotten, takeovers, forgot, forgotSlotOwner := [], [], false, false;
    for i := 0 to |view|
      invariant forgotten == Filter(Forgets(view, s), view[..i])
      invariant takeovers == Collect(Takes(view, s), view[..i])
      invariant forgot <==> forgotten != [] || takeovers != []
      invariant forgotSlotOwner <==> OwnerAmong(forgotten)
    {
      var m := view[i];
      FilterGrows(Forgets(view, s), view, i);
      CollectGrows(Takes(view, s), view, i);
      OwnerAmongSnoc(forgotten, m);
      if m.ip == "" {
        if Ghost(m) {
          forgotten, forgot := forgotten + [m], true;
        }
        continue;
      }
      if m.ip in s.pods && Fail !in m.flags {
        continue;
      }
      var ownsSlots := m.slots != {};
      if ownsSlots {
        var successor := PromoteReplicaOfDeadMaster(view, s, m.id);
        if successor.Some? {
          takeovers, forgot := takeovers + [Takeover(successor.value.id, m.id)], true;
          continue;
        }
        if !s.ephemeral {
          continue;
        }
      }
      forgotten, forgot := forgotten + [m], true;
      if ownsSlots {
        forgotSlotOwner := true;
      }
    }
    assert view[..|view|] == view;
  }

  method FindMissing(view: seq<Member>, pods: seq<string>) returns (missing: seq<string>)
    requires pods != []
    ensures missing == Filter(MissingFrom(view, pods[0]), pods)
  {
    var clusterIPs: set<string> := {};
    for i := 0 to |view|
      invariant clusterIPs == Addresses(view[..i], pods[0])
    {
      AddressesSnoc(view[..i], view[i], pods[0]);
      assert view[..i + 1] == view[..i] + [view[i]];
      clusterIPs := clusterIPs + {Resolve(view[i], pods[0])};
    }
    assert view[..|view|] == view;
    missing := [];
    for i := 0 to |pods|
      invariant missing == Filter(MissingFrom(view, pods[0]), pods[..i])
    {
      FilterSnoc(MissingFrom(view, pods[0]), pods, i);
      if pods[i] in clusterIPs {
        continue;
      }
      missing := missing + [pods[i]];
    }
    assert pods[..|pods|] == pods;
  }

  lemma AddressesSnoc(view: seq<Member>, m: Member, seed: string)
    ensures Addresses(view + [m], seed) == Addresses(view, seed) + {Resolve(m, seed)}
  {
    assert forall x :: x in view + [m] <==> x in view || x == m;
    assert m in view + [m];
  }

  /** Without a pod, or a view from the first pod, an error; otherwise one pass, which says whether it did anything. */
  method HealMembership(fetched: Option<seq<Member>>, s: Setting) returns (h: Option<Healing>, changed: bool)
    ensures h.None? <==> s.pods == [] || fetched.None?
    ensures h.Some? ==> IsHealing(fetched.value, s, h.value)
    ensures changed <==> h.Some? && Changes(h.value)
  {
    if |s.pods| == 0 || fetched.None? {
      return None, false;
    }
    var view := fetched.value;
    var forgotten, takeovers, forgot, forgotSlotOwner := FindStale(view, s);
    var met: seq<string> := [];
    if s.meetMissing {
      met := FindMissing(view, s.pods);
    }
    return Some(Healing(forgotten, takeovers, met, forgotSlotOwner)), forgot || met != [];
  }

  // ----- When a pass does nothing -----

  /** Nothing is left to heal, except what a persistent cluster waits out. */
  ghost predicate Healed(view: seq<Member>, s: Setting) {
    (forall i | 0 <= i < |view| :: !Ghost(view[i])) &&
    (forall i | 0 <= i < |view| && view[i].ip != "" ::
       Live(view[i], s.pods) ||
       (!s.ephemeral && view[i].slots != {} && forall j | 0 <= j < |view| :: !Successor(s, view[i].id)(view[j]))) &&
    (s.meetMissing ==> forall i | 0 <= i < |s.pods| :: s.pods[i] in Addresses(view, s.pods[0]))
  }

  lemma NothingToDo(view: seq<Member>, s: Setting, m: Member)
    ensures !Forgets(view, s)(m) && Takes(view, s)(m).None? <==>
            !Ghost(m) && (m.ip != "" ==>
              Live(m, s.pods) || (!s.ephemeral && m.slots != {} && First(Successor(s, m.id), view).None?))
  {}

  /** A pass reports no change exactly when nothing is left to heal. */
  lemma UnchangedWhenHealed(view: seq<Member>, s: Setting, h: Healing)
    requires IsHealing(view, s, h)
    ensures !Changes(h) <==> Healed(view, s)
  {
    EmptyFilter(Forgets(view, s), view);
    EmptyCollect(Takes(view, s), view);
    EmptyFilter(MissingFrom(view, s.pods[0]), s.pods);
    forall i | 0 <= i < |view|
      ensures !Forgets(view, s)(view[i]) && Takes(view, s)(view[i]).None? <==>
              !Ghost(view[i]) && (view[i].ip != "" ==>
                Live(view[i], s.pods) ||
                (!s.ephemeral && view[i].slots != {} && First(Successor(s, view[i].id), view).None?))
    {
      NothingToDo(view, s, view[i]);
    }
  }

  // ----- What a pass decides, entry by entry -----

  /** A live, unfailed replica of the given node that accepts the takeover. */
  predicate CanSucceed(r: Member, of: string, pods: seq<string>, refusing: set<string>) {
    r.primary == of && Slave in r.flags && r.ip != "" && r.ip in pods && Fail !in r.flags && r.id !in refusing
  }

  lemma SuccessorMeans(view: seq<Member>, s: Setting, of: string)
    ensures First(Successor(s, of), view).Some? <==> exists r <- view :: CanSucceed(r, of, s.pods, s.refusing)
    ensures First(Successor(s, of), view).Some? ==>
              var r := First(Successor(s, of), view).value; r in view && CanSucceed(r, of, s.pods, s.refusing)
  {
    if r :| r in view && CanSucceed(r, of, s.pods, s.refusing) {
      var i :| 0 <= i < |view| && view[i] == r;
      assert Successor(s, of)(view[i]);
    }
  }

  /** An entry with an address that is no live pod's, or in confirmed failure. */
  predicate Dead(m: Member, pods: seq<string>) {
    m.ip != "" && (m.ip !in pods || Fail in m.flags)
  }

  /** Which entries are forgotten: nodes without address and slots, dead ones without slots, and lost owners. */
  lemma ForgetsInFields(view: seq<Member>, s: Setting, h: Healing, m: Member)
    requires IsHealing(view, s, h) && m in view
    ensures m in h.forgotten <==>
            (m.ip == "" && NoAddr in m.flags && m.slots == {}) ||
            (Dead(m, s.pods) &&
             (m.slots == {} || (s.ephemeral && !exists r <- view :: CanSucceed(r, m.id, s.pods, s.refusing))))
  {
    FilterMember(Forgets(view, s), view, m);
    SuccessorMeans(view, s, m.id);
  }

  /** Which takeovers happen: a dead slot owner is succeeded by a replica of its own that can, if there is one. */
  lemma TakesOverInFields(view: seq<Member>, s: Setting, h: Healing, m: Member)
    requires IsHealing(view, s, h) && m in view
    ensures Dead(m, s.pods) && m.slots != {} && (exists r <- view :: CanSucceed(r, m.id, s.pods, s.refusing)) ==>
              exists r <- view :: CanSucceed(r, m.id, s.pods, s.refusing) && Takeover(r.id, m.id) in h.takeovers
  {
    SuccessorMeans(view, s, m.id);
    var successor := First(Successor(s, m.id), view);
    if Dead(m, s.pods) && m.slots != {} && successor.Some? {
      var i :| 0 <= i < |view| && view[i] == m;
      CollectMember(Takes(view, s), view, Takeover(successor.value.id, m.id));
      assert Takes(view, s)(view[i]) == Some(Takeover(successor.value.id, m.id));
    }
  }

  /** And no others. */
  lemma TakeoverMeans(view: seq<Member>, s: Setting, h: Healing, t: Takeover)
    requires IsHealing(view, s, h) && t in h.takeovers
    ensures exists m, r | m in view && r in view ::
              Dead(m, s.pods) && m.slots != {} && CanSucceed(r, m.id, s.pods, s.refusing) && t == Takeover(r.id, m.id)
  {
    CollectMember(Takes(view, s), view, t);
    var i :| 0 <= i < |view| && Takes(view, s)(view[i]) == Some(t);
    SuccessorMeans(view, s, view[i].id);
    var m, r := view[i], First(Successor(s, view[i].id), view).value;
    assert m in view && r in view && Dead(m, s.pods) && t == Takeover(r.id, m.id);
  }

  /** The cluster is repaired exactly when a slot owner was forgotten. */
  lemma FixedInFields(view: seq<Member>, s: Setting, h: Healing)
    requires IsHealing(view, s, h)
    ensures h.fixed <==> exists m <- view :: m in h.forgotten && m.slots != {}
  {
    if h.fixed {
      var i :| 0 <= i < |h.forgotten| && h.forgotten[i].slots != {};
      FilterMember(Forgets(view, s), view, h.forgotten[i]);
    }
    if m :| m in view && m in h.forgotten && m.slots != {} {
      var i :| 0 <= i < |h.forgotten| && h.forgotten[i] == m;
    }
  }

  /** Which pods are met: those whose address no entry has. */
  lemma MeetsInFields(view: seq<Member>, s: Setting, h: Healing, p: string)
    requires IsHealing(view, s, h) && p != ""
    ensures !s.meetMissing ==> h.met == []
    ensures (forall m <- view :: m.ip != "") || p != s.pods[0] ==>
              (p in h.met <==> s.meetMissing && p in s.pods && forall m <- view :: m.ip != p)
    ensures (exists m <- view :: m.ip == "") ==> s.pods[0] !in h.met
  {
    if s.meetMissing {
      FilterMember(MissingFrom(view, s.pods[0]), s.pods, p);
      FilterMember(MissingFrom(view, s.pods[0]), s.pods, s.pods[0]);
      if m :| m in view && m.ip == "" {
        assert Resolve(m, s.pods[0]) in Addresses(view, s.pods[0]);
      }
      if m :| m in view && m.ip == p {
        assert Resolve(m, s.pods[0]) in Addresses(view, s.pods[0]);
      }
    }
  }

  /** A sole survivor that shows itself without an address has all other pods met, and not itself. */
  lemma SoleSurvivorMeetsOthers(survivor: Member, s: Setting, h: Healing, p: string)
    requires survivor.ip == "" && s.meetMissing && IsHealing([survivor], s, h) && p != "" && p in s.pods
    ensures p in h.met <==> p != s.pods[0]
  {
    assert survivor in [survivor];
    MeetsInFields([survivor], s, h, p);
  }
}
