/**
 * Effective authority: a fold over the events of a member, ordered by version and address, that
 * should mean "the last relevant event decides" and should not depend on the order of the input.
 */
module CommunityAuthority {
  import opened Prelude

  datatype Role = Member | Moderator | Owner

  datatype MembershipState = NoState | Active | Suspended | Removed | Blocked

  datatype Action =
    | Activate | Suspend | Reinstate | Remove | Block
    | GrantModerator | RevokeModerator | ResignModerator
    | GrantOwner | RevokeOwner

  // A date is in milliseconds; one that does not parse compares as neither before nor after anything.
  datatype Expiry = Never | At(time: int) | Unreadable

  // `uri` is the rank of the event's address in the collation order, a strict total order.
  datatype Event = Event(uri: int, version: int, action: Action, effectiveAt: Option<int>, expiresAt: Expiry)

  datatype Authority = Authority(state: MembershipState, roles: seq<Role>, evidence: map<Role, Event>)

  predicate InForce(e: Event, now: int) {
    !(e.effectiveAt.Some? && e.effectiveAt.value > now) && !(e.expiresAt.At? && e.expiresAt.time <= now)
  }

  // ----- the fold -----

  const NOBODY := Authority(NoState, [], map[])

  /** A JavaScript set keeps the position of an element that is added again. */
  function AddRole(roles: seq<Role>, r: Role): seq<Role> {
    if r in roles then roles else roles + [r]
  }

  function DropRole(roles: seq<Role>, r: Role): seq<Role> {
    if roles == [] then []
    else DropRole(roles[..|roles| - 1], r) + if roles[|roles| - 1] == r then [] else [roles[|roles| - 1]]
  }

  function Granted(a: Authority, r: Role, e: Event): Authority {
    a.(roles := AddRole(a.roles, r), evidence := a.evidence[r := e])
  }

  function Withdrawn(a: Authority, r: Role): Authority {
    a.(roles := DropRole(a.roles, r), evidence := a.evidence - {r})
  }

  function ApplyEvent(a: Authority, e: Event): Authority {
    match e.action
    case Activate => Granted(a.(state := Active), Member, e)
    case Reinstate => Granted(a.(state := Active), Member, e)
    case Suspend => a.(state := Suspended, roles := [])
    case Remove => a.(state := Removed, roles := [])
    case Block => a.(state := Blocked, roles := [])
    case GrantModerator => if a.state == Active then Granted(a, Moderator, e) else a
    case RevokeModerator => Withdrawn(a, Moderator)
    case ResignModerator => Withdrawn(a, Moderator)
    case GrantOwner => if a.state == Active then Granted(a, Owner, e) else a
    case RevokeOwner => Withdrawn(a, Owner)
  }

  function Fold(ordered: seq<Event>, now: int): Authority {
    if ordered == [] then NOBODY
    else
      var a, e := Fold(ordered[..|ordered| - 1], now), ordered[|ordered| - 1];
      if InForce(e, now) then ApplyEvent(a, e) else a
  }

  // ----- the order -----

  predicate Before(a: Event, b: Event) {
    a.version < b.version || (a.version == b.version && a.uri <= b.uri)
  }

  ghost predicate Ordered(es: seq<Event>) {
    forall i, j :: 0 <= i < j < |es| ==> Before(es[i], es[j])
  }

  /** A stable insertion at the end of the elements that are not after e. */
  function Insert(es: seq<Event>, e: Event): seq<Event> {
    if es == [] || Before(es[|es| - 1], e) then es + [e]
    else Insert(es[..|es| - 1], e) + [es[|es| - 1]]
  }

  function Sorted(es: seq<Event>): seq<Event> {
    if es == [] then [] else Insert(Sorted(es[..|es| - 1]), es[|es| - 1])
  }

  function Derived(events: seq<Event>, now: int): Authority {
    Fold(Sorted(events), now)
  }

  /** The loop of `deriveEffectiveAuthority` over the sorted events. */
  method DeriveEffectiveAuthority(events: seq<Event>, now: int) returns (a: Authority)
    ensures a == Derived(events, now)
  {
    var ordered := SortEvents(events);
    var state, roles, evidence := NoState, [], map[];
    for i := 0 to |ordered|
      invariant Authority(state, roles, evidence) == Fold(ordered[..i], now)
    {
      assert ordered[..i + 1][..i] == ordered[..i];
      var e := ordered[i];
      if !InForce(e, now) {
        continue;
      }
      match e.action {
        case Activate => state, roles, evidence := Active, AddRole(roles, Member), evidence[Member := e];
        case Reinstate => state, roles, evidence := Active, AddRole(roles, Member), evidence[Member := e];
        case Suspend => state, roles := Suspended, [];
        case Remove => state, roles := Removed, [];
        case Block => state, roles := Blocked, [];
        case GrantModerator =>
          if state == Active {
            roles, evidence := AddRole(roles, Moderator), evidence[Moderator := e];
          }
        case RevokeModerator => roles, evidence := DropRole(roles, Moderator), evidence - {Moderator};
        case ResignModerator => roles, evidence := DropRole(roles, Moderator), evidence - {Moderator};
        case GrantOwner =>
          if state == Active {
            roles, evidence := AddRole(roles, Owner), evidence[Owner := e];
          }
        case RevokeOwner => roles, evidence := DropRole(roles, Owner), evidence - {Owner};
      }
    }
    assert ordered[..|ordered|] == ordered;
    a := Authority(state, roles, evidence);
  }

  /** The events of one version and address, in their order. */
  function WithKey(es: seq<Event>, version: int, uri: int): seq<Event> {
    if es == [] then []
    else
      var front, last := WithKey(es[..|es| - 1], version, uri), es[|es| - 1];
      if last.version == version && last.uri == uri then front + [last] else front
  }

  /** A stable sort by version and address. */
  method SortEvents(events: seq<Event>) returns (ordered: seq<Event>)
    ensures ordered == Sorted(events)
    ensures Ordered(ordered) && multiset(ordered) == multiset(events)
    ensures forall version, uri :: WithKey(ordered, version, uri) == WithKey(events, version, uri)
  {
    ordered := [];
    for i := 0 to |events|
      invariant ordered == Sorted(events[..i])
    {
      assert events[..i + 1][..i] == events[..i];
      ordered := Insert(ordered, events[i]);
    }
    assert events[..|events|] == events;
    SortedOk(events);
    forall version, uri ensures WithKey(ordered, version, uri) == WithKey(events, version, uri) {
      SortedIsStable(events, version, uri);
    }
  }

  // ----- the declarative reading -----

  predicate IsMembership(a: Action) {
    a in {Activate, Reinstate, Suspend, Remove, Block}
  }

  function StateSet(a: Action): MembershipState
    requires IsMembership(a)
  {
    match a
    case Suspend => Suspended
    case Remove => Removed
    case Block => Blocked
    case _ => Active
  }

  predicate Grants(a: Action, r: Role) {
    match r
    case Member => a == Activate || a == Reinstate
    case Moderator => a == GrantModerator
    case Owner => a == GrantOwner
  }

  predicate Ends(a: Action, r: Role) {
    || a in {Suspend, Remove, Block}
    || (r == Moderator && a in {RevokeModerator, ResignModerator})
    || (r == Owner && a == RevokeOwner)
  }

  /** The state that the last membership event leaves; none without one. */
  ghost predicate StateIs(es: seq<Event>, s: MembershipState) {
    || (s == NoState && forall i :: 0 <= i < |es| ==> !IsMembership(es[i].action))
    || exists i :: 0 <= i < |es| && IsMembership(es[i].action) && StateSet(es[i].action) == s
                   && forall j :: i < j < |es| ==> !IsMembership(es[j].action)
  }

  /** Event i grants the role: it is an activation, or the member was active just before. */
  ghost predicate EffectiveGrant(es: seq<Event>, r: Role, i: int) {
    0 <= i < |es| && Grants(es[i].action, r) && (r == Member || StateIs(es[..i], Active))
  }

  /** Event i grants the role and nothing after it ends the role. */
  ghost predicate GrantStands(es: seq<Event>, r: Role, i: int) {
    EffectiveGrant(es, r, i) && forall j :: i < j < |es| ==> !Ends(es[j].action, r)
  }

  function OnlyInForce(es: seq<Event>, now: int): (r: seq<Event>)
    ensures forall e :: e in r <==> e in es && InForce(e, now)
  {
    if es == [] then []
    else OnlyInForce(es[..|es| - 1], now) + if InForce(es[|es| - 1], now) then [es[|es| - 1]] else []
  }

  lemma {:induction false} FoldSkips(es: seq<Event>, now: int)
    ensures Fold(es, now) == Fold(OnlyInForce(es, now), now)
  {
    if es != [] {
      FoldSkips(es[..|es| - 1], now);
      var front := OnlyInForce(es[..|es| - 1], now);
      var e := es[|es| - 1];
      if InForce(e, now) {
        assert (front + [e])[..|front|] == front;
      } else {
        assert front + [] == front;
      }
    }
  }

  lemma {:induction false} DropRoleMembers(roles: seq<Role>, r: Role)
    ensures forall x :: x in DropRole(roles, r) <==> x in roles && x != r
  {
    if roles != [] {
      DropRoleMembers(roles[..|roles| - 1], r);
      assert roles == roles[..|roles| - 1] + [roles[|roles| - 1]];
    }
  }

  ghost predicate AllInForce(es: seq<Event>, now: int) {
    forall e :: e in es ==> InForce(e, now)
  }

  lemma StateSnoc(front: seq<Event>, e: Event, s: MembershipState)
    ensures IsMembership(e.action) ==> (StateIs(front + [e], s) <==> s == StateSet(e.action))
    ensures !IsMembership(e.action) ==> (StateIs(front + [e], s) <==> StateIs(front, s))
  {
    var es := front + [e];
    if IsMembership(e.action) {
      assert es[|front|] == e;
    } else {
      if StateIs(front, s) && !(s == NoState && forall i :: 0 <= i < |front| ==> !IsMembership(front[i].action)) {
        var i :| 0 <= i < |front| && IsMembership(front[i].action) && StateSet(front[i].action) == s
                 && forall j :: i < j < |front| ==> !IsMembership(front[j].action);
        assert es[i] == front[i];
      }
      if StateIs(es, s) && !(s == NoState && forall i :: 0 <= i < |es| ==> !IsMembership(es[i].action)) {
        var i :| 0 <= i < |es| && IsMembership(es[i].action) && StateSet(es[i].action) == s
                 && forall j :: i < j < |es| ==> !IsMembership(es[j].action);
        assert i < |front| && front[i] == es[i];
        forall j | i < j < |front| ensures !IsMembership(front[j].action) {
          assert es[j] == front[j];
        }
      } else if StateIs(es, s) {
        forall j | 0 <= j < |front| ensures !IsMembership(front[j].action) {
          assert es[j] == front[j];
        }
      }
    }
  }

  lemma {:induction false} FoldState(es: seq<Event>, now: int)
    requires AllInForce(es, now)
    ensures forall s :: StateIs(es, s) <==> s == Fold(es, now).state
  {
    if es != [] {
      var front, e := es[..|es| - 1], es[|es| - 1];
      assert es == front + [e];
      FoldState(front, now);
      forall s ensures StateIs(es, s) <==> s == Fold(es, now).state {
        StateSnoc(front, e, s);
      }
    } else {
      assert StateIs(es, NoState);
    }
  }

  lemma GrantSnoc(front: seq<Event>, e: Event, r: Role)
    ensures var es := front + [e];
            (exists i :: GrantStands(es, r, i)) <==>
              EffectiveGrant(es, r, |front|) || (!Ends(e.action, r) && exists i :: GrantStands(front, r, i))
  {
    var es := front + [e];
    assert es[..|front|] == front;
    if i :| GrantStands(es, r, i) && i < |front| {
      assert es[..i] == front[..i] && es[|front|] == e;
      assert forall j :: i < j < |front| ==> es[j] == front[j];
      assert GrantStands(front, r, i);
    }
    if i :| GrantStands(front, r, i) && !Ends(e.action, r) {
      assert es[..i] == front[..i];
      assert forall j :: i < j < |front| ==> es[j] == front[j];
      assert GrantStands(es, r, i);
    }
    if EffectiveGrant(es, r, |front|) {
      assert GrantStands(es, r, |front|);
    }
  }

  /** What one event in force does to one role. */
  lemma ApplyRole(a: Authority, e: Event, r: Role)
    ensures var a', grants := ApplyEvent(a, e), Grants(e.action, r) && (r == Member || a.state == Active);
            && (r in a'.roles <==> grants || (!Ends(e.action, r) && r in a.roles))
            && (grants ==> r in a'.evidence && a'.evidence[r] == e)
            && (!grants && !Ends(e.action, r) && r in a.evidence ==>
                  r in a'.evidence && a'.evidence[r] == a.evidence[r])
  {
    DropRoleMembers(a.roles, Moderator);
    DropRoleMembers(a.roles, Owner);
  }

  lemma {:induction false} FoldRoles(es: seq<Event>, now: int, r: Role)
    requires AllInForce(es, now)
    ensures r in Fold(es, now).roles <==> exists i :: GrantStands(es, r, i)
  {
    hide ApplyEvent, GrantStands, StateIs;
    if es != [] {
      var front, e := es[..|es| - 1], es[|es| - 1];
      assert es == front + [e] && es[..|front|] == front;
      FoldRoles(front, now, r);
      FoldState(front, now);
      GrantSnoc(front, e, r);
      ApplyRole(Fold(front, now), e, r);
    } else {
      NoGrantStands(r);
    }
  }

  lemma NoGrantStands(r: Role)
    ensures forall i :: !GrantStands([], r, i)
  {
  }

  /** The evidence of a held role: the last event that granted it. */
  ghost predicate IsEvidence(es: seq<Event>, r: Role, e: Event) {
    exists i :: GrantStands(es, r, i) && es[i] == e && forall j :: i < j ==> !EffectiveGrant(es, r, j)
  }

  lemma EvidenceSnoc(front: seq<Event>, e: Event, r: Role, x: Event)
    requires IsEvidence(front, r, x) && !Ends(e.action, r) && !EffectiveGrant(front + [e], r, |front|)
    ensures IsEvidence(front + [e], r, x)
  {
    var es := front + [e];
    var i :| GrantStands(front, r, i) && front[i] == x && forall j :: i < j ==> !EffectiveGrant(front, r, j);
    assert es[..i] == front[..i];
    forall j | i < j ensures !EffectiveGrant(es, r, j) {
      if j < |front| {
        assert es[..j] == front[..j] && !EffectiveGrant(front, r, j);
      }
    }
    assert GrantStands(es, r, i);
  }

  lemma {:induction false} FoldEvidence(es: seq<Event>, now: int, r: Role)
    requires AllInForce(es, now) && r in Fold(es, now).roles
    ensures r in Fold(es, now).evidence && IsEvidence(es, r, Fold(es, now).evidence[r])
  {
    hide ApplyEvent, StateIs;
    if es != [] {
      var front, e := es[..|es| - 1], es[|es| - 1];
      assert es == front + [e] && es[..|front|] == front;
      FoldState(front, now);
      ApplyRole(Fold(front, now), e, r);
      if EffectiveGrant(es, r, |front|) {
        assert GrantStands(es, r, |front|);
      } else {
        FoldEvidence(front, now, r);
        EvidenceSnoc(front, e, r, Fold(front, now).evidence[r]);
      }
    }
  }

  /** Taking a role away, unlike the end of an active membership. */
  predicate Withdraws(a: Action, r: Role) {
    || (r == Moderator && a in {RevokeModerator, ResignModerator})
    || (r == Owner && a == RevokeOwner)
  }

  ghost predicate NotWithdrawn(es: seq<Event>, r: Role, i: int) {
    EffectiveGrant(es, r, i) && forall j :: i < j < |es| ==> !Withdraws(es[j].action, r)
  }

  lemma NotWithdrawnSnoc(front: seq<Event>, e: Event, r: Role)
    ensures var es := front + [e];
            (exists i :: NotWithdrawn(es, r, i)) <==>
              EffectiveGrant(es, r, |front|) || (!Withdraws(e.action, r) && exists i :: NotWithdrawn(front, r, i))
  {
    hide StateIs;
    var es := front + [e];
    assert es[..|front|] == front;
    if i :| NotWithdrawn(es, r, i) && i < |front| {
      assert es[..i] == front[..i] && es[|front|] == e;
      assert forall j :: i < j < |front| ==> es[j] == front[j];
      assert NotWithdrawn(front, r, i);
    }
    if i :| NotWithdrawn(front, r, i) && !Withdraws(e.action, r) {
      assert es[..i] == front[..i];
      assert forall j :: i < j < |front| ==> es[j] == front[j];
      assert NotWithdrawn(es, r, i);
    }
    if EffectiveGrant(es, r, |front|) {
      assert NotWithdrawn(es, r, |front|);
    }
  }

  lemma {:induction false} FoldKeepsEvidence(es: seq<Event>, now: int, r: Role)
    requires AllInForce(es, now)
    ensures r in Fold(es, now).evidence <==> exists i :: NotWithdrawn(es, r, i)
  {
    hide NotWithdrawn, StateIs;
    if es != [] {
      var front, e := es[..|es| - 1], es[|es| - 1];
      assert es == front + [e] && es[..|front|] == front;
      FoldKeepsEvidence(front, now, r);
      FoldState(front, now);
      NotWithdrawnSnoc(front, e, r);
    } else {
      NothingWithdrawn(r);
    }
  }

  lemma NothingWithdrawn(r: Role)
    ensures forall i :: !NotWithdrawn([], r, i)
  {
  }

  // ----- sorting -----

  lemma {:induction false} InsertMembers(es: seq<Event>, e: Event)
    ensures multiset(Insert(es, e)) == multiset(es) + multiset{e}
  {
    if es != [] && !Before(es[|es| - 1], e) {
      var front, last := es[..|es| - 1], es[|es| - 1];
      InsertMembers(front, e);
      assert es == front + [last];
    }
  }

  lemma OrderedSnoc(es: seq<Event>, last: Event)
    requires Ordered(es) && forall x :: x in es ==> Before(x, last)
    ensures Ordered(es + [last])
  {
  }

  lemma {:induction false} InsertOk(es: seq<Event>, e: Event)
    requires Ordered(es)
    ensures Ordered(Insert(es, e))
  {
    if es != [] && !Before(es[|es| - 1], e) {
      var front, last := es[..|es| - 1], es[|es| - 1];
      InsertOk(front, e);
      InsertMembers(front, e);
      forall x | x in Insert(front, e) ensures Before(x, last) {
        assert x in multiset(front) + multiset{e};
        assert x in front || x == e;
      }
      OrderedSnoc(Insert(front, e), last);
    }
  }

  lemma {:induction false} SortedOk(es: seq<Event>)
    ensures Ordered(Sorted(es)) && multiset(Sorted(es)) == multiset(es)
  {
    if es != [] {
      SortedOk(es[..|es| - 1]);
      InsertOk(Sorted(es[..|es| - 1]), es[|es| - 1]);
      InsertMembers(Sorted(es[..|es| - 1]), es[|es| - 1]);
      assert es == es[..|es| - 1] + [es[|es| - 1]];
    }
  }

  lemma WithKeySnoc(es: seq<Event>, e: Event, version: int, uri: int)
    ensures WithKey(es + [e], version, uri) ==
            if e.version == version && e.uri == uri then WithKey(es, version, uri) + [e] else WithKey(es, version, uri)
  {
    assert (es + [e])[..|es|] == es;
  }

  lemma {:induction false} InsertWithKey(es: seq<Event>, e: Event, version: int, uri: int)
    ensures WithKey(Insert(es, e), version, uri) == WithKey(es + [e], version, uri)
  {
    hide WithKey;
    if es != [] && !Before(es[|es| - 1], e) {
      var front, last := es[..|es| - 1], es[|es| - 1];
      InsertWithKey(front, e, version, uri);
      WithKeySnoc(front, e, version, uri);
      WithKeySnoc(front, last, version, uri);
      WithKeySnoc(Insert(front, e), last, version, uri);
      WithKeySnoc(es, e, version, uri);
      assert es == front + [last];
    }
  }

  lemma {:induction false} SortedIsStable(es: seq<Event>, version: int, uri: int)
    ensures WithKey(Sorted(es), version, uri) == WithKey(es, version, uri)
  {
    if es != [] {
      var front, last := es[..|es| - 1], es[|es| - 1];
      SortedIsStable(front, version, uri);
      InsertWithKey(Sorted(front), last, version, uri);
      WithKeySnoc(Sorted(front), last, version, uri);
      WithKeySnoc(front, last, version, uri);
      assert es == front + [last];
    }
  }

  ghost predicate DistinctKeys(es: seq<Event>) {
    forall a, b :: a in es && b in es && a.version == b.version && a.uri == b.uri ==> a == b
  }

  /** The last elements of two orderings of the same events agree. */
  lemma LastUnique(a: seq<Event>, b: seq<Event>)
    requires Ordered(a) && Ordered(b) && multiset(a) == multiset(b) && DistinctKeys(a) && a != [] && b != []
    ensures a[|a| - 1] == b[|b| - 1]
  {
    var x, y := a[|a| - 1], b[|b| - 1];
    assert x in multiset(b) && y in multiset(a);
    var i :| 0 <= i < |b| && b[i] == x;
    var j :| 0 <= j < |a| && a[j] == y;
    assert Before(x, y) || x == y;
    assert Before(y, x) || x == y;
  }

  lemma SameFront(a: seq<Event>, b: seq<Event>)
    requires a != [] && b != [] && a[|a| - 1] == b[|b| - 1] && multiset(a) == multiset(b)
    ensures multiset(a[..|a| - 1]) == multiset(b[..|b| - 1])
  {
    var x := a[|a| - 1];
    assert a == a[..|a| - 1] + [x] && b == b[..|b| - 1] + [x];
    assert multiset(a[..|a| - 1]) == multiset(a) - multiset{x};
    assert multiset(b[..|b| - 1]) == multiset(b) - multiset{x};
  }

  lemma {:induction false} OrderedUnique(a: seq<Event>, b: seq<Event>)
    requires Ordered(a) && Ordered(b) && multiset(a) == multiset(b) && DistinctKeys(a)
    ensures a == b
  {
    hide Before;
    assert |a| == |multiset(a)| == |multiset(b)| == |b|;
    if a != [] {
      LastUnique(a, b);
      SameFront(a, b);
      var front := a[..|a| - 1];
      forall e | e in front ensures e in a {}
      OrderedUnique(front, b[..|b| - 1]);
      assert a == front + [a[|a| - 1]] && b == b[..|b| - 1] + [b[|b| - 1]];
    }
  }

  lemma InForceSnoc(es: seq<Event>, e: Event, now: int)
    ensures OnlyInForce(es + [e], now) == if InForce(e, now) then OnlyInForce(es, now) + [e] else OnlyInForce(es, now)
  {
    assert (es + [e])[..|es|] == es;
  }

  /** What comes after the last event comes after the last one in force. */
  lemma AfterLastInForce(es: seq<Event>, e: Event, now: int)
    requires Ordered(es) && es != [] && Before(es[|es| - 1], e)
    ensures var kept := OnlyInForce(es, now); kept == [] || Before(kept[|kept| - 1], e)
  {
    hide Before;
    var kept := OnlyInForce(es, now);
    if kept != [] {
      var x := kept[|kept| - 1];
      assert x in kept;
      var i :| 0 <= i < |es| && es[i] == x;
      if i < |es| - 1 {
        assert Before(es[i], es[|es| - 1]);
        BeforeTransitive(es[i], es[|es| - 1], e);
      }
    }
  }

  lemma BeforeTransitive(a: Event, b: Event, c: Event)
    requires Before(a, b) && Before(b, c)
    ensures Before(a, c)
  {
  }

  lemma InsertSnoc(es: seq<Event>, x: Event, e: Event)
    ensures Before(x, e) ==> Insert(es + [x], e) == es + [x, e]
    ensures !Before(x, e) ==> Insert(es + [x], e) == Insert(es, e) + [x]
  {
    assert (es + [x])[..|es|] == es;
  }

  lemma {:induction false} InsertFiltered(es: seq<Event>, e: Event, now: int)
    requires Ordered(es)
    ensures OnlyInForce(Insert(es, e), now) ==
            if InForce(e, now) then Insert(OnlyInForce(es, now), e) else OnlyInForce(es, now)
  {
    if es == [] {
      assert ([e])[..0] == [];
    } else {
      var front, last := es[..|es| - 1], es[|es| - 1];
      assert es == front + [last];
      InForceSnoc(front, last, now);
      hide OnlyInForce, Before, InForce;
      if Before(last, e) {
        AfterLastInForce(es, e, now);
        InForceSnoc(es, e, now);
      } else {
        InsertFiltered(front, e, now);
        InForceSnoc(Insert(front, e), last, now);
        InsertSnoc(OnlyInForce(front, now), last, e);
      }
    }
  }

  lemma {:induction false} SortedFiltered(es: seq<Event>, now: int)
    ensures OnlyInForce(Sorted(es), now) == Sorted(OnlyInForce(es, now))
  {
    if es != [] {
      var front, e := es[..|es| - 1], es[|es| - 1];
      SortedFiltered(front, now);
      SortedOk(front);
      InsertFiltered(Sorted(front), e, now);
      var kept := OnlyInForce(front, now);
      if InForce(e, now) {
        assert (kept + [e])[..|kept|] == kept;
      } else {
        assert kept + [] == kept;
      }
    }
  }

  // ----- main results -----

  /** The in-force events in order: what the declarative reading speaks about. */
  function History(events: seq<Event>, now: int): seq<Event> {
    OnlyInForce(Sorted(events), now)
  }

  /** The state is that of the last membership event, and a role is held exactly while some grant of it stands. */
  lemma LastRelevantEventDecides(events: seq<Event>, now: int, r: Role)
    ensures var a, history := Derived(events, now), History(events, now);
            && StateIs(history, a.state)
            && (r in a.roles <==> exists i :: GrantStands(history, r, i))
            && (Member in a.roles <==> a.state == Active)
            && (r in a.roles ==> Member in a.roles)
  {
    var history := History(events, now);
    FoldSkips(Sorted(events), now);
    FoldState(history, now);
    FoldRoles(history, now, r);
    FoldRoles(history, now, Member);
    FoldMember(history, now);
  }

  lemma {:induction false} FoldMember(es: seq<Event>, now: int)
    ensures var a := Fold(es, now); (Member in a.roles <==> a.state == Active) && (a.state != Active ==> a.roles == [])
  {
    if es != [] {
      FoldMember(es[..|es| - 1], now);
      DropRoleMembers(Fold(es[..|es| - 1], now).roles, Moderator);
      DropRoleMembers(Fold(es[..|es| - 1], now).roles, Owner);
    }
  }

  /** Every held role is backed by the last in-force event that granted it. */
  lemma HeldRolesHaveEvidence(events: seq<Event>, now: int, r: Role)
    requires r in Derived(events, now).roles
    ensures var a := Derived(events, now);
            && r in a.evidence && IsEvidence(History(events, now), r, a.evidence[r])
            && a.evidence[r] in events && InForce(a.evidence[r], now) && Grants(a.evidence[r].action, r)
  {
    var history := History(events, now);
    FoldSkips(Sorted(events), now);
    FoldEvidence(history, now, r);
    var e := Derived(events, now).evidence[r];
    assert e in history;
    SortedOk(events);
    assert e in multiset(events);
  }

  /**
   * There is evidence for a role exactly if some grant of it was not withdrawn. A suspension, removal or block takes
   * the roles but not the evidence for them.
   */
  lemma EvidenceOutlivesMembership(events: seq<Event>, now: int, r: Role)
    ensures r in Derived(events, now).evidence <==> exists i :: NotWithdrawn(History(events, now), r, i)
  {
    FoldSkips(Sorted(events), now);
    FoldKeepsEvidence(History(events, now), now, r);
  }

  /** Any permutation of events with distinct keys gives the same result, down to the order of the roles. */
  lemma InputOrderIsIrrelevant(a: seq<Event>, b: seq<Event>, now: int)
    requires multiset(a) == multiset(b) && DistinctKeys(a)
    ensures Derived(a, now) == Derived(b, now)
  {
    SortedOk(a);
    SortedOk(b);
    forall e | e in Sorted(a) ensures e in a {
      assert e in multiset(Sorted(a));
    }
    OrderedUnique(Sorted(a), Sorted(b));
  }

  /** An event that is not yet, or no longer, in force might as well be absent; in particular an expired suspension. */
  lemma EventsOutOfForceDoNotMatter(before: seq<Event>, e: Event, after: seq<Event>, now: int)
    requires !InForce(e, now)
    ensures Derived(before + [e] + after, now) == Derived(before + after, now)
  {
    var with, without := before + [e] + after, before + after;
    SortedFiltered(with, now);
    SortedFiltered(without, now);
    FilterDrops(before, e, after, now);
    FoldSkips(Sorted(with), now);
    FoldSkips(Sorted(without), now);
  }

  lemma {:induction false} FilterDrops(before: seq<Event>, e: Event, after: seq<Event>, now: int)
    requires !InForce(e, now)
    ensures OnlyInForce(before + [e] + after, now) == OnlyInForce(before + after, now)
  {
    if after == [] {
      assert before + [e] + after == before + [e] && before + after == before;
      assert (before + [e])[..|before|] == before;
      assert OnlyInForce(before, now) + [] == OnlyInForce(before, now);
    } else {
      var front, last := after[..|after| - 1], after[|after| - 1];
      FilterDrops(before, e, front, now);
      assert (before + [e] + after)[..|before + [e] + after| - 1] == before + [e] + front;
      assert (before + after)[..|before + after| - 1] == before + front;
    }
  }

  // ----- capabilities -----

  const VISITOR_CAPABILITIES: set<string> := {"community.readPublic", "membership.request"}

  const MEMBER_CAPABILITIES: set<string> :=
    {"content.create", "content.share", "proposal.create", "deliberation.participate", "vote.cast",
     "delegation.manageOwn", "appeal.create", "membership.leave"}

  const MODERATOR_CAPABILITIES: set<string> :=
    {"content.moderate", "content.pin", "briefing.manage", "report.resolve", "member.suspendTemporary",
     "assembly.facilitate", "decision.execute"}

  const OWNER_CAPABILITIES: set<string> :=
    {"community.settings.manage", "role.moderator.manage", "governance.change.propose", "owner.transfer",
     "governance.execute"}

  function Capabilities(roles: seq<Role>): set<string> {
    VISITOR_CAPABILITIES
    + (if Member in roles then MEMBER_CAPABILITIES else {})
    + (if Moderator in roles || Owner in roles then MODERATOR_CAPABILITIES else {})
    + (if Owner in roles then OWNER_CAPABILITIES else {})
  }

  /** Whatever was granted, a member whose last membership event is not an activation is a visitor. */
  lemma InactiveMembersAreVisitors(events: seq<Event>, now: int)
    ensures !StateIs(History(events, now), Active) <==>
            Capabilities(Derived(events, now).roles) == VISITOR_CAPABILITIES
  {
    var history := History(events, now);
    FoldSkips(Sorted(events), now);
    FoldState(history, now);
    FoldMember(history, now);
    if StateIs(history, Active) {
      assert "vote.cast" in MEMBER_CAPABILITIES;
    }
  }

  lemma VisitorsApart()
    ensures VISITOR_CAPABILITIES !! MEMBER_CAPABILITIES + MODERATOR_CAPABILITIES + OWNER_CAPABILITIES
  {
  }

  lemma MembersApart()
    ensures MEMBER_CAPABILITIES !! MODERATOR_CAPABILITIES + OWNER_CAPABILITIES
  {
  }

  lemma OwnersApart()
    ensures OWNER_CAPABILITIES !! MODERATOR_CAPABILITIES
  {
  }

  /**
   * Every capability goes back to the history: a member's to an activation that still stands, a moderator's to a
   * standing grant of that role or of ownership, an owner's to a standing grant of ownership.
   */
  lemma CapabilitiesHaveGrants(events: seq<Event>, now: int, c: string)
    ensures var history, may := History(events, now), Capabilities(Derived(events, now).roles);
            && (c in VISITOR_CAPABILITIES ==> c in may)
            && (c in MEMBER_CAPABILITIES ==> (c in may <==> StateIs(history, Active)))
            && (c in MODERATOR_CAPABILITIES ==>
                  (c in may <==> exists r, i :: (r == Moderator || r == Owner) && GrantStands(history, r, i)))
            && (c in OWNER_CAPABILITIES ==> (c in may <==> exists i :: GrantStands(history, Owner, i)))
            && (c in may ==> c in VISITOR_CAPABILITIES + MEMBER_CAPABILITIES + MODERATOR_CAPABILITIES
                                  + OWNER_CAPABILITIES)
  {
    VisitorsApart();
    MembersApart();
    OwnersApart();
    LastRelevantEventDecides(events, now, Member);
    LastRelevantEventDecides(events, now, Moderator);
    LastRelevantEventDecides(events, now, Owner);
    FoldSkips(Sorted(events), now);
    FoldState(History(events, now), now);
    hide GrantStands, StateIs, History, Derived;
  }

  /** The dates: in force from the effective date up to the expiry, and a date that does not parse excludes nothing. */
  lemma DatesDecide(e: Event, now: int)
    requires e.action == Activate
    ensures Derived([e], now).state == Active
            <==> (e.effectiveAt.None? || e.effectiveAt.value <= now) && (!e.expiresAt.At? || now < e.expiresAt.time)
    ensures Derived([e], now).state != Active ==> Derived([e], now) == NOBODY
  {
    assert [e][..0] == [] && Sorted([]) == [] && Sorted([e]) == [e];
    assert Fold([], now) == NOBODY;
    assert Fold([e], now) == if InForce(e, now) then ApplyEvent(NOBODY, e) else NOBODY;
  }
}
