/**
 * The credential session: one session object, one shared refresh promise, and refreshes that
 * compare object identities before they touch the session. Every span between two awaits is one
 * event; a refresh that waits for a response is a frame.
 */
module CredentialSessions {
  import opened Prelude

  // `id` is the identity of the session object: assigning a new object literal takes a fresh one.
  datatype Session = Session(id: nat, did: nat, token: nat)

  datatype Phase = Requesting | FetchingProfile(did: nat, token: nat) | Finishing | Finished

  datatype Refresh = Refresh(session: Session, epoch: nat, phase: Phase)

  datatype State = State(
    session: Option<Session>,
    promise: Option<nat>,      // refreshSessionPromise, as an index into the frames
    refreshes: seq<Refresh>,
    epoch: nat,                // how often the session was replaced or cleared
    nextId: nat
  )

  datatype Failure = BadToken | Transient

  datatype Event =
    | LoginBegins
    | LoginSucceeds(did: nat, token: nat)
    | LoginFails
    | CreateBegins
    | CreateSucceeds(did: nat, token: nat)
    | CreateFails
    | LogoutEnds
    | Resume(given: Session)
    | CallRefresh
    | Responds(frame: nat, did: nat, token: nat, complete: bool)
    | RequestFails(frame: nat, failure: Failure)
    | ProfileArrives(frame: nat)
    | Cleanup(frame: nat)

  function SetSession(s: State, session: Option<Session>): State {
    s.(session := session, epoch := if session == s.session then s.epoch else s.epoch + 1)
  }

  function NewSession(s: State, did: nat, token: nat): State {
    SetSession(s, Some(Session(s.nextId, did, token))).(nextId := s.nextId + 1)
  }

  function SetPhase(s: State, i: nat, phase: Phase): State
    requires i < |s.refreshes|
  {
    s.(refreshes := s.refreshes[i := s.refreshes[i].(phase := phase)])
  }

  function BeginRefresh(s: State): State {
    if s.session.None? || s.promise.Some? then s
    else s.(promise := Some(|s.refreshes|), refreshes := s.refreshes + [Refresh(s.session.value, s.epoch, Requesting)])
  }

  /** The catch block: only a bad token clears the session, and only if it is still the one being refreshed. */
  function Fails(s: State, i: nat, failure: Failure): State
    requires i < |s.refreshes|
  {
    var cleared := s.session == Some(s.refreshes[i].session) && failure == BadToken;
    SetPhase(if cleared then SetSession(s, None) else s, i, Finishing)
  }

  /** After the last response: a concurrent update wins. */
  function Commits(s: State, i: nat, did: nat, token: nat): State
    requires i < |s.refreshes|
  {
    SetPhase(if s.session == Some(s.refreshes[i].session) then NewSession(s, did, token) else s, i, Finishing)
  }

  predicate In(s: State, i: nat, phase: Phase) {
    i < |s.refreshes| && s.refreshes[i].phase == phase
  }

  function Apply(s: State, e: Event): State {
    match e
    case LoginBegins => SetSession(s, None).(promise := None)
    case CreateBegins => SetSession(s, None).(promise := None)
    case LoginSucceeds(did, token) =>
      if s.session.Some? then SetSession(s, None) else NewSession(s, did, token)  // concurrent login detected
    case CreateSucceeds(did, token) => NewSession(s, did, token)
    case LoginFails => SetSession(s, None)
    case CreateFails => SetSession(s, None)
    case LogoutEnds => SetSession(s, None)
    case Resume(given) =>
      if s.session.Some? && s.session.value.token == given.token then BeginRefresh(s)
      else
        var nextId := if s.nextId <= given.id then given.id + 1 else s.nextId;
        BeginRefresh(SetSession(s, Some(given)).(promise := None, nextId := nextId))
    case CallRefresh => BeginRefresh(s)
    case Responds(i, did, token, complete) =>
      if !In(s, i, Requesting) then s
      else if did != s.refreshes[i].session.did then Fails(s, i, BadToken)   // InvalidDID
      else if complete then Commits(s, i, did, token)
      else SetPhase(s, i, FetchingProfile(did, token))
    case RequestFails(i, failure) =>
      if In(s, i, Requesting) then Fails(s, i, failure) else s
    case ProfileArrives(i) =>
      // whether the profile arrives or not, the DID and token of the refresh are kept
      if i < |s.refreshes| && s.refreshes[i].phase.FetchingProfile?
      then Commits(s, i, s.refreshes[i].phase.did, s.refreshes[i].phase.token) else s
    case Cleanup(i) =>
      if !In(s, i, Finishing) then s
      else SetPhase(if s.promise == Some(i) then s.(promise := None) else s, i, Finished)
  }

  function Run(s: State, events: seq<Event>): State {
    if events == [] then s else Apply(Run(s, events[..|events| - 1]), events[|events| - 1])
  }

  const INITIAL := State(None, None, [], 0, 0)

  /** The session manager: its own fields, and the frames of the refreshes that are under way. */
  class CredentialSession {
    var session: Option<Session>
    var refreshSessionPromise: Option<nat>
    var refreshes: seq<Refresh>
    var epoch: nat
    var nextId: nat

    function View(): State
      reads this
    {
      State(session, refreshSessionPromise, refreshes, epoch, nextId)
    }

    constructor ()
      ensures View() == INITIAL
    {
      session, refreshSessionPromise, refreshes, epoch, nextId := None, None, [], 0, 0;
    }

    method Assign(next: Option<Session>)
      modifies this`session, this`epoch
      ensures View() == SetSession(old(View()), next)
    {
      if next != session {
        epoch := epoch + 1;
      }
      session := next;
    }

    method AssignNew(did: nat, token: nat)
      modifies this`session, this`epoch, this`nextId
      ensures View() == NewSession(old(View()), did, token)
    {
      Assign(Some(Session(nextId, did, token)));
      nextId := nextId + 1;
    }

    /** None stands for the exception when there is no session. */
    method RefreshSession() returns (promise: Option<nat>)
      modifies this`refreshSessionPromise, this`refreshes
      ensures View() == Apply(old(View()), CallRefresh)
      ensures promise == if session.None? then None else refreshSessionPromise
      ensures session.Some? ==> promise.Some?
      ensures session.Some? && old(refreshSessionPromise).Some? ==> promise == old(refreshSessionPromise)
    {
      if session.None? {
        return None;
      }
      if refreshSessionPromise.Some? {
        return refreshSessionPromise;
      }
      refreshSessionPromise := Some(|refreshes|);
      refreshes := refreshes + [Refresh(session.value, epoch, Requesting)];
      promise := refreshSessionPromise;
    }

    method ResumeSession(given: Session) returns (promise: Option<nat>)
      modifies this
      ensures View() == Apply(old(View()), Resume(given))
      ensures promise.Some? && promise == refreshSessionPromise
      ensures session.Some? && session.value.token == given.token
      ensures old(session.None? || session.value.token != given.token) ==>
                session == Some(given) && promise == Some(old(|refreshes|)) && In(View(), promise.value, Requesting)
                && refreshes[promise.value].session == given
      ensures old(session.Some? && session.value.token == given.token) ==> session == old(session)
      ensures old(session.Some? && session.value.token == given.token && refreshSessionPromise.Some?) ==>
                promise == old(refreshSessionPromise) && refreshes == old(refreshes)
    {
      if session.None? || session.value.token != given.token {
        Assign(Some(given));
        refreshSessionPromise := None;
        if nextId <= given.id {
          nextId := given.id + 1;
        }
      }
      promise := RefreshSession();
    }

    method Finish(frame: nat)
      requires frame < |refreshes|
      modifies this`refreshes
      ensures View() == SetPhase(old(View()), frame, Finishing)
    {
      refreshes := refreshes[frame := refreshes[frame].(phase := Finishing)];
    }

    method OnError(frame: nat, failure: Failure)
      requires frame < |refreshes|
      modifies this
      ensures View() == Fails(old(View()), frame, failure)
    {
      if session == Some(refreshes[frame].session) && failure == BadToken {
        Assign(None);
      }
      Finish(frame);
    }

    method Commit(frame: nat, did: nat, token: nat)
      requires frame < |refreshes|
      modifies this
      ensures View() == Commits(old(View()), frame, did, token)
    {
      if session == Some(refreshes[frame].session) {
        AssignNew(did, token);
      }
      Finish(frame);
    }

    method OnResponse(frame: nat, did: nat, token: nat, complete: bool)
      requires In(View(), frame, Requesting)
      modifies this
      ensures View() == Apply(old(View()), Responds(frame, did, token, complete))
      ensures old(did == refreshes[frame].session.did && complete && session == Some(refreshes[frame].session)) ==>
                session.Some? && session.value.did == did && session.value.token == token
      ensures old(did == refreshes[frame].session.did && (!complete || session != Some(refreshes[frame].session))) ==>
                session == old(session)
    {
      if did != refreshes[frame].session.did {
        OnError(frame, BadToken);
      } else if complete {
        Commit(frame, did, token);
      } else {
        refreshes := refreshes[frame := refreshes[frame].(phase := FetchingProfile(did, token))];
      }
    }

    method OnFinally(frame: nat)
      requires In(View(), frame, Finishing)
      modifies this
      ensures View() == Apply(old(View()), Cleanup(frame))
    {
      if refreshSessionPromise == Some(frame) {
        refreshSessionPromise := None;
      }
      refreshes := refreshes[frame := refreshes[frame].(phase := Finished)];
    }
  }

  // ----- what every run keeps -----

  predicate InFlight(r: Refresh) {
    r.phase.Requesting? || r.phase.FetchingProfile?
  }

  predicate RefreshOk(s: State, i: nat)
    requires i < |s.refreshes|
  {
    var r := s.refreshes[i];
    && r.epoch <= s.epoch
    && r.session.id < s.nextId
    && (r.phase.FetchingProfile? ==> r.phase.did == r.session.did)
    && (InFlight(r) && r.epoch == s.epoch ==> s.promise == Some(i) && s.session == Some(r.session))
  }

  ghost predicate Inv(s: State) {
    && (forall i :: 0 <= i < |s.refreshes| ==> RefreshOk(s, i))
    && (forall i, j :: 0 <= i < j < |s.refreshes| && InFlight(s.refreshes[i]) && InFlight(s.refreshes[j]) ==>
          s.refreshes[i].epoch != s.refreshes[j].epoch)
    && (s.session.Some? ==> s.session.value.id < s.nextId)
  }

  lemma SetSessionOk(s: State, next: Option<Session>)
    requires Inv(s) && (next.Some? ==> next.value.id < s.nextId)
    ensures Inv(SetSession(s, next))
    ensures next != s.session ==>
              forall i :: 0 <= i < |s.refreshes| ==> s.refreshes[i].epoch < SetSession(s, next).epoch
  {
    var s' := SetSession(s, next);
    forall i | 0 <= i < |s'.refreshes| ensures RefreshOk(s', i) {
      assert RefreshOk(s, i);
    }
    forall i | next != s.session && 0 <= i < |s.refreshes| ensures s.refreshes[i].epoch < s'.epoch {
      assert RefreshOk(s, i);
    }
  }

  /** Dropping the promise is harmless while no refresh of the current epoch is in flight. */
  lemma DropPromiseOk(s: State)
    requires Inv(s) && forall i :: 0 <= i < |s.refreshes| && InFlight(s.refreshes[i]) ==> s.refreshes[i].epoch < s.epoch
    ensures Inv(s.(promise := None))
  {
    forall i | 0 <= i < |s.refreshes| ensures RefreshOk(s.(promise := None), i) {
      assert RefreshOk(s, i);
    }
  }

  lemma IdsGrow(s: State, nextId: nat)
    requires Inv(s) && s.nextId <= nextId
    ensures Inv(s.(nextId := nextId))
  {
    forall i | 0 <= i < |s.refreshes| ensures RefreshOk(s.(nextId := nextId), i) {
      assert RefreshOk(s, i);
    }
  }

  lemma NewSessionOk(s: State, did: nat, token: nat)
    requires Inv(s)
    ensures Inv(NewSession(s, did, token))
  {
    IdsGrow(s, s.nextId + 1);
    SetSessionOk(s.(nextId := s.nextId + 1), Some(Session(s.nextId, did, token)));
  }

  lemma BeginRefreshOk(s: State)
    requires Inv(s)
    ensures Inv(BeginRefresh(s))
  {
    var s' := BeginRefresh(s);
    forall i | 0 <= i < |s'.refreshes| ensures RefreshOk(s', i) {
      assert i < |s.refreshes| ==> RefreshOk(s, i);
    }
    forall i, j | 0 <= i < j < |s'.refreshes| && InFlight(s'.refreshes[i]) && InFlight(s'.refreshes[j])
      ensures s'.refreshes[i].epoch != s'.refreshes[j].epoch
    {
      assert RefreshOk(s, i);
    }
  }

  lemma SetPhaseOk(s: State, i: nat, phase: Phase)
    requires Inv(s) && i < |s.refreshes|
    requires !phase.Requesting?
    requires phase.FetchingProfile? ==> InFlight(s.refreshes[i]) && phase.did == s.refreshes[i].session.did
    ensures Inv(SetPhase(s, i, phase))
  {
    var s' := SetPhase(s, i, phase);
    forall k | 0 <= k < |s'.refreshes| ensures RefreshOk(s', k) {
      assert RefreshOk(s, k);
    }
  }

  lemma ClearedOk(s: State)
    requires Inv(s)
    ensures Inv(SetSession(s, None).(promise := None))
  {
    SetSessionOk(s, None);
    var t := SetSession(s, None);
    forall i | 0 <= i < |t.refreshes| && InFlight(t.refreshes[i]) ensures t.refreshes[i].epoch < t.epoch {
      assert RefreshOk(t, i);
    }
    DropPromiseOk(t);
  }

  lemma ResumeOk(s: State, given: Session)
    requires Inv(s)
    ensures Inv(Apply(s, Resume(given)))
  {
    if s.session.Some? && s.session.value.token == given.token {
      BeginRefreshOk(s);
    } else {
      var nextId := if s.nextId <= given.id then given.id + 1 else s.nextId;
      IdsGrow(s, nextId);
      var t := s.(nextId := nextId);
      SetSessionOk(t, Some(given));
      DropPromiseOk(SetSession(t, Some(given)));
      BeginRefreshOk(SetSession(t, Some(given)).(promise := None));
    }
  }

  lemma CleanupOk(s: State, i: nat)
    requires Inv(s) && In(s, i, Finishing)
    ensures Inv(Apply(s, Cleanup(i)))
  {
    var t := if s.promise == Some(i) then s.(promise := None) else s;
    forall k | 0 <= k < |t.refreshes| ensures RefreshOk(t, k) {
      assert RefreshOk(s, k);
    }
    SetPhaseOk(t, i, Finished);
  }

  lemma FailsOk(s: State, i: nat, failure: Failure)
    requires Inv(s) && i < |s.refreshes|
    ensures Inv(Fails(s, i, failure))
  {
    SetSessionOk(s, None);
    SetPhaseOk(if s.session == Some(s.refreshes[i].session) && failure == BadToken then SetSession(s, None) else s,
               i, Finishing);
  }

  lemma CommitsOk(s: State, i: nat, did: nat, token: nat)
    requires Inv(s) && i < |s.refreshes|
    ensures Inv(Commits(s, i, did, token))
  {
    NewSessionOk(s, did, token);
    SetPhaseOk(if s.session == Some(s.refreshes[i].session) then NewSession(s, did, token) else s, i, Finishing);
  }

  lemma ApplyOk(s: State, e: Event)
    requires Inv(s)
    ensures Inv(Apply(s, e))
  {
    hide Inv;
    SetSessionOk(s, None);
    match e
    case LoginBegins => ClearedOk(s);
    case CreateBegins => ClearedOk(s);
    case LoginSucceeds(did, token) => NewSessionOk(s, did, token);
    case CreateSucceeds(did, token) => NewSessionOk(s, did, token);
    case Resume(given) => ResumeOk(s, given);
    case CallRefresh => BeginRefreshOk(s);
    case Responds(i, did, token, complete) =>
      if In(s, i, Requesting) {
        FailsOk(s, i, BadToken);
        CommitsOk(s, i, did, token);
        if did == s.refreshes[i].session.did {
          SetPhaseOk(s, i, FetchingProfile(did, token));
        }
      }
    case RequestFails(i, failure) =>
      if In(s, i, Requesting) {
        FailsOk(s, i, failure);
      }
    case ProfileArrives(i) =>
      if i < |s.refreshes| && s.refreshes[i].phase.FetchingProfile? {
        CommitsOk(s, i, s.refreshes[i].phase.did, s.refreshes[i].phase.token);
      }
    case Cleanup(i) =>
      if In(s, i, Finishing) {
        CleanupOk(s, i);
      }
    case _ =>
  }

  lemma {:induction false} RunOk(events: seq<Event>)
    ensures Inv(Run(INITIAL, events))
  {
    if events != [] {
      RunOk(events[..|events| - 1]);
      ApplyOk(Run(INITIAL, events[..|events| - 1]), events[|events| - 1]);
    }
  }

  // ----- main results -----

  /** Between two replacements of the session at most one refresh request is in flight. */
  lemma SingleFlight(events: seq<Event>, i: nat, j: nat)
    requires var s := Run(INITIAL, events);
             i < |s.refreshes| && j < |s.refreshes| && InFlight(s.refreshes[i]) && InFlight(s.refreshes[j])
             && s.refreshes[i].epoch == s.refreshes[j].epoch
    ensures i == j
  {
    RunOk(events);
  }

  predicate IsRefreshStep(e: Event) {
    e.CallRefresh? || e.Responds? || e.RequestFails? || e.ProfileArrives? || e.Cleanup?
  }

  /**
   * A refresh changes the session only while the session is still the very object it was begun for; what it leaves
   * is nothing, or a new object, never used before, for the same account.
   */
  lemma RefreshNeverClobbers(events: seq<Event>, e: Event)
    requires IsRefreshStep(e) && Apply(Run(INITIAL, events), e).session != Run(INITIAL, events).session
    ensures var s := Run(INITIAL, events); var next := Apply(s, e).session;
            && (e.Responds? || e.RequestFails? || e.ProfileArrives?)
            && e.frame < |s.refreshes| && InFlight(s.refreshes[e.frame])
            && s.session == Some(s.refreshes[e.frame].session)
            && (next.Some? ==> next.value.did == s.session.value.did
                               && next.value.id !in (set i | 0 <= i < |s.refreshes| :: s.refreshes[i].session.id)
                               && next.value.id != s.session.value.id)
  {
    RunOk(events);
    var s := Run(INITIAL, events);
    if e.ProfileArrives? && e.frame < |s.refreshes| {
      assert RefreshOk(s, e.frame);
    }
    forall i | 0 <= i < |s.refreshes| ensures s.refreshes[i].session.id < s.nextId {
      assert RefreshOk(s, i);
    }
  }

  /** However refreshes interleave among themselves, the account of a session does not change under them. */
  lemma {:induction false} RefreshesKeepTheAccount(before: seq<Event>, events: seq<Event>)
    requires forall e :: e in events ==> IsRefreshStep(e)
    requires Run(INITIAL, before).session.Some?
    ensures var s, t := Run(INITIAL, before), Run(INITIAL, before + events);
            t.session.Some? ==> t.session.value.did == s.session.value.did
  {
    hide Apply;
    if events == [] {
      assert before + events == before;
    } else {
      var front, e := events[..|events| - 1], events[|events| - 1];
      RefreshesKeepTheAccount(before, front);
      assert (before + events)[..|before + events| - 1] == before + front;
      assert forall x :: x in front ==> x in events;
      var t := Run(INITIAL, before + front);
      if Apply(t, e).session != t.session {
        RefreshNeverClobbers(before + front, e);
      }
    }
  }

  // ----- what becomes of the session -----

  /** The session is that of a refresh, as the same object. */
  predicate IsCurrent(s: State, i: nat)
    requires i < |s.refreshes|
  {
    s.session == Some(s.refreshes[i].session)
  }

  /** A new object with this account and token. */
  predicate Replaced(s: State, t: State, did: nat, token: nat) {
    t.session == Some(Session(s.nextId, did, token)) && s.nextId < t.nextId
  }

  /** A complete response for the right account: its token replaces the old one, unless another session is current. */
  lemma RefreshStoresTheToken(s: State, i: nat, did: nat, token: nat)
    requires In(s, i, Requesting) && did == s.refreshes[i].session.did
    ensures var t := Apply(s, Responds(i, did, token, true));
            && In(t, i, Finishing)
            && if IsCurrent(s, i) then Replaced(s, t, did, token) else t.session == s.session
  {
  }

  /** What a frame has been told waits for the profile, whatever else happens. */
  lemma {:induction false} TokenWaits(s: State, events: seq<Event>, i: nat, r: Refresh)
    requires i < |s.refreshes| && s.refreshes[i] == r && r.phase.FetchingProfile? && ProfileArrives(i) !in events
    ensures var t := Run(s, events); i < |t.refreshes| && t.refreshes[i] == r
  {
    if events != [] {
      var front, e := events[..|events| - 1], events[|events| - 1];
      assert e in events && forall x :: x in front ==> x in events;
      TokenWaits(s, front, i, r);
    }
  }

  /** The same when the response lacks the profile's fields: the token stored in the end is that of the response. */
  lemma ProfileStoresTheToken(s: State, i: nat, did: nat, token: nat, during: seq<Event>)
    requires In(s, i, Requesting) && did == s.refreshes[i].session.did && ProfileArrives(i) !in during
    ensures var told := Apply(s, Responds(i, did, token, false)); var t := Run(told, during);
            && told.session == s.session && i < |t.refreshes|
            && var u := Apply(t, ProfileArrives(i));
               && In(u, i, Finishing) && t.refreshes[i].session == s.refreshes[i].session
               && if IsCurrent(t, i) then Replaced(t, u, did, token) else u.session == t.session
  {
    hide Run;
    var told := Apply(s, Responds(i, did, token, false));
    TokenWaits(told, during, i, told.refreshes[i]);
  }

  /** A bad token, or another account's, ends the session if it is still the one refreshed; other failures leave it. */
  lemma FailedRefresh(s: State, i: nat, did: nat, token: nat, complete: bool, failure: Failure)
    requires In(s, i, Requesting)
    ensures var t := Apply(s, RequestFails(i, failure));
            In(t, i, Finishing) && t.session == if IsCurrent(s, i) && failure == BadToken then None else s.session
    ensures did != s.refreshes[i].session.did ==>
              var t := Apply(s, Responds(i, did, token, complete));
              In(t, i, Finishing) && t.session == if IsCurrent(s, i) then None else s.session
  {
  }

  /**
   * A refresh from its call to its end: the caller gets a frame for the current session, its response is stored, and
   * the next call begins a refresh of what was stored.
   */
  lemma RefreshCycle(s: State, token: nat)
    requires s.session.Some? && s.promise.None?
    ensures var i, did := |s.refreshes|, s.session.value.did;
            var begun := Apply(s, CallRefresh);
            && begun.refreshes == s.refreshes + [Refresh(s.session.value, s.epoch, Requesting)]
            && begun.promise == Some(i) && begun.session == s.session
            && var ended := Apply(Apply(begun, Responds(i, did, token, true)), Cleanup(i));
               && Replaced(s, ended, did, token) && ended.promise == None && |ended.refreshes| == i + 1
               && Apply(ended, CallRefresh).promise == Some(i + 1)
               && Apply(ended, CallRefresh).refreshes[i + 1].session == ended.session.value
  {
  }

  /** Without a session, or with a refresh under way, a call begins none; what ends drops only its own promise. */
  lemma JoinsAndCleansUp(s: State, i: nat)
    ensures s.session.None? || s.promise.Some? ==> Apply(s, CallRefresh) == s
    ensures In(s, i, Finishing) ==>
              var t := Apply(s, Cleanup(i));
              && In(t, i, Finished) && t.session == s.session
              && t.promise == if s.promise == Some(i) then None else s.promise
  {
  }

  /** Signing in drops session and promise first; a login that meets another session ends both. */
  lemma SigningIn(s: State, did: nat, token: nat)
    ensures forall e :: e == LoginBegins || e == CreateBegins ==>
              Apply(s, e).session == None && Apply(s, e).promise == None
    ensures forall e :: e == LoginFails || e == CreateFails || e == LogoutEnds ==>
              Apply(s, e).session == None && Apply(s, e).promise == s.promise
    ensures Replaced(s, Apply(s, CreateSucceeds(did, token)), did, token)
    ensures var t := Apply(s, LoginSucceeds(did, token));
            if s.session.None? then Replaced(s, t, did, token) else t.session == None
  {
  }

  /** The epoch counts the replacements of the session, so frames of one epoch were begun for one session. */
  lemma EpochCountsReplacements(s: State, e: Event)
    ensures Apply(s, e).epoch == s.epoch + if Apply(s, e).session == s.session then 0 else 1
  {
  }
}
