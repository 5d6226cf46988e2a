/**
 Live revocation as a state machine: handshakes, admissions, closes and reloads interleaved.

 The revocation set is swapped without the transport lock, so an admission that has passed
 its check can still be about to insert when the swap happens; it holds the lock for both
 halves, and the scan needs that same lock.  Raw closes happen outside the lock.
 */
module ReloadMachine {
  import opened Common
  import opened RelayConnections

  /** The transport lock, with what its holder has already established. */
  datatype Lock = Free | Admitting(c: Socket, serial: Serial)

  /** The reload lock's holder: from loading the file to the deferred close. */
  datatype Reload =
    | Idle
    | Loading(requester: Socket)
    | Swapped(requester: Socket)
    | Evicting(toClose: set<Socket>, deferred: Option<Socket>)
    | Replied(last: Socket)
    | DeferredClosed(last: Socket)
    | Finished

  datatype State = State(
    conns: Tracked,                    // the tracked sockets
    open: set<Socket>,                 // raw transports not yet closed
    authed: map<Socket, Serial>,       // every admission ever made
    revoked: set<Serial>, lock: Lock, reload: Reload, next: Socket)

  datatype Action =
    | Accept
    | AuthCheck(c: Socket, serial: Option<Serial>)
    | AuthInsert
    | CloseRaw(c: Socket)
    | Forget(c: Socket)
    | CloseAll
    | ReloadBegin(requester: Socket)
    | ReloadRefuse
    | Swap(serials: set<Serial>)
    | Scan
    | CloseEvicted(c: Socket)
    | Reply
    | CloseDeferred
    | ForgetDeferred
    | ReloadEnd

  /** One step; an action that is not enabled changes nothing. */
  function Apply(s: State, a: Action): State {
    match a
    case Accept =>
      var (conns, ok) := TrackOne(s.conns, s.next);
      s.(conns := conns, open := if ok then s.open + {s.next} else s.open, next := s.next + 1)
    case AuthCheck(c, serial) =>
      if s.lock.Free? && serial.Some? && MayAuthenticate(s.conns, c, serial, s.revoked)
      then s.(lock := Admitting(c, serial.value)) else s
    case AuthInsert =>
      if s.lock.Admitting?
      then s.(conns := s.conns[s.lock.c := Some(s.lock.serial)], authed := s.authed[s.lock.c := s.lock.serial], lock := Free)
      else s
    case CloseRaw(c) => s.(open := s.open - {c})
    case Forget(c) => if s.lock.Free? && c !in s.open then s.(conns := s.conns - {c}) else s
    case CloseAll => if s.lock.Free? then s.(conns := map[], open := s.open - s.conns.Keys) else s
    case ReloadBegin(requester) => if s.reload.Idle? then s.(reload := Loading(requester)) else s
    case ReloadRefuse => if s.reload.Loading? then s.(reload := Finished) else s
    case Swap(serials) =>
      if s.reload.Loading? then s.(revoked := serials, reload := Swapped(s.reload.requester)) else s
    case Scan =>
      if s.reload.Swapped? && s.lock.Free? then
        var reply := Some(s.reload.requester);
        s.(conns := Evict(s.conns, s.revoked, reply),
           reload := Evicting(Covered(s.conns, s.revoked) - Sockets(reply), Deferred(s.conns, s.revoked, reply)))
      else s
    case CloseEvicted(c) =>
      if s.reload.Evicting? && c in s.reload.toClose
      then s.(open := s.open - {c}, reload := Evicting(s.reload.toClose - {c}, s.reload.deferred)) else s
    case Reply =>
      if s.reload.Evicting? && s.reload.toClose == {}
      then s.(reload := if s.reload.deferred.Some? then Replied(s.reload.deferred.value) else Finished) else s
    case CloseDeferred =>
      if s.reload.Replied? then s.(open := s.open - {s.reload.last}, reload := DeferredClosed(s.reload.last)) else s
    case ForgetDeferred =>
      if s.reload.DeferredClosed? && s.lock.Free? then s.(conns := s.conns - {s.reload.last}, reload := Finished) else s
    case ReloadEnd => if s.reload.Finished? then s.(reload := Idle) else s
  }

  function Start(revoked: set<Serial>): State {
    State(map[], {}, map[], revoked, Free, Idle, 0)
  }

  function Run(s: State, actions: seq<Action>): State
    decreases actions
  {
    if actions == [] then s else Run(Apply(s, actions[0]), actions[1..])
  }

  /** The sockets a scan has set aside until the reply is out. */
  function SetAside(r: Reload): set<Socket> {
    match r
    case Evicting(_, deferred) => Sockets(deferred)
    case Replied(c) => {c}
    case DeferredClosed(c) => {c}
    case _ => {}
  }

  /** The sockets a scan has untracked and not yet closed. */
  function Condemned(r: Reload): set<Socket> {
    if r.Evicting? then r.toClose else {}
  }

  // ---- the invariant ---------------------------------------------------------------------

  /** Tracked serials are exactly the ones admissions recorded. */
  ghost predicate SerialsRecorded(conns: Tracked, authed: map<Socket, Serial>) {
    forall c :: c in conns ==> conns[c] == (if c in authed then Some(authed[c]) else None)
  }

  /** An open admitted socket is tracked, or condemned by the scan at work. */
  ghost predicate OpenAreWatched(s: State) {
    forall c :: c in s.open && c in s.authed ==> c in s.conns || c in Condemned(s.reload)
  }

  /** Unless a swap still awaits its scan, nothing tracked or being admitted is revoked, but for what is set aside. */
  ghost predicate Enforced(s: State) {
    !s.reload.Swapped? ==>
      && (forall c :: IsCovered(s.conns, s.revoked, c) ==> c in SetAside(s.reload))
      && (s.lock.Admitting? ==> s.lock.serial !in s.revoked)
  }

  ghost predicate Numbered(s: State) {
    && (forall c :: c in s.conns ==> c < s.next)
    && (forall c :: c in s.authed ==> c < s.next)
    && (s.reload.Evicting? && s.reload.deferred.Some? ==> s.reload.deferred.value < s.next)
    && (s.reload.Replied? || s.reload.DeferredClosed? ==> s.reload.last < s.next)
  }

  ghost predicate HoldersProper(s: State) {
    && (s.lock.Admitting? ==> s.lock.c in s.conns)
    && (s.reload.DeferredClosed? ==> s.reload.last !in s.open)
  }

  ghost predicate Inv(s: State) {
    && |s.conns| <= MAX_CONNECTIONS
    && SerialsRecorded(s.conns, s.authed)
    && OpenAreWatched(s)
    && Enforced(s)
    && Numbered(s)
    && HoldersProper(s)
  }

  lemma {:induction false} Fewer(a: set<Socket>, b: set<Socket>)
    requires a <= b
    ensures |a| <= |b|
  {
    assert b == a + (b - a);
  }

  lemma FewerKeys(m: Tracked, n: Tracked)
    requires m.Keys <= n.Keys
    ensures |m| <= |n|
  {
    Fewer(m.Keys, n.Keys);
    assert |m| == |m.Keys| && |n| == |n.Keys|;
  }

  lemma ApplyKeepsCapacity(s: State, a: Action)
    requires Inv(s)
    ensures |Apply(s, a).conns| <= MAX_CONNECTIONS
  {
    var u := Apply(s, a);
    if a.Accept? {
    } else {
      assert u.conns.Keys <= s.conns.Keys;
      FewerKeys(u.conns, s.conns);
    }
  }

  lemma ApplyKeepsWatch(s: State, a: Action)
    requires Inv(s)
    ensures OpenAreWatched(Apply(s, a))
  {
    hide Enforced;
  }

  lemma ScanKeepsNumbers(s: State)
    requires Numbered(s)
    ensures Numbered(Apply(s, Scan))
  {
    if s.reload.Swapped? && s.lock.Free? {
      InCovered(s.conns, s.revoked);
      hide Covered;
    }
  }

  lemma ScanEnforces(s: State)
    requires Inv(s)
    ensures Enforced(Apply(s, Scan)) && Numbered(Apply(s, Scan))
  {
    ScanKeepsNumbers(s);
    hide OpenAreWatched, SerialsRecorded, Numbered, HoldersProper;
    if s.reload.Swapped? && s.lock.Free? {
      var u := Apply(s, Scan);
      EvictLeavesOnlyDeferred(s.conns, s.revoked, Some(s.reload.requester));
      InCovered(u.conns, u.revoked);
      hide Covered, Evict;
    }
  }

  lemma ApplyKeepsEnforced(s: State, a: Action)
    requires Inv(s)
    ensures Enforced(Apply(s, a))
  {
    hide OpenAreWatched, SerialsRecorded, Numbered;
    var u := Apply(s, a);
    if a.Scan? {
      ScanEnforces(s);
    } else if u.reload.Swapped? {
    } else if a.AuthInsert? || a.Accept? {
    } else {
      forall c | IsCovered(u.conns, u.revoked, c) ensures c in SetAside(u.reload) {
        assert IsCovered(s.conns, s.revoked, c);
      }
    }
  }

  lemma ApplyKeepsRecords(s: State, a: Action)
    requires Inv(s)
    ensures SerialsRecorded(Apply(s, a).conns, Apply(s, a).authed)
  {
    hide OpenAreWatched, Enforced, Covered, Deferred;
  }

  lemma OthersKeepNumbers(s: State, a: Action)
    requires Numbered(s) && HoldersProper(s) && !a.Scan?
    ensures Numbered(Apply(s, a))
  {
    hide Covered, Deferred, Evict, MayAuthenticate;
  }

  lemma ApplyKeepsNumbers(s: State, a: Action)
    requires Inv(s)
    ensures Numbered(Apply(s, a))
  {
    hide OpenAreWatched, SerialsRecorded, Enforced, Numbered, HoldersProper, Apply;
    if a.Scan? {
      ScanEnforces(s);
    } else {
      OthersKeepNumbers(s, a);
    }
  }

  lemma ApplyKeepsHolders(s: State, a: Action)
    requires Inv(s)
    ensures HoldersProper(Apply(s, a))
  {
    hide OpenAreWatched, SerialsRecorded, Enforced, Covered, Deferred;
  }

  lemma ApplyKeepsInv(s: State, a: Action)
    requires Inv(s)
    ensures Inv(Apply(s, a))
  {
    hide OpenAreWatched, SerialsRecorded, Numbered, Enforced, HoldersProper;
    ApplyKeepsCapacity(s, a);
    ApplyKeepsWatch(s, a);
    ApplyKeepsEnforced(s, a);
    ApplyKeepsRecords(s, a);
    ApplyKeepsNumbers(s, a);
    ApplyKeepsHolders(s, a);
  }

  // ---- every run -----------------------------------------------------------------------------

  lemma {:induction false} RunKeepsInv(s: State, actions: seq<Action>)
    requires Inv(s)
    ensures Inv(Run(s, actions))
    decreases actions
  {
    hide Inv, Apply;
    if actions == [] {
    } else {
      ApplyKeepsInv(s, actions[0]);
      RunKeepsInv(Apply(s, actions[0]), actions[1..]);
    }
  }

  /**
   In every state of every run in which no swap awaits its scan, no tracked socket has a revoked
   serial, except the one the reload at work has set aside for its reply; and the set is bounded.
   */
  lemma ReloadIsEnforced(revoked: set<Serial>, actions: seq<Action>)
    ensures var s := Run(Start(revoked), actions);
            && |s.conns| <= MAX_CONNECTIONS
            && (!s.reload.Swapped? ==> Covered(s.conns, s.revoked) <= SetAside(s.reload) && |SetAside(s.reload)| <= 1)
  {
    RunKeepsInv(Start(revoked), actions);
  }

  /** When the reload lock is free, no socket that is still open was ever admitted with a revoked serial. */
  lemma NoRevokedSocketIsOpen(revoked: set<Serial>, actions: seq<Action>, c: Socket)
    requires var s := Run(Start(revoked), actions); s.reload.Idle? && c in s.open && c in s.authed
    ensures var s := Run(Start(revoked), actions); c in s.conns && s.authed[c] !in s.revoked
  {
    RunKeepsInv(Start(revoked), actions);
    var s := Run(Start(revoked), actions);
    assert !IsCovered(s.conns, s.revoked, c);
  }

  /** Nobody on the way in has `serial`, and nobody who was let in since `s` has it either. */
  ghost predicate KeptOut(s: State, u: State, serial: Serial) {
    && serial in u.revoked
    && (u.lock.Admitting? ==> u.lock.serial != serial)
    && (forall c :: c in u.authed && u.authed[c] == serial ==> c in s.authed && s.authed[c] == serial)
  }

  lemma {:induction false} StaysOut(s: State, u: State, rest: seq<Action>, serial: Serial)
    requires KeptOut(s, u, serial) && forall a :: a in rest ==> !a.Swap?
    ensures KeptOut(s, Run(u, rest), serial)
    decreases rest
  {
    if rest == [] {
    } else {
      hide Evict, Deferred, Covered;
      assert !rest[0].Swap?;
      assert KeptOut(s, Apply(u, rest[0]), serial);
      hide KeptOut, Apply;
      StaysOut(s, Apply(u, rest[0]), rest[1..], serial);
    }
  }

  /**
   Once the scan has run, a handshake that was verified against an older set is refused, however
   late it comes: until the next swap nobody is admitted with a serial that is now revoked.
   */
  lemma StaleHandshakeIsRefused(revoked: set<Serial>, past: seq<Action>, rest: seq<Action>, serial: Serial)
    requires !Run(Start(revoked), past).reload.Swapped? && serial in Run(Start(revoked), past).revoked
    requires forall a :: a in rest ==> !a.Swap?
    ensures KeptOut(Run(Start(revoked), past), Run(Run(Start(revoked), past), rest), serial)
  {
    RunKeepsInv(Start(revoked), past);
    var s := Run(Start(revoked), past);
    assert KeptOut(s, s, serial);
    hide Inv, KeptOut, Run;
    StaysOut(s, s, rest, serial);
  }

  // ---- who gets in, and what a reload does when nothing races it ----------------------------------

  /** A transport is tracked, and open, exactly when there is room for it; otherwise nobody is affected. */
  lemma AcceptedIffRoom(s: State)
    requires s.next !in s.conns && s.next !in s.open
    ensures var u := Apply(s, Accept);
            && (s.next in u.open <==> |s.conns| < 1024)
            && (|s.conns| < 1024 ==> u.conns == s.conns[s.next := None] && u.open == s.open + {s.next})
            && (|s.conns| >= 1024 ==> u.conns == s.conns && u.open == s.open)
            && u == s.(conns := u.conns, open := u.open, next := s.next + 1)
  {
  }

  lemma TwoSteps(s: State, a: Action, b: Action)
    ensures Run(s, [a, b]) == Apply(Apply(s, a), b)
  {
    assert [a, b][1..] == [b] && [b][1..] == [];
    assert Run(Apply(s, a), [b]) == Run(Apply(Apply(s, a), b), []);
  }

  /**
   With the transport lock free, a transport is admitted under its serial exactly when it is
   still tracked and that serial is not among the revoked ones at that moment, whichever others
   are; otherwise nothing changes.
   */
  lemma AdmittedIff(s: State, c: Socket, serial: Serial)
    requires s.lock.Free?
    ensures Run(s, [AuthCheck(c, Some(serial)), AuthInsert]) ==
            if c in s.conns && !(serial in s.revoked)
            then s.(conns := s.conns[c := Some(serial)], authed := s.authed[c := serial]) else s
  {
    TwoSteps(s, AuthCheck(c, Some(serial)), AuthInsert);
    hide Run;
  }

  lemma {:induction false} RunAppend(s: State, a: seq<Action>, b: seq<Action>)
    ensures Run(s, a + b) == Run(Run(s, a), b)
    decreases a
  {
    if a == [] {
      assert a + b == b;
    } else {
      assert (a + b)[0] == a[0] && (a + b)[1..] == a[1..] + b;
      RunAppend(Apply(s, a[0]), a[1..], b);
    }
  }

  /** The order matters: between swap and scan a revoked socket can still be tracked, and admitted. */
  lemma SwapAloneIsNotEnough() returns (actions: seq<Action>, serial: Serial)
    ensures var s := Run(Start({}), actions); serial in s.revoked && s.conns == map[0 := Some(serial)] && 0 in s.open
  {
    serial := Serial("5e");
    var first, second := [Accept, AuthCheck(0, Some(serial))], [ReloadBegin(1), Swap({serial})];
    actions := first + (second + [AuthInsert]);
    var s := Start({});
    RunAppend(s, first, second + [AuthInsert]);
    TwoSteps(s, Accept, AuthCheck(0, Some(serial)));
    var t := Apply(Apply(s, Accept), AuthCheck(0, Some(serial)));
    assert t.conns == map[0 := None] && t.open == {0} && t.lock == Admitting(0, serial) && t.reload.Idle?;
    RunAppend(t, second, [AuthInsert]);
    TwoSteps(t, ReloadBegin(1), Swap({serial}));
    var u := Apply(Apply(t, ReloadBegin(1)), Swap({serial}));
    assert u == t.(revoked := {serial}, reload := Swapped(1));
    assert [AuthInsert][1..] == [];
    assert Run(u, [AuthInsert]) == Run(Apply(u, AuthInsert), []);
  }

  /** The closing of what a scan untracked, in some order. */
  function Closes(order: seq<Socket>): seq<Action> {
    if order == [] then [] else [CloseEvicted(order[0])] + Closes(order[1..])
  }

  lemma {:induction false} ClosingAll(s: State, order: seq<Socket>)
    requires s.reload.Evicting? && forall c :: c in s.reload.toClose ==> c in order
    ensures Run(s, Closes(order)) == s.(open := s.open - s.reload.toClose, reload := Evicting({}, s.reload.deferred))
    decreases order
  {
    if order == [] {
      assert s.reload.toClose == {};
      assert s.open - {} == s.open;
    } else {
      var u := Apply(s, CloseEvicted(order[0]));
      assert Closes(order)[1..] == Closes(order[1..]);
      assert u.reload.toClose == s.reload.toClose - {order[0]};
      assert u.open - u.reload.toClose == s.open - s.reload.toClose;
      ClosingAll(u, order[1..]);
    }
  }

  /** The tracked sockets that authenticated with one of `serials`. */
  function Hit(conns: Tracked, serials: set<Serial>): set<Socket> {
    set c | c in conns && conns[c].Some? && conns[c].value in serials
  }

  lemma ReplyAndClose(s: State)
    requires s.reload.Evicting? && s.reload.toClose == {}
    ensures var d := s.reload.deferred;
            Apply(Apply(s, Reply), CloseDeferred) ==
            if d.Some? then s.(open := s.open - {d.value}, reload := DeferredClosed(d.value)) else s.(reload := Finished)
  {
  }

  lemma ForgetAndEnd(s: State)
    requires s.lock.Free?
    ensures s.reload.DeferredClosed? ==>
              Apply(Apply(s, ForgetDeferred), ReloadEnd) == s.(conns := s.conns - {s.reload.last}, reload := Idle)
    ensures s.reload.Finished? ==> Apply(Apply(s, ForgetDeferred), ReloadEnd) == s.(reload := Idle)
  {
  }

  /** The last part of a reload: reply, and the requester's own socket after it. */
  lemma FinishingReload(s: State)
    requires s.reload.Evicting? && s.reload.toClose == {} && s.lock.Free?
    ensures Run(s, [Reply, CloseDeferred, ForgetDeferred, ReloadEnd]) ==
            s.(conns := s.conns - Sockets(s.reload.deferred), open := s.open - Sockets(s.reload.deferred), reload := Idle)
  {
    assert [Reply, CloseDeferred, ForgetDeferred, ReloadEnd] == [Reply, CloseDeferred] + [ForgetDeferred, ReloadEnd];
    RunAppend(s, [Reply, CloseDeferred], [ForgetDeferred, ReloadEnd]);
    TwoSteps(s, Reply, CloseDeferred);
    ReplyAndClose(s);
    var closed := Apply(Apply(s, Reply), CloseDeferred);
    TwoSteps(closed, ForgetDeferred, ReloadEnd);
    ForgetAndEnd(closed);
    hide Run, Apply;
    if s.reload.deferred.None? { assert s.open - {} == s.open && s.conns - {} == s.conns; }
  }

  lemma ScanningReload(s: State, serials: set<Serial>, requester: Socket)
    requires s.reload.Idle? && s.lock.Free?
    ensures var hit := Hit(s.conns, serials);
            Run(s, [ReloadBegin(requester), Swap(serials)] + [Scan]) ==
            s.(revoked := serials, conns := s.conns - (hit - {requester}),
               reload := Evicting(hit - {requester}, if requester in hit then Some(requester) else None))
  {
    RunAppend(s, [ReloadBegin(requester), Swap(serials)], [Scan]);
    TwoSteps(s, ReloadBegin(requester), Swap(serials));
    var t := s.(revoked := serials, reload := Swapped(requester));
    assert [Scan][1..] == [];
    assert Run(t, [Scan]) == Run(Apply(t, Scan), []);
    hide Run;
    assert Covered(s.conns, serials) == Hit(s.conns, serials);
  }

  /**
   A reload that nothing races, whatever order it closes in: the new set is live, exactly the
   sockets whose serial is in it are untracked and closed, the requester's own included, and
   nobody else is touched.
   */
  lemma ReloadClosesExactly(s: State, serials: set<Serial>, requester: Socket, order: seq<Socket>)
    requires s.reload.Idle? && s.lock.Free?
    requires forall c :: c in Hit(s.conns, serials) && c != requester ==> c in order
    ensures Run(s, [ReloadBegin(requester), Swap(serials)] + [Scan] + Closes(order) + [Reply, CloseDeferred, ForgetDeferred, ReloadEnd]) ==
            s.(revoked := serials, conns := s.conns - Hit(s.conns, serials), open := s.open - Hit(s.conns, serials))
  {
    var hit := Hit(s.conns, serials);
    var scanned := [ReloadBegin(requester), Swap(serials)] + [Scan];
    hide Hit;
    ScanningReload(s, serials, requester);
    var t := Run(s, scanned);
    ClosingAll(t, order);
    RunAppend(s, scanned, Closes(order));
    var u := Run(s, scanned + Closes(order));
    FinishingReload(u);
    RunAppend(s, scanned + Closes(order), [Reply, CloseDeferred, ForgetDeferred, ReloadEnd]);
    hide Run, Apply;
    var last := Sockets(t.reload.deferred);
    assert (hit - {requester}) + last == hit;
    assert s.conns - (hit - {requester}) - last == s.conns - hit;
    assert s.open - (hit - {requester}) - last == s.open - hit;
  }

  /** A closed transport is forgotten, one still open is not; and a shutdown closes and forgets everything tracked. */
  lemma ForgottenIff(s: State, c: Socket)
    requires s.lock.Free?
    ensures Apply(s, Forget(c)) == if c in s.open then s else s.(conns := s.conns - {c})
    ensures Apply(s, CloseAll) == s.(conns := map[], open := s.open - s.conns.Keys)
    ensures Apply(s, CloseRaw(c)) == s.(open := s.open - {c})
  {
  }

  /** A reload that is refused changes nothing. */
  lemma RefusedReloadChangesNothing(s: State, requester: Socket)
    requires s.reload.Idle?
    ensures Run(s, [ReloadBegin(requester), ReloadRefuse] + [ReloadEnd]) == s
  {
    RunAppend(s, [ReloadBegin(requester), ReloadRefuse], [ReloadEnd]);
    TwoSteps(s, ReloadBegin(requester), ReloadRefuse);
    var t := s.(reload := Finished);
    assert [ReloadEnd][1..] == [];
    assert Run(t, [ReloadEnd]) == Run(Apply(t, ReloadEnd), []);
  }
}
