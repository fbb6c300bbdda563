/** What single calls do to a session, said without the functions that compute it. */
module SessionEffects {
  import opened Wrappers
  import opened Text
  import opened Replication
  import opened Session

  /** What a dial can do by itself is left as it is: identity, disk, reporting and listening. */
  predicate SameUser(l: Link, t: Link) {
    t.me == l.me && t.saved == l.saved && t.reporting == l.reporting && t.listening == l.listening
  }

  predicate SameLoop(l: Link, t: Link) {
    t.running == l.running && t.cancelled == l.cancelled
  }

  /** Who the runtime is stays, and the disk says so; it is not logged in. */
  predicate LoggedOut(l: Link, t: Link) {
    && !t.me.auth.loggedIn && t.me.auth.nodeId == l.me.auth.nodeId && t.me.auth.hubId == l.me.auth.hubId
    && t.me.device == l.me.device && t.saved == Some(t.me)
  }

  /** The identity a grant brings: memory and disk hold it. */
  predicate Identity(t: Link, device: string, nodeId: nat, hubId: nat) {
    && t.me.auth.loggedIn && t.me.auth.nodeId == nodeId && t.me.auth.hubId == hubId
    && t.me.device == TrimSpace(device) && t.saved == Some(t.me)
  }

  /** The flag goes, the rest of the identity and the disk stay. */
  predicate Denied(l: Link, t: Link) {
    && !t.me.auth.loggedIn && t.me.auth.nodeId == l.me.auth.nodeId && t.me.auth.hubId == l.me.auth.hubId
    && t.me.device == l.me.device && t.saved == l.saved
  }

  // ----------------------------------------------------------------------- connecting

  /**
   The dial itself: where it makes a connection, or finds one that is up, the address is
   recorded; a session found that is not up is closed; nothing else changes.
   */
  lemma {:induction false} DialIsExact(l: Link, text: string, dial: Dial)
    ensures var t := Dialled(l, text, dial);
            var made := dial.Connected? || (dial.AlreadyConnected? && (l.connected || dial.retried));
            && SameUser(l, t) && SameLoop(l, t) && t.intent == l.intent
            && if Blank(text) then t == l
               else if made then t.connected && t.addr == TrimSpace(text)
               else t.addr == l.addr && t.connected == (l.connected && dial.Refused?)
  {
    hide TrimSpace, Trimmed;
  }

  /**
   A connect to another address than the one in use ends the old session first: login,
   reporting and listening are over, the disk says so, a running loop is cancelled. What is
   connected and wanted then is the new address, exactly if the dial made a connection.
   */
  lemma {:induction false} MovingEndsTheSession(l: Link, text: string, dial: Dial)
    requires l.addr != "" && !Blank(text) && TrimSpace(text) != l.addr
    ensures var t := ConnectedTo(l, text, dial);
            && LoggedOut(l, t) && !t.reporting && !t.listening
            && t.running == l.running && (l.running ==> t.cancelled) && (!l.running ==> t.cancelled == l.cancelled)
            && t.addr == TrimSpace(text)
            && t.connected == t.intent == (dial.Connected? || (dial.AlreadyConnected? && dial.retried))
  {
    hide TrimSpace, Trimmed, ConnectedTo;
    ConnectedIs(l, text, dial);
  }

  /**
   To the same address, or from none, the session goes on: a connection that is up is
   kept, whatever else the dial says, and one that is down is there exactly if the dial made it.
   */
  lemma {:induction false} StayingKeepsTheSession(l: Link, text: string, dial: Dial)
    requires !Blank(text) && (l.addr == "" || l.addr == TrimSpace(text))
    ensures var t := ConnectedTo(l, text, dial);
            var made := dial.Connected? || (dial.AlreadyConnected? && (l.connected || dial.retried));
            && SameUser(l, t) && SameLoop(l, t) && t.addr == TrimSpace(text)
            && t.connected == (l.connected || made) && t.intent == (l.intent || made)
  {
    hide TrimSpace, Trimmed, ConnectedTo, Closed;
    ConnectedIs(l, text, dial);
  }

  // ------------------------------------------------------------- logging in and out

  /** A login that cannot be sent changes nothing; one that is not granted logs out, and leaves the disk as it was. */
  lemma {:induction false} LoginIsAnswered(l: Link, device: string, nodeId: nat, reply: Reply)
    ensures var t := LoginAs(l, device, nodeId, reply);
            var sent := !Blank(device) && nodeId != 0 && l.connected;
            && t == l.(me := t.me, saved := t.saved, intent := t.intent)
            && (!sent ==> t == l)
            && (sent && !reply.Granted? ==> Denied(l, t) && t.intent == l.intent)
            && (sent && reply.Granted? ==> Identity(t, device, reply.nodeId, reply.hubId) && t.intent)
  {
    hide TrimSpace, Trimmed;
  }

  /** A registration is answered in the same way, except that it does not ask to stay connected. */
  lemma {:induction false} RegistrationIsAnswered(l: Link, device: string, reply: Reply)
    ensures var t := RegisterAs(l, device, reply);
            var sent := !Blank(device) && l.connected;
            && t == l.(me := t.me, saved := t.saved)
            && (!sent ==> t == l)
            && (sent && !reply.Granted? ==> Denied(l, t))
            && (sent && reply.Granted? ==> Identity(t, device, reply.nodeId, reply.hubId))
  {
    hide TrimSpace, Trimmed;
  }

  /** Clearing forgets who the runtime is, in memory and on disk, so that the next process starts as nobody. */
  lemma {:induction false} ClearingForgets(l: Link)
    ensures var t := Cleared(l);
            && t == l.(me := t.me, saved := t.saved)
            && !t.me.auth.loggedIn && t.me.auth.nodeId == 0 && t.me.auth.hubId == 0 && t.me.device == ""
            && t.saved.Some? && Started(t.saved).me == Started(None).me == t.me
  {
  }

  /** A process starts as whoever the disk names, logged out, and without any of what a session has. */
  lemma {:induction false} StartIsClean(saved: Option<Snapshot>)
    ensures var l := Started(saved);
            && !l.me.auth.loggedIn && l.addr == "" && !l.connected && !l.intent && !l.running
            && !l.reporting && !l.listening
            && match saved
               case Some(s) =>
                 && l.me.device == s.device && l.me.auth.nodeId == s.auth.nodeId && l.me.auth.hubId == s.auth.hubId
                 && l.saved == Some(l.me)
               case None => l.me.device == "" && l.me.auth.nodeId == 0 && l.me.auth.hubId == 0 && l.saved == None
  {
  }

  // -------------------------------------------------------------- errors and the end

  /**
   A session error takes connection and login, on disk too, and nothing else the user has;
   if the connection is wanted a loop runs afterwards, a new one unless one did already.
   */
  lemma {:induction false} ErrorTakesTheSession(l: Link)
    ensures var t := Errored(l);
            && LoggedOut(l, t) && !t.connected && t.addr == l.addr && t.intent == l.intent
            && t.reporting == l.reporting && t.listening == l.listening
            && (if l.intent && !l.running then t.running && !t.cancelled else SameLoop(l, t))
  {
  }

  /** A close takes all of it, the address included, and cancels a running loop; who the runtime is stays. */
  lemma {:induction false} CloseTakesAll(l: Link)
    ensures var t := Closed(l);
            && LoggedOut(l, t) && !t.connected && !t.intent && t.addr == "" && !t.reporting && !t.listening
            && t.running == l.running && (l.running ==> t.cancelled) && (!l.running ==> t.cancelled == l.cancelled)
  {
  }

  // ------------------------------------------------------------------------- recovery

  /**
   One attempt of the recovery, in every outcome. It is of the recorded address and identity;
   the session that was there is gone whether or not it was up. Reporting, listening and
   the intent are never lost. A cancelled loop, or one without an address, attempts nothing.
   */
  lemma {:induction false} AttemptIsExact(l: Link, dial: Dial, reply: Reply)
    requires TrimSpace(l.addr) == l.addr
    ensures var t := Recovered(l, dial, reply);
            var made := dial.Connected? || (dial.AlreadyConnected? && dial.retried);
            var known := !Blank(l.me.device) && l.me.auth.nodeId != 0;
            if l.cancelled || Blank(l.addr) then t == l
            else
              && t.addr == l.addr && t.connected == made
              && t.reporting == l.reporting && t.listening == l.listening && SameLoop(l, t)
              && (!made || !known ==> SameUser(l, t) && t.intent == l.intent)
              && (made && known && !reply.Granted? ==> Denied(l, t) && t.intent == l.intent)
              && (made && known && reply.Granted? ==>
                    Identity(t, l.me.device, reply.nodeId, reply.hubId) && t.intent)
  {
    hide TrimSpace, Trimmed, LoginAs, Recovered, Dialled;
    RecoveredIs(l, dial, reply);
    if !Blank(l.addr) {
      var down := l.(connected := false);
      DialIs(down, l.addr, dial);
      LoginIsAnswered(Dialled(down, l.addr, dial), l.me.device, l.me.auth.nodeId, reply);
    }
  }
}
