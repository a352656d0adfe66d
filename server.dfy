/** The signaling server's in-memory state and its socket event handlers.
    Each handler runs to completion before the next event, so each is one
    method of `SignalingServer`. Outbound socket.io emits are appended to
    `outbox`; the clock (`Date.now()`) and the transport's connection count
    (`io.engine.clientsCount`) come in as the parameters `now` and
    `online`. */
module Server {
  import opened Matching
  import opened Pairing
  import opened Abuse

  /** Who an emit goes to: one session, or every connected client. */
  datatype Target = ToSession(id: SessionId) | ToAll

  /** Server-to-client events. `ForcedDisconnect` stands for the server
      closing the session's socket (`socket.disconnect()`). */
  datatype Event =
    | UserCountUpdate(online: nat, waiting: nat)
    | PartnerFound(partnerId: SessionId)
    | CallMade(signal: string, from: string)
    | CallAccepted(signal: string)
    | MessageReceived(message: string)
    | PartnerDisconnected
    | ReportSubmitted
    | Banned(until: int)
    | ForcedDisconnect

  datatype Emit = Emit(target: Target, event: Event)

  /** `broadcastUserCount()` */
  function CountUpdate(online: nat, waiting: nat): (r: Emit)
    ensures r.target == ToAll
    ensures r.event.UserCountUpdate? && r.event.online == online && r.event.waiting == waiting
  {
    Emit(ToAll, UserCountUpdate(online, waiting))
  }

  /** What the disconnect handler of `s` sends: one `partner_disconnected`
      to its partner if it has one, then the count update. */
  function DisconnectNotices(pairs: map<SessionId, SessionId>, s: SessionId, online: nat, waiting: nat): (r: seq<Emit>)
    ensures |r| == if s in pairs then 2 else 1
    ensures r[|r| - 1] == CountUpdate(online, waiting)
    ensures s in pairs ==> r[0] == Emit(ToSession(pairs[s]), PartnerDisconnected)
    ensures forall i :: 0 <= i < |r| - 1 ==> r[i].event == PartnerDisconnected
  {
    (if s in pairs then [Emit(ToSession(pairs[s]), PartnerDisconnected)] else []) + [CountUpdate(online, waiting)]
  }

  class SignalingServer {
    /** Sessions seeking a partner, oldest first. */
    var waitingUsers: seq<WaitingEntry>
    /** Session -> partner. */
    var activePairs: map<SessionId, SessionId>
    /** Session -> last declared filters. */
    var userPreferences: map<SessionId, Preferences>
    /** Session -> reports filed against it. */
    var reportedUsers: map<SessionId, ReportRecord>
    /** Address -> instant its ban ends. */
    var bannedIPs: map<Address, int>
    /** The sockets currently connected, with their addresses
        (`io.sockets.sockets` and `socket.handshake.address`). */
    var sockets: map<SessionId, Address>
    /** Every emit so far, in order. */
    var outbox: seq<Emit>

    /** What every handler preserves: a session is queued at most once,
        the queue never holds more than one entry (a session is appended
        only when the queue is empty), and no session is its own partner. */
    ghost predicate Valid()
      reads this
    {
      DistinctIds(waitingUsers) && |waitingUsers| <= 1 && NoSelfPairs(activePairs)
    }

    /** The server at start-up: everything empty. */
    constructor ()
      ensures Valid()
      ensures waitingUsers == [] && activePairs == map[] && userPreferences == map[]
      ensures reportedUsers == map[] && bannedIPs == map[] && sockets == map[] && outbox == []
    {
      waitingUsers := [];
      activePairs := map[];
      userPreferences := map[];
      reportedUsers := map[];
      bannedIPs := map[];
      sockets := map[];
      outbox := [];
    }

    /** `broadcastUserCount()`: the opaque online count and the queue
        length, to everyone. */
    method BroadcastUserCount(online: nat)
      modifies this`outbox
      ensures outbox == old(outbox) + [CountUpdate(online, |waitingUsers|)]
    {
      outbox := outbox + [CountUpdate(online, |waitingUsers|)];
    }

    /** The `connection` handler up to the registration of the event
        handlers: the count is broadcast first, then the ban gate runs.
        A session whose address is banned until after `now` is told the
        ban's end and disconnected, and gets no handlers (`admitted` is
        false); an expired ban is deleted and the session proceeds. */
    method Connect(id: SessionId, addr: Address, now: int, online: nat) returns (admitted: bool)
      modifies this`sockets, this`bannedIPs, this`outbox
      ensures admitted == Admits(old(bannedIPs), addr, now)
      ensures admitted ==>
        && sockets == old(sockets)[id := addr]
        && bannedIPs == PruneExpired(old(bannedIPs), addr, now)
        && outbox == old(outbox) + [CountUpdate(online, |waitingUsers|)]
      ensures !admitted ==>
        && sockets == old(sockets) - {id}
        && bannedIPs == old(bannedIPs)
        && outbox == old(outbox) + [CountUpdate(online, |waitingUsers|),
                                    Emit(ToSession(id), Banned(old(bannedIPs)[addr])),
                                    Emit(ToSession(id), ForcedDisconnect)]
    {
      sockets := sockets[id := addr];
      BroadcastUserCount(online);
      if addr in bannedIPs {
        var banUntil := bannedIPs[addr];
        if now < banUntil {
          outbox := outbox + [Emit(ToSession(id), Banned(banUntil)), Emit(ToSession(id), ForcedDisconnect)];
          sockets := sockets - {id};
          return false;
        } else {
          bannedIPs := bannedIPs - {addr};
        }
      }
      return true;
    }

    /** `set_preferences`: the new filters replace the old ones wholesale. */
    method SetPreferences(id: SessionId, preferences: Preferences)
      modifies this`userPreferences
      ensures userPreferences == old(userPreferences)[id := preferences]
    {
      userPreferences := userPreferences[id := preferences];
    }

    /** `findMatch`: with an empty queue nothing is taken; a caller without
        preferences or without a gender takes the head; otherwise the
        queue is scanned from the head for the first entry whose live
        preferences pass the gender and interest tests, and that entry is
        spliced out; if none passes, the head is taken. */
    method FindMatch(caller: Option<Preferences>) returns (m: Option<WaitingEntry>)
      modifies this`waitingUsers
      ensures var idx := MatchIndex(old(waitingUsers), userPreferences, caller);
        && (idx.None? ==> m.None? && waitingUsers == old(waitingUsers))
        && (idx.Some? ==> m == Some(old(waitingUsers)[idx.value]) && waitingUsers == RemoveAt(old(waitingUsers), idx.value))
    {
      if |waitingUsers| == 0 {
        return None;
      }
      if caller.None? || caller.value.gender == "" {
        RemoveHead(waitingUsers);
        m := Some(waitingUsers[0]);
        waitingUsers := waitingUsers[1..];
        return;
      }
      var preferences := caller.value;
      for i := 0 to |waitingUsers|
        invariant waitingUsers == old(waitingUsers)
        invariant forall k :: 0 <= k < i ==> !Fits(preferences, userPreferences, waitingUsers[k])
      {
        var waitingUser := waitingUsers[i];
        var waitingPrefs := Lookup(userPreferences, waitingUser.id);
        if GenderClash(preferences, waitingPrefs) {
          continue;
        }
        if InterestClash(preferences, waitingPrefs) {
          continue;
        }
        m := Some(waitingUser);
        waitingUsers := RemoveAt(waitingUsers, i);
        return;
      }
      RemoveHead(waitingUsers);
      m := Some(waitingUsers[0]);
      waitingUsers := waitingUsers[1..];
    }

    /** `find_partner`: nothing happens while the caller is queued.
        Otherwise the match found for the caller's stored preferences is
        paired with the caller in both directions, and only the caller is
        told the partner's id; with nobody to match, the caller joins the
        tail of the queue with a snapshot of its preferences. The caller's
        own old link, if any, is not removed first. */
    method FindPartner(id: SessionId, online: nat)
      requires Valid()
      modifies this`waitingUsers, this`activePairs, this`outbox
      ensures Valid()
      ensures IsQueued(old(waitingUsers), id) ==>
        && waitingUsers == old(waitingUsers)
        && activePairs == old(activePairs)
        && outbox == old(outbox)
      ensures !IsQueued(old(waitingUsers), id) ==>
        var preferences := Lookup(userPreferences, id);
        var idx := MatchIndex(old(waitingUsers), userPreferences, preferences);
        && (idx.None? ==>
              && waitingUsers == old(waitingUsers) + [WaitingEntry(id, preferences)]
              && activePairs == old(activePairs)
              && outbox == old(outbox) + [CountUpdate(online, |waitingUsers|)])
        && (idx.Some? ==>
              var partnerId := old(waitingUsers)[idx.value].id;
              && partnerId != id
              && waitingUsers == RemoveAt(old(waitingUsers), idx.value)
              && activePairs == Link(old(activePairs), id, partnerId)
              && outbox == old(outbox) + [Emit(ToSession(id), PartnerFound(partnerId)), CountUpdate(online, |waitingUsers|)])
    {
      if IsQueued(waitingUsers, id) {
        return;
      }
      var preferences := Lookup(userPreferences, id);
      ghost var idx := MatchIndex(waitingUsers, userPreferences, preferences);
      ghost var queue := waitingUsers;
      var found := FindMatch(preferences);
      if found.Some? {
        var partnerId := found.value.id;
        assert found.value in queue;
        RemoveAtKeepsDistinct(queue, idx.value);
        if partnerId == id {
          return;
        }
        activePairs := activePairs[id := partnerId][partnerId := id];
        LinkKeepsNoSelfPairs(old(activePairs), id, partnerId);
        outbox := outbox + [Emit(ToSession(id), PartnerFound(partnerId))];
        BroadcastUserCount(online);
      } else {
        waitingUsers := waitingUsers + [WaitingEntry(id, preferences)];
        AppendKeepsDistinct(queue, WaitingEntry(id, preferences));
        BroadcastUserCount(online);
      }
    }

    /** `call_user`: the offer is forwarded as it is to `userToCall`. */
    method CallUser(userToCall: SessionId, signalData: string, from: string)
      modifies this`outbox
      ensures outbox == old(outbox) + [Emit(ToSession(userToCall), CallMade(signalData, from))]
    {
      outbox := outbox + [Emit(ToSession(userToCall), CallMade(signalData, from))];
    }

    /** `answer_call`: the answer is forwarded as it is to `to`. */
    method AnswerCall(signal: string, to: SessionId)
      modifies this`outbox
      ensures outbox == old(outbox) + [Emit(ToSession(to), CallAccepted(signal))]
    {
      outbox := outbox + [Emit(ToSession(to), CallAccepted(signal))];
    }

    /** `send_message`: the text goes to the sender's current partner, and
        is dropped when the sender has none. */
    method SendMessage(id: SessionId, message: string)
      modifies this`outbox
      ensures id in activePairs ==> outbox == old(outbox) + [Emit(ToSession(activePairs[id]), MessageReceived(message))]
      ensures id !in activePairs ==> outbox == old(outbox)
    {
      if id in activePairs {
        var partnerId := activePairs[id];
        outbox := outbox + [Emit(ToSession(partnerId), MessageReceived(message))];
      }
    }

    /** The `disconnect` handler of `id`, which socket.io runs after the
        socket has left `io.sockets`: every queue entry of `id` is
        filtered out, its preferences are deleted, its partner (if any) is
        told once and both links are deleted, and the count is
        broadcast. */
    method Disconnect(id: SessionId, online: nat)
      requires Valid()
      modifies this`sockets, this`waitingUsers, this`userPreferences, this`activePairs, this`outbox
      ensures Valid()
      ensures sockets == old(sockets) - {id}
      ensures waitingUsers == WithoutSession(old(waitingUsers), id)
      ensures userPreferences == old(userPreferences) - {id}
      ensures activePairs == Unlink(old(activePairs), id)
      ensures outbox == old(outbox) + DisconnectNotices(old(activePairs), id, online, |waitingUsers|)
    {
      sockets := sockets - {id};
      WithoutSessionKeepsDistinct(waitingUsers, id);
      waitingUsers := WithoutSession(waitingUsers, id);
      userPreferences := userPreferences - {id};
      if id in activePairs {
        var partnerId := activePairs[id];
        outbox := outbox + [Emit(ToSession(partnerId), PartnerDisconnected)];
        activePairs := activePairs - {partnerId};
        activePairs := activePairs - {id};
      }
      assert activePairs == Unlink(old(activePairs), id);
      UnlinkKeepsNoSelfPairs(old(activePairs), id);
      ghost var sent := outbox;
      BroadcastUserCount(online);
      assert sent + [CountUpdate(online, |waitingUsers|)] == old(outbox) + DisconnectNotices(old(activePairs), id, online, |waitingUsers|);
    }

    /** `report_user`: without a partner nothing happens and nothing is
        acknowledged. Otherwise the partner's count goes up by one and its
        last report time becomes `now`; at 3 or more reports, if the
        partner's socket is still connected, its address is banned until
        `now` plus 15 minutes, it is told so and disconnected (which runs
        its disconnect handler at once); the reporter is always
        acknowledged, last. */
    method ReportUser(id: SessionId, now: int, online: nat)
      requires Valid()
      modifies this
      ensures Valid()
      ensures id !in old(activePairs) ==>
        && waitingUsers == old(waitingUsers) && activePairs == old(activePairs)
        && userPreferences == old(userPreferences) && reportedUsers == old(reportedUsers)
        && bannedIPs == old(bannedIPs) && sockets == old(sockets) && outbox == old(outbox)
      ensures id in old(activePairs) ==>
        var partnerId := old(activePairs)[id];
        var count := RecordOf(old(reportedUsers), partnerId).count + 1;
        var banned := count >= BanThreshold && partnerId in old(sockets);
        && reportedUsers == Bump(old(reportedUsers), partnerId, now)
        && (banned ==>
              && bannedIPs == old(bannedIPs)[old(sockets)[partnerId] := now + BanDuration]
              && sockets == old(sockets) - {partnerId}
              && waitingUsers == WithoutSession(old(waitingUsers), partnerId)
              && userPreferences == old(userPreferences) - {partnerId}
              && activePairs == Unlink(old(activePairs), partnerId)
              && outbox == old(outbox)
                           + [Emit(ToSession(partnerId), Banned(now + BanDuration)), Emit(ToSession(partnerId), ForcedDisconnect)]
                           + DisconnectNotices(old(activePairs), partnerId, online, |waitingUsers|)
                           + [Emit(ToSession(id), ReportSubmitted)])
        && (!banned ==>
              && bannedIPs == old(bannedIPs) && sockets == old(sockets)
              && waitingUsers == old(waitingUsers) && userPreferences == old(userPreferences)
              && activePairs == old(activePairs)
              && outbox == old(outbox) + [Emit(ToSession(id), ReportSubmitted)])
    {
      if id in activePairs {
        var partnerId := activePairs[id];
        var reportData := RecordOf(reportedUsers, partnerId);
        reportData := ReportRecord(reportData.count + 1, now);
        reportedUsers := reportedUsers[partnerId := reportData];
        if reportData.count >= BanThreshold {
          if partnerId in sockets {
            var partnerIP := sockets[partnerId];
            var banUntil := now + BanDuration;
            bannedIPs := bannedIPs[partnerIP := banUntil];
            outbox := outbox + [Emit(ToSession(partnerId), Banned(banUntil)), Emit(ToSession(partnerId), ForcedDisconnect)];
            Disconnect(partnerId, online);
          }
        }
        outbox := outbox + [Emit(ToSession(id), ReportSubmitted)];
      }
    }
  }
}
