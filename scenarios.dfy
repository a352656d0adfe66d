/** Client scenarios of the signaling server, verified against the handlers'
    contracts alone: duplicate `find_partner` calls and a match, then a
    ban after three reports followed by the connect-time gate. */
module Scenarios {
  import opened Matching
  import opened Pairing
  import opened Abuse
  import opened Server

  method QueueThenMatch(t: int)
  {
    var s := new SignalingServer();
    var ok := s.Connect("a", "10.0.0.1", t, 1);
    ok := s.Connect("b", "10.0.0.2", t, 2);

    // "a" waits; asking again does not queue it twice.
    s.FindPartner("a", 2);
    assert s.waitingUsers == [WaitingEntry("a", None)];
    assert WaitingEntry("a", None) in s.waitingUsers;
    s.FindPartner("a", 2);
    assert s.waitingUsers == [WaitingEntry("a", None)];

    // "b" takes "a" off the queue; both directions are linked and only
    // "b" is told.
    assert !IsQueued(s.waitingUsers, "b");
    s.FindPartner("b", 2);
    assert s.waitingUsers == [];
    assert s.activePairs == map["b" := "a", "a" := "b"];
    assert s.outbox[|s.outbox| - 2] == Emit(ToSession("b"), PartnerFound("a"));
  }

  method ThreeReportsBan(s: SignalingServer, t: int)
    requires s.Valid()
    requires s.activePairs == map["b" := "a", "a" := "b"]
    requires s.sockets == map["a" := "10.0.0.1", "b" := "10.0.0.2"]
    requires s.reportedUsers == map[] && s.bannedIPs == map[]
    modifies s
  {
    // Two reports leave "a" connected; the third bans its address.
    s.ReportUser("b", t, 2);
    assert s.reportedUsers["a"].count == 1;
    s.ReportUser("b", t, 2);
    assert s.reportedUsers["a"].count == 2 && s.bannedIPs == map[] && "a" in s.sockets;
    s.ReportUser("b", t, 2);
    assert s.bannedIPs == map["10.0.0.1" := t + 900000];
    assert "a" !in s.sockets && s.activePairs == map[];
    assert s.outbox[|s.outbox| - 1] == Emit(ToSession("b"), ReportSubmitted);
    assert s.outbox[|s.outbox| - 3] == Emit(ToSession("b"), PartnerDisconnected);

    // The address is refused until the ban ends, then admitted again.
    var ok := s.Connect("c", "10.0.0.1", t + 899999, 2);
    assert !ok;
    ok := s.Connect("d", "10.0.0.1", t + 900000, 2);
    assert ok && s.bannedIPs == map[];
  }
}
