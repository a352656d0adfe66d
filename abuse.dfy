/** Report counters and address bans: `reportedUsers` counts the reports
    filed against each session and `bannedIPs` maps a network address to
    the instant its ban ends. Times are milliseconds, as `Date.now()`
    gives them. */
module Abuse {
  import opened Matching

  /** A client's network address as the handshake reports it. */
  type Address = string

  /** The number of reports at which a session is banned. */
  const BanThreshold: nat := 3

  /** The length of a ban: 15 minutes in milliseconds. */
  const BanDuration: int := 15 * 60 * 1000

  datatype ReportRecord = ReportRecord(count: nat, lastReport: int)

  /** `reportedUsers.get(s) || { count: 0, lastReport: 0 }` */
  function RecordOf(reports: map<SessionId, ReportRecord>, s: SessionId): (r: ReportRecord)
    ensures s !in reports ==> r == ReportRecord(0, 0)
    ensures s in reports ==> r == reports[s]
  {
    if s in reports then reports[s] else ReportRecord(0, 0)
  }

  /** One report against `s` at time `now`: its count goes up by one from
      the default of 0, its last report time becomes `now`, and every other
      session's record is left as it was. */
  function Bump(reports: map<SessionId, ReportRecord>, s: SessionId, now: int): (r: map<SessionId, ReportRecord>)
    ensures r.Keys == reports.Keys + {s}
    ensures r[s].count == RecordOf(reports, s).count + 1
    ensures r[s].lastReport == now
    ensures forall k :: k in reports && k != s ==> r[k] == reports[k]
  {
    var prior := RecordOf(reports, s);
    reports[s := ReportRecord(prior.count + 1, now)]
  }

  /** The reports filed against `s` at the instants `times`, in order. */
  function ReportAll(reports: map<SessionId, ReportRecord>, s: SessionId, times: seq<int>): (r: map<SessionId, ReportRecord>)
    decreases |times|
  {
    if times == [] then reports
    else ReportAll(Bump(reports, s, times[0]), s, times[1..])
  }

  /** Counts only grow: after a series of reports against `s`, its count
      has grown by exactly the number of reports, its last report time is
      the last instant, and no other record changed. */
  lemma {:induction false} ReportAllCounts(reports: map<SessionId, ReportRecord>, s: SessionId, times: seq<int>)
    ensures var r := ReportAll(reports, s, times);
      && RecordOf(r, s).count == RecordOf(reports, s).count + |times|
      && (times != [] ==> RecordOf(r, s).lastReport == times[|times| - 1])
      && (times == [] ==> r == reports)
      && forall k :: k != s ==> RecordOf(r, k) == RecordOf(reports, k)
    decreases |times|
  {
    if times != [] {
      var b := Bump(reports, s, times[0]);
      ReportAllCounts(b, s, times[1..]);
      if |times| > 1 {
        assert times[1..][|times[1..]| - 1] == times[|times| - 1];
      }
      forall k | k != s ensures RecordOf(b, k) == RecordOf(reports, k) {
      }
    }
  }

  /** A session nobody has reported reaches the ban threshold with its
      third report, and not before: two reports leave it below. */
  lemma ThirdReportReachesThreshold(reports: map<SessionId, ReportRecord>, s: SessionId, times: seq<int>)
    requires s !in reports
    ensures RecordOf(ReportAll(reports, s, times), s).count >= BanThreshold <==> |times| >= 3
  {
    ReportAllCounts(reports, s, times);
  }

  /** The connect-time gate lets `addr` in at `now`: there is no ban for
      it, or its ban has ended (`now >= banUntil`). */
  predicate Admits(bans: map<Address, int>, addr: Address, now: int)
    ensures addr !in bans ==> Admits(bans, addr, now)
    ensures addr in bans ==> (Admits(bans, addr, now) <==> bans[addr] <= now)
  {
    !(addr in bans && now < bans[addr])
  }

  /** The ban table after the gate admits `addr`: an expired ban for it is
      deleted, nothing else changes. */
  function PruneExpired(bans: map<Address, int>, addr: Address, now: int): (r: map<Address, int>)
    requires Admits(bans, addr, now)
    ensures addr !in r
    ensures forall a :: a != addr ==> (a in r <==> a in bans) && (a in r ==> r[a] == bans[a])
  {
    bans - {addr}
  }

  /** A ban issued at `t` rejects its address exactly until `t` plus 15
      minutes, and from then on admits it again. */
  lemma BanLasts15Minutes(bans: map<Address, int>, addr: Address, t: int, now: int)
    ensures !Admits(bans[addr := t + BanDuration], addr, now) <==> now < t + 900000
  {
  }
}
