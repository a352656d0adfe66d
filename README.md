# Matchmaking and abuse control of the signaling server

This project models the signaling server of a random one-to-one video chat
(`server/index.js`). The server keeps five pieces of in-memory state:

- the waiting queue `waitingUsers`;
- the partner-of map `activePairs`;
- the declared match filters `userPreferences`;
- the report counters `reportedUsers`;
- the address bans `bannedIPs`.

Socket.io event handlers change this state one event at a time.

The model is in four modules:

- `Matching` (`matching.dfy`): the queue entries, the gender and interest
  compatibility test, the choice `findMatch` makes (`MatchIndex`), and the
  queue operations `splice`/`shift` (`RemoveAt`) and `filter`
  (`WithoutSession`).
- `Pairing` (`pairing.dfy`): writing and clearing pairs in the partner map.
- `Abuse` (`abuse.dfy`): report records, the threshold of 3, the
  15-minute ban and the connect-time test.
- `Server` (`server.dfy`): the class `SignalingServer` with the five
  maps as fields. It also has the connected sockets with their addresses
  and an `outbox` log of every emit. Each socket event handler is a method
  whose contract gives the whole new state in terms of the old one.
  `FindMatch` scans the queue with an index loop, as the source does.

`scenarios.dfy` holds two client scenarios, verified against the
contracts alone. In the first, a session waits, asks again without being
queued twice, and is matched. In the second, three reports ban the
partner's address, and a reconnect is refused until the ban ends.

The clock `Date.now()` is a `now` parameter. The transport's connection
count `io.engine.clientsCount` is an opaque `online` parameter.

`Valid()` holds in every reachable state. It says that no session is
queued twice, the queue holds at most one entry, and no session is its own
partner.

The source has several quirks, and the model follows them:

- The partner map is not kept symmetric. A paired session that sends
  `find_partner` (the client does so on "skip" and on applying filters) is
  linked to a new partner. Its old link is not removed first. The old
  partner still points at it and gets no `partner_disconnected`.
  `Pairing.RelinkLeavesStaleEntry` exhibits this. Symmetry is proved only
  for linking two unpaired sessions and for unlinking.
- For the same reason, a paired session can also be in the queue. Queue
  membership and pairing are not exclusive states.
- `findMatch` reads each waiting session's live preferences, not the
  snapshot stored in its queue entry.
- The gender test compares the two sessions' filters for equality. A
  male/music caller and a female/music waiting session clash on gender.
  That caller gets the waiting session only through the fallback to the
  head (`Matching.OneWaitingFemaleMusic`), not as a compatible match.
- The count is broadcast before the ban test, so a banned connection
  still triggers a count update.
- The ban test is `count >= 3`, not `== 3`. The third report already
  disconnects the partner, or finds its socket gone, and socket.io never
  reuses a session id. So no later report against that id bans again: the
  ban is skipped when the reported partner's socket is already gone.
- The queue never holds more than one entry. A session is appended only
  when `findMatch` found nobody, which happens only on an empty queue, and
  every other path removes entries. On such a queue the caller's gender and
  interest filters never change who is matched: every caller takes the
  head (`Matching.MatchIndexIgnoresFiltersOnShortQueue`). The "first fit
  further down the queue" branch of `findMatch` is never reached by the
  server.
- The forced `socket.disconnect()` in `report_user` runs the partner's
  `disconnect` handler at once. So the cleanup's emits come before the
  reporter's `report_submitted`.

## Model

| member | source | states |
|---|---|---|
| `Matching.Lookup` | server/index.js:43 | defines `userPreferences.get`: the stored value when the session has stored preferences, and nothing otherwise |
| `Matching.SharesInterest` | server/index.js:57-59 | an empty list on either side never shares an interest |
| `Matching.SharesInterestAtIndices` | server/index.js:57-59 | a restatement of `SharesInterest` by positions: some position of the caller's list holds the same tag as some position of the other list; it adds no property of the server |
| `Matching.GenderClash` | server/index.js:46-52 | a gender clash needs stored preferences on the other side and two different genders; an unset or "any" gender on either side never clashes |
| `Matching.InterestClash` | server/index.js:55-63 | an interest clash needs two non-empty lists with no tag of the caller's in the other list; an empty caller list or missing preferences never clash |
| `Matching.IsQueued` | server/index.js:97 | a session is queued iff some queue position holds an entry with its id; nobody is queued in an empty queue |
| `Matching.Compatible` | server/index.js:45-63 | defines passing both skip tests: no gender clash and no interest clash, the condition for reaching the splice at :66; a candidate without stored preferences always passes; when both genders are set and neither is "any", a passing candidate has the caller's gender |
| `Matching.Fits` | server/index.js:42-63 | a queue entry is judged by the live preferences stored for its session, not by the snapshot in the entry; a session with no stored preferences fits; otherwise it fits iff its stored preferences are compatible |
| `Matching.FitsIgnoresSnapshot` | server/index.js:42-43 | two entries of the same session fit alike whatever their snapshots, because only the live preferences are read |
| `Matching.CompatibleMeaning` | server/index.js:45-63 | a candidate passes both tests iff (either gender is unset or "any", or they are equal) and (either interest list is empty, or they share an interest) |
| `Matching.NoPreferencesAlwaysFits` | server/index.js:46-56 | a waiting session with no stored preferences passes both tests |
| `Matching.FirstFitFrom` | server/index.js:41-67 | the scan returns an index at or after `i` whose entry fits, with no fitting entry before it; or none, and then no entry from `i` on fits |
| `Matching.MatchIndex` | server/index.js:32-71 | no entry is chosen iff the queue is empty; a caller without preferences or gender gets index 0; otherwise the chosen entry is the first fitting one, or the head when none fits |
| `Matching.MatchIndexIsFirstFit` | server/index.js:41-66 | when entry `i` fits and none before it does, entry `i` is chosen |
| `Matching.MatchIndexFallsBackToHead` | server/index.js:69-70 | when no entry fits, the head is chosen, so a non-empty queue never leaves the caller waiting |
| `Matching.MatchIndexIgnoresFiltersOnShortQueue` | server/index.js:32-71 | on a queue of at most one entry every caller, whatever its filters, gets the same index, and that index is the head when the queue is non-empty |
| `Matching.OneWaitingFemaleMusic` | server/index.js:41-70 | a female/music waiting session does not fit a male/music or male/sports caller but is still taken as the head; it fits an "any"/music caller |
| `Matching.RemoveAt` | server/index.js:66 | `splice(i, 1)` shortens the queue by one, keeps the entries before `i`, and shifts the ones after `i` down by one |
| `Matching.RemoveAtMultiset` | server/index.js:66 | removing at `i` loses exactly the entry at `i` |
| `Matching.RemoveHead` | server/index.js:37 | `shift()` is removal at index 0 |
| `Matching.WithoutSession` | server/index.js:170 | the filter keeps exactly the entries of other sessions and never lengthens the queue |
| `Matching.WithoutSessionAppend` | server/index.js:170 | the filter distributes over concatenation, so the kept entries stay in order |
| `Matching.WithoutSessionAbsent` | server/index.js:170 | filtering out a session that is not queued leaves the queue unchanged |
| `Matching.RemoveAtKeepsDistinct` | server/index.js:66 | taking one entry out keeps ids distinct, and the removed session is no longer queued |
| `Matching.AppendKeepsDistinct` | server/index.js:97-117 | appending a session that the membership test found absent keeps ids distinct |
| `Matching.WithoutSessionKeepsDistinct` | server/index.js:170 | the disconnect filter keeps ids distinct |
| `Pairing.Link` | server/index.js:108-109 | writing a pair adds both keys; each side then maps to the other, and every other entry is kept |
| `Pairing.Unlink` | server/index.js:176-181 | the session and its partner lose their entries, no key is added, and every other entry is kept |
| `Pairing.LinkKeepsNoSelfPairs` | server/index.js:105-109 | linking two different sessions never pairs a session with itself |
| `Pairing.UnlinkKeepsNoSelfPairs` | server/index.js:179-180 | unlinking never pairs a session with itself |
| `Pairing.LinkUnpairedKeepsSymmetric` | server/index.js:108-109 | linking two unpaired sessions keeps a symmetric map symmetric |
| `Pairing.UnlinkKeepsSymmetric` | server/index.js:176-181 | disconnect cleanup keeps a symmetric map symmetric |
| `Pairing.RelinkLeavesStaleEntry` | server/index.js:95-109 | re-pairing a paired session breaks symmetry: the old partner still points at it |
| `Abuse.RecordOf` | server/index.js:141 | defines `reportedUsers.get(s) \|\| { count: 0, lastReport: 0 }`: the stored record, or (0, 0) for an unreported session |
| `Abuse.Bump` | server/index.js:141-144 | one report raises the reported session's count by exactly 1 and sets its last report time to `now`; other records are unchanged |
| `Abuse.ReportAllCounts` | server/index.js:141-144 | `ReportAll` applies `Bump` once per report time, in order; after n reports the count has grown by exactly n, the last report time is the last instant, and other records are unchanged |
| `Abuse.ThirdReportReachesThreshold` | server/index.js:149 | an unreported session reaches the threshold iff it gets at least 3 reports, so 2 reports never ban |
| `Abuse.PruneExpired` | server/index.js:85-87 | admitting an address deletes its expired ban and keeps every other ban |
| `Abuse.Admits` | server/index.js:79-81 | an address with no ban is admitted; a banned address is admitted iff its ban ends at or before `now` |
| `Abuse.BanLasts15Minutes` | server/index.js:79-88 | a ban issued at t refuses its address exactly while now < t + 900000 |
| `Server.CountUpdate` | server/index.js:28 | defines the `io.emit('user_count_update', { online, waiting })` payload: sent to everyone, carrying the online count and queue length it is given |
| `Server.DisconnectNotices` | server/index.js:176-183 | a disconnect sends exactly one `partner_disconnected`, to the partner, if there is one, and then one count update |
| `Server.SignalingServer.constructor` | server/index.js:18-22 | the server starts with an empty queue and empty maps |
| `Server.SignalingServer.BroadcastUserCount` | server/index.js:25-29 | one count update goes to everyone, carrying the queue length |
| `Server.SignalingServer.Connect` | server/index.js:73-88 | the count is broadcast first; the session is admitted iff its address has no ban ending after `now`; a refused session gets `banned` with the ban's end and is disconnected; an admitted session has its expired ban pruned |
| `Server.SignalingServer.SetPreferences` | server/index.js:90-93 | the session's filters are replaced wholesale |
| `Server.SignalingServer.FindMatch` | server/index.js:32-71 | returns the entry at `MatchIndex` and leaves the old queue minus that index, or returns nothing from an empty queue and leaves it unchanged |
| `Server.SignalingServer.FindPartner` | server/index.js:95-121 | no change while queued; otherwise either the caller is appended once at the tail with its preferences, or the chosen partner (never the caller) is removed from the queue and linked both ways, and only the caller gets `partner_found`; the queue stays free of duplicates and never holds more than one entry |
| `Server.SignalingServer.CallUser` | server/index.js:123-125 | the offer and the claimed sender go unchanged to the target |
| `Server.SignalingServer.AnswerCall` | server/index.js:127-129 | the answer goes unchanged to the target |
| `Server.SignalingServer.SendMessage` | server/index.js:131-136 | the text goes to the sender's partner, or nowhere when the sender has none |
| `Server.SignalingServer.Disconnect` | server/index.js:166-184 | every queue entry of the session is filtered out, its preferences are deleted, both links of its pair are deleted, its partner gets one `partner_disconnected`, and nothing else changes |
| `Server.SignalingServer.ReportUser` | server/index.js:138-164 | with no partner nothing changes; otherwise the partner's count rises by 1; at 3 or more, if the partner is connected, its address is banned until now + 900000, it gets `banned` and is disconnected with full cleanup; the reporter always gets `report_submitted` |

## Left out

- HTTP, Express, CORS and `listen` (server/index.js:1-15, 187-190), and every `console.log` are not modelled. So the report `reason` is not modelled: it is only logged.
- The socket.io transport is reduced to the `outbox` log. An emit to a session id that has no socket is still recorded, although socket.io would drop it. The online count is an opaque parameter.
- The two `Date.now()` calls in `report_user` are modelled as the same instant `now`.
- `call_user`, `answer_call` and `report_user` destructure their payload (server/index.js:123, 127, 138). A missing or `null` payload makes the handler throw before it changes any state, and the uncaught error can end the server process with all its in-memory state. `CallUser`, `AnswerCall` and `ReportUser` take well-formed arguments, so this path is not modelled.
- `Connect` does not require a fresh session id, although socket.io never reuses one. A reused id would inherit its old report count, pairing and preferences, so the model admits re-banning a reconnected id that the server cannot reach.
- Real concurrency is not modelled; each handler is one atomic step.
- Signal payloads and chat messages are opaque strings.
- Preferences whose gender is not a string or whose interests are not a list of strings are not modelled. A missing or empty gender is `""`, and a missing or empty interest list is `[]`. A `socketId` key inside the preferences, which the spread at server/index.js:117 would let override the entry's id, is not modelled.
- Session ids are taken to be non-empty, as socket.io assigns them. So JavaScript truthiness of a partner id is presence in the map.
- The client (src/app/video/page.tsx, src/components/*, src/lib/socket.ts, src/app/layout.tsx, src/app/sitemap.ts) is not part of this model.
